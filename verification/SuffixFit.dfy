/** Bounded buffers that drop from the front: the longest suffix of a list that keeps
    within a limit on the number of items and a limit on the sum of their weights. */
module SuffixFit {
  datatype Limit = Unlimited | AtMost(n: nat) {
    predicate Admits(x: nat) {
      Unlimited? || x <= n
    }
  }

  function Sum(ws: seq<nat>): nat {
    if ws == [] then 0 else ws[0] + Sum(ws[1..])
  }

  predicate Fits(ws: seq<nat>, count: Limit, total: Limit) {
    count.Admits(|ws|) && total.Admits(Sum(ws))
  }

  /** How many items the longest fitting suffix leaves out. */
  function FirstKept(ws: seq<nat>, count: Limit, total: Limit): (k: nat)
    ensures k <= |ws|
  {
    if Fits(ws, count, total) then 0 else 1 + FirstKept(ws[1..], count, total)
  }

  lemma {:induction false} KeptFits(ws: seq<nat>, count: Limit, total: Limit)
    ensures Fits(ws[FirstKept(ws, count, total)..], count, total)
  {
    if Fits(ws, count, total) {
      assert ws[0..] == ws;
    } else {
      KeptFits(ws[1..], count, total);
      assert ws[1..][FirstKept(ws[1..], count, total)..] == ws[FirstKept(ws, count, total)..];
    }
  }

  /** ... and it is the longest: no suffix that starts earlier fits. */
  lemma {:induction false} EarlierDoesNotFit(ws: seq<nat>, j: nat, count: Limit, total: Limit)
    requires j < FirstKept(ws, count, total)
    ensures !Fits(ws[j..], count, total)
  {
    if j == 0 {
      assert ws[0..] == ws;
    } else {
      EarlierDoesNotFit(ws[1..], j - 1, count, total);
      assert ws[1..][j - 1..] == ws[j..];
    }
  }

  lemma {:induction false} SumConcat(a: seq<nat>, b: seq<nat>)
    ensures Sum(a + b) == Sum(a) + Sum(b)
  {
    if a == [] {
      assert a + b == b;
    } else {
      assert (a + b)[1..] == a[1..] + b;
      SumConcat(a[1..], b);
    }
  }

  lemma SumFrom(ws: seq<nat>, at: nat)
    requires at < |ws|
    ensures Sum(ws[at..]) == ws[at] + Sum(ws[at + 1..])
  {
    assert ws[at..][1..] == ws[at + 1..];
  }

  /** A slice of a fitting list fits. */
  lemma FitsSlice(ws: seq<nat>, a: nat, b: nat, count: Limit, total: Limit)
    requires a <= b <= |ws| && Fits(ws, count, total)
    ensures Fits(ws[a..b], count, total)
  {
    assert ws == ws[..a] + (ws[a..b] + ws[b..]);
    SumConcat(ws[..a], ws[a..b] + ws[b..]);
    SumConcat(ws[a..b], ws[b..]);
  }

  lemma LaterFits(ws: seq<nat>, i: nat, j: nat, count: Limit, total: Limit)
    requires i <= j <= |ws| && Fits(ws[i..], count, total)
    ensures Fits(ws[j..], count, total)
  {
    FitsSlice(ws[i..], j - i, |ws| - i, count, total);
    assert ws[i..][j - i..|ws| - i] == ws[j..];
  }

  /** A fitting suffix is never cut into. */
  lemma KeptAtMost(ws: seq<nat>, k: nat, count: Limit, total: Limit)
    requires k <= |ws| && Fits(ws[k..], count, total)
    ensures FirstKept(ws, count, total) <= k
  {
    if k < FirstKept(ws, count, total) {
      EarlierDoesNotFit(ws, k, count, total);
    }
  }

  /** The only index whose suffix fits while the next longer one does not. */
  lemma KeptIs(ws: seq<nat>, k: nat, count: Limit, total: Limit)
    requires k <= |ws| && Fits(ws[k..], count, total)
    requires k > 0 ==> !Fits(ws[k - 1..], count, total)
    ensures FirstKept(ws, count, total) == k
  {
    KeptAtMost(ws, k, count, total);
    var first := FirstKept(ws, count, total);
    if first < k {
      KeptFits(ws, count, total);
      LaterFits(ws, first, k - 1, count, total);
    }
  }

  /** Whatever is dropped from a list stays dropped when the list grows: this is what
      lets a buffer forget its dropped items and still hold the longest fitting suffix. */
  lemma DroppedStaysDropped(ws: seq<nat>, more: seq<nat>, count: Limit, total: Limit)
    ensures FirstKept(ws, count, total) <= FirstKept(ws + more, count, total)
  {
    var k := FirstKept(ws + more, count, total);
    if k < FirstKept(ws, count, total) {
      KeptFits(ws + more, count, total);
      assert (ws + more)[k..][0..|ws| - k] == ws[k..];
      FitsSlice((ws + more)[k..], 0, |ws| - k, count, total);
      EarlierDoesNotFit(ws, k, count, total);
    }
  }
}

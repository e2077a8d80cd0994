/** The chunked line list of the console window (client/src/lib/gameLog.ts).

    A JavaScript array is an object with identity: React and the visible-lines cache both
    rely on an array, once published, never being written again.  `LineArray` is such an
    object; a method here without a `modifies` clause cannot have changed an old one. */
module LineChunks {
  import opened SuffixFit
  import opened LogText
  import opened GameLog

  const CHUNK_LINES: nat := 200

  class LineArray {
    var items: seq<GameLine>

    constructor (items: seq<GameLine>)
      ensures this.items == items
    {
      this.items := items;
    }
  }

  function ChunkOf(line: GameLine): nat { line.seqNo / CHUNK_LINES }

  // ---- What a list of chunks stands for ----

  function Values(chunks: seq<LineArray>): (css: seq<seq<GameLine>>)
    reads chunks
    ensures |css| == |chunks|
    ensures forall k :: 0 <= k < |chunks| ==> css[k] == chunks[k].items
  {
    if chunks == [] then [] else [chunks[0].items] + Values(chunks[1..])
  }

  function Flatten(css: seq<seq<GameLine>>): seq<GameLine> {
    if css == [] then [] else css[0] + Flatten(css[1..])
  }

  function Flat(chunks: seq<LineArray>): seq<GameLine>
    reads chunks
  {
    Flatten(Values(chunks))
  }

  ghost predicate NonEmpty(css: seq<seq<GameLine>>) {
    forall k :: 0 <= k < |css| ==> css[k] != []
  }

  /** Chunk keys are strictly increasing and every chunk holds the lines of its key alone:
      for a given flat list there is one such division. */
  ghost predicate Keyed(css: seq<seq<GameLine>>) {
    && NonEmpty(css)
    && (forall k, i :: 0 <= k < |css| && 0 <= i < |css[k]| ==> ChunkOf(css[k][i]) == ChunkOf(css[k][0]))
    && (forall j, k :: 0 <= j < k < |css| ==> ChunkOf(css[j][0]) < ChunkOf(css[k][0]))
  }

  ghost predicate Continues(css: seq<seq<GameLine>>, lines: seq<GameLine>) {
    && (forall i, j :: 0 <= i < j < |lines| ==> ChunkOf(lines[i]) <= ChunkOf(lines[j]))
    && (css != [] && css[|css| - 1] != [] && lines != [] ==> ChunkOf(css[|css| - 1][0]) <= ChunkOf(lines[0]))
  }

  lemma {:induction false} FlattenConcat(a: seq<seq<GameLine>>, b: seq<seq<GameLine>>)
    ensures Flatten(a + b) == Flatten(a) + Flatten(b)
  {
    if a == [] {
      assert a + b == b;
    } else {
      assert (a + b)[1..] == a[1..] + b;
      FlattenConcat(a[1..], b);
    }
  }

  lemma FlattenLast(css: seq<seq<GameLine>>, last: seq<GameLine>)
    ensures Flatten(css + [last]) == Flatten(css) + last
  {
    FlattenConcat(css, [last]);
    assert [last][1..] == [];
  }

  // ---- Appending ----

  /** One line more, as `appendLines` places it. */
  function WithLine(css: seq<seq<GameLine>>, line: GameLine): seq<seq<GameLine>>
    requires NonEmpty(css)
  {
    var n := |css| - 1;
    if css != [] && ChunkOf(css[n][0]) == ChunkOf(line) then css[..n] + [css[n] + [line]]
    else css + [[line]]
  }

  lemma WithLineKeeps(css: seq<seq<GameLine>>, line: GameLine)
    requires NonEmpty(css)
    ensures NonEmpty(WithLine(css, line))
    ensures Flatten(WithLine(css, line)) == Flatten(css) + [line]
    ensures var out := WithLine(css, line); ChunkOf(out[|out| - 1][0]) == ChunkOf(line)
    ensures Keyed(css) && (css == [] || ChunkOf(css[|css| - 1][0]) <= ChunkOf(line)) ==> Keyed(WithLine(css, line))
  {
    WithLineFlat(css, line);
    if Keyed(css) && (css == [] || ChunkOf(css[|css| - 1][0]) <= ChunkOf(line)) {
      WithLineKeyed(css, line);
    }
    hide Flatten, Keyed;
  }

  lemma WithLineFlat(css: seq<seq<GameLine>>, line: GameLine)
    requires NonEmpty(css)
    ensures Flatten(WithLine(css, line)) == Flatten(css) + [line]
  {
    hide Flatten;
    var n := |css| - 1;
    if css != [] && ChunkOf(css[n][0]) == ChunkOf(line) {
      assert css == css[..n] + [css[n]];
      FlattenLast(css[..n], css[n]);
      FlattenLast(css[..n], css[n] + [line]);
    } else {
      FlattenLast(css, [line]);
    }
  }

  lemma WithLineKeyed(css: seq<seq<GameLine>>, line: GameLine)
    requires NonEmpty(css) && Keyed(css) && (css == [] || ChunkOf(css[|css| - 1][0]) <= ChunkOf(line))
    ensures Keyed(WithLine(css, line))
  {
    hide ChunkOf;
    var n := |css| - 1;
    var out := WithLine(css, line);
    forall k, i | 0 <= k < |out| && 0 <= i < |out[k]|
      ensures ChunkOf(out[k][i]) == ChunkOf(out[k][0])
    {
      assert k < |css| && i < |css[k]| ==> out[k][i] == css[k][i];
    }
    assert forall j :: 0 <= j < |css| ==> out[j][0] == css[j][0];
  }

  function WithLines(css: seq<seq<GameLine>>, lines: seq<GameLine>): (out: seq<seq<GameLine>>)
    requires NonEmpty(css)
    ensures NonEmpty(out)
  {
    if lines == [] then css
    else
      var n := |lines| - 1;
      var most := WithLines(css, lines[..n]);
      WithLineKeeps(most, lines[n]);
      WithLine(most, lines[n])
  }

  lemma {:induction false} WithLinesFlat(css: seq<seq<GameLine>>, lines: seq<GameLine>)
    requires NonEmpty(css)
    ensures Flatten(WithLines(css, lines)) == Flatten(css) + lines
  {
    hide NonEmpty, Flatten, WithLine;
    if lines == [] {
      assert Flatten(css) + lines == Flatten(css);
    } else {
      var n := |lines| - 1;
      WithLinesFlat(css, lines[..n]);
      WithLineKeeps(WithLines(css, lines[..n]), lines[n]);
      assert Flatten(css) + lines == Flatten(css) + lines[..n] + [lines[n]];
    }
  }

  function LastKey(css: seq<seq<GameLine>>): nat
    requires css != [] && NonEmpty(css)
  {
    ChunkOf(css[|css| - 1][0])
  }

  lemma {:induction false} WithLinesKeyed(css: seq<seq<GameLine>>, lines: seq<GameLine>)
    requires NonEmpty(css) && Keyed(css) && Continues(css, lines)
    ensures var out := WithLines(css, lines);
            && Keyed(out)
            && (lines != [] ==> out != [] && LastKey(out) == ChunkOf(lines[|lines| - 1]))
  {
    if lines != [] {
      var n := |lines| - 1;
      WithLinesKeyed(css, lines[..n]);
      var most := WithLines(css, lines[..n]);
      assert most != [] ==> LastKey(most) <= ChunkOf(lines[n]);
      WithLineKeeps(most, lines[n]);
    }
  }

  method AppendLines(chunks: seq<LineArray>, lines: seq<GameLine>) returns (next: seq<LineArray>)
    requires NonEmpty(Values(chunks))
    ensures Flat(next) == Flat(chunks) + lines
    ensures NonEmpty(Values(next))
    ensures Keyed(Values(chunks)) && Continues(Values(chunks), lines) ==> Keyed(Values(next))
    ensures forall k :: 0 <= k < |chunks| - 1 ==> k < |next| && next[k] == chunks[k]
    ensures lines == [] ==> next == chunks
  {
    ghost var start := Values(chunks);
    hide WithLines, WithLine, Flatten, Keyed, Continues, NonEmpty, Owns, Values;
    WithLinesFlat(start, lines);
    if Keyed(start) && Continues(start, lines) {
      WithLinesKeyed(start, lines);
    }
    WithNoLines(start);
    if |lines| == 0 {
      return chunks;
    }
    next := chunks;
    var owned: LineArray? := null;
    ghost var css := start;
    OwnsNone(chunks);
    for i := 0 to |lines|
      invariant NonEmpty(css) && css == WithLines(start, lines[..i])
      invariant Owns(next, css, owned)
      invariant owned == null ==> next == chunks
      invariant owned != null ==> fresh(owned)
      invariant |chunks| <= |next| && forall k :: 0 <= k < |chunks| - 1 ==> next[k] == chunks[k]
    {
      WithOneMore(start, lines, i);
      next, owned := Place(next, css, owned, lines[i]);
      css := WithLine(css, lines[i]);
    }
    assert lines[..|lines|] == lines;
    OwnsValues(next, css, owned);
  }

  lemma OwnsValues(chunks: seq<LineArray>, css: seq<seq<GameLine>>, owned: LineArray?)
    requires Owns(chunks, css, owned)
    ensures Values(chunks) == css
  {
  }

  lemma OwnsNone(chunks: seq<LineArray>)
    ensures Owns(chunks, Values(chunks), null)
  {
  }

  /** The chunks stand for `css`; the array this call owns, if any, is the last one only. */
  ghost predicate Owns(chunks: seq<LineArray>, css: seq<seq<GameLine>>, owned: LineArray?)
    reads chunks
  {
    && |chunks| == |css|
    && (forall k :: 0 <= k < |css| ==> chunks[k].items == css[k])
    && (owned != null ==> |chunks| > 0 && chunks[|chunks| - 1] == owned)
    && (owned != null ==> forall k :: 0 <= k < |chunks| - 1 ==> chunks[k] != owned)
  }

  /** The body of the loop of `appendLines`: the last array is copied before its first write. */
  method Place(chunks: seq<LineArray>, ghost css: seq<seq<GameLine>>, owner: LineArray?, line: GameLine)
    returns (next: seq<LineArray>, owned: LineArray)
    requires NonEmpty(css) && Owns(chunks, css, owner)
    modifies owner
    ensures Owns(next, WithLine(css, line), owned)
    ensures owned == owner || fresh(owned)
    ensures |chunks| <= |next| && forall k :: 0 <= k < |chunks| - 1 ==> next[k] == chunks[k]
  {
    next := chunks;
    if |next| > 0 && ChunkOf(next[|next| - 1].items[0]) == ChunkOf(line) {
      if owner == null {
        owned := new LineArray(next[|next| - 1].items);
        next := next[|next| - 1 := owned];
      } else {
        owned := owner;
      }
      owned.items := owned.items + [line];
    } else {
      owned := new LineArray([line]);
      next := next + [owned];
    }
  }

  lemma WithNoLines(css: seq<seq<GameLine>>)
    requires NonEmpty(css)
    ensures WithLines(css, []) == css
  {
  }

  lemma WithOneMore(css: seq<seq<GameLine>>, lines: seq<GameLine>, i: nat)
    requires NonEmpty(css) && i < |lines|
    ensures WithLines(css, lines[..i + 1]) == WithLine(WithLines(css, lines[..i]), lines[i])
    ensures NonEmpty(WithLine(WithLines(css, lines[..i]), lines[i]))
  {
    assert lines[..i + 1][..i] == lines[..i];
  }

  // ---- Measuring ----

  function UnitWeights(lines: seq<GameLine>): (ws: seq<nat>)
    ensures |ws| == |lines|
    ensures forall k :: 0 <= k < |lines| ==> ws[k] == Units(lines[k].text)
  {
    if lines == [] then [] else [Units(lines[0].text)] + UnitWeights(lines[1..])
  }

  function TextUnits(lines: seq<GameLine>): nat { Sum(UnitWeights(lines)) }

  lemma {:induction false} UnitWeightsConcat(a: seq<GameLine>, b: seq<GameLine>)
    ensures UnitWeights(a + b) == UnitWeights(a) + UnitWeights(b)
  {
    if a == [] {
      assert a + b == b;
    } else {
      assert (a + b)[1..] == a[1..] + b;
      UnitWeightsConcat(a[1..], b);
    }
  }

  lemma TextUnitsConcat(a: seq<GameLine>, b: seq<GameLine>)
    ensures TextUnits(a + b) == TextUnits(a) + TextUnits(b)
  {
    UnitWeightsConcat(a, b);
    SumConcat(UnitWeights(a), UnitWeights(b));
  }

  lemma UnitWeightsFrom(lines: seq<GameLine>, at: nat)
    requires at <= |lines|
    ensures UnitWeights(lines[at..]) == UnitWeights(lines)[at..]
  {
  }

  method TextLength(lines: seq<GameLine>) returns (total: nat)
    ensures total == TextUnits(lines)
  {
    total := 0;
    for i := 0 to |lines|
      invariant total + Sum(UnitWeights(lines)[i..]) == TextUnits(lines)
    {
      SumFrom(UnitWeights(lines), i);
      total := total + Units(lines[i].text);
    }
  }

  /** Dropping `count` items is needed: nothing less would do, and `left` is what remains. */
  ghost predicate Needed(ws: seq<nat>, count: nat, left: nat, limit: Limit, textLimit: Limit) {
    && count <= |ws|
    && left == Sum(ws[count..])
    && (count > 0 ==> !Fits(ws[count - 1..], limit, textLimit))
  }

  lemma NeedNone(ws: seq<nat>, limit: Limit, textLimit: Limit)
    ensures Needed(ws, 0, Sum(ws), limit, textLimit)
  {
    assert ws[0..] == ws;
  }

  lemma NeedMore(ws: seq<nat>, count: nat, left: nat, limit: Limit, textLimit: Limit)
    requires Needed(ws, count, left, limit, textLimit) && count < |ws|
    requires !(limit.Admits(|ws| - count) && textLimit.Admits(left))
    ensures ws[count] <= left && Needed(ws, count + 1, left - ws[count], limit, textLimit)
  {
    SumFrom(ws, count);
  }

  lemma NeedExactly(ws: seq<nat>, count: nat, left: nat, limit: Limit, textLimit: Limit)
    requires Needed(ws, count, left, limit, textLimit)
    requires count == |ws| || (limit.Admits(|ws| - count) && textLimit.Admits(left))
    ensures count == FirstKept(ws, limit, textLimit)
  {
    KeptIs(ws, count, limit, textLimit);
  }

  /** How many of the oldest lines to drop: the least number that meets both limits. */
  method Overflow(chunks: seq<LineArray>, lines: nat, text: nat, limit: Limit, textLimit: Limit) returns (count: nat)
    requires lines == |Flat(chunks)| && text == TextUnits(Flat(chunks))
    ensures count == FirstKept(UnitWeights(Flat(chunks)), limit, textLimit)
  {
    hide Flatten, UnitWeights, FirstKept, Sum, Needed;
    ghost var css := Values(chunks);
    ghost var flat := Flatten(css);
    ghost var ws := UnitWeights(flat);
    var left: nat := text;
    count := 0;
    NeedNone(ws, limit, textLimit);
    NoChunks(css);
    for c := 0 to |chunks|
      invariant count == |Flatten(css[..c])|
      invariant Needed(ws, count, left, limit, textLimit)
    {
      var chunk := chunks[c].items;
      ghost var before := count;
      for l := 0 to |chunk|
        invariant count == before + l
        invariant Needed(ws, count, left, limit, textLimit)
      {
        LineAt(css, c, l);
        var line := chunk[l];
        if limit.Admits(lines - count) && textLimit.Admits(left) {
          NeedExactly(ws, count, left, limit, textLimit);
          return;
        }
        NeedMore(ws, count, left, limit, textLimit);
        WeightAt(flat, count);
        left := left - Units(line.text);
        count := count + 1;
      }
      NextChunk(css, c);
    }
    assert css[..|chunks|] == css;
    NeedExactly(ws, count, left, limit, textLimit);
  }

  lemma NoChunks(css: seq<seq<GameLine>>)
    ensures Flatten(css[..0]) == []
  {
  }

  lemma NextChunk(css: seq<seq<GameLine>>, c: nat)
    requires c < |css|
    ensures Flatten(css[..c + 1]) == Flatten(css[..c]) + css[c]
  {
    FlattenLast(css[..c], css[c]);
    assert css[..c + 1] == css[..c] + [css[c]];
  }

  lemma WeightAt(lines: seq<GameLine>, k: nat)
    requires k < |lines|
    ensures UnitWeights(lines)[k] == Units(lines[k].text)
  {
  }

  lemma LineAt(css: seq<seq<GameLine>>, c: nat, l: nat)
    requires c < |css| && l < |css[c]|
    ensures |Flatten(css[..c])| + l < |Flatten(css)|
    ensures Flatten(css)[|Flatten(css[..c])| + l] == css[c][l]
  {
    FlattenConcat(css[..c], css[c..]);
    assert css[..c] + css[c..] == css;
    assert css[c..][0] == css[c];
  }

  // ---- Dropping ----

  /** `css` with its first `left` lines gone, all of them from its first chunk. */
  lemma CutFirst(css: seq<seq<GameLine>>, left: nat)
    requires NonEmpty(css) && css != [] && left < |css[0]|
    ensures var out := [css[0][left..]] + css[1..];
            && NonEmpty(out)
            && (Keyed(css) ==> Keyed(out))
            && Flatten(css) == css[0][..left] + Flatten(out)
  {
    hide Keyed, ChunkOf;
    var out := [css[0][left..]] + css[1..];
    assert out[1..] == css[1..];
    assert css[0][..left] + (css[0][left..] + Flatten(css[1..])) == css[0] + Flatten(css[1..]);
    if Keyed(css) {
      CutKeyed(css, left);
    }
  }

  lemma CutKeyed(css: seq<seq<GameLine>>, left: nat)
    requires Keyed(css) && css != [] && left < |css[0]|
    ensures Keyed([css[0][left..]] + css[1..])
  {
    hide ChunkOf;
    var out := [css[0][left..]] + css[1..];
    assert ChunkOf(out[0][0]) == ChunkOf(css[0][0]);
    assert forall k :: 0 < k < |css| ==> out[k] == css[k];
  }

  lemma DropFirst(css: seq<seq<GameLine>>)
    requires NonEmpty(css) && css != []
    ensures NonEmpty(css[1..])
    ensures Keyed(css) ==> Keyed(css[1..])
    ensures Flatten(css) == css[0] + Flatten(css[1..])
  {
  }

  /** Removes exactly the `excess` oldest lines, whatever chunk borders they cross. */
  method DropOldest(chunks: seq<LineArray>, excess: nat) returns (next: seq<LineArray>, removed: seq<GameLine>)
    requires NonEmpty(Values(chunks)) && excess <= |Flat(chunks)|
    ensures removed == Flat(chunks)[..excess] && Flat(next) == Flat(chunks)[excess..]
    ensures NonEmpty(Values(next))
    ensures Keyed(Values(chunks)) ==> Keyed(Values(next))
  {
    hide Flatten, NonEmpty, Keyed;
    next, removed := chunks, [];
    ghost var css := Values(chunks);
    ghost var flat := Flatten(css);
    var left: nat := excess;
    while left > 0 && |next| > 0
      invariant Values(next) == css
      invariant removed + Flatten(css) == flat && |removed| + left == excess <= |flat|
      invariant NonEmpty(css)
      invariant Keyed(Values(chunks)) ==> Keyed(css)
      decreases left, |next|
    {
      var first := next[0];
      assert Values(next[1..]) == css[1..];
      if |first.items| <= left {
        DropFirst(css);
        assert (removed + first.items) + Flatten(css[1..]) == removed + (first.items + Flatten(css[1..]));
        removed := removed + first.items;
        left := left - |first.items|;
        next := next[1..];
        css := css[1..];
      } else {
        CutFirst(css, left);
        var cut := new LineArray(first.items[left..]);
        css := [cut.items] + css[1..];
        assert (removed + first.items[..left]) + Flatten(css) == removed + (first.items[..left] + Flatten(css));
        removed := removed + first.items[..left];
        next := [cut] + next[1..];
        left := 0;
      }
    }
    NoChunksLeft(css);
    assert |css| == |next|;
    assert |css| == 0 ==> |removed| == |flat|;
    Parted(flat, removed, Flatten(css));
  }

  lemma Parted(flat: seq<GameLine>, a: seq<GameLine>, b: seq<GameLine>)
    requires a + b == flat
    ensures flat[..|a|] == a && flat[|a|..] == b
  {
  }

  lemma NoChunksLeft(css: seq<seq<GameLine>>)
    ensures css == [] ==> Flatten(css) == []
  {
  }

  // ---- Counting ----

  datatype LevelCounts = LevelCounts(debug: int, info: int, warn: int, error: int)

  const NO_COUNTS := LevelCounts(0, 0, 0, 0)

  function Counted(counts: LevelCounts, level: Level, sign: int): LevelCounts {
    match level
    case Debug => counts.(debug := counts.debug + sign)
    case Info => counts.(info := counts.info + sign)
    case Warn => counts.(warn := counts.warn + sign)
    case Error => counts.(error := counts.error + sign)
  }

  function Plus(a: LevelCounts, sign: int, b: LevelCounts): LevelCounts
    requires sign == 1 || sign == -1
  {
    if sign == 1 then LevelCounts(a.debug + b.debug, a.info + b.info, a.warn + b.warn, a.error + b.error)
    else LevelCounts(a.debug - b.debug, a.info - b.info, a.warn - b.warn, a.error - b.error)
  }

  function Number(lines: seq<GameLine>, level: Level): nat {
    if lines == [] then 0 else (if lines[0].level == level then 1 else 0) + Number(lines[1..], level)
  }

  /** The counts recomputed from scratch. */
  function Tally(lines: seq<GameLine>): LevelCounts {
    LevelCounts(Number(lines, Debug), Number(lines, Info), Number(lines, Warn), Number(lines, Error))
  }

  method CountLevels(counts: LevelCounts, lines: seq<GameLine>, sign: int) returns (next: LevelCounts)
    requires sign == 1 || sign == -1
    ensures next == Plus(counts, sign, Tally(lines))
  {
    next := counts;
    for i := 0 to |lines|
      invariant Plus(next, sign, Tally(lines[i..])) == Plus(counts, sign, Tally(lines))
    {
      assert lines[i..][1..] == lines[i + 1..];
      next := Counted(next, lines[i].level, sign);
    }
  }

  lemma {:induction false} NumberConcat(a: seq<GameLine>, b: seq<GameLine>, level: Level)
    ensures Number(a + b, level) == Number(a, level) + Number(b, level)
  {
    if a == [] {
      assert a + b == b;
    } else {
      assert (a + b)[1..] == a[1..] + b;
      NumberConcat(a[1..], b, level);
    }
  }

  lemma TallyConcat(a: seq<GameLine>, b: seq<GameLine>)
    ensures Tally(a + b) == Plus(Tally(a), 1, Tally(b))
  {
    hide Number;
    NumberConcat(a, b, Debug);
    NumberConcat(a, b, Info);
    NumberConcat(a, b, Warn);
    NumberConcat(a, b, Error);
  }
}

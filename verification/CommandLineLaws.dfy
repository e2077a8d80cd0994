/** Reading back what was printed: when `Split(Format(words))` gives the words again. */
module CommandLineLaws {
  import opened Wrappers
  import opened JsonText
  import opened CommandLine

  // ---- Hexadecimal digits ----

  function Pow16(digits: nat): nat {
    if digits == 0 then 1 else 16 * Pow16(digits - 1)
  }

  lemma DigitValue(n: nat)
    requires n < 16
    ensures HexValue(HexDigit(n)) == n
  {}

  lemma {:induction false} HexReadsBack(n: nat, digits: nat)
    requires n < Pow16(digits)
    ensures FromHex(Hex(n, digits)) == n
  {
    hide HexDigit, HexValue, IsHexDigit;
    if digits > 0 {
      HexReadsBack(n / 16, digits - 1);
      DigitValue(n % 16);
      assert Hex(n, digits)[..digits - 1] == Hex(n / 16, digits - 1);
    }
  }

  lemma Sizes()
    ensures Pow16(2) == 0x100 && Pow16(4) == 0x1_0000 && Pow16(8) == 0x1_0000_0000
  {
    assert Pow16(4) == 16 * 16 * Pow16(2);
    assert Pow16(6) == 16 * 16 * Pow16(4);
    assert Pow16(8) == 16 * 16 * Pow16(6);
  }

  // ---- One character ----

  lemma HexEscapeReadsBack(c: char, digits: nat, limit: nat, rest: string)
    requires c as nat < Pow16(digits) && c as nat < limit
    ensures UnquoteHex(Hex(c as nat, digits) + rest, digits, limit) == Some((c, rest))
  {
    hide Hex, FromHex, IsHexDigit;
    var text := Hex(c as nat, digits) + rest;
    HexReadsBack(c as nat, digits);
    assert text[..digits] == Hex(c as nat, digits) && text[digits..] == rest;
    assert forall i :: 0 <= i < digits ==> text[i] == Hex(c as nat, digits)[i];
  }

  predicate Named(c: char) {
    c in {'\U{7}', '\U{8}', '\U{C}', '\n', '\r', '\t', '\U{B}'}
  }

  /** How a character is escaped: by itself, after one backslash, or by its number. */
  lemma EscapeShape(c: char, printable: set<char>)
    ensures c == '"' || c == '\\' ==> Escape(c, printable) == ['\\', c]
    ensures c != '"' && c != '\\' && c in printable ==> Escape(c, printable) == [c]
    ensures c != '"' && c != '\\' && c !in printable && !Named(c) ==>
              Escape(c, printable) == if c < ' ' || c == '\U{7F}' then "\\x" + Hex(c as nat, 2)
                                      else if c < '\U{10000}' then "\\u" + Hex(c as nat, 4)
                                      else "\\U" + Hex(c as nat, 8)
    ensures Named(c) && c !in printable ==>
              |Escape(c, printable)| == 2 && Escape(c, printable)[0] == '\\' &&
              Escape(c, printable)[1] in {'a', 'b', 'f', 'n', 'r', 't', 'v'} &&
              forall rest: string :: UnquoteChar(Escape(c, printable) + rest) == Some((c, rest))
  {
    hide Hex;
    if Named(c) && c !in printable {
      forall rest: string
        ensures UnquoteChar(Escape(c, printable) + rest) == Some((c, rest))
      {
        assert (Escape(c, printable) + rest)[2..] == rest;
      }
    }
  }

  lemma PrefixedHex(mark: char, c: char, digits: nat, rest: string)
    ensures (['\\', mark] + Hex(c as nat, digits) + rest)[2..] == Hex(c as nat, digits) + rest
  {
    hide Hex;
  }

  lemma CharacterReadsBack(c: char, printable: set<char>, rest: string)
    requires '\n' !in printable
    ensures UnquoteChar(Escape(c, printable) + rest) == Some((c, rest))
  {
    hide Escape, Hex, UnquoteHex;
    EscapeShape(c, printable);
    var text := Escape(c, printable) + rest;
    if c == '"' || c == '\\' {
      assert text[2..] == rest;
    } else if c in printable {
      assert text[1..] == rest;
    } else if !Named(c) {
      Sizes();
      if c < ' ' || c == '\U{7F}' {
        HexEscapeReadsBack(c, 2, 0x80, rest);
        PrefixedHex('x', c, 2, rest);
      } else if c < '\U{10000}' {
        HexEscapeReadsBack(c, 4, 0x11_0000, rest);
        PrefixedHex('u', c, 4, rest);
      } else {
        HexEscapeReadsBack(c, 8, 0x11_0000, rest);
        PrefixedHex('U', c, 8, rest);
      }
    }
  }

  // ---- One quoted word ----

  lemma {:induction false} EscapedReadsBack(word: string, printable: set<char>)
    requires '\n' !in printable
    ensures Unquoted(Escaped(word, printable)) == Some(word)
  {
    hide Escape, UnquoteChar;
    if word != "" {
      EscapedReadsBack(word[1..], printable);
      CharacterReadsBack(word[0], printable, Escaped(word[1..], printable));
      EscapeIsSomething(word[0], printable);
      assert word == [word[0]] + word[1..];
    }
  }

  lemma EscapeIsSomething(c: char, printable: set<char>)
    ensures Escape(c, printable) != ""
  {}

  lemma {:induction false} ClosesAfter(plain: string, rest: string)
    requires forall i :: 0 <= i < |plain| ==> plain[i] != '"' && plain[i] != '\\'
    ensures CloseAt(plain + rest, '"', true) ==
            match CloseAt(rest, '"', true) case None => None case Some(at) => Some(|plain| + at)
  {
    if plain == "" {
      assert plain + rest == rest;
    } else {
      ClosesAfter(plain[1..], rest);
      assert (plain + rest)[1..] == plain[1..] + rest;
    }
  }

  lemma ClosesAfterPair(c: char, rest: string)
    ensures CloseAt(['\\', c] + rest, '"', true) ==
            match CloseAt(rest, '"', true) case None => None case Some(at) => Some(2 + at)
  {
    assert (['\\', c] + rest)[2..] == rest;
  }

  lemma ClosesAfterCharacter(c: char, printable: set<char>, rest: string)
    ensures CloseAt(Escape(c, printable) + rest, '"', true) ==
            match CloseAt(rest, '"', true) case None => None case Some(at) => Some(|Escape(c, printable)| + at)
  {
    hide CloseAt, Hex;
    var text := Escape(c, printable);
    EscapeShape(c, printable);
    if c != '"' && c != '\\' && c in printable {
      ClosesAfter(text, rest);
    } else {
      EscapeStartsWithPair(c, printable);
      var plain := text[2..];
      ClosesAfter(plain, rest);
      ClosesAfterPair(text[1], plain + rest);
      assert ['\\', text[1]] + (plain + rest) == text + rest;
    }
  }

  lemma EscapeStartsWithPair(c: char, printable: set<char>)
    requires c == '"' || c == '\\' || c !in printable
    ensures var text := Escape(c, printable);
            |text| >= 2 && text[0] == '\\' && forall i :: 2 <= i < |text| ==> text[i] != '"' && text[i] != '\\'
  {
    hide Hex;
  }

  lemma {:induction false} ClosesAtTheEnd(word: string, printable: set<char>, rest: string)
    ensures CloseAt(Escaped(word, printable) + "\"" + rest, '"', true) == Some(|Escaped(word, printable)|)
  {
    hide Escape;
    var after := Escaped(word, printable) + "\"" + rest;
    if word == "" {
      assert after[0] == '"';
    } else {
      var later := Escaped(word[1..], printable) + "\"" + rest;
      ClosesAtTheEnd(word[1..], printable, rest);
      ClosesAfterCharacter(word[0], printable, later);
      assert after == Escape(word[0], printable) + later;
    }
  }

  lemma QuotedWordReadsBack(word: string, printable: set<char>, rest: string)
    requires '\n' !in printable && Boundary(rest)
    ensures Next(Quote(word, printable) + rest) == Ok((word, rest))
  {
    hide Escaped, CloseAt, Unquoted, BracketEnd, SpaceAt;
    var inside := Escaped(word, printable);
    var line := Quote(word, printable) + rest;
    assert line[1..] == inside + "\"" + rest;
    ClosesAtTheEnd(word, printable, rest);
    EscapedReadsBack(word, printable);
    assert line[1..|inside| + 1] == inside;
    assert line[|inside| + 2..] == rest;
  }

  // ---- One bare word ----

  lemma {:induction false} SpaceAfter(word: string, rest: string)
    requires (forall i :: 0 <= i < |word| ==> !IsSpace(word[i])) && Boundary(rest)
    ensures SpaceAt(word + rest) == |word|
  {
    hide IsSpace;
    if word == "" {
      assert word + rest == rest;
    } else {
      SpaceAfter(word[1..], rest);
      assert (word + rest)[1..] == word[1..] + rest;
    }
  }

  /** A bare word that starts with a bracket may be read on into the words after it. */
  lemma BareWordReadsBack(word: string, rest: string)
    requires !NeedsQuotes(word) && Boundary(rest)
    ensures BracketEnd(word + rest).Some? ==> BracketEnd(word + rest).value >= |word|
    ensures Next(word + rest) == Ok((word, rest)) <==>
            !(BracketEnd(word + rest).Some? && BracketEnd(word + rest).value > |word|)
  {
    hide IsSpace, JsonEnd;
    var line := word + rest;
    SpaceAfter(word, rest);
    assert line[..|word|] == word && line[|word|..] == rest;
    assert forall e :: 0 <= e < |word| ==> !Boundary(line[e..]);
  }

  // ---- The whole line ----

  function Rest(words: seq<string>, printable: set<char>): string
    requires words != []
  {
    if |words| == 1 then "" else " " + Format(words[1..], printable)
  }

  lemma FirstAndRest(words: seq<string>, printable: set<char>)
    requires words != []
    ensures Format(words, printable) == Word(words[0], printable) + Rest(words, printable)
    ensures Boundary(Rest(words, printable))
  {
    hide Word;
    var word := Word(words[0], printable);
    if |words| == 1 {
      assert word + "" == word;
    } else {
      assert word + " " + Format(words[1..], printable) == word + (" " + Format(words[1..], printable));
    }
  }

  lemma WordIsTight(word: string, printable: set<char>)
    ensures var text := Word(word, printable); text != "" && !IsSpace(text[0]) && !IsSpace(text[|text| - 1])
  {
    hide Escaped;
    assert !IsSpace('"');
  }

  lemma {:induction false} FormatIsTight(words: seq<string>, printable: set<char>)
    requires words != []
    ensures var line := Format(words, printable); line != "" && !IsSpace(line[0]) && !IsSpace(line[|line| - 1])
  {
    hide Word, IsSpace;
    WordIsTight(words[0], printable);
    if |words| > 1 {
      FormatIsTight(words[1..], printable);
    }
  }

  lemma FormatIsTrimmed(words: seq<string>, printable: set<char>)
    ensures Trim(Format(words, printable)) == Format(words, printable)
    ensures Trim(" " + Format(words, printable)) == Format(words, printable)
  {
    hide Word, Format;
    var line := Format(words, printable);
    assert (" " + line)[1..] == line;
    assert words == [] ==> line == "" by { FormatOfNone(words, printable); }
    if words != [] {
      FormatIsTight(words, printable);
    }
  }

  lemma FormatOfNone(words: seq<string>, printable: set<char>)
    ensures words == [] ==> Format(words, printable) == ""
  {}

  /** A bare word that starts with a bracket opens a JSON value that ends in a later word. */
  predicate RunsOn(words: seq<string>, i: nat, printable: set<char>)
    requires i < |words|
  {
    !NeedsQuotes(words[i]) &&
    var end := BracketEnd(Format(words[i..], printable));
    end.Some? && end.value > |words[i]|
  }

  lemma FirstReadsBack(words: seq<string>, printable: set<char>)
    requires words != [] && '\n' !in printable
    ensures Next(Format(words, printable)) == Ok((words[0], Rest(words, printable))) <==> !RunsOn(words, 0, printable)
    ensures RunsOn(words, 0, printable) ==>
              var next := Next(Format(words, printable)); next.Ok? && next.value.0 != words[0]
  {
    hide Format, Rest, NeedsQuotes, Quote, BracketEnd, SpaceAt, CloseAt, Unquoted, IsSpace;
    var line := Format(words, printable);
    assert words[0..] == words;
    FirstAndRest(words, printable);
    if NeedsQuotes(words[0]) {
      QuotedWordReadsBack(words[0], printable, Rest(words, printable));
    } else {
      BareWordReadsBack(words[0], Rest(words, printable));
      if RunsOn(words, 0, printable) {
        NoQuoteFirst(words[0], Rest(words, printable));
        assert |Next(line).value.0| > |words[0]|;
      }
    }
  }

  lemma NoQuoteFirst(word: string, rest: string)
    requires !NeedsQuotes(word)
    ensures (word + rest)[0] !in {'"', '\''}
  {
    hide IsSpace;
  }

  /** A line printed from words reads back as those words just when no bare word with a bracket runs
      on into the words after it; everything else is quoted or ends at the space that follows it. */
  lemma {:induction false} RoundTrip(words: seq<string>, printable: set<char>)
    requires '\n' !in printable
    ensures Split(Format(words, printable)) == Ok(words) <==>
            forall i :: 0 <= i < |words| ==> !RunsOn(words, i, printable)
    decreases |words|
  {
    hide Format, Next, Trim, RunsOn;
    var line := Format(words, printable);
    FormatIsTrimmed(words, printable);
    FormatOfNone(words, printable);
    if words != [] {
      var rest := words[1..];
      RoundTrip(rest, printable);
      FirstReadsBack(words, printable);
      SplitStep(words, printable);
      forall i | 0 <= i < |rest|
        ensures RunsOn(rest, i, printable) <==> RunsOn(words, i + 1, printable)
      {
        LaterRunsOn(words, i, printable);
      }
      assert forall i :: 1 <= i < |words| ==> (RunsOn(words, i, printable) <==> RunsOn(rest, i - 1, printable));
      assert words == [words[0]] + rest;
    }
  }

  lemma LaterRunsOn(words: seq<string>, i: nat, printable: set<char>)
    requires i + 1 < |words|
    ensures RunsOn(words[1..], i, printable) <==> RunsOn(words, i + 1, printable)
  {
    hide Format, BracketEnd, NeedsQuotes;
    assert words[1..][i..] == words[i + 1..];
  }

  /** One pass of Split over a printed line. */
  lemma SplitStep(words: seq<string>, printable: set<char>)
    requires words != []
    ensures var line := Format(words, printable);
            line != "" &&
            var next := Next(line);
            (next == Ok((words[0], Rest(words, printable))) ==>
               Split(line) == match Split(Format(words[1..], printable))
                              case Err(e) => Err(e)
                              case Ok(more) => Ok([words[0]] + more)) &&
            (next.Ok? && next.value.0 != words[0] ==> Split(line) != Ok(words))
  {
    hide Format, Next, Trim;
    var line := Format(words, printable);
    FormatIsTight(words, printable);
    FormatIsTrimmed(words, printable);
    FormatIsTrimmed(words[1..], printable);
    FormatOfNone(words[1..], printable);
    SameTrimmed(Rest(words, printable), Format(words[1..], printable));
  }

  lemma SameTrimmed(line: string, other: string)
    requires Trim(line) == Trim(other)
    ensures Split(line) == Split(other)
  {
    hide Next, Trim;
  }

  /** It is enough that every word that starts with a bracket has a quote, a backslash or a space. */
  lemma QuotedBracketsRoundTrip(words: seq<string>, printable: set<char>)
    requires '\n' !in printable
    requires forall i :: 0 <= i < |words| && words[i] != "" && words[i][0] in {'{', '['} ==>
               exists k :: 0 <= k < |words[i]| && (words[i][k] in {'"', '\'', '\\'} || IsSpace(words[i][k]))
    ensures Split(Format(words, printable)) == Ok(words)
  {
    hide Format, Split, IsSpace, JsonEnd;
    RoundTrip(words, printable);
    forall i | 0 <= i < |words|
      ensures !RunsOn(words, i, printable)
    {
      if !NeedsQuotes(words[i]) {
        assert words[i..][0] == words[i];
        FirstAndRest(words[i..], printable);
      }
    }
  }

  /** Two bare words that together are one JSON value come back as one. */
  lemma BracketsMerge(printable: set<char>)
    ensures Split(Format(["[", "]"], printable)) == Ok(["[ ]"])
  {
    hide *;
    var words := ["[", "]"];
    FormatOfBrackets(words, printable);
    FormatIsTrimmed(words, printable);
    NextOfBrackets("[ ]");
    SplitOfWhole("[ ]");
  }

  lemma FormatOfBrackets(words: seq<string>, printable: set<char>)
    requires words == ["[", "]"]
    ensures Format(words, printable) == "[ ]"
  {
    assert words[1..] == ["]"];
    assert !NeedsQuotes("[") && !NeedsQuotes("]");
  }

  lemma NextOfBrackets(line: string)
    requires line == "[ ]"
    ensures Next(line) == Ok((line, ""))
  {
    assert SkipSpace(line, 2) == 2;
    assert SkipSpace(line, 1) == 2;
    assert ValueEnd(line, 0, 0) == Some(3);
    assert line[3..] == "" && line[..3] == line;
  }

  lemma SplitOfWhole(line: string)
    requires line != "" && Trim(line) == line && Next(line) == Ok((line, ""))
    ensures Split(line) == Ok([line])
  {
    hide Next;
    assert Split("") == Ok([]);
    assert [line] + [] == [line];
  }
}

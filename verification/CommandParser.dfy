/** The command line's printer and parser as loops (server/internal/command/arguments.go), each
    proved to compute what `CommandLine` defines. */
module CommandParser {
  import opened Wrappers
  import opened JsonText
  import opened CommandLine
  import opened CommandLineLaws

  function Prepend(arguments: seq<string>, more: Result<seq<string>>): Result<seq<string>> {
    match more
    case Err(_) => more
    case Ok(rest) => Ok(arguments + rest)
  }

  function Shifted(at: Option<nat>, start: nat): Option<nat> {
    match at
    case None => None
    case Some(n) => Some(n + start)
  }

  /** Looks for the closing quote of a line that starts with one; past the end when there is none. */
  method FindClose(line: string) returns (end: nat)
    requires line != ""
    ensures CloseAt(line[1..], line[0], line[0] == '"') == if end < |line| then Some(end - 1) else None
    ensures end >= 1
  {
    hide CloseAt;
    var quote := line[0];
    end := 1;
    NothingToClose(line, quote);
    while end < |line|
      invariant 1 <= end <= |line| + 1
      invariant CloseAt(line[1..], quote, quote == '"') ==
                if end <= |line| then Shifted(CloseAt(line[end..], quote, quote == '"'), end - 1) else None
      decreases |line| + 1 - end
    {
      CloseStep(line, end, quote, quote == '"');
      if quote == '"' && line[end] == '\\' {
        end := end + 2;
        continue;
      }
      if line[end] == quote {
        break;
      }
      end := end + 1;
    }
  }

  lemma NothingToClose(line: string, quote: char)
    ensures CloseAt(line[|line|..], quote, quote == '"').None?
  {}

  lemma CloseStep(line: string, i: nat, quote: char, escapes: bool)
    requires i < |line|
    ensures CloseAt(line[i..], quote, escapes) ==
            if escapes && line[i] == '\\' then
              if i + 1 == |line| then None else Shifted(CloseAt(line[i + 2..], quote, escapes), 2)
            else if line[i] == quote then Some(0)
            else Shifted(CloseAt(line[i + 1..], quote, escapes), 1)
  {
    assert line[i..][1..] == line[i + 1..];
    if i + 1 < |line| {
      assert line[i..][2..] == line[i + 2..];
    }
  }

  lemma {:induction false} TrimRightTwice(line: string)
    ensures TrimRight(TrimRight(line)) == TrimRight(line)
  {
    if line != "" && IsSpace(line[|line| - 1]) {
      TrimRightTwice(line[..|line| - 1]);
    }
  }

  lemma TrimTwice(line: string)
    ensures Trim(Trim(line)) == Trim(line)
  {
    hide IsSpace;
    TrimmedStart(line);
    TrimRightTwice(TrimLeft(line));
    assert TrimLeft(Trim(line)) == Trim(line);
  }

  lemma NextStep(line: string, arguments: seq<string>)
    requires line != "" && Trim(line) == line
    ensures !IsSpace(line[0])
    ensures Prepend(arguments, Split(line)) ==
            match Next(line)
            case Err(reason) => Err(reason)
            case Ok((word, rest)) => Prepend(arguments + [word], Split(Trim(rest)))
  {
    hide Next, Trim, IsSpace;
    TrimmedStart(line);
    var next := Next(line);
    if next.Ok? {
      TrimTwice(next.value.1);
      SameTrimmed(next.value.1, Trim(next.value.1));
      var more := Split(next.value.1);
      if more.Ok? {
        assert arguments + ([next.value.0] + more.value) == (arguments + [next.value.0]) + more.value;
      }
    }
  }

  /** Every pass takes at least one character, so the parser ends on any line. */
  method SplitLine(input: string) returns (result: Result<seq<string>>)
    ensures result == Split(input)
  {
    hide Split, Trim, IsSpace, JsonEnd, Unquoted, CloseAt;
    TrimTwice(input);
    SameTrimmed(input, Trim(input));
    var line := Trim(input);
    var arguments: seq<string> := [];
    NothingBefore(Split(line));
    while line != ""
      invariant Trim(line) == line && Split(input) == Prepend(arguments, Split(line))
      decreases |line|
    {
      NextStep(line, arguments);
      var word, rest;
      if line[0] == '"' || line[0] == '\'' {
        var end := FindClose(line);
        if end >= |line| {
          return Err(Unclosed);
        }
        word := line[1..end];
        if line[0] == '"' {
          var decoded := Unquoted(line[1..end]);
          if decoded.None? {
            return Err(BadEscape);
          }
          word := decoded.value;
        }
        rest := line[end + 1..];
        if !Boundary(rest) {
          return Err(NoSpaceAfterQuotes);
        }
      } else {
        var end := if line[0] == '{' || line[0] == '[' then JsonEnd(line) else None;
        if end.Some? && Boundary(line[end.value..]) {
          word, rest := line[..end.value], line[end.value..];
        } else {
          var space := FirstSpace(line);
          word, rest := line[..space], line[space..];
        }
      }
      assert Next(line) == Ok((word, rest));
      arguments := arguments + [word];
      TrimTwice(rest);
      line := Trim(rest);
    }
    EmptyLine(arguments);
    result := Ok(arguments);
  }

  method FirstSpace(line: string) returns (at: nat)
    ensures at == SpaceAt(line)
  {
    hide IsSpace;
    at := 0;
    while at < |line| && !IsSpace(line[at])
      invariant at <= |line| && SpaceAt(line) == at + SpaceAt(line[at..])
    {
      assert line[at..][1..] == line[at + 1..];
      at := at + 1;
    }
  }

  lemma NothingBefore(more: Result<seq<string>>)
    ensures Prepend([], more) == more
  {
    if more.Ok? {
      assert [] + more.value == more.value;
    }
  }

  lemma EmptyLine(arguments: seq<string>)
    ensures Prepend(arguments, Split("")) == Ok(arguments)
  {
    assert arguments + [] == arguments;
  }

  // ---- Printing ----

  function Join(parts: seq<string>): string {
    if parts == [] then "" else if |parts| == 1 then parts[0] else parts[0] + " " + Join(parts[1..])
  }

  lemma {:induction false} JoinedWords(words: seq<string>, parts: seq<string>, printable: set<char>)
    requires |parts| == |words| && forall i :: 0 <= i < |words| ==> parts[i] == Word(words[i], printable)
    ensures Join(parts) == Format(words, printable)
  {
    hide Word;
    if |words| > 1 {
      JoinedWords(words[1..], parts[1..], printable);
    }
  }

  method FormatWords(words: seq<string>, printable: set<char>) returns (line: string)
    ensures line == Format(words, printable)
  {
    hide Quote, IsSpace;
    var parts := new string[|words|](_ => "");
    for index := 0 to |words|
      invariant forall i :: 0 <= i < index ==> parts[i] == Word(words[i], printable)
    {
      var word := words[index];
      if NeedsQuotes(word) {
        word := Quote(word, printable);
      }
      parts[index] := word;
    }
    JoinedWords(words, parts[..], printable);
    line := Join(parts[..]);
  }
}

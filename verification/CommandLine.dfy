/** Printing a command's arguments on one line and reading them back
    (server/internal/command/arguments.go), with Go's `strconv.Quote` and `strconv.Unquote` for
    double quotes. Texts are lists of Unicode characters.

    `printable` is the set of characters that Quote leaves as they are. */
module CommandLine {
  import opened Wrappers
  import opened JsonText

  datatype Result<+T> = Ok(value: T) | Err(reason: Reason)
  datatype Reason = Unclosed | BadEscape | NoSpaceAfterQuotes

  predicate IsSpace(c: char) {
    c in {'\t', '\n', '\U{B}', '\U{C}', '\r', ' ', '\U{85}', '\U{A0}', '\U{1680}', '\U{2028}', '\U{2029}', '\U{202F}',
          '\U{205F}', '\U{3000}'} ||
    '\U{2000}' <= c <= '\U{200A}'
  }

  // ---- Quote ----

  function HexDigit(n: nat): (c: char)
    requires n < 16
    ensures IsHexDigit(c)
  {
    if n < 10 then '0' + n as char else 'a' + (n - 10) as char
  }

  function Hex(n: nat, digits: nat): (text: string)
    ensures |text| == digits
    ensures forall i :: 0 <= i < digits ==> IsHexDigit(text[i])
  {
    if digits == 0 then "" else Hex(n / 16, digits - 1) + [HexDigit(n % 16)]
  }

  function Escape(c: char, printable: set<char>): string {
    if c == '"' || c == '\\' then ['\\', c]
    else if c in printable then [c]
    else match c
      case '\U{7}' => "\\a"
      case '\U{8}' => "\\b"
      case '\U{C}' => "\\f"
      case '\n' => "\\n"
      case '\r' => "\\r"
      case '\t' => "\\t"
      case '\U{B}' => "\\v"
      case _ =>
        if c < ' ' || c == '\U{7F}' then "\\x" + Hex(c as nat, 2)
        else if c < '\U{10000}' then "\\u" + Hex(c as nat, 4)
        else "\\U" + Hex(c as nat, 8)
  }

  function Escaped(word: string, printable: set<char>): string {
    if word == "" then "" else Escape(word[0], printable) + Escaped(word[1..], printable)
  }

  function Quote(word: string, printable: set<char>): string {
    "\"" + Escaped(word, printable) + "\""
  }

  // ---- Unquote ----

  function HexValue(c: char): nat
    requires IsHexDigit(c)
  {
    if c <= '9' then (c - '0') as nat
    else if c >= 'a' then (c - 'a') as nat + 10
    else (c - 'A') as nat + 10
  }

  function FromHex(text: string): nat
    requires forall i :: 0 <= i < |text| ==> IsHexDigit(text[i])
  {
    if text == "" then 0 else 16 * FromHex(text[..|text| - 1]) + HexValue(text[|text| - 1])
  }

  predicate IsCharacter(n: nat) {
    n < 0xD800 || 0xE000 <= n < 0x11_0000
  }

  /** A numeric escape; one over 0x7F with `\x` or octal digits names a byte that is no character by
      itself, which the model does not read. */
  function Numeric(text: string, limit: nat): Option<char>
    requires forall i :: 0 <= i < |text| ==> IsHexDigit(text[i])
  {
    var n := FromHex(text);
    if n < limit && IsCharacter(n) then Some(n as char) else None
  }

  /** The first character of quoted text and what follows it. */
  function UnquoteChar(text: string): (first: Option<(char, string)>)
    requires text != ""
    ensures first.Some? ==> |first.value.1| < |text|
  {
    if text[0] == '"' || text[0] == '\n' then None
    else if text[0] != '\\' then Some((text[0], text[1..]))
    else if |text| == 1 then None
    else
      var rest := text[2..];
      match text[1]
      case 'a' => Some(('\U{7}', rest))
      case 'b' => Some(('\U{8}', rest))
      case 'f' => Some(('\U{C}', rest))
      case 'n' => Some(('\n', rest))
      case 'r' => Some(('\r', rest))
      case 't' => Some(('\t', rest))
      case 'v' => Some(('\U{B}', rest))
      case '\\' => Some(('\\', rest))
      case '"' => Some(('"', rest))
      case 'x' => UnquoteHex(rest, 2, 0x80)
      case 'u' => UnquoteHex(rest, 4, 0x11_0000)
      case 'U' => UnquoteHex(rest, 8, 0x11_0000)
      case _ => UnquoteOctal(text[1..])
  }

  function UnquoteHex(text: string, digits: nat, limit: nat): (first: Option<(char, string)>)
    ensures first.Some? ==> |first.value.1| <= |text|
  {
    if |text| < digits || exists i :: 0 <= i < digits && !IsHexDigit(text[i]) then None
    else
      var c := Numeric(text[..digits], limit);
      if c.None? then None else Some((c.value, text[digits..]))
  }

  function UnquoteOctal(text: string): (first: Option<(char, string)>)
    ensures first.Some? ==> |first.value.1| <= |text|
  {
    if |text| < 3 || exists i :: 0 <= i < 3 && !('0' <= text[i] <= '7') then None
    else
      var n := 64 * (text[0] - '0') as nat + 8 * (text[1] - '0') as nat + (text[2] - '0') as nat;
      if n < 0x80 then Some((n as char, text[3..])) else None
  }

  function Unquoted(text: string): Option<string>
    decreases |text|
  {
    if text == "" then Some("")
    else
      var first := UnquoteChar(text);
      if first.None? then None
      else
        var rest := Unquoted(first.value.1);
        if rest.None? then None else Some([first.value.0] + rest.value)
  }

  // ---- Format ----

  predicate NeedsQuotes(word: string) {
    word == "" || exists i :: 0 <= i < |word| && (word[i] in {'"', '\'', '\\'} || IsSpace(word[i]))
  }

  function Word(word: string, printable: set<char>): string {
    if NeedsQuotes(word) then Quote(word, printable) else word
  }

  function Format(words: seq<string>, printable: set<char>): string {
    if words == [] then ""
    else if |words| == 1 then Word(words[0], printable)
    else Word(words[0], printable) + " " + Format(words[1..], printable)
  }

  // ---- Split ----

  function TrimLeft(line: string): (trimmed: string)
    ensures |trimmed| <= |line|
  {
    if line != "" && IsSpace(line[0]) then TrimLeft(line[1..]) else line
  }

  function TrimRight(line: string): (trimmed: string)
    ensures |trimmed| <= |line|
  {
    if line != "" && IsSpace(line[|line| - 1]) then TrimRight(line[..|line| - 1]) else line
  }

  function Trim(line: string): (trimmed: string)
    ensures |trimmed| <= |line|
  {
    TrimRight(TrimLeft(line))
  }

  /** Where the quote that opened just before `line` closes; with `escapes` a backslash hides the
      character after it. */
  function CloseAt(line: string, quote: char, escapes: bool): (at: Option<nat>)
    ensures at.Some? ==> at.value < |line|
  {
    if line == "" then None
    else if escapes && line[0] == '\\' then
      if |line| == 1 then None
      else
        var later := CloseAt(line[2..], quote, escapes);
        if later.None? then None else Some(later.value + 2)
    else if line[0] == quote then Some(0)
    else
      var later := CloseAt(line[1..], quote, escapes);
      if later.None? then None else Some(later.value + 1)
  }

  predicate Boundary(line: string) {
    line == "" || IsSpace(line[0])
  }

  function SpaceAt(line: string): (at: nat)
    ensures at <= |line|
  {
    if line == "" || IsSpace(line[0]) then 0 else 1 + SpaceAt(line[1..])
  }

  /** The value a word that starts with a bracket is read to, with the words it runs on into. */
  function BracketEnd(line: string): (end: Option<nat>)
    ensures end.Some? ==> 0 < end.value <= |line|
  {
    var end := if line != "" && line[0] in {'{', '['} then JsonEnd(line) else None;
    if end.Some? && Boundary(line[end.value..]) then end else None
  }

  /** The first argument of a trimmed line and the rest of the line. */
  function Next(line: string): (next: Result<(string, string)>)
    requires line != ""
    ensures next.Ok? && !IsSpace(line[0]) ==> |next.value.1| < |line|
  {
    if line[0] in {'"', '\''} then
      var at := CloseAt(line[1..], line[0], line[0] == '"');
      if at.None? then Err(Unclosed)
      else
        var inside := line[1..at.value + 1];
        var word := if line[0] == '"' then Unquoted(inside) else Some(inside);
        if word.None? then Err(BadEscape)
        else if !Boundary(line[at.value + 2..]) then Err(NoSpaceAfterQuotes)
        else Ok((word.value, line[at.value + 2..]))
    else if BracketEnd(line).Some? then Ok((line[..BracketEnd(line).value], line[BracketEnd(line).value..]))
    else Ok((line[..SpaceAt(line)], line[SpaceAt(line)..]))
  }

  lemma TrimmedStart(line: string)
    ensures Trim(line) != "" ==> !IsSpace(Trim(line)[0])
  {
    TrimLeftStart(line);
    TrimRightStart(TrimLeft(line));
  }

  lemma {:induction false} TrimLeftStart(line: string)
    ensures TrimLeft(line) != "" ==> !IsSpace(TrimLeft(line)[0])
  {
    if line != "" && IsSpace(line[0]) {
      TrimLeftStart(line[1..]);
    }
  }

  lemma {:induction false} TrimRightStart(line: string)
    ensures TrimRight(line) != "" ==> line != "" && TrimRight(line)[0] == line[0]
  {
    if line != "" && IsSpace(line[|line| - 1]) {
      TrimRightStart(line[..|line| - 1]);
    }
  }

  function Split(line: string): Result<seq<string>>
    decreases |line|
  {
    TrimmedStart(line);
    var trimmed := Trim(line);
    if trimmed == "" then Ok([])
    else
      var next := Next(trimmed);
      if next.Err? then Err(next.reason)
      else
        var rest := Split(next.value.1);
        if rest.Err? then rest else Ok([next.value.0] + rest.value)
  }
}

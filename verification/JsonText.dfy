/** The JSON values a command line may hold, as Go's scanner accepts them (RFC 8259, sections 2 to 7):
    where the value that begins at a place ends. */
module JsonText {
  import opened Wrappers

  const MAX_DEPTH: nat := 10_000

  predicate IsJsonSpace(c: char) {
    c == ' ' || c == '\t' || c == '\r' || c == '\n'
  }

  predicate IsDigit(c: char) {
    '0' <= c <= '9'
  }

  predicate IsHexDigit(c: char) {
    '0' <= c <= '9' || 'a' <= c <= 'f' || 'A' <= c <= 'F'
  }

  function SkipSpace(s: string, i: nat): (end: nat)
    requires i <= |s|
    ensures i <= end <= |s|
    decreases |s| - i
  {
    if i < |s| && IsJsonSpace(s[i]) then SkipSpace(s, i + 1) else i
  }

  function SkipDigits(s: string, i: nat): (end: nat)
    requires i <= |s|
    ensures i <= end <= |s|
    decreases |s| - i
  {
    if i < |s| && IsDigit(s[i]) then SkipDigits(s, i + 1) else i
  }

  /** The end of a string whose opening quote is just before `i`. */
  function StringEnd(s: string, i: nat): (end: Option<nat>)
    requires i <= |s|
    ensures end.Some? ==> i < end.value <= |s|
    decreases |s| - i
  {
    if i == |s| || s[i] < ' ' then None
    else if s[i] == '"' then Some(i + 1)
    else if s[i] != '\\' then StringEnd(s, i + 1)
    else if i + 1 == |s| then None
    else if s[i + 1] in {'b', 'f', 'n', 'r', 't', '\\', '/', '"'} then StringEnd(s, i + 2)
    else if s[i + 1] == 'u' && i + 6 <= |s| && (forall k :: i + 2 <= k < i + 6 ==> IsHexDigit(s[k])) then
      StringEnd(s, i + 6)
    else None
  }

  function DigitsEnd(s: string, i: nat): (end: Option<nat>)
    requires i <= |s|
    ensures end.Some? ==> i < end.value <= |s|
  {
    if SkipDigits(s, i) == i then None else Some(SkipDigits(s, i))
  }

  function ExponentEnd(s: string, i: nat): (end: Option<nat>)
    requires i <= |s|
    ensures end.Some? ==> i <= end.value <= |s|
  {
    if i == |s| || (s[i] != 'e' && s[i] != 'E') then Some(i)
    else if i + 1 < |s| && (s[i + 1] == '+' || s[i + 1] == '-') then DigitsEnd(s, i + 2)
    else DigitsEnd(s, i + 1)
  }

  function NumberEnd(s: string, i: nat): (end: Option<nat>)
    requires i < |s|
    ensures end.Some? ==> i < end.value <= |s|
  {
    var start := if s[i] == '-' then i + 1 else i;
    if start == |s| || !IsDigit(s[start]) then None
    else
      var whole := if s[start] == '0' then start + 1 else SkipDigits(s, start + 1);
      if whole < |s| && s[whole] == '.' then
        var fraction := DigitsEnd(s, whole + 1);
        if fraction.None? then None else ExponentEnd(s, fraction.value)
      else ExponentEnd(s, whole)
  }

  function WordEnd(s: string, i: nat, word: string): (end: Option<nat>)
    requires i <= |s|
    ensures end.Some? ==> end.value == i + |word| <= |s|
  {
    if i + |word| <= |s| && s[i..i + |word|] == word then Some(i + |word|) else None
  }

  /** The end of the value that begins at `i` inside `depth` brackets. */
  function ValueEnd(s: string, i: nat, depth: nat): (end: Option<nat>)
    requires i <= |s|
    ensures end.Some? ==> i < end.value <= |s|
    decreases |s| - i, 1
  {
    if i == |s| then None
    else if s[i] == '[' || s[i] == '{' then
      if depth >= MAX_DEPTH then None
      else
        var first := SkipSpace(s, i + 1);
        if first < |s| && s[first] == (if s[i] == '[' then ']' else '}') then Some(first + 1)
        else MembersEnd(s, first, depth + 1, s[i] == '{')
    else if s[i] == '"' then StringEnd(s, i + 1)
    else if s[i] == '-' || IsDigit(s[i]) then NumberEnd(s, i)
    else if s[i] == 't' then WordEnd(s, i, "true")
    else if s[i] == 'f' then WordEnd(s, i, "false")
    else if s[i] == 'n' then WordEnd(s, i, "null")
    else None
  }

  /** The end of the bracket whose next member begins at `i`. */
  function MembersEnd(s: string, i: nat, depth: nat, keyed: bool): (end: Option<nat>)
    requires i <= |s|
    ensures end.Some? ==> i < end.value <= |s|
    decreases |s| - i, 2
  {
    var start := if keyed then KeyEnd(s, i) else Some(i);
    if start.None? then None
    else
      var member := ValueEnd(s, start.value, depth);
      if member.None? then None
      else
        var next := SkipSpace(s, member.value);
        if next == |s| then None
        else if s[next] == (if keyed then '}' else ']') then Some(next + 1)
        else if s[next] == ',' then MembersEnd(s, SkipSpace(s, next + 1), depth, keyed)
        else None
  }

  /** Where the value begins whose key begins at `i`. */
  function KeyEnd(s: string, i: nat): (end: Option<nat>)
    requires i <= |s|
    ensures end.Some? ==> i < end.value <= |s|
  {
    if i == |s| || s[i] != '"' then None
    else
      var name := StringEnd(s, i + 1);
      if name.None? then None
      else
        var colon := SkipSpace(s, name.value);
        if colon == |s| || s[colon] != ':' then None else Some(SkipSpace(s, colon + 1))
  }

  /** The end of a value that begins the text, if there is one. */
  function JsonEnd(s: string): (end: Option<nat>)
    ensures end.Some? ==> 0 < end.value <= |s|
  {
    ValueEnd(s, 0, 0)
  }
}

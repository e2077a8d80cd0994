/** The two measures of one text: a Rust string counts UTF-8 bytes, a JavaScript string
    counts UTF-16 code units. */
module LogText {
  function Utf8Width(c: char): nat {
    var code := c as int;
    if code < 0x80 then 1 else if code < 0x800 then 2 else if code < 0x1_0000 then 3 else 4
  }

  function Utf16Width(c: char): nat {
    if (c as int) < 0x1_0000 then 1 else 2
  }

  function Bytes(text: string): nat {
    if text == "" then 0 else Utf8Width(text[0]) + Bytes(text[1..])
  }

  function Units(text: string): nat {
    if text == "" then 0 else Utf16Width(text[0]) + Units(text[1..])
  }

  /** What makes the two ends of the console agree: a limit met in bytes is met in units. */
  lemma {:induction false} UnitsAtMostBytes(text: string)
    ensures Units(text) <= Bytes(text)
  {
    if text != "" {
      UnitsAtMostBytes(text[1..]);
    }
  }
}

/**
 * The colour argument check of swaybg: a solid background colour is written
 * `#rrggbb`, a hash sign followed by exactly six hexadecimal digits in
 * either case, with no alpha channel.
 */
module Color {

  /** The C library's `isxdigit` in the default locale. */
  predicate IsHexDigit(c: char) {
    ('0' <= c <= '9') || ('a' <= c <= 'f') || ('A' <= c <= 'F')
  }

  /** What the validator accepts: `#` followed by six hexadecimal digits. */
  predicate ValidColor(s: string) {
    |s| == 7 && s[0] == '#' && forall i :: 1 <= i < 7 ==> IsHexDigit(s[i])
  }

  /**
   * The validator as the program runs it: the length and the leading `#`
   * are checked first, and only that failure is logged; then the digits are
   * scanned left to right and the scan stops at the first non-digit.
   */
  method IsValidColor(color: string) returns (ok: bool, loggedError: bool)
    ensures ok <==> ValidColor(color)
    ensures loggedError <==> (|color| != 7 || color[0] != '#')
    ensures loggedError ==> !ok
  {
    var len := |color|;
    if len != 7 || color[0] != '#' {
      return false, true;
    }
    for i := 1 to len
      invariant forall j :: 1 <= j < i ==> IsHexDigit(color[j])
    {
      if !IsHexDigit(color[i]) {
        return false, false;
      }
    }
    return true, false;
  }

  /** ASCII lower-casing, the only case difference `isxdigit` ignores. */
  function ToLower(c: char): (d: char)
    ensures IsHexDigit(d) <==> IsHexDigit(c)
    ensures d == '#' <==> c == '#'
  {
    if 'A' <= c <= 'Z' then (c as int + 32) as char else c
  }

  function LowerAll(s: string): (t: string)
  {
    seq(|s|, i requires 0 <= i < |s| => ToLower(s[i]))
  }

  /** Upper- and lower-case hexadecimal letters are accepted alike. */
  lemma ValidColorIgnoresCase(s: string)
    ensures ValidColor(s) <==> ValidColor(LowerAll(s))
  {
    var t := LowerAll(s);
    forall i | 0 <= i < |s|
      ensures IsHexDigit(s[i]) <==> IsHexDigit(t[i])
    {
    }
  }

  /** Accepted and rejected colours, one for each way to fail. */
  lemma ColorExamples()
    ensures ValidColor("#a1B2c3")
    ensures !ValidColor("a1B2c3")
    ensures !ValidColor("#a1B2c")
    ensures !ValidColor("#a1B2c3Z")
    ensures !ValidColor("#a1B2zz")
  {
    assert !IsHexDigit("#a1B2zz"[5]);
  }
}

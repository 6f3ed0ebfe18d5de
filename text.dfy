/** The Python string built-ins the core relies on: `str.isspace`, `str.strip`,
    `str.lower`, the `in` test, `str.split(sep, 1)` and `int(str)`. */
module PyText {
  import opened Optional

  /** `c.isspace()`: the characters Python treats as whitespace. */
  predicate IsSpace(c: char) {
    var n := c as int;
    || n == 0x20 || 0x09 <= n <= 0x0D || 0x1C <= n <= 0x1F
    || n == 0x85 || n == 0xA0 || n == 0x1680 || 0x2000 <= n <= 0x200A
    || n == 0x2028 || n == 0x2029 || n == 0x202F || n == 0x205F || n == 0x3000
  }

  predicate AllSpace(s: string) {
    forall k :: 0 <= k < |s| ==> IsSpace(s[k])
  }

  /** How many whitespace characters `s` starts with. */
  function LeadingSpaces(s: string): (n: nat)
    ensures n <= |s|
    ensures forall k :: 0 <= k < n ==> IsSpace(s[k])
    ensures n < |s| ==> !IsSpace(s[n])
  {
    if s != [] && IsSpace(s[0]) then 1 + LeadingSpaces(s[1..]) else 0
  }

  /** How many whitespace characters `s` ends with. */
  function TrailingSpaces(s: string): (n: nat)
    ensures n <= |s|
    ensures forall k :: |s| - n <= k < |s| ==> IsSpace(s[k])
    ensures n < |s| ==> !IsSpace(s[|s| - n - 1])
  {
    if s != [] && IsSpace(s[|s| - 1]) then 1 + TrailingSpaces(s[..|s| - 1]) else 0
  }

  /** `s.strip()`: the part of `s` left between its leading and trailing whitespace. */
  function Strip(s: string): (r: string)
    ensures |r| <= |s|
    ensures r != [] ==> !IsSpace(r[0]) && !IsSpace(r[|r| - 1])
    ensures r == [] <==> AllSpace(s)
  {
    var t := s[LeadingSpaces(s)..];
    t[..|t| - TrailingSpaces(t)]
  }

  /** Stripping removes whitespace and nothing else: the result is the slice of `s`
      after its leading whitespace, with only whitespace after it. */
  lemma StripSlice(s: string)
    ensures LeadingSpaces(s) + |Strip(s)| <= |s|
    ensures Strip(s) == s[LeadingSpaces(s)..LeadingSpaces(s) + |Strip(s)|]
    ensures AllSpace(s[..LeadingSpaces(s)]) && AllSpace(s[LeadingSpaces(s) + |Strip(s)|..])
  {
    var a := LeadingSpaces(s);
    var t := s[a..];
    var n := TrailingSpaces(t);
    var r := t[..|t| - n];
    assert Strip(s) == r;
    assert s[a..a + |r|] == r;
    forall k | 0 <= k < a
      ensures IsSpace(s[..a][k])
    {
      assert s[..a][k] == s[k];
    }
    var tail := s[a + |r|..];
    forall k | 0 <= k < n
      ensures IsSpace(tail[k])
    {
      assert tail[k] == t[|t| - n + k];
    }
  }

  /** A string that neither starts nor ends with whitespace is its own strip. */
  lemma StripUntrimmed(s: string)
    requires s != [] ==> !IsSpace(s[0]) && !IsSpace(s[|s| - 1])
    ensures Strip(s) == s
  {
  }

  /** Stripping twice is stripping once. */
  lemma {:induction false} StripIdempotent(s: string)
    ensures Strip(Strip(s)) == Strip(s)
  {
    StripUntrimmed(Strip(s));
  }

  function LowerChar(c: char): char {
    if 'A' <= c <= 'Z' then (c as int + 32) as char else c
  }

  /** `s.lower()`, on the ASCII letters. */
  function Lower(s: string): (r: string)
    ensures |r| == |s|
  {
    seq(|s|, k requires 0 <= k < |s| => LowerChar(s[k]))
  }

  /** The pattern `pat` starts at position `i` of `text`. */
  predicate OccursAt(text: string, pat: string, i: nat) {
    i + |pat| <= |text| && text[i..i + |pat|] == pat
  }

  /** `pat in text`. */
  predicate Contains(text: string, pat: string) {
    exists i: nat | i <= |text| :: OccursAt(text, pat, i)
  }

  /** `text.find(pat, start)`: the first position at or after `start` where `pat`
      occurs, or -1. */
  function FindFrom(text: string, pat: string, start: nat): (r: int)
    decreases |text| - start
    ensures r == -1 || (start <= r && OccursAt(text, pat, r))
    ensures forall j: nat :: start <= j && (r == -1 || j < r) ==> !OccursAt(text, pat, j)
  {
    if start + |pat| > |text| then -1
    else if OccursAt(text, pat, start) then start
    else FindFrom(text, pat, start + 1)
  }

  function Find(text: string, pat: string): (r: int)
    ensures r >= 0 <==> Contains(text, pat)
    ensures r >= 0 ==> OccursAt(text, pat, r) && forall j: nat :: j < r ==> !OccursAt(text, pat, j)
  {
    FindFrom(text, pat, 0)
  }

  /** `text.split(sep, 1)`: the text before and after the first occurrence of `sep`,
      or the whole text when `sep` does not occur. Python refuses an empty separator. */
  function SplitOnce(text: string, sep: string): (parts: seq<string>)
    requires sep != []
    ensures |parts| == (if Contains(text, sep) then 2 else 1)
    ensures |parts| == 1 ==> parts[0] == text
    ensures |parts| == 2 ==> parts[0] + sep + parts[1] == text && Find(text, sep) == |parts[0]|
  {
    var i := Find(text, sep);
    if i < 0 then [text]
    else
      assert text == text[..i] + text[i..i + |sep|] + text[i + |sep|..];
      [text[..i], text[i + |sep|..]]
  }

  predicate IsDigit(c: char) {
    '0' <= c <= '9'
  }

  /** The digit part `int()` accepts: decimal digits, with single underscores allowed
      between two digits. */
  predicate IsDigitGroup(d: string) {
    && d != [] && IsDigit(d[0]) && IsDigit(d[|d| - 1])
    && forall k :: 0 <= k < |d| ==> IsDigit(d[k]) || (d[k] == '_' && 0 < k < |d| - 1 && IsDigit(d[k + 1]))
  }

  /** The value of a digit group, underscores ignored. */
  function DigitsValue(d: string): nat {
    if d == [] then 0
    else if IsDigit(d[|d| - 1]) then 10 * DigitsValue(d[..|d| - 1]) + (d[|d| - 1] as int - '0' as int)
    else DigitsValue(d[..|d| - 1])
  }

  /** `int(s)` for a string `s`: surrounding whitespace, an optional sign, then a
      digit group; anything else raises `ValueError`, modelled as `None`. */
  function ParseInt(s: string): Option<int> {
    ParseSigned(Strip(s))
  }

  /** `int()` on text already stripped of whitespace. */
  function ParseSigned(t: string): Option<int> {
    var signed := t != [] && (t[0] == '+' || t[0] == '-');
    var body := if signed then t[1..] else t;
    var v: int := DigitsValue(body);
    if !IsDigitGroup(body) then None
    else if signed && t[0] == '-' then Some(-v)
    else Some(v)
  }

  /** `str(n)` for a natural number. */
  function NatToString(n: nat): (r: string)
    ensures r != [] && forall k :: 0 <= k < |r| ==> IsDigit(r[k])
  {
    var last := [('0' as int + n % 10) as char];
    if n < 10 then last else NatToString(n / 10) + last
  }

  /** `str(n)`. */
  function IntToString(n: int): string {
    if n < 0 then "-" + NatToString(-n) else NatToString(n)
  }

  lemma {:induction false} NatToStringValue(n: nat)
    ensures DigitsValue(NatToString(n)) == n
  {
    var s := NatToString(n);
    if n >= 10 {
      NatToStringValue(n / 10);
      assert s[..|s| - 1] == NatToString(n / 10);
    }
  }

  lemma DigitGroupOfDigits(d: string)
    requires d != [] && forall k :: 0 <= k < |d| ==> IsDigit(d[k])
    ensures IsDigitGroup(d) && !IsSpace(d[0]) && !IsSpace(d[|d| - 1])
  {
  }

  /** `int(str(n)) == n`: reading back the decimal form of an integer gives it back. */
  lemma {:induction false} ParseIntToString(n: int)
    ensures ParseInt(IntToString(n)) == Some(n)
  {
    var m: nat := if n < 0 then -n else n;
    var d := NatToString(m);
    NatToStringValue(m);
    DigitGroupOfDigits(d);
    var s := IntToString(n);
    if n < 0 {
      assert s == "-" + d && s[1..] == d && s[|s| - 1] == d[|d| - 1];
      assert ParseSigned(s) == Some(n);
    } else {
      assert s == d;
      assert ParseSigned(s) == Some(n);
    }
    StripUntrimmed(s);
  }
}

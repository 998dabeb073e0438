/** The few JavaScript string operations the controllers rely on:
    `String.prototype.trim`, `Number.parseInt(s, 10)` and `path.join` of a
    directory and a file name. */
module JsText {
  import opened Wrappers

  /** JavaScript truthiness of an optional string field: absent and empty are both false. */
  predicate Present(o: Option<string>) {
    o.Some? && o.value != ""
  }

  /** The white-space and line-terminator characters `trim` and `parseInt`
      skip (the Unicode space separators beyond U+00A0 are not listed). */
  predicate IsWhitespace(c: char) {
    c == ' ' || c == '\t' || c == '\n' || c == '\r' || c == '\U{000B}' || c == '\U{000C}'
    || c == '\U{00A0}' || c == '\U{2028}' || c == '\U{2029}' || c == '\U{FEFF}'
  }

  /** The first index from `i` on that does not hold white space
      (`|s|` when there is none). */
  function SkipWhitespace(s: string, i: nat): (n: nat)
    requires i <= |s|
    ensures i <= n <= |s|
    ensures forall k | i <= k < n :: IsWhitespace(s[k])
    ensures n < |s| ==> !IsWhitespace(s[n])
    decreases |s| - i
  {
    if i == |s| || !IsWhitespace(s[i]) then i else SkipWhitespace(s, i + 1)
  }

  /** The end of `s[lo..hi]` once its trailing white space is dropped. */
  function TrailingWhitespaceStart(s: string, lo: nat, hi: nat): (e: nat)
    requires lo <= hi <= |s|
    ensures lo <= e <= hi
    ensures forall k | e <= k < hi :: IsWhitespace(s[k])
    ensures e > lo ==> !IsWhitespace(s[e - 1])
  {
    if hi == lo || !IsWhitespace(s[hi - 1]) then hi else TrailingWhitespaceStart(s, lo, hi - 1)
  }

  /** `s.trim()`: the infix of `s` left once its leading and trailing white
      space is dropped; it neither starts nor ends with white space. */
  function Trim(s: string): (r: string)
    ensures r == [] || (!IsWhitespace(r[0]) && !IsWhitespace(r[|r| - 1]))
    ensures exists i, j | 0 <= i <= j <= |s| ::
              (r == s[i..j]
               && (forall k | 0 <= k < i :: IsWhitespace(s[k]))
               && (forall k | j <= k < |s| :: IsWhitespace(s[k])))
  {
    var i := SkipWhitespace(s, 0);
    var j := TrailingWhitespaceStart(s, i, |s|);
    s[i..j]
  }

  /** Trimming twice trims nothing more. */
  lemma TrimIdempotent(s: string)
    ensures Trim(Trim(s)) == Trim(s)
  {
    var r := Trim(s);
    if r != [] {
      assert SkipWhitespace(r, 0) == 0;
      assert TrailingWhitespaceStart(r, 0, |r|) == |r|;
    }
  }

  predicate IsDigit(c: char) {
    '0' <= c <= '9'
  }

  /** The longest prefix of `s` made of decimal digits. */
  function DigitPrefix(s: string): (r: string)
    ensures |r| <= |s| && r == s[..|r|]
    ensures forall i | 0 <= i < |r| :: IsDigit(r[i])
    ensures |r| < |s| ==> !IsDigit(s[|r|])
  {
    if s != [] && IsDigit(s[0]) then [s[0]] + DigitPrefix(s[1..]) else []
  }

  /** The number a string of decimal digits denotes. */
  function DecimalValue(s: string): (n: nat)
    requires forall i | 0 <= i < |s| :: IsDigit(s[i])
  {
    if s == [] then 0
    else
      var last := s[|s| - 1];
      assert IsDigit(last);
      10 * DecimalValue(s[..|s| - 1]) + (last as int - '0' as int)
  }

  /** `n` written in decimal without leading zeros. */
  function DecimalString(n: nat): (s: string)
    ensures s != [] && forall i | 0 <= i < |s| :: IsDigit(s[i])
  {
    (if n < 10 then [] else DecimalString(n / 10)) + [('0' as int + n % 10) as char]
  }

  lemma {:induction false} DecimalRoundTrip(n: nat)
    ensures DecimalValue(DecimalString(n)) == n
  {
    var s := DecimalString(n);
    if n >= 10 {
      assert s[..|s| - 1] == DecimalString(n / 10);
      DecimalRoundTrip(n / 10);
    }
  }

  /** `Number.parseInt(s, 10)`: leading white space is skipped, then an
      optional sign, then the longest run of digits is read; without any
      digit the result is NaN, here `None`. */
  function ParseInt(s: string): (r: Option<int>)
    ensures r.Some? ==> exists i | 0 <= i < |s| :: IsDigit(s[i])
  {
    var t := s[SkipWhitespace(s, 0)..];
    var negative := t != [] && t[0] == '-';
    var u := if t != [] && (t[0] == '-' || t[0] == '+') then t[1..] else t;
    var digits := DigitPrefix(u);
    if digits == [] then None
    else
      assert digits[0] == s[|s| - |u|];
      var v: int := DecimalValue(digits);
      if negative then Some(-v) else Some(v)
  }

  /** A number written in decimal, followed by text that does not start
      with a digit, reads back as itself. */
  lemma {:induction false} ParseIntOfDecimal(n: nat, tail: string)
    requires tail == [] || !IsDigit(tail[0])
    ensures ParseInt(DecimalString(n) + tail) == Some(n as int)
  {
    DecimalPrefix(n, tail);
    ParseIntUnsigned(DecimalString(n) + tail);
  }

  lemma DecimalPrefix(n: nat, tail: string)
    requires tail == [] || !IsDigit(tail[0])
    ensures var u := DecimalString(n) + tail;
      u != [] && IsDigit(u[0]) && DecimalValue(DigitPrefix(u)) == n
  {
    var d := DecimalString(n);
    assert (d + tail)[0] == d[0];
    DigitPrefixOfDigits(d, tail);
    DecimalRoundTrip(n);
  }

  /** Reading a string that starts with a digit. */
  lemma ParseIntUnsigned(u: string)
    requires u != [] && IsDigit(u[0])
    ensures ParseInt(u) == Some(DecimalValue(DigitPrefix(u)) as int)
  {
    assert SkipWhitespace(u, 0) == 0;
    var t := u[0..];
    assert t == u;
    assert t[0] != '-' && t[0] != '+';
    assert DigitPrefix(u) == [u[0]] + DigitPrefix(u[1..]);
  }

  /** Reading a minus sign followed by a digit. */
  lemma ParseIntNegative(s: string, u: string)
    requires u != [] && IsDigit(u[0])
    requires s == "-" + u
    ensures ParseInt(s) == Some(-(DecimalValue(DigitPrefix(u)) as int))
  {
    assert SkipWhitespace(s, 0) == 0;
    var t := s[0..];
    assert t == s;
    assert t[1..] == u;
    assert DigitPrefix(u) != [];
  }

  lemma {:induction false} DigitPrefixOfDigits(d: string, tail: string)
    requires forall i | 0 <= i < |d| :: IsDigit(d[i])
    requires tail == [] || !IsDigit(tail[0])
    ensures DigitPrefix(d + tail) == d
  {
    if d != [] {
      assert (d + tail)[1..] == d[1..] + tail;
      DigitPrefixOfDigits(d[1..], tail);
    }
  }

  /** `path.join(dir, name)` for a plain file name: one separator between
      the two parts (normalisation of `.`, `..` and repeated separators is
      not modelled). */
  function JoinPath(dir: string, name: string): (p: string)
    ensures |p| >= |dir| && p[..|dir|] == dir
    ensures |p| >= |name| && p[|p| - |name|..] == name
    ensures dir != [] ==> |p| > |name| && p[|p| - |name| - 1] == '/'
    ensures |dir| + |name| <= |p| <= |dir| + 1 + |name|
  {
    if dir == [] then name
    else if dir[|dir| - 1] == '/' then dir + name
    else dir + "/" + name
  }
}

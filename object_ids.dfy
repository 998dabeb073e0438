/** Document identifiers as the files controller handles them.

    A stored id (a BSON ObjectId) is a 12-byte number, so here a natural
    number below 16^24. A request carries ids as strings: `isValidId`
    accepts exactly the strings of 24 hexadecimal digits, and every other
    string is replaced by the all-zero `NULL_ID` before the lookup. An id is
    written out (its `toString()`) as 24 lower-case hexadecimal digits. */
module ObjectIds {

  /** Number of hexadecimal digits of an id written out. */
  const IdWidth: nat := 24

  function Pow16(k: nat): (r: nat)
    ensures r >= 1
  {
    if k == 0 then 1 else 16 * Pow16(k - 1)
  }

  /** 16^24, that is 2^96: the number of 12-byte ObjectIds. */
  const IdBound: nat := 0x1_0000_0000_0000_0000_0000_0000

  /** The values a 12-byte ObjectId can take. */
  type ObjectId = n: nat | n < IdBound

  lemma IdBoundIsPow16()
    ensures Pow16(IdWidth) == IdBound
  {
    assert Pow16(4) == 0x1_0000;
    Pow16Add(4, 4);
    Pow16Add(8, 8);
    Pow16Add(16, 8);
  }

  lemma {:induction false} Pow16Add(a: nat, b: nat)
    ensures Pow16(a + b) == Pow16(a) * Pow16(b)
  {
    if a > 0 {
      Pow16Add(a - 1, b);
    }
  }

  predicate IsHexDigit(c: char) {
    '0' <= c <= '9' || 'a' <= c <= 'f' || 'A' <= c <= 'F'
  }

  predicate IsLowerHexDigit(c: char) {
    '0' <= c <= '9' || 'a' <= c <= 'f'
  }

  predicate AllHex(s: string) {
    forall i | 0 <= i < |s| :: IsHexDigit(s[i])
  }

  /** The test `/^[0-9a-fA-F]{24}$/` applied to a request id. */
  predicate IsValidId(s: string) {
    |s| == IdWidth && AllHex(s)
  }

  /** `c.repeat(k)`. */
  function Repeat(c: char, k: nat): (r: string)
    ensures |r| == k && forall i | 0 <= i < k :: r[i] == c
  {
    if k == 0 then [] else Repeat(c, k - 1) + [c]
  }

  /** `NULL_ID`: the stand-in for a malformed request id. */
  const NullId: string := Repeat('0', IdWidth)

  function DigitValue(c: char): (v: nat)
    requires IsHexDigit(c)
    ensures v < 16
  {
    if '0' <= c <= '9' then c as int - '0' as int
    else if 'a' <= c <= 'f' then c as int - 'a' as int + 10
    else c as int - 'A' as int + 10
  }

  function HexChar(d: nat): (c: char)
    requires d < 16
    ensures IsLowerHexDigit(c) && IsHexDigit(c) && DigitValue(c) == d
  {
    if d < 10 then ('0' as int + d) as char else ('a' as int + d - 10) as char
  }

  /** A hexadecimal digit with `A`-`F` folded to `a`-`f`. */
  function LowerChar(c: char): (r: char)
    requires IsHexDigit(c)
    ensures IsLowerHexDigit(r) && DigitValue(r) == DigitValue(c)
    ensures IsLowerHexDigit(c) ==> r == c
  {
    if 'A' <= c <= 'F' then (c as int - 'A' as int + 'a' as int) as char else c
  }

  function Lower(s: string): (r: string)
    requires AllHex(s)
    ensures |r| == |s|
    ensures forall i | 0 <= i < |s| :: r[i] == LowerChar(s[i])
  {
    if s == [] then [] else Lower(s[..|s| - 1]) + [LowerChar(s[|s| - 1])]
  }

  /** The number a string of hexadecimal digits denotes, most significant
      digit first (what `new ObjectId(hex)` stores). */
  function HexValue(s: string): (n: nat)
    requires AllHex(s)
    ensures n < Pow16(|s|)
  {
    if s == [] then 0 else 16 * HexValue(s[..|s| - 1]) + DigitValue(s[|s| - 1])
  }

  /** `n` written with exactly `width` lower-case hexadecimal digits. */
  function ToHex(n: nat, width: nat): (s: string)
    ensures |s| == width
    ensures forall i | 0 <= i < width :: IsLowerHexDigit(s[i])
  {
    if width == 0 then [] else ToHex(n / 16, width - 1) + [HexChar(n % 16)]
  }

  /** Reading back what `ToHex` wrote gives the number again. */
  lemma {:induction false} HexValueOfToHex(n: nat, width: nat)
    requires n < Pow16(width)
    ensures AllHex(ToHex(n, width)) && HexValue(ToHex(n, width)) == n
  {
    if width > 0 {
      var s := ToHex(n, width);
      assert s[..width - 1] == ToHex(n / 16, width - 1);
      HexValueOfToHex(n / 16, width - 1);
    }
  }

  /** Writing out the value of a hexadecimal string gives back that string,
      with its letters in lower case. */
  lemma {:induction false} ToHexOfHexValue(s: string)
    requires AllHex(s)
    ensures ToHex(HexValue(s), |s|) == Lower(s)
  {
    if s != [] {
      var p := s[..|s| - 1];
      var n := HexValue(s);
      assert n / 16 == HexValue(p) && n % 16 == DigitValue(s[|s| - 1]);
      ToHexOfHexValue(p);
      assert HexChar(DigitValue(s[|s| - 1])) == LowerChar(s[|s| - 1]);
    }
  }

  lemma {:induction false} RepeatZeroValue(k: nat)
    ensures AllHex(Repeat('0', k)) && HexValue(Repeat('0', k)) == 0
  {
    if k > 0 {
      assert Repeat('0', k)[..k - 1] == Repeat('0', k - 1);
      RepeatZeroValue(k - 1);
    }
  }

  /** `id.toString()` of a stored id. */
  function Render(id: ObjectId): (s: string)
    ensures IsValidId(s)
    ensures forall i | 0 <= i < |s| :: IsLowerHexDigit(s[i])
    ensures HexValue(s) == id
  {
    IdBoundIsPow16();
    HexValueOfToHex(id, IdWidth);
    ToHex(id, IdWidth)
  }

  /** The id a request string resolves to:
      `new ObjectId(isValidId(s) ? s : NULL_ID)`. */
  function ObjectIdOf(s: string): (id: ObjectId)
    ensures !IsValidId(s) ==> id == 0
    ensures IsValidId(s) ==> Render(id) == Lower(s)
  {
    RepeatZeroValue(IdWidth);
    IdBoundIsPow16();
    if IsValidId(s) then (ToHexOfHexValue(s); HexValue(s)) else HexValue(NullId)
  }

  /** Every written-out id is accepted by `isValidId` and resolves back to
      the id it came from. */
  lemma RenderRoundTrip(id: ObjectId)
    ensures IsValidId(Render(id)) && ObjectIdOf(Render(id)) == id
  {
  }

  /** Distinct ids are written out as distinct strings, so comparing the
      strings (as the controllers do) is comparing the ids. */
  lemma RenderInjective(a: ObjectId, b: ObjectId)
    ensures Render(a) == Render(b) <==> a == b
  {
    RenderRoundTrip(a);
    RenderRoundTrip(b);
  }

  /** `NULL_ID` is itself well formed and names the id zero. */
  lemma NullIdIsZero()
    ensures IsValidId(NullId) && ObjectIdOf(NullId) == 0
  {
    RepeatZeroValue(IdWidth);
  }
}

/**
 * The generic 64-bit location key of the IR: an opaque packed value with
 * equality, a strict total order, a hash and a fixed-width hexadecimal
 * rendering (the inline header version and the buffer-filling .cpp version).
 */
module Location {
  import opened Ints

  datatype LocationDescriptor = LocationDescriptor(value: u64) {

    function Value(): (v: u64)
      ensures LocationDescriptor(v) == this
    {
      value
    }

    /** operator== */
    predicate Equal(o: LocationDescriptor) { value == o.Value() }

    /** operator!=, defined through operator== */
    predicate NotEqual(o: LocationDescriptor) { !Equal(o) }

    /** operator< and std::less */
    predicate Less(o: LocationDescriptor) { Value() < o.Value() }
    predicate StdLess(o: LocationDescriptor) { Less(o) }

    /** std::hash, given the library's hash of a u64. */
    function Hash(hashU64: u64 -> nat): nat { hashU64(Value()) }
  }

  lemma EqualIsIdentity(x: LocationDescriptor, y: LocationDescriptor)
    ensures x.Equal(y) <==> x == y
    ensures x.NotEqual(y) <==> x != y
  {
  }

  /** `<` (and std::less) is a strict total order whose incomparable pairs are exactly the equal ones. */
  lemma LessIsStrictTotalOrder(x: LocationDescriptor, y: LocationDescriptor, z: LocationDescriptor)
    ensures !x.Less(x)
    ensures x.Less(y) ==> !y.Less(x)
    ensures x.Less(y) && y.Less(z) ==> x.Less(z)
    ensures x.Less(y) || y.Less(x) || x.Equal(y)
    ensures x.StdLess(y) <==> x.Less(y)
  {
  }

  lemma HashRespectsEquality(x: LocationDescriptor, y: LocationDescriptor, hashU64: u64 -> nat)
    requires x.Equal(y)
    ensures x.Hash(hashU64) == y.Hash(hashU64)
  {
  }

  const HexDigits: string := "0123456789ABCDEF"

  function Hex(nibble: nat): char
    requires nibble < 16
  {
    HexDigits[nibble]
  }

  /** value >> (4 * k): k successive divisions by 16. */
  function Shr4(value: nat, k: nat): nat
  {
    if k == 0 then value else Shr4(value, k - 1) / 16
  }

  /** Nibble k of value, counted from the least significant: (value >> (4 * k)) & 0xF. */
  function Nibble(value: nat, k: nat): (n: nat)
    ensures n < 16
  {
    Shr4(value, k) % 16
  }

  /** Digit i of the rendering: nibble 15 - i, that is (value >> ((15 - i) * 4)) & 0xF. */
  function DigitAt(value: nat, i: nat): char
    requires i < 16
  {
    Hex(Nibble(value, 15 - i))
  }

  /**
   * The inline ToString of the header: '{', the sixteen nibbles from the most
   * significant (shift 60) down to the least (shift 0), '}'.
   */
  function ToString(d: LocationDescriptor): string
  {
    ['{'] + seq(16, i requires 0 <= i < 16 => DigitAt(d.Value(), i)) + ['}']
  }

  lemma ToStringShape(d: LocationDescriptor)
    ensures |ToString(d)| == 18
    ensures ToString(d)[0] == '{' && ToString(d)[17] == '}'
    ensures forall i :: 0 <= i < 16 ==> ToString(d)[i + 1] == DigitAt(d.value, i)
  {
  }

  function HexValue(c: char): nat
  {
    if '0' <= c <= '9' then c as int - '0' as int
    else if 'A' <= c <= 'F' then c as int - 'A' as int + 10
    else 0
  }

  /** Reads hexadecimal digits, most significant first. */
  function ParseHex(s: string): nat
  {
    if s == [] then 0 else ParseHex(s[..|s| - 1]) * 16 + HexValue(s[|s| - 1])
  }

  lemma HexValueOfHex(n: nat)
    requires n < 16
    ensures HexValue(Hex(n)) == n
  {
  }

  lemma Pow16Sixteen()
    ensures Pow16(16) == TWO_64
  {
    assert Pow16(4) == 0x1_0000;
    assert Pow16(8) == 0x1_0000_0000;
    assert Pow16(12) == 0x1_0000_0000_0000;
  }

  lemma {:induction false} Shr4Bound(value: nat, k: nat)
    requires value < Pow16(16) && k <= 16
    ensures Shr4(value, k) < Pow16(16 - k)
  {
    if k > 0 {
      Shr4Bound(value, k - 1);
      assert Pow16(16 - (k - 1)) == 16 * Pow16(16 - k);
      DivBelow16(Shr4(value, k - 1), Pow16(16 - k));
    }
  }

  lemma DivBelow16(x: nat, p: nat)
    requires x < 16 * p
    ensures x / 16 < p
  {
  }

  lemma {:induction false} ParseDigitsPrefix(value: u64, s: string, k: nat)
    requires |s| == 16 && k <= 16
    requires forall i :: 0 <= i < 16 ==> s[i] == DigitAt(value, i)
    ensures ParseHex(s[..k]) == Shr4(value, 16 - k)
  {
    if k == 0 {
      Pow16Sixteen();
      Shr4Bound(value, 16);
    } else {
      ParseDigitsPrefix(value, s, k - 1);
      assert s[..k][..k - 1] == s[..k - 1];
      var x := Shr4(value, 16 - k);
      HexValueOfHex(Nibble(value, 16 - k));
      assert HexValue(s[..k][k - 1]) == x % 16;
      assert ParseHex(s[..k - 1]) == x / 16;
      DivMod16(x);
    }
  }

  lemma DivMod16(x: nat)
    ensures (x / 16) * 16 + x % 16 == x
  {
  }

  /** The sixteen digits between the braces read back as the value, so ToString is injective. */
  lemma ToStringRoundTrip(d: LocationDescriptor)
    ensures ParseHex(ToString(d)[1..17]) == d.Value()
  {
    ToStringShape(d);
    var s := ToString(d)[1..17];
    ParseDigitsPrefix(d.value, s, 16);
    assert s[..16] == s;
  }

  lemma ToStringInjective(x: LocationDescriptor, y: LocationDescriptor)
    requires ToString(x) == ToString(y)
    ensures x == y
  {
    ToStringRoundTrip(x);
    ToStringRoundTrip(y);
  }

  /**
   * The out-of-line ToString of location_descriptor.cpp as written: an 18-char
   * buffer, a write pointer, '{', sixteen digits, '}' and then a '\0' stored at
   * buffer[18]. The terminator store is not performed; `overflow` says whether
   * it falls outside the buffer.
   */
  method ToStringAsWritten(d: LocationDescriptor) returns (s: string, overflow: bool)
    ensures s == ToString(d)
    ensures overflow
  {
    var buffer := new char[18];
    var ptr := 0;
    buffer[ptr] := '{';
    ptr := ptr + 1;
    var value := d.Value();
    for i := 0 to 16
      invariant ptr == i + 1
      invariant buffer[0] == '{'
      invariant forall j :: 0 <= j < i ==> buffer[j + 1] == DigitAt(value, j)
    {
      buffer[ptr] := DigitAt(value, i);
      ptr := ptr + 1;
    }
    buffer[ptr] := '}';
    ptr := ptr + 1;
    // The terminator store `*ptr = '\0'` is in bounds exactly when ptr < 18.
    overflow := !(ptr < buffer.Length);
    s := buffer[..ptr];
    assert s == ToString(d);
  }

  /** The same loop over a buffer of 19 chars, which has room for the terminator. */
  method ToStringBuffered(d: LocationDescriptor) returns (s: string)
    ensures s == ToString(d)
  {
    var buffer := new char[19];
    var ptr := 0;
    buffer[ptr] := '{';
    ptr := ptr + 1;
    var value := d.Value();
    for i := 0 to 16
      invariant ptr == i + 1
      invariant buffer[0] == '{'
      invariant forall j :: 0 <= j < i ==> buffer[j + 1] == DigitAt(value, j)
    {
      buffer[ptr] := DigitAt(value, i);
      ptr := ptr + 1;
    }
    buffer[ptr] := '}';
    ptr := ptr + 1;
    buffer[ptr] := '\0';
    s := buffer[..ptr];
  }
}

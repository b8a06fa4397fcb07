/**
 * The reciprocal and reciprocal-square-root estimate tables of the Armv8-A
 * shared pseudocode (RecipEstimate and RecipSqrtEstimate in chapter J1 of the
 * Arm Architecture Reference Manual for Armv8-A), built with integer
 * arithmetic only, and the two lookups into them.
 */
module MathUtil {
  import opened Ints

  /** b * p <= c * p whenever b <= c. */
  lemma MulMono(b: nat, c: nat, p: nat)
    ensures b <= c ==> b * p <= c * p
  {
  }

  // ---- RecipEstimate ----

  /** The quotient 2^19 / a computed for table entry i. */
  function RecipQuotient(i: nat): nat
  {
    0x80000 / ((i + 256) * 2 + 1)
  }

  /** Entry i of the reciprocal table: ((2^19 / (2 * (i + 256) + 1)) + 1) / 2, cut to 8 bits. */
  function RecipEntry(i: nat): u8
  {
    ((RecipQuotient(i) + 1) / 2) % 0x100
  }

  /** 512 <= 2^19 / a <= 1022 for the divisors 513..1023 of the table. */
  lemma RecipQuotientBounds(a: nat)
    requires 513 <= a <= 1023
    ensures 512 <= 0x80000 / a <= 1022
  {
    var q := 0x80000 / a;
    assert 0x80000 == q * a + 0x80000 % a;
    MulMono(q, 511, a);
    MulMono(1023, q, a);
  }

  /** Before the cast to u8 every entry lies in [256, 511], as the pseudocode asserts. */
  lemma RecipEntryInRange(i: nat)
    requires i < 256
    ensures 256 <= (RecipQuotient(i) + 1) / 2 <= 511
  {
    RecipQuotientBounds((i + 256) * 2 + 1);
  }

  /** GenerateRecipEstimateLUT: one division per entry. */
  method GenerateRecipEstimateLUT() returns (lut: seq<u8>)
    ensures |lut| == 256
    ensures forall i :: 0 <= i < 256 ==> lut[i] == RecipEntry(i)
  {
    lut := seq(256, _ => 0);
    for i := 0 to 256
      invariant |lut| == 256
      invariant forall j :: 0 <= j < i ==> lut[j] == RecipEntry(j)
    {
      var a := i + 256;
      a := a * 2 + 1;
      var b := 0x80000 / a;
      lut := lut[i := ((b + 1) / 2) % 0x100];
    }
  }

  /** RecipEstimate(a) = RecipEstimateLUT[a - 256]; the index is in range only for 256 <= a < 512. */
  function RecipEstimate(a: u64): (r: u8)
    requires 256 <= a < 512
    ensures r == ((0x80000 / (2 * a + 1) + 1) / 2) % 0x100
  {
    RecipEntry(a - 256)
  }

  // ---- RecipSqrtEstimate ----

  /** x | 1 */
  function OrOne(x: nat): nat
  {
    if x % 2 == 0 then x + 1 else x
  }

  /** The operand a of table entry i (128 <= i < 512): 2i + 1 below 256, (i | 1) * 2 from 256 on. */
  function SqrtOperand(i: nat): (a: nat)
    requires 128 <= i < 512
    ensures 257 <= a <= 1022
  {
    if i < 256 then i * 2 + 1 else OrOne(i) * 2
  }

  /** a * (b + 1)^2 has reached 2^28. */
  predicate Reached(a: nat, b: nat)
  {
    a * (b + 1) * (b + 1) >= 0x1000_0000
  }

  /** For a >= 257 the bound is reached by b = 1022 at the latest. */
  lemma ReachedBy1022(a: nat)
    requires 257 <= a
    ensures Reached(a, 1022)
  {
    MulMono(257, a, 1023 * 1023);
  }

  /** The b the inner while loop stops at, started from b. */
  function SearchB(a: nat, b: nat): (r: nat)
    requires 257 <= a && 512 <= b <= 1022
    ensures b <= r <= 1022 && Reached(a, r)
    decreases 1022 - b
  {
    if Reached(a, b) then b
    else
      ReachedBy1022(a);
      SearchB(a, b + 1)
  }

  /** SearchB(a, b) is the least c >= b with a * (c + 1)^2 >= 2^28. */
  lemma {:induction false} SearchBIsLeast(a: nat, b: nat, c: nat)
    requires 257 <= a && 512 <= b <= 1022
    requires b <= c < SearchB(a, b)
    ensures !Reached(a, c)
    decreases 1022 - b
  {
    if c > b {
      SearchBIsLeast(a, b + 1, c);
    }
  }

  /** Entry i of the square-root table: 0 below 128, else ((b + 1) / 2) cut to 8 bits. */
  function RecipSqrtEntry(i: nat): u8
    requires i < 512
  {
    if i < 128 then 0 else ((SearchB(SqrtOperand(i), 512) + 1) / 2) % 0x100
  }

  /** Before the cast to u8 every entry from 128 on lies in [256, 511]. */
  lemma RecipSqrtEntryInRange(i: nat)
    requires 128 <= i < 512
    ensures 256 <= (SearchB(SqrtOperand(i), 512) + 1) / 2 <= 511
  {
  }

  /** GenerateRecipSqrtEstimateLUT: for each i from 128, b climbs from 512 until a * (b + 1)^2 >= 2^28. */
  method GenerateRecipSqrtEstimateLUT() returns (lut: seq<u8>)
    ensures |lut| == 512
    ensures forall i :: 0 <= i < 128 ==> lut[i] == 0
    ensures forall i :: 128 <= i < 512 ==> lut[i] == RecipSqrtEntry(i)
  {
    lut := seq(512, _ => 0);
    for i := 128 to 512
      invariant |lut| == 512
      invariant forall j :: 0 <= j < 128 ==> lut[j] == 0
      invariant forall j :: 128 <= j < i ==> lut[j] == RecipSqrtEntry(j)
    {
      var a := i;
      if a < 256 {
        a := a * 2 + 1;
      } else {
        a := OrOne(a) * 2;
      }
      var b := 512;
      while a * (b + 1) * (b + 1) < 0x1000_0000
        invariant 512 <= b <= 1022
        invariant SearchB(a, b) == SearchB(a, 512)
        decreases 1022 - b
      {
        b := b + 1;
      }
      lut := lut[i := ((b + 1) / 2) % 0x100];
    }
  }

  /** RecipSqrtEstimate(a) = RecipSqrtEstimateLUT[a & 0x1FF]: every a has an entry. */
  function RecipSqrtEstimate(a: u64): (r: u8)
    ensures a % 512 < 128 ==> r == 0
    ensures a % 512 >= 128 ==> r == ((SearchB(SqrtOperand(a % 512), 512) + 1) / 2) % 0x100
  {
    RecipSqrtEntry(a % 512)
  }
}

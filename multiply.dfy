/**
 * The ARM multiply handlers of the translator: the PC and register-overlap
 * guards, and the register and flag writes the emitted IR performs when the
 * condition passes.
 *
 * Each handler's result is computed with the IR's 32- and 64-bit operations
 * (functions below); lemmas show that these give the results the ARMv7-A/R
 * Architecture Reference Manual defines in section A8.8 "Alphabetical list
 * of instructions" on signed and unsigned integers.
 */
module Multiply {
  import opened Ints

  const TWO_31: nat := 0x8000_0000

  /** Reg: R0..R15, where R15 is the PC. */
  type Reg = r: nat | r < 16
  const PC: Reg := 15

  /**
   * How a handler ends: `true` after translating, or the result of
   * UnpredictableInstruction() / InterpretThisInstruction(), whose bodies are
   * not part of this model.
   */
  datatype Handled = Translated | UnpredictableInstruction | InterpretThisInstruction

  // The IR operations the handlers emit, on the bit patterns they denote.

  function SignExtendWordToLong(x: u32): u64 { if x < TWO_31 then x else x + (TWO_64 - TWO_32) }
  function ZeroExtendWordToLong(x: u32): u64 { x }
  function Mul(a: u32, b: u32): u32 { (a * b) % TWO_32 }
  function Add(a: u32, b: u32): u32 { (a + b) % TWO_32 }
  function Mul64(a: u64, b: u64): u64 { (a * b) % TWO_64 }
  function Add64(a: u64, b: u64): u64 { (a + b) % TWO_64 }
  function Sub64(a: u64, b: u64): u64 { (a - b) % TWO_64 }
  function Pack2x32To1x64(lo: u32, hi: u32): u64 { hi * TWO_32 + lo }
  function LeastSignificantWord(x: u64): u32 { x % TWO_32 }
  function MostSignificantWord(x: u64): u32 { x / TWO_32 }
  /** The carry of MostSignificantWord: bit 31 of its operand, the last bit shifted out. */
  function MostSignificantWordCarry(x: u64): bool { x % TWO_32 >= TWO_31 }
  function MostSignificantBit(x: u32): bool { x >= TWO_31 }
  /** AddWithCarry(x, Imm32(0), carry).result. */
  function AddCarry(x: u32, carry: bool): u32 { (x + if carry then 1 else 0) % TWO_32 }

  // What the handlers compute, written as the IR computes it.

  function MulResult(n: u32, m: u32): u32 { Mul(n, m) }
  function MlaResult(n: u32, m: u32, a: u32): u32 { Add(Mul(n, m), a) }
  function SmullResult(n: u32, m: u32): u64 { Mul64(SignExtendWordToLong(n), SignExtendWordToLong(m)) }
  function SmlalResult(n: u32, m: u32, lo: u32, hi: u32): u64 { Add64(SmullResult(n, m), Pack2x32To1x64(lo, hi)) }
  function UmullResult(n: u32, m: u32): u64 { Mul64(ZeroExtendWordToLong(n), ZeroExtendWordToLong(m)) }
  function UmlalResult(n: u32, m: u32, lo: u32, hi: u32): u64 { Add64(UmullResult(n, m), Pack2x32To1x64(lo, hi)) }
  function UmaalResult(n: u32, m: u32, lo: u32, hi: u32): u64
  {
    Add64(Add64(Mul64(ZeroExtendWordToLong(n), ZeroExtendWordToLong(m)), ZeroExtendWordToLong(hi)), ZeroExtendWordToLong(lo))
  }
  /** The high word of a 64-bit value, rounded up by its carry when R is set. */
  function RoundedHigh(t: u64, round: bool): u32
  {
    if round then AddCarry(MostSignificantWord(t), MostSignificantWordCarry(t)) else MostSignificantWord(t)
  }
  function SmmulResult(n: u32, m: u32, round: bool): u32 { RoundedHigh(SmullResult(n, m), round) }
  function SmmlaResult(n: u32, m: u32, a: u32, round: bool): u32
  {
    RoundedHigh(Add64(Pack2x32To1x64(0, a), SmullResult(n, m)), round)
  }
  function SmmlsResult(n: u32, m: u32, a: u32, round: bool): u32
  {
    RoundedHigh(Sub64(Pack2x32To1x64(0, a), SmullResult(n, m)), round)
  }

  // The Architecture Reference Manual's definitions, on integers.

  /** SInt of a word. */
  function SInt(x: u32): int { if x < TWO_31 then x else x - TWO_32 }
  /** SInt of a doubleword. */
  function SInt64(x: u64): int { if x < TWO_64 / 2 then x else x - TWO_64 }
  /** x<31:0> of an integer. */
  function Low32(x: int): u32 { x % TWO_32 }
  /** x<63:0> of an integer. */
  function Low64(x: int): u64 { x % TWO_64 }
  /** x<63:32> of an integer. */
  function High32(x: int): u32 { (x / TWO_32) % TWO_32 }
  function RoundingConstant(round: bool): int { if round then 0x8000_0000 else 0 }

  // Modular arithmetic.

  lemma SignExtendCongruent(x: u32)
    ensures SignExtendWordToLong(x) as int == SInt(x) + (if x < TWO_31 then 0 else TWO_64)
    ensures x as int == SInt(x) + (if x < TWO_31 then 0 else TWO_32)
  {
  }

  /** Multiplying congruent factors gives congruent products, modulo 2^32 or 2^64. */
  lemma ProductMod(x: int, y: int, ex: bool, ey: bool, modulus: nat)
    requires modulus == TWO_32 || modulus == TWO_64
    ensures ((x + if ex then modulus else 0) * (y + if ey then modulus else 0)) % modulus == (x * y) % modulus
  {
    var a := x + if ex then modulus else 0;
    var b := y + if ey then modulus else 0;
    var k := (if ey then x else 0) + (if ex then y else 0) + (if ex && ey then modulus else 0);
    assert a * b == x * y + k * modulus by {
      if ex && ey {
        assert (x + modulus) * (y + modulus) == x * y + x * modulus + y * modulus + modulus * modulus;
      } else if ex {
        assert (x + modulus) * y == x * y + y * modulus;
      } else if ey {
        assert x * (y + modulus) == x * y + x * modulus;
      }
    }
    ShiftMod(x * y, k, modulus);
  }

  lemma ShiftMod(x: int, k: int, modulus: nat)
    requires modulus == TWO_32 || modulus == TWO_64
    ensures (x + k * modulus) % modulus == x % modulus
  {
  }

  lemma MulMono(a: nat, b: nat, c: nat)
    requires a <= b
    ensures a * c <= b * c
  {
  }

  /** The product of two words fits in a doubleword. */
  lemma WordProductBound(n: u32, m: u32)
    ensures n * m <= (TWO_32 - 1) * (TWO_32 - 1)
  {
    MulMono(n, TWO_32 - 1, m);
    MulMono(m, TWO_32 - 1, TWO_32 - 1);
    assert (TWO_32 - 1) * m == m * (TWO_32 - 1);
  }

  /** The signed product's low doubleword is the product of the sign-extended words modulo 2^64. */
  lemma SignedProductBits(n: u32, m: u32)
    ensures SmullResult(n, m) == Low64(SInt(n) * SInt(m))
  {
    SignExtendCongruent(n);
    SignExtendCongruent(m);
    ProductMod(SInt(n), SInt(m), n >= TWO_31, m >= TWO_31, TWO_64);
  }

  lemma High32Congruent(x: int, k: int)
    ensures High32(x + k * TWO_64) == High32(x)
  {
    assert (x + k * TWO_64) / TWO_32 == x / TWO_32 + k * TWO_32;
  }

  /** Adding the rounding constant before taking bits 63:32 is the high word plus its carry. */
  lemma RoundedHighIsHigh32(t: u64, round: bool)
    ensures RoundedHigh(t, round) == High32(t + RoundingConstant(round))
  {
  }

  // The handlers' IR results are the manual's.

  lemma MulMatchesManual(n: u32, m: u32)
    ensures MulResult(n, m) == Low32(SInt(n) * SInt(m))
  {
    SignExtendCongruent(n);
    SignExtendCongruent(m);
    ProductMod(SInt(n), SInt(m), n >= TWO_31, m >= TWO_31, TWO_32);
  }

  lemma MlaMatchesManual(n: u32, m: u32, a: u32)
    ensures MlaResult(n, m, a) == Low32(SInt(n) * SInt(m) + SInt(a))
  {
    MulMatchesManual(n, m);
    SumMod(SInt(n) * SInt(m), a, SInt(a), TWO_32);
  }

  /** Adding congruent addends to a reduced value. */
  lemma SumMod(p: int, a: int, a': int, modulus: nat)
    requires modulus == TWO_32 || modulus == TWO_64
    requires a == a' || a == a' + modulus
    ensures (p % modulus + a) % modulus == (p + a') % modulus
  {
  }

  lemma SmullMatchesManual(n: u32, m: u32)
    ensures LeastSignificantWord(SmullResult(n, m)) == Low32(SInt(n) * SInt(m))
    ensures MostSignificantWord(SmullResult(n, m)) == High32(SInt(n) * SInt(m))
    ensures MostSignificantBit(MostSignificantWord(SmullResult(n, m))) <==> SInt(n) * SInt(m) < 0
  {
    SignedProductBits(n, m);
    var p := SInt(n) * SInt(m);
    ProductBounds(n, m);
    LowHighOfLow64(p);
  }

  /** The signed product of two words lies within a signed doubleword. */
  lemma ProductBounds(n: u32, m: u32)
    ensures -0x4000_0000_0000_0000 <= SInt(n) * SInt(m) <= 0x4000_0000_0000_0000
  {
    var x := SInt(n);
    var y := SInt(m);
    assert -0x8000_0000 <= x < 0x8000_0000 && -0x8000_0000 <= y < 0x8000_0000;
    if x >= 0 && y >= 0 {
      assert x * y <= 0x8000_0000 * y;
    } else if x < 0 && y < 0 {
      assert x * y <= 0x8000_0000 * (-y);
    } else if x < 0 {
      assert x * y >= -0x8000_0000 * y;
    } else {
      assert x * y >= x * -0x8000_0000;
    }
  }

  /** The words of x<63:0> are x<31:0> and x<63:32>; bit 63 is set exactly for a negative doubleword. */
  lemma LowHighOfLow64(p: int)
    ensures LeastSignificantWord(Low64(p)) == Low32(p)
    ensures MostSignificantWord(Low64(p)) == High32(p)
    ensures -0x8000_0000_0000_0000 <= p < 0x8000_0000_0000_0000 ==>
      (MostSignificantBit(MostSignificantWord(Low64(p))) <==> p < 0)
  {
    var k := p / TWO_64;
    assert p == Low64(p) + k * TWO_64;
    High32Congruent(Low64(p), k);
  }

  lemma SmlalMatchesManual(n: u32, m: u32, lo: u32, hi: u32)
    ensures SmlalResult(n, m, lo, hi) == Low64(SInt(n) * SInt(m) + SInt64(Pack2x32To1x64(lo, hi)))
  {
    SignedProductBits(n, m);
    var addend := Pack2x32To1x64(lo, hi);
    SumMod(SInt(n) * SInt(m), addend, SInt64(addend), TWO_64);
  }

  lemma UmullMatchesManual(n: u32, m: u32)
    ensures UmullResult(n, m) == n * m
  {
    WordProductBound(n, m);
  }

  lemma UmlalMatchesManual(n: u32, m: u32, lo: u32, hi: u32)
    ensures UmlalResult(n, m, lo, hi) == Low64(n * m + Pack2x32To1x64(lo, hi))
  {
    UmullMatchesManual(n, m);
  }

  /** UMAAL's sum n*m + hi + lo never exceeds 2^64 - 1, so neither 64-bit addition wraps. */
  lemma UmaalNoOverflow(n: u32, m: u32, lo: u32, hi: u32)
    ensures n * m + hi + lo < TWO_64
    ensures UmaalResult(n, m, lo, hi) == n * m + hi + lo
  {
    WordProductBound(n, m);
    var p := n * m;
    assert p + hi + lo <= (TWO_32 - 1) * (TWO_32 - 1) + 2 * (TWO_32 - 1);
    assert Mul64(n, m) == p;
    assert Add64(p, hi) == p + hi;
    assert Add64(p + hi, lo) == p + hi + lo;
  }

  lemma SmmulMatchesManual(n: u32, m: u32, round: bool)
    ensures SmmulResult(n, m, round) == High32(SInt(n) * SInt(m) + RoundingConstant(round))
  {
    var p := SInt(n) * SInt(m);
    SignedProductBits(n, m);
    RoundedHighIsHigh32(SmullResult(n, m), round);
    assert Low64(p) + RoundingConstant(round) == p + RoundingConstant(round) - (p / TWO_64) * TWO_64;
    High32Congruent(p + RoundingConstant(round), -(p / TWO_64));
  }

  lemma SmmlaMatchesManual(n: u32, m: u32, a: u32, round: bool)
    ensures SmmlaResult(n, m, a, round) == High32(SInt(a) * TWO_32 + SInt(n) * SInt(m) + RoundingConstant(round))
  {
    var p := SInt(n) * SInt(m);
    SignedProductBits(n, m);
    var t := Add64(Pack2x32To1x64(0, a), SmullResult(n, m));
    RoundedHighIsHigh32(t, round);
    var x := SInt(a) * TWO_32 + p + RoundingConstant(round);
    assert a as int * TWO_32 == SInt(a) * TWO_32 + (if a < TWO_31 then 0 else TWO_64);
    var k := (a as int * TWO_32 + Low64(p)) / TWO_64 - (if a < TWO_31 then 0 else 1) + p / TWO_64;
    assert t + RoundingConstant(round) == x - k * TWO_64;
    High32Congruent(x, -k);
  }

  lemma SmmlsMatchesManual(n: u32, m: u32, a: u32, round: bool)
    ensures SmmlsResult(n, m, a, round) == High32(SInt(a) * TWO_32 - SInt(n) * SInt(m) + RoundingConstant(round))
  {
    var p := SInt(n) * SInt(m);
    SignedProductBits(n, m);
    var t := Sub64(Pack2x32To1x64(0, a), SmullResult(n, m));
    RoundedHighIsHigh32(t, round);
    var x := SInt(a) * TWO_32 - p + RoundingConstant(round);
    assert a as int * TWO_32 == SInt(a) * TWO_32 + (if a < TWO_31 then 0 else TWO_64);
    var k := (a as int * TWO_32 - Low64(p)) / TWO_64 - (if a < TWO_31 then 0 else 1) - p / TWO_64;
    assert t + RoundingConstant(round) == x - k * TWO_64;
    High32Congruent(x, -k);
  }

  /**
   * ArmTranslatorVisitor as its multiply handlers see it: the guest
   * registers and the N and Z flags that the emitted IR reads and writes.
   * `conditionPassed` is what ConditionPassed(cond) answered.
   */
  class ArmVisitor {
    const regs: array<u32>
    var nFlag: bool
    var zFlag: bool

    predicate Valid()
      reads this
    {
      regs.Length == 16
    }

    constructor(regs: array<u32>, nFlag: bool, zFlag: bool)
      requires regs.Length == 16
      ensures Valid() && this.regs == regs && this.nFlag == nFlag && this.zFlag == zFlag
    {
      this.regs := regs;
      this.nFlag := nFlag;
      this.zFlag := zFlag;
    }

    /** The result and S flag writes of a 32-bit multiply into d. */
    method Write32(d: Reg, result: u32, s: bool)
      requires Valid()
      modifies regs, this
      ensures regs[..] == old(regs[..])[d := result]
      ensures s ==> nFlag == MostSignificantBit(result) && zFlag == (result == 0)
      ensures !s ==> nFlag == old(nFlag) && zFlag == old(zFlag)
    {
      regs[d] := result;
      if s {
        nFlag := MostSignificantBit(result);
        zFlag := result == 0;
      }
    }

    /** The result and S flag writes of a long multiply into dLo and dHi. */
    method Write64(dLo: Reg, dHi: Reg, result: u64, s: bool)
      requires Valid() && dLo != dHi
      modifies regs, this
      ensures regs[..] == old(regs[..])[dLo := LeastSignificantWord(result)][dHi := MostSignificantWord(result)]
      ensures s ==> nFlag == MostSignificantBit(MostSignificantWord(result)) && zFlag == (result == 0)
      ensures !s ==> nFlag == old(nFlag) && zFlag == old(zFlag)
    {
      var lo := LeastSignificantWord(result);
      var hi := MostSignificantWord(result);
      regs[dLo] := lo;
      regs[dHi] := hi;
      if s {
        nFlag := MostSignificantBit(hi);
        zFlag := result == 0;
      }
    }

    method MLA(conditionPassed: bool, s: bool, d: Reg, a: Reg, m: Reg, n: Reg) returns (r: Handled)
      requires Valid()
      modifies regs, this
      ensures r == (if d == PC || n == PC || m == PC || a == PC then UnpredictableInstruction else Translated)
      ensures r == Translated && conditionPassed ==>
        regs[..] == old(regs[..])[d := MlaResult(old(regs[n]), old(regs[m]), old(regs[a]))] &&
        (s ==> nFlag == MostSignificantBit(regs[d]) && zFlag == (regs[d] == 0)) &&
        (!s ==> nFlag == old(nFlag) && zFlag == old(zFlag))
      ensures r != Translated || !conditionPassed ==> regs[..] == old(regs[..]) && nFlag == old(nFlag) && zFlag == old(zFlag)
    {
      if d == PC || n == PC || m == PC || a == PC {
        return UnpredictableInstruction;
      }
      if conditionPassed {
        var result := Add(Mul(regs[n], regs[m]), regs[a]);
        Write32(d, result, s);
      }
      return Translated;
    }

    method MUL(conditionPassed: bool, s: bool, d: Reg, m: Reg, n: Reg) returns (r: Handled)
      requires Valid()
      modifies regs, this
      ensures r == (if d == PC || n == PC || m == PC then UnpredictableInstruction else Translated)
      ensures r == Translated && conditionPassed ==>
        regs[..] == old(regs[..])[d := MulResult(old(regs[n]), old(regs[m]))] &&
        (s ==> nFlag == MostSignificantBit(regs[d]) && zFlag == (regs[d] == 0)) &&
        (!s ==> nFlag == old(nFlag) && zFlag == old(zFlag))
      ensures r != Translated || !conditionPassed ==> regs[..] == old(regs[..]) && nFlag == old(nFlag) && zFlag == old(zFlag)
    {
      if d == PC || n == PC || m == PC {
        return UnpredictableInstruction;
      }
      if conditionPassed {
        var result := Mul(regs[n], regs[m]);
        Write32(d, result, s);
      }
      return Translated;
    }

    method SMLAL(conditionPassed: bool, s: bool, dHi: Reg, dLo: Reg, m: Reg, n: Reg) returns (r: Handled)
      requires Valid()
      modifies regs, this
      ensures r == (if dLo == PC || dHi == PC || n == PC || m == PC || dLo == dHi
        then UnpredictableInstruction else Translated)
      ensures r == Translated && conditionPassed ==>
        var result := SmlalResult(old(regs[n]), old(regs[m]), old(regs[dLo]), old(regs[dHi]));
        regs[..] == old(regs[..])[dLo := LeastSignificantWord(result)][dHi := MostSignificantWord(result)] &&
        (s ==> nFlag == MostSignificantBit(regs[dHi]) && zFlag == (result == 0)) &&
        (!s ==> nFlag == old(nFlag) && zFlag == old(zFlag))
      ensures r != Translated || !conditionPassed ==> regs[..] == old(regs[..]) && nFlag == old(nFlag) && zFlag == old(zFlag)
    {
      if dLo == PC || dHi == PC || n == PC || m == PC {
        return UnpredictableInstruction;
      }
      if dLo == dHi {
        return UnpredictableInstruction;
      }
      if conditionPassed {
        var n64 := SignExtendWordToLong(regs[n]);
        var m64 := SignExtendWordToLong(regs[m]);
        var product := Mul64(n64, m64);
        var addend := Pack2x32To1x64(regs[dLo], regs[dHi]);
        var result := Add64(product, addend);
        Write64(dLo, dHi, result, s);
      }
      return Translated;
    }

    method SMULL(conditionPassed: bool, s: bool, dHi: Reg, dLo: Reg, m: Reg, n: Reg) returns (r: Handled)
      requires Valid()
      modifies regs, this
      ensures r == (if dLo == PC || dHi == PC || n == PC || m == PC || dLo == dHi
        then UnpredictableInstruction else Translated)
      ensures r == Translated && conditionPassed ==>
        var result := SmullResult(old(regs[n]), old(regs[m]));
        regs[..] == old(regs[..])[dLo := LeastSignificantWord(result)][dHi := MostSignificantWord(result)] &&
        (s ==> nFlag == MostSignificantBit(regs[dHi]) && zFlag == (result == 0)) &&
        (!s ==> nFlag == old(nFlag) && zFlag == old(zFlag))
      ensures r != Translated || !conditionPassed ==> regs[..] == old(regs[..]) && nFlag == old(nFlag) && zFlag == old(zFlag)
    {
      if dLo == PC || dHi == PC || n == PC || m == PC {
        return UnpredictableInstruction;
      }
      if dLo == dHi {
        return UnpredictableInstruction;
      }
      if conditionPassed {
        var n64 := SignExtendWordToLong(regs[n]);
        var m64 := SignExtendWordToLong(regs[m]);
        var result := Mul64(n64, m64);
        Write64(dLo, dHi, result, s);
      }
      return Translated;
    }

    /** UMAAL writes no flags. */
    method UMAAL(conditionPassed: bool, dHi: Reg, dLo: Reg, m: Reg, n: Reg) returns (r: Handled)
      requires Valid()
      modifies regs
      ensures r == (if dLo == PC || dHi == PC || n == PC || m == PC || dLo == dHi
        then UnpredictableInstruction else Translated)
      ensures r == Translated && conditionPassed ==>
        var result := UmaalResult(old(regs[n]), old(regs[m]), old(regs[dLo]), old(regs[dHi]));
        regs[..] == old(regs[..])[dLo := LeastSignificantWord(result)][dHi := MostSignificantWord(result)]
      ensures r != Translated || !conditionPassed ==> regs[..] == old(regs[..])
    {
      if dLo == PC || dHi == PC || n == PC || m == PC {
        return UnpredictableInstruction;
      }
      if dLo == dHi {
        return UnpredictableInstruction;
      }
      if conditionPassed {
        var lo64 := ZeroExtendWordToLong(regs[dLo]);
        var hi64 := ZeroExtendWordToLong(regs[dHi]);
        var n64 := ZeroExtendWordToLong(regs[n]);
        var m64 := ZeroExtendWordToLong(regs[m]);
        var result := Add64(Add64(Mul64(n64, m64), hi64), lo64);
        regs[dLo] := LeastSignificantWord(result);
        regs[dHi] := MostSignificantWord(result);
      }
      return Translated;
    }

    method UMLAL(conditionPassed: bool, s: bool, dHi: Reg, dLo: Reg, m: Reg, n: Reg) returns (r: Handled)
      requires Valid()
      modifies regs, this
      ensures r == (if dLo == PC || dHi == PC || n == PC || m == PC || dLo == dHi
        then UnpredictableInstruction else Translated)
      ensures r == Translated && conditionPassed ==>
        var result := UmlalResult(old(regs[n]), old(regs[m]), old(regs[dLo]), old(regs[dHi]));
        regs[..] == old(regs[..])[dLo := LeastSignificantWord(result)][dHi := MostSignificantWord(result)] &&
        (s ==> nFlag == MostSignificantBit(regs[dHi]) && zFlag == (result == 0)) &&
        (!s ==> nFlag == old(nFlag) && zFlag == old(zFlag))
      ensures r != Translated || !conditionPassed ==> regs[..] == old(regs[..]) && nFlag == old(nFlag) && zFlag == old(zFlag)
    {
      if dLo == PC || dHi == PC || n == PC || m == PC {
        return UnpredictableInstruction;
      }
      if dLo == dHi {
        return UnpredictableInstruction;
      }
      if conditionPassed {
        var addend := Pack2x32To1x64(regs[dLo], regs[dHi]);
        var n64 := ZeroExtendWordToLong(regs[n]);
        var m64 := ZeroExtendWordToLong(regs[m]);
        var result := Add64(Mul64(n64, m64), addend);
        Write64(dLo, dHi, result, s);
      }
      return Translated;
    }

    method UMULL(conditionPassed: bool, s: bool, dHi: Reg, dLo: Reg, m: Reg, n: Reg) returns (r: Handled)
      requires Valid()
      modifies regs, this
      ensures r == (if dLo == PC || dHi == PC || n == PC || m == PC || dLo == dHi
        then UnpredictableInstruction else Translated)
      ensures r == Translated && conditionPassed ==>
        var result := UmullResult(old(regs[n]), old(regs[m]));
        regs[..] == old(regs[..])[dLo := LeastSignificantWord(result)][dHi := MostSignificantWord(result)] &&
        (s ==> nFlag == MostSignificantBit(regs[dHi]) && zFlag == (result == 0)) &&
        (!s ==> nFlag == old(nFlag) && zFlag == old(zFlag))
      ensures r != Translated || !conditionPassed ==> regs[..] == old(regs[..]) && nFlag == old(nFlag) && zFlag == old(zFlag)
    {
      if dLo == PC || dHi == PC || n == PC || m == PC {
        return UnpredictableInstruction;
      }
      if dLo == dHi {
        return UnpredictableInstruction;
      }
      if conditionPassed {
        var n64 := ZeroExtendWordToLong(regs[n]);
        var m64 := ZeroExtendWordToLong(regs[m]);
        var result := Mul64(n64, m64);
        Write64(dLo, dHi, result, s);
      }
      return Translated;
    }

    /** SMMLA: the accumulator register a is not checked against the PC. */
    method SMMLA(conditionPassed: bool, d: Reg, a: Reg, m: Reg, round: bool, n: Reg) returns (r: Handled)
      requires Valid()
      modifies regs
      ensures r == (if d == PC || n == PC || m == PC then UnpredictableInstruction else Translated)
      ensures r == Translated && conditionPassed ==>
        regs[..] == old(regs[..])[d := SmmlaResult(old(regs[n]), old(regs[m]), old(regs[a]), round)]
      ensures r != Translated || !conditionPassed ==> regs[..] == old(regs[..])
    {
      if d == PC || n == PC || m == PC {
        return UnpredictableInstruction;
      }
      if conditionPassed {
        var n64 := SignExtendWordToLong(regs[n]);
        var m64 := SignExtendWordToLong(regs[m]);
        var a64 := Pack2x32To1x64(0, regs[a]);
        var temp := Add64(a64, Mul64(n64, m64));
        var result := MostSignificantWord(temp);
        if round {
          result := AddCarry(result, MostSignificantWordCarry(temp));
        }
        regs[d] := result;
      }
      return Translated;
    }

    method SMMLS(conditionPassed: bool, d: Reg, a: Reg, m: Reg, round: bool, n: Reg) returns (r: Handled)
      requires Valid()
      modifies regs
      ensures r == (if d == PC || n == PC || m == PC || a == PC then UnpredictableInstruction else Translated)
      ensures r == Translated && conditionPassed ==>
        regs[..] == old(regs[..])[d := SmmlsResult(old(regs[n]), old(regs[m]), old(regs[a]), round)]
      ensures r != Translated || !conditionPassed ==> regs[..] == old(regs[..])
    {
      if d == PC || n == PC || m == PC || a == PC {
        return UnpredictableInstruction;
      }
      if conditionPassed {
        var n64 := SignExtendWordToLong(regs[n]);
        var m64 := SignExtendWordToLong(regs[m]);
        var a64 := Pack2x32To1x64(0, regs[a]);
        var temp := Sub64(a64, Mul64(n64, m64));
        var result := MostSignificantWord(temp);
        if round {
          result := AddCarry(result, MostSignificantWordCarry(temp));
        }
        regs[d] := result;
      }
      return Translated;
    }

    method SMMUL(conditionPassed: bool, d: Reg, m: Reg, round: bool, n: Reg) returns (r: Handled)
      requires Valid()
      modifies regs
      ensures r == (if d == PC || n == PC || m == PC then UnpredictableInstruction else Translated)
      ensures r == Translated && conditionPassed ==>
        regs[..] == old(regs[..])[d := SmmulResult(old(regs[n]), old(regs[m]), round)]
      ensures r != Translated || !conditionPassed ==> regs[..] == old(regs[..])
    {
      if d == PC || n == PC || m == PC {
        return UnpredictableInstruction;
      }
      if conditionPassed {
        var n64 := SignExtendWordToLong(regs[n]);
        var m64 := SignExtendWordToLong(regs[m]);
        var product := Mul64(n64, m64);
        var result := MostSignificantWord(product);
        if round {
          result := AddCarry(result, MostSignificantWordCarry(product));
        }
        regs[d] := result;
      }
      return Translated;
    }

    // The halfword, word-by-halfword and dual multiplies are left to the interpreter.

    method SMLALxy(cond: nat, dHi: Reg, dLo: Reg, m: Reg, mHigh: bool, nHigh: bool, n: Reg) returns (r: Handled)
      ensures r == InterpretThisInstruction
    {
      return InterpretThisInstruction;
    }

    method SMLAxy(cond: nat, d: Reg, a: Reg, m: Reg, mHigh: bool, nHigh: bool, n: Reg) returns (r: Handled)
      ensures r == InterpretThisInstruction
    {
      return InterpretThisInstruction;
    }

    method SMULxy(cond: nat, d: Reg, m: Reg, mHigh: bool, nHigh: bool, n: Reg) returns (r: Handled)
      ensures r == InterpretThisInstruction
    {
      return InterpretThisInstruction;
    }

    method SMLAWy(cond: nat, d: Reg, a: Reg, m: Reg, mHigh: bool, n: Reg) returns (r: Handled)
      ensures r == InterpretThisInstruction
    {
      return InterpretThisInstruction;
    }

    method SMULWy(cond: nat, d: Reg, m: Reg, mHigh: bool, n: Reg) returns (r: Handled)
      ensures r == InterpretThisInstruction
    {
      return InterpretThisInstruction;
    }

    method SMLAD(cond: nat, d: Reg, a: Reg, m: Reg, swap: bool, n: Reg) returns (r: Handled)
      ensures r == InterpretThisInstruction
    {
      return InterpretThisInstruction;
    }

    method SMLALD(cond: nat, dHi: Reg, dLo: Reg, m: Reg, swap: bool, n: Reg) returns (r: Handled)
      ensures r == InterpretThisInstruction
    {
      return InterpretThisInstruction;
    }

    method SMLSD(cond: nat, d: Reg, a: Reg, m: Reg, swap: bool, n: Reg) returns (r: Handled)
      ensures r == InterpretThisInstruction
    {
      return InterpretThisInstruction;
    }

    method SMLSLD(cond: nat, dHi: Reg, dLo: Reg, m: Reg, swap: bool, n: Reg) returns (r: Handled)
      ensures r == InterpretThisInstruction
    {
      return InterpretThisInstruction;
    }

    method SMUAD(cond: nat, d: Reg, m: Reg, swap: bool, n: Reg) returns (r: Handled)
      ensures r == InterpretThisInstruction
    {
      return InterpretThisInstruction;
    }

    method SMUSD(cond: nat, d: Reg, m: Reg, swap: bool, n: Reg) returns (r: Handled)
      ensures r == InterpretThisInstruction
    {
      return InterpretThisInstruction;
    }
  }
}

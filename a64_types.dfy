/** Names of A64 condition codes, general registers and vector registers. */
module A64Types {
  import opened Decimal

  /** A64::Cond, by its ordinal. */
  type Cond = c: nat | c < 16
  /** A64::Reg R0..R31, by its ordinal; R31 is the stack pointer / zero register. */
  type Reg = r: nat | r < 32
  /** A64::Vec V0..V31, by its ordinal. */
  type Vec = v: nat | v < 32

  const R31: Reg := 31

  const CondStrs: seq<string> := [
    "eq", "ne", "hs", "lo", "mi", "pl", "vs", "vc",
    "hi", "ls", "ge", "lt", "gt", "le", "al", "nv"
  ]

  function CondToString(cond: Cond): (s: string)
    ensures |s| == 2
  {
    CondStrs[cond]
  }

  /** Each condition has its own two-letter name; eq, al and nv as in the architecture. */
  lemma CondToStringDistinct(c1: Cond, c2: Cond)
    ensures CondToString(c1) == CondToString(c2) <==> c1 == c2
    ensures CondToString(0) == "eq" && CondToString(14) == "al" && CondToString(15) == "nv"
  {
  }

  /** The character static_cast<char>(n + '0'). */
  function OrdinalChar(n: nat): char
    requires n < 32
  {
    (n + '0' as int) as char
  }

  function RegToString(reg: Reg): (s: string)
  {
    if reg == R31 then "sp|zr" else ['r'] + [OrdinalChar(reg)]
  }

  /** Every register but R31 is 'r' and one character, a decimal digit only below R10. */
  lemma RegToStringShape(reg: Reg)
    ensures reg == R31 <==> RegToString(reg) == "sp|zr"
    ensures reg != R31 ==>
      |RegToString(reg)| == 2 && RegToString(reg)[0] == 'r' &&
      (IsDigit(RegToString(reg)[1]) <==> reg < 10)
  {
  }

  lemma RegToStringInjective(r1: Reg, r2: Reg)
    ensures RegToString(r1) == RegToString(r2) <==> r1 == r2
  {
    if RegToString(r1) == RegToString(r2) && r1 != R31 && r2 != R31 {
      assert RegToString(r1)[1] == OrdinalChar(r1);
      assert RegToString(r2)[1] == OrdinalChar(r2);
    }
  }

  function VecToString(vec: Vec): (s: string)
    ensures |s| == 2 && s[0] == 'v'
  {
    ['v'] + [OrdinalChar(vec)]
  }

  lemma VecToStringInjective(v1: Vec, v2: Vec)
    ensures VecToString(v1) == VecToString(v2) <==> v1 == v2
  {
    if VecToString(v1) == VecToString(v2) {
      assert VecToString(v1)[1] == OrdinalChar(v1);
      assert VecToString(v2)[1] == OrdinalChar(v2);
    }
  }

  /** As written, R10 renders as "r:" and V10 as "v:", where their decimal names are meant. */
  lemma TenNotDecimal()
    ensures RegToString(10) == "r:" && RegToStringIntended(10) == "r10"
    ensures VecToString(10) == "v:" && VecToStringIntended(10) == "v10"
  {
    assert ToDecimal(10) == ToDecimal(1) + [DigitChar(0)];
  }

  /** RegToString with the register number written in decimal. */
  function RegToStringIntended(reg: Reg): (s: string)
  {
    if reg == R31 then "sp|zr" else "r" + ToDecimal(reg)
  }

  /** VecToString with the vector number written in decimal. */
  function VecToStringIntended(vec: Vec): (s: string)
  {
    "v" + ToDecimal(vec)
  }

  lemma FirstChar(r: Reg)
    ensures RegToStringIntended(r)[0] == if r == R31 then 's' else 'r'
  {
  }

  /** Corrected, every register but R31 is 'r' and its number in decimal, and names are distinct. */
  lemma RegToStringIntendedShape(r1: Reg, r2: Reg)
    ensures r1 != R31 ==> var s := RegToStringIntended(r1);
      s[0] == 'r' && AllDigits(s[1..]) && ParseDecimal(s[1..]) == r1
    ensures RegToStringIntended(r1) == RegToStringIntended(r2) <==> r1 == r2
  {
    if r1 != R31 {
      assert RegToStringIntended(r1)[1..] == ToDecimal(r1);
      ParseToDecimal(r1);
    }
    FirstChar(r1);
    FirstChar(r2);
    if RegToStringIntended(r1) == RegToStringIntended(r2) {
      if r1 != R31 && r2 != R31 {
        assert RegToStringIntended(r1)[1..] == ToDecimal(r1);
        assert RegToStringIntended(r2)[1..] == ToDecimal(r2);
        ToDecimalInjective(r1, r2);
      }
    }
  }

  /** Corrected, every vector is 'v' and its number in decimal, and names are distinct. */
  lemma VecToStringIntendedShape(v1: Vec, v2: Vec)
    ensures var s := VecToStringIntended(v1);
      s[0] == 'v' && AllDigits(s[1..]) && ParseDecimal(s[1..]) == v1
    ensures VecToStringIntended(v1) == VecToStringIntended(v2) <==> v1 == v2
  {
    assert VecToStringIntended(v1)[1..] == ToDecimal(v1);
    ParseToDecimal(v1);
    if VecToStringIntended(v1) == VecToStringIntended(v2) {
      assert VecToStringIntended(v2)[1..] == ToDecimal(v2);
      ToDecimalInjective(v1, v2);
    }
  }
}

/**
 * IR value types as a bitmask (one bit per type, Void = 0) and their
 * printable names: a set of types is rendered as its members' names in
 * ascending bit order, joined by '|'.
 */
module IRType {
  import opened Ints

  /** IR::Type, as its underlying integer. */
  type Type = u32

  const Void: Type := 0
  const A32Reg: Type := 0x1
  const A32ExtReg: Type := 0x2
  const A64Reg: Type := 0x4
  const A64Vec: Type := 0x8
  const Opaque: Type := 0x10
  const U1: Type := 0x20
  const U8: Type := 0x40
  const U16: Type := 0x80
  const U32: Type := 0x100
  const U64: Type := 0x200
  const U128: Type := 0x400
  const CoprocInfo: Type := 0x800
  const NZCVFlags: Type := 0x1000
  const Cond: Type := 0x2000
  const Table: Type := 0x4000
  const AccType: Type := 0x8000

  /** type_names: entry 0 names Void, entry k + 1 names bit k, for k < 15. */
  const TypeNames: seq<string> := [
    "Void",
    "A32Reg", "A32ExtReg",
    "A64Reg", "A64Vec",
    "Opaque",
    "U1", "U8", "U16", "U32", "U64", "U128",
    "CoprocInfo",
    "NZCVFlags",
    "Cond",
    "Table"
  ]

  const TypeNameCount: nat := |TypeNames|

  /** No name is empty and none contains the separator. */
  lemma TypeNamesWellFormed()
    ensures TypeNameCount == 16
    ensures forall i :: 0 <= i < 16 ==> |TypeNames[i]| > 0 && '|' !in TypeNames[i]
  {
  }

  /** The names of the set bits among bits 0 .. n - 1, in ascending order. */
  function SetNames(bits: nat, n: nat): seq<string>
    requires n < 16
  {
    if n == 0 then []
    else SetNames(bits, n - 1) + (if Bit(bits, n - 1) then [TypeNames[n]] else [])
  }

  /** The names joined by '|'. */
  function JoinBar(names: seq<string>): string
  {
    if |names| == 0 then ""
    else if |names| == 1 then names[0]
    else JoinBar(names[..|names| - 1]) + "|" + names[|names| - 1]
  }

  /** The rendering GetNameOf produces: "Void" for 0, else the set names joined by '|'. */
  function NameOf(bits: Type): string
  {
    if bits == 0 then TypeNames[0] else JoinBar(SetNames(bits, 15))
  }

  lemma {:induction false} SetNamesWellFormed(bits: nat, n: nat)
    requires n < 16
    ensures forall k :: 0 <= k < |SetNames(bits, n)| ==>
      |SetNames(bits, n)[k]| > 0 && '|' !in SetNames(bits, n)[k]
  {
    TypeNamesWellFormed();
    if n > 0 {
      SetNamesWellFormed(bits, n - 1);
    }
  }

  lemma {:induction false} JoinBarEmpty(names: seq<string>)
    requires forall k :: 0 <= k < |names| ==> |names[k]| > 0
    ensures JoinBar(names) == "" <==> names == []
  {
    if |names| > 1 {
      JoinBarEmpty(names[..|names| - 1]);
    }
  }

  lemma JoinBarSnoc(names: seq<string>, name: string)
    ensures JoinBar(names + [name]) == if names == [] then name else JoinBar(names) + "|" + name
  {
    assert (names + [name])[..|names|] == names;
  }

  /** GetNameOf(Type): the loop over type_names[1..15], with the early return for Void. */
  method GetNameOf(bits: Type) returns (result: string)
    ensures result == NameOf(bits)
  {
    if bits == 0 {
      return TypeNames[0];
    }
    TypeNamesWellFormed();
    result := "";
    for i := 1 to TypeNameCount
      invariant result == JoinBar(SetNames(bits, i - 1))
    {
      ghost var before := SetNames(bits, i - 1);
      if Bit(bits, i - 1) {
        SetNamesWellFormed(bits, i - 1);
        JoinBarEmpty(before);
        JoinBarSnoc(before, TypeNames[i]);
        if result != "" {
          result := result + "|";
        }
        result := result + TypeNames[i];
        assert SetNames(bits, i) == before + [TypeNames[i]];
      } else {
        assert SetNames(bits, i) == before + [];
        assert before + [] == before;
      }
    }
  }

  // ---- properties of the rendering ----

  /** A single type bit k < 15 renders as its own name, with no separator. */
  lemma {:induction false} SingleBitName(bits: Type, k: nat)
    requires k < 15 && Bit(bits, k)
    requires forall j :: 0 <= j < 15 && j != k ==> !Bit(bits, j)
    ensures bits != 0
    ensures NameOf(bits) == TypeNames[k + 1]
  {
    assert bits != 0 by {
      if bits == 0 {
        ZeroHasNoBits(k);
      }
    }
    SetNamesBelow(bits, k);
    SetNamesAbove(bits, k, 15);
  }

  lemma {:induction false} ZeroHasNoBits(k: nat)
    ensures !Bit(0, k)
  {
  }

  lemma {:induction false} SetNamesBelow(bits: nat, k: nat)
    requires k < 16
    requires forall j :: 0 <= j < k ==> !Bit(bits, j)
    ensures SetNames(bits, k) == []
  {
    if k > 0 {
      SetNamesBelow(bits, k - 1);
    }
  }

  lemma {:induction false} SetNamesAbove(bits: nat, k: nat, n: nat)
    requires k < n < 16 && Bit(bits, k) && SetNames(bits, k) == []
    requires forall j :: k < j < n ==> !Bit(bits, j)
    ensures SetNames(bits, n) == [TypeNames[k + 1]]
  {
    if n > k + 1 {
      SetNamesAbove(bits, k, n - 1);
    }
  }

  /** Occurrences of c in s. */
  function Count(s: string, c: char): nat
  {
    if s == [] then 0 else Count(s[..|s| - 1], c) + (if s[|s| - 1] == c then 1 else 0)
  }

  lemma {:induction false} CountAppend(a: string, b: string, c: char)
    ensures Count(a + b, c) == Count(a, c) + Count(b, c)
  {
    if b != [] {
      assert (a + b)[..|a + b| - 1] == a + b[..|b| - 1];
      CountAppend(a, b[..|b| - 1], c);
    } else {
      assert a + b == a;
    }
  }

  lemma {:induction false} CountAbsent(s: string, c: char)
    requires c !in s
    ensures Count(s, c) == 0
  {
    if s != [] {
      CountAbsent(s[..|s| - 1], c);
    }
  }

  /** Joining m >= 1 separator-free names puts exactly m - 1 separators in. */
  lemma {:induction false} JoinBarSeparators(names: seq<string>)
    requires |names| >= 1
    requires forall k :: 0 <= k < |names| ==> '|' !in names[k]
    ensures Count(JoinBar(names), '|') == |names| - 1
  {
    var last := names[|names| - 1];
    if |names| == 1 {
      CountAbsent(last, '|');
    } else {
      var init := names[..|names| - 1];
      JoinBarSeparators(init);
      CountAppend(JoinBar(init) + "|", last, '|');
      CountAppend(JoinBar(init), "|", '|');
      CountAbsent(last, '|');
    }
  }

  /** The number of set bits among bits 0 .. n - 1. */
  function PopCount(bits: nat, n: nat): nat
  {
    if n == 0 then 0 else PopCount(bits, n - 1) + (if Bit(bits, n - 1) then 1 else 0)
  }

  lemma {:induction false} SetNamesCount(bits: nat, n: nat)
    requires n < 16
    ensures |SetNames(bits, n)| == PopCount(bits, n)
  {
    if n > 0 {
      SetNamesCount(bits, n - 1);
    }
  }

  /** The rendering of a nonzero type has popcount(bits & 0x7FFF) - 1 separators. */
  lemma SeparatorCount(bits: Type)
    requires bits != 0 && PopCount(bits, 15) >= 1
    ensures Count(NameOf(bits), '|') == PopCount(bits, 15) - 1
  {
    SetNamesCount(bits, 15);
    SetNamesWellFormed(bits, 15);
    JoinBarSeparators(SetNames(bits, 15));
  }

  lemma {:induction false} SetNamesDependOnLowBits(x: nat, y: nat, n: nat)
    requires n < 16
    requires forall k :: 0 <= k < n ==> (Bit(x, k) <==> Bit(y, k))
    ensures SetNames(x, n) == SetNames(y, n)
  {
    if n > 0 {
      SetNamesDependOnLowBits(x, y, n - 1);
    }
  }

  /** Bits 15 and up have no name and are ignored: nonzero types that agree on bits 0..14 render alike. */
  lemma HighBitsIgnored(x: Type, y: Type)
    requires x != 0 && y != 0
    requires forall k :: 0 <= k < 15 ==> (Bit(x, k) <==> Bit(y, k))
    ensures NameOf(x) == NameOf(y)
  {
    SetNamesDependOnLowBits(x, y, 15);
  }

  /** A nonzero type with none of bits 0..14 set renders as the empty string. */
  lemma OnlyHighBits(x: Type)
    requires x != 0
    requires forall k :: 0 <= k < 15 ==> !Bit(x, k)
    ensures NameOf(x) == ""
  {
    SetNamesBelow(x, 15);
  }
}

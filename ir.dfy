/**
 * An IR block as an arena: an ordered sequence of instructions, each with an
 * opcode and an argument list, where an argument is an immediate or a
 * reference to another instruction of the block by its position. The use
 * count of instruction k is held at position k of a parallel sequence.
 *
 * The instruction-level bookkeeping (SetArg, Invalidate, ReplaceUsesWith)
 * lives in microinstruction.cpp, which is not part of this model; it is
 * modelled here as moving one use per rewritten argument: the target an
 * argument stops referring to loses a use, the new target gains one.
 */
module IR {
  import opened Ints
  import opened IRType
  import opened Opcodes

  /** IR::Value: an immediate of some type, or a reference to the instruction at `index`. */
  datatype Value = Imm(ty: Type, bits: u64) | Ref(index: nat)
  {
    predicate IsImmediate() { Imm? }
  }

  /** IR::Inst without its use count, which the block keeps beside it. */
  datatype Inst = Inst(op: Opcode, args: seq<Value>, invalidated: bool)

  /** The terminals the modelled code reads or sets. */
  datatype Terminal =
    | Invalid
    | Interpret(next: u64, numInstructions: nat)
    | ReturnToDispatch
    | LinkBlock(next: u64)
    | LinkBlockFast(next: u64)
    | PopRSBHint
    | FastDispatchHint

  predicate ArgsInRange(args: seq<Value>, n: nat)
  {
    forall i :: 0 <= i < |args| ==> (args[i].Ref? ==> args[i].index < n)
  }

  /** Every reference names an instruction of the block. */
  predicate WellFormed(s: seq<Inst>)
  {
    forall k :: 0 <= k < |s| ==> ArgsInRange(s[k].args, |s|)
  }

  /** Occurrences of a reference to t among args. */
  function CountIn(args: seq<Value>, t: nat): nat
  {
    if args == [] then 0
    else CountIn(args[..|args| - 1], t) + (if args[|args| - 1] == Ref(t) then 1 else 0)
  }

  /** Arguments anywhere in the block that refer to t. */
  function RefCount(s: seq<Inst>, t: nat): nat
  {
    if s == [] then 0 else RefCount(s[..|s| - 1], t) + CountIn(s[|s| - 1].args, t)
  }

  /**
   * The use counts are exact: each instruction's count is the number of
   * arguments in the block that refer to it. Use counts are ints, so a
   * decrement never needs a guard.
   */
  predicate UseCountsExact(s: seq<Inst>, uses: seq<int>)
  {
    |uses| == |s| && forall t :: 0 <= t < |s| ==> uses[t] == RefCount(s, t)
  }

  /**
   * From (s0, u0) to (s, u) every use count moved exactly as the references
   * to its instruction did.
   */
  predicate UsesTrack(s0: seq<Inst>, u0: seq<int>, s: seq<Inst>, u: seq<int>)
  {
    |u0| == |s0| && |s| == |s0| && |u| == |s0| &&
    forall t :: 0 <= t < |s0| ==> u[t] == u0[t] - RefCount(s0, t) + RefCount(s, t)
  }

  /** Tracking use counts keeps them exact, and only exact counts stay exact. */
  lemma UsesTrackExact(s0: seq<Inst>, u0: seq<int>, s: seq<Inst>, u: seq<int>)
    requires UsesTrack(s0, u0, s, u)
    ensures UseCountsExact(s0, u0) <==> UseCountsExact(s, u)
  {
    if UseCountsExact(s, u) {
      forall t | 0 <= t < |s0|
        ensures u0[t] == RefCount(s0, t)
      {
        assert u[t] == RefCount(s, t);
      }
    }
  }

  lemma UsesTrackTrans(s0: seq<Inst>, u0: seq<int>, s1: seq<Inst>, u1: seq<int>, s2: seq<Inst>, u2: seq<int>)
    requires UsesTrack(s0, u0, s1, u1) && UsesTrack(s1, u1, s2, u2)
    ensures UsesTrack(s0, u0, s2, u2)
  {
  }

  // ---- counting lemmas ----

  lemma {:induction false} CountInUpdate(a: seq<Value>, i: nat, v: Value, t: nat)
    requires i < |a|
    ensures CountIn(a[i := v], t) ==
      CountIn(a, t) - (if a[i] == Ref(t) then 1 else 0) + (if v == Ref(t) then 1 else 0)
    decreases |a|
  {
    var b := a[i := v];
    if i < |a| - 1 {
      assert b[..|b| - 1] == a[..|a| - 1][i := v];
      CountInUpdate(a[..|a| - 1], i, v, t);
    } else {
      assert b[..|b| - 1] == a[..|a| - 1];
    }
  }

  lemma CountInSingle(v: Value, t: nat)
    ensures CountIn([v], t) == if v == Ref(t) then 1 else 0
  {
    assert [v][..0] == [];
  }

  lemma {:induction false} RefCountUpdate(s: seq<Inst>, k: nat, x: Inst, t: nat)
    requires k < |s|
    ensures RefCount(s[k := x], t) == RefCount(s, t) - CountIn(s[k].args, t) + CountIn(x.args, t)
    decreases |s|
  {
    var s2 := s[k := x];
    if k < |s| - 1 {
      assert s2[..|s2| - 1] == s[..|s| - 1][k := x];
      RefCountUpdate(s[..|s| - 1], k, x, t);
    } else {
      assert s2[..|s2| - 1] == s[..|s| - 1];
    }
  }

  // ---- bookkeeping operations, on the arena ----

  /** Every use count moved from the references in `from` to the references in `to`. */
  function MoveUses(uses: seq<int>, from: seq<Value>, to: seq<Value>): (r: seq<int>)
    ensures |r| == |uses|
  {
    seq(|uses|, j requires 0 <= j < |uses| => uses[j] - CountIn(from, j) + CountIn(to, j))
  }

  /** Replacing instruction k's argument list by vs moves the uses of the old list to the new. */
  lemma ReplaceArgsTracks(s: seq<Inst>, u: seq<int>, k: nat, vs: seq<Value>)
    requires k < |s| && |u| == |s|
    ensures UsesTrack(s, u, s[k := s[k].(args := vs)], MoveUses(u, s[k].args, vs))
  {
    forall t | 0 <= t < |s|
      ensures MoveUses(u, s[k].args, vs)[t] == u[t] - RefCount(s, t) + RefCount(s[k := s[k].(args := vs)], t)
    {
      RefCountUpdate(s, k, s[k].(args := vs), t);
    }
  }

  /** Inst::SetArg(i, v) on instruction k. */
  function SetArgInsts(s: seq<Inst>, k: nat, i: nat, v: Value): (r: seq<Inst>)
    requires k < |s| && i < |s[k].args|
  {
    s[k := s[k].(args := s[k].args[i := v])]
  }

  /** SetArg's bookkeeping: the old argument loses a use, v gains one. */
  lemma SetArgTracks(s: seq<Inst>, u: seq<int>, k: nat, i: nat, v: Value)
    requires k < |s| && i < |s[k].args| && |u| == |s|
    ensures UsesTrack(s, u, SetArgInsts(s, k, i, v), MoveUses(u, [s[k].args[i]], [v]))
  {
    var vs := s[k].args[i := v];
    ReplaceArgsTracks(s, u, k, vs);
    forall t | 0 <= t < |u|
      ensures MoveUses(u, [s[k].args[i]], [v])[t] == MoveUses(u, s[k].args, vs)[t]
    {
      CountInSingle(s[k].args[i], t);
      CountInSingle(v, t);
      CountInUpdate(s[k].args, i, v, t);
    }
  }

  lemma SetArgWellFormed(s: seq<Inst>, k: nat, i: nat, v: Value)
    requires k < |s| && i < |s[k].args|
    requires WellFormed(s) && (v.Ref? ==> v.index < |s|)
    ensures WellFormed(SetArgInsts(s, k, i, v))
  {
  }

  /** Inst::Invalidate on instruction k: its arguments are cleared and it is flagged. */
  function InvalidateInsts(s: seq<Inst>, k: nat): (r: seq<Inst>)
    requires k < |s|
  {
    s[k := Inst(s[k].op, [], true)]
  }

  /** Invalidate's bookkeeping: each cleared argument gives back its use. */
  lemma InvalidateTracks(s: seq<Inst>, u: seq<int>, k: nat)
    requires k < |s| && |u| == |s|
    ensures UsesTrack(s, u, InvalidateInsts(s, k), MoveUses(u, s[k].args, []))
  {
    forall t | 0 <= t < |s|
      ensures MoveUses(u, s[k].args, [])[t] == u[t] - RefCount(s, t) + RefCount(InvalidateInsts(s, k), t)
    {
      RefCountUpdate(s, k, Inst(s[k].op, [], true), t);
    }
  }

  /** Every reference to k in args becomes v. */
  function ReplaceIn(args: seq<Value>, k: nat, v: Value): (r: seq<Value>)
    ensures |r| == |args|
    ensures forall i {:trigger r[i]} :: 0 <= i < |args| ==> r[i] == if args[i] == Ref(k) then v else args[i]
  {
    if args == [] then []
    else ReplaceIn(args[..|args| - 1], k, v) + [if args[|args| - 1] == Ref(k) then v else args[|args| - 1]]
  }

  lemma {:induction false} CountInReplace(a: seq<Value>, k: nat, v: Value, t: nat)
    ensures CountIn(ReplaceIn(a, k, v), t) ==
      CountIn(a, t) - (if t == k then CountIn(a, k) else 0) + (if v == Ref(t) then CountIn(a, k) else 0)
    decreases |a|
  {
    if a != [] {
      assert ReplaceIn(a, k, v)[..|a| - 1] == ReplaceIn(a[..|a| - 1], k, v);
      CountInReplace(a[..|a| - 1], k, v, t);
    }
  }

  /** The first n instructions of s with every reference to k rewritten to v. */
  function MapReplace(s: seq<Inst>, n: nat, k: nat, v: Value): (r: seq<Inst>)
    requires n <= |s|
    ensures |r| == n
    ensures forall j {:trigger r[j]} :: 0 <= j < n ==>
      r[j].op == s[j].op && r[j].invalidated == s[j].invalidated && r[j].args == ReplaceIn(s[j].args, k, v)
  {
    if n == 0 then [] else MapReplace(s, n - 1, k, v) + [s[n - 1].(args := ReplaceIn(s[n - 1].args, k, v))]
  }

  /** Inst::ReplaceUsesWith(v) on instruction k: every argument of the block that refers to k becomes v. */
  function ReplaceUsesInsts(s: seq<Inst>, k: nat, v: Value): (r: seq<Inst>)
    requires k < |s|
  {
    MapReplace(s, |s|, k, v)
  }

  /** ReplaceUsesWith's bookkeeping: all of k's uses move to v's target. */
  function ReplaceUsesCounts(s: seq<Inst>, u: seq<int>, k: nat, v: Value): (r: seq<int>)
    requires k < |s|
    ensures |r| == |u|
  {
    var moved := RefCount(s, k);
    var lost := if k < |u| then u[k := u[k] - moved] else u;
    if v.Ref? && v.index < |lost| then lost[v.index := lost[v.index] + moved] else lost
  }

  lemma RefCountSnoc(a: seq<Inst>, x: Inst, t: nat)
    ensures RefCount(a + [x], t) == RefCount(a, t) + CountIn(x.args, t)
  {
    assert (a + [x])[..|a|] == a;
  }

  lemma RefCountTake(s: seq<Inst>, n: nat, t: nat)
    requires 0 < n <= |s|
    ensures RefCount(s[..n], t) == RefCount(s[..n - 1], t) + CountIn(s[n - 1].args, t)
  {
    assert s[..n] == s[..n - 1] + [s[n - 1]];
    RefCountSnoc(s[..n - 1], s[n - 1], t);
  }

  lemma {:induction false} RefCountReplacePrefix(s: seq<Inst>, n: nat, k: nat, v: Value, t: nat)
    requires n <= |s|
    ensures RefCount(MapReplace(s, n, k, v), t) ==
      RefCount(s[..n], t) - (if t == k then RefCount(s[..n], k) else 0) + (if v == Ref(t) then RefCount(s[..n], k) else 0)
  {
    if n > 0 {
      RefCountReplacePrefix(s, n - 1, k, v, t);
      var x := s[n - 1].(args := ReplaceIn(s[n - 1].args, k, v));
      RefCountSnoc(MapReplace(s, n - 1, k, v), x, t);
      RefCountTake(s, n, t);
      RefCountTake(s, n, k);
      CountInReplace(s[n - 1].args, k, v, t);
    }
  }

  lemma ReplaceUsesTracks(s: seq<Inst>, u: seq<int>, k: nat, v: Value)
    requires k < |s| && |u| == |s|
    ensures UsesTrack(s, u, ReplaceUsesInsts(s, k, v), ReplaceUsesCounts(s, u, k, v))
  {
    assert s[..|s|] == s;
    forall t | 0 <= t < |s|
      ensures ReplaceUsesCounts(s, u, k, v)[t] == u[t] - RefCount(s, t) + RefCount(ReplaceUsesInsts(s, k, v), t)
    {
      var moved := RefCount(s, k);
      assert ReplaceUsesCounts(s, u, k, v)[t] ==
        u[t] - (if t == k then moved else 0) + (if v == Ref(t) then moved else 0);
      RefCountReplacePrefix(s, |s|, k, v, t);
    }
  }

  /** IR::Block: the arena and its use counts, the terminal, the cycle count and the locations. */
  class Block {
    var insts: seq<Inst>
    var useCounts: seq<int>
    var terminal: Terminal
    var cycleCount: nat
    var location: u64
    var endLocation: u64

    /** One use count per instruction. */
    predicate Valid()
      reads this
    {
      |useCounts| == |insts|
    }

    constructor(location: u64)
      ensures Valid()
      ensures insts == [] && useCounts == [] && terminal == Invalid && cycleCount == 0
      ensures this.location == location && endLocation == location
    {
      insts := [];
      useCounts := [];
      terminal := Invalid;
      cycleCount := 0;
      this.location := location;
      endLocation := location;
    }

    predicate HasTerminal()
      reads this
    {
      terminal != Invalid
    }

    method SetArg(k: nat, i: nat, v: Value)
      requires Valid() && k < |insts| && i < |insts[k].args|
      modifies this
      ensures Valid()
      ensures insts == SetArgInsts(old(insts), k, i, v)
      ensures useCounts == MoveUses(old(useCounts), [old(insts)[k].args[i]], [v])
      ensures terminal == old(terminal) && cycleCount == old(cycleCount)
      ensures location == old(location) && endLocation == old(endLocation)
    {
      useCounts := MoveUses(useCounts, [insts[k].args[i]], [v]);
      insts := SetArgInsts(insts, k, i, v);
    }

    method Invalidate(k: nat)
      requires Valid() && k < |insts|
      modifies this
      ensures Valid()
      ensures insts == InvalidateInsts(old(insts), k)
      ensures useCounts == MoveUses(old(useCounts), old(insts)[k].args, [])
      ensures terminal == old(terminal) && cycleCount == old(cycleCount)
      ensures location == old(location) && endLocation == old(endLocation)
    {
      useCounts := MoveUses(useCounts, insts[k].args, []);
      insts := InvalidateInsts(insts, k);
    }

    method ReplaceUsesWith(k: nat, v: Value)
      requires Valid() && k < |insts|
      modifies this
      ensures Valid()
      ensures insts == ReplaceUsesInsts(old(insts), k, v)
      ensures useCounts == ReplaceUsesCounts(old(insts), old(useCounts), k, v)
      ensures terminal == old(terminal) && cycleCount == old(cycleCount)
      ensures location == old(location) && endLocation == old(endLocation)
    {
      useCounts := ReplaceUsesCounts(insts, useCounts, k, v);
      insts := ReplaceUsesInsts(insts, k, v);
    }
  }
}

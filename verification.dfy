/**
 * The verification pass: a read-only check that every argument's type is
 * compatible with the type its opcode expects there, and that every use
 * count equals the number of arguments in the block referring to it.
 * A failed ASSERT aborts; here it is the result `ok == false`.
 */
module Verification {
  import opened IRType
  import opened Opcodes
  import opened IR

  /** Capacity of the actual_uses array. */
  const MaxInstructions: nat := 128

  /** Every opcode has a table entry and every argument an expected type. */
  predicate OpsInTable(s: seq<Inst>)
  {
    forall k :: 0 <= k < |s| ==> s[k].op < TableSize && |s[k].args| <= MaxArgs
  }

  /** Value::GetType: an immediate's own type, or the result type of the referenced opcode. */
  function ArgType(s: seq<Inst>, a: Value): Type
    requires a.Ref? ==> a.index < |s| && s[a.index].op < TableSize
  {
    if a.Imm? then a.ty else GetTypeOf(s[a.index].op)
  }

  predicate ArgTypeOk(s: seq<Inst>, compatible: (Type, Type) -> bool, k: nat, i: nat)
    requires WellFormed(s) && OpsInTable(s) && k < |s| && i < |s[k].args|
  {
    assert ArgsInRange(s[k].args, |s|);
    compatible(ArgType(s, s[k].args[i]), GetArgTypeOf(s[k].op, i))
  }

  /** The first loop's condition: every argument has a type compatible with its slot. */
  predicate TypesOk(s: seq<Inst>, compatible: (Type, Type) -> bool)
    requires WellFormed(s) && OpsInTable(s)
  {
    forall k, i :: 0 <= k < |s| && 0 <= i < |s[k].args| ==> ArgTypeOk(s, compatible, k, i)
  }

  /** The first loop: stop at the first incompatible argument. */
  method CheckTypes(block: Block, compatible: (Type, Type) -> bool) returns (ok: bool)
    requires WellFormed(block.insts) && OpsInTable(block.insts)
    ensures ok <==> TypesOk(block.insts, compatible)
  {
    var s := block.insts;
    for k := 0 to |s|
      invariant forall k', i :: 0 <= k' < k && 0 <= i < |s[k'].args| ==> ArgTypeOk(s, compatible, k', i)
    {
      for i := 0 to |s[k].args|
        invariant forall i' :: 0 <= i' < i ==> ArgTypeOk(s, compatible, k, i')
      {
        assert ArgsInRange(s[k].args, |s|);
        var t1 := ArgType(s, s[k].args[i]);
        var t2 := GetArgTypeOf(s[k].op, i);
        if !compatible(t1, t2) {
          assert !ArgTypeOk(s, compatible, k, i);
          return false;
        }
      }
    }
    return true;
  }

  /** The second loop: count, per instruction, the non-immediate arguments that refer to it. */
  method CountUses(block: Block) returns (actualUses: array<nat>)
    requires WellFormed(block.insts) && |block.insts| <= MaxInstructions
    ensures actualUses.Length == MaxInstructions
    ensures forall t :: 0 <= t < MaxInstructions ==> actualUses[t] == RefCount(block.insts, t)
  {
    var s := block.insts;
    actualUses := new nat[MaxInstructions](_ => 0);
    for k := 0 to |s|
      invariant forall t :: 0 <= t < MaxInstructions ==> actualUses[t] == RefCount(s[..k], t)
    {
      var args := s[k].args;
      assert ArgsInRange(args, |s|);
      for i := 0 to |args|
        invariant forall t :: 0 <= t < MaxInstructions ==>
          actualUses[t] == RefCount(s[..k], t) + CountIn(args[..i], t)
      {
        assert args[..i + 1][..i] == args[..i];
        if !args[i].IsImmediate() {
          actualUses[args[i].index] := actualUses[args[i].index] + 1;
        }
      }
      assert args[..|args|] == args;
      assert s[..k + 1][..k] == s[..k];
    }
    assert s[..|s|] == s;
  }

  method VerificationPass(block: Block, compatible: (Type, Type) -> bool) returns (ok: bool)
    requires block.Valid() && WellFormed(block.insts) && OpsInTable(block.insts)
    requires |block.insts| <= MaxInstructions
    ensures ok <==> TypesOk(block.insts, compatible) && UseCountsExact(block.insts, block.useCounts)
  {
    ok := CheckTypes(block, compatible);
    if !ok {
      return;
    }
    var actualUses := CountUses(block);
    for k := 0 to |block.insts|
      invariant forall k' :: 0 <= k' < k ==> block.useCounts[k'] == RefCount(block.insts, k')
    {
      if block.useCounts[k] != actualUses[k] {
        return false;
      }
    }
    return true;
  }

  /** Immediate arguments are not counted: replacing one immediate by another changes no reference count. */
  lemma ImmediatesUncounted(s: seq<Inst>, k: nat, i: nat, v: Value, t: nat)
    requires k < |s| && i < |s[k].args| && s[k].args[i].Imm? && v.Imm?
    ensures RefCount(SetArgInsts(s, k, i, v), t) == RefCount(s, t)
  {
    RefCountUpdate(s, k, SetArgInsts(s, k, i, v)[k], t);
    CountInUpdate(s[k].args, i, v, t);
  }
}

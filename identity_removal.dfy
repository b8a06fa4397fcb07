/**
 * The identity-removal pass: every argument that refers to an Identity
 * instruction is bypassed to that Identity's own argument 0, instruction by
 * instruction in block order, and afterwards every Identity and Void
 * instruction is invalidated.
 */
module IdentityRemoval {
  import opened Opcodes
  import opened IR

  /** Capacity of the to_invalidate buffer. */
  const MaxInstructions: nat := 128

  /** Every Identity instruction has the argument 0 that bypassing reads. */
  predicate IdentitiesHaveArg(s: seq<Inst>, identity: Opcode)
  {
    forall j :: 0 <= j < |s| ==> (s[j].op == identity ==> |s[j].args| >= 1)
  }

  /** Value::IsIdentity: a reference to an Identity instruction. */
  predicate IsIdentityRef(s: seq<Inst>, identity: Opcode, a: Value)
  {
    a.Ref? && a.index < |s| && s[a.index].op == identity
  }

  /** Every reference points to an earlier instruction, as in a block built in order. */
  predicate RefsBackward(s: seq<Inst>)
  {
    forall k, i :: 0 <= k < |s| && 0 <= i < |s[k].args| ==>
      (s[k].args[i].Ref? ==> s[k].args[i].index < k)
  }

  /** One hop: an Identity reference becomes the Identity's argument 0, anything else stays. */
  function Resolve(s: seq<Inst>, identity: Opcode, a: Value): Value
    requires IdentitiesHaveArg(s, identity)
  {
    if IsIdentityRef(s, identity, a) then s[a.index].args[0] else a
  }

  /** The local `args` array the pass fills for instruction k. */
  function ResolvedArgs(s: seq<Inst>, identity: Opcode, k: nat): (r: seq<Value>)
    requires k < |s| && IdentitiesHaveArg(s, identity)
    ensures |r| == |s[k].args|
    ensures forall i {:trigger r[i]} :: 0 <= i < |r| ==> r[i] == Resolve(s, identity, s[k].args[i])
  {
    seq(|s[k].args|, i requires 0 <= i < |s[k].args| => Resolve(s, identity, s[k].args[i]))
  }

  lemma ResolvedArgsInRange(s: seq<Inst>, identity: Opcode, k: nat)
    requires k < |s| && IdentitiesHaveArg(s, identity) && WellFormed(s)
    ensures ArgsInRange(ResolvedArgs(s, identity, k), |s|)
  {
    forall i | 0 <= i < |s[k].args|
      ensures ResolvedArgs(s, identity, k)[i].Ref? ==> ResolvedArgs(s, identity, k)[i].index < |s|
    {
      var a := s[k].args[i];
      if IsIdentityRef(s, identity, a) {
        assert ArgsInRange(s[a.index].args, |s|);
      }
    }
  }

  /** Processing instruction k: its arguments become ResolvedArgs, the rest of the block stays. */
  function RewriteStep(s: seq<Inst>, identity: Opcode, k: nat): (r: seq<Inst>)
    requires k < |s| && IdentitiesHaveArg(s, identity)
    ensures IdentitiesHaveArg(r, identity)
  {
    s[k := s[k].(args := ResolvedArgs(s, identity, k))]
  }

  /** The block after the first n instructions have been processed. */
  function RewritePrefix(s0: seq<Inst>, identity: Opcode, n: nat): (r: seq<Inst>)
    requires n <= |s0| && IdentitiesHaveArg(s0, identity)
    ensures |r| == |s0|
    ensures forall j {:trigger r[j]} :: 0 <= j < |s0| ==>
      r[j].op == s0[j].op && r[j].invalidated == s0[j].invalidated && |r[j].args| == |s0[j].args|
    ensures forall j {:trigger r[j]} :: n <= j < |s0| ==> r[j].args == s0[j].args
    ensures IdentitiesHaveArg(r, identity)
  {
    if n == 0 then s0 else RewriteStep(RewritePrefix(s0, identity, n - 1), identity, n - 1)
  }

  lemma {:induction false} RewritePrefixWellFormed(s0: seq<Inst>, identity: Opcode, n: nat)
    requires n <= |s0| && IdentitiesHaveArg(s0, identity) && WellFormed(s0)
    ensures WellFormed(RewritePrefix(s0, identity, n))
  {
    if n > 0 {
      RewritePrefixWellFormed(s0, identity, n - 1);
      ResolvedArgsInRange(RewritePrefix(s0, identity, n - 1), identity, n - 1);
    }
  }

  /** Once instruction j has been processed its arguments stay as that step left them. */
  lemma {:induction false} RewritePrefixSettled(s0: seq<Inst>, identity: Opcode, j: nat, n: nat)
    requires j < n <= |s0| && IdentitiesHaveArg(s0, identity)
    ensures RewritePrefix(s0, identity, n)[j].args ==
      ResolvedArgs(RewritePrefix(s0, identity, j), identity, j)
  {
    if n > j + 1 {
      RewritePrefixSettled(s0, identity, j, n - 1);
    }
  }

  /**
   * With backward references, block order resolves chains: after n steps no
   * argument of the first n instructions refers to an Identity.
   */
  lemma {:induction false} RewritePrefixClosed(s0: seq<Inst>, identity: Opcode, n: nat)
    requires n <= |s0| && IdentitiesHaveArg(s0, identity) && RefsBackward(s0)
    ensures forall j, i :: 0 <= j < n && 0 <= i < |RewritePrefix(s0, identity, n)[j].args| ==>
      !IsIdentityRef(RewritePrefix(s0, identity, n), identity, RewritePrefix(s0, identity, n)[j].args[i])
  {
    if n > 0 {
      var p := RewritePrefix(s0, identity, n - 1);
      var r := RewritePrefix(s0, identity, n);
      RewritePrefixClosed(s0, identity, n - 1);
      forall j, i | 0 <= j < n && 0 <= i < |r[j].args|
        ensures !IsIdentityRef(r, identity, r[j].args[i])
      {
        if j < n - 1 {
          assert r[j] == p[j];
          assert !IsIdentityRef(p, identity, p[j].args[i]);
        } else {
          var a := s0[n - 1].args[i];
          assert p[n - 1].args[i] == a;
          if IsIdentityRef(p, identity, a) {
            assert a.index < n - 1;
            assert !IsIdentityRef(p, identity, p[a.index].args[0]);
          }
        }
      }
    }
  }

  /** to_invalidate after the first n instructions: the Identity and Void positions, ascending. */
  function ToInvalidate(s: seq<Inst>, identity: Opcode, void: Opcode, n: nat): (r: seq<nat>)
    requires n <= |s|
    ensures forall i :: 0 <= i < |r| ==> r[i] < n
    ensures |r| <= n
  {
    if n == 0 then []
    else ToInvalidate(s, identity, void, n - 1) + (if s[n - 1].op == identity || s[n - 1].op == void then [n - 1] else [])
  }

  lemma {:induction false} ToInvalidateMonotone(s: seq<Inst>, identity: Opcode, void: Opcode, n: nat, m: nat)
    requires n <= m <= |s|
    ensures |ToInvalidate(s, identity, void, n)| <= |ToInvalidate(s, identity, void, m)|
    decreases m - n
  {
    if n < m {
      ToInvalidateMonotone(s, identity, void, n, m - 1);
    }
  }

  lemma {:induction false} ToInvalidateMembers(s: seq<Inst>, identity: Opcode, void: Opcode, n: nat, j: nat)
    requires j < n <= |s|
    ensures j in ToInvalidate(s, identity, void, n) <==> s[j].op == identity || s[j].op == void
  {
    if j < n - 1 {
      ToInvalidateMembers(s, identity, void, n - 1, j);
    }
  }

  /** The state after Invalidate() on ks[0] .. ks[n - 1]. */
  function InvalidateAll(s: seq<Inst>, ks: seq<nat>, n: nat): (r: seq<Inst>)
    requires n <= |ks| && forall i :: 0 <= i < |ks| ==> ks[i] < |s|
    ensures |r| == |s|
    ensures forall j {:trigger r[j]} :: 0 <= j < |s| ==> r[j].op == s[j].op
    ensures forall j {:trigger r[j]} :: 0 <= j < |s| && j in ks[..n] ==> r[j].args == [] && r[j].invalidated
    ensures forall j {:trigger r[j]} :: 0 <= j < |s| && j !in ks[..n] ==> r[j] == s[j]
  {
    if n == 0 then s
    else
      assert ks[..n] == ks[..n - 1] + [ks[n - 1]];
      InvalidateInsts(InvalidateAll(s, ks, n - 1), ks[n - 1])
  }

  /** What IdentityRemovalPass leaves: all rewriting first, then all invalidation. */
  function IdentityRemoval(s0: seq<Inst>, identity: Opcode, void: Opcode): seq<Inst>
    requires IdentitiesHaveArg(s0, identity)
  {
    var ks := ToInvalidate(s0, identity, void, |s0|);
    InvalidateAll(RewritePrefix(s0, identity, |s0|), ks, |ks|)
  }

  /** Exactly the Identity and Void instructions end up invalidated, with no arguments left. */
  lemma IdentityRemovalInvalidates(s0: seq<Inst>, identity: Opcode, void: Opcode, k: nat)
    requires IdentitiesHaveArg(s0, identity) && k < |s0|
    ensures |IdentityRemoval(s0, identity, void)| == |s0|
    ensures IdentityRemoval(s0, identity, void)[k].op == s0[k].op
    ensures s0[k].op == identity || s0[k].op == void ==>
      IdentityRemoval(s0, identity, void)[k].args == [] && IdentityRemoval(s0, identity, void)[k].invalidated
    ensures !(s0[k].op == identity || s0[k].op == void) ==>
      IdentityRemoval(s0, identity, void)[k].invalidated == s0[k].invalidated
  {
    var ks := ToInvalidate(s0, identity, void, |s0|);
    ToInvalidateMembers(s0, identity, void, |s0|, k);
    assert ks[..|ks|] == ks;
  }

  /**
   * Every other instruction keeps its argument count, and each argument is
   * bypassed exactly one hop, against the block as it stood at that
   * instruction's turn: an Identity reference becomes that Identity's
   * (already processed) argument 0; anything else, immediates included, stays.
   */
  lemma IdentityRemovalBypasses(s0: seq<Inst>, identity: Opcode, void: Opcode, k: nat, i: nat)
    requires IdentitiesHaveArg(s0, identity) && k < |s0|
    requires !(s0[k].op == identity || s0[k].op == void)
    requires i < |s0[k].args|
    ensures |IdentityRemoval(s0, identity, void)[k].args| == |s0[k].args|
    ensures !IsIdentityRef(s0, identity, s0[k].args[i]) ==>
      IdentityRemoval(s0, identity, void)[k].args[i] == s0[k].args[i]
    ensures IsIdentityRef(s0, identity, s0[k].args[i]) ==>
      IdentityRemoval(s0, identity, void)[k].args[i] ==
        RewritePrefix(s0, identity, k)[s0[k].args[i].index].args[0]
  {
    var ks := ToInvalidate(s0, identity, void, |s0|);
    ToInvalidateMembers(s0, identity, void, |s0|, k);
    assert ks[..|ks|] == ks;
    RewritePrefixSettled(s0, identity, k, |s0|);
    var p := RewritePrefix(s0, identity, k);
    assert p[k].args == s0[k].args;
    assert IsIdentityRef(p, identity, s0[k].args[i]) == IsIdentityRef(s0, identity, s0[k].args[i]);
  }

  /** With backward references, no argument left in the block refers to an Identity. */
  lemma IdentityRemovalClosed(s0: seq<Inst>, identity: Opcode, void: Opcode)
    requires IdentitiesHaveArg(s0, identity) && RefsBackward(s0)
    ensures forall k, i :: 0 <= k < |s0| && 0 <= i < |IdentityRemoval(s0, identity, void)[k].args| ==>
      !IsIdentityRef(IdentityRemoval(s0, identity, void), identity, IdentityRemoval(s0, identity, void)[k].args[i])
  {
    var r := IdentityRemoval(s0, identity, void);
    var p := RewritePrefix(s0, identity, |s0|);
    var ks := ToInvalidate(s0, identity, void, |s0|);
    RewritePrefixClosed(s0, identity, |s0|);
    assert ks[..|ks|] == ks;
    forall k, i | 0 <= k < |s0| && 0 <= i < |r[k].args|
      ensures !IsIdentityRef(r, identity, r[k].args[i])
    {
      assert k !in ks;
      assert r[k] == p[k];
      assert !IsIdentityRef(p, identity, p[k].args[i]);
    }
  }

  /** References into the block stay references into the block. */
  lemma IdentityRemovalWellFormed(s0: seq<Inst>, identity: Opcode, void: Opcode)
    requires IdentitiesHaveArg(s0, identity) && WellFormed(s0)
    ensures WellFormed(IdentityRemoval(s0, identity, void))
  {
    var r := IdentityRemoval(s0, identity, void);
    var p := RewritePrefix(s0, identity, |s0|);
    var ks := ToInvalidate(s0, identity, void, |s0|);
    RewritePrefixWellFormed(s0, identity, |s0|);
    assert ks[..|ks|] == ks;
    forall k | 0 <= k < |r|
      ensures ArgsInRange(r[k].args, |r|)
    {
      if k !in ks {
        assert r[k] == p[k];
        assert ArgsInRange(p[k].args, |p|);
      }
    }
  }

  // ---- the pass ----

  /** The first inner loop: copy instruction k's arguments into `args`, bypassing Identity references. */
  method CollectArgs(block: Block, identity: Opcode, k: nat) returns (args: array<Value>, argsCount: nat)
    requires k < |block.insts| && IdentitiesHaveArg(block.insts, identity)
    requires |block.insts[k].args| <= MaxArgs
    ensures fresh(args) && args.Length == MaxArgs
    ensures argsCount == |block.insts[k].args|
    ensures args[..argsCount] == ResolvedArgs(block.insts, identity, k)
  {
    args := new Value[MaxArgs](_ => Imm(0, 0));
    argsCount := 0;
    var numArgs := |block.insts[k].args|;
    for i := 0 to numArgs
      invariant argsCount == i
      invariant args[..i] == ResolvedArgs(block.insts, identity, k)[..i]
    {
      args[argsCount] := block.insts[k].args[i];
      argsCount := argsCount + 1;
      if IsIdentityRef(block.insts, identity, args[argsCount - 1]) {
        args[argsCount - 1] := block.insts[args[argsCount - 1].index].args[0];
      }
    }
  }

  /** The second inner loop: SetArg(i, args[i]) for every argument of instruction k. */
  /** Writing argument i of an instruction whose arguments are c. */
  lemma SetArgOfReplaced(s0: seq<Inst>, k: nat, c: seq<Value>, i: nat, v: Value)
    requires k < |s0| && i < |c|
    ensures SetArgInsts(s0[k := s0[k].(args := c)], k, i, v) == s0[k := s0[k].(args := c[i := v])]
  {
  }

  /** The first i + 1 of vs over the rest of ws, as one more write onto the first i. */
  lemma OverwriteStep(vs: seq<Value>, ws: seq<Value>, i: nat)
    requires |vs| == |ws| && i < |vs|
    ensures (vs[..i] + ws[i..])[i := vs[i]] == vs[..i + 1] + ws[i + 1..]
  {
  }

  method WriteArgs(block: Block, k: nat, args: array<Value>, argsCount: nat)
    requires block.Valid() && k < |block.insts| && argsCount == |block.insts[k].args| <= args.Length
    modifies block
    ensures block.Valid()
    ensures block.insts == old(block.insts)[k := old(block.insts)[k].(args := args[..argsCount])]
    ensures UsesTrack(old(block.insts), old(block.useCounts), block.insts, block.useCounts)
    ensures block.terminal == old(block.terminal) && block.cycleCount == old(block.cycleCount)
    ensures block.location == old(block.location) && block.endLocation == old(block.endLocation)
  {
    ghost var s0 := block.insts;
    ghost var u0 := block.useCounts;
    ghost var vs := args[..argsCount];
    ghost var cur := s0[k].args;
    assert vs[..0] + s0[k].args[0..] == cur;
    assert s0[k := s0[k].(args := cur)] == s0;
    for i := 0 to argsCount
      invariant block.Valid()
      invariant cur == vs[..i] + s0[k].args[i..]
      invariant block.insts == s0[k := s0[k].(args := cur)]
      invariant UsesTrack(s0, u0, block.insts, block.useCounts)
      invariant block.terminal == old(block.terminal) && block.cycleCount == old(block.cycleCount)
      invariant block.location == old(block.location) && block.endLocation == old(block.endLocation)
    {
      ghost var s1 := block.insts;
      ghost var u1 := block.useCounts;
      SetArgTracks(s1, u1, k, i, args[i]);
      SetArgOfReplaced(s0, k, cur, i, args[i]);
      block.SetArg(k, i, args[i]);
      UsesTrackTrans(s0, u0, s1, u1, block.insts, block.useCounts);
      OverwriteStep(vs, s0[k].args, i);
      cur := cur[i := vs[i]];
    }
    assert vs[..argsCount] + s0[k].args[argsCount..] == vs;
  }

  /** One iteration of the outer loop's rewriting: both inner loops on instruction k. */
  method RewriteInstruction(block: Block, identity: Opcode, k: nat)
    requires block.Valid() && k < |block.insts| && IdentitiesHaveArg(block.insts, identity)
    requires |block.insts[k].args| <= MaxArgs
    modifies block
    ensures block.Valid()
    ensures block.insts == RewriteStep(old(block.insts), identity, k)
    ensures UsesTrack(old(block.insts), old(block.useCounts), block.insts, block.useCounts)
    ensures block.terminal == old(block.terminal) && block.cycleCount == old(block.cycleCount)
    ensures block.location == old(block.location) && block.endLocation == old(block.endLocation)
  {
    var args, argsCount := CollectArgs(block, identity, k);
    WriteArgs(block, k, args, argsCount);
  }

  /**
   * The first outer loop: rewrite every instruction in block order, recording
   * the positions of the Identity and Void instructions in toInvalidate.
   */
  lemma RewritePrefixNext(s0: seq<Inst>, identity: Opcode, k: nat)
    requires k < |s0| && IdentitiesHaveArg(s0, identity)
    ensures RewritePrefix(s0, identity, k + 1) == RewriteStep(RewritePrefix(s0, identity, k), identity, k)
  {
  }

  lemma ToInvalidateNext(s: seq<Inst>, identity: Opcode, void: Opcode, k: nat)
    requires k < |s|
    ensures ToInvalidate(s, identity, void, k + 1) ==
      ToInvalidate(s, identity, void, k) + (if s[k].op == identity || s[k].op == void then [k] else [])
  {
  }

  /** One iteration of the first loop: rewrite instruction k, then list it if it is an Identity or a Void. */
  method RewriteAndRecord(block: Block, identity: Opcode, void: Opcode, toInvalidate: array<nat>,
                          count: nat, k: nat, ghost listed: seq<nat>)
      returns (count': nat, ghost listed': seq<nat>)
    requires block.Valid() && k < |block.insts| && IdentitiesHaveArg(block.insts, identity)
    requires |block.insts[k].args| <= MaxArgs
    requires count == |listed| <= toInvalidate.Length
    requires forall i :: 0 <= i < |listed| ==> toInvalidate[i] == listed[i]
    requires block.insts[k].op == identity || block.insts[k].op == void ==> count < toInvalidate.Length
    modifies block, toInvalidate
    ensures block.Valid()
    ensures block.insts == RewriteStep(old(block.insts), identity, k)
    ensures UsesTrack(old(block.insts), old(block.useCounts), block.insts, block.useCounts)
    ensures listed' == listed + (if old(block.insts)[k].op == identity || old(block.insts)[k].op == void then [k] else [])
    ensures count' == |listed'| <= toInvalidate.Length
    ensures forall i :: 0 <= i < |listed'| ==> toInvalidate[i] == listed'[i]
    ensures block.terminal == old(block.terminal) && block.cycleCount == old(block.cycleCount)
    ensures block.location == old(block.location) && block.endLocation == old(block.endLocation)
  {
    RewriteInstruction(block, identity, k);
    count', listed' := count, listed;
    if block.insts[k].op == identity || block.insts[k].op == void {
      toInvalidate[count] := k;
      count' := count + 1;
      listed' := listed + [k];
    }
  }

  method RewriteAll(block: Block, identity: Opcode, void: Opcode, toInvalidate: array<nat>)
      returns (toInvalidateCount: nat)
    requires block.Valid() && IdentitiesHaveArg(block.insts, identity)
    requires forall k :: 0 <= k < |block.insts| ==> |block.insts[k].args| <= MaxArgs
    requires |ToInvalidate(block.insts, identity, void, |block.insts|)| <= toInvalidate.Length
    modifies block, toInvalidate
    ensures block.Valid()
    ensures block.insts == RewritePrefix(old(block.insts), identity, |old(block.insts)|)
    ensures UsesTrack(old(block.insts), old(block.useCounts), block.insts, block.useCounts)
    ensures toInvalidateCount <= toInvalidate.Length
    ensures toInvalidate[..toInvalidateCount] == ToInvalidate(old(block.insts), identity, void, |old(block.insts)|)
    ensures block.terminal == old(block.terminal) && block.cycleCount == old(block.cycleCount)
    ensures block.location == old(block.location) && block.endLocation == old(block.endLocation)
  {
    ghost var s0 := block.insts;
    ghost var u0 := block.useCounts;
    ghost var listed: seq<nat> := [];
    toInvalidateCount := 0;
    for k := 0 to |block.insts|
      invariant block.Valid()
      invariant block.insts == RewritePrefix(s0, identity, k)
      invariant UsesTrack(s0, u0, block.insts, block.useCounts)
      invariant listed == ToInvalidate(s0, identity, void, k)
      invariant toInvalidateCount == |listed| <= toInvalidate.Length
      invariant forall i :: 0 <= i < |listed| ==> toInvalidate[i] == listed[i]
      invariant block.terminal == old(block.terminal) && block.cycleCount == old(block.cycleCount)
      invariant block.location == old(block.location) && block.endLocation == old(block.endLocation)
    {
      ghost var s1 := block.insts;
      ghost var u1 := block.useCounts;
      ToInvalidateNext(s0, identity, void, k);
      ToInvalidateMonotone(s0, identity, void, k + 1, |s0|);
      assert s1[k].op == s0[k].op;
      toInvalidateCount, listed := RewriteAndRecord(block, identity, void, toInvalidate, toInvalidateCount, k, listed);
      UsesTrackTrans(s0, u0, s1, u1, block.insts, block.useCounts);
      RewritePrefixNext(s0, identity, k);
    }
    assert toInvalidate[..toInvalidateCount] == listed;
  }

  /** The final loop: Invalidate() on every index recorded in to_invalidate. */
  lemma InvalidateAllNext(s: seq<Inst>, ks: seq<nat>, n: nat)
    requires n < |ks| && forall i :: 0 <= i < |ks| ==> ks[i] < |s|
    ensures InvalidateAll(s, ks, n + 1) == InvalidateInsts(InvalidateAll(s, ks, n), ks[n])
  {
  }

  method InvalidateListed(block: Block, toInvalidate: array<nat>, count: nat)
    requires block.Valid() && count <= toInvalidate.Length
    requires forall i :: 0 <= i < count ==> toInvalidate[i] < |block.insts|
    modifies block
    ensures block.Valid()
    ensures block.insts == InvalidateAll(old(block.insts), toInvalidate[..count], count)
    ensures UsesTrack(old(block.insts), old(block.useCounts), block.insts, block.useCounts)
    ensures block.terminal == old(block.terminal) && block.cycleCount == old(block.cycleCount)
    ensures block.location == old(block.location) && block.endLocation == old(block.endLocation)
  {
    ghost var s0 := block.insts;
    ghost var u0 := block.useCounts;
    ghost var ks := toInvalidate[..count];
    for i := 0 to count
      invariant block.Valid()
      invariant block.insts == InvalidateAll(s0, ks, i)
      invariant UsesTrack(s0, u0, block.insts, block.useCounts)
      invariant block.terminal == old(block.terminal) && block.cycleCount == old(block.cycleCount)
      invariant block.location == old(block.location) && block.endLocation == old(block.endLocation)
    {
      ghost var s1 := block.insts;
      ghost var u1 := block.useCounts;
      InvalidateTracks(s1, u1, toInvalidate[i]);
      block.Invalidate(toInvalidate[i]);
      UsesTrackTrans(s0, u0, s1, u1, block.insts, block.useCounts);
      InvalidateAllNext(s0, ks, i);
    }
  }

  /**
   * IdentityRemovalPass: the block becomes IdentityRemoval of what it was,
   * with every use count moved exactly as the references did, so exact use
   * counts stay exact.
   */
  method IdentityRemovalPass(block: Block, identity: Opcode, void: Opcode)
    requires block.Valid() && IdentitiesHaveArg(block.insts, identity)
    requires forall k :: 0 <= k < |block.insts| ==> |block.insts[k].args| <= MaxArgs
    requires |ToInvalidate(block.insts, identity, void, |block.insts|)| <= MaxInstructions
    modifies block
    ensures block.Valid()
    ensures block.insts == IdentityRemoval(old(block.insts), identity, void)
    ensures UsesTrack(old(block.insts), old(block.useCounts), block.insts, block.useCounts)
    ensures UseCountsExact(old(block.insts), old(block.useCounts)) ==> UseCountsExact(block.insts, block.useCounts)
    ensures block.terminal == old(block.terminal) && block.cycleCount == old(block.cycleCount)
    ensures block.location == old(block.location) && block.endLocation == old(block.endLocation)
  {
    ghost var s0 := block.insts;
    ghost var u0 := block.useCounts;
    var toInvalidate := new nat[MaxInstructions];
    var toInvalidateCount := RewriteAll(block, identity, void, toInvalidate);
    ghost var s1 := block.insts;
    ghost var u1 := block.useCounts;
    InvalidateListed(block, toInvalidate, toInvalidateCount);
    UsesTrackTrans(s0, u0, s1, u1, block.insts, block.useCounts);
    UsesTrackExact(s0, u0, block.insts, block.useCounts);
  }
}

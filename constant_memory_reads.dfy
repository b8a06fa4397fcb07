/**
 * Folding of A32 memory reads from read-only memory: a direct-mapped cache of
 * 1024 slots, indexed by the address modulo 1024, remembers what the
 * embedder's callbacks said about an address; a later read whose slot holds
 * a read-only entry has all its uses replaced by the cached 64-bit value.
 *
 * The callbacks IsReadOnlyMemory and MemoryRead64 are parameters; the calls
 * the pass makes to them are returned as a log.
 */
module ConstantMemoryReads {
  import opened Ints
  import opened IRType
  import opened Opcodes
  import opened IR
  import opened Wrappers

  const CacheSize: nat := 1024

  /** CachedMemoryEntry. */
  datatype Entry = Entry(isReadOnly: bool, value: u64)

  /** A call the pass makes to the embedder. */
  datatype Call = IsReadOnlyMemory(vaddr: u32) | MemoryRead64(vaddr: u32)

  /** Every read instruction has an address argument (argument 1). */
  predicate ReadsHaveAddress(s: seq<Inst>, readOps: set<Opcode>)
  {
    forall k :: 0 <= k < |s| && s[k].op in readOps ==> |s[k].args| >= 2
  }

  predicate AllImmediates(args: seq<Value>)
  {
    forall i :: 0 <= i < |args| ==> args[i].Imm?
  }

  /** The switch and the AreAllArgsImmediates test: only reads with immediate arguments are looked at. */
  predicate Considered(s: seq<Inst>, readOps: set<Opcode>, k: nat)
    requires k < |s|
  {
    s[k].op in readOps && AllImmediates(s[k].args)
  }

  /** GetArg(1).GetU32(): the low 32 bits of the immediate. */
  function VAddr(inst: Inst): u32
    requires |inst.args| >= 2 && inst.args[1].Imm?
  {
    inst.args[1].bits % TWO_32
  }

  function Slot(vaddr: u32): nat
  {
    vaddr % CacheSize
  }

  /** What the embedder's memory says about an address: read-only or not, and the value read (0 if not read). */
  function Query(vaddr: u32, isReadOnly: u32 -> bool, read64: u32 -> u64): Entry
  {
    Entry(isReadOnly(vaddr), if isReadOnly(vaddr) then read64(vaddr) else 0)
  }

  function QueryCalls(vaddr: u32, isReadOnly: u32 -> bool): seq<Call>
  {
    [IsReadOnlyMemory(vaddr)] + if isReadOnly(vaddr) then [MemoryRead64(vaddr)] else []
  }

  /**
   * The state between two iterations: the arena and its use counts, the
   * cache (a slot is valid exactly when it is a key) and the calls made.
   */
  datatype Scan = Scan(insts: seq<Inst>, uses: seq<int>, cache: map<nat, Entry>, calls: seq<Call>)

  predicate ScanOk(st: Scan, readOps: set<Opcode>)
  {
    |st.uses| == |st.insts| && ReadsHaveAddress(st.insts, readOps)
  }

  function Start(s: seq<Inst>, u: seq<int>): Scan
  {
    Scan(s, u, map[], [])
  }

  /** The value the iteration at k folds the read with, if it folds. */
  function FoldValue(st: Scan, readOps: set<Opcode>, k: nat): Option<u64>
    requires ScanOk(st, readOps) && k < |st.insts|
  {
    if !Considered(st.insts, readOps, k) then None
    else
      var i := Slot(VAddr(st.insts[k]));
      if i in st.cache && st.cache[i].isReadOnly then Some(st.cache[i].value) else None
  }

  /** One iteration of the loop over the block. */
  function Step(st: Scan, readOps: set<Opcode>, isReadOnly: u32 -> bool, read64: u32 -> u64, k: nat): (r: Scan)
    requires ScanOk(st, readOps) && k < |st.insts|
    ensures ScanOk(r, readOps) && |r.insts| == |st.insts|
    ensures forall j {:trigger r.insts[j]} :: 0 <= j < |st.insts| ==>
      r.insts[j].op == st.insts[j].op && r.insts[j].invalidated == st.insts[j].invalidated &&
      |r.insts[j].args| == |st.insts[j].args|
  {
    if !Considered(st.insts, readOps, k) then st
    else
      var vaddr := VAddr(st.insts[k]);
      match FoldValue(st, readOps, k)
      case Some(v) =>
        var w := Imm(U64, v);
        st.(insts := ReplaceUsesInsts(st.insts, k, w), uses := ReplaceUsesCounts(st.insts, st.uses, k, w))
      case None =>
        st.(cache := st.cache[Slot(vaddr) := Query(vaddr, isReadOnly, read64)],
            calls := st.calls + QueryCalls(vaddr, isReadOnly))
  }

  /** The state after the iterations for instructions 0 .. k-1. */
  function Prefix(st0: Scan, readOps: set<Opcode>, isReadOnly: u32 -> bool, read64: u32 -> u64, k: nat): (r: Scan)
    requires ScanOk(st0, readOps) && k <= |st0.insts|
    ensures ScanOk(r, readOps) && |r.insts| == |st0.insts|
    ensures forall j {:trigger r.insts[j]} :: 0 <= j < |st0.insts| ==>
      r.insts[j].op == st0.insts[j].op && r.insts[j].invalidated == st0.insts[j].invalidated &&
      |r.insts[j].args| == |st0.insts[j].args|
  {
    if k == 0 then st0
    else Step(Prefix(st0, readOps, isReadOnly, read64, k - 1), readOps, isReadOnly, read64, k - 1)
  }

  lemma PrefixNext(st0: Scan, readOps: set<Opcode>, isReadOnly: u32 -> bool, read64: u32 -> u64, k: nat)
    requires ScanOk(st0, readOps) && k < |st0.insts|
    ensures Prefix(st0, readOps, isReadOnly, read64, k + 1) ==
      Step(Prefix(st0, readOps, isReadOnly, read64, k), readOps, isReadOnly, read64, k)
  {
  }

  /** The whole pass on s with use counts u. */
  function ConstantMemoryReads(s: seq<Inst>, u: seq<int>, readOps: set<Opcode>, isReadOnly: u32 -> bool, read64: u32 -> u64): Scan
    requires |u| == |s| && ReadsHaveAddress(s, readOps)
  {
    Prefix(Start(s, u), readOps, isReadOnly, read64, |s|)
  }

  // ---- properties of the specification ----

  /** One iteration moves the use counts as the arguments it rewrites, so exact counts stay exact. */
  lemma StepUsesTrack(st: Scan, readOps: set<Opcode>, isReadOnly: u32 -> bool, read64: u32 -> u64, k: nat)
    requires ScanOk(st, readOps) && k < |st.insts|
    ensures var r := Step(st, readOps, isReadOnly, read64, k);
      UsesTrack(st.insts, st.uses, r.insts, r.uses)
  {
    if FoldValue(st, readOps, k).Some? {
      ReplaceUsesTracks(st.insts, st.uses, k, Imm(U64, FoldValue(st, readOps, k).value));
    }
  }

  /** Every valid slot holds what the embedder said about some address that maps to it. */
  predicate CacheSound(cache: map<nat, Entry>, isReadOnly: u32 -> bool, read64: u32 -> u64)
  {
    forall i :: i in cache ==> exists a: u32 :: Slot(a) == i && cache[i] == Query(a, isReadOnly, read64)
  }

  lemma {:induction false} PrefixCacheSound(st0: Scan, readOps: set<Opcode>, isReadOnly: u32 -> bool, read64: u32 -> u64, k: nat)
    requires ScanOk(st0, readOps) && k <= |st0.insts| && st0.cache == map[]
    ensures CacheSound(Prefix(st0, readOps, isReadOnly, read64, k).cache, isReadOnly, read64)
  {
    if k > 0 {
      PrefixCacheSound(st0, readOps, isReadOnly, read64, k - 1);
      var p := Prefix(st0, readOps, isReadOnly, read64, k - 1);
      if Considered(p.insts, readOps, k - 1) && FoldValue(p, readOps, k - 1).None? {
        var a := VAddr(p.insts[k - 1]);
        var c := p.cache[Slot(a) := Query(a, isReadOnly, read64)];
        forall i | i in c
          ensures exists b: u32 :: Slot(b) == i && c[i] == Query(b, isReadOnly, read64)
        {
          if i == Slot(a) {
            assert Slot(a) == i && c[i] == Query(a, isReadOnly, read64);
          } else {
            assert i in p.cache;
          }
        }
      }
    }
  }

  /**
   * A folded read is replaced by a read-only value of SOME address in its
   * slot: not necessarily its own, since the slots carry no tag.
   */
  lemma FoldedValueFromSlot(st0: Scan, readOps: set<Opcode>, isReadOnly: u32 -> bool, read64: u32 -> u64, k: nat)
    requires ScanOk(st0, readOps) && k < |st0.insts| && st0.cache == map[]
    requires FoldValue(Prefix(st0, readOps, isReadOnly, read64, k), readOps, k).Some?
    ensures var p := Prefix(st0, readOps, isReadOnly, read64, k);
      exists a: u32 :: Slot(a) == Slot(VAddr(p.insts[k])) && isReadOnly(a) &&
        FoldValue(p, readOps, k).value == read64(a)
  {
    PrefixCacheSound(st0, readOps, isReadOnly, read64, k);
    var p := Prefix(st0, readOps, isReadOnly, read64, k);
    var i := Slot(VAddr(p.insts[k]));
    var a: u32 :| Slot(a) == i && p.cache[i] == Query(a, isReadOnly, read64);
    assert isReadOnly(a) && FoldValue(p, readOps, k).value == read64(a);
  }

  /** The slot of a read that misses is filled; the read itself is not folded, so a first read never is. */
  lemma MissFillsSlot(st: Scan, readOps: set<Opcode>, isReadOnly: u32 -> bool, read64: u32 -> u64, k: nat)
    requires ScanOk(st, readOps) && k < |st.insts| && Considered(st.insts, readOps, k)
    requires Slot(VAddr(st.insts[k])) !in st.cache
    ensures FoldValue(st, readOps, k).None?
    ensures var a := VAddr(st.insts[k]);
      var r := Step(st, readOps, isReadOnly, read64, k);
      r.insts == st.insts && r.uses == st.uses &&
      Slot(a) in r.cache && r.cache[Slot(a)] == Query(a, isReadOnly, read64) &&
      r.calls == st.calls + QueryCalls(a, isReadOnly)
  {
  }

  /** A slot holding a non-read-only entry is queried again on every hit. */
  lemma NotReadOnlyRequeried(st: Scan, readOps: set<Opcode>, isReadOnly: u32 -> bool, read64: u32 -> u64, k: nat)
    requires ScanOk(st, readOps) && k < |st.insts| && Considered(st.insts, readOps, k)
    requires var i := Slot(VAddr(st.insts[k])); i in st.cache && !st.cache[i].isReadOnly
    ensures var r := Step(st, readOps, isReadOnly, read64, k);
      r.calls == st.calls + QueryCalls(VAddr(st.insts[k]), isReadOnly)
  {
  }

  /** MemoryRead64 is only ever called right after IsReadOnlyMemory said yes for the same address. */
  predicate CallsOk(calls: seq<Call>, isReadOnly: u32 -> bool)
  {
    forall j :: 0 <= j < |calls| && calls[j].MemoryRead64? ==>
      0 < j && calls[j - 1] == IsReadOnlyMemory(calls[j].vaddr) && isReadOnly(calls[j].vaddr)
  }

  lemma StepCallsOk(st: Scan, readOps: set<Opcode>, isReadOnly: u32 -> bool, read64: u32 -> u64, k: nat)
    requires ScanOk(st, readOps) && k < |st.insts| && CallsOk(st.calls, isReadOnly)
    ensures CallsOk(Step(st, readOps, isReadOnly, read64, k).calls, isReadOnly)
  {
  }

  /**
   * Two reads whose addresses 0 and 1024 share slot 0, over a memory that
   * is read-only everywhere and holds its own address: the second read is
   * folded with 0, the value at address 0, where memory at 1024 holds 1024.
   */
  lemma UntaggedSlotMisfolds()
    ensures var readOps: set<Opcode> := {5};
      var s := [Inst(5, [Imm(U32, 0), Imm(U32, 0)], false),
                Inst(5, [Imm(U32, 0), Imm(U32, 1024)], false),
                Inst(2, [Ref(1), Imm(U32, 0)], false)];
      var isReadOnly := (a: u32) => true;
      var read64 := (a: u32) => a as u64;
      var r := ConstantMemoryReads(s, [0, 1, 0], readOps, isReadOnly, read64);
      r.insts[2].args[0] == Imm(U64, 0) && read64(1024) == 1024
  {
    var readOps: set<Opcode> := {5};
    var s := [Inst(5, [Imm(U32, 0), Imm(U32, 0)], false),
              Inst(5, [Imm(U32, 0), Imm(U32, 1024)], false),
              Inst(2, [Ref(1), Imm(U32, 0)], false)];
    var isReadOnly := (a: u32) => true;
    var read64 := (a: u32) => a as u64;
    var st0 := Start(s, [0, 1, 0]);
    assert Considered(s, readOps, 0) && VAddr(s[0]) == 0;
    assert FoldValue(st0, readOps, 0) == None;
    assert Query(0, isReadOnly, read64) == Entry(true, 0);
    assert Prefix(st0, readOps, isReadOnly, read64, 0) == st0;
    var p1 := Prefix(st0, readOps, isReadOnly, read64, 1);
    assert p1 == Step(st0, readOps, isReadOnly, read64, 0);
    assert p1.insts == s && p1.cache == map[0 := Entry(true, 0)];
    assert Considered(s, readOps, 1) && VAddr(s[1]) == 1024 && Slot(1024) == 0;
    assert FoldValue(p1, readOps, 1) == Some(0);
    var p2 := Prefix(st0, readOps, isReadOnly, read64, 2);
    assert p2.insts == ReplaceUsesInsts(s, 1, Imm(U64, 0));
    assert p2.insts[2].args == ReplaceIn(s[2].args, 1, Imm(U64, 0));
    assert !Considered(p2.insts, readOps, 2);
  }

  // ---- the same pass with address-tagged slots ----

  /** A cache entry that remembers the address it was filled for. */
  datatype TaggedEntry = TaggedEntry(vaddr: u32, entry: Entry)

  datatype TaggedScan = TaggedScan(insts: seq<Inst>, uses: seq<int>, cache: map<nat, TaggedEntry>, calls: seq<Call>)

  predicate TaggedScanOk(st: TaggedScan, readOps: set<Opcode>)
  {
    |st.uses| == |st.insts| && ReadsHaveAddress(st.insts, readOps)
  }

  /** A hit needs a valid, read-only slot filled for the same address. */
  function TaggedFoldValue(st: TaggedScan, readOps: set<Opcode>, k: nat): Option<u64>
    requires TaggedScanOk(st, readOps) && k < |st.insts|
  {
    if !Considered(st.insts, readOps, k) then None
    else
      var a := VAddr(st.insts[k]);
      var i := Slot(a);
      if i in st.cache && st.cache[i].vaddr == a && st.cache[i].entry.isReadOnly
      then Some(st.cache[i].entry.value) else None
  }

  function TaggedStep(st: TaggedScan, readOps: set<Opcode>, isReadOnly: u32 -> bool, read64: u32 -> u64, k: nat): (r: TaggedScan)
    requires TaggedScanOk(st, readOps) && k < |st.insts|
    ensures TaggedScanOk(r, readOps) && |r.insts| == |st.insts|
    ensures forall j {:trigger r.insts[j]} :: 0 <= j < |st.insts| ==>
      r.insts[j].op == st.insts[j].op && r.insts[j].invalidated == st.insts[j].invalidated &&
      |r.insts[j].args| == |st.insts[j].args|
  {
    if !Considered(st.insts, readOps, k) then st
    else
      var vaddr := VAddr(st.insts[k]);
      match TaggedFoldValue(st, readOps, k)
      case Some(v) =>
        var w := Imm(U64, v);
        st.(insts := ReplaceUsesInsts(st.insts, k, w), uses := ReplaceUsesCounts(st.insts, st.uses, k, w))
      case None =>
        st.(cache := st.cache[Slot(vaddr) := TaggedEntry(vaddr, Query(vaddr, isReadOnly, read64))],
            calls := st.calls + QueryCalls(vaddr, isReadOnly))
  }

  function TaggedPrefix(st0: TaggedScan, readOps: set<Opcode>, isReadOnly: u32 -> bool, read64: u32 -> u64, k: nat): (r: TaggedScan)
    requires TaggedScanOk(st0, readOps) && k <= |st0.insts|
    ensures TaggedScanOk(r, readOps) && |r.insts| == |st0.insts|
    ensures forall j {:trigger r.insts[j]} :: 0 <= j < |st0.insts| ==>
      r.insts[j].op == st0.insts[j].op && r.insts[j].invalidated == st0.insts[j].invalidated &&
      |r.insts[j].args| == |st0.insts[j].args|
  {
    if k == 0 then st0
    else TaggedStep(TaggedPrefix(st0, readOps, isReadOnly, read64, k - 1), readOps, isReadOnly, read64, k - 1)
  }

  /** Every valid tagged slot holds what the embedder said about its own address. */
  predicate TaggedCacheSound(cache: map<nat, TaggedEntry>, isReadOnly: u32 -> bool, read64: u32 -> u64)
  {
    forall i :: i in cache ==> Slot(cache[i].vaddr) == i && cache[i].entry == Query(cache[i].vaddr, isReadOnly, read64)
  }

  lemma TaggedStepCacheSound(st: TaggedScan, readOps: set<Opcode>, isReadOnly: u32 -> bool, read64: u32 -> u64, k: nat)
    requires TaggedScanOk(st, readOps) && k < |st.insts| && TaggedCacheSound(st.cache, isReadOnly, read64)
    ensures TaggedCacheSound(TaggedStep(st, readOps, isReadOnly, read64, k).cache, isReadOnly, read64)
  {
  }

  lemma {:induction false} TaggedPrefixCacheSound(st0: TaggedScan, readOps: set<Opcode>, isReadOnly: u32 -> bool, read64: u32 -> u64, k: nat)
    requires TaggedScanOk(st0, readOps) && k <= |st0.insts| && st0.cache == map[]
    ensures TaggedCacheSound(TaggedPrefix(st0, readOps, isReadOnly, read64, k).cache, isReadOnly, read64)
  {
    if k > 0 {
      TaggedPrefixCacheSound(st0, readOps, isReadOnly, read64, k - 1);
      TaggedStepCacheSound(TaggedPrefix(st0, readOps, isReadOnly, read64, k - 1), readOps, isReadOnly, read64, k - 1);
    }
  }

  /** With tags, a folded read is replaced by the read-only value of its own address. */
  lemma TaggedFoldIsOwnValue(st0: TaggedScan, readOps: set<Opcode>, isReadOnly: u32 -> bool, read64: u32 -> u64, k: nat)
    requires TaggedScanOk(st0, readOps) && k < |st0.insts| && st0.cache == map[]
    requires TaggedFoldValue(TaggedPrefix(st0, readOps, isReadOnly, read64, k), readOps, k).Some?
    ensures var p := TaggedPrefix(st0, readOps, isReadOnly, read64, k);
      var a := VAddr(p.insts[k]);
      isReadOnly(a) && TaggedFoldValue(p, readOps, k).value == read64(a)
  {
    TaggedPrefixCacheSound(st0, readOps, isReadOnly, read64, k);
  }

  // ---- the pass as written ----

  /** The arrays agree with the specification's cache: valid exactly at its keys, equal there. */
  predicate CacheMatches(cache: array<Entry>, cacheValid: array<bool>, m: map<nat, Entry>)
    reads cache, cacheValid
  {
    cache.Length == CacheSize && cacheValid.Length == CacheSize &&
    (forall i :: i in m ==> i < CacheSize) &&
    forall i :: 0 <= i < CacheSize ==> (cacheValid[i] <==> i in m) && (i in m ==> cache[i] == m[i])
  }

  /** The body of the loop over the block, for instruction k: st is the state it starts in. */
  method ScanInstruction(block: Block, cache: array<Entry>, cacheValid: array<bool>, k: nat,
                         readOps: set<Opcode>, isReadOnly: u32 -> bool, read64: u32 -> u64,
                         ghost st: Scan, calls: seq<Call>)
    returns (ghost st': Scan, calls': seq<Call>)
    requires block.Valid() && ScanOk(st, readOps) && k < |st.insts|
    requires block.insts == st.insts && block.useCounts == st.uses && calls == st.calls
    requires CacheMatches(cache, cacheValid, st.cache)
    modifies block, cache, cacheValid
    ensures st' == Step(st, readOps, isReadOnly, read64, k)
    ensures block.Valid() && CacheMatches(cache, cacheValid, st'.cache)
    ensures block.insts == st'.insts && block.useCounts == st'.uses && calls' == st'.calls
    ensures UsesTrack(st.insts, st.uses, st'.insts, st'.uses)
    ensures CallsOk(st.calls, isReadOnly) ==> CallsOk(st'.calls, isReadOnly)
    ensures block.terminal == old(block.terminal) && block.cycleCount == old(block.cycleCount)
    ensures block.location == old(block.location) && block.endLocation == old(block.endLocation)
  {
    st' := Step(st, readOps, isReadOnly, read64, k);
    StepUsesTrack(st, readOps, isReadOnly, read64, k);
    if CallsOk(calls, isReadOnly) {
      StepCallsOk(st, readOps, isReadOnly, read64, k);
    }
    calls' := calls;
    var inst := block.insts[k];
    if inst.op in readOps && AllImmediates(inst.args) {
      var vaddr := VAddr(inst);
      var index := vaddr % CacheSize;
      if cacheValid[index] && cache[index].isReadOnly {
        block.ReplaceUsesWith(k, Imm(U64, cache[index].value));
      } else {
        var readOnly := isReadOnly(vaddr);
        var valueFromMemory := if readOnly then read64(vaddr) else 0;
        calls' := calls + [IsReadOnlyMemory(vaddr)] + if readOnly then [MemoryRead64(vaddr)] else [];
        cache[index] := Entry(readOnly, valueFromMemory);
        cacheValid[index] := true;
      }
    }
  }

  /**
   * A32ConstantMemoryReads: the arena and its use counts end as the
   * specification says, exact use counts stay exact, and MemoryRead64 is only
   * called for an address IsReadOnlyMemory has just confirmed.
   */
  method A32ConstantMemoryReads(block: Block, readOps: set<Opcode>, isReadOnly: u32 -> bool, read64: u32 -> u64)
    returns (calls: seq<Call>)
    requires block.Valid() && ReadsHaveAddress(block.insts, readOps)
    modifies block
    ensures block.Valid()
    ensures var r := ConstantMemoryReads(old(block.insts), old(block.useCounts), readOps, isReadOnly, read64);
      block.insts == r.insts && block.useCounts == r.uses && calls == r.calls
    ensures UsesTrack(old(block.insts), old(block.useCounts), block.insts, block.useCounts)
    ensures UseCountsExact(old(block.insts), old(block.useCounts)) ==> UseCountsExact(block.insts, block.useCounts)
    ensures CallsOk(calls, isReadOnly)
    ensures block.terminal == old(block.terminal) && block.cycleCount == old(block.cycleCount)
    ensures block.location == old(block.location) && block.endLocation == old(block.endLocation)
  {
    var cache := new Entry[CacheSize](_ => Entry(false, 0));
    var cacheValid := new bool[CacheSize](_ => false);
    calls := [];
    ghost var st0 := Start(block.insts, block.useCounts);
    ghost var st := st0;
    var k := 0;
    while k < |block.insts|
      invariant block.Valid() && |st.insts| == |st0.insts| && k <= |st0.insts|
      invariant st == Prefix(st0, readOps, isReadOnly, read64, k)
      invariant block.insts == st.insts && block.useCounts == st.uses && calls == st.calls
      invariant CacheMatches(cache, cacheValid, st.cache)
      invariant UsesTrack(st0.insts, st0.uses, st.insts, st.uses)
      invariant CallsOk(st.calls, isReadOnly)
      invariant block.terminal == old(block.terminal) && block.cycleCount == old(block.cycleCount)
      invariant block.location == old(block.location) && block.endLocation == old(block.endLocation)
    {
      ghost var before := st;
      st, calls := ScanInstruction(block, cache, cacheValid, k, readOps, isReadOnly, read64, st, calls);
      UsesTrackTrans(st0.insts, st0.uses, before.insts, before.uses, st.insts, st.uses);
      PrefixNext(st0, readOps, isReadOnly, read64, k);
      k := k + 1;
    }
    UsesTrackExact(st0.insts, st0.uses, st.insts, st.uses);
  }
}

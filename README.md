# dynarmic core, modelled in Dafny

A model of the sequential core of dynarmic, a dynamic recompiler for ARM
guest code, with proofs about it. It covers:

- **The IR.** A block is an arena of instructions (opcode, argument list,
  invalidated flag) with a parallel sequence of use counts. An argument is
  an immediate or a reference to an instruction by its position. The opcode
  table and the Type-bitmask name renderer are modelled too.
- **The IR passes.**
  - Identity removal bypasses Identity nodes, then invalidates the Identity
    and Void nodes.
  - The verification pass checks argument types and recounts uses.
  - A32 constant-memory-read folding uses a 1024-slot direct-mapped cache.
  - A64 interpret-run merging grows an Interpret terminal over consecutive
    interpreted instructions.
- **Location descriptors.**
  - The 64-bit key: equality, order, hash and the fixed-width hex string,
    in both its header and its buffered .cpp form.
  - The A32 and A64 decimal renderings.
  - The A64 condition, register and vector names.
- **The A32 front end.**
  - The decoder priority of a single instruction.
  - The translation loop, with its PC advance, cycle accounting and choice
    of terminal.
  - The single-instruction translator.
  - The ARM multiply handlers: their PC and overlap guards, and the register
    and flag writes their emitted IR performs. The results are proved equal
    to the ARMv7-A/R Architecture Reference Manual definitions in section
    A8.8 "Alphabetical list of instructions".
- **The x64 JIT guest state.**
  - A32: CPSR packing and unpacking, FPSCR packing and unpacking, and the
    reset of the return stack buffer.
  - A64: FPCR and FPSR packing and unpacking.
  - The SSE2 integer intrinsics are reduced to their effect on four 32-bit
    lanes.
- **The reciprocal estimate tables.** The integer-only builders of the
  RecipEstimate and RecipSqrtEstimate tables of the Armv8-A shared
  pseudocode (chapter J1 of the Arm Architecture Reference Manual for
  Armv8-A), and the two lookups into them.
- **`strlen`** of the A32 disassembler's output stream.

Imperative code is modelled imperatively:

- the identity-removal, verification, constant-memory, merge and
  translation loops are methods with loop invariants;
- the IR block, the multiply visitor and both JIT states are classes whose
  methods update their fields;
- the lookup-table builders and `strlen` are loops.

Each method is proved against a specification function of the inputs or of
the old state, and the source's promises are proved about those functions as
lemmas.

Unseen collaborators are parameters:

- the decoders and handler calls;
- the code-read callback and the pre-read and pre-translation hooks;
- `AdvancePC`, `ConditionPassed` and `IsReadOnlyMemory`/`ReadMemory64`;
- `AreTypesCompatible`;
- `NZCV::ToX64`/`FromX64`;
- `FPSCR_MODE_MASK`;
- the opcode ordinals of Identity, Void and the A32 memory reads.

## Model

| member | source | states |
|---|---|---|
| IR.Block.SetArg | src/dynarmic/ir/opt/identity_removal_pass.cpp:32 | the argument is replaced and one use moves from the old target to the new one; nothing else of the block changes |
| IR.Block.Invalidate | src/dynarmic/ir/opt/identity_removal_pass.cpp:41 | the instruction is invalidated with no arguments, and each of its arguments' targets loses one use |
| IR.Block.ReplaceUsesWith | src/dynarmic/ir/opt/a32_constant_memory_reads_pass.cpp:39 | every reference to the instruction becomes the value, and the use counts follow |
| IR.UsesTrackExact | src/dynarmic/ir/opt/verification_pass.cpp:32-46 | when the counts track the references, exact use counts before the change imply exact ones after it, and conversely |
| IR.SetArgTracks | src/dynarmic/ir/opt/identity_removal_pass.cpp:32 | moving one use per rewritten argument keeps every use count equal to its old value plus the change in references |
| IR.ReplaceUsesTracks | src/dynarmic/ir/opt/a32_constant_memory_reads_pass.cpp:39 | replacing every use of an instruction moves all its uses to the new value's target |
| IdentityRemoval.ResolvedArgs | src/dynarmic/ir/opt/identity_removal_pass.cpp:24-29 | one argument per argument of the instruction; a reference to an Identity becomes that Identity's argument 0, and any other argument is unchanged |
| IdentityRemoval.RewritePrefix | src/dynarmic/ir/opt/identity_removal_pass.cpp:19-33 | rewriting the first n instructions keeps every opcode, invalidated flag and argument count, and leaves the arguments of the later instructions unchanged |
| IdentityRemoval.RewritePrefixSettled | src/dynarmic/ir/opt/identity_removal_pass.cpp:24-33 | an instruction's arguments, once rewritten, are not touched when later instructions are rewritten |
| IdentityRemoval.RewritePrefixClosed | src/dynarmic/ir/opt/identity_removal_pass.cpp:19-38 | processing in block order with backward references leaves no rewritten argument pointing at an Identity |
| IdentityRemoval.ToInvalidateMembers | src/dynarmic/ir/opt/identity_removal_pass.cpp:35-37 | an instruction is listed for invalidation exactly when its opcode is Identity or Void |
| IdentityRemoval.IdentityRemovalInvalidates | src/dynarmic/ir/opt/identity_removal_pass.cpp:35-42 | after the pass exactly the Identity and Void instructions are invalidated with no arguments; the other instructions keep their flag and every opcode is kept |
| IdentityRemoval.IdentityRemovalBypasses | src/dynarmic/ir/opt/identity_removal_pass.cpp:24-33 | a non-Identity, non-Void instruction keeps its argument count; an argument referring to an Identity becomes that Identity's (already rewritten) argument 0, and every other argument is unchanged |
| IdentityRemoval.IdentityRemovalClosed | src/dynarmic/ir/opt/identity_removal_pass.cpp:19-42 | when every reference points backwards, no argument of the result refers to an Identity |
| IdentityRemoval.IdentityRemovalWellFormed | src/dynarmic/ir/opt/identity_removal_pass.cpp:24-33 | references stay within the block |
| IdentityRemoval.CollectArgs | src/dynarmic/ir/opt/identity_removal_pass.cpp:24-29 | the local args array holds the resolved arguments of the instruction and its count is the instruction's argument count |
| IdentityRemoval.WriteArgs | src/dynarmic/ir/opt/identity_removal_pass.cpp:31-33 | SetArg over the argument indices replaces the argument list by the array's prefix, with use counts that track |
| IdentityRemoval.RewriteInstruction | src/dynarmic/ir/opt/identity_removal_pass.cpp:19-33 | one outer-loop iteration performs one rewrite step of the specification, with use counts that track |
| IdentityRemoval.RewriteAndRecord | src/dynarmic/ir/opt/identity_removal_pass.cpp:19-37 | one iteration also appends the instruction to the invalidation buffer exactly when it is Identity or Void |
| IdentityRemoval.RewriteAll | src/dynarmic/ir/opt/identity_removal_pass.cpp:19-38 | the whole first loop rewrites every instruction and fills the buffer with exactly the Identity and Void positions, in block order |
| IdentityRemoval.InvalidateListed | src/dynarmic/ir/opt/identity_removal_pass.cpp:40-42 | the second loop invalidates exactly the listed instructions |
| IdentityRemoval.IdentityRemovalPass | src/dynarmic/ir/opt/identity_removal_pass.cpp:14-43 | the block becomes the specification's result; exact use counts stay exact; terminal, cycle count and locations are unchanged |
| Verification.CheckTypes | src/dynarmic/ir/opt/verification_pass.cpp:21-30 | passes exactly when every argument's type is compatible with the opcode's argument type at its index |
| Verification.CountUses | src/dynarmic/ir/opt/verification_pass.cpp:32-42 | the recount of each instruction equals the number of references to it; immediates count for nothing |
| Verification.VerificationPass | src/dynarmic/ir/opt/verification_pass.cpp:20-47 | succeeds exactly when the types check and every stored use count equals the number of references |
| Verification.ImmediatesUncounted | src/dynarmic/ir/opt/verification_pass.cpp:38-40 | replacing an immediate argument by another immediate changes no reference count |
| ConstantMemoryReads.Step | src/dynarmic/ir/opt/a32_constant_memory_reads_pass.cpp:26-50 | one instruction's step keeps every opcode, invalidated flag and argument count |
| ConstantMemoryReads.StepUsesTrack | src/dynarmic/ir/opt/a32_constant_memory_reads_pass.cpp:39 | a fold moves the read's uses to the immediate, so the use counts track |
| ConstantMemoryReads.PrefixCacheSound | src/dynarmic/ir/opt/a32_constant_memory_reads_pass.cpp:38-45 | starting from an all-invalid cache, every valid read-only slot holds the memory value of some read-only address that maps to it |
| ConstantMemoryReads.FoldedValueFromSlot | src/dynarmic/ir/opt/a32_constant_memory_reads_pass.cpp:36-39 | a folded value is the memory value of some read-only address mapping to the same slot, which need not be the read's own address |
| ConstantMemoryReads.MissFillsSlot | src/dynarmic/ir/opt/a32_constant_memory_reads_pass.cpp:40-45 | on a miss the read is not folded, the oracle is queried and the slot is filled with its answer |
| ConstantMemoryReads.NotReadOnlyRequeried | src/dynarmic/ir/opt/a32_constant_memory_reads_pass.cpp:38-42 | a valid slot that is not read-only is queried again |
| ConstantMemoryReads.StepCallsOk | src/dynarmic/ir/opt/a32_constant_memory_reads_pass.cpp:41-42 | memory is read only at addresses the oracle called read-only |
| ConstantMemoryReads.UntaggedSlotMisfolds | src/dynarmic/ir/opt/a32_constant_memory_reads_pass.cpp:36-39 | a read of address 1024 after a read of address 0 is folded with the value read at 0 |
| ConstantMemoryReads.TaggedStep | src/dynarmic/ir/opt/a32_constant_memory_reads_pass.cpp:36-45 | the tagged step keeps every opcode, invalidated flag and argument count |
| ConstantMemoryReads.TaggedPrefixCacheSound | src/dynarmic/ir/opt/a32_constant_memory_reads_pass.cpp:43-44 | with address tags, every valid read-only slot holds the memory value of its own address |
| ConstantMemoryReads.TaggedFoldIsOwnValue | src/dynarmic/ir/opt/a32_constant_memory_reads_pass.cpp:38-39 | with address tags, a folded read gets the value of its own read-only address |
| ConstantMemoryReads.ScanInstruction | src/dynarmic/ir/opt/a32_constant_memory_reads_pass.cpp:26-50 | one loop iteration on the block and the cache arrays performs one step of the specification |
| ConstantMemoryReads.A32ConstantMemoryReads | src/dynarmic/ir/opt/a32_constant_memory_reads_pass.cpp:20-52 | the block becomes the specification's result; use counts track; memory is read only where read-only; terminal and locations are unchanged |
| MergeInterpret.AsInt | src/dynarmic/ir/opt/a64_merge_interpret_blocks.cpp:37 | the conversion to int is congruent to the count modulo 2^32 and lies within 32-bit range |
| MergeInterpret.AdvanceCases | src/dynarmic/ir/opt/a64_merge_interpret_blocks.cpp:24-43 | a step is accepted exactly when code is read, the scratch block is empty and its terminal is an Interpret whose next is the location advanced by 4 times the count; the new location is that next |
| MergeInterpret.WalkIsLongestRun | src/dynarmic/ir/opt/a64_merge_interpret_blocks.cpp:23-44 | the loop stops at the first refused step, or when the fuel runs out |
| MergeInterpret.AfterRefusedStaysRefused | src/dynarmic/ir/opt/a64_merge_interpret_blocks.cpp:37-40 | once a step is refused, no longer run is accepted |
| MergeInterpret.WalkPrefixesAccepted | src/dynarmic/ir/opt/a64_merge_interpret_blocks.cpp:23-44 | every prefix of the walk was accepted |
| MergeInterpret.A64MergeInterpretBlocksPass | src/dynarmic/ir/opt/a64_merge_interpret_blocks.cpp:17-50 | a non-Interpret block is unchanged; otherwise the terminal keeps its next, takes the final count, and the cycle count grows by count - 1; instructions are never modified |
| Opcodes.ArgTypes | src/dynarmic/ir/opcodes.cpp:19 | the given argument types are padded with Void to eight |
| Opcodes.OpcodeInfoShape | src/dynarmic/ir/opcodes.cpp:41-50 | the table has 32 entries, each with eight argument types |
| Opcodes.PopulatedEntries | src/dynarmic/ir/opcodes.cpp:44-47 | entries 0-3 are AddWithCarry, AddWithCarry64, And and And64, with their types and argument counts |
| Opcodes.NamedExactlyFirstFour | src/dynarmic/ir/opcodes.cpp:66-68 | an entry has a name exactly when it is one of the first four |
| Opcodes.EmptyEntries | src/dynarmic/ir/opcodes.cpp:41-50 | entries 4-31 are value-initialised: Void type, no arguments, Void argument types |
| Opcodes.UnusedArgTypesVoid | src/dynarmic/ir/opcodes.cpp:62-64 | argument types beyond an entry's argument count are Void |
| IRType.TypeNamesWellFormed | src/dynarmic/ir/type.cpp:14-23 | sixteen names, none empty and none containing a bar |
| IRType.GetNameOf | src/dynarmic/ir/type.cpp:27-45 | the loop produces "Void" for 0, and otherwise the names of the set bits joined by bars |
| IRType.SingleBitName | src/dynarmic/ir/type.cpp:36-43 | a single set bit k below 15 yields exactly the name at k + 1 |
| IRType.SeparatorCount | src/dynarmic/ir/type.cpp:38-41 | the number of bars is one less than the number of set bits below 15 |
| IRType.HighBitsIgnored | src/dynarmic/ir/type.cpp:36-37 | two nonzero types with the same bits below 15 have the same name |
| IRType.OnlyHighBits | src/dynarmic/ir/type.cpp:31-44 | a nonzero type with no bit below 15 set yields the empty string |
| Location.LocationDescriptor.Value | src/dynarmic/ir/location_descriptor.h:29 | Value() gives back the constructor's argument |
| Location.EqualIsIdentity | src/dynarmic/ir/location_descriptor.h:21-27 | == holds exactly for equal values and != is its negation |
| Location.LessIsStrictTotalOrder | src/dynarmic/ir/location_descriptor.h:49-61 | < is irreflexive, asymmetric, transitive and total with respect to ==, and std::less agrees with it |
| Location.HashRespectsEquality | src/dynarmic/ir/location_descriptor.h:63-67 | equal descriptors hash equally |
| Location.ToStringShape | src/dynarmic/ir/location_descriptor.h:35-47 | the string is '{', sixteen hex digits from the top nibble down, and '}': 18 characters |
| Location.ToStringRoundTrip | src/dynarmic/ir/location_descriptor.h:35-47 | parsing the sixteen digits gives back the value |
| Location.ToStringInjective | src/dynarmic/ir/location_descriptor.h:35-47 | distinct descriptors render differently |
| Location.ToStringAsWritten | src/dynarmic/ir/location_descriptor.cpp:11-25 | the buffered loop gives the header's string, and its terminator store falls outside the 18-byte buffer |
| Location.ToStringBuffered | src/dynarmic/ir/location_descriptor.cpp:11-25 | with a 19-byte buffer the loop gives the header's string, with every store in bounds |
| A32Location.ToString | src/dynarmic/frontend/A32/a32_location_descriptor.cpp:12-41 | the string starts with '{' and ends with '}' |
| A32Location.StepMarker | src/dynarmic/frontend/A32/a32_location_descriptor.cpp:34-37 | the string ends in ",,step}" exactly when the descriptor is single-stepping |
| A32Location.StepFieldEmpty | src/dynarmic/frontend/A32/a32_location_descriptor.cpp:20-36 | a single-stepping descriptor renders as "{0,T,E,0,,step}", where "{0,T,E,0,step}" is meant |
| A32Location.IntendedStepMarker | src/dynarmic/frontend/A32/a32_location_descriptor.cpp:34-37 | corrected, the string ends in ",step}" exactly when the descriptor is single-stepping |
| A32Location.ToStringInjective | src/dynarmic/frontend/A32/a32_location_descriptor.cpp:25-39 | two descriptors render alike exactly when PC, T, E, FPSCR and single-stepping all agree |
| A32Location.IntendedInjective | src/dynarmic/frontend/A32/a32_location_descriptor.cpp:25-39 | the corrected rendering is injective too |
| A64Location.ToString | src/dynarmic/frontend/A64/a64_location_descriptor.cpp:11-27 | the string starts with '{' and ends with '}' |
| A64Location.PlainForm | src/dynarmic/frontend/A64/a64_location_descriptor.cpp:15-24 | without single-stepping the string is '{', the decimal PC, ", ", the decimal FPCR and '}', whatever was reserved |
| A64Location.StepMarker | src/dynarmic/frontend/A64/a64_location_descriptor.cpp:20-22 | the string ends in ", step}" exactly when the descriptor is single-stepping |
| A64Location.ToStringInjective | src/dynarmic/frontend/A64/a64_location_descriptor.cpp:15-24 | two descriptors render alike exactly when PC, FPCR and single-stepping agree |
| Decimal.ToDecimalInjective | src/dynarmic/frontend/A64/a64_location_descriptor.cpp:16 | std::to_string of an unsigned value is read back by digit parsing, so distinct values give distinct strings |
| A64Types.CondToString | src/dynarmic/frontend/A64/a64_types.cpp:17-19 | every condition name has two characters |
| A64Types.CondToStringDistinct | src/dynarmic/frontend/A64/a64_types.cpp:12-19 | the sixteen names are distinct, with 0 "eq", 14 "al" and 15 "nv" |
| A64Types.RegToStringShape | src/dynarmic/frontend/A64/a64_types.cpp:21-31 | R31 is exactly "sp\|zr"; any other register is 'r' and one character, which is a digit only below R10 |
| A64Types.RegToStringInjective | src/dynarmic/frontend/A64/a64_types.cpp:21-31 | distinct registers have distinct names |
| A64Types.VecToString | src/dynarmic/frontend/A64/a64_types.cpp:33-39 | a vector name is 'v' and one character |
| A64Types.VecToStringInjective | src/dynarmic/frontend/A64/a64_types.cpp:33-39 | distinct vectors have distinct names |
| A64Types.TenNotDecimal | src/dynarmic/frontend/A64/a64_types.cpp:29 | R10 renders as "r:" and V10 as "v:", where "r10" and "v10" are meant |
| A64Types.RegToStringIntendedShape | src/dynarmic/frontend/A64/a64_types.cpp:21-31 | corrected, a register name is 'r' and its number in decimal, and names are distinct |
| A64Types.VecToStringIntendedShape | src/dynarmic/frontend/A64/a64_types.cpp:33-39 | corrected, a vector name is 'v' and its number in decimal, and names are distinct |
| TranslateArm.DecodeIsFirstMatch | src/dynarmic/frontend/A32/translate/translate_arm.cpp:24-34 | the chosen decoder matched and every earlier one (VFP, then ASIMD, then ARM) did not; the result is undefined exactly when none matched |
| TranslateArm.TranslateInstruction | src/dynarmic/frontend/A32/translate/translate_arm.cpp:24-34 | the first matching decoder's handler is called, and arm_UDF only when none matches |
| TranslateArm.IterationAccounting | src/dynarmic/frontend/A32/translate/translate_arm.cpp:44-68 | past PreCodeReadHook, a pass ends with the handler's result, or NoExecuteFault's when the code read failed; on a successful read PreCodeTranslationHook runs first and the handler sees the emitter it leaves; unless the pass breaks, the PC advances by 4 from where the hooks left it and the ticks for the PC read at the head of the pass are added, or 1 on a failed read; a breaking pass adds nothing and does not advance |
| TranslateArm.HookRefusalStops | src/dynarmic/frontend/A32/translate/translate_arm.cpp:47-50 | when PreCodeReadHook refuses, the loop ends at once with should_continue false, no advance and no cycle change; only the hook's own changes to the emitter remain |
| TranslateArm.SingleStepRunsOnce | src/dynarmic/frontend/A32/translate/translate_arm.cpp:37-69 | when single-stepping, the loop body runs once |
| TranslateArm.RunCycles | src/dynarmic/frontend/A32/translate/translate_arm.cpp:42-69 | the loop's cycle count is the start count plus the ticks of every pass that reached the end of the body, over at most fuel + 1 passes, the first starting from the initial state |
| TranslateArm.FinalTerminalLinks | src/dynarmic/frontend/A32/translate/translate_arm.cpp:71-79 | single-stepping with should_continue links the block; otherwise, in the Translating or Trailing state, it becomes LinkBlockFast at the current location; without should_continue the handlers' terminal stays |
| TranslateArm.TranslateArm | src/dynarmic/frontend/A32/translate/translate_arm.cpp:36-86 | the loop's block has the run's cycle count, the chosen terminal, the start location and the final location as its end; the result says whether it has a terminal |
| TranslateArm.TranslateSingleArmInstruction | src/dynarmic/frontend/A32/translate/translate_arm.cpp:88-109 | the handler's result is returned, the cycle count grows by 1, and the end location is the location advanced by 4 |
| Multiply.MulMatchesManual | src/frontend/translate/translate_arm/multiply.cpp:31 | MUL's result is the low word of the product of the operands |
| Multiply.MlaMatchesManual | src/frontend/translate/translate_arm/multiply.cpp:17 | MLA's result is the low word of n * m + a |
| Multiply.SmullMatchesManual | src/frontend/translate/translate_arm/multiply.cpp:72-82 | SMULL's words are the low and high words of the signed product, and bit 31 of the high word is set exactly when that product is negative |
| Multiply.SmlalMatchesManual | src/frontend/translate/translate_arm/multiply.cpp:49-55 | SMLAL's result is the low 64 bits of the signed product plus the signed accumulator |
| Multiply.UmullMatchesManual | src/frontend/translate/translate_arm/multiply.cpp:132-136 | UMULL's result is the unsigned product, exactly |
| Multiply.UmlalMatchesManual | src/frontend/translate/translate_arm/multiply.cpp:110-115 | UMLAL's result is the low 64 bits of the unsigned product plus the accumulator |
| Multiply.UmaalNoOverflow | src/frontend/translate/translate_arm/multiply.cpp:93-99 | n * m + dHi + dLo stays below 2^64, so UMAAL's 64-bit sums never wrap |
| Multiply.SmmulMatchesManual | src/frontend/translate/translate_arm/multiply.cpp:211-217 | SMMUL's result is bits 63-32 of the signed product, rounded when R is set |
| Multiply.SmmlaMatchesManual | src/frontend/translate/translate_arm/multiply.cpp:177-184 | SMMLA's result is bits 63-32 of a * 2^32 + n * m, rounded when R is set |
| Multiply.SmmlsMatchesManual | src/frontend/translate/translate_arm/multiply.cpp:194-201 | SMMLS's result is bits 63-32 of a * 2^32 - n * m, rounded when R is set |
| Multiply.ArmVisitor.Write32 | src/frontend/translate/translate_arm/multiply.cpp:18-22 | the result goes to d; with S, N is bit 31 and Z is result == 0; without S the flags are kept |
| Multiply.ArmVisitor.Write64 | src/frontend/translate/translate_arm/multiply.cpp:56-61 | the low word goes to dLo and the high word to dHi; with S, N is bit 63 and Z is result == 0 |
| Multiply.ArmVisitor.MLA | src/frontend/translate/translate_arm/multiply.cpp:13-25 | Unpredictable exactly when d, n, m or a is the PC; with the condition passing d gets n * m + a; otherwise nothing changes |
| Multiply.ArmVisitor.MUL | src/frontend/translate/translate_arm/multiply.cpp:27-39 | Unpredictable exactly when d, n or m is the PC; with the condition passing d gets n * m; otherwise nothing changes |
| Multiply.ArmVisitor.SMLAL | src/frontend/translate/translate_arm/multiply.cpp:43-64 | Unpredictable on a PC operand or dLo == dHi; otherwise the signed accumulation goes to dHi:dLo when the condition passes |
| Multiply.ArmVisitor.SMULL | src/frontend/translate/translate_arm/multiply.cpp:66-85 | Unpredictable on a PC operand or dLo == dHi; otherwise the signed product goes to dHi:dLo when the condition passes |
| Multiply.ArmVisitor.UMAAL | src/frontend/translate/translate_arm/multiply.cpp:87-102 | Unpredictable on a PC operand or dLo == dHi; otherwise n * m + dHi + dLo goes to dHi:dLo with no flag write |
| Multiply.ArmVisitor.UMLAL | src/frontend/translate/translate_arm/multiply.cpp:104-124 | Unpredictable on a PC operand or dLo == dHi; otherwise the unsigned accumulation goes to dHi:dLo |
| Multiply.ArmVisitor.UMULL | src/frontend/translate/translate_arm/multiply.cpp:126-145 | Unpredictable on a PC operand or dLo == dHi; otherwise the unsigned product goes to dHi:dLo |
| Multiply.ArmVisitor.SMMLA | src/frontend/translate/translate_arm/multiply.cpp:173-188 | Unpredictable exactly when d, n or m is the PC (a is not checked); otherwise d gets the rounded high word of a * 2^32 + n * m |
| Multiply.ArmVisitor.SMMLS | src/frontend/translate/translate_arm/multiply.cpp:190-205 | Unpredictable exactly when d, n, m or a is the PC; otherwise d gets the rounded high word of a * 2^32 - n * m |
| Multiply.ArmVisitor.SMMUL | src/frontend/translate/translate_arm/multiply.cpp:207-221 | Unpredictable exactly when d, n or m is the PC; otherwise d gets the rounded high word of n * m |
| Multiply.ArmVisitor.SMLALxy | src/frontend/translate/translate_arm/multiply.cpp:149-151 | always left to the interpreter |
| Multiply.ArmVisitor.SMLAxy | src/frontend/translate/translate_arm/multiply.cpp:153-155 | always left to the interpreter |
| Multiply.ArmVisitor.SMULxy | src/frontend/translate/translate_arm/multiply.cpp:157-159 | always left to the interpreter |
| Multiply.ArmVisitor.SMLAWy | src/frontend/translate/translate_arm/multiply.cpp:163-165 | always left to the interpreter |
| Multiply.ArmVisitor.SMULWy | src/frontend/translate/translate_arm/multiply.cpp:167-169 | always left to the interpreter |
| Multiply.ArmVisitor.SMLAD | src/frontend/translate/translate_arm/multiply.cpp:225-227 | always left to the interpreter |
| Multiply.ArmVisitor.SMLALD | src/frontend/translate/translate_arm/multiply.cpp:229-231 | always left to the interpreter |
| Multiply.ArmVisitor.SMLSD | src/frontend/translate/translate_arm/multiply.cpp:233-235 | always left to the interpreter |
| Multiply.ArmVisitor.SMLSLD | src/frontend/translate/translate_arm/multiply.cpp:237-239 | always left to the interpreter |
| Multiply.ArmVisitor.SMUAD | src/frontend/translate/translate_arm/multiply.cpp:241-243 | always left to the interpreter |
| Multiply.ArmVisitor.SMUSD | src/frontend/translate/translate_arm/multiply.cpp:245-247 | always left to the interpreter |
| A64JitState.MaskedFpcr | src/dynarmic/backend/x64/a64_jitstate.cpp:62 | lane 0 of the masked vector is the value under FPCR_MASK |
| A64JitState.RModeLane0 | src/dynarmic/backend/x64/a64_jitstate.cpp:71-73 | the rounding bits ORed in are always 0, lane 0 of the table being 0 |
| A64JitState.FlushToZeroLane0 | src/dynarmic/backend/x64/a64_jitstate.cpp:76-77 | the flush-to-zero test reads FPCR bit 24 |
| A64JitState.JitState.SetFpcr | src/dynarmic/backend/x64/a64_jitstate.cpp:57-81 | GetFpcr() then gives the value under 0x07C89F00; both MXCSRs keep their flags (0x3D) and mask all exceptions (0x1F80); the guest MXCSR gets FZ and DAZ exactly when FPCR.FZ is set; FPSR fields are untouched |
| A64JitState.SetFpcrRoundsToNearest | src/dynarmic/backend/x64/a64_jitstate.cpp:71-73 | as written, the guest MXCSR always rounds to nearest |
| A64JitState.SetFpcrDropsRMode | src/dynarmic/backend/x64/a64_jitstate.cpp:73 | FPCR.RMode towards +infinity is not carried into the guest MXCSR |
| A64JitState.JitState.SetFpcrWithRMode | src/dynarmic/backend/x64/a64_jitstate.cpp:57-81 | with the table read at lane RMode, the guest MXCSR also gets the matching RN bits |
| A64JitState.RoundingCarried | src/dynarmic/backend/x64/a64_jitstate.cpp:47 | the corrected guest MXCSR rounds in the mode FPCR.RMode names |
| A64JitState.JitState.GetFpsr | src/dynarmic/backend/x64/a64_jitstate.cpp:107-121 | IOC from IE, IXC/UFC/OFC/DZC from PE/UE/OE/ZE of either MXCSR, the stored exception bits, and QC at bit 27 when fpsr_qc is nonzero |
| A64JitState.JitState.SetFpsr | src/dynarmic/backend/x64/a64_jitstate.cpp:123-137 | both MXCSRs lose bits 0x3D, QC and the exception bits are stored, FPCR is untouched, and GetFpsr() then gives the value under 0x0800009F |
| A32Bits.QFlagLane0 | src/dynarmic/backend/x64/a32_jitstate.cpp:106-107 | Q is CPSR bit 27, as 0 or 1 |
| A32Bits.GeLane0 | src/dynarmic/backend/x64/a32_jitstate.cpp:110-120 | the GE word SetCpsr stores, lane 0 of its vector arithmetic |
| A32Bits.TFlagLane0 | src/dynarmic/backend/x64/a32_jitstate.cpp:124 | T is CPSR bit 5, into bit 0 |
| A32Bits.EFlagLane0 | src/dynarmic/backend/x64/a32_jitstate.cpp:125 | the E bit stored is CPSR bit 10, shifted to bit 1 |
| A32Bits.ItHighLane0 | src/dynarmic/backend/x64/a32_jitstate.cpp:126 | IT[7:2] is kept in place from bits 10-15 |
| A32Bits.ItLowLane0 | src/dynarmic/backend/x64/a32_jitstate.cpp:127-128 | the IT[1:0] bits ORed in are always 0 |
| A32Bits.ExceptionBitsLane0 | src/dynarmic/backend/x64/a32_jitstate.cpp:208-213 | IOC from IE and IXC/UFC/OFC/DZC from PE/UE/OE/ZE |
| A32Bits.CpsrLane0OtherBits | src/dynarmic/backend/x64/a32_jitstate.cpp:57-93 | the Q, GE1-GE3, E and IT bits of Cpsr() come from FromX64(nzcv) alone |
| A32Bits.CpsrRoundTripAsWritten | src/dynarmic/backend/x64/a32_jitstate.cpp:49-132 | Cpsr() after SetCpsr(c) gives back only NZCV, J/A/I/F/M, T and GE0 (from bit 23) of c |
| A32Bits.CpsrLosesQ | src/dynarmic/backend/x64/a32_jitstate.cpp:60 | with Q set, Cpsr() reads Q as 0 |
| A32Bits.CpsrLosesOtherLanes | src/dynarmic/backend/x64/a32_jitstate.cpp:64-93 | E and IT set in the location descriptor are absent from Cpsr() |
| A32Bits.SetCpsrMisplacesEAndIt | src/dynarmic/backend/x64/a32_jitstate.cpp:125-128 | SetCpsr takes E from bit 10 instead of bit 9 and drops IT[1:0] |
| A32Bits.SetCpsrMisplacesGe | src/dynarmic/backend/x64/a32_jitstate.cpp:110-120 | GE0 read back comes from CPSR bit 23, not bit 16 |
| A32Bits.GeRoundTrip | src/dynarmic/backend/x64/a32_jitstate.cpp:64-70 | GE as byte masks reads back as CPSR bits 16-19 |
| A32Bits.EtItRoundTrip | src/dynarmic/backend/x64/a32_jitstate.cpp:73-88 | the corrected location descriptor bits read back as CPSR's E, T and IT bits |
| A32Bits.CpsrRoundTrip | src/dynarmic/backend/x64/a32_jitstate.cpp:49-132 | the corrected Cpsr() after the corrected SetCpsr(c) gives back c except bits 20-23 |
| A32Bits.FpscrRoundTrip | src/dynarmic/backend/x64/a32_jitstate.cpp:199-218 | fields as SetFpscr leaves them read back as the value under the mode mask or 0xF800009F |
| A32Bits.SetFpscrLanes | src/dynarmic/backend/x64/a32_jitstate.cpp:220-250 | the fields SetFpscr computes; the MXCSRs end at 0x1F80 and 0x9FC0 |
| A32Bits.SetFpscrDropsModes | src/dynarmic/backend/x64/a32_jitstate.cpp:245-246 | an FPSCR asking for rounding towards +infinity with flush-to-zero leaves a guest MXCSR rounding to nearest without FZ |
| A32Bits.SetFpscrResetFirstDropsRMode | src/dynarmic/backend/x64/a32_jitstate.cpp:234-243 | with only the reset moved ahead of the ORs, the guest MXCSR has FZ and DAZ exactly when FPSCR.FZ is set but always rounds to nearest, while FPSCR 0x00400000 asks for rounding towards +infinity |
| A32Bits.SetFpscrWithModesCarries | src/dynarmic/backend/x64/a32_jitstate.cpp:234-243 | with the reset moved ahead of the ORs and the rounding table read at lane RMode instead of lane 0, the guest MXCSR rounds as FPSCR.RMode says and has FZ and DAZ exactly when FPSCR.FZ is set |
| A32JitState.JitState.Cpsr | src/dynarmic/backend/x64/a32_jitstate.cpp:49-95 | the bits Cpsr() builds outside lane 0 are those of FromX64(nzcv) |
| A32JitState.JitState.SetCpsr | src/dynarmic/backend/x64/a32_jitstate.cpp:97-132 | NZCV, Q in {0, 1}, GE, the location descriptor's low half and J/A/I/F/M are stored, with the upper half kept, so Cpsr()'s assertions hold |
| A32JitState.JitState.SetCpsrCorrected | src/dynarmic/backend/x64/a32_jitstate.cpp:97-132 | SetCpsr with GE as byte masks, E from bit 9 and IT[1:0] from bits 25-26 |
| A32JitState.JitState.ResetRSB | src/dynarmic/backend/x64/a32_jitstate.cpp:134-137 | every RSB location descriptor becomes all ones and every code pointer 0 |
| A32JitState.JitState.SetFpscr | src/dynarmic/backend/x64/a32_jitstate.cpp:220-250 | the location descriptor keeps its low half and gets the mode bits; NZCV, QC and the exceptions are stored; the MXCSRs end at 0x1F80 and 0x9FC0; Fpscr() then gives the value under the mode mask or 0xF800009F |
| A32JitState.JitState.SetFpscrResetFirst | src/dynarmic/backend/x64/a32_jitstate.cpp:220-250 | SetFpscr with only the reset moved ahead of the ORs: the rounding OR still reads lane 0, so the guest MXCSR is 0x1F80 with FZ and DAZ when FPSCR.FZ is set and no rounding bits; the other fields as in SetFpscr |
| A32JitState.JitState.SetFpscrWithModes | src/dynarmic/backend/x64/a32_jitstate.cpp:220-250 | the corrected SetFpscr: the MXCSRs are reset first, then the rounding table is read at lane RMode instead of lane 0 and ORed in, and FZ and DAZ are ORed in when FPSCR.FZ is set; the other fields as in SetFpscr |
| MathUtil.RecipEntryInRange | src/dynarmic/common/math_util.cpp:15-18 | before the cast to u8 every reciprocal entry lies in [256, 511], as the pseudocode asserts |
| MathUtil.GenerateRecipEstimateLUT | src/dynarmic/common/math_util.cpp:12-21 | 256 entries, entry i being ((2^19 / (2(i + 256) + 1)) + 1) / 2 cut to 8 bits |
| MathUtil.RecipEstimate | src/dynarmic/common/math_util.cpp:44-46 | for 256 <= a < 512, the table entry for a |
| MathUtil.SearchBIsLeast | src/dynarmic/common/math_util.cpp:32-35 | the inner loop stops at the least b >= 512 with a(b + 1)^2 >= 2^28 |
| MathUtil.SqrtOperand | src/dynarmic/common/math_util.cpp:26-31 | the operand of entry i lies in [257, 1022] |
| MathUtil.RecipSqrtEntryInRange | src/dynarmic/common/math_util.cpp:36 | before the cast to u8 every square-root entry from 128 on lies in [256, 511] |
| MathUtil.GenerateRecipSqrtEstimateLUT | src/dynarmic/common/math_util.cpp:23-39 | 512 entries, 0 below 128, and from 128 on ((b + 1) / 2) cut to 8 bits for the least b the loop finds |
| MathUtil.RecipSqrtEstimate | src/dynarmic/common/math_util.cpp:48-50 | every a has an entry, the one at a & 0x1FF |
| CustomOstream.Strlen | src/dynarmic/frontend/A32/custom_ostream.h:8-24 | the index of the first '\0', whether among the first sixteen characters or after them |

## Left out

- The pointer cast that indexes the verification pass's count array is modelled as the instruction's position in the arena.
- The instruction bookkeeping of `Inst::SetArg`, `ReplaceUsesWith` and `Invalidate` lives in microinstruction.cpp, which is not part of this model. It is modelled as moving one use per rewritten argument.
- `Value::GetType` lives in microinstruction.cpp, which is not part of this model. An argument's type is taken as an immediate's own type, or as the result type of the referenced instruction's opcode.
- `AreTypesCompatible`, the A32/A64 decoders and handler calls, `MemoryReadCode`, `PreCodeReadHook`, `PreCodeTranslationHook`, `ConditionPassed`, `IsReadOnlyMemory`, `ReadMemory64`, `AdvancePC`, `NZCV::ToX64`/`FromX64` and `FPSCR_MODE_MASK` are parameters. Their definitions are not part of this model.
- The IR the handlers and the memory-read fold emit is modelled by its effect on registers, flags and use counts. The IREmitter itself is not modelled.
- `PreCodeReadHook` and `PreCodeTranslationHook` are handed the IR emitter. Their effect is modelled on the current location and the block's terminal only; any IR they emit is not modelled.
- TranslateArm.TranslateArm: its `ensures` that the block has no instructions follows from the emitted IR not being modelled. It is not a property of the source.
- The bodies of `UnpredictableInstruction` and `InterpretThisInstruction` are not modelled; a handler's outcome names which one it returned.
- MergeInterpret.Walk: the loop runs under a fuel bound, because the source's termination depends on the code reader and the translator; no termination claim is made.
- TranslateArm.TranslateArm: the loop runs under a fuel bound for the same reason.
- TranslateArm.TranslateArm: the `size_t` cycle counter is unbounded.
- MergeInterpret.AsInt: the `static_cast<int>` of the byte offset is modelled as a wrap into 32-bit signed range.
- The floating-point meaning of MXCSR, FPSCR and FPCR is not modelled (rounding, flush-to-zero and exception semantics). Only their integer bit layout is modelled.
- The SSE intrinsics are modelled on four 32-bit lanes, with no other effect.
- The initial values of the JIT state fields come from the header, which is not part of this model. The constructors take or zero them.
- A32JitState.JitState.Cpsr: the vector lanes are modelled as four scalar lanes. Its `ensures` states only the bits outside lane 0; the full value is lemma CpsrRoundTripAsWritten.
- A64JitState.JitState.SetFpcrWithRMode: its `ensures` gives the MXCSR word. The rounding that word selects is stated by lemma RoundingCarried.
- MathUtil.RecipEstimate: an index outside the table is undefined behaviour in the source, so the lookup requires 256 <= a < 512.
- CustomOstream.Strlen: the function requires a terminator in the array. Without one the source reads past the end.
- The `ostream` class of custom_ostream.h and the character output callbacks are not modelled (foreign output).
- The duplicate definitions of `IR::ToString` in the header and the .cpp are a build concern. Both bodies are modelled as separate functions.

## Findings

| source | as written | input that shows it | evidently intended | confidence | as-written member | corrected member |
|---|---|---|---|---|---|---|
| src/dynarmic/ir/location_descriptor.cpp:22 | the terminator is stored at index 18 of an 18-byte buffer | any descriptor | a 19-byte buffer, as the comment at line 12 says | high, not executed | Location.ToStringAsWritten | Location.ToStringBuffered |
| src/dynarmic/ir/opt/a32_constant_memory_reads_pass.cpp:36-39 | cache slots carry no address tag, so a hit on a slot folds another address's value | reads of addresses 0 and 1024, both read-only, where memory at 0 differs from memory at 1024 | a slot hits only for the address it was filled with | high, not executed | ConstantMemoryReads.UntaggedSlotMisfolds | ConstantMemoryReads.TaggedFoldIsOwnValue |
| src/dynarmic/backend/x64/a64_jitstate.cpp:73 | lane 0 of vRMode & vMXCSR_RMode is ORed in, and lane 0 of the table is 0, so FPCR.RMode never reaches MXCSR | FPCR 0x00400000 (towards +infinity) | the table entry at lane RMode, so MXCSR.RN matches FPCR.RMode | high, not executed | A64JitState.SetFpcrDropsRMode | A64JitState.RoundingCarried |
| src/dynarmic/backend/x64/a32_jitstate.cpp:60 | cpsr_q, which holds 0 or 1, is masked with 1 << 27, so Q is never read back | cpsr_q = 1 | Q shifted into bit 27 | high, not executed | A32Bits.CpsrLosesQ | A32Bits.CpsrRoundTrip |
| src/dynarmic/backend/x64/a32_jitstate.cpp:64-93 | only lane 0 of vCPSR is returned, dropping GE1-GE3, E and the IT state | upper location descriptor 0xFC02 (E and IT set) | every lane ORed into the result | high, not executed | A32Bits.CpsrLosesOtherLanes | A32Bits.CpsrRoundTrip |
| src/dynarmic/backend/x64/a32_jitstate.cpp:125-128 | E is taken from CPSR bit 10 instead of bit 9, and IT[1:0] is dropped | CPSR 0x00000200 (E set) and CPSR 0x06000000 (IT[1:0] set) | E from bit 9, and IT[1:0] from bits 25-26 into bits 8-9 | high, not executed | A32Bits.SetCpsrMisplacesEAndIt | A32Bits.EtItRoundTrip |
| src/dynarmic/backend/x64/a32_jitstate.cpp:110-120 | the GE bytes are set from CPSR bits shifted so that GE0 reads back from bit 23 | CPSR 0x00010000 (GE0 set) | GE n as a byte mask from CPSR bit 16 + n | medium, not executed | A32Bits.SetCpsrMisplacesGe | A32Bits.GeRoundTrip |
| src/dynarmic/backend/x64/a32_jitstate.cpp:245-246 | the guest MXCSR is overwritten with 0x1F80 after the rounding and flush-to-zero bits were ORed in | FPSCR 0x01400000 (towards +infinity, FZ) | the reset before the ORs, so FZ and DAZ reach MXCSR (the rounding mode also needs the fix at line 237) | high, not executed | A32Bits.SetFpscrDropsModes | A32Bits.SetFpscrWithModesCarries |
| src/dynarmic/backend/x64/a32_jitstate.cpp:237 | lane 0 of vRMode & vMXCSR_RMode is ORed in, and lane 0 of the table is 0, so FPSCR.RMode never reaches MXCSR even with the reset moved ahead | FPSCR 0x00400000 (towards +infinity) | the table entry at lane RMode, so MXCSR.RN matches FPSCR.RMode | high, not executed | A32Bits.SetFpscrResetFirstDropsRMode | A32Bits.SetFpscrWithModesCarries |
| src/dynarmic/frontend/A32/a32_location_descriptor.cpp:35-36 | a comma is appended before the step flag, which already starts with one, giving an empty field | a single-stepping descriptor | the single field ",step" | medium, not executed | A32Location.StepFieldEmpty | A32Location.IntendedStepMarker |
| src/dynarmic/frontend/A64/a64_types.cpp:29 | the register number is added to '0' as one character, so R10-R30 get non-digit names | R10, named "r:" | the register number in decimal, "r10" | medium, not executed | A64Types.TenNotDecimal | A64Types.RegToStringIntendedShape |
| src/dynarmic/frontend/A64/a64_types.cpp:37 | the vector number is added to '0' as one character, so V10-V31 get non-digit names | V10, named "v:" | the vector number in decimal, "v10" | medium, not executed | A64Types.TenNotDecimal | A64Types.VecToStringIntendedShape |

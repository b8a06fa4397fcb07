/**
 * The opcode metadata table: name, result type, argument types and argument
 * count of each opcode, indexed by the opcode's ordinal.
 */
module Opcodes {
  import opened Wrappers
  import opened IRType

  /** IR::Opcode, by its ordinal. */
  type Opcode = nat

  const TableSize: nat := 32
  const MaxArgs: nat := 8

  /** OpcodeInfo::Meta. A null name pointer is None. */
  datatype Meta = Meta(name: Option<string>, ty: Type, argTypes: seq<Type>, numArgs: nat)

  /** Eight argument types, the given ones first and Void in the remaining slots. */
  function ArgTypes(given: seq<Type>): (r: seq<Type>)
    requires |given| <= MaxArgs
    ensures |r| == MaxArgs
    ensures forall i :: 0 <= i < |given| ==> r[i] == given[i]
    ensures forall i :: |given| <= i < MaxArgs ==> r[i] == Void
    decreases MaxArgs - |given|
  {
    if |given| == MaxArgs then given else ArgTypes(given + [Void])
  }

  /** A value-initialised entry: no name, type Void, all argument types Void, no arguments. */
  const Empty: Meta := Meta(None, Void, ArgTypes([]), 0)

  function Repeat(m: Meta, n: nat): (r: seq<Meta>)
    ensures |r| == n && forall i :: 0 <= i < n ==> r[i] == m
  {
    if n == 0 then [] else Repeat(m, n - 1) + [m]
  }

  /** opcode_info: four populated entries, the remaining 28 value-initialised. */
  const OpcodeInfo: seq<Meta> := [
    Meta(Some("AddWithCarry"), U32, ArgTypes([U32, U32, U1]), 3),
    Meta(Some("AddWithCarry64"), U64, ArgTypes([U64, U64, U1]), 3),
    Meta(Some("And"), U32, ArgTypes([U32, U32]), 2),
    Meta(Some("And64"), U64, ArgTypes([U64, U64]), 2)
  ] + Repeat(Empty, TableSize - 4)

  lemma OpcodeInfoShape()
    ensures |OpcodeInfo| == TableSize
    ensures forall op :: 0 <= op < TableSize ==> |OpcodeInfo[op].argTypes| == MaxArgs
  {
  }

  function GetTypeOf(op: Opcode): Type
    requires op < TableSize
  {
    OpcodeInfoShape();
    OpcodeInfo[op].ty
  }

  function GetNumArgsOf(op: Opcode): nat
    requires op < TableSize
  {
    OpcodeInfoShape();
    OpcodeInfo[op].numArgs
  }

  function GetArgTypeOf(op: Opcode, argIndex: nat): Type
    requires op < TableSize && argIndex < MaxArgs
  {
    OpcodeInfoShape();
    OpcodeInfo[op].argTypes[argIndex]
  }

  /** Whether the entry has a name; GetNameOf on an unnamed entry would read a null pointer. */
  predicate HasName(op: Opcode)
    requires op < TableSize
  {
    OpcodeInfoShape();
    OpcodeInfo[op].name.Some?
  }

  function GetNameOf(op: Opcode): string
    requires op < TableSize && HasName(op)
  {
    OpcodeInfoShape();
    OpcodeInfo[op].name.value
  }

  /** The four populated entries. */
  lemma PopulatedEntries()
    ensures GetNameOf(0) == "AddWithCarry" && GetTypeOf(0) == U32 && GetNumArgsOf(0) == 3
    ensures GetArgTypeOf(0, 0) == U32 && GetArgTypeOf(0, 1) == U32 && GetArgTypeOf(0, 2) == U1
    ensures GetNameOf(1) == "AddWithCarry64" && GetTypeOf(1) == U64 && GetNumArgsOf(1) == 3
    ensures GetArgTypeOf(1, 0) == U64 && GetArgTypeOf(1, 1) == U64 && GetArgTypeOf(1, 2) == U1
    ensures GetNameOf(2) == "And" && GetTypeOf(2) == U32 && GetNumArgsOf(2) == 2
    ensures GetArgTypeOf(2, 0) == U32 && GetArgTypeOf(2, 1) == U32
    ensures GetNameOf(3) == "And64" && GetTypeOf(3) == U64 && GetNumArgsOf(3) == 2
    ensures GetArgTypeOf(3, 0) == U64 && GetArgTypeOf(3, 1) == U64
  {
  }

  /** Exactly the first four entries carry a name. */
  lemma NamedExactlyFirstFour(op: Opcode)
    requires op < TableSize
    ensures HasName(op) <==> op < 4
  {
  }

  /** Slots 4..31 are value-initialised. */
  lemma EmptyEntries(op: Opcode, argIndex: nat)
    requires 4 <= op < TableSize && argIndex < MaxArgs
    ensures GetTypeOf(op) == Void && GetNumArgsOf(op) == 0 && GetArgTypeOf(op, argIndex) == Void
  {
  }

  /** In every entry the argument types past the argument count are Void. */
  lemma UnusedArgTypesVoid(op: Opcode, argIndex: nat)
    requires op < TableSize && GetNumArgsOf(op) <= argIndex < MaxArgs
    ensures GetArgTypeOf(op, argIndex) == Void
  {
  }
}

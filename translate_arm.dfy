/**
 * The A32 (ARM state) translation driver: decoder priority for one
 * instruction, the block-building loop with its cycle accounting and
 * terminal choice, and the single-instruction entry point.
 *
 * The decoders, the instruction handlers, the translation callbacks,
 * CondCanContinue, RaiseException and the location helpers are
 * parameters (an `Env`). A handler sees the current location and the part
 * of the translator it may change: the conditional-execution state and the
 * block's terminal. The two code hooks are handed the IR emitter, through
 * which they may move the current location or set the terminal. The IR a
 * handler or a hook emits is not modelled.
 */
module TranslateArm {
  import opened Ints
  import opened Wrappers
  import opened IR
  import A32Location

  type Loc = A32Location.LocationDescriptor

  const InstructionSize: nat := 4

  /** ConditionalState. */
  datatype CondState = NoCond | Break | Translating | Trailing

  /** What a handler can change: the conditional state and the terminal. */
  datatype Visitor = Visitor(condState: CondState, terminal: Terminal)

  /** What a callback handed the IR emitter can change: the current location and the block's terminal. */
  datatype Emitter = Emitter(location: Loc, terminal: Terminal)

  /** A handler's boolean result (whether translation may continue) and the translator it leaves. */
  datatype Outcome = Outcome(shouldContinue: bool, visitor: Visitor)

  /** The three decoder tables, in the order they are tried. */
  datatype Table = Vfp | Asimd | Arm

  /** The handler an instruction is dispatched to. */
  datatype Dispatch = Matched(table: Table, matcher: nat) | Undefined

  datatype Env = Env(
    decode: (Table, u32) -> Option<nat>,                  // DecodeVFP / DecodeASIMD / DecodeArm
    call: (Table, nat, Loc, Visitor, u32) -> Outcome,     // matcher.call(visitor, instruction)
    udf: (Loc, Visitor) -> Outcome,                       // TranslatorVisitor::arm_UDF
    noExecuteFault: (Loc, Visitor) -> Outcome,            // RaiseException(Exception::NoExecuteFault)
    preCodeReadHook: (u32, Emitter) -> (bool, Emitter),   // TranslateCallbacks::PreCodeReadHook
    readCode: u32 -> Option<u32>,                         // TranslateCallbacks::MemoryReadCode
    preCodeTranslationHook: (u32, Emitter) -> Emitter,    // TranslateCallbacks::PreCodeTranslationHook
    ticksForCode: (u32, u32) -> u64,                      // TranslateCallbacks::GetTicksForCode
    condCanContinue: (CondState, Visitor) -> bool,        // CondCanContinue
    advancePC: (Loc, int) -> Loc,                         // A32::LocationDescriptor::AdvancePC
    toIR: Loc -> u64)                                     // A32 to IR location descriptor

  /** The decoder chain: VFP first, then ASIMD, then ARM; undefined if none matches. */
  function Decode(env: Env, instruction: u32): Dispatch
  {
    if env.decode(Vfp, instruction).Some? then Matched(Vfp, env.decode(Vfp, instruction).value)
    else if env.decode(Asimd, instruction).Some? then Matched(Asimd, env.decode(Asimd, instruction).value)
    else if env.decode(Arm, instruction).Some? then Matched(Arm, env.decode(Arm, instruction).value)
    else Undefined
  }

  /** Priority of a table: earlier tables win. */
  function Rank(t: Table): nat
  {
    match t
    case Vfp => 0
    case Asimd => 1
    case Arm => 2
  }

  /**
   * The dispatch is the first table, in priority order, that decodes the
   * instruction, with that table's matcher; it is Undefined exactly when no
   * table decodes it.
   */
  lemma DecodeIsFirstMatch(env: Env, instruction: u32)
    ensures Decode(env, instruction).Matched? ==>
      var d := Decode(env, instruction);
      env.decode(d.table, instruction) == Some(d.matcher) &&
      forall t: Table :: Rank(t) < Rank(d.table) ==> env.decode(t, instruction).None?
    ensures Decode(env, instruction) == Undefined <==>
      forall t: Table :: env.decode(t, instruction).None?
  {
    if Decode(env, instruction) == Undefined {
      forall t: Table
        ensures env.decode(t, instruction).None?
      {
        match t
        case Vfp =>
        case Asimd =>
        case Arm =>
      }
    }
  }

  /** TranslateInstruction: run the handler the decoder chain picks, or arm_UDF. */
  function TranslateInstruction(env: Env, location: Loc, visitor: Visitor, instruction: u32): (o: Outcome)
    ensures Decode(env, instruction).Matched? ==>
      o == env.call(Decode(env, instruction).table, Decode(env, instruction).matcher, location, visitor, instruction)
    ensures Decode(env, instruction) == Undefined ==> o == env.udf(location, visitor)
  {
    match Decode(env, instruction)
    case Matched(table, matcher) => env.call(table, matcher, location, visitor, instruction)
    case Undefined => env.udf(location, visitor)
  }

  /** The translator between two iterations of the loop. */
  datatype State = State(location: Loc, visitor: Visitor, cycles: nat, shouldContinue: bool)

  /** An iteration either ends the loop or lets it go round again. */
  datatype Step = Exit(state: State) | Continue(state: State)

  /** The emitter's part of a translator state. */
  function EmitterOf(st: State): Emitter
  {
    Emitter(st.location, st.visitor.terminal)
  }

  /** The translator state after a callback left the emitter as `e`. */
  function WithEmitter(st: State, e: Emitter): State
  {
    st.(location := e.location, visitor := st.visitor.(terminal := e.terminal))
  }

  /** PreCodeReadHook at pc: whether reading may go ahead, and the state it leaves. */
  function ReadHook(env: Env, pc: u32, st: State): (bool, State)
  {
    var (ok, e) := env.preCodeReadHook(pc, EmitterOf(st));
    (ok, WithEmitter(st, e))
  }

  /**
   * The code read at pc: on success PreCodeTranslationHook runs, the code's
   * ticks are charged and the instruction is translated; on failure 1 tick
   * is charged and NoExecuteFault is raised. Also returns the current
   * location the pass ends at before advancing.
   */
  function Fetch(env: Env, pc: u32, st: State): (u64, Loc, Outcome)
  {
    match env.readCode(pc)
    case Some(instruction) =>
      var hooked := WithEmitter(st, env.preCodeTranslationHook(pc, EmitterOf(st)));
      (env.ticksForCode(pc, instruction), hooked.location,
       TranslateInstruction(env, hooked.location, hooked.visitor, instruction))
    case None => (1, st.location, env.noExecuteFault(st.location, st.visitor))
  }

  /** One pass of the do-while body, with the loop condition; arm_pc is read once, at its head. */
  function Iterate(env: Env, st: State, singleStep: bool): Step
  {
    var pc := st.location.pc;
    var (ok, read) := ReadHook(env, pc, st);
    if !ok then Exit(read.(shouldContinue := false))
    else
      var (ticks, location, o) := Fetch(env, pc, read);
      if o.visitor.condState == Break then
        Exit(State(location, o.visitor, st.cycles, o.shouldContinue))
      else
        var next := State(env.advancePC(location, InstructionSize), o.visitor, st.cycles + ticks, o.shouldContinue);
        if next.shouldContinue && env.condCanContinue(next.visitor.condState, next.visitor) && !singleStep
        then Continue(next) else Exit(next)
  }

  /** The loop: at most fuel + 1 passes of the body. */
  function Run(env: Env, st: State, singleStep: bool, fuel: nat): State
    decreases fuel
  {
    match Iterate(env, st, singleStep)
    case Exit(s) => s
    case Continue(s) => if fuel == 0 then s else Run(env, s, singleStep, fuel - 1)
  }

  /** The terminal after the loop: a link to the current location if translation may continue. */
  function FinalTerminal(env: Env, st: State, singleStep: bool): Terminal
  {
    if (st.visitor.condState == Translating || st.visitor.condState == Trailing || singleStep) && st.shouldContinue
    then (if singleStep then LinkBlock(env.toIR(st.location)) else LinkBlockFast(env.toIR(st.location)))
    else st.visitor.terminal
  }

  /**
   * A pass past PreCodeReadHook ends with the handler's (or NoExecuteFault's)
   * result. Unless it breaks, it advances the PC by one instruction from
   * where the hooks left it and charges its ticks: the code callback's, for
   * the PC read at the head of the pass, on a successful read, and 1 on a
   * failed one. A breaking pass charges nothing and does not advance.
   */
  lemma IterationAccounting(env: Env, st: State, singleStep: bool)
    requires ReadHook(env, st.location.pc, st).0
    ensures var s := Iterate(env, st, singleStep).state;
      var pc := st.location.pc;
      var read := ReadHook(env, pc, st).1;
      var hooked := WithEmitter(read, env.preCodeTranslationHook(pc, EmitterOf(read)));
      var location := if env.readCode(pc).Some? then hooked.location else read.location;
      var o := if env.readCode(pc).Some?
        then TranslateInstruction(env, hooked.location, hooked.visitor, env.readCode(pc).value)
        else env.noExecuteFault(read.location, read.visitor);
      s.visitor == o.visitor && s.shouldContinue == o.shouldContinue &&
      (o.visitor.condState == Break ==> s.location == location && s.cycles == st.cycles) &&
      (o.visitor.condState != Break ==>
        s.location == env.advancePC(location, InstructionSize) &&
        s.cycles == st.cycles + if env.readCode(pc).Some? then env.ticksForCode(pc, env.readCode(pc).value) else 1)
  {
  }

  /** A refused PreCodeReadHook ends the loop where the hook left it, with should_continue false and no cycles charged. */
  lemma HookRefusalStops(env: Env, st: State, singleStep: bool, fuel: nat)
    requires !ReadHook(env, st.location.pc, st).0
    ensures Run(env, st, singleStep, fuel) == WithEmitter(st, env.preCodeReadHook(st.location.pc, EmitterOf(st)).1).(shouldContinue := false)
    ensures Run(env, st, singleStep, fuel).cycles == st.cycles
  {
  }

  /** Single-stepping runs the body once. */
  lemma SingleStepRunsOnce(env: Env, st: State, fuel: nat)
    ensures Iterate(env, st, true).Exit?
    ensures Run(env, st, true, fuel) == Iterate(env, st, true).state
  {
  }

  /** The states at the head of each pass the loop makes. */
  function Passes(env: Env, st: State, singleStep: bool, fuel: nat): seq<State>
    decreases fuel
  {
    match Iterate(env, st, singleStep)
    case Exit(_) => [st]
    case Continue(s) => if fuel == 0 then [st] else [st] + Passes(env, s, singleStep, fuel - 1)
  }

  /** The ticks block.CycleCount() is charged by a pass from st: none if it stops at the hook or breaks. */
  function PassTicks(env: Env, st: State): nat
  {
    var pc := st.location.pc;
    var (ok, read) := ReadHook(env, pc, st);
    if !ok then 0
    else
      var (ticks, _, o) := Fetch(env, pc, read);
      if o.visitor.condState == Break then 0 else ticks as nat
  }

  /** The ticks charged over a sequence of passes. */
  function TotalTicks(env: Env, passes: seq<State>): nat
  {
    if passes == [] then 0 else PassTicks(env, passes[0]) + TotalTicks(env, passes[1..])
  }

  /**
   * The loop's cycle count is the start count plus the ticks charged on
   * every pass that reached the end of the body; the passes are at most
   * fuel + 1 and the first starts from st.
   */
  lemma {:induction false} RunCycles(env: Env, st: State, singleStep: bool, fuel: nat)
    ensures var passes := Passes(env, st, singleStep, fuel);
      1 <= |passes| <= fuel + 1 && passes[0] == st &&
      Run(env, st, singleStep, fuel).cycles == st.cycles + TotalTicks(env, passes)
    decreases fuel
  {
    var passes := Passes(env, st, singleStep, fuel);
    assert passes[1..] == (if Iterate(env, st, singleStep).Continue? && fuel > 0
      then Passes(env, Iterate(env, st, singleStep).state, singleStep, fuel - 1) else []);
    match Iterate(env, st, singleStep)
    case Exit(s) =>
    case Continue(s) =>
      if fuel > 0 {
        RunCycles(env, s, singleStep, fuel - 1);
      }
  }

  /**
   * When translation may continue in the Translating or Trailing state, or
   * when single-stepping, the terminal links to the current location: LinkBlock
   * when single-stepping, LinkBlockFast otherwise. Otherwise the handlers'
   * terminal stands.
   */
  lemma FinalTerminalLinks(env: Env, st: State, singleStep: bool)
    ensures st.shouldContinue && singleStep ==> FinalTerminal(env, st, singleStep) == LinkBlock(env.toIR(st.location))
    ensures (st.shouldContinue && !singleStep &&
      (st.visitor.condState == Translating || st.visitor.condState == Trailing)) ==>
      FinalTerminal(env, st, singleStep) == LinkBlockFast(env.toIR(st.location))
    ensures !st.shouldContinue ==> FinalTerminal(env, st, singleStep) == st.visitor.terminal
  {
  }

  /**
   * A pass that reaches the end of the body with `next` as its state: the
   * loop's result is that of going round again from `next` when `running`,
   * and `next` itself when not.
   */
  lemma RunAfterPass(env: Env, st: State, singleStep: bool, fuel: nat, next: State, running: bool)
    requires ReadHook(env, st.location.pc, st).0
    requires var f := Fetch(env, st.location.pc, ReadHook(env, st.location.pc, st).1);
      f.2.visitor.condState != Break &&
      next == State(env.advancePC(f.1, InstructionSize), f.2.visitor, st.cycles + f.0 as nat, f.2.shouldContinue)
    requires running == (next.shouldContinue && env.condCanContinue(next.visitor.condState, next.visitor) && !singleStep && fuel > 0)
    ensures running ==> Run(env, st, singleStep, fuel) == Run(env, next, singleStep, fuel - 1)
    ensures !running ==> Run(env, st, singleStep, fuel) == next
  {
  }

  /**
   * TranslateArm: the block built from `descriptor`. Its cycle count and end
   * location are those of the loop, its terminal the one chosen after it;
   * `hasTerminal` is the closing assertion that some terminal was set.
   * The block has no instructions only because the IR the handlers and
   * hooks emit is not modelled.
   */
  method TranslateArm(descriptor: Loc, env: Env, fuel: nat) returns (block: Block, hasTerminal: bool)
    ensures fresh(block) && block.Valid() && block.insts == []
    ensures var r := Run(env, State(descriptor, Visitor(NoCond, Invalid), 0, true), descriptor.singleStepping, fuel);
      block.cycleCount == r.cycles &&
      block.terminal == FinalTerminal(env, r, descriptor.singleStepping) &&
      block.location == env.toIR(descriptor) &&
      block.endLocation == env.toIR(r.location)
    ensures hasTerminal <==> block.HasTerminal()
  {
    var singleStep := descriptor.singleStepping;
    block := new Block(env.toIR(descriptor));
    var location := descriptor;
    var visitor := Visitor(NoCond, Invalid);
    ghost var st0 := State(descriptor, visitor, 0, true);
    var shouldContinue := true;
    var steps := 0;
    var running := true;
    while running
      invariant block.Valid() && block.insts == [] && block.location == env.toIR(descriptor)
      invariant steps <= fuel + 1
      invariant running ==> steps <= fuel
      invariant running ==>
        Run(env, State(location, visitor, block.cycleCount, shouldContinue), singleStep, fuel - steps) ==
        Run(env, st0, singleStep, fuel)
      invariant !running ==> State(location, visitor, block.cycleCount, shouldContinue) == Run(env, st0, singleStep, fuel)
      decreases fuel + 1 - steps
    {
      ghost var st := State(location, visitor, block.cycleCount, shouldContinue);
      var armPC := location.pc;
      var ticksForInstruction: u64 := 1;
      var (readOk, readEmitter) := env.preCodeReadHook(armPC, Emitter(location, visitor.terminal));
      location, visitor := readEmitter.location, visitor.(terminal := readEmitter.terminal);
      ghost var read := State(location, visitor, block.cycleCount, shouldContinue);
      if !readOk {
        shouldContinue := false;
        break;
      }
      var outcome;
      var armInstruction := env.readCode(armPC);
      if armInstruction.Some? {
        var hooked := env.preCodeTranslationHook(armPC, Emitter(location, visitor.terminal));
        location, visitor := hooked.location, visitor.(terminal := hooked.terminal);
        ticksForInstruction := env.ticksForCode(armPC, armInstruction.value);
        outcome := TranslateInstruction(env, location, visitor, armInstruction.value);
      } else {
        outcome := env.noExecuteFault(location, visitor);
      }
      assert Fetch(env, armPC, read) == (ticksForInstruction, location, outcome);
      shouldContinue := outcome.shouldContinue;
      visitor := outcome.visitor;
      if visitor.condState == Break {
        break;
      }
      location := env.advancePC(location, InstructionSize);
      block.cycleCount := block.cycleCount + ticksForInstruction;
      running := shouldContinue && env.condCanContinue(visitor.condState, visitor) && !singleStep && steps < fuel;
      RunAfterPass(env, st, singleStep, fuel - steps, State(location, visitor, block.cycleCount, shouldContinue), running);
      steps := steps + 1;
    }
    ghost var r := Run(env, st0, singleStep, fuel);
    assert State(location, visitor, block.cycleCount, shouldContinue) == r;
    if visitor.condState == Translating || visitor.condState == Trailing || singleStep {
      if shouldContinue {
        if singleStep {
          visitor := visitor.(terminal := LinkBlock(env.toIR(location)));
        } else {
          visitor := visitor.(terminal := LinkBlockFast(env.toIR(location)));
        }
      }
    }
    block.terminal := visitor.terminal;
    hasTerminal := block.HasTerminal();
    block.endLocation := env.toIR(location);
  }

  /**
   * TranslateSingleArmInstruction: translate one instruction into `block` at
   * `descriptor`, advance by one instruction, charge one cycle, set the end
   * location to the advanced location and return the handler's result.
   */
  method TranslateSingleArmInstruction(block: Block, descriptor: Loc, env: Env, armInstruction: u32)
    returns (shouldContinue: bool)
    modifies block
    ensures var o := TranslateInstruction(env, descriptor, Visitor(NoCond, old(block.terminal)), armInstruction);
      shouldContinue == o.shouldContinue && block.terminal == o.visitor.terminal
    ensures block.cycleCount == old(block.cycleCount) + 1
    ensures block.endLocation == env.toIR(env.advancePC(descriptor, InstructionSize))
    ensures block.insts == old(block.insts) && block.useCounts == old(block.useCounts)
    ensures block.location == old(block.location)
  {
    var visitor := Visitor(NoCond, block.terminal);
    var location := descriptor;
    var ticksForInstruction: u64 := 1;
    var outcome := TranslateInstruction(env, location, visitor, armInstruction);
    shouldContinue := outcome.shouldContinue;
    block.terminal := outcome.visitor.terminal;
    location := env.advancePC(location, InstructionSize);
    block.cycleCount := block.cycleCount + ticksForInstruction;
    block.endLocation := env.toIR(location);
  }
}

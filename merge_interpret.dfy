/**
 * Merging of A64 interpreter fallbacks: a block whose terminal asks the
 * interpreter to run from `next` is extended, instruction by instruction,
 * for as long as each following instruction would itself translate to an
 * empty block ending in an Interpret terminal at the expected location.
 *
 * The embedder's code reader, the A64 single-instruction translator and
 * the location helpers PC() and AdvancePC() are parameters (an `Env`).
 * The source's `while (true)` loop need not terminate; the model runs it
 * for at most `fuel` accepted steps.
 */
module MergeInterpret {
  import opened Ints
  import opened Wrappers
  import opened IR

  /** What TranslateSingleInstruction leaves in the scratch block. */
  datatype Translated = Translated(hasInstructions: bool, terminal: Terminal)

  datatype Env = Env(
    readCode: u64 -> Option<u32>,          // UserCallbacks::MemoryReadCode
    pc: u64 -> u64,                        // A64::LocationDescriptor::PC
    translate: (u64, u32) -> Translated,   // A64::TranslateSingleInstruction on a fresh block
    advancePC: (u64, int) -> u64)          // A64::LocationDescriptor::AdvancePC

  /** static_cast<int> of a size_t: its low 32 bits read as a two's-complement value. */
  function AsInt(n: nat): (r: int)
    ensures -0x8000_0000 <= r < 0x8000_0000
    ensures (r - n) % TWO_32 == 0
  {
    var low := n % TWO_32;
    if low < 0x8000_0000 then low else low - TWO_32
  }

  /**
   * One iteration of the loop at `location` with `count` instructions merged
   * so far: the location the loop moves on to, or None where it breaks.
   */
  function Advance(env: Env, location: u64, count: nat): Option<u64>
  {
    match env.readCode(env.pc(location))
    case None => None
    case Some(instruction) =>
      var scratch := env.translate(location, instruction);
      if scratch.hasInstructions then None
      else match scratch.terminal
        case Interpret(next, _) =>
          if next != env.advancePC(location, AsInt(count * 4)) then None else Some(next)
        case _ => None
  }

  /** Why and where the loop stops. */
  lemma AdvanceCases(env: Env, location: u64, count: nat)
    ensures Advance(env, location, count).Some? <==>
      env.readCode(env.pc(location)).Some? &&
      var scratch := env.translate(location, env.readCode(env.pc(location)).value);
      !scratch.hasInstructions && scratch.terminal.Interpret? &&
      scratch.terminal.next == env.advancePC(location, AsInt(count * 4))
    ensures Advance(env, location, count).Some? ==>
      Advance(env, location, count).value ==
        env.translate(location, env.readCode(env.pc(location)).value).terminal.next
  {
  }

  /** The count and the location the loop ends with. */
  datatype Stop = Stop(count: nat, location: u64)

  /** The loop from (location, count), for at most `fuel` accepted steps. */
  function Walk(env: Env, location: u64, count: nat, fuel: nat): (r: Stop)
    ensures count <= r.count <= count + fuel
    decreases fuel
  {
    if fuel == 0 then Stop(count, location)
    else match Advance(env, location, count)
      case None => Stop(count, location)
      case Some(next) => Walk(env, next, count + 1, fuel - 1)
  }

  /** The location reached after exactly j accepted steps from (location, count), if every one is accepted. */
  function After(env: Env, location: u64, count: nat, j: nat): Option<u64>
    decreases j
  {
    if j == 0 then Some(location)
    else match Advance(env, location, count)
      case None => None
      case Some(next) => After(env, next, count + 1, j - 1)
  }

  /**
   * The walk is the longest run of accepted steps: each of its steps is
   * accepted, it ends where they lead, and, unless the fuel ran out, the next
   * step is refused.
   */
  lemma {:induction false} WalkIsLongestRun(env: Env, location: u64, count: nat, fuel: nat)
    ensures var r := Walk(env, location, count, fuel);
      After(env, location, count, r.count - count) == Some(r.location) &&
      (r.count - count < fuel ==> Advance(env, r.location, r.count) == None)
    decreases fuel
  {
    if fuel > 0 {
      match Advance(env, location, count)
      case None =>
      case Some(next) =>
        WalkIsLongestRun(env, next, count + 1, fuel - 1);
    }
  }

  /** Once refused, every longer run is refused as well. */
  lemma {:induction false} AfterRefusedStaysRefused(env: Env, location: u64, count: nat, j: nat, k: nat)
    requires j <= k && After(env, location, count, j) == None
    ensures After(env, location, count, k) == None
    decreases j
  {
    if j > 0 {
      match Advance(env, location, count)
      case None =>
        assert After(env, location, count, k) == None;
      case Some(next) =>
        AfterRefusedStaysRefused(env, next, count + 1, j - 1, k - 1);
    }
  }

  /** Every shorter run of the walk is accepted too. */
  lemma WalkPrefixesAccepted(env: Env, location: u64, count: nat, fuel: nat, j: nat)
    requires j <= Walk(env, location, count, fuel).count - count
    ensures After(env, location, count, j).Some?
  {
    var r := Walk(env, location, count, fuel);
    WalkIsLongestRun(env, location, count, fuel);
    if After(env, location, count, j) == None {
      AfterRefusedStaysRefused(env, location, count, j, r.count - count);
    }
  }

  /**
   * A64MergeInterpretBlocksPass. A block whose terminal is not Interpret is
   * left as it is; otherwise its terminal keeps `next`, its instruction count
   * becomes the length of the walk from `next`, and the cycle count grows by
   * one less than that. The instructions are not touched.
   */
  method A64MergeInterpretBlocksPass(block: Block, env: Env, fuel: nat)
    modifies block
    ensures block.insts == old(block.insts) && block.useCounts == old(block.useCounts)
    ensures block.location == old(block.location) && block.endLocation == old(block.endLocation)
    ensures !old(block.terminal).Interpret? ==>
      block.terminal == old(block.terminal) && block.cycleCount == old(block.cycleCount)
    ensures old(block.terminal).Interpret? ==>
      var r := Walk(env, old(block.terminal).next, 1, fuel);
      block.terminal == Interpret(old(block.terminal).next, r.count) &&
      block.cycleCount == old(block.cycleCount) + r.count - 1
  {
    var terminal := block.terminal;
    if terminal.Interpret? {
      var location := terminal.next;
      var numInstructions := 1;
      var steps := 0;
      while steps < fuel
        invariant numInstructions == steps + 1 && steps <= fuel
        invariant Walk(env, location, numInstructions, fuel - steps) == Walk(env, terminal.next, 1, fuel)
      {
        var instructionOpt := env.readCode(env.pc(location));
        if instructionOpt.None? {
          break;
        }
        var instruction := instructionOpt.value;
        var newBlock := env.translate(location, instruction);
        if newBlock.hasInstructions {
          break;
        }
        var newTerminal := newBlock.terminal;
        if newTerminal.Interpret? {
          if newTerminal.next != env.advancePC(location, AsInt(numInstructions * 4)) {
            break;
          }
          numInstructions := numInstructions + 1;
          location := newTerminal.next;
        } else {
          break;
        }
        steps := steps + 1;
      }
      assert Walk(env, location, numInstructions, fuel - steps) == Stop(numInstructions, location);
      terminal := terminal.(numInstructions := numInstructions);
      block.terminal := terminal;
      block.cycleCount := block.cycleCount + numInstructions - 1;
    }
  }
}

/**
 * The text form of an A64 location descriptor: "{pc, fpcr}", with ", step"
 * before the closing brace when the descriptor is single-stepping.
 */
module A64Location {
  import opened Ints
  import opened Decimal

  /** The accessors the rendering reads: PC(), FPCR().Value() and SingleStepping(). */
  datatype LocationDescriptor = LocationDescriptor(pc: u64, fpcr: u32, singleStepping: bool)

  function StepToken(d: LocationDescriptor): string { if d.singleStepping then ", step" else "" }

  /** What follows the PC: the separator, the FPCR value, the step marker and '}'. */
  function Tail(d: LocationDescriptor): string { ", " + ToDecimal(d.fpcr) + StepToken(d) + "}" }

  /**
   * A64::ToString. The string reserved beforehand is overwritten by the
   * assignment of "{", so the reservation has no effect on the result.
   */
  function ToString(d: LocationDescriptor): (s: string)
    ensures |s| >= 2 && s[0] == '{' && s[|s| - 1] == '}'
  {
    "{" + ToDecimal(d.pc) + Tail(d)
  }

  /** Without single-stepping the string is exactly "{" + dec(PC) + ", " + dec(FPCR) + "}". */
  lemma PlainForm(d: LocationDescriptor)
    requires !d.singleStepping
    ensures ToString(d) == "{" + ToDecimal(d.pc) + ", " + ToDecimal(d.fpcr) + "}"
  {
  }

  /** The string ends in ", step}" exactly when the descriptor is single-stepping. */
  lemma StepMarker(d: LocationDescriptor)
    ensures var s := ToString(d);
      d.singleStepping <==> |s| >= 7 && s[|s| - 7..] == ", step}"
  {
    var s := ToString(d);
    if !d.singleStepping {
      var f := ToDecimal(d.fpcr);
      PlainForm(d);
      assert s[|s| - 2] == f[|f| - 1];
      assert IsDigit(s[|s| - 2]);
    }
  }

  lemma TailInjective(x: LocationDescriptor, y: LocationDescriptor)
    requires Tail(x) == Tail(y)
    ensures x.fpcr == y.fpcr && x.singleStepping == y.singleStepping
  {
    assert Tail(x) == ", " + ToDecimal(x.fpcr) + (StepToken(x) + "}");
    assert Tail(y) == ", " + ToDecimal(y.fpcr) + (StepToken(y) + "}");
    PrefixedDigitRunSplit(", ", ToDecimal(x.fpcr), StepToken(x) + "}", ToDecimal(y.fpcr), StepToken(y) + "}");
    ToDecimalInjective(x.fpcr, y.fpcr);
  }

  /** Two descriptors render alike exactly when PC, FPCR and single-stepping agree. */
  lemma ToStringInjective(x: LocationDescriptor, y: LocationDescriptor)
    ensures ToString(x) == ToString(y) <==> x == y
  {
    if ToString(x) == ToString(y) {
      PrefixedDigitRunSplit("{", ToDecimal(x.pc), Tail(x), ToDecimal(y.pc), Tail(y));
      ToDecimalInjective(x.pc, y.pc);
      TailInjective(x, y);
    }
  }
}

/**
 * The text form of an A32 location descriptor: "{pc,T,E,fpscr}" with the
 * flags written as "T"/"!T" and "E"/"!E", and a step marker before the
 * closing brace when the descriptor is single-stepping. As written the marker
 * is a comma followed by ",step", so the text ends ",,step}".
 */
module A32Location {
  import opened Ints
  import opened Decimal

  /**
   * The accessors of an A32 location descriptor that its rendering reads:
   * PC(), TFlag(), EFlag(), FPSCR().Value() and SingleStepping().
   */
  datatype LocationDescriptor = LocationDescriptor(
    pc: u32, tFlag: bool, eFlag: bool, fpscr: u32, singleStepping: bool)

  /** kComma followed by kStepFlag, as the source appends them. */
  const StepAsWritten: string := "," + ",step"
  /** The single ",step" field the step flag constant holds. */
  const StepIntended: string := ",step"

  /** A step marker: it opens with the field separator and ends in a letter. */
  predicate IsMarker(m: string)
  {
    |m| >= 2 && m[0] == ',' && !IsDigit(m[|m| - 1])
  }

  function TToken(d: LocationDescriptor): string { if d.tFlag then "T" else "!T" }
  function EToken(d: LocationDescriptor): string { if d.eFlag then "E" else "!E" }
  function StepToken(d: LocationDescriptor, marker: string): string { if d.singleStepping then marker else "" }

  /** What follows the FPSCR separator: the FPSCR value, the step marker and '}'. */
  function Tail3(d: LocationDescriptor, marker: string): string { "," + ToDecimal(d.fpscr) + StepToken(d, marker) + "}" }
  /** What follows the first flag: the E token and the rest. */
  function Tail2(d: LocationDescriptor, marker: string): string { "," + EToken(d) + Tail3(d, marker) }
  /** What follows the PC: the T token and the rest. */
  function Tail1(d: LocationDescriptor, marker: string): string { "," + TToken(d) + Tail2(d, marker) }

  /** The appends of the source, in order, with the given step marker. */
  function Render(d: LocationDescriptor, marker: string): (s: string)
    ensures |s| >= 2 && s[0] == '{' && s[|s| - 1] == '}'
  {
    "{" + ToDecimal(d.pc) + Tail1(d, marker)
  }

  /** A32::ToString as written. */
  function ToString(d: LocationDescriptor): (s: string)
    ensures |s| >= 2 && s[0] == '{' && s[|s| - 1] == '}'
  {
    Render(d, StepAsWritten)
  }

  /** A32::ToString with the single step field its constant holds. */
  function ToStringIntended(d: LocationDescriptor): (s: string)
    ensures |s| >= 2 && s[0] == '{' && s[|s| - 1] == '}'
  {
    Render(d, StepIntended)
  }

  /** The i-th character from the end of the rendering is that of Tail3, for i up to its length. */
  lemma EndOfTail3(d: LocationDescriptor, marker: string, i: nat)
    requires 1 <= i <= |Tail3(d, marker)|
    ensures var s := Render(d, marker); |s| >= i && s[|s| - i] == Tail3(d, marker)[|Tail3(d, marker)| - i]
  {
    EndOfConcat("," + EToken(d), Tail3(d, marker), i);
    EndOfConcat("," + TToken(d), Tail2(d, marker), i);
    EndOfConcat("{" + ToDecimal(d.pc), Tail1(d, marker), i);
  }

  lemma EndOfConcat(a: string, b: string, i: nat)
    requires 1 <= i <= |b|
    ensures (a + b)[|a + b| - i] == b[|b| - i]
  {
  }

  lemma MarkerPresent(d: LocationDescriptor, marker: string)
    requires d.singleStepping
    ensures var s := Render(d, marker); var m := marker + "}";
      |s| >= |m| && s[|s| - |m|..] == m
  {
    var s := Render(d, marker);
    var m := marker + "}";
    assert Tail3(d, marker) == ("," + ToDecimal(d.fpscr)) + m;
    forall i | 0 <= i < |m|
      ensures s[|s| - |m| + i] == m[i]
    {
      EndOfTail3(d, marker, |m| - i);
    }
  }

  /** Without single-stepping the character before '}' is the last FPSCR digit. */
  lemma MarkerAbsent(d: LocationDescriptor, marker: string)
    requires !d.singleStepping
    ensures var s := Render(d, marker); IsDigit(s[|s| - 2])
  {
    var f := ToDecimal(d.fpscr);
    assert Tail3(d, marker) == ("," + f) + "}";
    EndOfTail3(d, marker, 2);
  }

  /** The rendering ends in the marker and '}' exactly when the descriptor is single-stepping. */
  lemma RenderStepMarker(d: LocationDescriptor, marker: string)
    requires IsMarker(marker)
    ensures var s := Render(d, marker); var m := marker + "}";
      d.singleStepping <==> |s| >= |m| && s[|s| - |m|..] == m
  {
    if d.singleStepping {
      MarkerPresent(d, marker);
    } else {
      MarkerAbsent(d, marker);
    }
  }

  /** As written, the text ends in ",,step}" exactly when the descriptor is single-stepping. */
  lemma StepMarker(d: LocationDescriptor)
    ensures var s := ToString(d);
      d.singleStepping <==> |s| >= 7 && s[|s| - 7..] == ",,step}"
  {
    assert IsMarker(StepAsWritten) && StepAsWritten + "}" == ",,step}";
    RenderStepMarker(d, StepAsWritten);
  }

  /** As written, a single-stepping descriptor gets an empty field before "step". */
  lemma StepFieldEmpty()
    ensures ToString(LocationDescriptor(0, true, true, 0, true)) == "{0,T,E,0,,step}"
    ensures ToStringIntended(LocationDescriptor(0, true, true, 0, true)) == "{0,T,E,0,step}"
  {
    var d := LocationDescriptor(0, true, true, 0, true);
    RenderStepping0(d, StepAsWritten);
    RenderStepping0(d, StepIntended);
  }

  lemma RenderStepping0(d: LocationDescriptor, marker: string)
    requires d == LocationDescriptor(0, true, true, 0, true)
    ensures Render(d, marker) == "{0,T,E,0" + marker + "}"
  {
    assert ToDecimal(0) == "0";
    assert Tail3(d, marker) == ",0" + marker + "}";
    assert Tail2(d, marker) == ",E" + (",0" + marker + "}");
  }

  /** Corrected, the text ends in ",step}" exactly when the descriptor is single-stepping. */
  lemma IntendedStepMarker(d: LocationDescriptor)
    ensures var s := ToStringIntended(d);
      d.singleStepping <==> |s| >= 6 && s[|s| - 6..] == ",step}"
  {
    assert IsMarker(StepIntended) && StepIntended + "}" == ",step}";
    RenderStepMarker(d, StepIntended);
  }

  lemma Tail3Injective(x: LocationDescriptor, y: LocationDescriptor, marker: string)
    requires IsMarker(marker)
    requires Tail3(x, marker) == Tail3(y, marker)
    ensures x.fpscr == y.fpscr && x.singleStepping == y.singleStepping
  {
    var rx := StepToken(x, marker) + "}";
    var ry := StepToken(y, marker) + "}";
    assert Tail3(x, marker) == "," + (ToDecimal(x.fpscr) + rx);
    assert Tail3(y, marker) == "," + (ToDecimal(y.fpscr) + ry);
    assert Tail3(x, marker)[1..] == ToDecimal(x.fpscr) + rx;
    assert Tail3(y, marker)[1..] == ToDecimal(y.fpscr) + ry;
    DigitRunSplit(ToDecimal(x.fpscr), rx, ToDecimal(y.fpscr), ry);
    ToDecimalInjective(x.fpscr, y.fpscr);
  }

  lemma Tail2Injective(x: LocationDescriptor, y: LocationDescriptor, marker: string)
    requires Tail2(x, marker) == Tail2(y, marker)
    ensures x.eFlag == y.eFlag && Tail3(x, marker) == Tail3(y, marker)
  {
    assert Tail2(x, marker)[1] == EToken(x)[0];
    assert Tail2(y, marker)[1] == EToken(y)[0];
    assert Tail2(x, marker)[1 + |EToken(x)|..] == Tail3(x, marker);
    assert Tail2(y, marker)[1 + |EToken(y)|..] == Tail3(y, marker);
  }

  lemma Tail1Injective(x: LocationDescriptor, y: LocationDescriptor, marker: string)
    requires Tail1(x, marker) == Tail1(y, marker)
    ensures x.tFlag == y.tFlag && Tail2(x, marker) == Tail2(y, marker)
  {
    assert Tail1(x, marker)[1] == TToken(x)[0];
    assert Tail1(y, marker)[1] == TToken(y)[0];
    assert Tail1(x, marker)[1 + |TToken(x)|..] == Tail2(x, marker);
    assert Tail1(y, marker)[1 + |TToken(y)|..] == Tail2(y, marker);
  }

  lemma PcInjective(x: LocationDescriptor, y: LocationDescriptor, marker: string)
    requires Render(x, marker) == Render(y, marker)
    ensures x.pc == y.pc && Tail1(x, marker) == Tail1(y, marker)
  {
    PrefixedDigitRunSplit("{", ToDecimal(x.pc), Tail1(x, marker), ToDecimal(y.pc), Tail1(y, marker));
    ToDecimalInjective(x.pc, y.pc);
  }

  /** With any marker, two descriptors render alike exactly when all five fields agree. */
  lemma RenderInjective(x: LocationDescriptor, y: LocationDescriptor, marker: string)
    requires IsMarker(marker)
    ensures Render(x, marker) == Render(y, marker) <==> x == y
  {
    if Render(x, marker) == Render(y, marker) {
      PcInjective(x, y, marker);
      Tail1Injective(x, y, marker);
      Tail2Injective(x, y, marker);
      Tail3Injective(x, y, marker);
    }
  }

  /** Two descriptors render alike (as written) exactly when all five fields agree. */
  lemma ToStringInjective(x: LocationDescriptor, y: LocationDescriptor)
    ensures ToString(x) == ToString(y) <==> x == y
  {
    RenderInjective(x, y, StepAsWritten);
  }

  /** The corrected rendering is injective too. */
  lemma IntendedInjective(x: LocationDescriptor, y: LocationDescriptor)
    ensures ToStringIntended(x) == ToStringIntended(y) <==> x == y
  {
    RenderInjective(x, y, StepIntended);
  }
}

module A32JitState {
  import opened Ints
  import opened Sse
  import A64JitState
  import opened A32Bits

  class JitState {
    var cpsrNzcv: bv32
    var cpsrQ: bv32
    var cpsrGe: bv32
    var cpsrJaifm: bv32
    var upperLocationDescriptor: bv32
    var fpsrNzcv: bv32
    var fpsrQc: bv32
    var fpsrExc: bv32
    var guestMXCSR: bv32
    var asimdMXCSR: bv32
    const rsbLocationDescriptors: array<u64>
    const rsbCodeptrs: array<u64>

    /** The two return stack buffer arrays are distinct. */
    predicate Valid()
      reads this
    {
      rsbLocationDescriptors != rsbCodeptrs
    }

    /** A state with every field zero and RSBs of `rsbSize` entries; the header's initial values are not part of this model. */
    constructor(rsbSize: nat)
      ensures Valid()
      ensures rsbLocationDescriptors.Length == rsbSize && rsbCodeptrs.Length == rsbSize
      ensures fresh(rsbLocationDescriptors) && fresh(rsbCodeptrs)
      ensures cpsrNzcv == 0 && cpsrQ == 0 && cpsrGe == 0 && cpsrJaifm == 0 && upperLocationDescriptor == 0
      ensures fpsrNzcv == 0 && fpsrQc == 0 && fpsrExc == 0 && guestMXCSR == 0 && asimdMXCSR == 0
    {
      cpsrNzcv, cpsrQ, cpsrGe, cpsrJaifm, upperLocationDescriptor := 0, 0, 0, 0, 0;
      fpsrNzcv, fpsrQc, fpsrExc, guestMXCSR, asimdMXCSR := 0, 0, 0, 0, 0;
      rsbLocationDescriptors := new u64[rsbSize];
      rsbCodeptrs := new u64[rsbSize];
    }

    /** The two debug assertions at the head of Cpsr(). */
    predicate CpsrAsserts()
      reads this
    {
      cpsrQ & !1 == 0 && cpsrJaifm & !JaifmMask == 0
    }

    /**
     * Cpsr(), with NZCV::FromX64 as a parameter. Q, E, GE1-GE3 and the IT
     * state are never read back: those bits of the result are those of
     * FromX64 alone.
     */
    function Cpsr(fromX64: bv32 -> bv32): (r: bv32)
      reads this
      requires CpsrAsserts()
      ensures r & CpsrOtherLaneBits == fromX64(cpsrNzcv) & CpsrOtherLaneBits
    {
      CpsrLane0OtherBits(fromX64(cpsrNzcv), cpsrQ, cpsrGe, upperLocationDescriptor, cpsrJaifm);
      CpsrLane0(fromX64(cpsrNzcv), cpsrQ, cpsrGe, upperLocationDescriptor, cpsrJaifm)
    }

    /** Cpsr() with every lane ORed in and Q shifted into place. */
    function CpsrCorrected(fromX64: bv32 -> bv32): bv32
      reads this
      requires CpsrAsserts()
    {
      CpsrAllLanes(fromX64(cpsrNzcv), cpsrQ, cpsrGe, upperLocationDescriptor, cpsrJaifm)
    }

    /**
     * SetCpsr, with NZCV::ToX64 as a parameter. It leaves cpsr_q in {0, 1}
     * and cpsr_jaifm within its mask, so Cpsr()'s assertions hold after it.
     */
    method SetCpsr(cpsr: bv32, toX64: bv32 -> bv32)
      modifies this`cpsrNzcv, this`cpsrQ, this`cpsrGe, this`upperLocationDescriptor, this`cpsrJaifm
      ensures cpsrNzcv == toX64(cpsr) && cpsrQ == (cpsr >> 27) & 1
      ensures cpsrGe == GeAsWritten(cpsr) && cpsrJaifm == cpsr & JaifmMask
      ensures upperLocationDescriptor == UldAsWritten(old(upperLocationDescriptor), cpsr)
      ensures CpsrAsserts()
    {
      cpsrNzcv := toX64(cpsr);
      cpsrQ := QFlagLane0(cpsr);
      cpsrGe := GeLane0(cpsr);
      var uld := upperLocationDescriptor & 0xFFFF_0000;
      var t := TFlagLane0(cpsr);
      uld := uld | t;
      var e := EFlagLane0(cpsr);
      uld := uld | e;
      var itHigh := ItHighLane0(cpsr);
      uld := uld | itHigh;
      var itLow := ItLowLane0(cpsr);
      uld := uld | itLow;
      upperLocationDescriptor := uld;
      cpsrJaifm := cpsr & JaifmMask;
    }

    /** SetCpsr as its comments intend: GE as byte masks, E from bit 9, IT[1:0] from bits 25-26. */
    method SetCpsrCorrected(cpsr: bv32, toX64: bv32 -> bv32)
      modifies this`cpsrNzcv, this`cpsrQ, this`cpsrGe, this`upperLocationDescriptor, this`cpsrJaifm
      ensures cpsrNzcv == toX64(cpsr) && cpsrQ == (cpsr >> 27) & 1
      ensures cpsrGe == GeBytes(cpsr) && cpsrJaifm == cpsr & JaifmMask
      ensures upperLocationDescriptor == UldIntended(old(upperLocationDescriptor), cpsr)
      ensures CpsrAsserts()
    {
      cpsrNzcv := toX64(cpsr);
      cpsrQ := (cpsr >> 27) & 1;
      cpsrGe := GeBytes(cpsr);
      var uld := upperLocationDescriptor & 0xFFFF_0000;
      uld := uld | ((cpsr >> 5) & 1);
      uld := uld | ((cpsr >> 8) & 2);
      uld := uld | (cpsr & 0xFC00);
      uld := uld | ((cpsr >> 17) & 0x300);
      upperLocationDescriptor := uld;
      cpsrJaifm := cpsr & JaifmMask;
    }

    /** ResetRSB: every RSB location descriptor becomes all ones and every code pointer 0. */
    method ResetRSB()
      requires Valid()
      modifies rsbLocationDescriptors, rsbCodeptrs
      ensures forall i :: 0 <= i < rsbLocationDescriptors.Length ==> rsbLocationDescriptors[i] == 0xFFFF_FFFF_FFFF_FFFF
      ensures forall i :: 0 <= i < rsbCodeptrs.Length ==> rsbCodeptrs[i] == 0
    {
      var i := 0;
      while i < rsbLocationDescriptors.Length
        invariant 0 <= i <= rsbLocationDescriptors.Length
        invariant forall j :: 0 <= j < i ==> rsbLocationDescriptors[j] == 0xFFFF_FFFF_FFFF_FFFF
      {
        rsbLocationDescriptors[i] := 0xFFFF_FFFF_FFFF_FFFF;
        i := i + 1;
      }
      i := 0;
      while i < rsbCodeptrs.Length
        invariant 0 <= i <= rsbCodeptrs.Length
        invariant forall j :: 0 <= j < i ==> rsbCodeptrs[j] == 0
        invariant forall j :: 0 <= j < rsbLocationDescriptors.Length ==> rsbLocationDescriptors[j] == 0xFFFF_FFFF_FFFF_FFFF
      {
        rsbCodeptrs[i] := 0;
        i := i + 1;
      }
    }

    /** The debug assertion at the head of Fpscr(). */
    predicate FpscrAsserts()
      reads this
    {
      fpsrNzcv & !FpscrNzcvMask == 0
    }

    /** Fpscr(), with FPSCR_MODE_MASK as a parameter; the MXCSR flags are those of either MXCSR. */
    function Fpscr(modeMask: bv32): bv32
      reads this
      requires FpscrAsserts()
    {
      FpscrOf(upperLocationDescriptor, modeMask, fpsrNzcv, guestMXCSR | asimdMXCSR, fpsrExc, fpsrQc)
    }

    /**
     * SetFpscr, with FPSCR_MODE_MASK as a parameter confined, as the source's
     * static_assert demands, to the upper half. The rounding-mode and
     * flush-to-zero ORs into the guest MXCSR are overwritten by the plain
     * assignments that follow them, so both MXCSRs end at fixed values.
     */
    method SetFpscr(fpscr: bv32, modeMask: bv32)
      requires modeMask & 0xFFFF_0000 == modeMask
      modifies this`upperLocationDescriptor, this`fpsrNzcv, this`fpsrQc, this`fpsrExc, this`guestMXCSR, this`asimdMXCSR
      ensures upperLocationDescriptor == (old(upperLocationDescriptor) & 0xFFFF) | (fpscr & modeMask)
      ensures fpsrNzcv == fpscr & FpscrNzcvMask && fpsrQc == (fpscr >> 27) & 1 && fpsrExc == fpscr & 0x9F
      ensures guestMXCSR == 0x1F80 && asimdMXCSR == 0x9FC0
      ensures FpscrAsserts() && Fpscr(modeMask) == fpscr & (modeMask | 0xF800_009F)
    {
      var oldUld := upperLocationDescriptor;
      var uld, nzcv, qc, guest, asimd, exc := SetFpscrLanes(upperLocationDescriptor, guestMXCSR, fpscr, modeMask);
      upperLocationDescriptor, fpsrNzcv, fpsrQc := uld, nzcv, qc;
      guestMXCSR, asimdMXCSR, fpsrExc := guest, asimd, exc;
      ModeBitsKept(oldUld, fpscr, modeMask);
      FpscrRoundTrip(upperLocationDescriptor, modeMask, fpsrNzcv, guestMXCSR | asimdMXCSR, fpsrExc, fpsrQc, fpscr);
    }

    /**
     * SetFpscr with only the MXCSR reset moved ahead of the mode ORs. The
     * rounding-mode OR still takes lane 0 of vRMode & vMXCSR_RMode, which is
     * always 0, so FZ and DAZ reach the guest MXCSR and FPSCR.RMode does not.
     */
    method SetFpscrResetFirst(fpscr: bv32, modeMask: bv32)
      requires modeMask & 0xFFFF_0000 == modeMask
      modifies this`upperLocationDescriptor, this`fpsrNzcv, this`fpsrQc, this`fpsrExc, this`guestMXCSR, this`asimdMXCSR
      ensures upperLocationDescriptor == (old(upperLocationDescriptor) & 0xFFFF) | (fpscr & modeMask)
      ensures fpsrNzcv == fpscr & FpscrNzcvMask && fpsrQc == (fpscr >> 27) & 1 && fpsrExc == fpscr & 0x9F
      ensures guestMXCSR == A64JitState.GuestMxcsrAfterSetFpcr(0, fpscr)
      ensures asimdMXCSR == 0x9FC0
    {
      var uld := upperLocationDescriptor & 0xFFFF;
      uld := uld | (fpscr & modeMask);
      var qc := QFlagLane0(fpscr);
      var guest: bv32 := 0x1F80;
      var rmode := A64JitState.RModeLane0(fpscr);
      guest := guest | rmode;
      var flushToZero := A64JitState.FlushToZeroLane0(fpscr);
      if flushToZero != 0 {
        guest := guest | 0x8000 | 0x40;
      }
      upperLocationDescriptor, fpsrNzcv, fpsrQc := uld, fpscr & FpscrNzcvMask, qc;
      guestMXCSR, asimdMXCSR, fpsrExc := guest, 0x9FC0, fpscr & 0x9F;
    }

    /**
     * SetFpscr with the MXCSRs reset first and the rounding mode (read from
     * the table at lane RMode) and flush-to-zero ORed in afterwards.
     */
    method SetFpscrWithModes(fpscr: bv32, modeMask: bv32)
      requires modeMask & 0xFFFF_0000 == modeMask
      modifies this`upperLocationDescriptor, this`fpsrNzcv, this`fpsrQc, this`fpsrExc, this`guestMXCSR, this`asimdMXCSR
      ensures upperLocationDescriptor == (old(upperLocationDescriptor) & 0xFFFF) | (fpscr & modeMask)
      ensures fpsrNzcv == fpscr & FpscrNzcvMask && fpsrQc == (fpscr >> 27) & 1 && fpsrExc == fpscr & 0x9F
      ensures guestMXCSR == A64JitState.GuestMxcsrAfterSetFpcr(0, fpscr) | A64JitState.RModeBits(fpscr)
      ensures asimdMXCSR == 0x9FC0
    {
      var uld := upperLocationDescriptor & 0xFFFF;
      uld := uld | (fpscr & modeMask);
      var qc := QFlagLane0(fpscr);
      var guest: bv32 := 0x1F80;
      var rmode := A64JitState.RModeTableLane(fpscr);
      guest := guest | rmode;
      var flushToZero := A64JitState.FlushToZeroLane0(fpscr);
      if flushToZero != 0 {
        guest := guest | 0x8000 | 0x40;
      }
      A64JitState.OrsCommute(0, rmode, flushToZero != 0);
      upperLocationDescriptor, fpsrNzcv, fpsrQc := uld, fpscr & FpscrNzcvMask, qc;
      guestMXCSR, asimdMXCSR, fpsrExc := guest, 0x9FC0, fpscr & 0x9F;
    }
  }

}

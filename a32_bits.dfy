/**
 * The A32 guest CPSR and FPSCR as the x64 backend keeps them: CPSR split
 * into NZCV (in the host's flag layout), Q, GE (one byte per flag), the
 * J/A/I/F/M bits, and the T, E and IT bits held in the low half of the upper
 * location descriptor; FPSCR split into its mode bits (the upper half of the
 * upper location descriptor), NZCV, QC, the cumulative exception bits and
 * the two host MXCSR words. Only the integer bit layout is modelled.
 *
 * NZCV::ToX64 and NZCV::FromX64 are parameters, and so is
 * A32::LocationDescriptor::FPSCR_MODE_MASK, which lives in a header that is
 * not part of this model.
 */
module A32Bits {
  import opened Ints
  import opened Sse
  import A64JitState

  const JaifmMask: bv32 := 0x0100_01DF
  const FpscrNzcvMask: bv32 := 0xF000_0000

  /** The CPSR bits the backend keeps somewhere: all but bits 20-23. */
  const CpsrKeptBits: bv32 := 0xFF0F_FFFF

  /** The CPSR bits Cpsr() builds outside lane 0: Q (27), IT (25-26, 10-15), GE1-GE3 (17-19) and E (9). */
  const CpsrOtherLaneBits: bv32 := 0x0E0E_FE00

  /**
   * What Cpsr() returns, as written. Of vCPSR only lane 0 is returned: NZCV,
   * cpsr_q & (1 << 27) (which is 0, cpsr_q being 0 or 1), GE0 from bit 7 of
   * cpsr_ge, T from bit 0 of the upper location descriptor, and the
   * J/A/I/F/M bits. GE1-GE3 and E are in lanes 1-3, and the IT state in
   * lanes 1 and 2, which _mm_cvtsi128_si32 does not return.
   */
  function CpsrLane0(nzcv: bv32, q: bv32, ge: bv32, uld: bv32, jaifm: bv32): bv32
  {
    nzcv | (q & 0x0800_0000) | (if ge & 0x80 != 0 then 0x1_0000 else 0)
      | (if uld & 1 != 0 then 0x20 else 0) | jaifm
  }

  /** What Cpsr() evidently intends: the OR of all four lanes, with Q shifted to bit 27. */
  function CpsrAllLanes(nzcv: bv32, q: bv32, ge: bv32, uld: bv32, jaifm: bv32): bv32
  {
    nzcv | (q << 27) | GeFlags(ge) | EtFlags(uld) | ItState(uld) | jaifm
  }

  /** GE0-GE3 at bits 16-19, from the top bit of each byte of cpsr_ge (bits 7, 15, 23, 31). */
  function GeFlags(ge: bv32): bv32
  {
    (if ge & 0x8000_0000 != 0 then 0x8_0000 else 0)
      | (if ge & 0x80_0000 != 0 then 0x4_0000 else 0)
      | (if ge & 0x8000 != 0 then 0x2_0000 else 0)
      | (if ge & 0x80 != 0 then 0x1_0000 else 0)
  }

  /** E at bit 9 and T at bit 5, from bits 1 and 0 of the upper location descriptor. */
  function EtFlags(uld: bv32): bv32
  {
    (if uld & 2 != 0 then 0x200 else 0) | (if uld & 1 != 0 then 0x20 else 0)
  }

  /** IT[1:0] at bits 25-26 from bits 8-9, and IT[7:2] at bits 10-15 in place. */
  function ItState(uld: bv32): bv32
  {
    ((uld & 0x300) << 17) | (uld & 0xFC00)
  }

  /** cpsr_ge as SetCpsr writes it: byte i holds CPSR bits 16+i to 23+i. */
  function GeAsWritten(cpsr: bv32): bv32
  {
    ((cpsr >> 16) & 0xFF) | (((cpsr >> 17) & 0xFF) << 8)
      | (((cpsr >> 18) & 0xFF) << 16) | (((cpsr >> 19) & 0xFF) << 24)
  }

  /** cpsr_ge in the layout Cpsr() reads: byte i all ones exactly when GE i (CPSR bit 16+i) is set. */
  function GeBytes(cpsr: bv32): bv32
  {
    (if cpsr & 0x1_0000 != 0 then 0xFF else 0)
      | (if cpsr & 0x2_0000 != 0 then 0xFF00 else 0)
      | (if cpsr & 0x4_0000 != 0 then 0xFF_0000 else 0)
      | (if cpsr & 0x8_0000 != 0 then 0xFF00_0000 else 0)
  }

  /**
   * The upper location descriptor as SetCpsr writes it: the upper half kept,
   * bit 0 from CPSR bit 5 (T), bit 1 from CPSR bit 10, bits 10-15 from
   * IT[7:2] in place, and IT[1:0] shifted to bits 25-26 and then masked with
   * 0xFF00, which keeps nothing.
   */
  function UldAsWritten(uld: bv32, cpsr: bv32): bv32
  {
    (uld & 0xFFFF_0000) | ((cpsr >> 5) & 1) | ((cpsr >> 9) & 2) | (cpsr & 0xFC00)
      | (((cpsr & 0x300) << 17) & 0xFF00)
  }

  /** The upper location descriptor SetCpsr evidently intends: E (bit 9) as bit 1, IT[1:0] (bits 25-26) as bits 8-9. */
  function UldIntended(uld: bv32, cpsr: bv32): bv32
  {
    (uld & 0xFFFF_0000) | ((cpsr >> 5) & 1) | ((cpsr >> 8) & 2) | (cpsr & 0xFC00) | ((cpsr >> 17) & 0x300)
  }

  /**
   * What Fpscr() returns from the fields it reads: the mode bits, NZCV, IOC
   * from IE, IXC/UFC/OFC/DZC from PE/UE/OE/ZE one bit lower, the stored
   * cumulative bits, and QC at bit 27.
   */
  function FpscrOf(uld: bv32, modeMask: bv32, nzcv: bv32, mxcsr: bv32, exc: bv32, qc: bv32): bv32
  {
    (uld & modeMask) | nzcv | ExceptionBitsLane0(mxcsr) | exc | QcWord(qc)
  }

  /** FPSCR.QC, bit 27, set when the stored QC word is nonzero. */
  function QcWord(qc: bv32): bv32
  {
    if qc != 0 then 0x0800_0000 else 0
  }

  /** Lane 0 of (vCPSR >> 27) & 1: the Q flag. */
  method QFlagLane0(cpsr: bv32) returns (r: bv32)
    ensures r == (cpsr >> 27) & 1
  {
    var vCPSR := SetEpi32(0, 0, 0, cpsr);
    r := Cvtsi128Si32(And(Srli(vCPSR, 27), Set1Epi32(1)));
  }

  /** Lane 0 of SetCpsr's vGEFlags: four byte windows of the CPSR. */
  method GeLane0(cpsr: bv32) returns (r: bv32)
    ensures r == GeAsWritten(cpsr)
  {
    var vCPSR := SetEpi32(0, 0, 0, cpsr);
    var b0 := And(Srli(vCPSR, 16), Set1Epi32(0xFF));
    var b1 := Slli(And(Srli(vCPSR, 17), Set1Epi32(0xFF)), 8);
    var b2 := Slli(And(Srli(vCPSR, 18), Set1Epi32(0xFF)), 16);
    var b3 := Slli(And(Srli(vCPSR, 19), Set1Epi32(0xFF)), 24);
    var vGEFlags := Or(Or(Or(b0, b1), b2), b3);
    r := Cvtsi128Si32(vGEFlags);
  }

  /** Lane 0 of (vCPSR >> 5) & 1: the T flag. */
  method TFlagLane0(cpsr: bv32) returns (r: bv32)
    ensures r == (cpsr >> 5) & 1
  {
    var vCPSR := SetEpi32(0, 0, 0, cpsr);
    r := Cvtsi128Si32(And(Srli(vCPSR, 5), Set1Epi32(1)));
  }

  /** Lane 0 of (vCPSR >> 9) & 2: CPSR bit 10, stored where E belongs. */
  method EFlagLane0(cpsr: bv32) returns (r: bv32)
    ensures r == (cpsr >> 9) & 2
  {
    var vCPSR := SetEpi32(0, 0, 0, cpsr);
    r := Cvtsi128Si32(And(Srli(vCPSR, 9), Set1Epi32(2)));
  }

  /** Lane 0 of vCPSR & 0xFC00: IT[7:2]. */
  method ItHighLane0(cpsr: bv32) returns (r: bv32)
    ensures r == cpsr & 0xFC00
  {
    var vCPSR := SetEpi32(0, 0, 0, cpsr);
    r := Cvtsi128Si32(And(vCPSR, Set1Epi32(0xFC00)));
  }

  /** IOC and IXC/UFC/OFC/DZC from the MXCSR exception flags, as lanes 0 of vIOC and vIXCUFCOFCDZC >> 1. */
  function ExceptionBitsLane0(mxcsr: bv32): (r: bv32)
    ensures r == (mxcsr & 1) | ((mxcsr & 0x3C) >> 1)
  {
    var vMXCSR := SetEpi32(0, 0, 0, mxcsr);
    var vIOC := And(Set1Epi32(1), vMXCSR);
    var vIXCUFCOFCDZC := And(Set1Epi32(0x3C), vMXCSR);
    Cvtsi128Si32(vIOC) | Cvtsi128Si32(Srli(vIXCUFCOFCDZC, 1))
  }

  /**
   * The values SetFpscr stores, computed in the order it computes them:
   * the upper location descriptor with its upper half from the mode bits,
   * NZCV, QC from bit 27, the guest MXCSR after the rounding-mode and
   * flush-to-zero ORs and then after the plain assignment that overwrites
   * them, the ASIMD MXCSR, and the cumulative exception bits.
   */
  method SetFpscrLanes(uld0: bv32, guest0: bv32, fpscr: bv32, modeMask: bv32)
      returns (uld: bv32, nzcv: bv32, qc: bv32, guest: bv32, asimd: bv32, exc: bv32)
    requires modeMask & 0xFFFF_0000 == modeMask
    ensures uld == (uld0 & 0xFFFF) | (fpscr & modeMask)
    ensures nzcv == fpscr & FpscrNzcvMask && qc == (fpscr >> 27) & 1 && exc == fpscr & 0x9F
    ensures guest == 0x1F80 && asimd == 0x9FC0
  {
    uld := uld0 & 0xFFFF;
    uld := uld | (fpscr & modeMask);
    nzcv := fpscr & FpscrNzcvMask;
    qc := QFlagLane0(fpscr);
    guest := guest0;
    var rmode := A64JitState.RModeLane0(fpscr);
    guest := guest | rmode;
    var flushToZero := A64JitState.FlushToZeroLane0(fpscr);
    if flushToZero != 0 {
      guest := guest | 0x8000;  // FZ
      guest := guest | 0x40;    // DAZ
    }
    guest := 0x1F80;
    asimd := 0x9FC0;
    exc := fpscr & 0x9F;
  }

  /** Lane 0 of ((vCPSR & 0x300) << 17) & 0xFF00, which is always 0. */
  method ItLowLane0(cpsr: bv32) returns (r: bv32)
    ensures r == 0
  {
    var vCPSR := SetEpi32(0, 0, 0, cpsr);
    r := Cvtsi128Si32(And(Slli(And(vCPSR, Set1Epi32(0x300)), 17), Set1Epi32(0xFF00)));
  }

  /**
   * With Cpsr()'s assertions holding, the bits Cpsr() builds outside lane 0
   * are never set by lane 0 itself: they are whatever FromX64 put there.
   */
  lemma CpsrLane0OtherBits(nzcv: bv32, q: bv32, ge: bv32, uld: bv32, jaifm: bv32)
    requires q & !1 == 0 && jaifm & !JaifmMask == 0
    ensures CpsrLane0(nzcv, q, ge, uld, jaifm) & CpsrOtherLaneBits == nzcv & CpsrOtherLaneBits
  {
    if ge & 0x80 != 0 {
      if uld & 1 != 0 {
      } else {
      }
    } else {
      if uld & 1 != 0 {
      } else {
      }
    }
  }

  /**
   * SetCpsr then Cpsr(), as written, where FromX64 undoes ToX64 on NZCV: only
   * NZCV, J, A, I, F, T and M come back, and CPSR bit 23 is read back as GE0.
   */
  lemma CpsrRoundTripAsWritten(cpsr: bv32, uld: bv32, nzcv: bv32)
    requires nzcv == cpsr & 0xF000_0000
    ensures CpsrLane0(nzcv, (cpsr >> 27) & 1, GeAsWritten(cpsr), UldAsWritten(uld, cpsr), cpsr & JaifmMask)
      == (cpsr & 0xF100_01FF) | ((cpsr >> 7) & 0x1_0000)
  {
    var ge := GeAsWritten(cpsr);
    assert ge & 0x80 == (cpsr >> 16) & 0x80;
    var u := UldAsWritten(uld, cpsr);
    assert u & 1 == (cpsr >> 5) & 1;
    if cpsr & 0x80_0000 != 0 {
      if cpsr & 0x20 != 0 {
      } else {
      }
    } else {
      if cpsr & 0x20 != 0 {
      } else {
      }
    }
  }

  /** The Q flag set by SetCpsr(0x0800_0000) is read back clear by the as-written Cpsr(). */
  lemma CpsrLosesQ()
    ensures (0x0800_0000 >> 27) & 1 == 1 as bv32
    ensures CpsrLane0(0, 1, 0, 0, 0) & 0x0800_0000 == 0
    ensures CpsrAllLanes(0, 1, 0, 0, 0) & 0x0800_0000 != 0
  {
  }

  /** E and IT[7:2] stored in the upper location descriptor are read back clear by the as-written Cpsr(). */
  lemma CpsrLosesOtherLanes()
    ensures CpsrLane0(0, 0, 0, 0x2 | 0xFC00, 0) == 0
    ensures CpsrAllLanes(0, 0, 0, 0x2 | 0xFC00, 0) == 0x200 | 0xFC00
  {
  }

  /** The as-written SetCpsr stores E from CPSR bit 10 instead of bit 9, and drops IT[1:0]. */
  lemma SetCpsrMisplacesEAndIt()
    ensures UldAsWritten(0, 0x200) & 2 == 0 && UldAsWritten(0, 0x400) & 2 == 2
    ensures UldAsWritten(0, 0x0600_0000) == 0
    ensures UldIntended(0, 0x200) & 2 == 2 && UldIntended(0, 0x0600_0000) == 0x300
  {
  }

  /** The as-written SetCpsr makes GE0 of cpsr_ge follow CPSR bit 23 instead of bit 16. */
  lemma SetCpsrMisplacesGe()
    ensures GeFlags(GeAsWritten(0x1_0000)) & 0x1_0000 == 0
    ensures GeFlags(GeAsWritten(0x80_0000)) & 0x1_0000 != 0
  {
  }

  /** GE bytes written by the corrected SetCpsr read back as the GE flags. */
  lemma GeRoundTrip(cpsr: bv32)
    ensures GeFlags(GeBytes(cpsr)) == cpsr & 0xF_0000
  {
    if cpsr & 0x1_0000 != 0 {
      GeRoundTripUpper(cpsr);
    } else {
      GeRoundTripUpper(cpsr);
    }
  }

  lemma GeRoundTripUpper(cpsr: bv32)
    ensures GeFlags(GeBytes(cpsr)) & 0xE_0000 == cpsr & 0xE_0000
  {
    if cpsr & 0x2_0000 != 0 {
      if cpsr & 0x4_0000 != 0 {
        if cpsr & 0x8_0000 != 0 { } else { }
      } else {
        if cpsr & 0x8_0000 != 0 { } else { }
      }
    } else {
      if cpsr & 0x4_0000 != 0 {
        if cpsr & 0x8_0000 != 0 { } else { }
      } else {
        if cpsr & 0x8_0000 != 0 { } else { }
      }
    }
  }

  /** E, T and the IT state written by the corrected SetCpsr read back in place. */
  lemma EtItRoundTrip(uld: bv32, cpsr: bv32)
    ensures EtFlags(UldIntended(uld, cpsr)) == cpsr & 0x220
    ensures ItState(UldIntended(uld, cpsr)) == cpsr & 0x0600_FC00
  {
    var u := UldIntended(uld, cpsr);
    assert u & 1 == (cpsr >> 5) & 1 && u & 2 == (cpsr >> 8) & 2;
    if cpsr & 0x200 != 0 {
      if cpsr & 0x20 != 0 { } else { }
    } else {
      if cpsr & 0x20 != 0 { } else { }
    }
  }

  /**
   * SetCpsr then Cpsr(), both corrected, where FromX64 undoes ToX64 on NZCV:
   * every CPSR bit the backend keeps comes back.
   */
  lemma CpsrRoundTrip(cpsr: bv32, uld: bv32, nzcv: bv32)
    requires nzcv == cpsr & 0xF000_0000
    ensures CpsrAllLanes(nzcv, (cpsr >> 27) & 1, GeBytes(cpsr), UldIntended(uld, cpsr), cpsr & JaifmMask)
      == cpsr & CpsrKeptBits
  {
    GeRoundTrip(cpsr);
    EtItRoundTrip(uld, cpsr);
    var q := ((cpsr >> 27) & 1) << 27;
    assert q == cpsr & 0x0800_0000;
    OrOfMasks(cpsr, nzcv, q, GeFlags(GeBytes(cpsr)), EtFlags(UldIntended(uld, cpsr)),
      ItState(UldIntended(uld, cpsr)), cpsr & JaifmMask);
  }

  lemma OrOfMasks(cpsr: bv32, nzcv: bv32, q: bv32, ge: bv32, et: bv32, it: bv32, jaifm: bv32)
    requires nzcv == cpsr & 0xF000_0000 && q == cpsr & 0x0800_0000 && ge == cpsr & 0xF_0000
    requires et == cpsr & 0x220 && it == cpsr & 0x0600_FC00 && jaifm == cpsr & JaifmMask
    ensures nzcv | q | ge | et | it | jaifm == cpsr & CpsrKeptBits
  {
  }

  /**
   * FPSCR read back from fields as SetFpscr leaves them (mode bits of the
   * value, its NZCV, QC and cumulative bits, and MXCSRs with no exception
   * flag set) is the value restricted to those bits.
   */
  lemma FpscrRoundTrip(uld: bv32, modeMask: bv32, nzcv: bv32, mxcsr: bv32, exc: bv32, qc: bv32, fpscr: bv32)
    requires modeMask & 0xFFFF_0000 == modeMask
    requires uld & modeMask == fpscr & modeMask && nzcv == fpscr & FpscrNzcvMask
    requires mxcsr & 0x3D == 0 && exc == fpscr & 0x9F && qc == (fpscr >> 27) & 1
    ensures FpscrOf(uld, modeMask, nzcv, mxcsr, exc, qc) == fpscr & (modeMask | 0xF800_009F)
  {
    NoExceptionFlags(mxcsr);
    FpscrFieldsJoin(fpscr, modeMask);
    QcBit(fpscr);
  }

  lemma NoExceptionFlags(mxcsr: bv32)
    requires mxcsr & 0x3D == 0
    ensures ExceptionBitsLane0(mxcsr) == 0
  {
  }

  lemma FpscrFieldsJoin(fpscr: bv32, modeMask: bv32)
    requires modeMask & 0xFFFF_0000 == modeMask
    ensures (fpscr & modeMask) | (fpscr & FpscrNzcvMask) | 0 | (fpscr & 0x9F) | (fpscr & 0x0800_0000)
      == fpscr & (modeMask | 0xF800_009F)
  {
  }

  lemma ModeBitsKept(uld: bv32, fpscr: bv32, modeMask: bv32)
    requires modeMask & 0xFFFF_0000 == modeMask
    ensures ((uld & 0xFFFF) | (fpscr & modeMask)) & modeMask == fpscr & modeMask
  {
  }

  lemma QcBit(fpscr: bv32)
    ensures QcWord((fpscr >> 27) & 1) == fpscr & 0x0800_0000
  {
    if (fpscr >> 27) & 1 != 0 {
    } else {
    }
  }

  /**
   * The as-written SetFpscr leaves the guest MXCSR at 0x1F80 whatever FPSCR
   * asks for: rounding to nearest and no flush-to-zero, even for FPSCR =
   * 0x0140_0000 (towards +infinity, FZ set).
   */
  lemma SetFpscrDropsModes()
    ensures A64JitState.FpcrRounding(0x0140_0000) == A64JitState.TowardPlusInfinity
    ensures (0x0140_0000 as bv32 >> 24) & 1 == 1
    ensures A64JitState.MxcsrRounding(0x1F80) == A64JitState.ToNearest && 0x1F80 as bv32 & 0x8040 == 0
  {
  }

  /**
   * With only the reset moved ahead, the guest MXCSR gets FZ and DAZ exactly
   * when FPSCR.FZ is set but always rounds to nearest, since the rounding
   * OR reads lane 0 of the table; FPSCR 0x00400000 asks for rounding
   * towards +infinity.
   */
  lemma SetFpscrResetFirstDropsRMode(fpscr: bv32)
    ensures var guest := A64JitState.GuestMxcsrAfterSetFpcr(0, fpscr);
      A64JitState.MxcsrRounding(guest) == A64JitState.ToNearest &&
      (guest & 0x8040 == 0x8040 <==> (fpscr >> 24) & 1 == 1)
    ensures A64JitState.FpcrRounding(0x0040_0000) == A64JitState.TowardPlusInfinity
  {
    if (fpscr >> 24) & 1 == 1 {
    } else {
    }
  }

  /** The corrected SetFpscr carries FPSCR.RMode into the guest MXCSR, and FZ into its FZ and DAZ bits. */
  lemma SetFpscrWithModesCarries(fpscr: bv32)
    ensures var guest := A64JitState.GuestMxcsrAfterSetFpcr(0, fpscr) | A64JitState.RModeBits(fpscr);
      A64JitState.MxcsrRounding(guest) == A64JitState.FpcrRounding(fpscr) &&
      (guest & 0x8040 == 0x8040 <==> (fpscr >> 24) & 1 == 1)
  {
    A64JitState.RoundingCarried(0, fpscr);
    var rmode := (fpscr >> 22) & 3;
    assert rmode == 0 || rmode == 1 || rmode == 2 || rmode == 3;
    if (fpscr >> 24) & 1 == 1 {
    } else {
    }
  }
}

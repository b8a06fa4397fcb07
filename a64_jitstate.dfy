/**
 * The A64 guest floating-point control and status words as the x64 backend
 * keeps them: FPCR stored masked, FPCR's exception and mode bits mirrored
 * into the two host MXCSR words, and FPSR split between the MXCSR
 * exception flags and two fields of its own. Only the integer bit layout is
 * modelled.
 */
module A64JitState {
  import opened Sse

  const FpcrMask: bv32 := 0x07C8_9F00

  /** A rounding mode, as both FPCR.RMode and MXCSR.RN name them. */
  datatype Rounding = ToNearest | TowardPlusInfinity | TowardMinusInfinity | TowardZero

  /** FPCR.RMode, bits 22-23: 0 nearest, 1 towards +infinity, 2 towards -infinity, 3 towards zero. */
  function FpcrRounding(fpcr: bv32): Rounding
  {
    var rmode := (fpcr >> 22) & 3;
    if rmode == 0 then ToNearest
    else if rmode == 1 then TowardPlusInfinity
    else if rmode == 2 then TowardMinusInfinity
    else TowardZero
  }

  /** MXCSR.RN, bits 13-14: 0 nearest, 1 towards -infinity, 2 towards +infinity, 3 towards zero. */
  function MxcsrRounding(mxcsr: bv32): Rounding
  {
    var rn := (mxcsr >> 13) & 3;
    if rn == 0 then ToNearest
    else if rn == 1 then TowardMinusInfinity
    else if rn == 2 then TowardPlusInfinity
    else TowardZero
  }

  /** The guest MXCSR SetFpcr(value) leaves: flags kept, all exceptions masked, FZ and DAZ from FPCR.FZ. */
  function GuestMxcsrAfterSetFpcr(guest: bv32, value: bv32): bv32
  {
    (guest & 0x3D) | 0x1F80 | (if (value >> 24) & 1 != 0 then 0x8040 else 0)
  }

  /** The MXCSR.RN bits for FPCR.RMode: the table vMXCSR_RMode, read at lane RMode. */
  function RModeBits(value: bv32): bv32
  {
    var rmode := (value >> 22) & 3;
    if rmode == 0 then 0x0
    else if rmode == 1 then 0x4000
    else if rmode == 2 then 0x2000
    else 0x6000
  }

  /** Lane 0 of _mm_set_epi32(0, 0, 0, value) & _mm_set1_epi32(FPCR_MASK): the masked FPCR. */
  method MaskedFpcr(value: bv32) returns (r: bv32)
    ensures r == value & FpcrMask
  {
    var vValue := SetEpi32(0, 0, 0, value);
    r := Cvtsi128Si32(And(vValue, Set1Epi32(FpcrMask)));
  }

  /**
   * The rounding-mode bits SetFpcr ORs into the guest MXCSR: lane 0 of
   * (RMode in every lane) & vMXCSR_RMode, where the table holds 0.
   */
  method RModeLane0(value: bv32) returns (r: bv32)
    ensures r == 0
  {
    var vValue := SetEpi32(0, 0, 0, value);
    var vRMode := And(Srli(vValue, 22), Set1Epi32(0x3));
    var vMXCSRRMode := SetEpi32(0x6000, 0x2000, 0x4000, 0x0);
    r := Cvtsi128Si32(Broadcast0(And(vRMode, vMXCSRRMode)));
  }

  /** The table vMXCSR_RMode read at lane RMode, where the corrected SetFpcr reads it. */
  method RModeTableLane(value: bv32) returns (r: bv32)
    ensures r == RModeBits(value)
  {
    var vMXCSRRMode := SetEpi32(0x6000, 0x2000, 0x4000, 0x0);
    var rmode := (value >> 22) & 3;
    if rmode == 0 {
      r := vMXCSRRMode.e0;
    } else if rmode == 1 {
      r := vMXCSRRMode.e1;
    } else if rmode == 2 {
      r := vMXCSRRMode.e2;
    } else {
      r := vMXCSRRMode.e3;
    }
  }

  /** Lane 0 of (value >> 24) & 1: FPCR.FZ. */
  method FlushToZeroLane0(value: bv32) returns (r: bv32)
    ensures r == (value >> 24) & 1
  {
    var vValue := SetEpi32(0, 0, 0, value);
    r := Cvtsi128Si32(And(Srli(vValue, 24), Set1Epi32(1)));
  }

  class JitState {
    var fpcr: bv32
    var guestMXCSR: bv32
    var asimdMXCSR: bv32
    var fpsrQc: bv32
    var fpsrExc: bv32

    /** A state with the given fields; the header's initial values are not part of this model. */
    constructor(fpcr: bv32, guestMXCSR: bv32, asimdMXCSR: bv32, fpsrQc: bv32, fpsrExc: bv32)
      ensures this.fpcr == fpcr && this.guestMXCSR == guestMXCSR && this.asimdMXCSR == asimdMXCSR
      ensures this.fpsrQc == fpsrQc && this.fpsrExc == fpsrExc
    {
      this.fpcr := fpcr;
      this.guestMXCSR := guestMXCSR;
      this.asimdMXCSR := asimdMXCSR;
      this.fpsrQc := fpsrQc;
      this.fpsrExc := fpsrExc;
    }

    function GetFpcr(): bv32
      reads this
    {
      fpcr
    }

    /**
     * SetFpcr: FPCR is kept under its mask, both MXCSRs keep their exception
     * flags and mask every exception, and the guest MXCSR gets FZ and DAZ
     * when FPCR.FZ is set. The rounding-mode lines OR in lane 0 of
     * vRMode & vMXCSR_RMode, which is always 0, so FPCR.RMode is not carried.
     */
    method SetFpcr(value: bv32)
      modifies this`fpcr, this`guestMXCSR, this`asimdMXCSR
      ensures GetFpcr() == value & FpcrMask
      ensures asimdMXCSR == (old(asimdMXCSR) & 0x3D) | 0x1F80
      ensures guestMXCSR == GuestMxcsrAfterSetFpcr(old(guestMXCSR), value)
    {
      fpcr := MaskedFpcr(value);

      var asimd := asimdMXCSR & 0x3D;
      var guest := guestMXCSR & 0x3D;
      asimd := asimd | 0x1F80;
      guest := guest | 0x1F80;

      var rmode := RModeLane0(value);
      guest := guest | rmode;

      var flushToZero := FlushToZeroLane0(value);
      if flushToZero != 0 {
        guest := guest | 0x8000;  // FZ, 1 << 15
        guest := guest | 0x40;    // DAZ, 1 << 6
      }
      asimdMXCSR, guestMXCSR := asimd, guest;
    }

    /** SetFpcr with the rounding-mode table read at lane RMode, as its constants intend. */
    method SetFpcrWithRMode(value: bv32)
      modifies this`fpcr, this`guestMXCSR, this`asimdMXCSR
      ensures GetFpcr() == value & FpcrMask
      ensures asimdMXCSR == (old(asimdMXCSR) & 0x3D) | 0x1F80
      ensures guestMXCSR == GuestMxcsrAfterSetFpcr(old(guestMXCSR), value) | RModeBits(value)
    {
      fpcr := MaskedFpcr(value);
      var guest := (guestMXCSR & 0x3D) | 0x1F80;
      var rmode := RModeTableLane(value);
      guest := guest | rmode;
      var flushToZero := FlushToZeroLane0(value);
      if flushToZero != 0 {
        guest := guest | 0x8000 | 0x40;
      }
      OrsCommute(guestMXCSR & 0x3D, rmode, flushToZero != 0);
      asimdMXCSR, guestMXCSR := (asimdMXCSR & 0x3D) | 0x1F80, guest;
    }

    /**
     * GetFpsr: IOC from IE, IXC/UFC/OFC/DZC from PE/UE/OE/ZE of either
     * MXCSR (one bit lower), the stored exception bits, and QC at bit 27.
     */
    function GetFpsr(): (r: bv32)
      reads this
      ensures var mxcsr := guestMXCSR | asimdMXCSR;
        r == (mxcsr & 1) | ((mxcsr & 0x3C) >> 1) | fpsrExc | (if fpsrQc == 0 then 0 else 1 << 27)
    {
      var mxcsr := guestMXCSR | asimdMXCSR;
      var vMXCSR := SetEpi32(0, 0, 0, mxcsr);
      var vIOC := And(Set1Epi32(1), vMXCSR);
      var vIXCUFCOFCDZC := And(Set1Epi32(0x3C), vMXCSR);
      var fpsr: bv32 := 0;
      var fpsr1 := fpsr | Cvtsi128Si32(vIOC);
      var fpsr2 := fpsr1 | Cvtsi128Si32(Srli(vIXCUFCOFCDZC, 1));
      var fpsr3 := fpsr2 | fpsrExc;
      fpsr3 | ((if fpsrQc == 0 then 0 else 1) << 27)
    }

    /**
     * SetFpsr: clears the MXCSR exception flags it maps, stores QC and the
     * cumulative exception bits, and leaves FPCR alone; FPSR reads back as
     * the value restricted to QC and those bits.
     */
    method SetFpsr(value: bv32)
      modifies this`guestMXCSR, this`asimdMXCSR, this`fpsrQc, this`fpsrExc
      ensures guestMXCSR == old(guestMXCSR) & !0x3D && asimdMXCSR == old(asimdMXCSR) & !0x3D
      ensures fpsrQc == (value >> 27) & 1 && fpsrExc == value & 0x9F
      ensures GetFpsr() == value & 0x0800_009F
    {
      var vValue := SetEpi32(0, 0, 0, value);
      guestMXCSR := guestMXCSR & !0x3D;
      asimdMXCSR := asimdMXCSR & !0x3D;
      var vQFlag := And(Srli(vValue, 27), Set1Epi32(1));
      fpsrQc := Cvtsi128Si32(vQFlag);
      fpsrExc := Cvtsi128Si32(And(vValue, Set1Epi32(0x9F)));
    }
  }

  /** As written, SetFpcr leaves the guest MXCSR rounding to nearest whatever FPCR.RMode says. */
  lemma SetFpcrRoundsToNearest(guest: bv32, value: bv32)
    ensures MxcsrRounding(GuestMxcsrAfterSetFpcr(guest, value)) == ToNearest
  {
  }

  /** FPCR.RMode = 1 (towards +infinity) is one the as-written SetFpcr does not carry over. */
  lemma SetFpcrDropsRMode()
    ensures FpcrRounding(0x0040_0000) == TowardPlusInfinity
    ensures MxcsrRounding(GuestMxcsrAfterSetFpcr(0, 0x0040_0000)) == ToNearest
  {
  }

  /** ORing the rounding bits before or after FZ and DAZ gives the same word. */
  lemma OrsCommute(flags: bv32, rmode: bv32, flushToZero: bool)
    ensures (if flushToZero then (flags | 0x1F80 | rmode) | 0x8000 | 0x40 else flags | 0x1F80 | rmode)
      == (flags | 0x1F80 | (if flushToZero then 0x8040 else 0)) | rmode
  {
    if flushToZero {
    } else {
    }
  }

  /** The table read at lane RMode selects the MXCSR rounding mode matching FPCR's. */
  lemma RoundingCarried(guest: bv32, value: bv32)
    ensures MxcsrRounding(GuestMxcsrAfterSetFpcr(guest, value) | RModeBits(value)) == FpcrRounding(value)
  {
    var rmode := (value >> 22) & 3;
    assert rmode == 0 || rmode == 1 || rmode == 2 || rmode == 3;
  }
}

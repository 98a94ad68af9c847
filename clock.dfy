/**
 * The basic clock system of clock.c: three oscillators (the XT1 and XT2
 * crystals and the internal DCO) feed three clock rails (ACLK, MCLK,
 * SMCLK) through the source-select and divider fields of the control
 * registers BCSCTL1 and BCSCTL2.
 *
 * `clock_set` writes those fields with `&=` / `|=`; `clock_get` reads them
 * back and divides the stored oscillator frequency. The class keeps the
 * three stored frequencies and the registers as fields; the encoding of a
 * configuration into a register (`AclkBits`, `MclkBits`, `SmclkBits`) and
 * the decoding of a register into a frequency (`AclkFreq`, `MclkFreq`,
 * `SmclkFreq`) are pure functions, and the lemmas connect the two.
 */
module Clock {
  import opened Types

  // Clock rails (clock_t).
  const ACLK: int := 0x01
  const MCLK: int := 0x04
  const SMCLK: int := 0x02

  // Clock sources (clock_source_t).
  const XT1: int := 0
  const XT2: int := 1
  const DCO: int := 2

  // DCO frequencies accepted by clock_init.
  const DCO_OFF: int := 0
  const DCO_FREQ_750KHz: int := 750000
  const DCO_FREQ_1300KHz: int := 1300000
  const DCO_FREQ_2000KHz: int := 2000000
  const DCO_FREQ_3200KHz: int := 3200000
  const DCO_FREQ_4900KHz: int := 4900000

  /** XT1 frequencies from this one up need the high-frequency mode bit. */
  const XTS_THRESHOLD_HZ: int := 450000

  // BCSCTL1 fields.
  const XT2OFF: bv8 := 0x80
  const XTS: bv8 := 0x40
  const DIVA_1: bv8 := 0x10
  const DIVA_2: bv8 := 0x20
  const DIVA_3: bv8 := 0x30
  const RSEL_MASK: bv8 := 0x07

  // BCSCTL2 fields.
  const SELM_2: bv8 := 0x80
  const SELM_3: bv8 := 0xC0
  const DIVM_1: bv8 := 0x10
  const DIVM_2: bv8 := 0x20
  const DIVM_3: bv8 := 0x30
  const SELS: bv8 := 0x08
  const DIVS_1: bv8 := 0x02
  const DIVS_2: bv8 := 0x04
  const DIVS_3: bv8 := 0x06

  /** The division a divider argument asks for: 1, 2, 4 or 8, and 1 for any other value. */
  function EffectiveDivider(divider: int): (d: nat)
    ensures d == 1 || d == 2 || d == 4 || d == 8
    ensures divider == 1 || divider == 2 || divider == 4 || divider == 8 ==> d == divider
    ensures !(divider == 1 || divider == 2 || divider == 4 || divider == 8) ==> d == 1
  {
    if divider == 2 || divider == 4 || divider == 8 then divider else 1
  }

  /**
   * The switch of a clock_config* function: the divider field value for a
   * divider argument, given the field's values for 2, 4 and 8 (the value
   * for 1, and for anything else, is zero).
   */
  function DivBits(divider: int, d1: bv8, d2: bv8, d3: bv8): bv8 {
    if divider == 2 then d1
    else if divider == 4 then d2
    else if divider == 8 then d3
    else 0
  }

  /**
   * The switch of a clock_get* function: `freq` divided as a divider field
   * says, with `d1`, `d2`, `d3` the field's values for 2, 4 and 8.
   */
  function Scaled(freq: Uint32, field: bv8, d1: bv8, d2: bv8, d3: bv8): (f: Uint32)
    ensures f <= freq
  {
    if field == d1 then freq / 2
    else if field == d2 then freq / 4
    else if field == d3 then freq / 8
    else freq
  }

  /** Encoding a divider and decoding it again divides by the effective divider. */
  lemma ScaledDivBits(freq: Uint32, divider: int, d1: bv8, d2: bv8, d3: bv8)
    requires d1 != 0 && d2 != 0 && d3 != 0 && d1 != d2 && d1 != d3 && d2 != d3
    ensures Scaled(freq, DivBits(divider, d1, d2, d3), d1, d2, d3) == freq / EffectiveDivider(divider)
  {
  }

  /** The oscillator a source argument stands for; anything other than XT1 or XT2 is the DCO. */
  function SourceFreq(xt1: Uint32, xt2: Uint32, dco: Uint32, source: int): (f: Uint32)
    ensures source == XT1 ==> f == xt1
    ensures source == XT2 ==> f == xt2
    ensures source != XT1 && source != XT2 ==> f == dco
  {
    if source == XT1 then xt1 else if source == XT2 then xt2 else dco
  }

  // ---- Decoding: clock_getACLK, clock_getMCLK, clock_getSMCLK ----

  /** clock_getACLK: XT1 divided by the DIVA field of BCSCTL1. */
  function AclkFreq(xt1: Uint32, bcsctl1: bv8): (f: Uint32)
    ensures f <= xt1
  {
    Scaled(xt1, bcsctl1 & 0x30, DIVA_1, DIVA_2, DIVA_3)
  }

  /** clock_getMCLK: the oscillator the SELM field of BCSCTL2 selects (DCO unless XT2 or XT1), divided by DIVM. */
  function MclkFreq(xt1: Uint32, xt2: Uint32, dco: Uint32, bcsctl2: bv8): (f: Uint32)
    ensures bcsctl2 & 0xC0 == SELM_2 ==> f <= xt2
    ensures bcsctl2 & 0xC0 == SELM_3 ==> f <= xt1
    ensures bcsctl2 & 0xC0 != SELM_2 && bcsctl2 & 0xC0 != SELM_3 ==> f <= dco
  {
    var freq :=
      if bcsctl2 & 0xC0 == SELM_2 then xt2
      else if bcsctl2 & 0xC0 == SELM_3 then xt1
      else dco;
    Scaled(freq, bcsctl2 & 0x30, DIVM_1, DIVM_2, DIVM_3)
  }

  /** clock_getSMCLK: XT2 when SELS is set in BCSCTL2, the DCO otherwise, divided by DIVS. */
  function SmclkFreq(xt2: Uint32, dco: Uint32, bcsctl2: bv8): (f: Uint32)
    ensures bcsctl2 & SELS == SELS ==> f <= xt2
    ensures bcsctl2 & SELS != SELS ==> f <= dco
  {
    var freq := if bcsctl2 & SELS == SELS then xt2 else dco;
    Scaled(freq, bcsctl2 & 0x06, DIVS_1, DIVS_2, DIVS_3)
  }

  // ---- Encoding: clock_configACLK, clock_configMCLK, clock_configSMCLK ----

  /** BCSCTL1 after clock_configACLK: the DIVA field replaced, every other bit kept. */
  function AclkBits(bcsctl1: bv8, divider: int): bv8 {
    (bcsctl1 & !DIVA_3) | DivBits(divider, DIVA_1, DIVA_2, DIVA_3)
  }

  /** clock_configACLK keeps every BCSCTL1 bit outside DIVA: XT2OFF, XTS and RSEL survive. */
  lemma AclkBitsKeep(bcsctl1: bv8, divider: int)
    ensures AclkBits(bcsctl1, divider) & !DIVA_3 == bcsctl1 & !DIVA_3
  {
  }

  /** The SELM value clock_configMCLK picks: XT2 and XT1 by name, the DCO for anything else. */
  function SelmBits(source: int): bv8 {
    if source == XT2 then SELM_2 else if source == XT1 then SELM_3 else 0
  }

  /** BCSCTL2 after clock_configMCLK: SELM, then DIVM, replaced; the SMCLK bits kept. */
  function MclkBits(bcsctl2: bv8, source: int, divider: int): bv8 {
    var selected := (bcsctl2 & !SELM_3) | SelmBits(source);
    (selected & !DIVM_3) | DivBits(divider, DIVM_1, DIVM_2, DIVM_3)
  }

  /** BCSCTL2 after clock_configSMCLK: SELS set for XT2, cleared for the DCO, left alone otherwise; then DIVS replaced. */
  function SmclkBits(bcsctl2: bv8, source: int, divider: int): bv8 {
    var selected :=
      if source == XT2 then bcsctl2 | SELS
      else if source == DCO then bcsctl2 & !SELS
      else bcsctl2;
    (selected & !DIVS_3) | DivBits(divider, DIVS_1, DIVS_2, DIVS_3)
  }

  // ---- Round trips between configuring a rail and reading it back ----

  /** After clock_configACLK, ACLK runs at XT1 over the effective divider, whatever the register held. */
  lemma AclkRoundTrip(xt1: Uint32, bcsctl1: bv8, divider: int)
    ensures AclkFreq(xt1, AclkBits(bcsctl1, divider)) == xt1 / EffectiveDivider(divider)
  {
    assert AclkBits(bcsctl1, divider) & 0x30 == DivBits(divider, DIVA_1, DIVA_2, DIVA_3);
    ScaledDivBits(xt1, divider, DIVA_1, DIVA_2, DIVA_3);
  }

  /** After clock_configMCLK, MCLK runs at the chosen source over the effective divider. */
  lemma MclkRoundTrip(xt1: Uint32, xt2: Uint32, dco: Uint32, bcsctl2: bv8, source: int, divider: int)
    ensures MclkFreq(xt1, xt2, dco, MclkBits(bcsctl2, source, divider))
         == SourceFreq(xt1, xt2, dco, source) / EffectiveDivider(divider)
  {
    var b := MclkBits(bcsctl2, source, divider);
    assert b & 0xC0 == SelmBits(source);
    assert b & 0x30 == DivBits(divider, DIVM_1, DIVM_2, DIVM_3);
    ScaledDivBits(SourceFreq(xt1, xt2, dco, source), divider, DIVM_1, DIVM_2, DIVM_3);
  }

  /**
   * After clock_configSMCLK, SMCLK runs at XT2 or the DCO when that was the
   * source asked for, and at the previously selected oscillator for any
   * other source (XT1 cannot drive SMCLK on this device), over the
   * effective divider.
   */
  lemma SmclkRoundTrip(xt2: Uint32, dco: Uint32, bcsctl2: bv8, source: int, divider: int)
    ensures SmclkFreq(xt2, dco, SmclkBits(bcsctl2, source, divider))
         == (if source == XT2 then xt2
             else if source == DCO then dco
             else if bcsctl2 & SELS == SELS then xt2
             else dco) / EffectiveDivider(divider)
  {
    var b := SmclkBits(bcsctl2, source, divider);
    assert b & SELS == SELS <==>
      (source == XT2 || (source != DCO && bcsctl2 & SELS == SELS));
    assert b & 0x06 == DivBits(divider, DIVS_1, DIVS_2, DIVS_3);
    var freq := if b & SELS == SELS then xt2 else dco;
    ScaledDivBits(freq, divider, DIVS_1, DIVS_2, DIVS_3);
  }

  /** Configuring MCLK leaves the SMCLK frequency as it was. */
  lemma MclkKeepsSmclk(xt2: Uint32, dco: Uint32, bcsctl2: bv8, source: int, divider: int)
    ensures SmclkFreq(xt2, dco, MclkBits(bcsctl2, source, divider)) == SmclkFreq(xt2, dco, bcsctl2)
  {
    var b := MclkBits(bcsctl2, source, divider);
    assert b & 0x0F == bcsctl2 & 0x0F;
    assert b & SELS == bcsctl2 & SELS && b & 0x06 == bcsctl2 & 0x06;
  }

  /** Configuring SMCLK leaves the MCLK frequency as it was. */
  lemma SmclkKeepsMclk(xt1: Uint32, xt2: Uint32, dco: Uint32, bcsctl2: bv8, source: int, divider: int)
    ensures MclkFreq(xt1, xt2, dco, SmclkBits(bcsctl2, source, divider)) == MclkFreq(xt1, xt2, dco, bcsctl2)
  {
    var b := SmclkBits(bcsctl2, source, divider);
    assert b & 0xF0 == bcsctl2 & 0xF0;
    assert b & 0xC0 == bcsctl2 & 0xC0 && b & 0x30 == bcsctl2 & 0x30;
  }

  /** The DCO trim clock_init writes for a requested DCO frequency. */
  datatype DcoTrim = DcoOff | Trim(dcoctl: bv8, rsel: bv8)

  /**
   * The switch of clock_init: DCO_OFF stops the DCO; each table frequency
   * has its DCOCTL and RSEL values; any other frequency gets the 750 kHz trim.
   */
  function TrimFor(dcoFreq: int): (t: DcoTrim)
    ensures t.DcoOff? <==> dcoFreq == DCO_OFF
    ensures t.Trim? ==> t.rsel & !RSEL_MASK == 0 && 4 <= t.rsel <= 7
    ensures (dcoFreq != DCO_FREQ_1300KHz && dcoFreq != DCO_FREQ_2000KHz
             && dcoFreq != DCO_FREQ_3200KHz && dcoFreq != DCO_FREQ_4900KHz
             && dcoFreq != DCO_OFF) ==> t == Trim(0x60, 0x04)
  {
    if dcoFreq == DCO_OFF then DcoOff
    else if dcoFreq == DCO_FREQ_1300KHz then Trim(0x60, 0x05)
    else if dcoFreq == DCO_FREQ_2000KHz then Trim(0x60, 0x06)
    else if dcoFreq == DCO_FREQ_3200KHz then Trim(0x60, 0x07)
    else if dcoFreq == DCO_FREQ_4900KHz then Trim(0xE0, 0x07)
    else Trim(0x60, 0x04)
  }

  /** BCSCTL1 after clock_init: XTS for a fast XT1, XT2OFF set or cleared, then the trim's RSEL bits or-ed in. */
  function Bcsctl1AfterInit(bcsctl1: bv8, xt1: int, xt2: int, dco: int): bv8 {
    WithRsel(WithXt2(WithXts(bcsctl1, xt1), xt2), TrimFor(dco))
  }

  /** The XT1 step of clock_init: XTS set for a fast crystal. */
  function WithXts(bcsctl1: bv8, xt1: int): bv8 {
    if xt1 >= XTS_THRESHOLD_HZ then bcsctl1 | XTS else bcsctl1
  }

  /** The XT2 step of clock_init: XT2OFF set when there is no crystal, cleared otherwise. */
  function WithXt2(bcsctl1: bv8, xt2: int): bv8 {
    if xt2 == 0 then bcsctl1 | XT2OFF else bcsctl1 & !XT2OFF
  }

  /** The DCO step of clock_init: the trim's RSEL bits or-ed in. */
  function WithRsel(bcsctl1: bv8, trim: DcoTrim): bv8 {
    match trim
    case DcoOff => bcsctl1
    case Trim(_, rsel) => bcsctl1 | (rsel & 0x07)
  }

  /**
   * What clock_init does to BCSCTL1: XT2 is off exactly when its frequency
   * is zero; XTS is set for an XT1 of 450 kHz or more and otherwise kept as
   * it was (never cleared); the ACLK divider is kept; the RSEL bits gain the
   * trim's value unless the DCO is off.
   */
  lemma InitBits(bcsctl1: bv8, xt1: int, xt2: int, dco: int)
    ensures Bcsctl1AfterInit(bcsctl1, xt1, xt2, dco) & XT2OFF == XT2OFF <==> xt2 == 0
    ensures xt1 >= XTS_THRESHOLD_HZ ==> Bcsctl1AfterInit(bcsctl1, xt1, xt2, dco) & XTS == XTS
    ensures xt1 < XTS_THRESHOLD_HZ ==> Bcsctl1AfterInit(bcsctl1, xt1, xt2, dco) & XTS == bcsctl1 & XTS
    ensures bcsctl1 & XTS == XTS ==> Bcsctl1AfterInit(bcsctl1, xt1, xt2, dco) & XTS == XTS
    ensures Bcsctl1AfterInit(bcsctl1, xt1, xt2, dco) & DIVA_3 == bcsctl1 & DIVA_3
    ensures TrimFor(dco).DcoOff? ==>
              Bcsctl1AfterInit(bcsctl1, xt1, xt2, dco) & RSEL_MASK == bcsctl1 & RSEL_MASK
    ensures TrimFor(dco).Trim? ==>
              Bcsctl1AfterInit(bcsctl1, xt1, xt2, dco) & RSEL_MASK == (bcsctl1 & RSEL_MASK) | TrimFor(dco).rsel
  {
  }

  /** The clock module's static frequencies together with the registers it drives. */
  class ClockSystem {
    var xt1FreqHz: Uint32
    var xt2FreqHz: Uint32
    var dcoFreqHz: Uint32

    var bcsctl1: bv8
    var bcsctl2: bv8
    var dcoctl: bv8
    /** The SCG0 bit of the status register: set, the DCO is off. */
    var scg0: bool

    /** The frequencies start at zero (static storage); the registers hold whatever the hardware has. */
    constructor (bcsctl1: bv8, bcsctl2: bv8, dcoctl: bv8, scg0: bool)
      ensures xt1FreqHz == 0 && xt2FreqHz == 0 && dcoFreqHz == 0
      ensures this.bcsctl1 == bcsctl1 && this.bcsctl2 == bcsctl2
      ensures this.dcoctl == dcoctl && this.scg0 == scg0
    {
      xt1FreqHz, xt2FreqHz, dcoFreqHz := 0, 0, 0;
      this.bcsctl1, this.bcsctl2 := bcsctl1, bcsctl2;
      this.dcoctl, this.scg0 := dcoctl, scg0;
    }

    /**
     * clock_init: store the three frequencies as given and set up BCSCTL1
     * (Bcsctl1AfterInit, whose bits InitBits describes); stop the DCO for
     * DCO_OFF, otherwise write its trim to DCOCTL.
     */
    method Init(xt1: Uint32, xt2: Uint32, dco: Uint32)
      modifies this
      ensures xt1FreqHz == xt1 && xt2FreqHz == xt2 && dcoFreqHz == dco
      ensures bcsctl1 == Bcsctl1AfterInit(old(bcsctl1), xt1, xt2, dco)
      ensures bcsctl2 == old(bcsctl2)
      ensures TrimFor(dco).DcoOff? ==> scg0 && dcoctl == old(dcoctl)
      ensures TrimFor(dco).Trim? ==> scg0 == old(scg0) && dcoctl == TrimFor(dco).dcoctl
    {
      xt1FreqHz := xt1;
      xt2FreqHz := xt2;
      dcoFreqHz := dco;

      var r := bcsctl1;
      r := WithXts(r, xt1FreqHz);
      r := WithXt2(r, xt2FreqHz);

      // DCO_OFF stops the DCO; every other frequency, in the table or not,
      // writes a trim (TrimFor is the switch).
      var trim := TrimFor(dco);
      match trim {
        case DcoOff =>
          scg0 := true;
        case Trim(modulation, _) =>
          var ctl := modulation;
          ctl := ctl | (0x00 & 0x1F);
          dcoctl := ctl;
      }
      r := WithRsel(r, trim);
      bcsctl1 := r;
    }

    /** clock_get: the frequency of a rail, and 0 for a value that names no rail. */
    function Get(clk: int): (f: Uint32)
      reads this
      ensures clk != ACLK && clk != MCLK && clk != SMCLK ==> f == 0
    {
      if clk == ACLK then AclkFreq(xt1FreqHz, bcsctl1)
      else if clk == MCLK then MclkFreq(xt1FreqHz, xt2FreqHz, dcoFreqHz, bcsctl2)
      else if clk == SMCLK then SmclkFreq(xt2FreqHz, dcoFreqHz, bcsctl2)
      else 0
    }

    /** clock_configACLK. */
    method ConfigACLK(divider: Uint8)
      modifies this`bcsctl1
      ensures bcsctl1 == AclkBits(old(bcsctl1), divider)
    {
      var diva := DivBits(divider, DIVA_1, DIVA_2, DIVA_3);
      var r := bcsctl1;
      r := r & !DIVA_3;
      r := r | diva;
      bcsctl1 := r;
    }

    /** clock_configMCLK. */
    method ConfigMCLK(source: int, divider: Uint8)
      modifies this`bcsctl2
      ensures bcsctl2 == MclkBits(old(bcsctl2), source, divider)
    {
      var r := bcsctl2;
      var selm := SelmBits(source);
      r := r & !SELM_3;
      r := r | selm;

      var divm := DivBits(divider, DIVM_1, DIVM_2, DIVM_3);
      r := r & !DIVM_3;
      r := r | divm;
      bcsctl2 := r;
    }

    /** clock_configSMCLK. */
    method ConfigSMCLK(source: int, divider: Uint8)
      modifies this`bcsctl2
      ensures bcsctl2 == SmclkBits(old(bcsctl2), source, divider)
    {
      var r := bcsctl2;
      if source == XT2 {
        r := r | SELS;
      } else if source == DCO {
        r := r & !SELS;
      }

      var divs := DivBits(divider, DIVS_1, DIVS_2, DIVS_3);
      r := r & !DIVS_3;
      r := r | divs;
      bcsctl2 := r;
    }

    /**
     * clock_set: configure one rail. Reading the rail back gives its source
     * over the effective divider (for ACLK always XT1, for SMCLK the
     * previous selection when the source is XT1); the other rails keep
     * their frequencies; a value naming no rail changes nothing.
     */
    method Set(clk: int, source: int, divider: Uint8)
      modifies this`bcsctl1, this`bcsctl2
      ensures clk == ACLK ==> Get(ACLK) == xt1FreqHz / EffectiveDivider(divider)
      ensures clk == MCLK ==>
                Get(MCLK) == SourceFreq(xt1FreqHz, xt2FreqHz, dcoFreqHz, source) / EffectiveDivider(divider)
      ensures clk == SMCLK ==>
                Get(SMCLK) == (if source == XT2 then xt2FreqHz
                               else if source == DCO then dcoFreqHz
                               else if old(bcsctl2) & SELS == SELS then xt2FreqHz
                               else dcoFreqHz) / EffectiveDivider(divider)
      ensures clk == ACLK ==> bcsctl1 == AclkBits(old(bcsctl1), divider) && bcsctl2 == old(bcsctl2)
      ensures clk == ACLK ==> bcsctl1 & !DIVA_3 == old(bcsctl1) & !DIVA_3
      ensures clk == MCLK ==> bcsctl2 == MclkBits(old(bcsctl2), source, divider) && bcsctl1 == old(bcsctl1)
      ensures clk == SMCLK ==> bcsctl2 == SmclkBits(old(bcsctl2), source, divider) && bcsctl1 == old(bcsctl1)
      ensures forall r :: r != clk ==> Get(r) == old(Get(r))
      ensures clk != ACLK && clk != MCLK && clk != SMCLK ==>
                bcsctl1 == old(bcsctl1) && bcsctl2 == old(bcsctl2)
    {
      if clk == ACLK {
        ConfigACLK(divider);
        AclkRoundTrip(xt1FreqHz, old(bcsctl1), divider);
        AclkBitsKeep(old(bcsctl1), divider);
      } else if clk == MCLK {
        ConfigMCLK(source, divider);
        MclkRoundTrip(xt1FreqHz, xt2FreqHz, dcoFreqHz, old(bcsctl2), source, divider);
        MclkKeepsSmclk(xt2FreqHz, dcoFreqHz, old(bcsctl2), source, divider);
      } else if clk == SMCLK {
        ConfigSMCLK(source, divider);
        SmclkRoundTrip(xt2FreqHz, dcoFreqHz, old(bcsctl2), source, divider);
        SmclkKeepsMclk(xt1FreqHz, xt2FreqHz, dcoFreqHz, old(bcsctl2), source, divider);
      }
    }
  }
}

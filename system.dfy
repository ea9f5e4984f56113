/** system.c: the internal oscillator select and the pin set-up every program runs
    first. The frequency switch of Osc_Setup is a lookup; the two OSCCON writes, the
    SCS write and System_Setup's register writes change a register record in place.
    OSCCON of the PIC16F887: bit 7 unused, bits 6..4 IRCF (internal oscillator
    frequency), bits 3..1 status, bit 0 SCS (system clock select). */
module System {

  /** _XTAL_FREQ, the clock frequency every delay and the baud divisor assume. */
  const XTAL_FREQ := 8000000

  /** The frequencies Osc_Setup knows, fastest first. */
  const Frequencies: seq<int> := [8000000, 4000000, 2000000, 1000000, 500000, 250000, 125000]

  /** Osc_Setup's switch: the IRCF bits for a frequency, positioned in bits 6..4.
      A frequency it does not know selects 8 MHz. */
  function IrcfCode(freq: int): (code: bv8)
    ensures code & 0x8F == 0
    ensures code != 0
  {
    match freq
    case 8000000 => 0x70
    case 4000000 => 0x60
    case 2000000 => 0x50
    case 1000000 => 0x40
    case 500000 => 0x30
    case 250000 => 0x20
    case 125000 => 0x10
    case _ => 0x70
  }

  /** The internal oscillator frequency in Hz that IRCF bits in 6..4 select, as the
      PIC16F887 data sheet lists it: 8 MHz halving down to 125 kHz, and the 31 kHz low
      frequency oscillator for 000. Bits outside 6..4 are ignored. */
  function IrcfFrequency(code: bv8): (freq: int)
  {
    match (code >> 4) & 7
    case 7 => 8000000
    case 6 => 4000000
    case 5 => 2000000
    case 4 => 1000000
    case 3 => 500000
    case 2 => 250000
    case 1 => 125000
    case _ => 31000
  }

  /** The lookup selects exactly the requested frequency for the seven it knows, and
      8 MHz for any other; every code it can produce names one of the seven and leads
      back to itself, so the 31 kHz oscillator is never selected. */
  lemma {:induction false} IrcfLookup(freq: int, k: int)
    requires 0 <= k < |Frequencies|
    ensures IrcfFrequency(IrcfCode(Frequencies[k])) == Frequencies[k]
    ensures freq !in Frequencies ==> IrcfCode(freq) == 0x70
    ensures IrcfFrequency(IrcfCode(freq)) in Frequencies
    ensures IrcfCode(IrcfFrequency(IrcfCode(freq))) == IrcfCode(freq)
    ensures IrcfCode(XTAL_FREQ) == 0x70
  {
    var code := IrcfCode(freq);
    assert code in {0x10, 0x20, 0x30, 0x40, 0x50, 0x60, 0x70};
    assert Frequencies[0] == 8000000 && Frequencies[6] == 125000;
  }

  /** The registers the set-up routines write. */
  class Registers {
    var osccon: bv8
    /** OPTION_REG bit 7, PORTB pull-ups disabled when set. */
    var nRbpu: bool
    var ansel: bv8
    var anselh: bv8

    /** The registers as the device left them; they are not assumed to be at their
        reset values. */
    constructor (osccon: bv8, nRbpu: bool, ansel: bv8, anselh: bv8)
      ensures this.osccon == osccon && this.nRbpu == nRbpu && this.ansel == ansel && this.anselh == anselh
    {
      this.osccon, this.nRbpu, this.ansel, this.anselh := osccon, nRbpu, ansel, anselh;
    }

    /** Osc_Setup(CLK_SRC): IRCF takes the code for XTAL_FREQ, SCS takes bit 0 of
        CLK_SRC (SCS is a one-bit field); bit 7 and the status bits 3..1 keep their
        values, and no other register changes. */
    method OscSetup(clkSrc: bv8)
      modifies this
      ensures osccon & 0x70 == IrcfCode(XTAL_FREQ)
      ensures osccon & 0x8E == old(osccon) & 0x8E
      ensures osccon & 0x01 == clkSrc & 0x01
      ensures nRbpu == old(nRbpu) && ansel == old(ansel) && anselh == old(anselh)
    {
      var clockSel := IrcfCode(XTAL_FREQ);
      osccon := osccon & 0x8F;
      osccon := osccon | clockSel;
      assert osccon & 0x70 == clockSel && osccon & 0x8F == old(osccon) & 0x8F;
      osccon := (osccon & 0xFE) | (clkSrc & 0x01);
    }

    /** System_Setup: PORTB pull-ups on, every analog input off. */
    method SystemSetup()
      modifies this
      ensures !nRbpu && ansel == 0 && anselh == 0
      ensures osccon == old(osccon)
    {
      nRbpu := false;
      ansel := 0x00;
      anselh := 0x00;
    }
  }
}

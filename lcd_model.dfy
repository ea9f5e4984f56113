/** lcd.c as the HD44780 sees it: every call ends in E pulses, each latching RS and
    the four data lines LCD_4..LCD_7, and a byte goes over the 4-bit bus as two such
    pulses, high nibble first. The model is the sequence of pulses each routine
    emits; Decode is the controller's view of a pulse sequence, and every byte-level
    routine is shown to deliver exactly the bytes it means. */
module LcdModel {
  import opened CString
  import opened Arith

  // Command codes and masks of lcd.h.
  const CLEAR: bv8 := 0x01
  const HOME: bv8 := 0x02
  const ENTRY_MODE_SET: bv8 := 0x04
  const DISPLAY_CONTROL: bv8 := 0x08
  const FUNCTION_SET: bv8 := 0x20
  const INC_MODE: bv8 := 0x02
  const NO_SHIFT: bv8 := 0x00
  const DISP_OFF: bv8 := 0x00
  const DISP_ON: bv8 := 0x04
  const CURS_OFF: bv8 := 0x00
  const DL_4: bv8 := 0x00
  const TWO_LINE: bv8 := 0x08
  const NORMAL_FONT: bv8 := 0x00
  const SET_DDRAM_ADDRESS: bv8 := 0x80
  const SECOND_ROW: bv8 := 0x40
  const THIRD_ROW: bv8 := 0x10
  const FOURTH_ROW: bv8 := 0x50
  const L_CMD: bv8 := 0
  const L_DATA: bv8 := 1

  /** One E pulse: the level of RS and the nibble on LCD_7..LCD_4. */
  datatype Pulse = Pulse(rs: bool, nibble: bv8)

  /** One byte as the controller receives it: a command (rs false) or a character. */
  datatype Transfer = Transfer(rs: bool, value: bv8)

  /** Set_LCD_Pins8: RS takes bit 0 of rs (the pin is a one-bit field), the data lines
      take bits 0..3 of datain and bits 4..7 are dropped. */
  function Pins8(rs: bv8, datain: bv8): (p: Pulse)
    ensures p.rs == (rs & 1 == 1)
    ensures p.nibble < 16 && (datain & 0xF0) | p.nibble == datain
  {
    Pulse(rs & 1 == 1, datain & 0x0F)
  }

  /** Set_LCD: the byte datain as two pulses with the same RS, high nibble first. */
  function SetLcd(rs: bv8, datain: bv8): (ps: seq<Pulse>)
    ensures |ps| == 2 && ps[0].rs == ps[1].rs == (rs & 1 == 1)
    ensures ps[0].nibble < 16 && ps[1].nibble < 16
    ensures ps[0].nibble * 16 + ps[1].nibble == datain
  {
    [Pins8(rs, (datain >> 4) & 0x0F), Pins8(rs, datain & 0x0F)]
  }

  /** The pulses Set_LCD emits for one transfer; L_DATA and L_CMD select RS. */
  function Encode(t: Transfer): (ps: seq<Pulse>)
    ensures |ps| == 2
  {
    SetLcd(if t.rs then L_DATA else L_CMD, t.value)
  }

  /** The pulses of a run of Set_LCD calls, one per transfer, in order. */
  function Send(ts: seq<Transfer>): (ps: seq<Pulse>)
    ensures |ps| == 2 * |ts|
    decreases |ts|
  {
    if ts == [] then [] else Send(ts[..|ts| - 1]) + Encode(ts[|ts| - 1])
  }

  /** What the controller in 4-bit mode assembles from a pulse sequence: each pair of
      pulses is one byte, the first supplying RS and the high nibble. */
  function Decode(ps: seq<Pulse>): (ts: seq<Transfer>)
    requires |ps| % 2 == 0
    ensures |ts| == |ps| / 2
    decreases |ps|
  {
    if ps == [] then [] else [Transfer(ps[0].rs, (ps[0].nibble << 4) | (ps[1].nibble & 0x0F))] + Decode(ps[2..])
  }

  lemma {:induction false} DecodeAppend(a: seq<Pulse>, b: seq<Pulse>)
    requires |a| % 2 == 0 && |b| % 2 == 0
    ensures Decode(a + b) == Decode(a) + Decode(b)
    decreases |a|
  {
    if a == [] {
      assert a + b == b;
    } else {
      assert (a + b)[0] == a[0] && (a + b)[1] == a[1];
      assert (a + b)[2..] == a[2..] + b;
      DecodeAppend(a[2..], b);
    }
  }

  /** The controller receives exactly the bytes Set_LCD was called with. */
  lemma {:induction false} SendDecodes(ts: seq<Transfer>)
    ensures Decode(Send(ts)) == ts
    decreases |ts|
  {
    if ts != [] {
      var init, last := ts[..|ts| - 1], ts[|ts| - 1];
      SendDecodes(init);
      DecodeAppend(Send(init), Encode(last));
      var ps := Encode(last);
      assert Decode(ps) == [Transfer(ps[0].rs, (ps[0].nibble << 4) | (ps[1].nibble & 0x0F))] + Decode(ps[2..]);
      assert (ps[0].nibble << 4) | (ps[1].nibble & 0x0F) == last.value;
      assert init + [last] == ts;
    }
  }

  /** Running transfers one after the other sends their concatenation. */
  lemma {:induction false} SendAppend(a: seq<Transfer>, b: seq<Transfer>)
    ensures Send(a + b) == Send(a) + Send(b)
    decreases |b|
  {
    if b == [] {
      assert a + b == a;
    } else {
      SendAppend(a, b[..|b| - 1]);
      assert (a + b)[..|a + b| - 1] == a + b[..|b| - 1];
    }
  }

  /** Characters written with RS high, one transfer each. */
  function Data(cs: seq<bv8>): (ts: seq<Transfer>)
    ensures |ts| == |cs|
    decreases |cs|
  {
    if cs == [] then [] else Data(cs[..|cs| - 1]) + [Transfer(true, cs[|cs| - 1])]
  }

  /** Transfer i of Data(cs) writes character i. */
  lemma {:induction false} DataAt(cs: seq<bv8>, i: int)
    requires 0 <= i < |cs|
    ensures Data(cs)[i] == Transfer(true, cs[i])
    decreases |cs|
  {
    if i < |cs| - 1 {
      DataAt(cs[..|cs| - 1], i);
    }
  }

  /** One more character is one more transfer. */
  lemma DataSnoc(cs: seq<bv8>, c: bv8)
    ensures Data(cs + [c]) == Data(cs) + [Transfer(true, c)]
  {
    assert (cs + [c])[..|cs|] == cs;
  }

  /** One more transfer is one more Set_LCD call. */
  lemma SendSnoc(ts: seq<Transfer>, t: Transfer)
    ensures Send(ts + [t]) == Send(ts) + Encode(t)
  {
    assert (ts + [t])[..|ts|] == ts;
  }

  /** A single transfer is a single Set_LCD call. */
  lemma SendOne(t: Transfer)
    ensures Send([t]) == Encode(t)
  {
    assert [t][..0] == [];
  }

  /** A single character is a single data transfer. */
  lemma DataOne(c: bv8)
    ensures Data([c]) == [Transfer(true, c)]
  {
    assert [c][..0] == [];
  }

  /** One command byte. */
  function Command(c: bv8): (ts: seq<Transfer>)
    ensures |ts| == 1 && !ts[0].rs && ts[0].value == c
  {
    [Transfer(false, c)]
  }

  // ---------------------------------------------------------------------------
  // Cursor addressing
  // ---------------------------------------------------------------------------

  /** The DDRAM address of the first character of a display line; any line other
      than 2, 3 and 4 is taken as line 1. */
  function LineBase(line: bv8): (base: bv8)
    ensures base in {0x00, 0x10, 0x40, 0x50}
  {
    if line == 4 then FOURTH_ROW else if line == 3 then THIRD_ROW
    else if line == 2 then SECOND_ROW else 0x00
  }

  /** LCD_setCursor's command byte: the line's base ORed into Set DDRAM Address, plus
      pos - 1, computed as an int and truncated to the unsigned char Set_LCD takes. */
  function CursorCommand(line: bv8, pos: bv8): (c: bv8)
  {
    (SET_DDRAM_ADDRESS | LineBase(line)) + pos - 1
  }

  /** For a position from 1 that stays inside the 128-byte address space, the byte is
      a Set DDRAM Address command (bit 7 set) for address base + pos - 1. */
  lemma CursorAddresses(line: bv8, pos: bv8)
    requires 1 <= pos <= 0x80 - LineBase(line)
    ensures CursorCommand(line, pos) & 0x80 == 0x80
    ensures CursorCommand(line, pos) & 0x7F == LineBase(line) + pos - 1
    ensures line == 2 && pos == 5 ==> CursorCommand(line, pos) == 0xC4
  {
  }

  /** Position 0 on line 1 leaves bit 7 clear: the byte 0x7F is not a cursor command. */
  lemma CursorPositionZero()
    ensures CursorCommand(1, 0) == 0x7F && CursorCommand(1, 0) & 0x80 == 0
  {
  }

  /** LCD_print: the cursor command, then each character of the string up to its NUL. */
  function PrintTransfers(line: bv8, pos: bv8, s: seq<bv8>): (ts: seq<Transfer>)
    ensures |ts| == 1 + |UntilNul(s)|
  {
    Command(CursorCommand(line, pos)) + Data(UntilNul(s))
  }

  // ---------------------------------------------------------------------------
  // Initialisation
  // ---------------------------------------------------------------------------

  /** The command bytes LCD_begin sends once in 4-bit mode. */
  function BeginCommands(): (ts: seq<Transfer>)
    ensures |ts| == 5
  {
    Command(FUNCTION_SET | DL_4 | TWO_LINE | NORMAL_FONT) + Command(DISPLAY_CONTROL | DISP_OFF) +
    Command(CLEAR) + Command(ENTRY_MODE_SET | INC_MODE | NO_SHIFT) +
    Command(DISPLAY_CONTROL | DISP_ON | CURS_OFF)
  }

  /** LCD_begin's pulses: the three single 0x3 nibbles and the 0x2 nibble of the
      HD44780 4-bit reset procedure, then the five commands. */
  function BeginLog(): (ps: seq<Pulse>)
    ensures |ps| == 14
  {
    [Pins8(L_CMD, 0x03), Pins8(L_CMD, 0x03), Pins8(L_CMD, 0x03), Pins8(L_CMD, 0x02)] + Send(BeginCommands())
  }

  /** The initialisation sends nibbles 3, 3, 3, 2 and then commands 0x28 (4-bit bus,
      two lines, 5x8 font), 0x08 (display off), 0x01 (clear), 0x06 (increment, no
      shift) and 0x0C (display on, cursor off), all with RS low. */
  lemma BeginSequence()
    ensures forall i :: 0 <= i < 14 ==> !BeginLog()[i].rs
    ensures BeginLog()[0].nibble == BeginLog()[1].nibble == BeginLog()[2].nibble == 3
    ensures BeginLog()[3].nibble == 2
    ensures Decode(BeginLog()[4..]) ==
      [Transfer(false, 0x28), Transfer(false, 0x08), Transfer(false, 0x01),
       Transfer(false, 0x06), Transfer(false, 0x0C)]
  {
    assert BeginLog()[4..] == Send(BeginCommands());
    SendDecodes(BeginCommands());
    var ps := Send(BeginCommands());
    forall i | 0 <= i < 10
      ensures !ps[i].rs
    {
      SendRs(BeginCommands(), i);
    }
  }

  /** LCD_begin's five Set_LCD calls, one after the other, send BeginCommands. */
  lemma BeginSends()
    ensures Send(BeginCommands()) ==
      Send([BeginCommands()[0]]) + Send([BeginCommands()[1]]) + Send([BeginCommands()[2]]) +
      Send([BeginCommands()[3]]) + Send([BeginCommands()[4]])
  {
    var ts := BeginCommands();
    assert ts == [ts[0]] + [ts[1]] + [ts[2]] + [ts[3]] + [ts[4]];
    SendAppend([ts[0]] + [ts[1]] + [ts[2]] + [ts[3]], [ts[4]]);
    SendAppend([ts[0]] + [ts[1]] + [ts[2]], [ts[3]]);
    SendAppend([ts[0]] + [ts[1]], [ts[2]]);
    SendAppend([ts[0]], [ts[1]]);
  }

  /** Pulse i of Send(ts) carries the RS of transfer i / 2. */
  lemma {:induction false} SendRs(ts: seq<Transfer>, i: int)
    requires 0 <= i < 2 * |ts|
    ensures Send(ts)[i].rs == ts[i / 2].rs
    decreases |ts|
  {
    if i < 2 * |ts| - 2 {
      SendRs(ts[..|ts| - 1], i);
    }
  }

  // ---------------------------------------------------------------------------
  // Decimal output
  // ---------------------------------------------------------------------------

  function Pow10(k: nat): (p: int)
    ensures p >= 1
  {
    if k == 0 then 1 else 10 * Pow10(k - 1)
  }

  /** A decimal digit value. */
  type Digit = d: int | 0 <= d < 10

  /** The last k decimal digits of n, most significant first. */
  function Digits(k: nat, n: int): (ds: seq<Digit>)
    requires 0 <= n
    ensures |ds| == k
  {
    if k == 0 then [] else Digits(k - 1, n / 10) + [n % 10]
  }

  /** The number a digit sequence spells, most significant first. */
  function Decimal(ds: seq<int>): int
  {
    if ds == [] then 0 else Decimal(ds[..|ds| - 1]) * 10 + ds[|ds| - 1]
  }

  /** Read back, the k digits give n modulo 10^k; all of n when it has at most k. */
  lemma {:induction false} DigitsRoundTrip(k: nat, n: int)
    requires 0 <= n
    ensures Decimal(Digits(k, n)) == n % Pow10(k)
    ensures n < Pow10(k) ==> Decimal(Digits(k, n)) == n
  {
    if k > 0 {
      DigitsRoundTrip(k - 1, n / 10);
      assert Digits(k, n)[..k - 1] == Digits(k - 1, n / 10);
      ModTen(n, Pow10(k - 1));
    }
  }

  /** The digit at position j from the right is (n / 10^j) % 10. */
  lemma {:induction false} DigitAt(k: nat, n: int, j: nat)
    requires 0 <= n && j < k
    ensures Digits(k, n)[k - 1 - j] == n / Pow10(j) % 10
  {
    if j > 0 {
      DigitAt(k - 1, n / 10, j - 1);
      DivDiv(n, 10, Pow10(j - 1));
    }
  }

  /** Dropping the leading digit of k + 1 digits leaves the last k. */
  lemma {:induction false} DigitsSuffix(k: nat, n: int)
    requires 0 <= n
    ensures Digits(k + 1, n)[1..] == Digits(k, n)
  {
    if k > 0 {
      DigitsSuffix(k - 1, n / 10);
      assert Digits(k + 1, n)[1..] == Digits(k, n / 10)[1..] + [n % 10];
    }
  }

  /** LCD_BCDprint's chain of divisions and remainders by 10000, 1000, 100 and 10
      leaves digit j of an unsigned int in cell j. */
  lemma ChainDigits(n: int)
    requires 0 <= n < 0x1_0000
    ensures n / 10000 == n / Pow10(4) % 10
    ensures n % 10000 / 1000 == n / Pow10(3) % 10
    ensures n % 10000 % 1000 / 100 == n / Pow10(2) % 10
    ensures n % 10000 % 1000 % 100 / 10 == n / Pow10(1) % 10
    ensures n % 10000 % 1000 % 100 % 10 == n / Pow10(0) % 10
  {
    assert Pow10(4) == 10000 && Pow10(3) == 1000 && Pow10(2) == 100 && Pow10(1) == 10 && Pow10(0) == 1;
    ModDiv(n, 1000, 10);
    ModMod(n, 1000, 10);
    ModDiv(n, 100, 10);
    ModMod(n, 100, 10);
    ModDiv(n, 10, 10);
    ModMod(n, 10, 10);
  }

  /** The number of digits LCD_BCDprint shows: at most 5. */
  function Shown(requiredDigits: int): (k: nat)
    requires 0 <= requiredDigits
    ensures k <= 5 && (k == requiredDigits || (k == 5 && requiredDigits > 5))
  {
    if requiredDigits > 5 then 5 else requiredDigits
  }

  /** The character '0' + d that LCD_putchar receives for a digit value d. */
  function DigitChar(d: Digit): bv8
  {
    (d + 0x30) as bv8
  }

  /** The characters '0'..'9' for digit values 0..9. */
  function DigitChars(ds: seq<Digit>): (cs: seq<bv8>)
    ensures |cs| == |ds|
    decreases |ds|
  {
    if ds == [] then [] else DigitChars(ds[..|ds| - 1]) + [DigitChar(ds[|ds| - 1])]
  }

  /** LCD_BCDprint's characters: '0' plus each of the last min(required_digits, 5)
      decimal digits, most significant first, leading zeros kept. */
  function BcdChars(requiredDigits: int, n: int): (cs: seq<bv8>)
    requires 0 <= requiredDigits < 256 && 0 <= n < 0x1_0000
    ensures |cs| == Shown(requiredDigits)
  {
    DigitChars(Digits(Shown(requiredDigits), n))
  }

  /** One more digit is one more character. */
  lemma DigitCharsSnoc(ds: seq<Digit>, d: Digit)
    ensures DigitChars(ds + [d]) == DigitChars(ds) + [DigitChar(d)]
  {
    assert (ds + [d])[..|ds|] == ds;
  }

  /** Character i is '0' plus digit i. */
  lemma {:induction false} DigitCharsAt(ds: seq<Digit>, i: int)
    requires 0 <= i < |ds|
    ensures DigitChars(ds)[i] == DigitChar(ds[i])
    decreases |ds|
  {
    if i < |ds| - 1 {
      DigitCharsAt(ds[..|ds| - 1], i);
    }
  }

  /** Character i of LCD_BCDprint's output is '0' plus the decimal digit of weight
      10^(k - 1 - i), k being the number of digits shown. */
  lemma BcdCharAt(requiredDigits: int, n: int, i: int)
    requires 0 <= requiredDigits < 256 && 0 <= n < 0x1_0000
    requires 0 <= i < Shown(requiredDigits)
    ensures BcdChars(requiredDigits, n)[i] == DigitChar(n / Pow10(Shown(requiredDigits) - 1 - i) % 10)
  {
    var k := Shown(requiredDigits);
    DigitCharsAt(Digits(k, n), i);
    DigitAt(k, n, k - 1 - i);
  }

  /** LCD_BCDprint(4, 678) shows "0678". */
  lemma BcdExample()
    ensures var cs := BcdChars(4, 678);
      |cs| == 4 && cs[0] == 0x30 && cs[1] == 0x36 && cs[2] == 0x37 && cs[3] == 0x38
  {
    var ds := Digits(4, 678);
    assert ds == [0, 6, 7, 8] by {
      assert Digits(1, 0) == [0];
      assert Digits(2, 6) == [0, 6];
      assert Digits(3, 67) == [0, 6, 7];
    }
    DigitCharsAt(ds, 0);
    DigitCharsAt(ds, 1);
    DigitCharsAt(ds, 2);
    DigitCharsAt(ds, 3);
  }

  /** Five digits show every unsigned int in full. */
  lemma BcdFull(n: int)
    requires 0 <= n < 0x1_0000
    ensures Decimal(Digits(Shown(5), n)) == n
  {
    DigitsRoundTrip(5, n);
  }
}

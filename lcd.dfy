/** lcd.c as the firmware runs it: the RS, E and LCD_4..LCD_7 pins and the LCDPINS
    byte are fields written step by step, every E pulse is appended to a log, and
    LCD_print and LCD_BCDprint keep their loops (LCD_BCDprint also its local digit
    array). Each routine is proved to append exactly the pulses LcdModel gives for
    it, so LcdModel.SendDecodes says which bytes reach the controller. */
module Lcd {
  import opened CString
  import opened LcdModel

  class Display {
    var rsPin: bool
    var ePin: bool
    // LCD_4..LCD_7
    var d4: bool
    var d5: bool
    var d6: bool
    var d7: bool
    /** The LCDPINS byte. */
    var lcdPins: bv8
    /** The E pulses so far, oldest first. */
    var log: seq<Pulse>

    /** The nibble on LCD_7..LCD_4. */
    function Nibble(): bv8
      reads this
    {
      (if d4 then 1 else 0) | (if d5 then 2 else 0) | (if d6 then 4 else 0) | (if d7 then 8 else 0)
    }

    /** Between calls E is low, the data lines show the low nibble of LCDPINS, and RS
        and the data lines still hold the levels of the last pulse. */
    ghost predicate Idle()
      reads this
    {
      !ePin && lcdPins & 0x0F == Nibble() &&
      (log != [] ==> rsPin == log[|log| - 1].rs && Nibble() == log[|log| - 1].nibble)
    }

    constructor ()
      ensures Idle() && log == []
    {
      rsPin, ePin := false, false;
      d4, d5, d6, d7 := false, false, false, false;
      lcdPins := 0;
      log := [];
    }

    method SetLcdPins8(rs: bv8, datain: bv8)
      modifies this
      ensures log == old(log) + [Pins8(rs, datain)]
      ensures lcdPins == datain && Idle()
    {
      lcdPins := datain;
      rsPin := rs & 1 == 1;
      d4 := lcdPins & 1 == 1;
      d5 := lcdPins & 2 == 2;
      d6 := lcdPins & 4 == 4;
      d7 := lcdPins & 8 == 8;
      ePin := true;
      log := log + [Pulse(rsPin, Nibble())];
      ePin := false;
    }

    method SetLcd(rs: bv8, datain: bv8)
      modifies this
      ensures log == old(log) + LcdModel.SetLcd(rs, datain) && Idle()
      ensures lcdPins == datain & 0x0F
    {
      SetLcdPins8(rs, (datain >> 4) & 0x0F);
      SetLcdPins8(rs, datain & 0x0F);
    }

    /** One Set_LCD call, seen as a transfer. */
    method Transmit(rs: bv8, datain: bv8, ghost t: Transfer)
      requires t == Transfer(rs == L_DATA, datain) && (rs == L_DATA || rs == L_CMD)
      modifies this
      ensures log == old(log) + Encode(t) && Idle()
    {
      SetLcd(rs, datain);
    }

    method Clear()
      modifies this
      ensures log == old(log) + Send(Command(CLEAR)) && Idle()
    {
      Transmit(L_CMD, CLEAR, Transfer(false, CLEAR));
      SendOne(Transfer(false, CLEAR));
    }

    method Home()
      modifies this
      ensures log == old(log) + Send(Command(HOME)) && Idle()
    {
      Transmit(L_CMD, HOME, Transfer(false, HOME));
      SendOne(Transfer(false, HOME));
    }

    method Display()
      modifies this
      ensures log == old(log) + Send(Command(DISPLAY_CONTROL | DISP_ON)) && Idle()
    {
      Transmit(L_CMD, DISPLAY_CONTROL | DISP_ON, Transfer(false, DISPLAY_CONTROL | DISP_ON));
      SendOne(Transfer(false, DISPLAY_CONTROL | DISP_ON));
    }

    method NoDisplay()
      modifies this
      ensures log == old(log) + Send(Command(DISPLAY_CONTROL | DISP_OFF)) && Idle()
    {
      Transmit(L_CMD, DISPLAY_CONTROL | DISP_OFF, Transfer(false, DISPLAY_CONTROL | DISP_OFF));
      SendOne(Transfer(false, DISPLAY_CONTROL | DISP_OFF));
    }

    method SetCursor(line: bv8, pos: bv8)
      modifies this
      ensures log == old(log) + Send(Command(CursorCommand(line, pos))) && Idle()
    {
      var c := CursorCommand(line, pos);
      Transmit(L_CMD, c, Transfer(false, c));
      SendOne(Transfer(false, c));
    }

    method Putchar(datain: bv8)
      modifies this
      ensures log == old(log) + Send(Data([datain])) && Idle()
    {
      Transmit(L_DATA, datain, Transfer(true, datain));
      DataOne(datain);
      SendOne(Transfer(true, datain));
    }

    method Print(line: bv8, pos: bv8, str: seq<bv8>)
      modifies this
      ensures log == old(log) + Send(PrintTransfers(line, pos, str)) && Idle()
    {
      SetCursor(line, pos);
      ghost var start := log;
      var i := 0;
      while i < |str| && str[i] != NUL
        invariant 0 <= i <= |str| && forall j :: 0 <= j < i ==> str[j] != NUL
        invariant log == start + Send(Data(str[..i])) && Idle()
      {
        Transmit(L_DATA, str[i], Transfer(true, str[i]));
        DataStep(start, str, i);
        i := i + 1;
      }
      PrintDone(old(log), line, pos, str, i);
    }

    /** LCD_BCDprint's ui_decimal array: cell j holds the decimal digit of weight 10^j. */
    static method DecimalCells(theNumber: int) returns (decimal: array<int>)
      requires 0 <= theNumber < 0x1_0000
      ensures fresh(decimal) && decimal.Length == 5
      ensures forall j :: 0 <= j < 5 ==> decimal[j] == theNumber / Pow10(j) % 10
    {
      decimal := new int[5](_ => 0);
      decimal[4] := theNumber / 10000;
      decimal[3] := theNumber % 10000;
      decimal[2] := decimal[3] % 1000;
      decimal[3] := decimal[3] / 1000;
      decimal[1] := decimal[2] % 100;
      decimal[2] := decimal[2] / 100;
      decimal[0] := decimal[1] % 10;
      decimal[1] := decimal[1] / 10;
      ChainDigits(theNumber);
    }

    method BcdPrint(requiredDigits: int, theNumber: int)
      requires 0 <= requiredDigits < 256 && 0 <= theNumber < 0x1_0000
      requires Idle()
      modifies this
      ensures log == old(log) + Send(Data(BcdChars(requiredDigits, theNumber))) && Idle()
    {
      var decimal := DecimalCells(theNumber);
      var digits := requiredDigits;
      if digits > 5 {
        digits := 5;
      }
      ghost var cs := BcdChars(requiredDigits, theNumber);
      forall j | 0 <= j < digits
        ensures cs[j] == DigitChar(decimal[digits - 1 - j])
      {
        BcdCharAt(requiredDigits, theNumber, j);
      }
      PutDigits(decimal[..], digits, cs);
    }

    /** LCD_BCDprint's loop: cells count - 1 down to 0, each as the character '0' plus
        the cell's digit. */
    method PutDigits(cells: seq<int>, count: int, ghost cs: seq<bv8>)
      requires 0 <= count <= |cells| && |cs| == count
      requires forall j :: 0 <= j < count ==> 0 <= cells[j] < 10
      requires forall j {:trigger cs[j]} :: 0 <= j < count ==> cs[j] == DigitChar(cells[count - 1 - j])
      requires Idle()
      modifies this
      ensures log == old(log) + Send(Data(cs)) && Idle()
    {
      var digits := count;
      ghost var start := log;
      while digits > 0
        invariant 0 <= digits <= count
        invariant log == start + Send(Data(cs[..count - digits])) && Idle()
      {
        PutNext(start, cs, count - digits, DigitChar(cells[digits - 1]));
        digits := digits - 1;
      }
      assert cs[..count] == cs;
    }

    /** Putchar of character i of cs, seen as extending the characters before it. */
    method PutNext(ghost start: seq<Pulse>, ghost cs: seq<bv8>, ghost i: int, c: bv8)
      requires 0 <= i < |cs| && c == cs[i] && log == start + Send(Data(cs[..i]))
      modifies this
      ensures log == start + Send(Data(cs[..i + 1])) && Idle()
    {
      Putchar(c);
      DataOne(c);
      SendOne(Transfer(true, c));
      DataStep(start, cs, i);
    }

    method Begin()
      modifies this
      ensures log == old(log) + BeginLog() && Idle()
    {
      rsPin, ePin := false, false;
      d4, d5, d6, d7 := false, false, false, false;
      SetLcdPins8(L_CMD, 0x03);
      SetLcdPins8(L_CMD, 0x03);
      SetLcdPins8(L_CMD, 0x03);
      SetLcdPins8(L_CMD, 0x02);
      ghost var start := log;
      Transmit(L_CMD, FUNCTION_SET | DL_4 | TWO_LINE | NORMAL_FONT, BeginCommands()[0]);
      Transmit(L_CMD, DISPLAY_CONTROL | DISP_OFF, BeginCommands()[1]);
      Transmit(L_CMD, CLEAR, BeginCommands()[2]);
      Transmit(L_CMD, ENTRY_MODE_SET | INC_MODE | NO_SHIFT, BeginCommands()[3]);
      Transmit(L_CMD, DISPLAY_CONTROL | DISP_ON | CURS_OFF, BeginCommands()[4]);
      BeginChain(old(log));
    }
  }

  /** One loop step of LCD_print or LCD_BCDprint: character i's transfer extends the
      transfers of the characters before it. */
  lemma DataStep(start: seq<Pulse>, s: seq<bv8>, i: int)
    requires 0 <= i < |s|
    ensures start + Send(Data(s[..i])) + Encode(Transfer(true, s[i])) == start + Send(Data(s[..i + 1]))
  {
    assert s[..i + 1] == s[..i] + [s[i]];
    DataSnoc(s[..i], s[i]);
    SendSnoc(Data(s[..i]), Transfer(true, s[i]));
  }

  /** LCD_print's cursor command followed by the characters up to the NUL. */
  lemma PrintDone(pre: seq<Pulse>, line: bv8, pos: bv8, s: seq<bv8>, i: int)
    requires 0 <= i <= |s| && forall j :: 0 <= j < i ==> s[j] != NUL
    requires i == |s| || s[i] == NUL
    ensures pre + Send(Command(CursorCommand(line, pos))) + Send(Data(s[..i])) ==
      pre + Send(PrintTransfers(line, pos, s))
  {
    UntilNulAt(s, i);
    SendAppend(Command(CursorCommand(line, pos)), Data(s[..i]));
  }

  /** LCD_begin's nine calls, one after the other, send BeginLog. */
  lemma BeginChain(pre: seq<Pulse>)
    ensures pre + [Pins8(L_CMD, 0x03)] + [Pins8(L_CMD, 0x03)] + [Pins8(L_CMD, 0x03)] + [Pins8(L_CMD, 0x02)] +
      Encode(BeginCommands()[0]) + Encode(BeginCommands()[1]) + Encode(BeginCommands()[2]) +
      Encode(BeginCommands()[3]) + Encode(BeginCommands()[4]) == pre + BeginLog()
  {
    var ts := BeginCommands();
    BeginSends();
    SendOne(ts[0]);
    SendOne(ts[1]);
    SendOne(ts[2]);
    SendOne(ts[3]);
    SendOne(ts[4]);
  }
}

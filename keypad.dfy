/** Keypad.c as the firmware runs it: a port object whose row latches, column reads,
    delays, `static bit` variables and PORTB change-interrupt flags are updated step by
    step, with the row and column `for` loops and their `break`s. Every entry point is
    proved to leave the port exactly as the function of the same name in KeypadModel
    says, and to return that function's key. */
module Keypad {
  import opened KeypadModel

  class Port {
    /** What the column inputs show at each read, given the row latches. */
    const input: Input

    // Output latches KP_ROW1..KP_ROW4.
    var row1: bool
    var row2: bool
    var row3: bool
    var row4: bool
    /** Direction of the lines shared by KP_COL1..KP_COL4 and LCD_4..LCD_7. */
    var lines: Lines
    /** Column reads taken so far. */
    var samples: int
    /** Milliseconds spent in __delay_ms. */
    var waitedMs: int
    /** Confirm_COL's `static bit Key_pressed`. */
    var confirmPressed: bool
    /** findKey_inRow's `static bit Key_Confirmed`. */
    var keyConfirmed: bool
    /** Keypad_getKeyState's `static bit Key_pressed`. */
    var statePressed: bool
    /** Keypad_ISR's `static bit Key_pressed`. */
    var isrPressed: bool
    /** RBIE and RBIF. */
    var rbie: bool
    var rbif: bool

    function RowLatches(): Rows
      reads this
    {
      Rows(row1, row2, row3, row4)
    }

    /** The port as KeypadModel sees it. The three `static bit`s other than
        Confirm_COL's are assigned before every use, so they are not part of it. */
    ghost function State(): PortState
      reads this
    {
      PortState(RowLatches(), lines, samples, waitedMs, confirmPressed, rbie, rbif)
    }

    /** The `static bit`s that KeypadModel leaves out. */
    ghost function Statics(): (bool, bool, bool)
      reads this
    {
      (keyConfirmed, statePressed, isrPressed)
    }

    /** A port at power-on state s; C zeroes every `static bit` at start-up. */
    constructor (input: Input, s: PortState)
      ensures this.input == input
      ensures State() == s.(confirmLatch := false) && Statics() == (false, false, false)
    {
      this.input := input;
      row1, row2, row3, row4 := s.rows.r1, s.rows.r2, s.rows.r3, s.rows.r4;
      lines, samples, waitedMs := s.lines, s.samples, s.waitedMs;
      confirmPressed, keyConfirmed, statePressed, isrPressed := false, false, false, false;
      rbie, rbif := s.rbie, s.rbif;
    }

    /** One read of KP_COL1..KP_COL4. */
    method ReadColumns() returns (v: Cols)
      modifies this
      ensures v == input(old(samples), old(RowLatches()), old(lines))
      ensures State() == old(State()).(samples := old(samples) + 1) && Statics() == old(Statics())
    {
      v := input(samples, RowLatches(), lines);
      samples := samples + 1;
    }

    /** __delay_ms(ms). */
    method Delay(ms: int)
      modifies this
      ensures State() == old(State()).(waitedMs := old(waitedMs) + ms) && Statics() == old(Statics())
    {
      waitedMs := waitedMs + ms;
    }

    /** Every row latch HIGH, then the selected one LOW. */
    method SelectRow(row: int)
      modifies this
      ensures State() == old(State()).(rows := Selected(row)) && Statics() == old(Statics())
    {
      row1, row2, row3, row4 := HIGH, HIGH, HIGH, HIGH;
      match row
      case 1 => row1 := LOW;
      case 2 => row2 := LOW;
      case 3 => row3 := LOW;
      case 4 => row4 := LOW;
      case _ =>
    }

    /** Every row latch LOW, the "back to normal" of the scanning routines. */
    method AllRowsLow()
      modifies this
      ensures State() == old(State()).(rows := AllLow) && Statics() == old(Statics())
    {
      row1, row2, row3, row4 := LOW, LOW, LOW, LOW;
    }

    method ConfirmCol(col: int) returns (pressed: bool)
      modifies this
      ensures State() == KeypadModel.ConfirmCol(input, old(State()), col) && Statics() == old(Statics())
      ensures pressed == confirmPressed
    {
      if 1 <= col <= 4 {
        var v := ReadColumns();
        if OnlyLow(v, col) {
          Delay(DEBOUNCE_DELAY);
          v := ReadColumns();
          confirmPressed := OnlyLow(v, col);
        } else {
          confirmPressed := false;
        }
      }
      pressed := confirmPressed;
    }

    method FindKeyInRow(row: int) returns (key: bv8)
      requires 1 <= row <= 4
      modifies this
      ensures var r := FindKey(input, old(State()), row); State() == r.port && key == r.key
      ensures keyConfirmed == confirmPressed
      ensures statePressed == old(statePressed) && isrPressed == old(isrPressed)
    {
      ghost var s0 := State();
      key := NO_KEY;
      var col := 1;
      while col <= 4
        invariant 1 <= col <= 5
        invariant ConfirmColsFrom(input, State(), col) == ConfirmColsFrom(input, s0, 1)
        invariant col > 1 ==> keyConfirmed == confirmPressed
        invariant key == NO_KEY
        invariant statePressed == old(statePressed) && isrPressed == old(isrPressed)
        decreases 5 - col
      {
        keyConfirmed := ConfirmCol(col);
        if keyConfirmed {
          key := KeyAt(row, col);
          break;
        }
        col := col + 1;
      }
    }

    /** The `for (row = 1; row <= ROWS; row++)` pass that Keypad_getKey,
        Keypad_ALTgetKey and Keypad_ALTwaitForKey share. */
    method ScanRows() returns (key: bv8)
      modifies this
      ensures var r := ScanRowsFrom(input, old(State()), 1); State() == r.port && key == r.key
      ensures keyConfirmed == confirmPressed
      ensures statePressed == old(statePressed) && isrPressed == old(isrPressed)
    {
      ghost var s0 := State();
      key := NO_KEY;
      var row := 1;
      while row <= 4
        invariant 1 <= row <= 5
        invariant ScanRowsFrom(input, State(), row) == ScanRowsFrom(input, s0, 1)
        invariant key == NO_KEY
        invariant row > 1 ==> keyConfirmed == confirmPressed
        invariant statePressed == old(statePressed) && isrPressed == old(isrPressed)
        decreases 5 - row
      {
        SelectRow(row);
        key := FindKeyInRow(row);
        if key != NO_KEY {
          break;
        }
        row := row + 1;
      }
    }

    method GetKey() returns (key: bv8)
      modifies this
      ensures var r := KeypadModel.GetKey(input, old(State())); State() == r.port && key == r.key
      ensures NoneLow(Sample(input, old(State()))) ==> keyConfirmed == old(keyConfirmed)
      ensures !NoneLow(Sample(input, old(State()))) ==> keyConfirmed == confirmPressed
      ensures statePressed == old(statePressed) && isrPressed == old(isrPressed)
    {
      var v := ReadColumns();
      if NoneLow(v) {
        return NO_KEY;
      }
      key := ScanRows();
      AllRowsLow();
      Delay(KEYHOLD_DELAY);
    }

    /** Keypad_waitForKey, giving up after maxPolls calls of Keypad_getKey. */
    method WaitForKey(maxPolls: nat) returns (key: bv8)
      modifies this
      ensures var r := KeypadModel.WaitForKey(input, old(State()), maxPolls); State() == r.port && key == r.key
      ensures keyConfirmed == old(keyConfirmed) || keyConfirmed == confirmPressed
      ensures statePressed == old(statePressed) && isrPressed == old(isrPressed)
    {
      ghost var s0 := State();
      key := NO_KEY;
      var polls := 0;
      while key == NO_KEY && polls < maxPolls
        invariant 0 <= polls <= maxPolls
        invariant key == NO_KEY ==>
          KeypadModel.WaitForKey(input, State(), maxPolls - polls) == KeypadModel.WaitForKey(input, s0, maxPolls)
        invariant key != NO_KEY ==>
          KeypadModel.WaitForKey(input, s0, maxPolls).port == State() &&
          KeypadModel.WaitForKey(input, s0, maxPolls).key == key
        invariant keyConfirmed == old(keyConfirmed) || keyConfirmed == confirmPressed
        invariant statePressed == old(statePressed) && isrPressed == old(isrPressed)
        decreases maxPolls - polls
      {
        key := GetKey();
        polls := polls + 1;
      }
    }

    method GetKeyState(row: int, col: int) returns (state: bv8)
      modifies this
      ensures var r := KeypadModel.GetKeyState(input, old(State()), row, col); State() == r.port && state == r.state
      ensures statePressed == (state == PRESSED)
    {
      SelectRow(row);
      statePressed := ConfirmCol(col);
      AllRowsLow();
      if statePressed {
        state := PRESSED;
      } else {
        state := RELEASED;
      }
    }

    /** One row of Keypad_ISR's column loop. */
    method IsrRow(row: int) returns (key: bv8)
      requires 1 <= row <= 4
      modifies this
      ensures var r := KeypadModel.IsrRow(input, old(State()), row); State() == r.port && key == r.key
      ensures isrPressed == (key != NO_KEY)
      ensures keyConfirmed == old(keyConfirmed) && statePressed == old(statePressed)
    {
      ghost var s0 := State();
      key := NO_KEY;
      isrPressed := false;
      var col := 1;
      while col <= 4
        invariant 1 <= col <= 5
        invariant IsrColsFrom(input, State(), col) == IsrColsFrom(input, s0, 1)
        invariant key == NO_KEY && !isrPressed
        invariant keyConfirmed == old(keyConfirmed) && statePressed == old(statePressed)
        decreases 5 - col
      {
        var v := ReadColumns();
        isrPressed := OnlyLow(v, col);
        if isrPressed {
          key := KeyAt(row, col);
          break;
        }
        col := col + 1;
      }
    }

    method Isr() returns (key: bv8)
      modifies this
      ensures var r := KeypadModel.Isr(input, old(State())); State() == r.port && key == r.key
      ensures isrPressed == (key != NO_KEY)
    {
      rbie := false;
      ghost var s0 := State();
      key := NO_KEY;
      isrPressed := false;
      var row := 1;
      while row <= 4
        invariant 1 <= row <= 5
        invariant IsrRowsFrom(input, State(), row) == IsrRowsFrom(input, s0, 1)
        invariant key == NO_KEY && !isrPressed
        decreases 5 - row
      {
        SelectRow(row);
        key := IsrRow(row);
        if key != NO_KEY {
          break;
        }
        row := row + 1;
      }
      AllRowsLow();
      rbif := false;
      rbie := true;
    }

    method Begin(isrEnable: bool)
      modifies this
      ensures State() == KeypadModel.Begin(old(State()), isrEnable) && Statics() == old(Statics())
    {
      lines := ColumnInputs;
      AllRowsLow();
      if isrEnable {
        rbif := false;
        rbie := true;
      }
    }

    method KeypadBusEnable()
      modifies this
      ensures State() == KeypadModel.KeypadBusEnable(old(State())) && Statics() == old(Statics())
    {
      row1, row2, row3, row4 := HIGH, HIGH, HIGH, HIGH;
      lines := ColumnInputs;
    }

    method LcdBusEnable()
      modifies this
      ensures State() == KeypadModel.LcdBusEnable(old(State())) && Statics() == old(Statics())
    {
      row1, row2, row3, row4 := HIGH, HIGH, HIGH, HIGH;
      lines := LcdOutputs;
    }

    method AltGetKey() returns (key: bv8)
      modifies this
      ensures var r := KeypadModel.AltGetKey(input, old(State())); State() == r.port && key == r.key
      ensures NoneLow(input(old(samples), AllLow, ColumnInputs)) ==> keyConfirmed == old(keyConfirmed)
      ensures !NoneLow(input(old(samples), AllLow, ColumnInputs)) ==> keyConfirmed == confirmPressed
      ensures statePressed == old(statePressed) && isrPressed == old(isrPressed)
    {
      KeypadBusEnable();
      AllRowsLow();
      var v := ReadColumns();
      if NoneLow(v) {
        return NO_KEY;
      }
      key := ScanRows();
      LcdBusEnable();
      Delay(KEYHOLD_DELAY);
    }

    /** Keypad_ALTwaitForKey, giving up after maxPolls row passes with the lines still
        taken by the keypad. */
    method AltWaitForKey(maxPolls: nat) returns (key: bv8)
      modifies this
      ensures var r := KeypadModel.AltWaitForKey(input, old(State()), maxPolls); State() == r.port && key == r.key
      ensures maxPolls == 0 ==> keyConfirmed == old(keyConfirmed)
      ensures maxPolls >= 1 ==> keyConfirmed == confirmPressed
      ensures statePressed == old(statePressed) && isrPressed == old(isrPressed)
    {
      KeypadBusEnable();
      ghost var s0 := State();
      key := NO_KEY;
      var polls := 0;
      while key == NO_KEY && polls < maxPolls
        invariant 0 <= polls <= maxPolls
        invariant key == NO_KEY ==> AltPolls(input, State(), maxPolls - polls) == AltPolls(input, s0, maxPolls)
        invariant key != NO_KEY ==>
          AltPolls(input, s0, maxPolls).port == State() && AltPolls(input, s0, maxPolls).key == key
        invariant polls == 0 ==> key == NO_KEY && keyConfirmed == old(keyConfirmed)
        invariant polls >= 1 ==> keyConfirmed == confirmPressed
        invariant statePressed == old(statePressed) && isrPressed == old(isrPressed)
        decreases maxPolls - polls
      {
        key := ScanRows();
        polls := polls + 1;
      }
      if key != NO_KEY {
        LcdBusEnable();
        Delay(KEYHOLD_DELAY);
      }
    }
  }
}

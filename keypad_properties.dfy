/** What the keypad scanner returns when the switches hold still, and for the switch
    patterns the scanner is designed around: one key, two keys in one row (ghosting),
    two keys in different rows, and a contact that closes for too short a time. */
module KeypadProperties {
  import opened KeypadModel

  // ---------------------------------------------------------------------------
  // A reference scan for switches that hold still
  // ---------------------------------------------------------------------------

  /** The column levels do not depend on when they are read, only on the rows and the
      direction of the shared lines. */
  ghost predicate Steady(input: Input)
  {
    forall t: int, rows: Rows, lines: Lines :: input(t, rows, lines) == input(0, rows, lines)
  }

  /** The column that alone reads LOW, 0 when none or several do. */
  function SoleLow(v: Cols): (c: int)
    ensures 0 <= c <= 4
    ensures c != 0 <==> LowCount(v) == 1
    ensures c != 0 ==> OnlyLow(v, c)
    ensures forall k :: OnlyLow(v, k) ==> k == c
  {
    if LowCount(v) == 1 then LowColumn(v) else 0
  }

  /** With row `row` selected and the shared lines as column inputs on a steady input,
      the column seen alone (0 for none). */
  function RowHit(input: Input, row: int): int
  {
    SoleLow(input(0, Selected(row), ColumnInputs))
  }

  /** Where a scan from row `row` on should stop on a steady input: the first row, in
      the order ROW1..ROW4, in which exactly one column reads LOW, and that column;
      (0, 0) when no row from `row` on has one. */
  function SteadyHitFrom(input: Input, row: int): (p: (int, int))
    requires 1 <= row <= 5
    decreases 5 - row
    ensures p.0 != 0 ==>
      row <= p.0 <= 4 && RowHit(input, p.0) == p.1 != 0 &&
      forall rr :: row <= rr < p.0 ==> RowHit(input, rr) == 0
    ensures p.0 == 0 ==> p.1 == 0 && forall rr :: row <= rr <= 4 ==> RowHit(input, rr) == 0
  {
    if row == 5 then (0, 0)
    else if RowHit(input, row) != 0 then (row, RowHit(input, row))
    else SteadyHitFrom(input, row + 1)
  }

  /** A scan result that stops at position p. With `Consistent`, which every scan
      guarantees, this fixes the key too. */
  predicate StopsAt(r: Scan, p: (int, int))
  {
    r.row == p.0 && r.col == p.1
  }

  // ---------------------------------------------------------------------------
  // Each scanning routine agrees with the reference on a steady input
  // ---------------------------------------------------------------------------

  /** On a steady input, findKey_inRow's column loop stops at the column seen alone,
      and only if that column is at or after `col`. Every column before it fails on its
      first read, so the loop takes one read per earlier column, two and the debounce
      delay for the column it accepts, and reads no later column. */
  lemma {:induction false} ConfirmColsSteady(input: Input, s: PortState, col: int)
    requires Steady(input) && 1 <= col <= 5
    ensures var r := ConfirmColsFrom(input, s, col);
      var c := SoleLow(input(0, s.rows, s.lines));
      r.col == (if col <= c then c else 0) &&
      (r.col != 0 ==>
        r.port.confirmLatch && r.port.samples == s.samples + (r.col - col) + 2 &&
        r.port.waitedMs == s.waitedMs + DEBOUNCE_DELAY) &&
      (r.col == 0 ==> r.port.samples == s.samples + (5 - col) && r.port.waitedMs == s.waitedMs)
    decreases 5 - col
  {
    if col < 5 {
      var t := ConfirmCol(input, s, col);
      assert input(s.samples, s.rows, s.lines) == input(0, s.rows, s.lines) == input(s.samples + 1, s.rows, s.lines);
      ConfirmColSpec(input, s, col);
      if !t.confirmLatch {
        ConfirmColsSteady(input, t, col + 1);
      }
    }
  }

  /** The reference from a row with no hit moves on to the next row. */
  lemma SteadyHitStep(input: Input, row: int)
    requires 1 <= row <= 4
    ensures SteadyHitFrom(input, row) ==
      if RowHit(input, row) != 0 then (row, RowHit(input, row)) else SteadyHitFrom(input, row + 1)
  {
  }

  /** One row of getKey's pass on a steady input with the shared lines as column
      inputs: stop at the row's hit, or go on. */
  lemma ScanRowsStep(input: Input, s: PortState, row: int)
    requires Steady(input) && 1 <= row <= 4 && s.lines == ColumnInputs
    ensures var r := FindKey(input, s.(rows := Selected(row)), row);
      var next := ScanRowsFrom(input, r.port, row + 1);
      var here := ScanRowsFrom(input, s, row);
      (RowHit(input, row) != 0 ==> here.row == row && here.col == RowHit(input, row)) &&
      (RowHit(input, row) == 0 ==> here == next)
  {
    ConfirmColsSteady(input, s.(rows := Selected(row)), 1);
  }

  /** On a steady input with the shared lines as column inputs, the row pass of getKey
      stops where the reference does. */
  lemma {:induction false} ScanRowsSteady(input: Input, s: PortState, row: int)
    requires Steady(input) && 1 <= row <= 5 && s.lines == ColumnInputs
    ensures StopsAt(ScanRowsFrom(input, s, row), SteadyHitFrom(input, row))
    decreases 5 - row
  {
    if row < 5 {
      ScanRowsStep(input, s, row);
      FindKeySpec(input, s.(rows := Selected(row)), row);
      SteadyHitStep(input, row);
      ScanRowsSteady(input, FindKey(input, s.(rows := Selected(row)), row).port, row + 1);
    }
  }

  /** Keypad_getKey on a steady input with no column LOW at the first read: NO_KEY. */
  lemma GetKeyIdle(input: Input, s: PortState)
    requires Steady(input) && NoneLow(input(0, s.rows, s.lines))
    ensures GetKey(input, s).key == NO_KEY
  {
    assert Sample(input, s) == input(0, s.rows, s.lines);
  }

  /** Past its fast path, Keypad_getKey stops where its row pass does. */
  lemma GetKeyScans(input: Input, s: PortState)
    requires !NoneLow(Sample(input, s))
    ensures GetKey(input, s).row == ScanRowsFrom(input, s.(samples := s.samples + 1), 1).row
    ensures GetKey(input, s).col == ScanRowsFrom(input, s.(samples := s.samples + 1), 1).col
  {
  }

  /** Keypad_getKey on a steady input, with the shared lines as column inputs and some
      column LOW at the first read: the key where the reference stops. */
  lemma GetKeySteady(input: Input, s: PortState)
    requires Steady(input) && s.lines == ColumnInputs && !NoneLow(input(0, s.rows, ColumnInputs))
    ensures StopsAt(GetKey(input, s), SteadyHitFrom(input, 1))
  {
    assert Sample(input, s) == input(0, s.rows, ColumnInputs);
    GetKeyScans(input, s);
    ScanRowsSteady(input, s.(samples := s.samples + 1), 1);
  }

  /** Keypad_ALTgetKey on a steady input with no column LOW while every row is LOW: NO_KEY.
      It takes the shared lines itself, so this holds whatever their direction before. */
  lemma AltGetKeyIdle(input: Input, s: PortState)
    requires Steady(input) && NoneLow(input(0, AllLow, ColumnInputs))
    ensures AltGetKey(input, s).key == NO_KEY
  {
    assert Sample(input, KeypadBusEnable(s).(rows := AllLow)) == input(0, AllLow, ColumnInputs);
  }

  /** Keypad_ALTgetKey on a steady input with some column LOW while every row is LOW:
      the key where the reference stops. */
  lemma AltGetKeySteady(input: Input, s: PortState)
    requires Steady(input) && !NoneLow(input(0, AllLow, ColumnInputs))
    ensures StopsAt(AltGetKey(input, s), SteadyHitFrom(input, 1))
  {
    var a := KeypadBusEnable(s).(rows := AllLow);
    assert Sample(input, a) == input(0, AllLow, ColumnInputs);
    AltGetKeyScans(input, s);
    ScanRowsSteady(input, a.(samples := a.samples + 1), 1);
  }

  /** Past its fast path, Keypad_ALTgetKey stops where its row pass does. */
  lemma AltGetKeyScans(input: Input, s: PortState)
    requires !NoneLow(input(s.samples, AllLow, ColumnInputs))
    ensures var a := KeypadBusEnable(s).(rows := AllLow);
      AltGetKey(input, s).row == ScanRowsFrom(input, a.(samples := a.samples + 1), 1).row &&
      AltGetKey(input, s).col == ScanRowsFrom(input, a.(samples := a.samples + 1), 1).col
  {
  }

  /** Keypad_ALTwaitForKey on a steady input on which the reference finds a key: the
      first row pass already stops where the reference does. It takes the shared lines
      itself and has no fast path, so no premise on the rows or the lines is needed. */
  lemma AltWaitForKeySteady(input: Input, s: PortState, fuel: nat)
    requires Steady(input) && fuel >= 1 && SteadyHitFrom(input, 1).0 != 0
    ensures StopsAt(AltWaitForKey(input, s, fuel), SteadyHitFrom(input, 1))
  {
    ScanRowsSteady(input, KeypadBusEnable(s), 1);
    ScanRowsFound(input, KeypadBusEnable(s), 1);
  }

  /** On a steady input, one row of Keypad_ISR finds the same column as findKey_inRow. */
  lemma {:induction false} IsrColsSteady(input: Input, s: PortState, col: int)
    requires Steady(input) && 1 <= col <= 5
    ensures IsrColsFrom(input, s, col).col ==
      (if col <= SoleLow(input(0, s.rows, s.lines)) then SoleLow(input(0, s.rows, s.lines)) else 0)
    decreases 5 - col
  {
    if col < 5 {
      assert Sample(input, s) == input(0, s.rows, s.lines);
      if !OnlyLow(Sample(input, s), col) {
        IsrColsSteady(input, s.(samples := s.samples + 1), col + 1);
      }
    }
  }

  /** One row of Keypad_ISR on a steady input with the shared lines as column inputs:
      stop at the row's hit, or go on. */
  lemma IsrRowsStep(input: Input, s: PortState, row: int)
    requires Steady(input) && 1 <= row <= 4 && s.lines == ColumnInputs
    ensures var r := IsrRow(input, s.(rows := Selected(row)), row);
      var next := IsrRowsFrom(input, r.port, row + 1);
      var here := IsrRowsFrom(input, s, row);
      (RowHit(input, row) != 0 ==> here.row == row && here.col == RowHit(input, row)) &&
      (RowHit(input, row) == 0 ==> here == next)
  {
    IsrColsSteady(input, s.(rows := Selected(row)), 1);
  }

  /** On a steady input with the shared lines as column inputs, Keypad_ISR's row loop
      stops where the reference does. */
  lemma {:induction false} IsrRowsSteady(input: Input, s: PortState, row: int)
    requires Steady(input) && 1 <= row <= 5 && s.lines == ColumnInputs
    ensures StopsAt(IsrRowsFrom(input, s, row), SteadyHitFrom(input, row))
    decreases 5 - row
  {
    if row < 5 {
      IsrRowsStep(input, s, row);
      IsrColsSpec(input, s.(rows := Selected(row)), 1);
      SteadyHitStep(input, row);
      IsrRowsSteady(input, IsrRow(input, s.(rows := Selected(row)), row).port, row + 1);
    }
  }

  /** Keypad_ISR stops where its row loop does. */
  lemma IsrScans(input: Input, s: PortState)
    ensures Isr(input, s).row == IsrRowsFrom(input, s.(rbie := false), 1).row
    ensures Isr(input, s).col == IsrRowsFrom(input, s.(rbie := false), 1).col
  {
  }

  /** Keypad_ISR on a steady input with the shared lines as column inputs stops where
      the reference does. It has no fast path, so it agrees with Keypad_getKey whenever
      the rows were LOW and some column was LOW when the interrupt came. */
  lemma IsrSteady(input: Input, s: PortState)
    requires Steady(input) && s.lines == ColumnInputs
    ensures StopsAt(Isr(input, s), SteadyHitFrom(input, 1))
    ensures s.rows == AllLow && !NoneLow(input(0, AllLow, ColumnInputs)) ==> Isr(input, s).key == GetKey(input, s).key
  {
    IsrScans(input, s);
    IsrRowsSteady(input, s.(rbie := false), 1);
    IsrSpec(input, s);
    if s.rows == AllLow && !NoneLow(input(0, AllLow, ColumnInputs)) {
      GetKeySteady(input, s);
      GetKeySpec(input, s);
    }
  }

  /** Keypad_getKeyState on a steady input: 'P' exactly when column `col` alone reads
      LOW with row `row` selected. */
  lemma GetKeyStateSteady(input: Input, s: PortState, row: int, col: int)
    requires Steady(input) && 1 <= col <= 4
    ensures GetKeyState(input, s, row, col).state == PRESSED <==> OnlyLow(input(0, Selected(row), s.lines), col)
  {
    assert input(s.samples, Selected(row), s.lines) == input(0, Selected(row), s.lines)
      == input(s.samples + 1, Selected(row), s.lines);
  }


  // ---------------------------------------------------------------------------
  // An ideal switch matrix
  // ---------------------------------------------------------------------------

  /** Column c reads LOW when a closed switch joins it to a row driven LOW; otherwise
      the weak pull-up holds it HIGH. `pressed` holds (row, column) positions. */
  function ColumnReads(pressed: set<(int, int)>, rows: Rows, c: int): bool
  {
    !(((1, c) in pressed && rows.r1 == LOW) || ((2, c) in pressed && rows.r2 == LOW) ||
      ((3, c) in pressed && rows.r3 == LOW) || ((4, c) in pressed && rows.r4 == LOW))
  }

  function Wired(pressed: set<(int, int)>, rows: Rows): Cols
  {
    Cols(ColumnReads(pressed, rows, 1), ColumnReads(pressed, rows, 2),
         ColumnReads(pressed, rows, 3), ColumnReads(pressed, rows, 4))
  }

  /** What RB4..RB7 read: the switch matrix while they are column inputs, and the levels
      the LCD data latch `driven` puts on them while they are outputs. */
  function Board(pressed: set<(int, int)>, driven: Cols, rows: Rows, lines: Lines): Cols
  {
    if lines == ColumnInputs then Wired(pressed, rows) else driven
  }

  /** The switches in `pressed` held closed for as long as the scanner looks. */
  function Held(pressed: set<(int, int)>, driven: Cols): (input: Input)
    ensures Steady(input)
  {
    (t: int, rows: Rows, lines: Lines) => Board(pressed, driven, rows, lines)
  }

  /** With one switch closed, the selected row either sees its column alone or sees nothing. */
  lemma OneKeyRowHit(row: int, col: int, driven: Cols, rr: int)
    requires 1 <= row <= 4 && 1 <= col <= 4 && 1 <= rr <= 4
    ensures RowHit(Held({(row, col)}, driven), rr) == (if rr == row then col else 0)
  {
    var v := Wired({(row, col)}, Selected(rr));
    if rr == row {
      assert OnlyLow(v, col);
    } else {
      assert NoneLow(v);
    }
  }

  /** One key held down is where the reference stops, and it pulls a column LOW while
      every row is LOW. */
  lemma OneKey(row: int, col: int, driven: Cols)
    requires 1 <= row <= 4 && 1 <= col <= 4
    ensures SteadyHitFrom(Held({(row, col)}, driven), 1) == (row, col)
    ensures !NoneLow(Held({(row, col)}, driven)(0, AllLow, ColumnInputs))
  {
    var input := Held({(row, col)}, driven);
    var p := SteadyHitFrom(input, 1);
    OneKeyRowHit(row, col, driven, row);
    if p.0 != 0 {
      OneKeyRowHit(row, col, driven, p.0);
    }
    assert ColLevel(input(0, AllLow, ColumnInputs), col) == LOW;
  }

  /** Keypad_ALTgetKey and Keypad_ALTwaitForKey return the key held down from any
      state, since they take the shared lines themselves. Keypad_getKey and Keypad_ISR return it from the idle state
      Keypad_begin leaves (all rows LOW, the shared lines as column inputs), and there
      Keypad_getKeyState reports 'P' for that position and 'R' for every other one. */
  lemma OneKeyReported(row: int, col: int, driven: Cols, s: PortState, fuel: nat)
    requires 1 <= row <= 4 && 1 <= col <= 4 && fuel >= 1
    ensures AltGetKey(Held({(row, col)}, driven), s).key == KeyAt(row, col)
    ensures AltWaitForKey(Held({(row, col)}, driven), s, fuel).key == KeyAt(row, col)
    ensures s.rows == AllLow && s.lines == ColumnInputs ==>
      GetKey(Held({(row, col)}, driven), s).key == KeyAt(row, col) &&
      Isr(Held({(row, col)}, driven), s).key == KeyAt(row, col)
    ensures s.lines == ColumnInputs ==> forall r, c :: 1 <= r <= 4 && 1 <= c <= 4 ==>
      (GetKeyState(Held({(row, col)}, driven), s, r, c).state == PRESSED <==> r == row && c == col)
  {
    var input := Held({(row, col)}, driven);
    OneKey(row, col, driven);
    AltGetKeySteady(input, s);
    AltGetKeySpec(input, s);
    AltWaitForKeySteady(input, s, fuel);
    AltWaitForKeySpec(input, s, fuel);
    if s.lines == ColumnInputs {
      if s.rows == AllLow {
        GetKeySteady(input, s);
        GetKeySpec(input, s);
        IsrSteady(input, s);
        IsrSpec(input, s);
      }
      forall r, c | 1 <= r <= 4 && 1 <= c <= 4
        ensures GetKeyState(input, s, r, c).state == PRESSED <==> r == row && c == col
      {
        GetKeyStateSteady(input, s, r, c);
        OneKeyRowHit(row, col, driven, r);
      }
    }
  }

  /** Keypad_waitForKey returns the key held down on its first call of Keypad_getKey. */
  lemma OneKeyWaited(row: int, col: int, driven: Cols, s: PortState, fuel: nat)
    requires 1 <= row <= 4 && 1 <= col <= 4 && s.rows == AllLow && s.lines == ColumnInputs && fuel >= 1
    ensures WaitForKey(Held({(row, col)}, driven), s, fuel).key == KeyAt(row, col)
  {
    OneKeyReported(row, col, driven, s, 1);
  }

  /** Keypad_getKey reads whatever RB4..RB7 show. Called while they still drive the LCD,
      with no switch closed and the LCD data latch holding a single LOW bit, it reports
      the key '7'; with the lines as column inputs the same board reports no key. */
  lemma PhantomKey(s: PortState)
    requires s.rows == AllLow
    ensures s.lines == LcdOutputs ==> GetKey(Held({}, Cols(LOW, HIGH, HIGH, HIGH)), s).key == KeyAt(1, 1)
    ensures s.lines == ColumnInputs ==> GetKey(Held({}, Cols(LOW, HIGH, HIGH, HIGH)), s).key == NO_KEY
  {
    var input := Held({}, Cols(LOW, HIGH, HIGH, HIGH));
    if s.lines == LcdOutputs {
      var a := s.(samples := s.samples + 1);
      ConfirmColsSteady(input, a.(rows := Selected(1)), 1);
      assert SoleLow(input(0, Selected(1), LcdOutputs)) == 1;
    } else {
      assert NoneLow(input(0, s.rows, s.lines));
      GetKeyIdle(input, s);
    }
  }

  /** With two switches closed in the same row, that row shows two LOW columns. */
  lemma SameRowRowHit(row: int, c1: int, c2: int, driven: Cols, rr: int)
    requires 1 <= row <= 4 && 1 <= c1 <= 4 && 1 <= c2 <= 4 && c1 != c2 && 1 <= rr <= 4
    ensures RowHit(Held({(row, c1), (row, c2)}, driven), rr) == 0
  {
    var v := Wired({(row, c1), (row, c2)}, Selected(rr));
    if rr == row {
      assert !ColLevel(v, c1) && !ColLevel(v, c2);
    } else {
      assert NoneLow(v);
    }
  }

  /** Two keys held in the same row make that row show two LOW columns, which the strict
      single-column test refuses: the scan reports no key at all. */
  lemma SameRowSuppressed(row: int, c1: int, c2: int, driven: Cols, s: PortState)
    requires 1 <= row <= 4 && 1 <= c1 <= 4 && 1 <= c2 <= 4 && c1 != c2 && s.lines == ColumnInputs
    ensures GetKey(Held({(row, c1), (row, c2)}, driven), s).key == NO_KEY
    ensures Isr(Held({(row, c1), (row, c2)}, driven), s).key == NO_KEY
  {
    var input := Held({(row, c1), (row, c2)}, driven);
    var p := SteadyHitFrom(input, 1);
    if p.0 != 0 {
      SameRowRowHit(row, c1, c2, driven, p.0);
    }
    if NoneLow(input(0, s.rows, s.lines)) {
      GetKeyIdle(input, s);
    } else {
      GetKeySteady(input, s);
      GetKeySpec(input, s);
    }
    IsrSteady(input, s);
    IsrSpec(input, s);
  }

  /** With keys held in rows r1 < r2, rows above r1 see nothing and row r1 sees c1 alone. */
  lemma TwoRowsRowHit(r1: int, c1: int, r2: int, c2: int, driven: Cols, rr: int)
    requires 1 <= r1 < r2 <= 4 && 1 <= c1 <= 4 && 1 <= c2 <= 4 && 1 <= rr <= r1
    ensures RowHit(Held({(r1, c1), (r2, c2)}, driven), rr) == (if rr == r1 then c1 else 0)
  {
    var v := Wired({(r1, c1), (r2, c2)}, Selected(rr));
    if rr == r1 {
      assert OnlyLow(v, c1);
    } else {
      assert NoneLow(v);
    }
  }

  /** Keys held in rows r1 < r2: the reference stops at the one in row r1. */
  lemma EarlierRowHit(r1: int, c1: int, r2: int, c2: int, driven: Cols)
    requires 1 <= r1 < r2 <= 4 && 1 <= c1 <= 4 && 1 <= c2 <= 4
    ensures SteadyHitFrom(Held({(r1, c1), (r2, c2)}, driven), 1) == (r1, c1)
    ensures !NoneLow(Held({(r1, c1), (r2, c2)}, driven)(0, AllLow, ColumnInputs))
  {
    var input := Held({(r1, c1), (r2, c2)}, driven);
    var p := SteadyHitFrom(input, 1);
    TwoRowsRowHit(r1, c1, r2, c2, driven, r1);
    if p.0 != 0 && p.0 <= r1 {
      TwoRowsRowHit(r1, c1, r2, c2, driven, p.0);
    }
    assert ColLevel(input(0, AllLow, ColumnInputs), c1) == LOW;
  }

  /** Two keys held in different rows: the scan reports the one in the earlier row. */
  lemma EarlierRowWins(r1: int, c1: int, r2: int, c2: int, driven: Cols, s: PortState, fuel: nat)
    requires 1 <= r1 < r2 <= 4 && 1 <= c1 <= 4 && 1 <= c2 <= 4 && s.rows == AllLow && s.lines == ColumnInputs
    requires fuel >= 1
    ensures GetKey(Held({(r1, c1), (r2, c2)}, driven), s).key == KeyAt(r1, c1)
    ensures Isr(Held({(r1, c1), (r2, c2)}, driven), s).key == KeyAt(r1, c1)
    ensures AltGetKey(Held({(r1, c1), (r2, c2)}, driven), s).key == KeyAt(r1, c1)
    ensures AltWaitForKey(Held({(r1, c1), (r2, c2)}, driven), s, fuel).key == KeyAt(r1, c1)
  {
    var input := Held({(r1, c1), (r2, c2)}, driven);
    EarlierRowHit(r1, c1, r2, c2, driven);
    GetKeySteady(input, s);
    GetKeySpec(input, s);
    IsrSteady(input, s);
    IsrSpec(input, s);
    AltGetKeySteady(input, s);
    AltGetKeySpec(input, s);
    AltWaitForKeySteady(input, s, fuel);
    AltWaitForKeySpec(input, s, fuel);
  }

  // ---------------------------------------------------------------------------
  // Debounce
  // ---------------------------------------------------------------------------

  /** Key (row, col) closed for reads from..to-1 only, open before and after. */
  function Blip(row: int, col: int, from: int, to: int, driven: Cols): Input
  {
    (t: int, rows: Rows, lines: Lines) =>
      if from <= t < to then Board({(row, col)}, driven, rows, lines) else Board({}, driven, rows, lines)
  }

  /** A contact that opens again before the scan's third read, however early it closed,
      is not reported by Keypad_getKey: a key needs two reads after the fast-path read,
      the later one after the debounce delay. For key '7' this contact is seen on the
      fast-path read and on the first read of its column, and missing on the re-read. */
  lemma GetKeyRejectsBlip(s: PortState, row: int, col: int, from: int, driven: Cols)
    requires s.lines == ColumnInputs
    ensures GetKey(Blip(row, col, from, s.samples + 2, driven), s).key == NO_KEY
  {
    var input := Blip(row, col, from, s.samples + 2, driven);
    var r := GetKey(input, s);
    GetKeySpec(input, s);
    BlipOpen(row, col, from, s.samples + 2, driven, r.port.samples - 1, Selected(r.row));
  }

  /** Once the contact has opened again, no column reads LOW through the matrix. */
  lemma BlipOpen(row: int, col: int, from: int, to: int, driven: Cols, t: int, rows: Rows)
    ensures t >= to ==> NoneLow(Blip(row, col, from, to, driven)(t, rows, ColumnInputs))
  {
  }

  /** The same kind of contact, closed for the one read Keypad_ISR takes of that column,
      is reported by the interrupt routine, which reads each column once. */
  lemma IsrTakesBlip(s: PortState, driven: Cols)
    requires s.lines == ColumnInputs
    ensures Isr(Blip(1, 1, s.samples, s.samples + 1, driven), s).key == KeyAt(1, 1)
  {
    var input := Blip(1, 1, s.samples, s.samples + 1, driven);
    assert input(s.samples, Selected(1), ColumnInputs) == Board({(1, 1)}, driven, Selected(1), ColumnInputs)
      == Wired({(1, 1)}, Selected(1)) == Cols(LOW, HIGH, HIGH, HIGH);
  }
}

/** The 4x4 matrix keypad scanner of Keypad.c as functions: what each entry point
    does to the port (row latches, column reads taken, delays, the `static bit`
    latches, the PORTB change-interrupt flags) and which key it returns.
    The functions carry only the contracts their own definitions need; what each
    one means is stated by the lemmas named after it (`Spec`, `Frame`, `Found`).
    The loops' termination measures list the state after the loop index: with the
    index alone, the verifier would unroll every loop that starts at a literal index. */
module KeypadModel {

  // Pin levels: HIGH (1) is true, LOW (0) is false.
  const HIGH := true
  const LOW := false

  /** Output latches of KP_ROW1..KP_ROW4 (RB0..RB3). */
  datatype Rows = Rows(r1: bool, r2: bool, r3: bool, r4: bool)

  /** One sample of the column inputs KP_COL1..KP_COL4 (RB4..RB7). */
  datatype Cols = Cols(c1: bool, c2: bool, c3: bool, c4: bool)

  /** The column levels the port shows at read number t while the rows are driven as
      given and RB4..RB7 have the given direction. Everything electrical (switches,
      bounce, sneak paths, what the pins show while they drive the LCD) is in this oracle. */
  type Input = (int, Rows, Lines) -> Cols

  /** Direction of RB4..RB7, the lines shared by the keypad columns and LCD_4..LCD_7. */
  datatype Lines = ColumnInputs | LcdOutputs

  const AllLow := Rows(LOW, LOW, LOW, LOW)
  const AllHigh := Rows(HIGH, HIGH, HIGH, HIGH)

  const DEBOUNCE_DELAY := 10
  const KEYHOLD_DELAY := 300

  const NO_KEY: bv8 := 0
  const PRESSED: bv8 := 0x50   // 'P'
  const RELEASED: bv8 := 0x52  // 'R'

  /** The keymap `keys[ROWS][COLS]`, as ASCII codes:
        '7' '8' '9' '/'
        '4' '5' '6' 'X'
        '1' '2' '3' '-'
        'C' '0' '=' '+'  */
  const KeyMap: seq<seq<bv8>> := [
    [0x37, 0x38, 0x39, 0x2F],
    [0x34, 0x35, 0x36, 0x58],
    [0x31, 0x32, 0x33, 0x2D],
    [0x43, 0x30, 0x3D, 0x2B]
  ]

  /** `keys[row-1][col-1]`. No entry is the "no key" code. */
  function KeyAt(row: int, col: int): (k: bv8)
    requires 1 <= row <= 4 && 1 <= col <= 4
    ensures k != NO_KEY
  {
    KeyMap[row - 1][col - 1]
  }

  /** The keymap position holding code k, (0, 0) for a code that is not on the keypad. */
  function KeyPosition(k: bv8): (int, int)
  {
    if k == 0x37 then (1, 1) else if k == 0x38 then (1, 2) else if k == 0x39 then (1, 3) else if k == 0x2F then (1, 4)
    else if k == 0x34 then (2, 1) else if k == 0x35 then (2, 2) else if k == 0x36 then (2, 3) else if k == 0x58 then (2, 4)
    else if k == 0x31 then (3, 1) else if k == 0x32 then (3, 2) else if k == 0x33 then (3, 3) else if k == 0x2D then (3, 4)
    else if k == 0x43 then (4, 1) else if k == 0x30 then (4, 2) else if k == 0x3D then (4, 3) else if k == 0x2B then (4, 4)
    else (0, 0)
  }

  /** Every keymap entry leads back to its own position, so the map is one-to-one:
      a returned code names exactly one switch. */
  lemma KeyMapOneToOne(r1: int, c1: int, r2: int, c2: int)
    requires 1 <= r1 <= 4 && 1 <= c1 <= 4 && 1 <= r2 <= 4 && 1 <= c2 <= 4
    ensures KeyPosition(KeyAt(r1, c1)) == (r1, c1)
    ensures KeyAt(r1, c1) == KeyAt(r2, c2) ==> r1 == r2 && c1 == c2
  {
  }

  /** k is the keymap entry at (row, col). */
  predicate IsKeyAt(k: bv8, row: int, col: int)
  {
    1 <= row <= 4 && 1 <= col <= 4 && KeyAt(row, col) == k
  }

  function RowLevel(rows: Rows, k: int): bool
    requires 1 <= k <= 4
  {
    match k
    case 1 => rows.r1
    case 2 => rows.r2
    case 3 => rows.r3
    case _ => rows.r4
  }

  function ColLevel(v: Cols, k: int): bool
    requires 1 <= k <= 4
  {
    match k
    case 1 => v.c1
    case 2 => v.c2
    case 3 => v.c3
    case _ => v.c4
  }

  /** Select_ROW: every row HIGH, then row `row` LOW. The switch has no default,
      so any other argument leaves all four rows HIGH. */
  function Selected(row: int): Rows
  {
    match row
    case 1 => Rows(LOW, HIGH, HIGH, HIGH)
    case 2 => Rows(HIGH, LOW, HIGH, HIGH)
    case 3 => Rows(HIGH, HIGH, LOW, HIGH)
    case 4 => Rows(HIGH, HIGH, HIGH, LOW)
    case _ => AllHigh
  }

  /** Select_ROW drives exactly the requested row LOW, and none for an argument
      outside 1..4. */
  lemma SelectedSpec(row: int, k: int)
    requires 1 <= k <= 4
    ensures RowLevel(Selected(row), k) == LOW <==> k == row
  {
  }

  /** The fast-path test `KP_COL1==1 && KP_COL2==1 && KP_COL3==1 && KP_COL4==1`. */
  predicate NoneLow(v: Cols)
  {
    v.c1 && v.c2 && v.c3 && v.c4
  }

  /** How many columns read LOW. */
  function LowCount(v: Cols): (n: nat)
    ensures n <= 4
    ensures n == 0 <==> NoneLow(v)
  {
    (if v.c1 then 0 else 1) + (if v.c2 then 0 else 1) + (if v.c3 then 0 else 1) + (if v.c4 then 0 else 1)
  }

  /** The strict single-column test of Confirm_COL and Keypad_ISR: column c LOW and
      the other three HIGH. */
  function OnlyLow(v: Cols, c: int): bool
  {
    match c
    case 1 => !v.c1 && v.c2 && v.c3 && v.c4
    case 2 => v.c1 && !v.c2 && v.c3 && v.c4
    case 3 => v.c1 && v.c2 && !v.c3 && v.c4
    case 4 => v.c1 && v.c2 && v.c3 && !v.c4
    case _ => false
  }

  /** The single-column test passes for column c exactly when c is a column, it reads
      LOW and the other three read HIGH; two LOW columns (ghosting) pass for none. */
  lemma OnlyLowSpec(v: Cols, c: int)
    ensures OnlyLow(v, c) <==> (1 <= c <= 4 &&
                                ColLevel(v, 1) == (c != 1) && ColLevel(v, 2) == (c != 2) &&
                                ColLevel(v, 3) == (c != 3) && ColLevel(v, 4) == (c != 4))
    ensures LowCount(v) != 1 ==> !OnlyLow(v, c)
  {
  }

  /** The first LOW column, 0 when none is. */
  function LowColumn(v: Cols): (c: int)
    ensures 0 <= c <= 4
    ensures LowCount(v) == 1 ==> OnlyLow(v, c)
    ensures forall k :: OnlyLow(v, k) ==> k == c
  {
    if !v.c1 then 1 else if !v.c2 then 2 else if !v.c3 then 3 else if !v.c4 then 4 else 0
  }

  /** Everything the scanner reads or writes besides the oracle. */
  datatype PortState = PortState(
    rows: Rows,          // KP_ROW1..KP_ROW4 latches
    lines: Lines,        // direction of RB4..RB7
    samples: int,        // column reads taken so far: the next one is input(samples, rows, lines)
    waitedMs: int,       // milliseconds spent in __delay_ms
    confirmLatch: bool,  // Confirm_COL's `static bit Key_pressed`
    rbie: bool,          // RBIE, PORTB change interrupt enable
    rbif: bool)          // RBIF, PORTB change interrupt flag

  /** A scan's new port state, the key it returns and the switch position it found
      that key at; NO_KEY at position (0, 0) when it found none. The firmware returns
      only the key; the position is the scan's `row` and `col` when it stopped. */
  datatype Scan = Scan(port: PortState, key: bv8, row: int, col: int)

  /** A column loop's new port state and the column it stopped at (0 for none). */
  datatype ColumnScan = ColumnScan(port: PortState, col: int)

  /** Keypad_getKeyState's new port state and its answer, 'P' or 'R'. */
  datatype Reading = Reading(port: PortState, state: bv8)

  /** The key is the keymap entry at the reported position, or NO_KEY at (0, 0). */
  predicate Consistent(r: Scan)
  {
    if r.key == NO_KEY then r.row == 0 && r.col == 0 else IsKeyAt(r.key, r.row, r.col)
  }

  /** The next read of the columns. */
  function Sample(input: Input, s: PortState): Cols
  {
    input(s.samples, s.rows, s.lines)
  }

  /** Column col was seen alone on the two reads just before read number t, both
      taken with the rows driven and the shared lines set as given. */
  predicate LastTwo(input: Input, t: int, rows: Rows, lines: Lines, col: int)
  {
    OnlyLow(input(t - 2, rows, lines), col) && OnlyLow(input(t - 1, rows, lines), col)
  }

  /** Column col was seen alone on the read just before read number t. */
  predicate LastOne(input: Input, t: int, rows: Rows, lines: Lines, col: int)
  {
    OnlyLow(input(t - 1, rows, lines), col)
  }

  /** Column col passed the debounce with row `row` selected: it was seen alone on the
      two reads just before read number t. */
  predicate Debounced(input: Input, t: int, row: int, lines: Lines, col: int)
  {
    LastTwo(input, t, Selected(row), lines, col)
  }

  /** Column col was seen alone on the single read just before read number t, taken
      while row `row` was selected. */
  predicate SeenOnce(input: Input, t: int, row: int, lines: Lines, col: int)
  {
    LastOne(input, t, Selected(row), lines, col)
  }

  // ---------------------------------------------------------------------------
  // Confirm_COL, findKey_inRow and the row pass of Keypad_getKey
  // ---------------------------------------------------------------------------

  /** Confirm_COL(c): one read; on a single-column match, the debounce delay and a
      re-read of the same condition. Any other c reads nothing and the function
      returns the value its static latch kept from the previous call. */
  function ConfirmCol(input: Input, s: PortState, c: int): PortState
  {
    if !(1 <= c <= 4) then s
    else if !OnlyLow(Sample(input, s), c) then s.(samples := s.samples + 1, confirmLatch := false)
    else
      var t := s.(samples := s.samples + 1, waitedMs := s.waitedMs + DEBOUNCE_DELAY);
      t.(samples := t.samples + 1, confirmLatch := OnlyLow(Sample(input, t), c))
  }

  /** Confirm_COL accepts a column iff it is seen alone on the read and on the re-read
      after the debounce delay; it takes one read when the first one fails, two and
      the delay when it passes, and only its latch changes besides. */
  lemma ConfirmColSpec(input: Input, s: PortState, c: int)
    ensures var t := ConfirmCol(input, s, c);
      (1 <= c <= 4 ==>
        (t.confirmLatch <==>
          OnlyLow(input(s.samples, s.rows, s.lines), c) && OnlyLow(input(s.samples + 1, s.rows, s.lines), c))) &&
      (1 <= c <= 4 && t.confirmLatch ==>
        t.samples == s.samples + 2 && t.waitedMs == s.waitedMs + DEBOUNCE_DELAY &&
        LastTwo(input, t.samples, s.rows, s.lines, c)) &&
      (1 <= c <= 4 ==> s.samples + 1 <= t.samples <= s.samples + 2) &&
      s.waitedMs <= t.waitedMs <= s.waitedMs + DEBOUNCE_DELAY &&
      (!(1 <= c <= 4) ==> t == s) &&
      t == s.(samples := t.samples, waitedMs := t.waitedMs, confirmLatch := t.confirmLatch)
  {
  }

  /** The column loop of findKey_inRow from column `col` on: the first column that
      Confirm_COL accepts ends the loop; each check also sets the row latch. */
  function ConfirmColsFrom(input: Input, s: PortState, col: int): (r: ColumnScan)
    requires 1 <= col <= 5
    ensures r.col == 0 || col <= r.col <= 4
    decreases 5 - col, s
  {
    if col == 5 then ColumnScan(s, 0)
    else
      var t := ConfirmCol(input, s, col);
      if t.confirmLatch then ColumnScan(t, col) else ConfirmColsFrom(input, t, col + 1)
  }

  /** The column loop changes only the clock and the two latches, the clock only moves
      forward, and the row latch ends equal to Confirm_COL's. */
  lemma {:induction false} ConfirmColsFrame(input: Input, s: PortState, col: int)
    requires 1 <= col <= 5
    ensures var r := ConfirmColsFrom(input, s, col);
      r.port == s.(samples := r.port.samples, waitedMs := r.port.waitedMs, confirmLatch := r.port.confirmLatch) &&
      r.port.samples >= s.samples && r.port.waitedMs >= s.waitedMs
    decreases 5 - col
  {
    if col < 5 {
      var t := ConfirmCol(input, s, col);
      ConfirmColSpec(input, s, col);
      if !t.confirmLatch {
        ConfirmColsFrame(input, t, col + 1);
      }
    }
  }

  /** A column the loop stops at is at or after `col`, was seen alone on the last two
      reads and leaves Confirm_COL's latch set; the loop stops there, so it read each
      earlier column once or twice and no later column at all. When it stops at none,
      every column from `col` on was read at least once and the latch ends false. */
  lemma {:induction false} ConfirmColsFound(input: Input, s: PortState, col: int)
    requires 1 <= col <= 5
    ensures var r := ConfirmColsFrom(input, s, col);
      r.port.rows == s.rows && r.port.lines == s.lines &&
      (r.col != 0 ==>
        col <= r.col <= 4 && r.port.confirmLatch &&
        s.samples + (r.col - col) + 2 <= r.port.samples <= s.samples + 2 * (r.col - col + 1) &&
        LastTwo(input, r.port.samples, s.rows, s.lines, r.col)) &&
      (r.col == 0 ==> r.port.samples >= s.samples + (5 - col) && (col <= 4 ==> !r.port.confirmLatch))
    decreases 5 - col
  {
    if col < 5 {
      var t := ConfirmCol(input, s, col);
      ConfirmColSpec(input, s, col);
      if !t.confirmLatch {
        ConfirmColsFound(input, t, col + 1);
      }
    }
  }

  /** findKey_inRow(row): the key of the first confirmed column of the row. */
  function FindKey(input: Input, s: PortState, row: int): Scan
    requires 1 <= row <= 4
  {
    var r := ConfirmColsFrom(input, s, 1);
    if r.col == 0 then Scan(r.port, NO_KEY, 0, 0) else Scan(r.port, KeyAt(row, r.col), row, r.col)
  }

  /** A key findKey_inRow returns is the keymap entry of this row at a column seen
      alone on the last two reads, with the latch set and no later column read; with no
      key, all four columns were read. */
  lemma FindKeySpec(input: Input, s: PortState, row: int)
    requires 1 <= row <= 4
    ensures var r := FindKey(input, s, row);
      Consistent(r) && r.port.rows == s.rows && r.port.lines == s.lines &&
      (r.key != NO_KEY ==>
        r.row == row && r.port.confirmLatch &&
        s.samples + r.col + 1 <= r.port.samples <= s.samples + 2 * r.col &&
        LastTwo(input, r.port.samples, s.rows, s.lines, r.col)) &&
      (r.key == NO_KEY ==> r.port.samples >= s.samples + 4)
  {
    ConfirmColsFound(input, s, 1);
  }

  /** The `for (row = 1; row <= ROWS; row++)` pass from row `row` on: select the row,
      look for a key in it, stop at the first row that yields one. */
  function ScanRowsFrom(input: Input, s: PortState, row: int): Scan
    requires 1 <= row <= 5
    decreases 5 - row, s
  {
    if row == 5 then Scan(s, NO_KEY, 0, 0)
    else
      var r := FindKey(input, s.(rows := Selected(row)), row);
      if r.key != NO_KEY then r else ScanRowsFrom(input, r.port, row + 1)
  }

  /** The row pass changes only the rows, the clock and the scan latches, and the clock
      only moves forward. */
  lemma {:induction false} ScanRowsFrame(input: Input, s: PortState, row: int)
    requires 1 <= row <= 5
    ensures var r := ScanRowsFrom(input, s, row);
      r.port == s.(rows := r.port.rows, samples := r.port.samples, waitedMs := r.port.waitedMs,
                   confirmLatch := r.port.confirmLatch) &&
      r.port.samples >= s.samples && r.port.waitedMs >= s.waitedMs
    decreases 5 - row
  {
    if row < 5 {
      var f := FindKey(input, s.(rows := Selected(row)), row);
      ConfirmColsFrame(input, s.(rows := Selected(row)), 1);
      if f.key == NO_KEY {
        ScanRowsFrame(input, f.port, row + 1);
      }
    }
  }

  /** A key the row pass returns is the keymap entry at a position whose column passed
      the debounce with its row selected, and the pass leaves that row selected; with no
      key it ends with ROW4 selected. */
  lemma {:induction false} ScanRowsFound(input: Input, s: PortState, row: int)
    requires 1 <= row <= 5
    ensures var r := ScanRowsFrom(input, s, row);
      Consistent(r) && r.port.lines == s.lines &&
      (r.key != NO_KEY ==>
        row <= r.row && r.port.rows == Selected(r.row) && r.port.samples >= s.samples + 2 &&
        Debounced(input, r.port.samples, r.row, s.lines, r.col)) &&
      (r.key == NO_KEY && row <= 4 ==> r.port.rows == Selected(4))
    decreases 5 - row
  {
    if row < 5 {
      var f := FindKey(input, s.(rows := Selected(row)), row);
      FindKeySpec(input, s.(rows := Selected(row)), row);
      if f.key == NO_KEY {
        ScanRowsFound(input, f.port, row + 1);
      }
    }
  }

  // ---------------------------------------------------------------------------
  // The polled entry points
  // ---------------------------------------------------------------------------

  /** Keypad_getKey: one read of all four columns; if none is LOW, return at once
      with the rows untouched. Otherwise the row pass, then all rows LOW and the hold
      delay. */
  function GetKey(input: Input, s: PortState): Scan
  {
    if NoneLow(Sample(input, s)) then Scan(s.(samples := s.samples + 1), NO_KEY, 0, 0)
    else
      var r := ScanRowsFrom(input, s.(samples := s.samples + 1), 1);
      r.(port := r.port.(rows := AllLow, waitedMs := r.port.waitedMs + KEYHOLD_DELAY))
  }

  /** Keypad_getKey returns NO_KEY after a single read when no column is LOW; otherwise
      it leaves every row LOW after at least the hold delay. The shared lines and the
      interrupt flags are untouched. */
  lemma GetKeyFrame(input: Input, s: PortState)
    ensures var r := GetKey(input, s);
      (NoneLow(Sample(input, s)) ==> r == Scan(s.(samples := s.samples + 1), NO_KEY, 0, 0)) &&
      (!NoneLow(Sample(input, s)) ==>
        r.port.rows == AllLow && r.port.waitedMs >= s.waitedMs + KEYHOLD_DELAY) &&
      r.port.lines == s.lines && r.port.rbie == s.rbie && r.port.rbif == s.rbif
  {
    ScanRowsFrame(input, s.(samples := s.samples + 1), 1);
  }

  /** A key Keypad_getKey returns is the keymap entry at a position whose column passed
      the debounce, on two reads taken after the fast-path read. */
  lemma GetKeySpec(input: Input, s: PortState)
    ensures var r := GetKey(input, s);
      Consistent(r) &&
      (r.key != NO_KEY ==> r.port.samples >= s.samples + 3 && Debounced(input, r.port.samples, r.row, s.lines, r.col))
  {
    ScanRowsFound(input, s.(samples := s.samples + 1), 1);
  }

  /** Keypad_waitForKey, at most `fuel` calls of Keypad_getKey: the first nonzero
      result, or NO_KEY once the calls are used up. */
  function WaitForKey(input: Input, s: PortState, fuel: nat): Scan
    decreases fuel
  {
    if fuel == 0 then Scan(s, NO_KEY, 0, 0)
    else
      var r := GetKey(input, s);
      if r.key != NO_KEY then r else WaitForKey(input, r.port, fuel - 1)
  }

  /** A key Keypad_waitForKey returns passed getKey's debounce, and the rows stay LOW
      if they were LOW before. */
  lemma {:induction false} WaitForKeySpec(input: Input, s: PortState, fuel: nat)
    ensures var r := WaitForKey(input, s, fuel);
      Consistent(r) &&
      (r.key != NO_KEY ==> Debounced(input, r.port.samples, r.row, s.lines, r.col)) &&
      r.port.lines == s.lines && (s.rows == AllLow ==> r.port.rows == AllLow) &&
      (fuel == 0 ==> r == Scan(s, NO_KEY, 0, 0))
    decreases fuel
  {
    if fuel > 0 {
      var r := GetKey(input, s);
      GetKeySpec(input, s);
      GetKeyFrame(input, s);
      if r.key == NO_KEY {
        WaitForKeySpec(input, r.port, fuel - 1);
      }
    }
  }

  /** Keypad_getKeyState(row, col): select the row, Confirm_COL(col) (debounced), all
      rows LOW, then 'P' or 'R'. */
  function GetKeyState(input: Input, s: PortState, row: int, col: int): Reading
  {
    var t := ConfirmCol(input, s.(rows := Selected(row)), col);
    Reading(t.(rows := AllLow), if t.confirmLatch then PRESSED else RELEASED)
  }

  /** Keypad_getKeyState answers 'P' iff the column is seen alone on two reads with the
      row selected; for a column outside 1..4 it reads nothing and repeats Confirm_COL's
      previous answer. It leaves every row LOW. */
  lemma GetKeyStateSpec(input: Input, s: PortState, row: int, col: int)
    ensures var r := GetKeyState(input, s, row, col);
      (r.state == PRESSED || r.state == RELEASED) && r.port.rows == AllLow &&
      (1 <= col <= 4 ==>
        (r.state == PRESSED <==>
          OnlyLow(input(s.samples, Selected(row), s.lines), col) &&
          OnlyLow(input(s.samples + 1, Selected(row), s.lines), col))) &&
      (!(1 <= col <= 4) ==> (r.state == PRESSED <==> s.confirmLatch) && r.port.samples == s.samples)
  {
    ConfirmColSpec(input, s.(rows := Selected(row)), col);
  }

  // ---------------------------------------------------------------------------
  // The interrupt routine
  // ---------------------------------------------------------------------------

  /** The column loop of Keypad_ISR from column `col` on: one read per column, no
      debounce; the first column seen alone ends the loop. */
  function IsrColsFrom(input: Input, s: PortState, col: int): (r: ColumnScan)
    requires 1 <= col <= 5
    ensures r.col == 0 || col <= r.col <= 4
    decreases 5 - col, s
  {
    if col == 5 then ColumnScan(s, 0)
    else
      var t := s.(samples := s.samples + 1);
      if OnlyLow(Sample(input, s), col) then ColumnScan(t, col) else IsrColsFrom(input, t, col + 1)
  }

  /** Exactly one read per column tried and nothing else changes; a column found is at
      or after `col` and was seen alone on the last read. */
  lemma {:induction false} IsrColsSpec(input: Input, s: PortState, col: int)
    requires 1 <= col <= 5
    ensures var r := IsrColsFrom(input, s, col);
      r.port == s.(samples := r.port.samples) &&
      (r.col != 0 ==> col <= r.col <= 4 && LastOne(input, r.port.samples, s.rows, s.lines, r.col)) &&
      (r.col == 0 ==> r.port.samples == s.samples + (5 - col))
    decreases 5 - col
  {
    if col < 5 {
      var t := s.(samples := s.samples + 1);
      if !OnlyLow(Sample(input, s), col) {
        IsrColsSpec(input, t, col + 1);
      }
    }
  }

  /** One row of Keypad_ISR: the key of the first column seen alone. */
  function IsrRow(input: Input, s: PortState, row: int): Scan
    requires 1 <= row <= 4
  {
    var r := IsrColsFrom(input, s, 1);
    if r.col == 0 then Scan(r.port, NO_KEY, 0, 0) else Scan(r.port, KeyAt(row, r.col), row, r.col)
  }

  /** The row loop of Keypad_ISR from row `row` on. */
  function IsrRowsFrom(input: Input, s: PortState, row: int): Scan
    requires 1 <= row <= 5
    decreases 5 - row, s
  {
    if row == 5 then Scan(s, NO_KEY, 0, 0)
    else
      var r := IsrRow(input, s.(rows := Selected(row)), row);
      if r.key != NO_KEY then r else IsrRowsFrom(input, r.port, row + 1)
  }

  /** The ISR's row loop changes only the rows, the clock and its latch. */
  lemma {:induction false} IsrRowsFrame(input: Input, s: PortState, row: int)
    requires 1 <= row <= 5
    ensures var r := IsrRowsFrom(input, s, row);
      r.port == s.(rows := r.port.rows, samples := r.port.samples)
    decreases 5 - row
  {
    if row < 5 {
      var r := IsrRow(input, s.(rows := Selected(row)), row);
      IsrColsSpec(input, s.(rows := Selected(row)), 1);
      if r.key == NO_KEY {
        IsrRowsFrame(input, r.port, row + 1);
      }
    }
  }

  /** A key the ISR's row loop returns is the keymap entry at a position whose column
      was seen alone on the last read, with its row selected; with no key, every
      position from row `row` on was read exactly once. */
  lemma {:induction false} IsrRowsFound(input: Input, s: PortState, row: int)
    requires 1 <= row <= 5
    ensures var r := IsrRowsFrom(input, s, row);
      Consistent(r) &&
      (r.key != NO_KEY ==>
        row <= r.row && r.port.rows == Selected(r.row) && SeenOnce(input, r.port.samples, r.row, s.lines, r.col)) &&
      (r.key == NO_KEY ==> r.port.samples == s.samples + 4 * (5 - row))
    decreases 5 - row
  {
    if row < 5 {
      var r := IsrRow(input, s.(rows := Selected(row)), row);
      IsrColsSpec(input, s.(rows := Selected(row)), 1);
      if r.key == NO_KEY {
        IsrRowsFound(input, r.port, row + 1);
      }
    }
  }

  /** Keypad_ISR: RBIE off, every row and column in order with a single read each and
      no fast path, then all rows LOW, RBIF cleared and RBIE back on. */
  function Isr(input: Input, s: PortState): Scan
  {
    var r := IsrRowsFrom(input, s.(rbie := false), 1);
    r.(port := r.port.(rows := AllLow, rbif := false, rbie := true))
  }

  /** After Keypad_ISR the rows are LOW, RBIF is clear and RBIE set; it spends no delay
      and leaves the shared lines alone. */
  lemma IsrFrame(input: Input, s: PortState)
    ensures var r := Isr(input, s);
      r.port.rows == AllLow && r.port.rbie && !r.port.rbif &&
      r.port.lines == s.lines && r.port.waitedMs == s.waitedMs
  {
    IsrRowsFrame(input, s.(rbie := false), 1);
  }

  /** A key Keypad_ISR returns was seen alone on one read; with no key, all 16 positions
      were read exactly once. */
  lemma IsrSpec(input: Input, s: PortState)
    ensures var r := Isr(input, s);
      Consistent(r) &&
      (r.key != NO_KEY ==> SeenOnce(input, r.port.samples, r.row, s.lines, r.col)) &&
      (r.key == NO_KEY ==> r.port.samples == s.samples + 16)
  {
    IsrRowsFound(input, s.(rbie := false), 1);
  }

  // ---------------------------------------------------------------------------
  // Set-up and the shared-bus entry points
  // ---------------------------------------------------------------------------

  /** Keypad_begin: row latches LOW, the shared lines as inputs; with the interrupt
      option, RBIF cleared and RBIE set. */
  function Begin(s: PortState, isrEnable: bool): PortState
  {
    var t := s.(rows := AllLow, lines := ColumnInputs);
    if isrEnable then t.(rbif := false, rbie := true) else t
  }

  /** Keypad_busEnable: rows HIGH, the shared lines become keypad column inputs. */
  function KeypadBusEnable(s: PortState): PortState
  {
    s.(rows := AllHigh, lines := ColumnInputs)
  }

  /** LCD_busEnable: rows HIGH, the shared lines go back to the LCD as outputs. */
  function LcdBusEnable(s: PortState): PortState
  {
    s.(rows := AllHigh, lines := LcdOutputs)
  }

  /** Keypad_ALTgetKey: take the shared lines (Keypad_busEnable), drive all rows LOW
      and read once. With no column LOW, return NO_KEY and leave the lines with the
      keypad; otherwise the row pass, then Release. */
  function AltGetKey(input: Input, s: PortState): Scan
  {
    var a := KeypadBusEnable(s).(rows := AllLow);
    if NoneLow(Sample(input, a)) then Scan(a.(samples := a.samples + 1), NO_KEY, 0, 0)
    else Release(ScanRowsFrom(input, a.(samples := a.samples + 1), 1))
  }

  /** LCD_busEnable and the hold delay after the row pass. */
  function Release(r: Scan): Scan
  {
    r.(port := LcdBusEnable(r.port).(waitedMs := r.port.waitedMs + KEYHOLD_DELAY))
  }

  /** Keypad_ALTgetKey returns NO_KEY with the lines still taken by the keypad and the
      rows LOW when no column is LOW; otherwise it hands the lines back to the LCD with
      the rows HIGH after the hold delay. */
  lemma AltGetKeyFrame(input: Input, s: PortState)
    ensures var r := AltGetKey(input, s);
      (NoneLow(input(s.samples, AllLow, ColumnInputs)) ==>
        r.key == NO_KEY && r.port == s.(rows := AllLow, lines := ColumnInputs, samples := s.samples + 1)) &&
      (!NoneLow(input(s.samples, AllLow, ColumnInputs)) ==>
        r.port.rows == AllHigh && r.port.lines == LcdOutputs && r.port.waitedMs >= s.waitedMs + KEYHOLD_DELAY)
  {
    var a := KeypadBusEnable(s).(rows := AllLow);
    ScanRowsFrame(input, a.(samples := a.samples + 1), 1);
  }

  /** A key Keypad_ALTgetKey returns is the keymap entry at a position whose column
      passed the debounce. */
  lemma AltGetKeySpec(input: Input, s: PortState)
    ensures var r := AltGetKey(input, s);
      Consistent(r) && (r.key != NO_KEY ==> Debounced(input, r.port.samples, r.row, ColumnInputs, r.col))
  {
    var a := KeypadBusEnable(s).(rows := AllLow);
    ScanRowsFound(input, a.(samples := a.samples + 1), 1);
  }

  /** The `while (Key == 0)` loop of Keypad_ALTwaitForKey, at most `fuel` row passes. */
  function AltPolls(input: Input, s: PortState, fuel: nat): Scan
    decreases fuel
  {
    if fuel == 0 then Scan(s, NO_KEY, 0, 0)
    else
      var r := ScanRowsFrom(input, s, 1);
      if r.key != NO_KEY then r else AltPolls(input, r.port, fuel - 1)
  }

  /** The polling loop keeps the shared lines where they were. */
  lemma {:induction false} AltPollsFrame(input: Input, s: PortState, fuel: nat)
    ensures AltPolls(input, s, fuel).port.lines == s.lines
    decreases fuel
  {
    if fuel > 0 {
      var r := ScanRowsFrom(input, s, 1);
      ScanRowsFrame(input, s, 1);
      if r.key == NO_KEY {
        AltPollsFrame(input, r.port, fuel - 1);
      }
    }
  }

  /** A key the polling loop ends on is the keymap entry at a position whose column
      passed the debounce. */
  lemma {:induction false} AltPollsSpec(input: Input, s: PortState, fuel: nat)
    ensures var r := AltPolls(input, s, fuel);
      Consistent(r) && (r.key != NO_KEY ==> Debounced(input, r.port.samples, r.row, s.lines, r.col))
    decreases fuel
  {
    if fuel > 0 {
      var r := ScanRowsFrom(input, s, 1);
      ScanRowsFound(input, s, 1);
      if r.key == NO_KEY {
        AltPollsSpec(input, r.port, fuel - 1);
      }
    }
  }

  /** Keypad_ALTwaitForKey with at most `fuel` passes: take the shared lines and scan
      with no fast path until a key is found; then give the lines back to the LCD and
      apply the hold delay. NO_KEY means the passes ran out while still waiting. */
  function AltWaitForKey(input: Input, s: PortState, fuel: nat): Scan
  {
    var r := AltPolls(input, KeypadBusEnable(s), fuel);
    if r.key == NO_KEY then r else Release(r)
  }

  /** A key Keypad_ALTwaitForKey returns passed the debounce and the lines are back with
      the LCD; while it is still waiting the lines belong to the keypad. */
  lemma AltWaitForKeySpec(input: Input, s: PortState, fuel: nat)
    ensures var r := AltWaitForKey(input, s, fuel);
      Consistent(r) &&
      (r.key != NO_KEY ==>
        r.port.rows == AllHigh && r.port.lines == LcdOutputs &&
        Debounced(input, r.port.samples, r.row, ColumnInputs, r.col)) &&
      (r.key == NO_KEY ==> r.port.lines == ColumnInputs)
  {
    AltPollsFrame(input, KeypadBusEnable(s), fuel);
    AltPollsSpec(input, KeypadBusEnable(s), fuel);
  }

  // ---------------------------------------------------------------------------
  // The idle state
  // ---------------------------------------------------------------------------

  /** The rows are all LOW, so that any key press pulls a column LOW and raises the
      PORTB change interrupt. */
  predicate Idle(s: PortState)
  {
    s.rows == AllLow
  }

  /** Keypad_begin makes the keypad idle, with the lines as column inputs and, with the
      interrupt option, the change interrupt armed; Keypad_getKey, Keypad_waitForKey,
      Keypad_getKeyState and Keypad_ISR all return to the idle state. */
  lemma IdleKept(input: Input, s: PortState, isrEnable: bool, row: int, col: int, fuel: nat)
    ensures Idle(Begin(s, isrEnable)) && Begin(s, isrEnable).lines == ColumnInputs
    ensures isrEnable ==> Begin(s, isrEnable).rbie && !Begin(s, isrEnable).rbif
    ensures Idle(s) ==> Idle(GetKey(input, s).port) && Idle(WaitForKey(input, s, fuel).port)
    ensures Idle(GetKeyState(input, s, row, col).port) && Idle(Isr(input, s).port)
  {
    GetKeyFrame(input, s);
    WaitForKeySpec(input, s, fuel);
    GetKeyStateSpec(input, s, row, col);
    IsrFrame(input, s);
  }

  /** Keypad_ALTgetKey does not return to the idle state once a column was LOW: it
      leaves the rows HIGH for the LCD. */
  lemma AltGetKeyLeavesIdle(input: Input, s: PortState)
    requires !NoneLow(input(s.samples, AllLow, ColumnInputs))
    ensures !Idle(AltGetKey(input, s).port)
  {
    AltGetKeyFrame(input, s);
  }
}

# PIC16F887 keypad, UART and LCD drivers

A model of the four driver files of a PIC16F887 firmware: the 4x4 matrix keypad
scanner (`Keypad.c`), the UART receive ring buffer and transmit routines
(`serial.c`), the HD44780 character LCD in 4-bit mode (`lcd.c`) and the
oscillator and pin set-up (`system.c`). Every hardware register becomes a field of
an object or a value in a record. Every routine that changes state step by step
becomes a method that does the same steps. Each method is proved to leave the
state its object's model tracks exactly as a specification function says: the
keypad `State()`, the serial `Rx()` and transmit log, and the LCD pulse log. Its other
fields are stated separately where the method's contract says so. The driver's
promises are proved as lemmas about those functions.

Files and modules:

- `keypad_model.dfy` (`KeypadModel`) describes each keypad entry point as a
  function on a `PortState`. A `PortState` holds the row latches, the direction of
  the lines shared with the LCD, a read counter, a delay counter,
  `Confirm_COL`'s `static bit` and RBIE/RBIF. The column inputs come from an oracle
  `Input = (int, Rows, Lines) -> Cols`. It gives the levels seen at read number `t`
  while the rows are driven as given and RB4..RB7 have the given direction. So
  contact bounce between a read and its re-read can be expressed, and so can a read
  taken while the lines still drive the LCD.
- `keypad.dfy` (`Keypad.Port`) is the same code as a class. It writes each
  `KP_ROWn` latch, runs the row and column `for` loops with their `break`s, keeps
  the four `static bit`s as fields and toggles RBIE/RBIF.
- `keypad_properties.dfy` (`KeypadProperties`) holds a reference scan for
  switches that do not move, and an ideal board. On that board RB4..RB7 read the
  switch matrix while they are inputs and the LCD's data latch while they are
  outputs. It proves what the scanner reports for one key, two keys in one row
  (ghosting), two keys in different rows, a contact that bounces, and a scan taken
  before the keypad has the lines.
- `serial_model.dfy` (`SerialModel`) and `serial.dfy` (`Serial.Uart`) model the
  ring buffer. `read_buffer` is a 64-cell array written in place, and the three
  16-bit `int` counters are fields. `SerialModel.Holds(rx, q)` says the buffer
  holds the queue `q`. It also has the transmit log and the baud divisor.
- `lcd_model.dfy` (`LcdModel`) and `lcd.dfy` (`Lcd.Display`) model the LCD. The
  display is a log of E pulses, each a `(rs, nibble)` pair, appended by
  `Set_LCD_Pins8`. `LcdModel.Decode` is the controller's reassembly of pulse pairs
  into bytes, and `SendDecodes` proves the controller receives exactly the bytes
  `Set_LCD` was given.
- `system.dfy` (`System`) holds the IRCF frequency lookup, the OSCCON
  read-modify-write and `System_Setup`.
- `cstring.dfy` (`CString`) models the `while (*str)` walks over NUL-terminated
  strings. `arith.dfy` (`Arith`) holds division facts used by the decimal and baud
  proofs.

Conventions:

- Bytes are `bv8`. A 16-bit `int` counter wraps through `SerialModel.Int16`.
- A pin level is a `bool`: HIGH is `true`.
- One keypad "read" is one evaluation of a four-column condition such as
  `KP_COL1==0 && KP_COL2==1 && KP_COL3==1 && KP_COL4==1`.
- `__delay_ms` adds to a millisecond counter (`waitedMs`) on the keypad.
- `Keypad_waitForKey` and `Keypad_ALTwaitForKey` loop until a key arrives. Here
  they take a bound on the number of polls.

Behaviour of the code worth knowing:

- `Keypad_getKeyState` calls `Confirm_COL`, so it takes two reads and the debounce
  delay (Keypad.c:456).
- A ring buffer cursor lies in [0, 64]. It is reset only when it equals `BUF_SIZE`,
  just before use (serial.c:100, 127).
- `available` is a 16-bit `int` with no cap at `BUF_SIZE`. `Serial_available`
  truncates it to a byte.
- After 65 receptions into an empty buffer, 64 reads return byte 65 first and then
  bytes 2..64. The count still says one byte is unread (`SerialModel.Overflow`).
- `Keypad_ALTgetKey`'s fast path returns with the lines still configured for the
  keypad. It does not call `LCD_busEnable` (Keypad.c:181-184).

## Model

| member | source | states |
|---|---|---|
| KeypadModel.KeyAt | Keypad.h:61-66 | `keys[row-1][col-1]` is never the "no key" code 0 |
| KeypadModel.KeyMapOneToOne | Keypad.h:61-66 | the 16 keymap codes are pairwise distinct; `KeyPosition` maps each back to its row and column |
| KeypadModel.SelectedSpec | Keypad.c:378-404 | `Select_ROW(r)` drives row k LOW iff k == r; for r outside 1..4 all four rows are HIGH (no default case) |
| Keypad.Port.SelectRow | Keypad.c:378-404 | after all four writes of HIGH and the switch, the latches equal `Selected(row)`; nothing else changes |
| KeypadModel.OnlyLowSpec | Keypad.c:490-543 | the single-column test holds for c iff c is in 1..4, column c reads LOW and the other three read HIGH; with two or more LOW columns it holds for none |
| KeypadModel.LowColumn | Keypad.c:490-543 | the only column that can pass the single-column test, in 0..4 |
| KeypadModel.ConfirmColSpec | Keypad.c:483-546 | `Confirm_COL(c)` for c in 1..4 is true iff c is seen alone on the read and on the re-read; a pass costs two reads and the debounce delay, a failure one read; for other c nothing is read and the previous call's latch is returned; nothing else changes |
| Keypad.Port.ConfirmCol | Keypad.c:483-546 | the method leaves the port as `KeypadModel.ConfirmCol` and returns the static latch |
| KeypadModel.ConfirmColsFrom | Keypad.c:424-433 | the column loop stops at a column in col..4, or at none (0) |
| KeypadModel.ConfirmColsFrame | Keypad.c:424-433 | the column loop changes only the read and delay counters and the latch, and both counters only grow |
| KeypadModel.ConfirmColsFound | Keypad.c:424-433 | the column the loop stops at was seen alone on the last two reads and leaves the latch set; the loop stops there, taking one or two reads per earlier column and none of a later one; when it stops at none, every remaining column was read and the latch is false; the rows and the shared lines are unchanged |
| KeypadModel.FindKeySpec | Keypad.c:418-435 | a key from `findKey_inRow(r)` is `keys[r-1][c-1]` for a column c that passed the debounce, with the latch set and no column after c read (at most 2c reads); the rows and the shared lines are not touched; with no key, all four columns were read |
| Keypad.Port.FindKeyInRow | Keypad.c:418-435 | the `for` loop with `break` leaves the port as `FindKey` and returns its key; `Key_Confirmed` ends equal to `Confirm_COL`'s latch |
| KeypadModel.ScanRowsFound | Keypad.c:346-352 | a key from the row pass is the keymap entry of a position that passed the debounce with its row selected, and that row is still selected; with no key, ROW4 is left selected |
| KeypadModel.ScanRowsFrame | Keypad.c:346-352 | the row pass changes only the rows, the two counters and the latch |
| Keypad.Port.ScanRows | Keypad.c:346-352 | the row loop leaves the port as `ScanRowsFrom(…, 1)` and returns its key |
| KeypadModel.GetKeyFrame | Keypad.c:336-363 | when all four columns read HIGH, `Keypad_getKey` returns 0 after one read with the rows untouched; otherwise every row ends LOW after at least the hold delay; the shared lines and RBIE/RBIF never change |
| KeypadModel.GetKeySpec | Keypad.c:336-363 | a key `Keypad_getKey` returns is the keymap entry of a position whose column passed the debounce on two reads after the fast-path read |
| Keypad.Port.GetKey | Keypad.c:336-363 | the method leaves the port as `KeypadModel.GetKey` and returns its key; `Key_Confirmed` is untouched on the fast path and otherwise ends equal to `Confirm_COL`'s latch, and the other two `static bit`s are untouched |
| KeypadModel.WaitForKeySpec | Keypad.c:315-321 | `Keypad_waitForKey` returns only a key that passed `Keypad_getKey`'s debounce, and an idle keypad stays idle |
| Keypad.Port.WaitForKey | Keypad.c:315-321 | the `while (Key == 0)` loop leaves the port as `KeypadModel.WaitForKey` and returns its key; `Key_Confirmed` is either untouched or equal to `Confirm_COL`'s latch, and the other two `static bit`s are untouched |
| KeypadModel.GetKeyStateSpec | Keypad.c:452-468 | `Keypad_getKeyState(r, c)` answers 'P' iff column c is seen alone on two reads with row r selected, 'R' otherwise; for c outside 1..4 it repeats `Confirm_COL`'s previous answer; every row ends LOW |
| Keypad.Port.GetKeyState | Keypad.c:452-468 | the method leaves the port as `KeypadModel.GetKeyState` and returns 'P' or 'R' |
| KeypadModel.IsrColsFrom | Keypad.c:574-616 | the interrupt routine's column loop stops at a column in col..4, or at none |
| KeypadModel.IsrColsSpec | Keypad.c:574-616 | exactly one undebounced read per column tried and nothing else changes; a column found was seen alone on that read |
| KeypadModel.IsrRowsFrame | Keypad.c:570-619 | the interrupt routine's row loop changes only the rows and the read counter |
| KeypadModel.IsrRowsFound | Keypad.c:570-619 | a key from the row loop was seen alone on one read with its row selected; with no key all positions from the starting row were read exactly once |
| KeypadModel.IsrFrame | Keypad.c:563-630 | after `Keypad_ISR` every row is LOW, RBIF is clear and RBIE set, no delay was spent and the shared lines are unchanged |
| KeypadModel.IsrSpec | Keypad.c:563-630 | a key `Keypad_ISR` returns was seen alone on a single read; with no key all 16 positions were read exactly once (no fast path) |
| Keypad.Port.IsrRow | Keypad.c:574-616 | the column loop leaves the port as `KeypadModel.IsrRow`; its `static bit` is set iff a key was found |
| Keypad.Port.Isr | Keypad.c:563-630 | the method leaves the port as `KeypadModel.Isr`: RBIE cleared on entry, the nested loops, rows LOW, RBIF cleared, RBIE set |
| Keypad.Port.Begin | Keypad.c:255-297 | `Keypad_begin` drives every row LOW and makes the shared lines column inputs; with the interrupt option it clears RBIF and sets RBIE |
| Keypad.Port.KeypadBusEnable | Keypad.c:75-113 | `Keypad_busEnable` drives every row HIGH and hands the shared lines to the keypad |
| Keypad.Port.LcdBusEnable | Keypad.c:128-155 | `LCD_busEnable` drives every row HIGH and hands the shared lines back to the LCD |
| KeypadModel.AltGetKeyFrame | Keypad.c:170-201 | `Keypad_ALTgetKey` takes the lines and drives every row LOW; on the fast path it returns 0 with the lines still taken and only the read counter changed besides; otherwise it ends with the rows HIGH, the lines back with the LCD and the hold delay spent |
| KeypadModel.AltGetKeySpec | Keypad.c:170-201 | a key `Keypad_ALTgetKey` returns is the keymap entry of a position that passed the debounce |
| Keypad.Port.AltGetKey | Keypad.c:170-201 | the method leaves the port as `KeypadModel.AltGetKey` and returns its key; `Key_Confirmed` is untouched on the fast path and otherwise ends equal to `Confirm_COL`'s latch |
| KeypadModel.AltPollsFrame | Keypad.c:223-233 | the polling loop of `Keypad_ALTwaitForKey` keeps the lines where they were |
| KeypadModel.AltPollsSpec | Keypad.c:223-233 | a key the polling loop ends on passed the debounce |
| KeypadModel.AltWaitForKeySpec | Keypad.c:216-239 | a key `Keypad_ALTwaitForKey` returns passed the debounce, and the rows are HIGH with the lines back with the LCD; while it still waits the lines belong to the keypad |
| Keypad.Port.AltWaitForKey | Keypad.c:216-239 | the method leaves the port as `KeypadModel.AltWaitForKey` and returns its key; after at least one pass `Key_Confirmed` equals `Confirm_COL`'s latch |
| KeypadModel.IdleKept | Keypad.c:268-271 | `Keypad_begin` makes every row LOW; `Keypad_getKey` and `Keypad_waitForKey` started idle, and `Keypad_getKeyState` and `Keypad_ISR` on any state, all end with every row LOW |
| KeypadModel.AltGetKeyLeavesIdle | Keypad.c:196 | once a column read LOW, `Keypad_ALTgetKey` ends with the rows HIGH, not idle |
| KeypadProperties.SoleLow | Keypad.c:490-543 | the column that alone reads LOW, 0 iff none or several do |
| KeypadProperties.SteadyHitFrom | Keypad.c:346-352 | the reference scan: the first row, from ROW1 on, in which exactly one column reads LOW, and that column; (0, 0) when no row has one |
| KeypadProperties.ConfirmColsSteady | Keypad.c:424-433 | on switches that hold still, the column loop stops at the column seen alone if it is not before the loop's start, after one read per earlier column and two reads and the debounce delay for that column; with no such column it takes one read per column and no delay |
| KeypadProperties.ScanRowsSteady | Keypad.c:346-352 | on switches that hold still, with the shared lines as column inputs, the row pass stops where the reference scan does |
| KeypadProperties.GetKeyIdle | Keypad.c:339-342 | with switches that hold still and no column LOW, `Keypad_getKey` returns 0 |
| KeypadProperties.GetKeySteady | Keypad.c:336-363 | with switches that hold still, the shared lines as column inputs and some column LOW, `Keypad_getKey` stops where the reference scan does |
| KeypadProperties.AltGetKeyIdle | Keypad.c:181-184 | with switches that hold still and no column LOW while every row is LOW, `Keypad_ALTgetKey` returns 0 |
| KeypadProperties.AltGetKeySteady | Keypad.c:186-200 | otherwise `Keypad_ALTgetKey` stops where the reference scan does |
| KeypadProperties.AltWaitForKeySteady | Keypad.c:216-239 | on switches that hold still where the reference scan finds a key, `Keypad_ALTwaitForKey` stops where the reference does on its first pass, from any rows and lines: it has no fast path and takes the lines itself |
| KeypadProperties.IsrColsSteady | Keypad.c:574-616 | on switches that hold still, one row of `Keypad_ISR` finds the same column as `findKey_inRow` |
| KeypadProperties.IsrRowsSteady | Keypad.c:570-619 | on switches that hold still, with the shared lines as column inputs, the interrupt routine's row loop stops where the reference scan does |
| KeypadProperties.IsrSteady | Keypad.c:563-630 | on switches that hold still, with the shared lines as column inputs, `Keypad_ISR` stops where the reference scan does, and from the idle state with a column LOW it returns the same key as `Keypad_getKey` |
| KeypadProperties.GetKeyStateSteady | Keypad.c:452-468 | on switches that hold still, `Keypad_getKeyState(r, c)` is 'P' iff column c alone reads LOW with row r selected and the lines as they are |
| KeypadProperties.OneKeyReported | Keypad.c:336-363 | with one switch held down, `Keypad_ALTgetKey` and `Keypad_ALTwaitForKey` return its keymap entry from any state, since they take the lines themselves; `Keypad_getKey` and `Keypad_ISR` return it from the state `Keypad_begin` leaves (rows LOW, lines as column inputs), for each of the 16 keys; with the lines as column inputs `Keypad_getKeyState` is 'P' at that position and 'R' at every other |
| KeypadProperties.OneKeyWaited | Keypad.c:315-321 | from the state `Keypad_begin` leaves, `Keypad_waitForKey` returns the key held down on its first poll |
| KeypadProperties.PhantomKey | Keypad.c:336-363 | `Keypad_getKey` called while RB4..RB7 still drive the LCD reads the LCD's data latch: with no switch closed and a latch with one LOW bit it reports '7', while the same board with the lines as column inputs gives no key |
| KeypadProperties.SameRowSuppressed | Keypad.c:490-543 | with the shared lines as column inputs, two switches held in one row make both `Keypad_getKey` and `Keypad_ISR` report no key (ghosting refused, not resolved) |
| KeypadProperties.EarlierRowWins | Keypad.c:346-352 | with switches held in rows r1 < r2, from the state `Keypad_begin` leaves, `Keypad_getKey`, `Keypad_ISR`, `Keypad_ALTgetKey` and `Keypad_ALTwaitForKey` report the one in row r1 |
| KeypadProperties.GetKeyRejectsBlip | Keypad.c:490-500 | with the shared lines as column inputs, a contact that opens again before `Keypad_getKey`'s third read is never reported, whenever it closed |
| KeypadProperties.IsrTakesBlip | Keypad.c:581-585 | with the shared lines as column inputs, a contact closed for just the one read `Keypad_ISR` takes of its column is reported: the interrupt scan has no debounce |
| SerialModel.Int16 | serial.c:17-19 | a value stored in a 16-bit `int` counter lies in [-32768, 32768) and equals the value whenever that fits |
| SerialModel.ReadIsr | serial.c:125-132 | `Serial_ReadISR` keeps both cursors in [0, BUF_SIZE] and the count a 16-bit value |
| Serial.Uart.ReadIsr | serial.c:125-132 | resets the save cursor at `BUF_SIZE`, stores RCREG there, advances it and the count by one, clears RCIF; the transmit log is unchanged |
| SerialModel.Read | serial.c:96-107 | `Serial_read` keeps both cursors in [0, BUF_SIZE] |
| Serial.Uart.Read | serial.c:96-107 | resets the read cursor at `BUF_SIZE`, returns the cell there, advances the cursor and lowers the count; with a zero count returns 0 and changes nothing |
| SerialModel.ReadEmpty | serial.c:105-106 | with a zero count `Serial_read` returns 0 and leaves cursors, count and cells as they were |
| SerialModel.Available | serial.c:147-150 | `Serial_available` returns the count converted to `unsigned char`, a value in 0..255 |
| Serial.Uart.Available | serial.c:147-150 | returns the model's `Available` of the current buffer |
| SerialModel.Flush | serial.c:174-179 | `Serial_flush` leaves the cells as they were |
| Serial.Uart.Flush | serial.c:174-179 | sets both cursors and the count to 0, leaving the cells and the transmit log alone |
| SerialModel.FlushEmpty | serial.c:174-179 | after start-up and after `Serial_flush` the buffer holds no unread byte |
| SerialModel.ReadIsrEnqueues | serial.c:127-130 | a byte received with fewer than `BUF_SIZE` bytes unread joins the back of the queue |
| SerialModel.ReadDequeues | serial.c:98-104 | with bytes unread, `Serial_read` returns the oldest and the buffer holds the rest |
| SerialModel.AvailableCounts | serial.c:147-150 | while at most `BUF_SIZE` bytes are unread, `Serial_available` is their number |
| SerialModel.ReadIsrOverwrites | serial.c:127-130 | a byte received with `BUF_SIZE` bytes unread overwrites the oldest: the count rises to 65 and the next read returns the new byte |
| SerialModel.ReceiveAll | serial.c:125-132 | a run of receptions keeps the buffer well formed |
| SerialModel.ReadN | serial.c:96-107 | n reads return n bytes and keep the buffer well formed |
| SerialModel.ReceiveAllEnqueues | serial.c:125-132 | receptions that keep at most `BUF_SIZE` bytes unread append the received bytes to the queue, across the wrap |
| SerialModel.ReadNDequeues | serial.c:96-107 | n reads return the first n queued bytes in order and leave the rest queued |
| SerialModel.ReceiveAllCounts | serial.c:130 | each reception adds exactly one to the count, with no cap at `BUF_SIZE` |
| SerialModel.AvailableWraps | serial.c:147-150 | 256 receptions into an empty buffer give a count of 256 that `Serial_available` reports as 0 |
| SerialModel.Fifo | serial.c:96-132 | from any empty buffer, up to 64 receptions then as many reads return the received bytes in order, wherever the cursors stood, and leave `Serial_available` at 0 |
| SerialModel.Overflow | serial.c:125-132 | 65 receptions into an empty buffer then 64 reads return byte 65 and then bytes 2..64; the first byte is lost and the count still says 1 |
| Serial.Uart.Write | serial.c:110-114 | `Serial_write(x)` appends exactly x to the transmit log and changes nothing else |
| Serial.Uart.Print | serial.c:117-124 | `Serial_print(s)` appends the bytes of s before its first NUL, in order |
| Serial.Uart.Println | serial.c:136-143 | `Serial_println(s)` appends what `Serial_print` does, then CR and LF |
| CString.UntilNul | serial.c:119-123 | the bytes a `while (*str)` walk visits: a NUL-free prefix that ends at the first NUL or at the end |
| SerialModel.Print | serial.c:117-124 | the bytes `Serial_print` sends contain no NUL |
| SerialModel.PrintlnSends | serial.c:136-143 | for a string whose first NUL is at i, `Serial_println` sends its first i bytes, then 13 and 10 |
| SerialModel.BaudDivisor | serial.c:77-78 | `(_XTAL_FREQ/baud/16) - 1`, evaluated in `unsigned long` and stored in an `unsigned int`, is a 16-bit value |
| SerialModel.BaudHigh | serial.c:79 | SPBRGH is a byte |
| SerialModel.BaudLow | serial.c:80 | SPBRG is a byte |
| SerialModel.BaudSplit | serial.c:79-80 | `SPBRGH * 256 + SPBRG` gives the divisor back |
| SerialModel.BaudDivisorBrackets | serial.c:77-80 | for 8 baud up to 500000 baud, the generator rate for the chosen divisor is at least the requested rate, and the next slower setting's rate is below it; 9600 baud gives 51 |
| SerialModel.BaudQuotient | serial.c:77-78 | for 8 baud up to 500000 baud the quotient `_XTAL_FREQ/baud` is at least 16, so the subtraction does not wrap and the divisor is `_XTAL_FREQ/baud/16 - 1` |
| SerialModel.BaudDivisorWraps | serial.c:78 | above 500000 baud the unsigned subtraction wraps and the divisor is 0xFFFF |
| Serial.Uart.Begin | serial.c:77-85 | `Serial_begin` leaves SPBRGH and SPBRG holding the divisor's high and low bytes, whose combination is the divisor, and clears TXIF and RCIF |
| Serial.Uart.Find | serial.c:159-162 | `Serial_find` is a stub that never finds anything |
| Serial.Uart.FindUntil | serial.c:168-171 | `Serial_findUntil` is a stub that never finds anything |
| Serial.Uart.ReadBytes | serial.c:184-187 | `Serial_readBytes` is a stub that reports 0 bytes |
| Serial.Uart.ReadBytesUntil | serial.c:192-195 | `Serial_readBytesUntil` is a stub that reports 0 bytes |
| LcdModel.Pins8 | lcd.c:170-185 | one E pulse: RS is bit 0 of rs, the data lines carry bits 0..3 of the byte, and bits 4..7 are dropped |
| Lcd.Display.SetLcdPins8 | lcd.c:170-185 | writes LCDPINS, RS and LCD_4..LCD_7 from its bits 0..3, raises and lowers E, appending exactly one pulse to the log; E ends low |
| LcdModel.SetLcd | lcd.c:150-154 | `Set_LCD(rs, d)` is two pulses with the same RS, each a nibble, high then low, with `hi * 16 + lo == d` |
| Lcd.Display.SetLcd | lcd.c:150-154 | appends the two pulses of `LcdModel.SetLcd`; LCDPINS ends holding the low nibble of the byte |
| LcdModel.SendDecodes | lcd.c:150-154 | a controller in 4-bit mode, pairing pulses into bytes, receives exactly the bytes and RS values `Set_LCD` was called with, in order |
| LcdModel.LineBase | lcd.c:277-284 | the DDRAM base of any line is one of the four line starts 0x00, 0x10, 0x40 and 0x50 (which line gets which is its definition, not its contract) |
| LcdModel.CursorAddresses | lcd.c:274-285 | for a position from 1 that stays inside the address space, `LCD_setCursor` sends a Set DDRAM Address command for address base + pos - 1; line 2 position 5 gives 0xC4 |
| LcdModel.CursorPositionZero | lcd.c:284 | position 0 on line 1 sends 0x7F: the unchecked `pos - 1` leaves the Set DDRAM Address bit clear |
| Lcd.Display.SetCursor | lcd.c:274-285 | appends the pulses of exactly one command byte, `((0x80 OR base) + pos - 1) mod 256` |
| LcdModel.PrintTransfers | lcd.c:126-134 | `LCD_print` sends one cursor command and then one data byte per character before the NUL |
| Lcd.Display.Print | lcd.c:126-134 | the `while (*str)` loop appends the cursor command, then each character as data, in order, up to the first NUL |
| Lcd.Display.Clear | lcd.c:200-204 | sends exactly the command byte 0x01 |
| Lcd.Display.Home | lcd.c:219-223 | sends exactly the command byte 0x02 |
| Lcd.Display.Display | lcd.c:238-241 | sends exactly the command byte 0x0C |
| Lcd.Display.NoDisplay | lcd.c:256-259 | sends exactly the command byte 0x08 |
| Lcd.Display.Putchar | lcd.c:302-306 | sends exactly the data byte c |
| LcdModel.BeginSequence | lcd.c:98-107 | `LCD_begin` emits the nibbles 0x3, 0x3, 0x3, 0x2 and then the commands 0x28, 0x08, 0x01, 0x06, 0x0C, all with RS low: the 4-bit initialisation by instruction of the HD44780U |
| Lcd.Display.Begin | lcd.c:79-109 | the method appends exactly those 14 pulses |
| LcdModel.Shown | lcd.c:335 | the number of digits shown is `required_digits`, capped at 5 |
| LcdModel.DigitsRoundTrip | lcd.c:326-333 | the k digits read back as a decimal number give n mod 10^k, so 5 digits give every `unsigned int` |
| LcdModel.DigitAt | lcd.c:326-339 | digit k-1-j of the k digits is `(n / 10^j) % 10` |
| LcdModel.ChainDigits | lcd.c:326-333 | the chain of `/` and `%` by 10000, 1000, 100 and 10 leaves `(n / 10^j) % 10` in cell j |
| Lcd.Display.DecimalCells | lcd.c:324-333 | the filled `ui_decimal` array holds in cell j the decimal digit of weight 10^j |
| LcdModel.BcdCharAt | lcd.c:335-339 | character i of `LCD_BCDprint`'s output is '0' plus the digit of weight 10^(k-1-i), k being min(d, 5) |
| LcdModel.BcdExample | lcd.c:29 | `LCD_BCDprint(4, 678)` shows "0678" |
| LcdModel.BcdFull | lcd.c:322-340 | with 5 digits the output spells the whole number |
| Lcd.Display.PutDigits | lcd.c:336-339 | the count-down loop sends cell `required_digits - 1` down to cell 0, each as '0' plus the digit |
| Lcd.Display.BcdPrint | lcd.c:322-340 | appends exactly min(d, 5) data characters, most significant first, leading zeros kept |
| System.IrcfCode | system.c:15-40 | the selected IRCF code uses only bits 6..4 and is never 000 |
| System.IrcfLookup | system.c:15-40 | 8 MHz, 4 MHz, 2 MHz, 1 MHz, 500 kHz, 250 kHz and 125 kHz select the IRCF code of exactly that frequency; any other frequency selects 0x70 (8 MHz); `_XTAL_FREQ` selects 0x70 |
| System.Registers.OscSetup | system.c:9-47 | after `Osc_Setup`, OSCCON bits 6..4 hold the code, bit 7 and bits 3..1 keep their old values, and SCS (bit 0) is bit 0 of `CLK_SRC`; no other register changes |
| System.Registers.SystemSetup | system.c:49-56 | `System_Setup` enables the PORTB pull-ups (`nRBPU = 0`) and clears ANSEL and ANSELH |

## Left out

- Delays: `__delay_ms` is a millisecond counter on the keypad and a no-op on the
  LCD and at start-up. Real timing cannot be expressed.
- The `TRMT` busy-waits of `Serial_write`, `Serial_print` and `Serial_println`: a
  write is an append to the transmit log. A transmitter that never becomes ready
  would hang the firmware, and that is not modelled.
- Interrupt preemption: `Serial_ReadISR` and the keypad routines run atomically,
  one call after another. A reception that lands in the middle of `Serial_read` is
  not modelled.
- Pure register configuration is not modelled: TRIS directions, `WPUB`, the
  interrupt-on-change bits, GIE/PEIE, and the UART mode bits of `Serial_begin`
  other than the divisor. The shared RB4..RB7 direction is kept as a single
  `Lines` value. The memory-mapped `LCDPINS` byte is a plain field.
- Keypad.Port.WaitForKey: `Keypad_waitForKey` can loop forever. The model stops
  after `maxPolls` calls and then returns 0, which the C code never does.
- Keypad.Port.AltWaitForKey: `Keypad_ALTwaitForKey` is bounded the same way. When
  the polls run out the model returns 0 with the lines still taken by the keypad.
- The board in `KeypadProperties` reads the LCD's data latch while RB4..RB7 are
  outputs. What a closed switch does to an output pin (contention with a row driven
  LOW) is not modelled, and that latch is a parameter of the lemmas, not tied to
  `Lcd.Display`'s `LCDPINS` field.
- The keypad column inputs come from an oracle per read. A C condition such as
  `KP_COL1==0 && KP_COL2==1 …` reads the port once per term and stops early; the
  model takes the four levels from one sample.
- The HD44780 controller's own behaviour (DDRAM contents, busy flag, execution
  times) is left out. Only the pulses sent to it are modelled.
- `main.c` is not part of this model: the superloop echo and the RCIF dispatch only
  call the modelled routines.
- `Serial_end` is declared in serial.c but has no body, so there is nothing to
  model.
- `htc.h` is not part of this model. SCS is taken to be bit 0 of OSCCON, as on
  the PIC16F887. An assignment to a one-bit field or pin keeps bit 0 of the value;
  this applies to SCS, RS and the LCD data lines.
- Serial.Uart.Begin: requires a nonzero baud, because `_XTAL_FREQ/baud` with baud 0
  is a division by zero, which C leaves undefined.
- System.Registers.constructor and Serial.Uart.constructor: the registers start at
  given values, not at the device's reset values.

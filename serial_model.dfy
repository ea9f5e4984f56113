/** The UART side of serial.c as functions: the receive ring buffer with its lazily
    wrapped cursors and unguarded count, the transmitted byte sequences, and the baud
    divisor of Serial_begin. The compiler's `int` is 16 bits wide, `unsigned int` 16
    and `unsigned long` 32; conversions between them are written out. */
module SerialModel {
  import opened CString
  import opened Arith
  import opened System

  const BUF_SIZE := 64
  const CR: bv8 := 13
  const LF: bv8 := 10

  /** A 16-bit two's complement `int` after an assignment. */
  function Int16(x: int): (r: int)
    ensures -0x8000 <= r < 0x8000
    ensures -0x8000 <= x < 0x8000 ==> r == x
  {
    (x + 0x8000) % 0x1_0000 - 0x8000
  }

  /** `read_buffer` and the three counters that index it. */
  datatype Rx = Rx(buffer: seq<bv8>, save: int, read: int, available: int)

  /** What every operation keeps: 64 cells, cursors in [0, BUF_SIZE] (a cursor is
      reset only when it reaches BUF_SIZE, just before it is used) and a count that
      fits a 16-bit `int`. */
  predicate WellFormed(rx: Rx)
  {
    |rx.buffer| == BUF_SIZE && 0 <= rx.save <= BUF_SIZE && 0 <= rx.read <= BUF_SIZE &&
    -0x8000 <= rx.available < 0x8000
  }

  /** The buffer after start-up: zeroed globals. */
  function Initial(): (rx: Rx)
    ensures WellFormed(rx)
  {
    Rx(seq(BUF_SIZE, _ => 0), 0, 0, 0)
  }

  /** Serial_ReadISR: store the received byte at the save cursor (reset to 0 first if
      it reached BUF_SIZE), advance the cursor and count one more byte. There is no
      check that the slot was read. */
  function ReadIsr(rx: Rx, received: bv8): (r: Rx)
    requires WellFormed(rx)
    ensures WellFormed(r)
  {
    var p := if rx.save == BUF_SIZE then 0 else rx.save;
    Rx(rx.buffer[p := received], p + 1, rx.read, Int16(rx.available + 1))
  }

  /** A read's new buffer state and the byte it returns. */
  datatype Received = Received(rx: Rx, value: bv8)

  /** Serial_read: with a zero count, 0 and nothing changes; otherwise the byte at the
      read cursor (reset to 0 first if it reached BUF_SIZE), the cursor advanced and the
      count one less. A count that wrapped negative counts as data. */
  function Read(rx: Rx): (r: Received)
    requires WellFormed(rx)
    ensures WellFormed(r.rx)
  {
    if rx.available == 0 then Received(rx, 0)
    else
      var p := if rx.read == BUF_SIZE then 0 else rx.read;
      Received(rx.(read := p + 1, available := Int16(rx.available - 1)), rx.buffer[p])
  }

  /** Serial_available: the count converted to `unsigned char`. */
  function Available(rx: Rx): (n: int)
    ensures 0 <= n < 256
  {
    rx.available % 256
  }

  /** Serial_flush: both cursors and the count back to 0; the cells keep their bytes. */
  function Flush(rx: Rx): (r: Rx)
    ensures r.buffer == rx.buffer
  {
    rx.(save := 0, read := 0, available := 0)
  }

  // ---------------------------------------------------------------------------
  // The ring buffer as a queue
  // ---------------------------------------------------------------------------

  /** The cell a cursor value denotes once reduced modulo BUF_SIZE; cursors and
      cursor-plus-count never exceed 2 * BUF_SIZE. */
  function Slot(k: int): (c: int)
    requires 0 <= k <= 2 * BUF_SIZE
    ensures 0 <= c < BUF_SIZE
  {
    if k == 2 * BUF_SIZE then 0 else if k >= BUF_SIZE then k - BUF_SIZE else k
  }

  /** The buffer holds the unread bytes q, oldest first: there are at most BUF_SIZE of
      them, the count says how many, they sit in the cells from the read cursor on,
      wrapping at BUF_SIZE, and the save cursor is just past the newest. */
  ghost predicate Holds(rx: Rx, q: seq<bv8>)
  {
    WellFormed(rx) && rx.available == |q| <= BUF_SIZE &&
    Slot(rx.read + |q|) == Slot(rx.save) &&
    forall i :: 0 <= i < |q| ==> rx.buffer[Slot(rx.read + i)] == q[i]
  }

  /** The buffer after start-up or after Serial_flush holds nothing. */
  lemma FlushEmpty(rx: Rx)
    requires WellFormed(rx)
    ensures Holds(Initial(), []) && Holds(Flush(rx), [])
  {
  }

  /** A byte received while fewer than BUF_SIZE are unread joins the back of the queue. */
  lemma ReadIsrEnqueues(rx: Rx, q: seq<bv8>, b: bv8)
    requires Holds(rx, q) && |q| < BUF_SIZE
    ensures Holds(ReadIsr(rx, b), q + [b])
  {
    var r := ReadIsr(rx, b);
    var p := if rx.save == BUF_SIZE then 0 else rx.save;
    assert p == Slot(rx.read + |q|);
    forall i | 0 <= i < |q| + 1
      ensures r.buffer[Slot(r.read + i)] == (q + [b])[i]
    {
      if i < |q| {
        assert Slot(rx.read + i) != p;
      }
    }
  }

  /** Serial_read with unread bytes returns the oldest and removes it. */
  lemma ReadDequeues(rx: Rx, q: seq<bv8>)
    requires Holds(rx, q) && |q| > 0
    ensures Read(rx).value == q[0] && Holds(Read(rx).rx, q[1..])
  {
    var r := Read(rx).rx;
    forall i | 0 <= i < |q| - 1
      ensures r.buffer[Slot(r.read + i)] == q[1..][i]
    {
      assert Slot(r.read + i) == Slot(rx.read + (i + 1));
    }
  }

  /** Serial_read with nothing unread returns 0 and changes nothing. */
  lemma ReadEmpty(rx: Rx)
    requires WellFormed(rx) && rx.available == 0
    ensures Read(rx) == Received(rx, 0)
  {
  }

  /** Serial_available reports the number of unread bytes. */
  lemma AvailableCounts(rx: Rx, q: seq<bv8>)
    requires Holds(rx, q)
    ensures Available(rx) == |q|
  {
  }

  /** A byte received with BUF_SIZE bytes unread overwrites the oldest unread one: the
      next read returns the new byte instead, after which the buffer holds the other
      63 old bytes and then the new byte once more, while the count says one more than
      the cells can hold. */
  lemma ReadIsrOverwrites(rx: Rx, q: seq<bv8>, b: bv8)
    requires Holds(rx, q) && |q| == BUF_SIZE
    ensures ReadIsr(rx, b).available == BUF_SIZE + 1
    ensures Read(ReadIsr(rx, b)).value == b && Holds(Read(ReadIsr(rx, b)).rx, q[1..] + [b])
  {
    var w := ReadIsr(rx, b);
    var p := if rx.save == BUF_SIZE then 0 else rx.save;
    assert p == Slot(rx.read);
    var r := Read(w).rx;
    forall i | 0 <= i < BUF_SIZE
      ensures r.buffer[Slot(r.read + i)] == (q[1..] + [b])[i]
    {
      if i < BUF_SIZE - 1 {
        assert Slot(r.read + i) == Slot(rx.read + (i + 1)) != p;
      } else {
        assert Slot(r.read + i) == p;
      }
    }
  }

  // ---------------------------------------------------------------------------
  // Many calls
  // ---------------------------------------------------------------------------

  /** Serial_ReadISR once per byte of xs, in order. */
  function ReceiveAll(rx: Rx, xs: seq<bv8>): (r: Rx)
    requires WellFormed(rx)
    ensures WellFormed(r)
    decreases |xs|
  {
    if xs == [] then rx else ReadIsr(ReceiveAll(rx, xs[..|xs| - 1]), xs[|xs| - 1])
  }

  /** n calls of Serial_read: the buffer state after them and the bytes they return. */
  datatype Drained = Drained(rx: Rx, values: seq<bv8>)

  function ReadN(rx: Rx, n: nat): (r: Drained)
    requires WellFormed(rx)
    ensures WellFormed(r.rx) && |r.values| == n
    decreases n
  {
    if n == 0 then Drained(rx, [])
    else
      var first := Read(rx);
      var rest := ReadN(first.rx, n - 1);
      Drained(rest.rx, [first.value] + rest.values)
  }

  lemma {:induction false} ReceiveAllEnqueues(rx: Rx, q: seq<bv8>, xs: seq<bv8>)
    requires Holds(rx, q) && |q| + |xs| <= BUF_SIZE
    ensures Holds(ReceiveAll(rx, xs), q + xs)
    decreases |xs|
  {
    if xs != [] {
      var init := xs[..|xs| - 1];
      ReceiveAllEnqueues(rx, q, init);
      ReadIsrEnqueues(ReceiveAll(rx, init), q + init, xs[|xs| - 1]);
      assert q + init + [xs[|xs| - 1]] == q + xs;
    }
  }

  lemma {:induction false} ReadNDequeues(rx: Rx, q: seq<bv8>, n: nat)
    requires Holds(rx, q) && n <= |q|
    ensures ReadN(rx, n).values == q[..n] && Holds(ReadN(rx, n).rx, q[n..])
    decreases n
  {
    if n > 0 {
      ReadDequeues(rx, q);
      ReadNDequeues(Read(rx).rx, q[1..], n - 1);
      assert q[..n] == [q[0]] + q[1..][..n - 1];
      assert q[n..] == q[1..][n - 1..];
    }
  }

  /** Each reception counts one byte more, with no cap at BUF_SIZE, as long as the
      16-bit count does not overflow. */
  lemma {:induction false} ReceiveAllCounts(rx: Rx, xs: seq<bv8>)
    requires WellFormed(rx) && rx.available + |xs| < 0x8000
    ensures ReceiveAll(rx, xs).available == rx.available + |xs|
    decreases |xs|
  {
    if xs != [] {
      ReceiveAllCounts(rx, xs[..|xs| - 1]);
    }
  }

  /** 256 receptions on an empty buffer: the count is 256, but Serial_available,
      truncating it to a byte, reports nothing to read. */
  lemma AvailableWraps(rx: Rx, xs: seq<bv8>)
    requires Holds(rx, []) && |xs| == 256
    ensures ReceiveAll(rx, xs).available == 256 && Available(ReceiveAll(rx, xs)) == 0
  {
    ReceiveAllCounts(rx, xs);
  }

  /** While no more than BUF_SIZE bytes are unread, Serial_read returns the bytes in
      the order Serial_ReadISR stored them, wherever the cursors stood, across the wrap,
      and leaves a zero count. */
  lemma Fifo(rx: Rx, xs: seq<bv8>)
    requires Holds(rx, []) && |xs| <= BUF_SIZE
    ensures ReadN(ReceiveAll(rx, xs), |xs|).values == xs
    ensures Available(ReadN(ReceiveAll(rx, xs), |xs|).rx) == 0
  {
    ReceiveAllEnqueues(rx, [], xs);
    assert [] + xs == xs;
    ReadNDequeues(ReceiveAll(rx, xs), xs, |xs|);
    AvailableCounts(ReadN(ReceiveAll(rx, xs), |xs|).rx, xs[|xs|..]);
  }

  /** One byte too many: after 65 receptions on an empty buffer, 64 reads return the
      65th byte first and then bytes 2..64, and the count still says one byte is
      unread. The first byte is lost. */
  lemma Overflow(rx: Rx, xs: seq<bv8>)
    requires Holds(rx, []) && |xs| == BUF_SIZE + 1
    ensures ReadN(ReceiveAll(rx, xs), BUF_SIZE).values == [xs[BUF_SIZE]] + xs[1..BUF_SIZE]
    ensures ReadN(ReceiveAll(rx, xs), BUF_SIZE).rx.available == 1
  {
    var front := xs[..BUF_SIZE];
    ReceiveAllEnqueues(rx, [], front);
    assert [] + front == front;
    var full := ReceiveAll(rx, front);
    ReadIsrOverwrites(full, front, xs[BUF_SIZE]);
    var w := ReadIsr(full, xs[BUF_SIZE]);
    assert ReceiveAll(rx, xs) == w;
    var q := front[1..] + [xs[BUF_SIZE]];
    ReadNDequeues(Read(w).rx, q, BUF_SIZE - 1);
    assert q[..BUF_SIZE - 1] == xs[1..BUF_SIZE];
  }

  // ---------------------------------------------------------------------------
  // Transmission
  // ---------------------------------------------------------------------------

  /** The bytes Serial_print sends: the string up to its terminating NUL. */
  function Print(s: seq<bv8>): (out: seq<bv8>)
    ensures forall j :: 0 <= j < |out| ==> out[j] != NUL
  {
    UntilNul(s)
  }

  /** The bytes Serial_println sends: those of Serial_print, then CR and LF. */
  function Println(s: seq<bv8>): (out: seq<bv8>)
  {
    Print(s) + [CR, LF]
  }

  /** Serial_println sends the bytes of the string before its first NUL, then CR, LF. */
  lemma PrintlnSends(s: seq<bv8>, i: nat)
    requires i <= |s| && (forall j :: 0 <= j < i ==> s[j] != NUL) && (i == |s| || s[i] == NUL)
    ensures Println(s) == s[..i] + [13, 10]
    ensures |Println(s)| == i + 2
  {
    UntilNulAt(s, i);
  }

  // ---------------------------------------------------------------------------
  // The baud-rate divisor
  // ---------------------------------------------------------------------------

  /** `BaudVal = (_XTAL_FREQ/baud/divider)-1` with divider 16: unsigned long division
      and subtraction, then the conversion to a 16-bit unsigned int. baud is an
      unsigned long; zero would divide by zero. */
  function BaudDivisor(baud: int): (d: int)
    requires 0 < baud < 0x1_0000_0000
    ensures 0 <= d < 0x1_0000
  {
    ((XTAL_FREQ / baud / 16 - 1) % 0x1_0000_0000) % 0x1_0000
  }

  /** SPBRGH, `(BaudVal & 0xff00) >> 8`: the divisor's high byte. */
  function BaudHigh(d: int): (h: int)
    requires 0 <= d < 0x1_0000
    ensures 0 <= h < 256
  {
    d / 256
  }

  /** SPBRG, `BaudVal & 0x00ff`: the divisor's low byte. */
  function BaudLow(d: int): (l: int)
    requires 0 <= d < 0x1_0000
    ensures 0 <= l < 256
  {
    d % 256
  }

  /** The two register bytes together give back the divisor. */
  lemma BaudSplit(d: int)
    requires 0 <= d < 0x1_0000
    ensures BaudHigh(d) * 256 + BaudLow(d) == d
  {
  }

  /** For a rate from 8 baud up to the fastest the clock reaches (_XTAL_FREQ/16), the
      generator's rate _XTAL_FREQ/(16(n+1)) for the chosen n is at least the requested
      one and the next slower setting's is below it. Below 8 baud the divisor no longer
      fits 16 bits. 9600 baud gives 51. */
  lemma BaudDivisorBrackets(baud: int)
    requires 8 <= baud <= XTAL_FREQ / 16
    ensures var n := BaudDivisor(baud);
      baud * (16 * (n + 1)) <= XTAL_FREQ < baud * (16 * (n + 2))
    ensures baud == 9600 ==> BaudDivisor(baud) == 51
  {
    var k := XTAL_FREQ / baud;
    var m := k / 16;
    BaudQuotient(baud);
    assert baud * k <= XTAL_FREQ < baud * (k + 1);
    assert 16 * m <= k && k + 1 <= 16 * m + 16;
    MulLe(baud, 16 * m, k);
    MulLe(baud, k + 1, 16 * m + 16);
  }

  /** In that range the quotient is at least 16 and fits, so no wrap happens. */
  lemma BaudQuotient(baud: int)
    requires 8 <= baud <= XTAL_FREQ / 16
    ensures XTAL_FREQ / baud >= 16 && BaudDivisor(baud) == XTAL_FREQ / baud / 16 - 1
  {
    var k := XTAL_FREQ / baud;
    MulLe(baud, k + 1, 16);
    MulLe(k, 8, baud);
    assert k / 16 - 1 < 0x1_0000;
  }

  /** A faster rate makes the unsigned subtraction wrap: the divisor becomes 0xFFFF,
      the slowest setting. */
  lemma BaudDivisorWraps(baud: int)
    requires XTAL_FREQ / 16 < baud < 0x1_0000_0000
    ensures BaudDivisor(baud) == 0xFFFF
  {
    var k := XTAL_FREQ / baud;
    assert baud * k <= 8000000 < baud * 16;
    MulLe(baud, 16, k);
    assert k / 16 == 0;
  }
}

/** serial.c as the firmware runs it: `read_buffer` is an array written in place, the
    save and read cursors and the count are fields changed with `++`, `--` and resets,
    and every byte put in TXREG is appended to a transmit log. Each routine is proved
    to leave the buffer exactly as the function of the same name in SerialModel says,
    so the queue lemmas there (order, overwrite, count) hold of the object. */
module Serial {
  import opened CString
  import opened SerialModel

  class Uart {
    /** read_buffer[BUF_SIZE]. */
    const buffer: array<bv8>
    /** rx_buffer_save_pointer, rx_buffer_read_pointer, rx_buffer_available. */
    var save: int
    var read: int
    var available: int
    /** Every byte written to TXREG, oldest first. */
    var tx: seq<bv8>
    /** The baud-rate generator registers SPBRGH and SPBRG. */
    var spbrgh: int
    var spbrg: int
    /** TXIF and RCIF. */
    var txif: bool
    var rcif: bool

    ghost predicate Valid()
      reads this
    {
      buffer.Length == BUF_SIZE && 0 <= save <= BUF_SIZE && 0 <= read <= BUF_SIZE &&
      -0x8000 <= available < 0x8000
    }

    /** The receive side as SerialModel sees it. */
    ghost function Rx(): SerialModel.Rx
      reads this, buffer
    {
      SerialModel.Rx(buffer[..], save, read, available)
    }

    /** The port at start-up: zero-initialised globals, nothing sent. */
    constructor ()
      ensures Valid() && Rx() == Initial() && tx == [] && fresh(buffer)
    {
      buffer := new bv8[BUF_SIZE](_ => 0);
      save, read, available := 0, 0, 0;
      tx := [];
      spbrgh, spbrg := 0, 0;
      txif, rcif := false, false;
    }

    /** The divisor lines of Serial_begin and its flag clearing. baud is an unsigned
        long; zero would divide by zero. */
    method Begin(baud: int)
      requires Valid() && 0 < baud < 0x1_0000_0000
      modifies this
      ensures Valid() && Rx() == old(Rx()) && tx == old(tx)
      ensures spbrgh == BaudHigh(BaudDivisor(baud)) && spbrg == BaudLow(BaudDivisor(baud))
      ensures spbrgh * 256 + spbrg == BaudDivisor(baud)
      ensures !txif && !rcif
    {
      var baudVal := BaudDivisor(baud);
      spbrgh := BaudHigh(baudVal);
      spbrg := BaudLow(baudVal);
      BaudSplit(baudVal);
      txif, rcif := false, false;
    }

    /** Serial_ReadISR, with the byte found in RCREG. */
    method ReadIsr(rcreg: bv8)
      requires Valid()
      modifies this, buffer
      ensures Valid() && Rx() == SerialModel.ReadIsr(old(Rx()), rcreg)
      ensures tx == old(tx) && !rcif && txif == old(txif)
      ensures spbrgh == old(spbrgh) && spbrg == old(spbrg)
    {
      if save == BUF_SIZE {
        save := 0;
      }
      buffer[save] := rcreg;
      save := save + 1;
      available := Int16(available + 1);
      rcif := false;
    }

    /** Serial_read. */
    method Read() returns (value: bv8)
      requires Valid()
      modifies this
      ensures Valid() && Received(Rx(), value) == SerialModel.Read(old(Rx()))
      ensures tx == old(tx) && rcif == old(rcif) && txif == old(txif)
      ensures spbrgh == old(spbrgh) && spbrg == old(spbrg)
    {
      if available != 0 {
        if read == BUF_SIZE {
          read := 0;
        }
        available := Int16(available - 1);
        value := buffer[read];
        read := read + 1;
      } else {
        value := 0;
      }
    }

    /** Serial_available. */
    method Available() returns (n: int)
      requires Valid()
      ensures n == SerialModel.Available(Rx())
    {
      n := available % 256;
    }

    /** Serial_flush. */
    method Flush()
      requires Valid()
      modifies this
      ensures Valid() && Rx() == SerialModel.Flush(old(Rx()))
      ensures tx == old(tx) && rcif == old(rcif) && txif == old(txif)
      ensures spbrgh == old(spbrgh) && spbrg == old(spbrg)
    {
      save, read, available := 0, 0, 0;
    }

    /** Serial_write: one byte to TXREG once the transmitter is idle. */
    method Write(x: bv8)
      modifies this
      ensures tx == old(tx) + [x]
      ensures save == old(save) && read == old(read) && available == old(available)
      ensures rcif == old(rcif) && txif == old(txif)
      ensures spbrgh == old(spbrgh) && spbrg == old(spbrg)
    {
      tx := tx + [x];
    }

    /** Serial_print: the bytes of str up to its NUL, one TXREG write each. */
    method Print(str: seq<bv8>)
      modifies this
      ensures tx == old(tx) + SerialModel.Print(str)
      ensures save == old(save) && read == old(read) && available == old(available)
      ensures rcif == old(rcif) && txif == old(txif)
      ensures spbrgh == old(spbrgh) && spbrg == old(spbrg)
    {
      var i := 0;
      while i < |str| && str[i] != NUL
        invariant 0 <= i <= |str| && forall j :: 0 <= j < i ==> str[j] != NUL
        invariant tx == old(tx) + str[..i]
        invariant save == old(save) && read == old(read) && available == old(available)
        invariant rcif == old(rcif) && txif == old(txif)
        invariant spbrgh == old(spbrgh) && spbrg == old(spbrg)
      {
        Write(str[i]);
        assert str[..i + 1] == str[..i] + [str[i]];
        i := i + 1;
      }
      UntilNulAt(str, i);
    }

    /** Serial_println: Serial_print, then CR and LF. */
    method Println(str: seq<bv8>)
      modifies this
      ensures tx == old(tx) + SerialModel.Println(str)
      ensures save == old(save) && read == old(read) && available == old(available)
      ensures rcif == old(rcif) && txif == old(txif)
      ensures spbrgh == old(spbrgh) && spbrg == old(spbrg)
    {
      Print(str);
      Write(CR);
      Write(LF);
    }

    /** Serial_find: a stub that never finds anything. */
    method Find(str: bv8) returns (found: bool)
      ensures !found
    {
      found := false;
    }

    /** Serial_findUntil: a stub that never finds anything. */
    method FindUntil(str: bv8, terminator: bv8) returns (found: bool)
      ensures !found
    {
      found := false;
    }

    /** Serial_readBytes: a stub that places nothing in dest. */
    method ReadBytes(dest: array<bv8>, length: bv8) returns (n: bv8)
      ensures n == 0
    {
      n := 0;
    }

    /** Serial_readBytesUntil: a stub that places nothing in dest. */
    method ReadBytesUntil(terminator: bv8, dest: array<bv8>, length: bv8) returns (n: bv8)
      ensures n == 0
    {
      n := 0;
    }
  }
}

/**
 * `SpiBus` of src/interface.rs: one full-duplex SPI bus shared by a 23K640
 * serial SRAM (its own chip select) and the e-paper controller (another),
 * driven one byte exchange at a time.
 */
module Sram {
  import opened Base
  import opened Bus

  const MCPSRAM_READ: Byte := 0x03
  const MCPSRAM_WRITE: Byte := 0x02
  const MCPSRAM_WRSR: Byte := 0x01
  const K640_SEQUENTIAL_MODE: Byte := 1 << 6

  /** What `sram_init` clocks out to bring the SRAM's serial interface to a known state. */
  const InitBytes: seq<Byte> := [0xFF, 0xFF, 0xFF]

  /** What `sram_seq` clocks out: write the status register with sequential mode. */
  const SeqBytes: seq<Byte> := [MCPSRAM_WRSR, K640_SEQUENTIAL_MODE]

  /** A command header: opcode, then the 16-bit address high byte first. */
  function Header(op: Byte, address: Word): (h: seq<Byte>)
    ensures |h| == 3 && h[0] == op
  {
    [op, (address >> 8) as Byte, (address & 0xFF) as Byte]
  }

  /** The two address bytes of a header are the address, high byte first. */
  lemma HeaderAddress(op: Byte, address: Word)
    ensures Header(op, address)[1] as int * 256 + Header(op, address)[2] as int == address as int
  {
    var hi := (address >> 8) as Byte;
    var lo := (address & 0xFF) as Byte;
    assert Header(op, address)[1] == hi && Header(op, address)[2] == lo;
    assert hi as int * 256 + lo as int == address as int;
  }

  /** The constants the SRAM protocol uses. */
  lemma Opcodes()
    ensures SeqBytes == [0x01, 0x40]
    ensures Header(MCPSRAM_READ, 0x1234) == [0x03, 0x12, 0x34]
    ensures Header(MCPSRAM_WRITE, 0x00FF) == [0x02, 0x00, 0xFF]
  {
  }

  /** `sram_init`: three 0xFF bytes inside an SRAM chip-select bracket. */
  method SramInit(w: Wire) returns (w': Wire, res: Outcome)
    ensures (w', res) == Bracket(w, SramCs, Xfers(InitBytes))
  {
    w' := Emit(w, [Low(SramCs)]);
    w', res := WriteBytes(w', InitBytes);
    if res.Err? {
      return;
    }
    w' := Emit(w', [High(SramCs)]);
  }

  /** `sram_seq`: the status-register write selecting sequential mode, bracketed. */
  method SramSeq(w: Wire) returns (w': Wire, res: Outcome)
    ensures (w', res) == Bracket(w, SramCs, Xfers(SeqBytes))
  {
    w' := Emit(w, [Low(SramCs)]);
    w', res := WriteBytes(w', SeqBytes);
    if res.Err? {
      return;
    }
    w' := Emit(w', [High(SramCs)]);
  }

  /** Two `?`-chained byte writes behave as one write of both. */
  lemma WriteThen(w: Wire, a: seq<Byte>, b: seq<Byte>)
    ensures Attempt(w, Xfers(a + b)) ==
      (var r := Attempt(w, Xfers(a)); if r.1.Err? then r else Attempt(r.0, Xfers(b)))
  {
    XfersAppend(a, b);
    AttemptAppend(w, Xfers(a), Xfers(b));
  }

  /**
   * `sram_write`: the WRITE header and then the data, all inside one SRAM
   * chip-select bracket; an error ends it with the SRAM still selected.
   */
  method SramWrite(w: Wire, address: Word, data: seq<Byte>) returns (w': Wire, res: Outcome)
    ensures (w', res) == Bracket(w, SramCs, Xfers(Header(MCPSRAM_WRITE, address) + data))
    ensures res.Ok? ==>
      w'.log == w.log + [Low(SramCs)] + Xfers(Header(MCPSRAM_WRITE, address)) + Xfers(data) + [High(SramCs)]
  {
    var w1 := Emit(w, [Low(SramCs)]);
    WriteThen(w1, Header(MCPSRAM_WRITE, address), data);
    XfersAppend(Header(MCPSRAM_WRITE, address), data);
    w', res := WriteBytes(w1, Header(MCPSRAM_WRITE, address));
    if res.Err? {
      return;
    }
    w', res := WriteBytes(w', data);
    if res.Err? {
      return;
    }
    w' := Emit(w', [High(SramCs)]);
  }

  /** How many bytes `sram_read` stores: none if the header fails, else as many exchanges as completed. */
  function ReadCount(faults: map<nat, BusError>, at: nat, n: nat): (k: nat)
    ensures k <= n
  {
    if FirstFault(faults, at + 1, 3).Some? then 0 else Done(faults, at + 4, n)
  }

  /**
   * `sram_read`: the READ header, then one exchange per byte of `data`,
   * storing the byte received in its place, all inside one SRAM bracket.
   * Exactly `|data|` bytes are read when nothing fails.
   */
  method SramRead(w: Wire, address: Word, data: seq<Byte>, peer: nat -> Byte) returns (w': Wire, res: Outcome, got: seq<Byte>)
    ensures (w', res) == Bracket(w, SramCs, Xfers(Header(MCPSRAM_READ, address) + data))
    ensures got == Received(data, |w.log| + 4, ReadCount(w.faults, |w.log|, |data|), peer)
    ensures res.Ok? ==> forall i :: 0 <= i < |data| ==> got[i] == peer(|w.log| + 4 + i)
  {
    var w1 := Emit(w, [Low(SramCs)]);
    WriteThen(w1, Header(MCPSRAM_READ, address), data);
    w', res := WriteBytes(w1, Header(MCPSRAM_READ, address));
    if res.Err? {
      got := data;
      assert got == Received(data, |w.log| + 4, 0, peer);
      return;
    }
    w', res, got := Transfer(w', data, peer);
    if res.Err? {
      return;
    }
    w' := Emit(w', [High(SramCs)]);
  }

  /** `len` copies of a byte. */
  function Repeat(val: Byte, len: nat): (s: seq<Byte>)
    ensures |s| == len && forall i :: 0 <= i < len ==> s[i] == val
  {
    seq(len, _ => val)
  }

  /**
   * `sram_erase`: the WRITE header, then exactly `len` exchanges sending
   * `val`, inside one SRAM bracket.
   */
  method SramErase(w: Wire, address: Word, len: Word, val: Byte) returns (w': Wire, res: Outcome)
    ensures (w', res) == Bracket(w, SramCs, Xfers(Header(MCPSRAM_WRITE, address) + Repeat(val, len as int)))
    ensures res.Ok? ==>
      w'.log == w.log + [Low(SramCs)] + Xfers(Header(MCPSRAM_WRITE, address)) + Xfers(Repeat(val, len as int)) + [High(SramCs)]
  {
    w', res := SramWrite(w, address, Repeat(val, len as int));
  }

  /**
   * `sram_epd_move_header`: select the SRAM, send the READ header, select the
   * controller too, then exchange the controller opcode; the byte received
   * in that exchange is the first byte of SRAM data, which is returned.
   */
  method MoveHeader(w: Wire, address: Word, epdLocation: Byte, peer: nat -> Byte) returns (w': Wire, res: Result<Byte, BusError>)
    ensures var h := Attempt(Emit(w, [Low(SramCs)]), Xfers(Header(MCPSRAM_READ, address)));
      h.1.Err? ==> w' == h.0 && res == Failure(h.1.error)
    ensures var h := Attempt(Emit(w, [Low(SramCs)]), Xfers(Header(MCPSRAM_READ, address)));
      var p := |w.log| + 5;
      h.1.Ok? ==> (w' == Emit(h.0, [Low(EpdCs), Xfer(epdLocation)]) &&
                   res == (if p in w.faults then Failure(w.faults[p]) else Success(peer(p))))
  {
    var w1 := Emit(w, [Low(SramCs)]);
    var r;
    w', r := WriteBytes(w1, Header(MCPSRAM_READ, address));
    if r.Err? {
      return w', Failure(r.error);
    }
    w' := Emit(w', [Low(EpdCs)]);
    var p := |w'.log|;
    w' := Emit(w', [Xfer(epdLocation)]);
    if p in w.faults {
      return w', Failure(w.faults[p]);
    }
    res := Success(peer(p));
  }

  /** The bytes the body loop forwards: the header's byte first, then each byte received on the previous exchange. */
  function Forwarded(ch: Byte, start: nat, n: nat, peer: nat -> Byte): (s: seq<Byte>)
    ensures |s| == n
    ensures n > 0 ==> s[0] == ch
    ensures forall i :: 0 < i < n ==> s[i] == peer(start + i - 1)
  {
    seq(n, i requires 0 <= i < n => if i == 0 then ch else peer(start + i - 1))
  }

  /** The body transfer run from `w`: the forwarded exchanges, then both chip selects released. */
  function Drain(w: Wire, ch: Byte, n: nat, peer: nat -> Byte): (r: (Wire, Outcome))
    ensures r.0.faults == w.faults
    ensures r.1.Ok? ==>
      r.0.log == w.log + Xfers(Forwarded(ch, |w.log|, n, peer)) + [High(EpdCs), High(SramCs)]
  {
    var a := Attempt(w, Xfers(Forwarded(ch, |w.log|, n, peer)));
    if a.1.Err? then a else (Emit(a.0, [High(EpdCs), High(SramCs)]), Ok)
  }

  /**
   * `sram_epd_move_body`: `data_len` exchanges, each sending the byte
   * received on the one before (the first sends the header's byte), then
   * both chip selects released; an error leaves both selected.
   */
  method MoveBody(w: Wire, ch: Byte, dataLen: Word, peer: nat -> Byte) returns (w': Wire, res: Outcome)
    ensures (w', res) == Drain(w, ch, dataLen as int, peer)
  {
    w', res := Forward(w, ch, dataLen as int, peer);
  }

  /** The byte the loop holds before exchange `i` is the one `Forwarded` lists there. */
  lemma ForwardedAt(w: Wire, ch: Byte, n: nat, peer: nat -> Byte, i: nat, c: Byte)
    requires i < n
    requires c == if i == 0 then ch else peer(|w.log| + i - 1)
    ensures Xfers(Forwarded(ch, |w.log|, n, peer))[i] == Xfer(c)
  {
  }

  /** A fault at exchange `i`, the first, ends the body there with both chip selects held. */
  lemma DrainFault(w: Wire, ch: Byte, n: nat, peer: nat -> Byte, i: nat)
    requires i < n && |w.log| + i in w.faults
    requires FirstFault(w.faults, |w.log|, i).None?
    ensures Drain(w, ch, n, peer) ==
      (Emit(w, Xfers(Forwarded(ch, |w.log|, n, peer))[..i + 1]), Err(w.faults[|w.log| + i]))
  {
    FirstFaultAt(w.faults, |w.log|, n, i);
  }

  /** The loop of `sram_epd_move_body` over a count of `n` exchanges. */
  method Forward(w: Wire, ch: Byte, n: nat, peer: nat -> Byte) returns (w': Wire, res: Outcome)
    ensures (w', res) == Drain(w, ch, n, peer)
  {
    ghost var sent := Xfers(Forwarded(ch, |w.log|, n, peer));
    var c := ch;
    w' := w;
    var i := 0;
    while i < n
      invariant 0 <= i <= n
      invariant w' == Emit(w, sent[..i])
      invariant FirstFault(w.faults, |w.log|, i).None?
      invariant c == if i == 0 then ch else peer(|w.log| + i - 1)
    {
      var pos := |w'.log|;
      ForwardedAt(w, ch, n, peer, i, c);
      w' := Emit(w', [Xfer(c)]);
      Grow(w, sent, i);
      if pos in w.faults {
        DrainFault(w, ch, n, peer, i);
        return w', Err(w.faults[pos]);
      }
      c := peer(pos);
      FirstFaultStep(w.faults, |w.log|, i);
      i := i + 1;
    }
    assert sent[..i] == sent;
    w' := Emit(w', [High(EpdCs), High(SramCs)]);
    res := Ok;
  }

  /** `epd_write`: the bytes as exchanges inside a controller chip-select bracket. */
  method EpdWrite(w: Wire, data: seq<Byte>) returns (w': Wire, res: Outcome)
    ensures (w', res) == Bracket(w, EpdCs, Xfers(data))
  {
    w' := Emit(w, [Low(EpdCs)]);
    w', res := WriteBytes(w', data);
    if res.Err? {
      return;
    }
    w' := Emit(w', [High(EpdCs)]);
  }
}

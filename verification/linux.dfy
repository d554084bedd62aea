/**
 * The plain SPI `Interface` of src/interface.rs on its Linux path: every
 * transfer is cut into blocks of at most 4096 bytes inside one chip-select
 * bracket, and DC tells the controller whether the bytes are a command or
 * data.
 */
module Linux {
  import opened Base
  import opened Bus
  import Command
  import Transport

  /** Linux spidev's default per-transfer limit. */
  const SPIDEV_BUFSIZ: nat := 4096

  /** `data.chunks(4096)`: consecutive blocks, each full-sized but the last; none for empty data. */
  function Chunks(data: seq<Byte>): (cs: seq<seq<Byte>>)
    ensures forall i :: 0 <= i < |cs| ==> 0 < |cs[i]| <= SPIDEV_BUFSIZ
    ensures forall i :: 0 <= i < |cs| - 1 ==> |cs[i]| == SPIDEV_BUFSIZ
    decreases |data|
  {
    if |data| == 0 then []
    else if |data| <= SPIDEV_BUFSIZ then [data]
    else [data[..SPIDEV_BUFSIZ]] + Chunks(data[SPIDEV_BUFSIZ..])
  }

  function Concat(cs: seq<seq<Byte>>): seq<Byte>
    decreases |cs|
  {
    if cs == [] then [] else cs[0] + Concat(cs[1..])
  }

  /** The blocks, in order, are exactly the data. */
  lemma {:induction false} ChunksConcat(data: seq<Byte>)
    ensures Concat(Chunks(data)) == data
    decreases |data|
  {
    if |data| > SPIDEV_BUFSIZ {
      var cs := Chunks(data);
      assert cs[1..] == Chunks(data[SPIDEV_BUFSIZ..]);
      ChunksConcat(data[SPIDEV_BUFSIZ..]);
      assert data == data[..SPIDEV_BUFSIZ] + data[SPIDEV_BUFSIZ..];
    } else if |data| > 0 {
      assert Concat([data]) == data + Concat([]);
    }
  }

  /** There are as few blocks as the limit allows: the length divided by 4096, rounded up. */
  lemma {:induction false} ChunksCount(data: seq<Byte>)
    ensures |Chunks(data)| == (|data| + SPIDEV_BUFSIZ - 1) / SPIDEV_BUFSIZ
    decreases |data|
  {
    if |data| > SPIDEV_BUFSIZ {
      ChunksCount(data[SPIDEV_BUFSIZ..]);
    }
  }

  /** One blocking SPI write per block. */
  function Blocks(cs: seq<seq<Byte>>): (evs: seq<BusEvent>)
    ensures |evs| == |cs|
    ensures forall i :: 0 <= i < |cs| ==> evs[i] == Block(cs[i])
  {
    seq(|cs|, i requires 0 <= i < |cs| => Block(cs[i]))
  }

  /**
   * `Interface::write`: CS low, one SPI write per block with `?` after each,
   * CS high. A failing block returns its error with CS still low.
   */
  method Write(w: Wire, data: seq<Byte>) returns (w': Wire, res: Outcome)
    ensures (w', res) == Bracket(w, Cs, Blocks(Chunks(data)))
  {
    w' := Emit(w, [Low(Cs)]);
    w', res := Issue(w', Blocks(Chunks(data)));
    if res.Err? {
      return;
    }
    w' := Emit(w', [High(Cs)]);
  }

  /** What a successful `send_command` or `send_data` leaves on the wires. */
  function Wired(e: Transport.Event): seq<BusEvent>
    requires Transport.Fallible(e)
  {
    match e
    case Cmd(op) => [Low(Dc), Low(Cs), Block([op]), High(Cs), High(Dc)]
    case Data(bytes) => [High(Dc), Low(Cs)] + Blocks(Chunks(bytes)) + [High(Cs)]
  }

  /**
   * DC tells the controller what the bytes are: it is low for a command and
   * high for data, set before CS is asserted, and stays high for the whole
   * data transfer; CS is released after the last block.
   */
  lemma WiredFraming(e: Transport.Event)
    requires Transport.Fallible(e)
    ensures var r := Wired(e);
      |r| >= 3 && r[0] == (if e.Cmd? then Low(Dc) else High(Dc)) && r[1] == Low(Cs)
    ensures var r := Wired(e);
      e.Cmd? ==> r[|r| - 2] == High(Cs) && r[|r| - 1] == High(Dc)
    ensures var r := Wired(e);
      e.Data? ==> r[|r| - 1] == High(Cs) && Low(Dc) !in r
  {
    if e.Data? {
      var bs := Blocks(Chunks(e.bytes));
      assert Wired(e) == [High(Dc), Low(Cs)] + bs + [High(Cs)];
      assert Low(Dc) !in bs;
    }
  }

  /**
   * `send_command`: DC low, the opcode as a one-byte write, DC high. The
   * write is the only step that can fail; it then returns its error with CS
   * low and DC still low.
   */
  method SendCommand(w: Wire, op: Byte) returns (w': Wire, res: Outcome)
    ensures w'.faults == w.faults
    ensures |w.log| + 2 in w.faults ==>
      w'.log == w.log + [Low(Dc), Low(Cs), Block([op])] && res == Err(w.faults[|w.log| + 2])
    ensures |w.log| + 2 !in w.faults ==>
      w'.log == w.log + Wired(Transport.Cmd(op)) && res == Ok
  {
    assert Chunks([op]) == [[op]];
    assert Blocks([[op]]) == [Block([op])];
    w' := Emit(w, [Low(Dc)]);
    w', res := Write(w', [op]);
    if res.Err? {
      return;
    }
    w' := Emit(w', [High(Dc)]);
  }

  /** `send_data`: DC high, then the bracketed block writes. */
  method SendData(w: Wire, data: seq<Byte>) returns (w': Wire, res: Outcome)
    ensures (w', res) == Bracket(Emit(w, [High(Dc)]), Cs, Blocks(Chunks(data)))
    ensures res.Ok? ==> w'.log == w.log + Wired(Transport.Data(data))
  {
    w' := Emit(w, [High(Dc)]);
    w', res := Write(w', data);
  }

  /**
   * `reset`: the reset pin pulsed low and high three times, every one of the
   * six edges followed by the 10 ms reset delay. It cannot fail.
   */
  function Reset(w: Wire): (r: Wire)
    ensures r.faults == w.faults
    ensures |r.log| == |w.log| + 12 && r.log[..|w.log|] == w.log
    ensures forall i :: 0 <= i < 6 ==> r.log[|w.log| + 2 * i] == (if i % 2 == 0 then Low(Rst) else High(Rst))
    ensures forall i :: 0 <= i < 6 ==> r.log[|w.log| + 2 * i + 1] == Pause(10)
  {
    Emit(w, ResetPulses)
  }

  /** The buffer command `epd_update_data` sends for a layer: black for layer 0, red otherwise. */
  function LayerCommand(layer: Byte, bytes: seq<Byte>): (bc: Command.BufCommand)
    ensures layer == 0 ==> bc == Command.WriteBlackData(bytes)
    ensures layer != 0 ==> bc == Command.WriteRedData(bytes)
  {
    if layer == 0 then Command.WriteBlackData(bytes) else Command.WriteRedData(bytes)
  }

  /**
   * `epd_update_data`: `BufCommand::execute` on this interface with the first
   * `nbytes` bytes of `buf` (slicing past the end panics, hence the
   * precondition). Opcode 0x10 goes out for layer 0 and 0x13 otherwise; on
   * success the wires carry each call of the command's transmission in turn;
   * a failing opcode write ends it.
   */
  method EpdUpdateData(w: Wire, layer: Byte, nbytes: Word, buf: seq<Byte>) returns (w': Wire, res: Outcome)
    requires nbytes as int <= |buf|
    ensures var op: Byte := if layer == 0 then 0x10 else 0x13;
      |w'.log| >= |w.log| + 3 && w'.log[..|w.log| + 3] == w.log + [Low(Dc), Low(Cs), Block([op])]
    ensures |w.log| + 2 in w.faults ==> |w'.log| == |w.log| + 3 && res == Err(w.faults[|w.log| + 2])
    ensures var evs := Command.Transmission(Command.PackBuf(LayerCommand(layer, buf[..nbytes])));
      res.Ok? ==> w'.log == w.log + Wired(evs[0]) + (if |evs| == 2 then Wired(evs[1]) else [])
  {
    var sz := nbytes as int;
    var p := Command.PackBuf(LayerCommand(layer, buf[..sz]));
    w', res := SendCommand(w, p.op);
    if res.Err? || |p.args| == 0 {
      return;
    }
    var w1 := w';
    w', res := SendData(w1, p.args);
    assert w'.log[..|w.log| + 3] == w1.log[..|w.log| + 3];
  }
}

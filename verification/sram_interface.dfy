/**
 * `SramDisplayInterface` of src/interface.rs: the controller interface for
 * boards whose frame buffer lives in the serial SRAM on the shared bus.
 */
module SramInterface {
  import opened Base
  import opened Bus
  import opened Sram
  import Command
  import Linux

  /**
   * `send_command`: DC low, then the opcode written to the controller. DC is
   * not raised again afterwards, unlike on the plain interface.
   */
  method SendCommand(w: Wire, op: Byte) returns (w': Wire, res: Outcome)
    ensures (w', res) == Bracket(Emit(w, [Low(Dc)]), EpdCs, Xfers([op]))
    ensures |w'.log| > |w.log| && w'.log[|w.log|] == Low(Dc) && High(Dc) !in w'.log[|w.log|..]
  {
    w' := Emit(w, [Low(Dc)]);
    var w1 := w';
    w', res := EpdWrite(w1, [op]);
    BracketReleases(w1, EpdCs, Xfers([op]));
    assert w'.log[|w.log|..] == [Low(Dc)] + w'.log[|w1.log|..];
  }

  /** `send_data`: DC high, then the bytes written to the controller. */
  method SendData(w: Wire, data: seq<Byte>) returns (w': Wire, res: Outcome)
    ensures (w', res) == Bracket(Emit(w, [High(Dc)]), EpdCs, Xfers(data))
  {
    w' := Emit(w, [High(Dc)]);
    w', res := EpdWrite(w', data);
  }

  /**
   * `reset`: `sram_init`, the hardware reset pulses, `sram_seq`. The results
   * of both SRAM steps are dropped, so the pulses are sent even after a
   * failed `sram_init`, and `reset` itself cannot fail.
   */
  method Reset(w: Wire) returns (w': Wire)
    ensures var i := Bracket(w, SramCs, Xfers(InitBytes)).0;
      w' == Bracket(Emit(i, ResetPulses), SramCs, Xfers(SeqBytes)).0
    ensures var i := Bracket(w, SramCs, Xfers(InitBytes)).0;
      |w'.log| >= |i.log| + 12 && w'.log[|i.log|..|i.log| + 12] == ResetPulses
    ensures (forall k :: |w.log| <= k < |w.log| + 21 ==> k !in w.faults) ==>
      w'.log == w.log + [Low(SramCs)] + Xfers(InitBytes) + [High(SramCs)] + ResetPulses
                      + [Low(SramCs)] + Xfers(SeqBytes) + [High(SramCs)]
  {
    var r;
    w', r := SramInit(w);
    var i := w';
    w' := Emit(w', ResetPulses);
    var p := w';
    w', r := SramSeq(w');
    if r.Ok? {
      assert w'.log == p.log + [Low(SramCs)] + Xfers(SeqBytes) + [High(SramCs)];
    } else {
      assert w'.log[..|p.log|] == p.log;
    }
    assert w'.log[|i.log|..|i.log| + 12] == p.log[|i.log|..];
  }

  /** The controller opcode a layer is written with: 0x10 for layer 0, 0x13 otherwise. */
  function Location(layer: Byte): (loc: Byte)
    ensures layer == 0 ==> loc == 0x10
    ensures layer != 0 ==> loc == 0x13
  {
    if layer == 0 then 0x10 else 0x13
  }

  /**
   * The SRAM path writes a layer with the opcode the plain interface's
   * `epd_update_data` sends for it: black data for layer 0, red otherwise.
   */
  lemma LocationIsLayerCommand(layer: Byte, buf: seq<Byte>)
    ensures Location(layer) == Command.PackBuf(Linux.LayerCommand(layer, buf)).op
    ensures Location(layer) == 0x10 <==> layer == 0
  {
  }

  /**
   * Reference semantics of `sram_epd_update_data`: DC low, then the move
   * header (SRAM READ header, controller opcode exchanged with the SRAM's first
   * byte), then DC high and the move body. Each phase's error is returned as
   * it is and nothing after it happens.
   */
  function UpdatePhases(w: Wire, loc: Byte, startAddress: Word, n: nat, peer: nat -> Byte): (r: (Wire, Outcome))
    ensures r.0.faults == w.faults
  {
    var h := Attempt(Emit(w, [Low(Dc), Low(SramCs)]), Xfers(Header(MCPSRAM_READ, startAddress)));
    var p := |w.log| + 6;
    if h.1.Err? then h
    else if p in w.faults then (Emit(h.0, [Low(EpdCs), Xfer(loc)]), Err(w.faults[p]))
    else Drain(Emit(h.0, [Low(EpdCs), Xfer(loc), High(Dc)]), peer(p), n, peer)
  }

  /** `sram_epd_update_data`. */
  method SramEpdUpdateData(w: Wire, layer: Byte, nbytes: Word, startAddress: Word, peer: nat -> Byte)
    returns (w': Wire, res: Outcome)
    ensures (w', res) == UpdatePhases(w, Location(layer), startAddress, nbytes as int, peer)
  {
    var loc := Location(layer);
    w' := Emit(w, [Low(Dc)]);
    var r;
    w', r := MoveHeader(w', startAddress, loc, peer);
    assert Emit(Emit(w, [Low(Dc)]), [Low(SramCs)]) == Emit(w, [Low(Dc), Low(SramCs)]);
    if r.Failure? {
      return w', Err(r.error);
    }
    ghost var h := Attempt(Emit(w, [Low(Dc), Low(SramCs)]), Xfers(Header(MCPSRAM_READ, startAddress)));
    assert r.value == peer(|w.log| + 6);
    var w2 := w';
    w' := Emit(w2, [High(Dc)]);
    assert w' == Emit(h.0, [Low(EpdCs), Xfer(loc), High(Dc)]);
    w', res := MoveBody(w', r.value, nbytes, peer);
  }

  /**
   * With no fault from DC going low to the last forwarded byte, the update
   * returns `Ok` and logs: DC low, SRAM selected, the READ header, the
   * controller selected, the opcode, DC high, the forwarded bytes (the SRAM's
   * first byte, then each byte received on the exchange before), both chips
   * released.
   */
  lemma {:induction false} UpdateClean(w: Wire, loc: Byte, startAddress: Word, n: nat, peer: nat -> Byte)
    requires forall k :: |w.log| <= k < |w.log| + 8 + n ==> k !in w.faults
    ensures UpdatePhases(w, loc, startAddress, n, peer) ==
      (Emit(w, [Low(Dc), Low(SramCs)] + Xfers(Header(MCPSRAM_READ, startAddress))
               + [Low(EpdCs), Xfer(loc), High(Dc)]
               + Xfers(Forwarded(peer(|w.log| + 6), |w.log| + 8, n, peer))
               + [High(EpdCs), High(SramCs)]), Ok)
  {
    var L := |w.log|;
    var hdr := Xfers(Header(MCPSRAM_READ, startAddress));
    HeaderClean(w, startAddress);
    var h := Attempt(Emit(w, [Low(Dc), Low(SramCs)]), hdr);
    var w3 := Emit(h.0, [Low(EpdCs), Xfer(loc), High(Dc)]);
    assert w3.log == w.log + [Low(Dc), Low(SramCs)] + hdr + [Low(EpdCs), Xfer(loc), High(Dc)];
    DrainClean(w3, peer(L + 6), n, peer);
    var fw := Xfers(Forwarded(peer(L + 6), L + 8, n, peer));
    var all := [Low(Dc), Low(SramCs)] + hdr + [Low(EpdCs), Xfer(loc), High(Dc)] + fw + [High(EpdCs), High(SramCs)];
    assert w3.log + fw + [High(EpdCs), High(SramCs)] == w.log + all;
  }

  /** A failed update leaves the SRAM selected: its chip select is never raised after the call starts. */
  lemma {:induction false} UpdateErrKeepsSelected(w: Wire, loc: Byte, startAddress: Word, n: nat, peer: nat -> Byte)
    ensures var r := UpdatePhases(w, loc, startAddress, n, peer);
      r.1.Err? ==> |w.log| <= |r.0.log| && High(SramCs) !in r.0.log[|w.log|..]
  {
    var hdr := Xfers(Header(MCPSRAM_READ, startAddress));
    var w1 := Emit(w, [Low(Dc), Low(SramCs)]);
    var h := Attempt(w1, hdr);
    AttemptPrefix(w1, hdr);
    var j := |h.0.log| - |w1.log|;
    XfersNoPin(Header(MCPSRAM_READ, startAddress), SramCs, j);
    if h.1.Err? {
      assert h.0.log[|w.log|..] == [Low(Dc), Low(SramCs)] + hdr[..j];
    } else {
      assert hdr[..j] == hdr;
      if |w.log| + 6 !in w.faults {
        BodyErrKeepsSelected(w, loc, startAddress, n, peer);
      }
    }
  }

  lemma {:induction false} BodyErrKeepsSelected(w: Wire, loc: Byte, startAddress: Word, n: nat, peer: nat -> Byte)
    requires High(SramCs) !in Xfers(Header(MCPSRAM_READ, startAddress))
    requires Attempt(Emit(w, [Low(Dc), Low(SramCs)]), Xfers(Header(MCPSRAM_READ, startAddress))).1.Ok?
    requires |w.log| + 6 !in w.faults
    ensures var r := UpdatePhases(w, loc, startAddress, n, peer);
      r.1.Err? ==> |w.log| <= |r.0.log| && High(SramCs) !in r.0.log[|w.log|..]
  {
    var L := |w.log|;
    var hdr := Xfers(Header(MCPSRAM_READ, startAddress));
    var h := Attempt(Emit(w, [Low(Dc), Low(SramCs)]), hdr);
    var w3 := Emit(h.0, [Low(EpdCs), Xfer(loc), High(Dc)]);
    var body := Forwarded(peer(L + 6), |w3.log|, n, peer);
    var a := Attempt(w3, Xfers(body));
    AttemptPrefix(w3, Xfers(body));
    var m := |a.0.log| - |w3.log|;
    XfersNoPin(body, SramCs, m);
    assert a.0.log[L..] == [Low(Dc), Low(SramCs)] + hdr + [Low(EpdCs), Xfer(loc), High(Dc)] + Xfers(body)[..m];
  }

  /** With the header's three exchanges clean, the SRAM READ header goes through. */
  lemma {:induction false} HeaderClean(w: Wire, startAddress: Word)
    requires forall k :: |w.log| + 2 <= k < |w.log| + 5 ==> k !in w.faults
    ensures var h := Attempt(Emit(w, [Low(Dc), Low(SramCs)]), Xfers(Header(MCPSRAM_READ, startAddress)));
      h == (Emit(w, [Low(Dc), Low(SramCs)] + Xfers(Header(MCPSRAM_READ, startAddress))), Ok)
  {
    var a := [Low(Dc), Low(SramCs)];
    var hdr := Xfers(Header(MCPSRAM_READ, startAddress));
    assert |hdr| == 3;
    assert FirstFault(w.faults, |w.log| + 2, 3).None?;
    assert (w.log + a) + hdr == w.log + (a + hdr);
  }

  /** With the body's exchanges clean, the move body forwards every byte and releases both chips. */
  lemma {:induction false} DrainClean(w: Wire, ch: Byte, n: nat, peer: nat -> Byte)
    requires forall k :: |w.log| <= k < |w.log| + n ==> k !in w.faults
    ensures Drain(w, ch, n, peer) ==
      (Emit(w, Xfers(Forwarded(ch, |w.log|, n, peer)) + [High(EpdCs), High(SramCs)]), Ok)
  {
    var fw := Xfers(Forwarded(ch, |w.log|, n, peer));
    assert FirstFault(w.faults, |w.log|, n).None?;
    assert (w.log + fw) + [High(EpdCs), High(SramCs)] == w.log + (fw + [High(EpdCs), High(SramCs)]);
  }
}

/**
 * The wires under a `DisplayInterface` (src/interface.rs): chip-select, DC and
 * reset edges, delays, Linux block writes and full-duplex byte exchanges, as a
 * log. A block write or byte exchange fails when its position in the log is a
 * key of `faults` and is logged all the same; pin edges (whose `.ok()` and
 * `.unwrap()` results the driver ignores) and delays never fail. The byte
 * received by the exchange at log position `p` is `peer(p)`, where `peer` is
 * whatever device answers on MISO.
 */
module Bus {
  import opened Base

  datatype Pin = Cs | Dc | Rst | EpdCs | SramCs

  datatype BusEvent =
    | Low(pin: Pin)                // pin.set_low()
    | High(pin: Pin)               // pin.set_high()
    | Pause(ms: nat)               // delay.delay_ms(ms)
    | Block(bytes: seq<Byte>)      // one blocking spi.write(bytes)
    | Xfer(sent: Byte)             // spi.send(sent) then spi.read()

  datatype Wire = Wire(log: seq<BusEvent>, faults: map<nat, BusError>)

  /** `RESET_DELAY_MS`. */
  const RESET_DELAY_MS: nat := 10

  /** Three low/high pulses of the reset pin, each edge followed by the reset delay. */
  const ResetPulses: seq<BusEvent> := [
    Low(Rst), Pause(RESET_DELAY_MS), High(Rst), Pause(RESET_DELAY_MS),
    Low(Rst), Pause(RESET_DELAY_MS), High(Rst), Pause(RESET_DELAY_MS),
    Low(Rst), Pause(RESET_DELAY_MS), High(Rst), Pause(RESET_DELAY_MS)]

  /** Infallible events: appended as they are. */
  function Emit(w: Wire, evs: seq<BusEvent>): (r: Wire)
    ensures r.faults == w.faults && r.log == w.log + evs
  {
    w.(log := w.log + evs)
  }

  /** One byte exchange per byte, in order. */
  function Xfers(bytes: seq<Byte>): (evs: seq<BusEvent>)
    ensures |evs| == |bytes|
    ensures forall i :: 0 <= i < |bytes| ==> evs[i] == Xfer(bytes[i])
  {
    seq(|bytes|, i requires 0 <= i < |bytes| => Xfer(bytes[i]))
  }

  /** The bytes sent by a run of exchanges. */
  function Sent(evs: seq<BusEvent>): (bytes: seq<Byte>)
    requires forall i :: 0 <= i < |evs| ==> evs[i].Xfer?
    ensures |bytes| == |evs|
    ensures forall i :: 0 <= i < |evs| ==> evs[i] == Xfer(bytes[i])
  {
    seq(|evs|, i requires 0 <= i < |evs| => evs[i].sent)
  }

  lemma SentXfers(bytes: seq<Byte>)
    ensures Sent(Xfers(bytes)) == bytes
  {
  }

  lemma XfersAppend(a: seq<Byte>, b: seq<Byte>)
    ensures Xfers(a + b) == Xfers(a) + Xfers(b)
  {
  }

  lemma XfersPrefix(a: seq<Byte>, n: nat)
    requires n <= |a|
    ensures Xfers(a)[..n] == Xfers(a[..n])
  {
  }

  /** The first of `n` consecutive fallible steps, starting at log position `start`, that meets a fault. */
  function FirstFault(faults: map<nat, BusError>, start: nat, n: nat): (r: Option<nat>)
    ensures r.Some? ==> r.value < n && start + r.value in faults
    decreases n
  {
    if n == 0 then None
    else if start in faults then Some(0)
    else
      match FirstFault(faults, start + 1, n - 1)
      case None => None
      case Some(k) => Some(k + 1)
  }

  /** No fault in the window exactly when there is no first fault; before the first fault every step is clean. */
  lemma {:induction false} FirstFaultMeans(faults: map<nat, BusError>, start: nat, n: nat)
    ensures FirstFault(faults, start, n).None? <==> forall k :: start <= k < start + n ==> k !in faults
    ensures var r := FirstFault(faults, start, n);
      r.Some? ==> forall k :: start <= k < start + r.value ==> k !in faults
    decreases n
  {
    if n > 0 && start !in faults {
      FirstFaultMeans(faults, start + 1, n - 1);
    }
  }

  /** The first fault among `n` steps is the first among any longer run that starts at the same place. */
  lemma {:induction false} FirstFaultExtend(faults: map<nat, BusError>, start: nat, n: nat, m: nat)
    requires n <= m
    requires FirstFault(faults, start, n).Some?
    ensures FirstFault(faults, start, m) == FirstFault(faults, start, n)
    decreases n
  {
    if start !in faults {
      FirstFaultExtend(faults, start + 1, n - 1, m - 1);
    }
  }

  /** A clean run of `n` steps followed by a faulting one. */
  lemma {:induction false} FirstFaultAt(faults: map<nat, BusError>, start: nat, n: nat, i: nat)
    requires i < n && start + i in faults
    requires FirstFault(faults, start, i).None?
    ensures FirstFault(faults, start, n) == Some(i)
    decreases i
  {
    if i > 0 {
      assert start !in faults;
      FirstFaultAt(faults, start + 1, n - 1, i - 1);
    }
  }

  /** One more clean step. */
  lemma FirstFaultStep(faults: map<nat, BusError>, start: nat, i: nat)
    requires start + i !in faults
    requires FirstFault(faults, start, i).None?
    ensures FirstFault(faults, start, i + 1).None?
  {
    FirstFaultJoin(faults, start, i, 1);
  }

  /** After a clean run of `m` steps, the first fault of a longer run is the first fault of what follows. */
  lemma {:induction false} FirstFaultJoin(faults: map<nat, BusError>, start: nat, m: nat, n: nat)
    requires FirstFault(faults, start, m).None?
    ensures FirstFault(faults, start + m, n).None? ==> FirstFault(faults, start, m + n).None?
    ensures FirstFault(faults, start + m, n).Some? ==>
      FirstFault(faults, start, m + n) == Some(m + FirstFault(faults, start + m, n).value)
    decreases m
  {
    if m > 0 {
      assert start !in faults;
      FirstFaultJoin(faults, start + 1, m - 1, n);
      assert start + 1 + (m - 1) == start + m;
    }
  }

  /**
   * Reference semantics of fallible steps chained with `?`: they are issued in
   * order up to and including the first that faults, whose error is returned
   * unchanged.
   */
  function Attempt(w: Wire, steps: seq<BusEvent>): (r: (Wire, Outcome))
    ensures r.0.faults == w.faults
    ensures r.1.Ok? <==> FirstFault(w.faults, |w.log|, |steps|).None?
  {
    match FirstFault(w.faults, |w.log|, |steps|)
    case None => (Emit(w, steps), Ok)
    case Some(k) => (Emit(w, steps[..k + 1]), Err(w.faults[|w.log| + k]))
  }

  /** Attempting a run of steps is attempting its two halves with `?` between them. */
  lemma {:induction false} AttemptAppend(w: Wire, a: seq<BusEvent>, b: seq<BusEvent>)
    ensures Attempt(w, a + b) ==
      (var r := Attempt(w, a); if r.1.Err? then r else Attempt(r.0, b))
  {
    var n := |w.log|;
    match FirstFault(w.faults, n, |a|)
    case Some(k) => AttemptAppendFirst(w, a, b, k);
    case None =>
      FirstFaultJoin(w.faults, n, |a|, |b|);
      match FirstFault(w.faults, n + |a|, |b|)
      case None => assert w.log + (a + b) == (w.log + a) + b;
      case Some(k) => AttemptAppendSecond(w, a, b, k);
  }

  /** A fault in the first half stops the run there. */
  lemma {:induction false} AttemptAppendFirst(w: Wire, a: seq<BusEvent>, b: seq<BusEvent>, k: nat)
    requires FirstFault(w.faults, |w.log|, |a|) == Some(k)
    ensures Attempt(w, a + b) == Attempt(w, a)
  {
    FirstFaultExtend(w.faults, |w.log|, |a|, |a + b|);
    assert (a + b)[..k + 1] == a[..k + 1];
  }

  /** A clean first half and a fault in the second stop the run in the second. */
  lemma {:induction false} AttemptAppendSecond(w: Wire, a: seq<BusEvent>, b: seq<BusEvent>, k: nat)
    requires FirstFault(w.faults, |w.log|, |a| + |b|) == Some(|a| + k)
    requires FirstFault(w.faults, |w.log| + |a|, |b|) == Some(k)
    ensures Attempt(w, a + b) == Attempt(Emit(w, a), b)
  {
    var n := |w.log|;
    var e := w.faults[n + |a| + k];
    var w1 := Emit(w, a);
    assert |a + b| == |a| + |b|;
    assert Attempt(w, a + b) == (Emit(w, (a + b)[..|a| + k + 1]), Err(e));
    assert Attempt(w1, b) == (Emit(w1, b[..k + 1]), Err(e));
    assert (a + b)[..|a| + k + 1] == a + b[..k + 1];
    assert w.log + (a + b)[..|a| + k + 1] == (w.log + a) + b[..k + 1];
  }

  /** What an attempt logs is a prefix of its steps. */
  lemma {:induction false} AttemptPrefix(w: Wire, steps: seq<BusEvent>)
    ensures var r := Attempt(w, steps);
      |w.log| <= |r.0.log| <= |w.log| + |steps| && r.0.log == w.log + steps[..|r.0.log| - |w.log|]
  {
    match FirstFault(w.faults, |w.log|, |steps|)
    case None => assert steps[..|steps|] == steps;
    case Some(k) =>
  }

  /** Byte exchanges never touch a pin. */
  lemma XfersNoPin(bytes: seq<Byte>, pin: Pin, n: nat)
    requires n <= |bytes|
    ensures High(pin) !in Xfers(bytes)[..n] && Low(pin) !in Xfers(bytes)[..n]
  {
    var evs := Xfers(bytes)[..n];
    assert forall i :: 0 <= i < n ==> evs[i] == Xfer(bytes[i]);
  }

  /**
   * A chip-select bracket: the pin goes low, the steps run with `?`, and the
   * pin goes high again only when every step succeeded; an error returns
   * early with the pin still asserted.
   */
  function Bracket(w: Wire, pin: Pin, steps: seq<BusEvent>): (r: (Wire, Outcome))
    ensures r.0.faults == w.faults
    ensures r.1.Ok? ==> r.0.log == w.log + [Low(pin)] + steps + [High(pin)]
    ensures var ff := FirstFault(w.faults, |w.log| + 1, |steps|);
      r.1.Err? ==> ff.Some? && r.0.log == w.log + [Low(pin)] + steps[..ff.value + 1]
  {
    var (w1, res) := Attempt(Emit(w, [Low(pin)]), steps);
    if res.Err? then (w1, res) else (Emit(w1, [High(pin)]), Ok)
  }

  /** The byte exchanges of `n` steps issued from log position `start`. */
  function Done(faults: map<nat, BusError>, start: nat, n: nat): (d: nat)
    ensures d <= n
  {
    match FirstFault(faults, start, n)
    case None => n
    case Some(k) => k
  }

  /** What a full-duplex loop stores: the first `done` bytes replaced by the bytes received for them. */
  function Received(data: seq<Byte>, start: nat, done: nat, peer: nat -> Byte): (r: seq<Byte>)
    requires done <= |data|
    ensures |r| == |data|
    ensures forall i :: 0 <= i < done ==> r[i] == peer(start + i)
    ensures forall i :: done <= i < |data| ==> r[i] == data[i]
  {
    seq(|data|, i requires 0 <= i < |data| => if i < done then peer(start + i) else data[i])
  }

  /** One more step extends the issued prefix by one event. */
  lemma Grow(w: Wire, steps: seq<BusEvent>, i: nat)
    requires i < |steps|
    ensures Emit(Emit(w, steps[..i]), [steps[i]]) == Emit(w, steps[..i + 1])
  {
    assert steps[..i + 1] == steps[..i] + [steps[i]];
  }

  /**
   * Fallible steps issued one at a time with `?` after each: the loop of
   * `SpiBus::write` (over byte exchanges) and of the Linux `write` (over
   * 4096-byte blocks).
   */
  method Issue(w: Wire, steps: seq<BusEvent>) returns (w': Wire, res: Outcome)
    ensures (w', res) == Attempt(w, steps)
  {
    w' := w;
    var i := 0;
    while i < |steps|
      invariant 0 <= i <= |steps|
      invariant w' == Emit(w, steps[..i])
      invariant FirstFault(w.faults, |w.log|, i).None?
    {
      var pos := |w'.log|;
      w' := Emit(w', [steps[i]]);
      Grow(w, steps, i);
      if pos in w.faults {
        FirstFaultAt(w.faults, |w.log|, |steps|, i);
        return w', Err(w.faults[pos]);
      }
      FirstFaultStep(w.faults, |w.log|, i);
      i := i + 1;
    }
    assert steps[..i] == steps;
    res := Ok;
  }

  /** `SpiBus::write`: one exchange per byte, what is read back dropped. */
  method WriteBytes(w: Wire, data: seq<Byte>) returns (w': Wire, res: Outcome)
    ensures (w', res) == Attempt(w, Xfers(data))
  {
    w', res := Issue(w, Xfers(data));
  }

  /**
   * `SpiBus::transfer`: one exchange per byte with `?` after it, storing each
   * received byte in place of the one sent. A failing exchange stores
   * nothing, and the bytes stored before it stay stored.
   */
  method Transfer(w: Wire, data: seq<Byte>, peer: nat -> Byte) returns (w': Wire, res: Outcome, got: seq<Byte>)
    ensures (w', res) == Attempt(w, Xfers(data))
    ensures got == Received(data, |w.log|, Done(w.faults, |w.log|, |data|), peer)
  {
    w' := w;
    got := data;
    var i := 0;
    while i < |data|
      invariant 0 <= i <= |data|
      invariant w' == Emit(w, Xfers(data)[..i])
      invariant FirstFault(w.faults, |w.log|, i).None?
      invariant got == Received(data, |w.log|, i, peer)
    {
      var pos := |w'.log|;
      w' := Emit(w', [Xfer(data[i])]);
      Grow(w, Xfers(data), i);
      XfersPrefix(data, i);
      XfersPrefix(data, i + 1);
      if pos in w.faults {
        FirstFaultAt(w.faults, |w.log|, |data|, i);
        return w', Err(w.faults[pos]), got;
      }
      got := got[i := peer(pos)];
      FirstFaultStep(w.faults, |w.log|, i);
      i := i + 1;
    }
    assert Xfers(data)[..i] == Xfers(data);
    res := Ok;
  }

  /** On success a bracket leaves the pin released; on failure it is never released. */
  lemma BracketReleases(w: Wire, pin: Pin, steps: seq<BusEvent>)
    requires forall i :: 0 <= i < |steps| ==> steps[i].Xfer? || steps[i].Block?
    ensures var r := Bracket(w, pin, steps);
      r.1.Ok? ==> r.0.log[|r.0.log| - 1] == High(pin)
    ensures var r := Bracket(w, pin, steps);
      r.1.Err? ==> |r.0.log| > |w.log| && r.0.log[|w.log|] == Low(pin) && High(pin) !in r.0.log[|w.log|..]
  {
    var r := Bracket(w, pin, steps);
    if r.1.Err? {
      var k :| 0 <= k < |steps| && r.0.log == w.log + [Low(pin)] + steps[..k + 1];
      assert r.0.log[|w.log|..] == [Low(pin)] + steps[..k + 1];
    }
  }
}

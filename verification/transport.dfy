/**
 * The `DisplayInterface` capability as the controller logic sees it: a log of
 * the calls the driver makes, with fault injection. A call to `send_command`
 * or `send_data` fails when its position in the log is a key of `faults`; the
 * failing call is still logged (it was attempted) and the error it returns is
 * the one stored under that key. Resets, busy waits and delays never fail.
 */
module Transport {
  import opened Base

  datatype Event =
    | Cmd(op: Byte)              // send_command(op)
    | Data(bytes: seq<Byte>)     // send_data(bytes)
    | HwReset                    // reset(delay): the pulse pattern lives in the bus model
    | BusyWait                   // busy_wait(): an unbounded poll, recorded as one event
    | Delay(ms: nat)             // delay.delay_ms(ms) on the caller's delay provider

  predicate Fallible(e: Event) {
    e.Cmd? || e.Data?
  }

  datatype Iface = Iface(log: seq<Event>, faults: map<nat, BusError>)

  /** The state after a call together with what the call returned; `:-` propagates an `Err`. */
  datatype Step = Step(io: Iface, res: Outcome) {
    predicate IsFailure() {
      res.Err?
    }

    function PropagateFailure(): Step
      requires IsFailure()
    {
      this
    }

    function Extract(): Iface
      requires !IsFailure()
    {
      io
    }
  }

  /** One call on the interface. */
  function Call(io: Iface, e: Event): (s: Step)
    ensures s.io == io.(log := io.log + [e])
    ensures s.res.Err? <==> Fallible(e) && |io.log| in io.faults
    ensures s.res.Err? ==> s.res.error == io.faults[|io.log|]
  {
    var io' := io.(log := io.log + [e]);
    if Fallible(e) && |io.log| in io.faults then Step(io', Err(io.faults[|io.log|])) else Step(io', Ok)
  }

  /** Reference semantics of a fixed call sequence with `?` after every call. */
  function Run(io: Iface, evs: seq<Event>): (s: Step)
    decreases |evs|
  {
    if evs == [] then Step(io, Ok)
    else
      var s := Call(io, evs[0]);
      if s.res.Err? then s else Run(s.io, evs[1..])
  }

  /** No call of `evs`, issued from `io`, meets a fault. */
  ghost predicate Clean(io: Iface, evs: seq<Event>) {
    forall j :: 0 <= j < |evs| && Fallible(evs[j]) ==> |io.log| + j !in io.faults
  }

  /** Running `evs` from `io` stops at call `j`, which fails, after logging exactly `evs[..j+1]`. */
  ghost predicate AbortsAt(io: Iface, evs: seq<Event>, j: nat, s: Step) {
    && j < |evs|
    && Clean(io, evs[..j])
    && Fallible(evs[j])
    && |io.log| + j in io.faults
    && s == Step(io.(log := io.log + evs[..j + 1]), Err(io.faults[|io.log| + j]))
  }

  /** Cleanliness of a non-empty sequence splits into its first call and the rest. */
  lemma CleanCons(io: Iface, evs: seq<Event>)
    requires evs != []
    ensures Clean(io, evs) <==>
      !(Fallible(evs[0]) && |io.log| in io.faults) && Clean(Call(io, evs[0]).io, evs[1..])
  {
    var io' := Call(io, evs[0]).io;
    var rest := evs[1..];
    if Clean(io, evs) {
      assert |io.log| + 0 == |io.log|;
      forall j | 0 <= j < |rest| && Fallible(rest[j])
        ensures |io'.log| + j !in io'.faults
      {
        assert rest[j] == evs[j + 1];
      }
    }
    if !(Fallible(evs[0]) && |io.log| in io.faults) && Clean(io', rest) {
      forall j | 0 <= j < |evs| && Fallible(evs[j])
        ensures |io.log| + j !in io.faults
      {
        if j > 0 {
          assert evs[j] == rest[j - 1];
        }
      }
    }
  }

  /** A `?`-chained call sequence that meets no fault issues every call and returns `Ok`. */
  lemma {:induction false} RunClean(io: Iface, evs: seq<Event>)
    requires Clean(io, evs)
    ensures Run(io, evs) == Step(io.(log := io.log + evs), Ok)
    decreases |evs|
  {
    if evs == [] {
      assert io.(log := io.log + evs) == io;
    } else {
      CleanCons(io, evs);
      var s := Call(io, evs[0]);
      RunClean(s.io, evs[1..]);
      assert io.log + evs == s.io.log + evs[1..];
    }
  }

  /**
   * A `?`-chained call sequence that meets a fault stops at the first faulting
   * call, logs nothing after it, and returns that call's error unchanged.
   */
  lemma {:induction false} RunFaulty(io: Iface, evs: seq<Event>)
    requires !Clean(io, evs)
    ensures exists j: nat :: AbortsAt(io, evs, j, Run(io, evs))
    decreases |evs|
  {
    CleanCons(io, evs);
    var s := Call(io, evs[0]);
    var rest := evs[1..];
    if s.res.Err? {
      assert evs[..1] == [evs[0]];
      assert evs[..0] == [];
      assert AbortsAt(io, evs, 0, Run(io, evs));
    } else {
      RunFaulty(s.io, rest);
      var k: nat :| AbortsAt(s.io, rest, k, Run(s.io, rest));
      AbortsAtCons(io, evs, k);
    }
  }

  /** An abort at call `k` after a successful first call is an abort at call `k + 1` of the whole. */
  lemma {:induction false} AbortsAtCons(io: Iface, evs: seq<Event>, k: nat)
    requires evs != [] && Call(io, evs[0]).res.Ok?
    requires AbortsAt(Call(io, evs[0]).io, evs[1..], k, Run(Call(io, evs[0]).io, evs[1..]))
    ensures AbortsAt(io, evs, k + 1, Run(io, evs))
  {
    var s := Call(io, evs[0]);
    var rest := evs[1..];
    assert evs[..k + 2] == [evs[0]] + rest[..k + 1];
    assert io.log + evs[..k + 2] == s.io.log + rest[..k + 1];
    var pre := evs[..k + 1];
    assert pre[1..] == rest[..k];
    CleanCons(io, pre);
  }

  /** A call sequence returns `Ok` exactly when none of its calls meets a fault. */
  lemma RunOkIff(io: Iface, evs: seq<Event>)
    ensures Run(io, evs).res.Ok? <==> Clean(io, evs)
  {
    if Clean(io, evs) {
      RunClean(io, evs);
    } else {
      RunFaulty(io, evs);
    }
  }

  /** Running two sequences back to back is running their concatenation. */
  lemma {:induction false} RunAppend(io: Iface, a: seq<Event>, b: seq<Event>)
    ensures Run(io, a + b) == (var s := Run(io, a); if s.res.Err? then s else Run(s.io, b))
    decreases |a|
  {
    if a == [] {
      assert a + b == b;
    } else {
      assert (a + b)[0] == a[0];
      assert (a + b)[1..] == a[1..] + b;
      var s := Call(io, a[0]);
      if s.res.Ok? {
        RunAppend(s.io, a[1..], b);
      }
    }
  }

  /** The fault script is fixed: no call sequence changes it. */
  lemma {:induction false} RunKeepsFaults(io: Iface, evs: seq<Event>)
    ensures Run(io, evs).io.faults == io.faults
    decreases |evs|
  {
    if evs != [] {
      var s := Call(io, evs[0]);
      if s.res.Ok? {
        RunKeepsFaults(s.io, evs[1..]);
      }
    }
  }
}

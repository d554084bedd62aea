/**
 * The controller sequencing of src/display.rs. `init`, `power_down` and
 * `deep_sleep` are fixed lists of commands and delays, each step followed by
 * `?`; they are modelled as scripts run against the `DisplayInterface` call
 * log. The lifecycle phase is not stored by the driver: it records the
 * documented rule that a controller in deep sleep is woken only by `reset`.
 */
module Display {
  import opened Base
  import opened Transport
  import opened Command
  import opened Panel
  import opened Config

  datatype Phase = Uninitialized | Active | Sleeping

  datatype Display = Display(io: Iface, config: Config, phase: Phase)

  /** A display after an operation, with what the operation returned. */
  datatype Done = Done(display: Display, res: Outcome)

  /** One line of a sequencing routine. */
  datatype Action = Exec(c: Command) | Wait(ms: nat) | Poll

  predicate ActionOk(a: Action) {
    a.Exec? ==> WellFormed(a.c)
  }

  predicate ScriptOk(script: seq<Action>) {
    forall i :: 0 <= i < |script| ==> ActionOk(script[i])
  }

  /** The interface calls one action makes. */
  function Calls(a: Action): seq<Event> {
    match a
    case Exec(c) => Transmission(Pack(c))
    case Wait(ms) => [Delay(ms)]
    case Poll => [BusyWait]
  }

  function Expand(script: seq<Action>): seq<Event>
    decreases |script|
  {
    if script == [] then [] else Calls(script[0]) + Expand(script[1..])
  }

  function Act(io: Iface, a: Action): (s: Step)
    ensures s == Run(io, Calls(a))
  {
    match a
    case Exec(c) => Execute(c, io)
    case Wait(ms) => Call(io, Delay(ms))
    case Poll => Call(io, BusyWait)
  }

  /** Runs a script, returning at the first failing action as `?` does. */
  function Perform(io: Iface, script: seq<Action>): Step
    decreases |script|
  {
    if script == [] then Step(io, Ok)
    else
      var io1 :- Act(io, script[0]);
      Perform(io1, script[1..])
  }

  /** Performing a script makes exactly the calls of its expansion, with `?` after each. */
  lemma {:induction false} PerformIsRun(io: Iface, script: seq<Action>)
    ensures Perform(io, script) == Run(io, Expand(script))
    decreases |script|
  {
    if script != [] {
      RunAppend(io, Calls(script[0]), Expand(script[1..]));
      var s := Act(io, script[0]);
      if s.res.Ok? {
        PerformIsRun(s.io, script[1..]);
      }
    }
  }

  /** One unfolding of `Expand`. */
  lemma ExpandCons(a: Action, rest: seq<Action>)
    ensures Expand([a] + rest) == Calls(a) + Expand(rest)
  {
    assert ([a] + rest)[1..] == rest;
  }

  /** A four-action script expands to its actions' calls in order. */
  lemma {:induction false} ExpandFour(a0: Action, a1: Action, a2: Action, a3: Action)
    ensures Expand([a0, a1, a2, a3]) == Calls(a0) + (Calls(a1) + (Calls(a2) + Calls(a3)))
  {
    var t3 := [a3] + [];
    ExpandCons(a3, []);
    var t2 := [a2] + t3;
    ExpandCons(a2, t3);
    var t1 := [a1] + t2;
    ExpandCons(a1, t2);
    ExpandCons(a0, t1);
    assert [a0, a1, a2, a3] == [a0] + t1;
  }

  /** A five-action script expands to its actions' calls in order. */
  lemma {:induction false} ExpandFive(a0: Action, a1: Action, a2: Action, a3: Action, a4: Action)
    ensures Expand([a0, a1, a2, a3, a4]) ==
      Calls(a0) + (Calls(a1) + (Calls(a2) + (Calls(a3) + Calls(a4))))
  {
    ExpandFour(a1, a2, a3, a4);
    ExpandCons(a0, [a1, a2, a3, a4]);
    assert [a0, a1, a2, a3, a4] == [a0] + [a1, a2, a3, a4];
  }

  /** Expanding a concatenation expands its halves. */
  lemma {:induction false} ExpandAppend(s: seq<Action>, t: seq<Action>)
    ensures Expand(s + t) == Expand(s) + Expand(t)
    decreases |s|
  {
    if s == [] {
      assert s + t == t;
    } else {
      var st := s + t;
      assert st[0] == s[0] && st[1..] == s[1..] + t;
      ExpandAppend(s[1..], t);
      assert Expand(st) == Calls(s[0]) + (Expand(s[1..]) + Expand(t));
    }
  }

  /** `init`: the order the controller mandates. */
  function InitScript(cfg: Config): seq<Action> {
    [ Exec(cfg.powerSetting),
      Exec(cfg.boosterSoftStart),
      Exec(PowerOn),
      Wait(200),
      Exec(cfg.panelSetting),
      Exec(VCOMDataIntervalSetting(0x00, Both, V10)),
      Exec(cfg.pll),
      Exec(VCMDCSetting(0x0A)),
      Wait(20),
      Exec(ResolutionSetting(cfg.dimensions.cols, cfg.dimensions.rows as Word)) ]
  }

  /** `power_down`. */
  const PowerDownScript: seq<Action> :=
    [ Poll,
      Exec(VCOMDataIntervalSetting(0x00, BWOnly, V10)),
      Exec(VCMDCSetting(0x00)),
      Exec(PowerOff) ]

  /** The calls `init` makes when nothing fails, in the order of the source. */
  function InitCalls(cfg: Config): seq<Event> {
    PowerUpCalls(cfg) + SetupCalls(cfg)
  }

  /** Power setting, booster soft start, power on, 200 ms, panel setting. */
  function PowerUpCalls(cfg: Config): seq<Event> {
    Transmission(Pack(cfg.powerSetting)) + (
    Transmission(Pack(cfg.boosterSoftStart)) + (
    [Cmd(0x04)] + (
    [Delay(200)] +
    Transmission(Pack(cfg.panelSetting)))))
  }

  /** VCOM and data interval 0x37, PLL, VCM DC 0x0A, 20 ms, resolution. */
  function SetupCalls(cfg: Config): seq<Event> {
    var rows := cfg.dimensions.rows;
    [Cmd(0x50), Data([0x37])] + (
    Transmission(Pack(cfg.pll)) + (
    [Cmd(0x82), Data([0x0A])] + (
    [Delay(20)] +
    [Cmd(0x61), Data([cfg.dimensions.cols, VerticalHigh(rows), VerticalLow(rows)])])))
  }

  /** The calls `deep_sleep` makes when nothing fails. */
  const DeepSleepCalls: seq<Event> :=
    [BusyWait, Cmd(0x50), Data([0x17]), Cmd(0x82), Data([0x00]), Cmd(0x03), Cmd(0x08), Data([0xA5])]

  /** In a debug build no assertion of `init` fires: every command it executes is well-formed. */
  lemma InitScriptOk(cfg: Config)
    requires CommandsWellFormed(cfg)
    ensures ScriptOk(InitScript(cfg))
  {
    var s := InitScript(cfg);
    forall i | 0 <= i < |s|
      ensures ActionOk(s[i])
    {
      if i == 0 { assert s[i] == Exec(cfg.powerSetting); }
      else if i == 1 { assert s[i] == Exec(cfg.boosterSoftStart); }
      else if i == 4 { assert s[i] == Exec(cfg.panelSetting); }
      else if i == 6 { assert s[i] == Exec(cfg.pll); }
    }
  }

  /** The `init` script makes the reference calls, with the fixed commands packed to 0x37 and 0x0A. */
  lemma InitScriptCalls(cfg: Config)
    ensures Expand(InitScript(cfg)) == InitCalls(cfg)
  {
    var s := InitScript(cfg);
    assert s == s[..5] + s[5..];
    ExpandAppend(s[..5], s[5..]);
    InitScriptHead(cfg);
    InitScriptTail(cfg);
  }

  /** The first five actions of `init`: power, booster, power on, the 200 ms wait, panel setting. */
  lemma {:induction false} InitScriptHead(cfg: Config)
    ensures Expand(InitScript(cfg)[..5]) == PowerUpCalls(cfg)
  {
    var a0, a1, a4 := Exec(cfg.powerSetting), Exec(cfg.boosterSoftStart), Exec(cfg.panelSetting);
    assert InitScript(cfg)[..5] == [a0, a1, Exec(PowerOn), Wait(200), a4];
    ExpandFive(a0, a1, Exec(PowerOn), Wait(200), a4);
    BareCalls(PowerOn);
  }

  /** The last five actions of `init`: the fixed VCOM setting packs to 0x37, the VCM DC setting to 0x0A. */
  lemma {:induction false} InitScriptTail(cfg: Config)
    ensures Expand(InitScript(cfg)[5..]) == SetupCalls(cfg)
  {
    var a5 := Exec(VCOMDataIntervalSetting(0x00, Both, V10));
    var a6 := Exec(cfg.pll);
    var a9 := Exec(ResolutionSetting(cfg.dimensions.cols, cfg.dimensions.rows));
    assert InitScript(cfg)[5..] == [a5, a6, Exec(VCMDCSetting(0x0A)), Wait(20), a9];
    ExpandFive(a5, a6, Exec(VCMDCSetting(0x0A)), Wait(20), a9);
    VcomInitCalls();
    VcmDcCalls(0x0A);
    ResolutionCalls(cfg.dimensions.cols, cfg.dimensions.rows);
  }

  /** Two actions expand to their calls in turn. */
  lemma ExpandPair(a: Action, b: Action)
    ensures Expand([a] + [b]) == Calls(a) + Calls(b)
  {
    ExpandCons(a, [b]);
    ExpandCons(b, []);
    assert Expand([]) == [];
  }

  /** `init` sets VCOM and data interval with the byte 0x37. */
  lemma VcomInitCalls()
    ensures Calls(Exec(VCOMDataIntervalSetting(0x00, Both, V10))) == [Cmd(0x50), Data([0x37])]
  {
    assert VcomByte(0x00, Both, V10) == 0x37;
  }

  /** `power_down` sets VCOM and data interval with the byte 0x17. */
  lemma VcomPowerDownCalls()
    ensures Calls(Exec(VCOMDataIntervalSetting(0x00, BWOnly, V10))) == [Cmd(0x50), Data([0x17])]
  {
    assert VcomByte(0x00, BWOnly, V10) == 0x17;
  }

  /** A one-argument command is its opcode, then its argument as one data block. */
  lemma VcmDcCalls(v: Byte)
    ensures Calls(Exec(VCMDCSetting(v))) == [Cmd(0x82), Data([v])]
  {
  }

  /** An argument-less command is its opcode alone. */
  lemma BareCalls(c: Command)
    requires c == PowerOff || c == PowerOn
    ensures Calls(Exec(c)) == [Cmd(if c == PowerOff then 0x03 else 0x04)]
  {
  }

  /** The resolution setting sends the columns, then bit 8 and the low byte of the rows. */
  lemma ResolutionCalls(cols: Byte, rows: Word)
    ensures Calls(Exec(ResolutionSetting(cols, rows))) ==
      [Cmd(0x61), Data([cols, VerticalHigh(rows), VerticalLow(rows)])]
  {
  }

  /** The `power_down` script makes the first six calls of `deep_sleep`. */
  lemma {:induction false} PowerDownScriptCalls()
    ensures Expand(PowerDownScript) == DeepSleepCalls[..6]
  {
    var vcom := Exec(VCOMDataIntervalSetting(0x00, BWOnly, V10));
    ExpandFour(Poll, vcom, Exec(VCMDCSetting(0x00)), Exec(PowerOff));
    VcomPowerDownCalls();
    VcmDcCalls(0x00);
    BareCalls(PowerOff);
  }

  /** `init`. */
  function Init(cfg: Config, io: Iface): (s: Step)
    ensures s == Run(io, InitCalls(cfg))
  {
    InitScriptCalls(cfg);
    PerformIsRun(io, InitScript(cfg));
    Perform(io, InitScript(cfg))
  }

  /** `reset`: the interface's hardware reset, then `init`. The pulse wakes the controller. */
  function Reset(d: Display): (r: Done)
    ensures r.display.config == d.config
    ensures r.display.phase == Active
    ensures Step(r.display.io, r.res) == Run(d.io, [HwReset] + InitCalls(d.config))
  {
    RunAppend(d.io, [HwReset], InitCalls(d.config));
    var io1 := Call(d.io, HwReset).io;
    var s := Init(d.config, io1);
    Done(Display(s.io, d.config, Active), s.res)
  }

  /** `signal_update`. */
  function SignalUpdate(d: Display): (r: Done)
    ensures r.display.config == d.config && r.display.phase == d.phase
    ensures Step(r.display.io, r.res) == Run(d.io, [Cmd(0x12)])
  {
    var s := Execute(DisplayRefresh, d.io);
    Done(d.(io := s.io), s.res)
  }

  /** `power_down`. */
  function PowerDown(io: Iface): (s: Step)
    ensures s == Run(io, DeepSleepCalls[..6])
  {
    PowerDownScriptCalls();
    PerformIsRun(io, PowerDownScript);
    Perform(io, PowerDownScript)
  }

  /** `deep_sleep`: `power_down()?` then the deep sleep command; only success puts the controller to sleep. */
  function DeepSleepOp(d: Display): (r: Done)
    ensures r.display.config == d.config
    ensures r.display.phase == (if r.res.Ok? then Sleeping else d.phase)
    ensures Step(r.display.io, r.res) == Run(d.io, DeepSleepCalls)
  {
    assert DeepSleepCalls == DeepSleepCalls[..6] + [Cmd(0x08), Data([0xA5])];
    RunAppend(d.io, DeepSleepCalls[..6], [Cmd(0x08), Data([0xA5])]);
    var s1 := PowerDown(d.io);
    if s1.res.Err? then Done(d.(io := s1.io), s1.res)
    else
      var s := Execute(DeepSleep, s1.io);
      Done(Display(s.io, d.config, if s.res.Ok? then Sleeping else d.phase), s.res)
  }

  function Rows(d: Display): (r: Word)
    ensures r == d.config.dimensions.rows
  {
    d.config.dimensions.rows
  }

  function Cols(d: Display): (c: Byte)
    ensures c == d.config.dimensions.cols
  {
    d.config.dimensions.cols
  }

  function RotationOf(d: Display): (r: Rotation)
    ensures r == d.config.rotation
  {
    d.config.rotation
  }

  /**
   * The accessors of a display built from a builder report what the builder
   * was given, within the controller's limits when set through `dimensions`.
   */
  lemma AccessorsReadBuilder(b: Builder, io: Iface, phase: Phase)
    requires Build(b).Success?
    ensures var d := Display(io, Build(b).value, phase);
      && Rows(d) == b.dimensions.value.rows
      && Cols(d) == b.dimensions.value.cols
      && RotationOf(d) == b.rotation
    ensures var d := Display(io, Build(b).value, phase);
      ValidBuilder(b) ==> Rows(d) <= MAX_GATE_OUTPUTS && Cols(d) <= MAX_SOURCE_OUTPUTS && Cols(d) % 8 == 0
  {
  }

  // ----- properties of the sequences -----

  /**
   * `init` and `reset` either make every call of the sequence and return
   * `Ok`, or stop at the first failing call, make no later call and return
   * that call's error unchanged.
   */
  lemma ResetAborts(d: Display)
    ensures var r := Reset(d);
      var evs := [HwReset] + InitCalls(d.config);
      && (Clean(d.io, evs) ==> r.res == Ok && r.display.io.log == d.io.log + evs)
      && (!Clean(d.io, evs) ==> exists j: nat :: AbortsAt(d.io, evs, j, Step(r.display.io, r.res)))
  {
    var evs := [HwReset] + InitCalls(d.config);
    var r := Reset(d);
    assert Step(r.display.io, r.res) == Run(d.io, evs);
    if Clean(d.io, evs) {
      RunClean(d.io, evs);
    } else {
      RunFaulty(d.io, evs);
    }
  }

  /** `deep_sleep` ends the log with `[0x08, 0xA5]` on success, and aborts at the first failure. */
  lemma DeepSleepAborts(d: Display)
    ensures var r := DeepSleepOp(d);
      var evs := DeepSleepCalls;
      && (r.res.Ok? <==> Clean(d.io, evs))
      && (Clean(d.io, evs) ==>
            r.display.io.log == d.io.log + evs
            && r.display.io.log[|r.display.io.log| - 2..] == [Cmd(0x08), Data([0xA5])]
            && r.display.phase == Sleeping)
      && (!Clean(d.io, evs) ==>
            r.display.phase == d.phase
            && exists j: nat :: AbortsAt(d.io, evs, j, Step(r.display.io, r.res)))
  {
    var evs := DeepSleepCalls;
    var r := DeepSleepOp(d);
    assert Step(r.display.io, r.res) == Run(d.io, evs);
    RunOkIff(d.io, evs);
    if Clean(d.io, evs) {
      RunClean(d.io, evs);
    } else {
      RunFaulty(d.io, evs);
    }
  }

  /** The operations the documentation permits in each phase: only `reset` may follow `deep_sleep`. */
  datatype Op = OpReset | OpSignalUpdate | OpDeepSleep

  predicate Permitted(p: Phase, op: Op) {
    p == Sleeping ==> op == OpReset
  }

  /**
   * A successful `deep_sleep` leaves only `reset` permitted; `reset` from any
   * phase makes every operation permitted again. Neither changes the
   * configuration, so `rows`, `cols` and `rotation` never change.
   */
  lemma WakeOnlyByReset(d: Display, op: Op)
    ensures DeepSleepOp(d).res.Ok? ==> (Permitted(DeepSleepOp(d).display.phase, op) <==> op == OpReset)
    ensures Permitted(Reset(d).display.phase, op)
    ensures Rows(Reset(d).display) == Rows(d) && Cols(Reset(d).display) == Cols(d)
    ensures RotationOf(Reset(d).display) == RotationOf(d)
    ensures Rows(DeepSleepOp(d).display) == Rows(d) && Cols(DeepSleepOp(d).display) == Cols(d)
    ensures RotationOf(DeepSleepOp(d).display) == RotationOf(d)
    ensures Rows(SignalUpdate(d).display) == Rows(d) && Cols(SignalUpdate(d).display) == Cols(d)
    ensures RotationOf(SignalUpdate(d).display) == RotationOf(d)
  {
  }

  /** With the builder's defaults, `init` sends these exact bytes. */
  lemma {:induction false} DefaultInitCalls(dims: Dimensions)
    requires ValidDimensions(dims)
    ensures Build(WithDimensions(NewBuilder(), dims)).Success?
    ensures var cfg := Build(WithDimensions(NewBuilder(), dims)).value;
      && CommandsWellFormed(cfg)
      && InitCalls(cfg) ==
        [ Cmd(0x01), Data([0x03, 0x00, 0x2B, 0x2B, 0x09]),
          Cmd(0x06), Data([0x17, 0x17, 0x17]),
          Cmd(0x04), Delay(200),
          Cmd(0x00), Data([0xCF]),
          Cmd(0x50), Data([0x37]),
          Cmd(0x30), Data([0x29]),
          Cmd(0x82), Data([0x0A]), Delay(20),
          Cmd(0x61), Data([dims.cols, VerticalHigh(dims.rows), VerticalLow(dims.rows)]) ]
  {
    var cfg := Build(WithDimensions(NewBuilder(), dims)).value;
    DefaultBuilder();
    DefaultPowerUpCalls(cfg);
    DefaultSetupCalls(cfg);
  }

  lemma DefaultPowerUpCalls(cfg: Config)
    requires Pack(cfg.powerSetting) == Packed(0x01, [0x03, 0x00, 0x2B, 0x2B, 0x09])
    requires Pack(cfg.boosterSoftStart) == Packed(0x06, [0x17, 0x17, 0x17])
    requires Pack(cfg.panelSetting) == Packed(0x00, [0xCF])
    ensures PowerUpCalls(cfg) ==
      [ Cmd(0x01), Data([0x03, 0x00, 0x2B, 0x2B, 0x09]),
        Cmd(0x06), Data([0x17, 0x17, 0x17]),
        Cmd(0x04), Delay(200),
        Cmd(0x00), Data([0xCF]) ]
  {
  }

  lemma DefaultSetupCalls(cfg: Config)
    requires Pack(cfg.pll) == Packed(0x30, [0x29])
    ensures SetupCalls(cfg) ==
      [ Cmd(0x50), Data([0x37]),
        Cmd(0x30), Data([0x29]),
        Cmd(0x82), Data([0x0A]), Delay(20),
        Cmd(0x61), Data([cfg.dimensions.cols, VerticalHigh(cfg.dimensions.rows), VerticalLow(cfg.dimensions.rows)]) ]
  {
  }
}

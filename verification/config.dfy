/**
 * The configuration builder of src/config.rs. Every setter replaces exactly
 * one field; `build` copies the fields into a `Config` and fails only when no
 * dimensions were given.
 */
module Config {
  import opened Base
  import opened Command
  import opened Panel

  datatype Builder = Builder(
    powerSetting: Command,
    boosterSoftStart: Command,
    panelSetting: Command,
    pll: Command,
    dimensions: Option<Dimensions>,
    rotation: Rotation)

  datatype BuilderError = BuilderError

  datatype Config = Config(
    powerSetting: Command,
    boosterSoftStart: Command,
    panelSetting: Command,
    pll: Command,
    dimensions: Dimensions,
    rotation: Rotation)

  /** `Builder::new()`, i.e. `Builder::default()`. */
  function NewBuilder(): Builder {
    Builder(
      PowerSetting(0x2B, 0x2B, 0x09),
      BoosterSoftStart(0x17, 0x17, 0x17),
      PanelSetting(R160x296),
      PLLControl(0x29),
      None,
      DefaultRotation())
  }

  /** Dimensions held by a builder are always ones `dimensions` accepted. */
  predicate ValidBuilder(b: Builder) {
    b.dimensions.Some? ==> ValidDimensions(b.dimensions.value)
  }

  function WithPanelSetting(b: Builder, res: DisplayResolution): (r: Builder)
    ensures r.panelSetting == PanelSetting(res)
    ensures r.(panelSetting := b.panelSetting) == b
  {
    b.(panelSetting := PanelSetting(res))
  }

  function WithPowerSetting(b: Builder, vdh: Byte, vdl: Byte, vdhr: Byte): (r: Builder)
    ensures r.powerSetting == PowerSetting(vdh, vdl, vdhr)
    ensures r.(powerSetting := b.powerSetting) == b
  {
    b.(powerSetting := PowerSetting(vdh, vdl, vdhr))
  }

  function WithBoosterSoftStart(b: Builder, vhh: Byte, vhl: Byte, vhgl: Byte): (r: Builder)
    ensures r.boosterSoftStart == BoosterSoftStart(vhh, vhl, vhgl)
    ensures r.(boosterSoftStart := b.boosterSoftStart) == b
  {
    b.(boosterSoftStart := BoosterSoftStart(vhh, vhl, vhgl))
  }

  function WithPll(b: Builder, value: Byte): (r: Builder)
    ensures r.pll == PLLControl(value)
    ensures r.(pll := b.pll) == b
  {
    b.(pll := PLLControl(value))
  }

  /** `Builder::dimensions`; its three `assert!`s make invalid dimensions a precondition. */
  function WithDimensions(b: Builder, d: Dimensions): (r: Builder)
    requires ValidDimensions(d)
    ensures r.dimensions == Some(d)
    ensures r.(dimensions := b.dimensions) == b
    ensures ValidBuilder(b) ==> ValidBuilder(r)
  {
    b.(dimensions := Some(d))
  }

  function WithRotation(b: Builder, rotation: Rotation): (r: Builder)
    ensures r.rotation == rotation
    ensures r.(rotation := b.rotation) == b
  {
    b.(rotation := rotation)
  }

  /** `Builder::build`: a verbatim copy of every field, or `BuilderError` without dimensions. */
  function Build(b: Builder): (r: Result<Config, BuilderError>)
    ensures r.Failure? <==> b.dimensions.None?
    ensures r.Success? ==>
      && r.value.powerSetting == b.powerSetting
      && r.value.boosterSoftStart == b.boosterSoftStart
      && r.value.panelSetting == b.panelSetting
      && r.value.pll == b.pll
      && Some(r.value.dimensions) == b.dimensions
      && r.value.rotation == b.rotation
    ensures r.Success? && ValidBuilder(b) ==> ValidDimensions(r.value.dimensions)
  {
    match b.dimensions
    case None => Failure(BuilderError)
    case Some(d) =>
      Success(Config(b.powerSetting, b.boosterSoftStart, b.panelSetting, b.pll, d, b.rotation))
  }

  /** The commands `init` executes from a configuration pass their debug assertions. */
  predicate CommandsWellFormed(cfg: Config) {
    && WellFormed(cfg.powerSetting)
    && WellFormed(cfg.boosterSoftStart)
    && WellFormed(cfg.panelSetting)
    && WellFormed(cfg.pll)
  }

  /** The defaults, as the bytes they put on the wire. */
  lemma DefaultBuilder()
    ensures var b := NewBuilder();
      && WellFormed(b.powerSetting) && WellFormed(b.boosterSoftStart)
      && WellFormed(b.panelSetting) && WellFormed(b.pll)
      && Pack(b.powerSetting) == Packed(0x01, [0x03, 0x00, 0x2B, 0x2B, 0x09])
      && Pack(b.boosterSoftStart) == Packed(0x06, [0x17, 0x17, 0x17])
      && Pack(b.panelSetting) == Packed(0x00, [0xCF])
      && Pack(b.pll) == Packed(0x30, [0x29])
      && b.dimensions == None
      && b.rotation == Rotate0
      && ValidBuilder(b)
  {
  }

  // ----- any sequence of setter calls -----

  /** One call of a setter. */
  datatype Setting =
    | SetPanel(res: DisplayResolution)
    | SetPower(vdh: Byte, vdl: Byte, vdhr: Byte)
    | SetBooster(vhh: Byte, vhl: Byte, vhgl: Byte)
    | SetPll(value: Byte)
    | SetDimensions(dims: Dimensions)
    | SetRotation(rotation: Rotation)

  predicate SettingAllowed(s: Setting) {
    s.SetDimensions? ==> ValidDimensions(s.dims)
  }

  function Apply(b: Builder, s: Setting): Builder
    requires SettingAllowed(s)
  {
    match s
    case SetPanel(res) => WithPanelSetting(b, res)
    case SetPower(vdh, vdl, vdhr) => WithPowerSetting(b, vdh, vdl, vdhr)
    case SetBooster(vhh, vhl, vhgl) => WithBoosterSoftStart(b, vhh, vhl, vhgl)
    case SetPll(value) => WithPll(b, value)
    case SetDimensions(d) => WithDimensions(b, d)
    case SetRotation(r) => WithRotation(b, r)
  }

  /** The chained setter calls `b.s0(..).s1(..)...`, applied left to right. */
  function Configure(b: Builder, ss: seq<Setting>): Builder
    requires forall i :: 0 <= i < |ss| ==> SettingAllowed(ss[i])
    decreases |ss|
  {
    if ss == [] then b else Apply(Configure(b, ss[..|ss| - 1]), ss[|ss| - 1])
  }

  /** The value the most recent setting of one kind chose, or `dflt` when there is none. */
  function Latest<T>(ss: seq<Setting>, pick: Setting -> Option<T>, dflt: T): T
    decreases |ss|
  {
    if ss == [] then dflt
    else match pick(ss[|ss| - 1])
      case Some(v) => v
      case None => Latest(ss[..|ss| - 1], pick, dflt)
  }

  function PanelOf(s: Setting): Option<Command> {
    if s.SetPanel? then Some(PanelSetting(s.res)) else None
  }

  function PowerOf(s: Setting): Option<Command> {
    if s.SetPower? then Some(PowerSetting(s.vdh, s.vdl, s.vdhr)) else None
  }

  function BoosterOf(s: Setting): Option<Command> {
    if s.SetBooster? then Some(BoosterSoftStart(s.vhh, s.vhl, s.vhgl)) else None
  }

  function PllOf(s: Setting): Option<Command> {
    if s.SetPll? then Some(PLLControl(s.value)) else None
  }

  function DimensionsOf(s: Setting): Option<Option<Dimensions>> {
    if s.SetDimensions? then Some(Some(s.dims)) else None
  }

  function RotationOf(s: Setting): Option<Rotation> {
    if s.SetRotation? then Some(s.rotation) else None
  }

  /**
   * After any chain of setters every field holds what the last setter of
   * that field chose, or its value before the chain: setters touch only their
   * own field and a later call overrides an earlier one.
   */
  lemma {:induction false} ConfigureLastWins(b: Builder, ss: seq<Setting>)
    requires forall i :: 0 <= i < |ss| ==> SettingAllowed(ss[i])
    ensures var r := Configure(b, ss);
      && r.panelSetting == Latest(ss, PanelOf, b.panelSetting)
      && r.powerSetting == Latest(ss, PowerOf, b.powerSetting)
      && r.boosterSoftStart == Latest(ss, BoosterOf, b.boosterSoftStart)
      && r.pll == Latest(ss, PllOf, b.pll)
      && r.dimensions == Latest(ss, DimensionsOf, b.dimensions)
      && r.rotation == Latest(ss, RotationOf, b.rotation)
    ensures ValidBuilder(b) ==> ValidBuilder(Configure(b, ss))
    decreases |ss|
  {
    if ss != [] {
      ConfigureLastWins(b, ss[..|ss| - 1]);
    }
  }

  /** Some setting in the chain chose dimensions. */
  predicate SetsDimensions(ss: seq<Setting>) {
    exists i :: 0 <= i < |ss| && ss[i].SetDimensions?
  }

  /** The dimension field ends up set exactly when some setter in the chain set it. */
  lemma {:induction false} LatestDimensionsSet(ss: seq<Setting>)
    ensures Latest(ss, DimensionsOf, None).Some? <==> SetsDimensions(ss)
    decreases |ss|
  {
    if ss != [] {
      var init := ss[..|ss| - 1];
      LatestDimensionsSet(init);
      if SetsDimensions(init) {
        var i :| 0 <= i < |init| && init[i].SetDimensions?;
        assert ss[i] == init[i];
      }
      if SetsDimensions(ss) && !ss[|ss| - 1].SetDimensions? {
        var i :| 0 <= i < |ss| && ss[i].SetDimensions?;
        assert init[i] == ss[i];
      }
    }
  }

  /**
   * Building after any chain of setters on a new builder succeeds exactly when
   * the chain set the dimensions, and the result holds valid dimensions and
   * the defaults for every field the chain left alone.
   */
  lemma BuildAfterSetters(ss: seq<Setting>)
    requires forall i :: 0 <= i < |ss| ==> SettingAllowed(ss[i])
    ensures Build(Configure(NewBuilder(), ss)).Success? <==> SetsDimensions(ss)
    ensures var r := Build(Configure(NewBuilder(), ss));
      r.Success? ==>
        && ValidDimensions(r.value.dimensions)
        && r.value.pll == Latest(ss, PllOf, PLLControl(0x29))
        && r.value.powerSetting == Latest(ss, PowerOf, PowerSetting(0x2B, 0x2B, 0x09))
        && r.value.boosterSoftStart == Latest(ss, BoosterOf, BoosterSoftStart(0x17, 0x17, 0x17))
        && r.value.panelSetting == Latest(ss, PanelOf, PanelSetting(R160x296))
        && r.value.rotation == Latest(ss, RotationOf, Rotate0)
  {
    ConfigureLastWins(NewBuilder(), ss);
    LatestDimensionsSet(ss);
  }
}

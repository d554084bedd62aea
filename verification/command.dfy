/**
 * The controller command set of src/command.rs: every `Command` and
 * `BufCommand` variant maps to one opcode byte and 0-5 argument bytes, which
 * `execute` transmits as one `send_command` followed by one `send_data` when
 * there are arguments.
 */
module Command {
  import opened Base
  import opened Transport

  datatype DisplayResolution = R96x230 | R96x252 | R128x296 | R160x296

  datatype DataPolarity = BWOnly | RedOnly | Both

  datatype DataInterval =
    V2 | V3 | V4 | V5 | V6 | V7 | V8 | V9 | V10 | V11 | V12 | V13 | V14 | V15 | V16 | V17

  datatype Command =
    | PanelSetting(resolution: DisplayResolution)
    | PowerSetting(vdh: Byte, vdl: Byte, vdhr: Byte)
    | PowerOff
    | PowerOn
    | BoosterSoftStart(phaseA: Byte, phaseB: Byte, phaseC: Byte)
    | DeepSleep
    | DataStop
    | DisplayRefresh
    | PLLControl(clock: Byte)
    | VCOMDataIntervalSetting(borderData: Byte, polarity: DataPolarity, interval: DataInterval)
    | ResolutionSetting(horiz: Byte, vertical: Word)
    | VCMDCSetting(vcomDc: Byte)

  /** Commands whose argument is a caller-supplied buffer. */
  datatype BufCommand = WriteBlackData(buffer: seq<Byte>) | WriteRedData(buffer: seq<Byte>)

  /** An opcode with the argument slice `pack!` cut from the five-byte scratch buffer. */
  datatype Packed = Packed(op: Byte, args: seq<Byte>)

  /** The `debug_assert!`s of `Command::execute`. */
  predicate WellFormed(c: Command) {
    match c
    case PowerSetting(vdh, vdl, vdhr) => vdh < 64 && vdl < 64 && vdhr < 64
    case VCOMDataIntervalSetting(border, _, _) => border < 4
    case VCMDCSetting(vcomDc) => vcomDc <= 0x3A
    case _ => true
  }

  /** Resolution class in bits 6-7 of the panel setting byte. */
  function ResolutionBits(r: DisplayResolution): Byte {
    match r
    case R96x230 => 0x00
    case R96x252 => 0x40
    case R128x296 => 0x80
    case R160x296 => 0xC0
  }

  /** Data polarity in bits 4-5 of the VCOM/data-interval byte. */
  function PolarityBits(p: DataPolarity): Byte {
    match p
    case BWOnly => 0x10
    case RedOnly => 0x20
    case Both => 0x30
  }

  /** The 4-bit interval code: V2 is 0b1111 down to V17 as 0b0000. */
  function IntervalCode(iv: DataInterval): Byte {
    match iv
    case V2 => 0xF
    case V3 => 0xE
    case V4 => 0xD
    case V5 => 0xC
    case V6 => 0xB
    case V7 => 0xA
    case V8 => 0x9
    case V9 => 0x8
    case V10 => 0x7
    case V11 => 0x6
    case V12 => 0x5
    case V13 => 0x4
    case V14 => 0x3
    case V15 => 0x2
    case V16 => 0x1
    case V17 => 0x0
  }

  /** The intervals in declaration order. */
  const Intervals: seq<DataInterval> :=
    [V2, V3, V4, V5, V6, V7, V8, V9, V10, V11, V12, V13, V14, V15, V16, V17]

  /** Position of an interval in its declaration. */
  function IntervalIndex(iv: DataInterval): (i: nat)
    ensures i < |Intervals| && Intervals[i] == iv
  {
    match iv
    case V2 => 0
    case V3 => 1
    case V4 => 2
    case V5 => 3
    case V6 => 4
    case V7 => 5
    case V8 => 6
    case V9 => 7
    case V10 => 8
    case V11 => 9
    case V12 => 10
    case V13 => 11
    case V14 => 12
    case V15 => 13
    case V16 => 14
    case V17 => 15
  }

  /** The byte `(border << 6) | ddx | cdi` of the VCOM and data interval setting. */
  function VcomByte(border: Byte, p: DataPolarity, iv: DataInterval): Byte {
    (border << 6) | PolarityBits(p) | IntervalCode(iv)
  }

  /** `(vertical & 0x100) >> 8`, truncated to a byte. */
  function VerticalHigh(vertical: Word): Byte {
    ((vertical & 0x100) >> 8) as Byte
  }

  /** `vertical & 0xFF`, truncated to a byte. */
  function VerticalLow(vertical: Word): Byte {
    (vertical & 0xFF) as Byte
  }

  /** Number of bytes each variant hands to `pack!`. */
  function ArgCount(c: Command): nat {
    match c
    case PanelSetting(_) => 1
    case PowerSetting(_, _, _) => 5
    case PowerOff => 0
    case PowerOn => 0
    case BoosterSoftStart(_, _, _) => 3
    case DeepSleep => 1
    case DataStop => 0
    case DisplayRefresh => 0
    case PLLControl(_) => 1
    case VCOMDataIntervalSetting(_, _, _) => 1
    case ResolutionSetting(_, _) => 3
    case VCMDCSetting(_) => 1
  }

  /** The `match` of `Command::execute` that fills the scratch buffer. */
  function Pack(c: Command): Packed {
    match c
    case PanelSetting(r) => Packed(0x00, [ResolutionBits(r) | 0x0F])
    case PowerSetting(vdh, vdl, vdhr) => Packed(0x01, [0x03, 0x00, vdh, vdl, vdhr])
    case PowerOff => Packed(0x03, [])
    case PowerOn => Packed(0x04, [])
    case BoosterSoftStart(a, b, c) => Packed(0x06, [a, b, c])
    case DeepSleep => Packed(0x08, [0xA5])
    case DataStop => Packed(0x11, [])
    case DisplayRefresh => Packed(0x12, [])
    case PLLControl(clock) => Packed(0x30, [clock])
    case VCOMDataIntervalSetting(border, p, iv) => Packed(0x50, [VcomByte(border, p, iv)])
    case ResolutionSetting(horiz, vertical) =>
      Packed(0x61, [horiz, VerticalHigh(vertical), VerticalLow(vertical)])
    case VCMDCSetting(vcomDc) => Packed(0x82, [vcomDc])
  }

  /** The argument slice is exactly as long as the list handed to `pack!`, at most the five-byte buffer. */
  lemma PackArgCount(c: Command)
    ensures |Pack(c).args| == ArgCount(c) <= 5
  {
  }

  /** The match of `BufCommand::execute`. */
  function PackBuf(bc: BufCommand): Packed {
    match bc
    case WriteBlackData(buffer) => Packed(0x10, buffer)
    case WriteRedData(buffer) => Packed(0x13, buffer)
  }

  /** The interface calls that transmit a packed command. */
  function Transmission(p: Packed): (evs: seq<Event>)
    ensures |evs| == (if p.args == [] then 1 else 2)
    ensures evs[0] == Cmd(p.op)
    ensures |evs| == 2 ==> evs[1] == Data(p.args)
  {
    [Cmd(p.op)] + (if p.args == [] then [] else [Data(p.args)])
  }

  /** The bytes a recording interface sees: the opcode, then the arguments. */
  function WireBytes(p: Packed): seq<Byte> {
    [p.op] + p.args
  }

  /** Shared tail of both `execute`s: `send_command(op)?`, then `send_data` unless the slice is empty. */
  function Transmit(p: Packed, io: Iface): (s: Step)
    ensures s == Run(io, Transmission(p))
  {
    var evs := Transmission(p);
    assert Run(io, evs) == (var s := Call(io, evs[0]); if s.res.Err? then s else Run(s.io, evs[1..]));
    var io1 :- Call(io, Cmd(p.op));
    if |p.args| == 0 then Step(io1, Ok)
    else
      assert evs[1..] == [Data(p.args)];
      assert Run(io1, [Data(p.args)]) == (var s := Call(io1, Data(p.args)); if s.res.Err? then s else Run(s.io, []));
      Call(io1, Data(p.args))
  }

  /**
   * `Command::execute`. Its `debug_assert!`s (`WellFormed`) are compiled out
   * of release builds, where every command is packed and sent as it is.
   */
  function Execute(c: Command, io: Iface): (s: Step)
    ensures s == Run(io, Transmission(Pack(c)))
  {
    Transmit(Pack(c), io)
  }

  /** `BufCommand::execute`. */
  function ExecuteBuf(bc: BufCommand, io: Iface): (s: Step)
    ensures s == Run(io, Transmission(PackBuf(bc)))
  {
    Transmit(PackBuf(bc), io)
  }

  /**
   * `execute` makes exactly one `send_command(opcode)` call; it makes one
   * `send_data(args)` call after it exactly when the command succeeded and the
   * argument slice is non-empty, and a failing `send_command` returns its
   * error unchanged with nothing sent after it.
   */
  lemma TransmitCalls(p: Packed, io: Iface)
    ensures Transmit(p, io).io.faults == io.faults
    ensures |Transmit(p, io).io.log| >= |io.log| + 1
    ensures Transmit(p, io).io.log[..|io.log| + 1] == io.log + [Cmd(p.op)]
    ensures |io.log| in io.faults ==>
      Transmit(p, io) == Step(io.(log := io.log + [Cmd(p.op)]), Err(io.faults[|io.log|]))
    ensures |io.log| !in io.faults && p.args == [] ==>
      Transmit(p, io) == Step(io.(log := io.log + [Cmd(p.op)]), Ok)
    ensures |io.log| !in io.faults && p.args != [] ==>
      Transmit(p, io).io.log == io.log + [Cmd(p.op), Data(p.args)] &&
      Transmit(p, io).res == (if |io.log| + 1 in io.faults then Err(io.faults[|io.log| + 1]) else Ok)
  {
  }

  // ----- decoding: the controller's view of the bytes -----

  function ResolutionOf(bits: Byte): DisplayResolution
    requires bits < 4
  {
    if bits == 0 then R96x230 else if bits == 1 then R96x252 else if bits == 2 then R128x296 else R160x296
  }

  function PolarityOf(bits: Byte): DataPolarity
    requires 1 <= bits < 4
  {
    if bits == 1 then BWOnly else if bits == 2 then RedOnly else Both
  }

  /** Recovers the command a controller would read from an opcode and its argument bytes. */
  function Decode(p: Packed): Option<Command> {
    var a := p.args;
    if p.op == 0x00 && |a| == 1 && a[0] & 0x3F == 0x0F then
      Some(PanelSetting(ResolutionOf(a[0] >> 6)))
    else if p.op == 0x01 && |a| == 5 && a[0] == 0x03 && a[1] == 0x00 && a[2] < 64 && a[3] < 64 && a[4] < 64 then
      Some(PowerSetting(a[2], a[3], a[4]))
    else if p.op == 0x03 && a == [] then Some(PowerOff)
    else if p.op == 0x04 && a == [] then Some(PowerOn)
    else if p.op == 0x06 && |a| == 3 then Some(BoosterSoftStart(a[0], a[1], a[2]))
    else if p.op == 0x08 && a == [0xA5] then Some(DeepSleep)
    else if p.op == 0x11 && a == [] then Some(DataStop)
    else if p.op == 0x12 && a == [] then Some(DisplayRefresh)
    else if p.op == 0x30 && |a| == 1 then Some(PLLControl(a[0]))
    else if p.op == 0x50 && |a| == 1 && (a[0] >> 4) & 3 != 0 then
      Some(VCOMDataIntervalSetting(a[0] >> 6, PolarityOf((a[0] >> 4) & 3), Intervals[15 - (a[0] & 0xF) as int]))
    else if p.op == 0x61 && |a| == 3 && a[1] <= 1 then
      Some(ResolutionSetting(a[0], ((a[1] as Word) << 8) | (a[2] as Word)))
    else if p.op == 0x82 && |a| == 1 && a[0] <= 0x3A then Some(VCMDCSetting(a[0]))
    else None
  }

  /** Commands whose bytes determine them: well-formed, and a vertical resolution that fits 9 bits. */
  predicate Decodable(c: Command) {
    WellFormed(c) && (c.ResolutionSetting? ==> c.vertical <= 511)
  }

  /** Interval codes run from 15 down to 0 in declaration order. */
  lemma IntervalCodeDescends(iv: DataInterval, iv': DataInterval)
    ensures IntervalCode(iv) as int == 15 - IntervalIndex(iv)
    ensures IntervalIndex(iv) < IntervalIndex(iv') ==> IntervalCode(iv) > IntervalCode(iv')
  {
  }

  /** The three fields of the VCOM byte do not overlap, so the byte gives them back. */
  lemma VcomFields(border: Byte, p: DataPolarity, iv: DataInterval)
    requires border < 4
    ensures VcomByte(border, p, iv) >> 6 == border
    ensures (VcomByte(border, p, iv) >> 4) & 3 == PolarityBits(p) >> 4 != 0
    ensures VcomByte(border, p, iv) & 0xF == IntervalCode(iv)
  {
    match iv
    case V2 => case V3 => case V4 => case V5 => case V6 => case V7 => case V8 => case V9 =>
    case V10 => case V11 => case V12 => case V13 => case V14 => case V15 => case V16 => case V17 =>
  }

  /** The vertical resolution is split into bit 8 and the low byte; up to 511 the split is lossless. */
  lemma VerticalSplit(vertical: Word)
    ensures VerticalHigh(vertical) <= 1
    ensures vertical <= 511 ==>
      VerticalHigh(vertical) as int * 256 + VerticalLow(vertical) as int == vertical as int
    ensures vertical <= 511 ==>
      ((VerticalHigh(vertical) as Word) << 8) | (VerticalLow(vertical) as Word) == vertical
  {
  }

  /** Decoding the bytes of a decodable command gives the command back. */
  lemma {:induction false} DecodePack(c: Command)
    requires Decodable(c)
    ensures Decode(Pack(c)) == Some(c)
  {
    PackArgCount(c);
    match c
    case VCOMDataIntervalSetting(border, p, iv) => DecodePackVcom(border, p, iv);
    case ResolutionSetting(h, vertical) => DecodePackResolution(h, vertical);
    case PanelSetting(r) => DecodePackPanel(r);
    case _ =>
  }

  lemma DecodePackVcom(border: Byte, p: DataPolarity, iv: DataInterval)
    requires Decodable(VCOMDataIntervalSetting(border, p, iv))
    ensures Decode(Pack(VCOMDataIntervalSetting(border, p, iv))) == Some(VCOMDataIntervalSetting(border, p, iv))
  {
    PackArgCount(VCOMDataIntervalSetting(border, p, iv));
    VcomFields(border, p, iv);
    IntervalCodeDescends(iv, iv);
  }

  lemma DecodePackResolution(h: Byte, vertical: Word)
    requires Decodable(ResolutionSetting(h, vertical))
    ensures Decode(Pack(ResolutionSetting(h, vertical))) == Some(ResolutionSetting(h, vertical))
  {
    PackArgCount(ResolutionSetting(h, vertical));
    VerticalSplit(vertical);
  }

  lemma DecodePackPanel(r: DisplayResolution)
    ensures Decode(Pack(PanelSetting(r))) == Some(PanelSetting(r))
  {
    PackArgCount(PanelSetting(r));
    assert ResolutionBits(r) | 0x0F == ((ResolutionBits(r) >> 6) << 6) | 0x0F;
  }

  /** A VCOM byte with a non-zero polarity field is re-assembled from its decoded fields. */
  lemma VcomByteDecodes(b: Byte)
    requires (b >> 4) & 3 != 0
    ensures VcomByte(b >> 6, PolarityOf((b >> 4) & 3), Intervals[15 - (b & 0xF) as int]) == b
  {
    var iv := Intervals[15 - (b & 0xF) as int];
    assert IntervalCode(iv) == b & 0xF by {
      IntervalCodeDescends(iv, iv);
    }
    assert PolarityBits(PolarityOf((b >> 4) & 3)) == b & 0x30;
    assert ((b >> 6) << 6) | (b & 0x30) | (b & 0xF) == b;
  }

  /** Whatever decodes is a decodable command that packs to exactly the bytes it came from. */
  lemma PackDecode(p: Packed)
    requires Decode(p).Some?
    ensures Decodable(Decode(p).value)
    ensures Pack(Decode(p).value) == p
  {
    if p.op == 0x50 {
      PackDecodeVcom(p);
    } else if p.op == 0x61 {
      PackDecodeResolution(p);
    } else if p.op == 0x00 {
      PackDecodePanel(p);
    } else {
      PackDecodePlain(p);
    }
  }

  lemma PackDecodeVcom(p: Packed)
    requires p.op == 0x50 && Decode(p).Some?
    ensures Decodable(Decode(p).value) && Pack(Decode(p).value) == p
  {
    var a := p.args;
    var c := Decode(p).value;
    assert c == VCOMDataIntervalSetting(a[0] >> 6, PolarityOf((a[0] >> 4) & 3), Intervals[15 - (a[0] & 0xF) as int]);
    VcomByteDecodes(a[0]);
    assert [a[0]] == a;
  }

  lemma PackDecodeResolution(p: Packed)
    requires p.op == 0x61 && Decode(p).Some?
    ensures Decodable(Decode(p).value) && Pack(Decode(p).value) == p
  {
    var a := p.args;
    var v := ((a[1] as Word) << 8) | (a[2] as Word);
    assert Decode(p).value == ResolutionSetting(a[0], v);
    assert VerticalHigh(v) == a[1] && VerticalLow(v) == a[2];
    assert [a[0], a[1], a[2]] == a;
  }

  lemma PackDecodePanel(p: Packed)
    requires p.op == 0x00 && Decode(p).Some?
    ensures Decodable(Decode(p).value) && Pack(Decode(p).value) == p
  {
    var a := p.args;
    assert Decode(p).value == PanelSetting(ResolutionOf(a[0] >> 6));
    assert ResolutionBits(ResolutionOf(a[0] >> 6)) | 0x0F == a[0];
    assert [a[0]] == a;
  }

  lemma PackDecodePlain(p: Packed)
    requires p.op != 0x50 && p.op != 0x61 && p.op != 0x00 && Decode(p).Some?
    ensures Decodable(Decode(p).value) && Pack(Decode(p).value) == p
  {
    var a := p.args;
    if p.op == 0x01 {
      assert [0x03, 0x00, a[2], a[3], a[4]] == a;
    } else if p.op == 0x06 {
      assert [a[0], a[1], a[2]] == a;
    } else if p.op == 0x30 || p.op == 0x82 {
      assert [a[0]] == a;
    }
  }

  /** Distinct decodable commands never share their bytes. */
  lemma PackInjective(c: Command, c': Command)
    requires Decodable(c) && Decodable(c')
    requires Pack(c) == Pack(c')
    ensures c == c'
  {
    DecodePack(c);
    DecodePack(c');
  }

  /** The panel setting byte: resolution bits over the fixed low nibble; the shipped test vector. */
  lemma PanelSettingBytes(r: DisplayResolution)
    ensures WireBytes(Pack(PanelSetting(r))) == [0x00, ResolutionBits(r) | 0x0F]
    ensures ResolutionBits(r) in {0x00, 0x40, 0x80, 0xC0}
    ensures WireBytes(Pack(PanelSetting(R160x296))) == [0x00, 0xCF]
  {
  }

  /** The power setting: the fixed `0x03, 0x00` prefix, then the three voltage bytes. */
  lemma PowerSettingBytes(a: Byte, b: Byte, c: Byte)
    requires a < 64 && b < 64 && c < 64
    ensures WireBytes(Pack(PowerSetting(a, b, c))) == [0x01, 0x03, 0x00, a, b, c]
  {
  }

  /** The argument-less commands are their opcode alone; deep sleep adds its check code 0xA5. */
  lemma BareCommandBytes()
    ensures WireBytes(Pack(PowerOff)) == [0x03]
    ensures WireBytes(Pack(PowerOn)) == [0x04]
    ensures WireBytes(Pack(DataStop)) == [0x11]
    ensures WireBytes(Pack(DisplayRefresh)) == [0x12]
    ensures WireBytes(Pack(DeepSleep)) == [0x08, 0xA5]
  {
  }

  /** The commands whose arguments are sent as they are. */
  lemma ArgumentCommandBytes(a: Byte, b: Byte, c: Byte, v: Byte)
    ensures WireBytes(Pack(PLLControl(v))) == [0x30, v]
    ensures WireBytes(Pack(BoosterSoftStart(a, b, c))) == [0x06, a, b, c]
    ensures v <= 0x3A ==> WireBytes(Pack(VCMDCSetting(v))) == [0x82, v]
  {
  }

  /** The resolution setting sends `[0x61, h, bit 8 of v, low byte of v]`. */
  lemma ResolutionSettingBytes(h: Byte, v: Word)
    ensures WireBytes(Pack(ResolutionSetting(h, v))) == [0x61, h, VerticalHigh(v), VerticalLow(v)]
    ensures v <= 511 ==> VerticalHigh(v) as int * 256 + VerticalLow(v) as int == v as int
  {
    VerticalSplit(v);
  }

  /** The buffer writes send their opcode then the buffer, or the opcode alone for an empty buffer. */
  lemma BufCommandBytes(buf: seq<Byte>)
    ensures WireBytes(PackBuf(WriteBlackData(buf))) == [0x10] + buf
    ensures WireBytes(PackBuf(WriteRedData(buf))) == [0x13] + buf
    ensures buf == [] ==> Transmission(PackBuf(WriteBlackData(buf))) == [Cmd(0x10)]
    ensures buf == [] ==> Transmission(PackBuf(WriteRedData(buf))) == [Cmd(0x13)]
  {
  }
}

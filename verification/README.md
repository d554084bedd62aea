# IL0373 tri-colour e-paper driver — a Dafny model

This project models the core of the Rust `il0373` driver for the IL0373
three-colour (black/white/red) e-paper controller, and proves properties of
the model. It covers five parts:

- **Command codec** (`Command`). Every `Command` and `BufCommand` variant
  becomes an opcode byte and its argument bytes, as `pack!` builds them.
  `execute` sends them as one `send_command`, followed by one `send_data`
  when there are arguments. A decoder gives the controller's view of the
  bytes and proves the encoding loses nothing.
- **Configuration builder** (`Config`, `Panel`). It covers the defaults,
  the setters, the dimension checks, `build`, and any chain of setter calls.
- **Controller sequencing** (`Transport`, `Display`).
  - `init`, `reset`, `signal_update`, `power_down` and `deep_sleep` run as
    call sequences against a `DisplayInterface`.
  - The interface is modelled as a call log with injected faults. Every
    `?` aborts at the first failing call.
  - A lifecycle phase is bookkeeping of the documented rule that only
    `reset` wakes a sleeping controller. The code does not enforce the
    rule, so no operation requires a phase.
  - `Command::execute`'s `debug_assert!`s are compiled out of release
    builds. The model follows a release build and sends every command as
    packed. `Command.WellFormed` states the assertions.
- **Frame buffer** (`Graphics`, `Colors`). It models the two bit planes,
  the four rotation mappings, `clear`, `set_pixel`, `draw_pixel` clipping
  and the rotated `size`.
- **Bus framing** (`Bus`, `Linux`, `Sram`, `SramInterface`).
  - Pins, delays, SPI block writes and full-duplex byte exchanges are
    recorded as a log.
  - Faults are keyed by log position.
  - The byte the peer device answers on each exchange comes from a
    function `peer` of the log position.
  - Loop methods (the Linux 4096-byte chunked write, the SRAM transfer
    loops, the SRAM→controller forwarding loop) are proved equal to
    reference functions (`Attempt`, `Bracket`, `Drain`, `UpdatePhases`).
    The properties are stated about those functions.

Bytes are `bv8` (`Base.Byte`) and `u16` values are `bv16` (`Base.Word`).
Pixel coordinates are unbounded naturals. The `i32`→`u32` cast in
`draw_pixel` is written out as `Graphics.AsU32`.

`sram_epd_move_body` forwards `data_len` bytes to the controller: first
the byte read during the opcode exchange, then each byte received on the
exchange before it (`src/interface.rs:360-369`).

The graphics tests at `src/graphics.rs:221-222, 236-237, 251-252, 279-281,
307-310` expect red-plane values that `clear` and `set_pixel` do not
produce. The model follows `clear` and `set_pixel`.

## Model

| member | source | states |
|---|---|---|
| Panel.DefaultRotation | src/display.rs:37-42 | Definition: the default rotation is `Rotate0`. |
| Command.IntervalIndex | src/command.rs:26-43 | Each data interval has a position in declaration order. `Intervals` lists it at that position. |
| Command.PackArgCount | src/command.rs:121-155 | The argument slice of every command is exactly as long as the list passed to `pack!`, which is at most the 5-byte scratch buffer. |
| Command.Transmission | src/command.rs:239-244 | The calls start with one `Cmd(op)`. A `Data(args)` call follows if and only if the argument slice is non-empty. |
| Command.Transmit | src/command.rs:239-244 | Running the command with `?` after `send_command` is the reference `?`-sequence semantics applied to its transmission. |
| Command.Execute | src/command.rs:157-245 | `Command::execute` on any command, as a release build runs it, behaves as running the transmission of its packed form, with `?` after each call. |
| Command.ExecuteBuf | src/command.rs:248-265 | `BufCommand::execute` behaves as running the transmission of opcode 0x10/0x13 with its buffer. |
| Command.TransmitCalls | src/command.rs:239-263 | Exactly one `send_command(op)` is made. If it fails, its error is returned unchanged and nothing else is sent. Otherwise `send_data(args)` follows only for non-empty args and decides the result. Faults are untouched. |
| Command.IntervalCodeDescends | src/command.rs:208-225 | The interval code is 15 minus the declaration index, so it strictly decreases from V2 (0b1111) to V17 (0b0000). |
| Command.VcomFields | src/command.rs:200-227 | For border < 4, the VCOM byte returns border in bits 6-7, a non-zero polarity code in bits 4-5 and the interval code in bits 0-3. The fields do not overlap. |
| Command.VerticalSplit | src/command.rs:228-232 | The high resolution byte is 0 or 1. For v ≤ 511, `hi*256 + lo == v` and the two bytes reassemble v. |
| Command.DecodePack | src/command.rs:157-237 | Decoding the bytes of any command that passes the debug assertions (vertical ≤ 511 for resolutions) gives the command back. |
| Command.DecodePackVcom | src/command.rs:200-227 | The VCOM/interval byte decodes back to its (border, polarity, interval) triple. |
| Command.DecodePackResolution | src/command.rs:228-232 | A resolution setting with vertical ≤ 511 decodes back to itself. |
| Command.DecodePackPanel | src/command.rs:164-172 | Every panel setting decodes back to its resolution. |
| Command.VcomByteDecodes | src/command.rs:200-227 | Any byte with a non-zero polarity field is the VCOM byte of its decoded fields. |
| Command.PackDecode | src/command.rs:157-237 | Whatever decodes is a well-formed command whose bytes are exactly the bytes it was decoded from. |
| Command.PackDecodeVcom | src/command.rs:200-227 | Decodable VCOM bytes re-pack to themselves. |
| Command.PackDecodeResolution | src/command.rs:228-232 | Decodable resolution bytes re-pack to themselves. |
| Command.PackDecodePanel | src/command.rs:164-172 | Decodable panel setting bytes re-pack to themselves. |
| Command.PackDecodePlain | src/command.rs:173-236 | The other decodable byte strings re-pack to themselves. |
| Command.PackInjective | src/command.rs:157-237 | Two distinct decodable commands never put the same bytes on the wire. |
| Command.PanelSettingBytes | src/command.rs:164-172 | PanelSetting sends `[0x00, resbits OR 0x0F]` with resbits in {0x00, 0x40, 0x80, 0xC0}. `R160x296` sends `[0x00, 0xCF]`. |
| Command.PowerSettingBytes | src/command.rs:173-178 | PowerSetting with values below 64 sends `[0x01, 0x03, 0x00, vdh, vdl, vdhr]`. |
| Command.BareCommandBytes | src/command.rs:179-196 | PowerOff, PowerOn, DataStop and DisplayRefresh send only 0x03, 0x04, 0x11 and 0x12. DeepSleep sends `[0x08, 0xA5]`. |
| Command.ArgumentCommandBytes | src/command.rs:185-236 | PLL sends `[0x30, c]` and the booster sends `[0x06, a, b, c]`. VCMDC with v ≤ 0x3A sends `[0x82, v]`. |
| Command.ResolutionSettingBytes | src/command.rs:228-232 | ResolutionSetting sends `[0x61, h, bit 8 of v, low byte of v]`. These reassemble v for v ≤ 511. |
| Command.BufCommandBytes | src/command.rs:250-264 | The black write sends 0x10 and then the buffer. The red write sends 0x13 and then the buffer. An empty buffer sends the opcode alone. |
| Config.WithPanelSetting | src/config.rs:72-77 | Sets the panel setting and leaves every other field unchanged. |
| Config.WithPowerSetting | src/config.rs:82-87 | Sets the power setting and leaves every other field unchanged. |
| Config.WithBoosterSoftStart | src/config.rs:92-97 | Sets the booster setting and leaves every other field unchanged. |
| Config.WithPll | src/config.rs:102-107 | Sets the PLL and leaves every other field unchanged. |
| Config.WithDimensions | src/config.rs:113-131 | Accepted only for cols % 8 == 0, rows ≤ 296 and cols ≤ 160. Sets the dimensions, leaves every other field unchanged and keeps the builder valid. |
| Config.WithRotation | src/config.rs:137-139 | Sets the rotation and leaves every other field unchanged. |
| Config.Build | src/config.rs:141-153 | Fails if and only if dimensions were never set. Otherwise copies every field verbatim, with valid dimensions. |
| Config.DefaultBuilder | src/config.rs:50-61 | The defaults are PowerSetting(0x2b, 0x2b, 0x09), BoosterSoftStart(0x17 ×3), PanelSetting(R160x296) and PLL 0x29, with no dimensions and Rotate0. They pass the codec's assertions and encode to the stated bytes, including 0xCF for the panel. |
| Config.ConfigureLastWins | src/config.rs:72-139 | After any chain of setters, each field holds what the last setter of that field chose, or its earlier value. Validity is kept. |
| Config.LatestDimensionsSet | src/config.rs:113-131 | The dimensions are set if and only if some setter in the chain set them. |
| Config.BuildAfterSetters | src/config.rs:141-153 | `build` after any chain of setters on a new builder succeeds if and only if the chain set dimensions. Untouched fields keep their defaults. |
| Transport.Call | src/interface.rs:14-25 | One interface call is appended to the log. It fails if and only if it is a send at a faulted position, and it returns that fault. |
| Transport.CleanCons | src/display.rs:73-89 | A call sequence is fault-free if and only if its first call and the rest are fault-free. |
| Transport.RunClean | src/display.rs:73-89 | A fault-free sequence run with `?` makes every call and returns Ok. |
| Transport.RunFaulty | src/display.rs:73-89 | A faulty sequence stops at its first failing call. The log ends with that call and the result is that call's error. |
| Transport.AbortsAtCons | src/display.rs:73-89 | An abort point of the tail is an abort point of the whole sequence, one call later. |
| Transport.RunOkIff | src/display.rs:73-89 | A `?` sequence returns Ok if and only if none of its calls is faulted. |
| Transport.RunAppend | src/display.rs:109-112 | Running two sequences one after the other with `?` is running their concatenation. |
| Transport.RunKeepsFaults | src/display.rs:73-89 | Running a sequence never changes the fault map. |
| Display.Act | src/display.rs:73-89 | One line of a routine makes exactly the calls of that action. |
| Display.PerformIsRun | src/display.rs:73-112 | Running a routine line by line with `?` is running the concatenation of its calls. |
| Display.ExpandCons | src/display.rs:73-89 | The calls of a routine are the calls of its first line followed by those of the rest. |
| Display.ExpandAppend | src/display.rs:73-89 | The calls of two joined routines are the calls of each, joined. |
| Display.InitScriptOk | src/display.rs:73-89 | In a debug build no assertion in `init` fires: when the configured commands are well-formed, so is every command `init` executes. |
| Display.InitScriptCalls | src/display.rs:73-89 | `init` makes, in order: power setting, booster, PowerOn, a 200 ms delay, panel setting, `[0x50, 0x37]`, PLL, `[0x82, 0x0A]`, a 20 ms delay and the resolution setting. |
| Display.InitScriptHead | src/display.rs:74-80 | The first five lines of `init` make the power-up calls. |
| Display.InitScriptTail | src/display.rs:81-87 | The last five lines of `init` make the setup calls. |
| Display.VcomInitCalls | src/display.rs:81-82 | VCOMDataIntervalSetting(0, Both, V10) is sent as `[0x50]` then `[0x37]`. |
| Display.VcomPowerDownCalls | src/display.rs:99-100 | VCOMDataIntervalSetting(0, BWOnly, V10) is sent as `[0x50]` then `[0x17]`. |
| Display.VcmDcCalls | src/command.rs:233-244 | VCMDCSetting(v) is sent as `[0x82]` then `[v]`. |
| Display.BareCalls | src/command.rs:179-184 | PowerOn and PowerOff each send their opcode alone. |
| Display.ResolutionCalls | src/display.rs:86-87 | The resolution setting sends 0x61 and then `[cols, bit 8 of rows, low byte of rows]`. |
| Display.PowerDownScriptCalls | src/display.rs:97-103 | `power_down` makes busy_wait, `[0x50, 0x17]`, `[0x82, 0x00]` and PowerOff, in that order. |
| Display.Init | src/display.rs:73-89 | `init` runs the `init` call list with `?` after every call, for any configuration. |
| Display.Reset | src/display.rs:64-70 | `reset` is the interface reset followed by `init`, for any configuration. It keeps the configuration and makes the controller Active. |
| Display.SignalUpdate | src/display.rs:91-95 | `signal_update` makes exactly the DisplayRefresh call `[0x12]`. It keeps the configuration and the phase. |
| Display.PowerDown | src/display.rs:97-103 | `power_down` runs its four calls with `?`. |
| Display.DeepSleepOp | src/display.rs:105-112 | `deep_sleep` runs `power_down` and then DeepSleep. On success the controller is Sleeping. Otherwise the phase is unchanged. |
| Display.ResetAborts | src/display.rs:67-89 | `reset` either makes every call and returns Ok, or stops at the first failing call and returns its error unchanged. |
| Display.DeepSleepAborts | src/display.rs:97-112 | `deep_sleep` succeeds if and only if no call is faulted. It then ends the log with `[0x08, 0xA5]` and the controller is Sleeping. Otherwise it aborts at the first failure and the phase is unchanged. |
| Display.Rows | src/display.rs:114-117 | `rows()` is the configured row count. |
| Display.Cols | src/display.rs:119-122 | `cols()` is the configured column count. |
| Display.RotationOf | src/display.rs:124-127 | `rotation()` is the configured rotation. |
| Display.AccessorsReadBuilder | src/display.rs:114-127 | On a display built from a builder, `rows`, `cols` and `rotation` return the builder's values. For a valid builder they are within the controller limits and `cols` is a multiple of 8. |
| Display.WakeOnlyByReset | src/display.rs:64-127 | Bookkeeping, not enforced by the code: after a successful `deep_sleep` only `reset` is permitted, and after `reset` everything is permitted. `rows`, `cols` and `rotation` are never changed by any operation. |
| Display.DefaultInitCalls | src/display.rs:73-89 | With the builder defaults, `init` sends exactly 01 03 00 2B 2B 09, 06 17 17 17, 04, 200 ms, 00 CF, 50 37, 30 29, 82 0A, 20 ms, 61 cols rows-hi rows-lo. |
| Display.DefaultPowerUpCalls | src/display.rs:74-80 | With the default power, booster and panel settings, the power-up half is the literal byte list. |
| Display.DefaultSetupCalls | src/display.rs:81-87 | With the default PLL, the setup half is the literal byte list. |
| Graphics.MasksAreShifts | src/graphics.rs:113-119 | The tabulated masks are `0x80 >> k` and `0x01 << k`. |
| Graphics.MasksInjective | src/graphics.rs:113-119 | Different bit positions give different masks. |
| Graphics.Rotate0Loc | src/graphics.rs:113 | The Rotate0 mapping of an in-bounds pixel is a byte inside the plane and a single-bit mask. |
| Graphics.Rotate90Loc | src/graphics.rs:114 | The Rotate90 mapping of an in-bounds pixel is a byte inside the plane and a single-bit mask. |
| Graphics.Rotate180Loc | src/graphics.rs:115-118 | The Rotate180 mapping of an in-bounds pixel is a byte inside the plane and a single-bit mask. |
| Graphics.Rotate270Loc | src/graphics.rs:119 | The Rotate270 mapping of an in-bounds pixel is a byte inside the plane and a single-bit mask. |
| Graphics.Rotate | src/graphics.rs:111-121 | With width % 8 == 0 and (x, y) inside the rotated size, every rotation gives `index < (width/8)*height` and a mask with exactly one bit set. |
| Graphics.Rotate0Injective | src/graphics.rs:113 | Distinct in-bounds pixels map to distinct (byte, bit) places under Rotate0. |
| Graphics.Rotate90Injective | src/graphics.rs:114 | Distinct in-bounds pixels map to distinct (byte, bit) places under Rotate90. |
| Graphics.Rotate180Injective | src/graphics.rs:115-118 | Distinct in-bounds pixels map to distinct (byte, bit) places under Rotate180. |
| Graphics.Rotate270Injective | src/graphics.rs:119 | Distinct in-bounds pixels map to distinct (byte, bit) places under Rotate270. |
| Graphics.RotateInjective | src/graphics.rs:111-121 | The rotation mapping is injective on in-bounds coordinates for every rotation. |
| Graphics.Corner0TopLeft | src/graphics.rs:113 | On a 104×212 panel, Rotate0 maps (0, 0) to (0, 0x80). |
| Graphics.Corner0TopRight | src/graphics.rs:113 | On a 104×212 panel, Rotate0 maps (103, 0) to (12, 0x01). |
| Graphics.Corner0BottomRight | src/graphics.rs:113 | On a 104×212 panel, Rotate0 maps (103, 211) to (2755, 0x01). |
| Graphics.Corner0BottomLeft | src/graphics.rs:113 | On a 104×212 panel, Rotate0 maps (0, 211) to (2743, 0x80). |
| Graphics.Corner270TopLeft | src/graphics.rs:119 | On a 104×212 panel, Rotate270 maps (0, 0) to (2743, 0x80). |
| Graphics.Corner270TopRight | src/graphics.rs:119 | On a 104×212 panel, Rotate270 maps (211, 0) to (0, 0x80). |
| Graphics.Corner270BottomRight | src/graphics.rs:119 | On a 104×212 panel, Rotate270 maps (211, 103) to (12, 0x01). |
| Graphics.Corner270BottomLeft | src/graphics.rs:119 | On a 104×212 panel, Rotate270 maps (0, 103) to (2755, 0x01). |
| Graphics.SizeOf | src/graphics.rs:148-157 | Definition: `size()` is (cols, rows) for Rotate0/180 and (rows, cols) for Rotate90/270. |
| Graphics.Locate | src/graphics.rs:64-72 | A pixel on the panel maps into both planes with a single-bit mask. |
| Graphics.Paint | src/graphics.rs:74-87 | Setting or clearing a masked bit turns those bits on or off and leaves every other bit of the byte as it was. |
| Graphics.PaintBytesPaints | src/graphics.rs:74-87 | The per-colour match clears the black bit for Black only and clears the red bit for Red only. Otherwise it sets them. |
| Graphics.SetPixel | src/graphics.rs:64-88 | `set_pixel` keeps the display and the plane lengths. |
| Graphics.SetPixelPaints | src/graphics.rs:64-88 | `set_pixel` changes only the mapped byte of each plane, and in it only the mapped bit. The bits read (0,1) for Black, (1,1) for White and (1,0) for Red. |
| Graphics.SetPixelReadsBack | src/graphics.rs:74-87 | Reading a pixel after `set_pixel` gives the colour written. |
| Graphics.SetPixelKeepsOthers | src/graphics.rs:64-88 | `set_pixel` leaves the colour of every other pixel unchanged. |
| Graphics.SetPixelLastWins | src/graphics.rs:64-88 | The last `set_pixel` of a pixel wins, and `set_pixel` is idempotent. |
| Graphics.RepaintBit | src/graphics.rs:74-87 | Painting a bit twice is painting it with the second value. |
| Graphics.KeepMasked | src/graphics.rs:74-87 | Painting one bit leaves any disjoint bits of the byte unchanged. |
| Graphics.Clear | src/graphics.rs:47-62 | `clear` keeps the plane lengths and fills every byte of each plane with (0xFF, 0xFF) for White, (0x00, 0xFF) for Black and (0xFF, 0x00) for Red. |
| Graphics.ClearReadsBack | src/graphics.rs:47-62 | After `clear(c)` every pixel on the panel reads c. |
| Graphics.ClearLastWins | src/graphics.rs:47-62 | Clearing twice equals the last clear. Clearing twice with one colour equals clearing once. |
| Graphics.ClearVectors | src/graphics.rs:47-62 | The concrete fills of zeroed 3-byte planes for each colour. |
| Graphics.AsU32 | src/graphics.rs:140-141 | The `i32 as u32` cast keeps non-negative values and sends negative ones to at least 2^31. |
| Graphics.DrawPixel | src/graphics.rs:135-146 | `draw_pixel` outside `size()`, including negative coordinates, leaves both planes unchanged. Inside, it is `set_pixel`. It never fails. |
| Graphics.DrawPixels | src/graphics.rs:135-146 | Drawing a sequence of pixels keeps the display and the buffer shape. |
| Graphics.OutlineVector | src/graphics.rs:256-276 | Stroking the 3×3 outline in white on a zeroed 3-row × 8-col Rotate270 buffer gives the black plane `[0xE0, 0xA0, 0xE0]`. |
| Bus.Emit | src/interface.rs:179-193 | Definition: infallible events (pin edges, delays) are appended and never touch the faults. |
| Bus.Xfers | src/interface.rs:391-397 | One exchange per byte, in order. |
| Bus.Sent | src/interface.rs:391-397 | The bytes sent by a run of exchanges, one per exchange. |
| Bus.SentXfers | src/interface.rs:391-397 | The bytes sent by the exchanges of a byte string are that string. |
| Bus.XfersAppend | src/interface.rs:306-313 | The exchanges of two joined byte strings are the exchanges of each, joined. |
| Bus.XfersPrefix | src/interface.rs:382-388 | The first n exchanges are the exchanges of the first n bytes. |
| Bus.FirstFault | src/interface.rs:391-397 | A found first fault lies inside the window and is a faulted position. |
| Bus.FirstFaultMeans | src/interface.rs:391-397 | No fault is found if and only if the window is fault-free, and every position before the first fault is clean. |
| Bus.FirstFaultExtend | src/interface.rs:391-397 | Growing the window does not move an existing first fault. |
| Bus.FirstFaultAt | src/interface.rs:391-397 | A faulted position with a clean window before it is the first fault. |
| Bus.FirstFaultStep | src/interface.rs:391-397 | A clean window followed by a clean position is a longer clean window. |
| Bus.FirstFaultJoin | src/interface.rs:391-397 | The first fault of two adjacent windows, when the first is clean, is found in the second. |
| Bus.Attempt | src/interface.rs:391-397 | Steps with `?` after each succeed if and only if their window is fault-free. They never change the faults. |
| Bus.AttemptAppend | src/interface.rs:306-313 | Two `?`-chained runs of steps behave as one run of their concatenation. |
| Bus.AttemptAppendFirst | src/interface.rs:306-313 | A failure in the first run ends the joined run the same way. |
| Bus.AttemptAppendSecond | src/interface.rs:306-313 | A clean first run hands over to the second run. |
| Bus.AttemptPrefix | src/interface.rs:391-397 | A run of steps logs a prefix of those steps, never more. |
| Bus.XfersNoPin | src/interface.rs:391-397 | Byte exchanges never move a pin. |
| Bus.Bracket | src/interface.rs:290-313 | A chip-select bracket on success logs pin low, the steps and pin high. On failure it stops after the first faulted step with the pin still low. |
| Bus.Done | src/interface.rs:382-388 | The number of completed exchanges is at most the number asked for. |
| Bus.Received | src/interface.rs:382-388 | The stored buffer holds the received byte for each completed exchange and the sent byte for the rest. |
| Bus.Grow | src/interface.rs:391-397 | Issuing one more step extends the logged prefix by that step. |
| Bus.Issue | src/interface.rs:391-397 | The send loop with `?` is the reference run of its steps. |
| Bus.WriteBytes | src/interface.rs:391-397 | `SpiBus::write` exchanges each byte in order and stops at the first failure. |
| Bus.Transfer | src/interface.rs:382-388 | `transfer` exchanges each byte in order, storing each received byte in place. A failure stops it with the earlier bytes stored. |
| Bus.BracketReleases | src/interface.rs:290-313 | A successful bracket ends with the pin released. A failed one never releases it. |
| Linux.Chunks | src/interface.rs:151-154 | The 4096-byte chunks are non-empty and at most 4096 bytes. All but the last are full. |
| Linux.ChunksConcat | src/interface.rs:151-154 | The chunks, concatenated in order, are exactly the data. |
| Linux.ChunksCount | src/interface.rs:151-154 | There are ⌈len/4096⌉ chunks. |
| Linux.Blocks | src/interface.rs:152-154 | Definition: one SPI write per chunk, in order. |
| Linux.Write | src/interface.rs:147-163 | `write` is CS low, the chunk writes with `?`, then CS high. A failing write returns early with CS still low. |
| Linux.SendCommand | src/interface.rs:195-200 | `send_command` is DC low, the one-byte write and DC high. A failing write returns its error with DC still low. |
| Linux.WiredFraming | src/interface.rs:195-205 | DC is low for a command and high for data, set before CS is asserted. A command ends with CS then DC raised. Data ends with CS raised and DC never goes low during it. |
| Linux.SendData | src/interface.rs:202-205 | `send_data` is DC high and then the bracketed chunk writes. |
| Linux.Reset | src/interface.rs:179-193 | `reset` drives the reset pin low, high, low, high, low, high, with a 10 ms delay after each of the six edges. |
| Linux.LayerCommand | src/interface.rs:232-239 | Definition: layer 0 selects the black write and any other layer the red write. `SramInterface.LocationIsLayerCommand` ties it to the SRAM path's opcode. |
| Linux.EpdUpdateData | src/interface.rs:232-239 | `epd_update_data` sends opcode 0x10 for layer 0 and 0x13 otherwise, then the first nbytes of the buffer. A failing opcode write ends it. |
| Sram.Header | src/interface.rs:306-336 | A header is three bytes that begin with the opcode. |
| Sram.HeaderAddress | src/interface.rs:306-336 | The header's two address bytes reassemble the address: `hi*256 + lo == addr`. |
| Sram.Opcodes | src/interface.rs:251-257 | The sequential-mode bytes are `[0x01, 0x40]`. READ and WRITE headers carry 0x03 and 0x02 with the big-endian address. |
| Sram.SramInit | src/interface.rs:290-295 | `sram_init` sends `[0xFF, 0xFF, 0xFF]` in one SRAM chip-select bracket. |
| Sram.SramSeq | src/interface.rs:298-303 | `sram_seq` sends `[0x01, 0x40]` in one SRAM chip-select bracket. |
| Sram.WriteThen | src/interface.rs:306-313 | Two `?`-chained writes behave as one write of both byte strings. |
| Sram.SramWrite | src/interface.rs:306-313 | `sram_write` sends the WRITE header and then the data in one SRAM bracket. |
| Sram.ReadCount | src/interface.rs:316-323 | The number of bytes stored is at most the buffer length. |
| Sram.SramRead | src/interface.rs:316-323 | `sram_read` sends the READ header and exchanges the buffer in one SRAM bracket, storing the bytes received. On success exactly len(data) bytes are read. |
| Sram.Repeat | src/interface.rs:330-333 | Definition: `len` copies of the value. |
| Sram.SramErase | src/interface.rs:326-336 | `sram_erase` sends the WRITE header and then exactly len copies of val in one SRAM bracket. |
| Sram.MoveHeader | src/interface.rs:342-355 | `sram_epd_move_header` selects the SRAM, sends the READ header, selects the controller and exchanges the opcode. It returns the byte received in that exchange. Each failure is returned as it is. |
| Sram.Forwarded | src/interface.rs:360-366 | The body forwards n bytes. The first is the header's byte and each later one is the byte received on the exchange before. |
| Sram.Drain | src/interface.rs:360-369 | A clean body logs the forwarded exchanges and then releases both chip-selects. |
| Sram.MoveBody | src/interface.rs:360-369 | `sram_epd_move_body` is the reference body run for `data_len` bytes. |
| Sram.ForwardedAt | src/interface.rs:362-365 | The byte held before exchange i is the i-th forwarded byte. |
| Sram.DrainFault | src/interface.rs:362-365 | A first fault at exchange i ends the body there with both chip-selects held. |
| Sram.Forward | src/interface.rs:360-369 | The forwarding loop computes the reference body run. |
| Sram.EpdWrite | src/interface.rs:371-379 | `epd_write` exchanges the bytes inside a controller chip-select bracket. |
| SramInterface.SendCommand | src/interface.rs:454-457 | `send_command` is DC low and then the opcode in a controller bracket. DC is never raised. |
| SramInterface.SendData | src/interface.rs:459-462 | `send_data` is DC high and then the data in a controller bracket. |
| SramInterface.Reset | src/interface.rs:464-483 | The SRAM `reset` is `sram_init`, the three reset pulses with 10 ms delays, and `sram_seq`. The pulses are always sent, whatever `sram_init` returned. |
| SramInterface.Location | src/interface.rs:519 | The controller opcode is 0x10 for layer 0 and 0x13 for any other layer. |
| SramInterface.LocationIsLayerCommand | src/interface.rs:519 | The SRAM path sends the same opcode for a layer as the plain interface's `epd_update_data`, and it is 0x10 if and only if the layer is 0. |
| SramInterface.UpdatePhases | src/interface.rs:513-526 | The update never changes the faults. |
| SramInterface.SramEpdUpdateData | src/interface.rs:513-526 | `sram_epd_update_data` is DC low, the move header, DC high and the move body, and it returns each phase's error as it is. |
| SramInterface.UpdateClean | src/interface.rs:513-526 | With no fault it logs DC low, SRAM selected, the READ header, controller selected, the opcode, DC high, the nbytes forwarded bytes and both chip-selects released, and it returns Ok. The forwarded bytes are the SRAM's first byte and then each byte received on the exchange before. |
| SramInterface.UpdateErrKeepsSelected | src/interface.rs:513-526 | A failed update never releases the SRAM chip-select. |
| SramInterface.BodyErrKeepsSelected | src/interface.rs:360-369 | A failure in the move body never releases the SRAM chip-select. |
| SramInterface.HeaderClean | src/interface.rs:342-351 | With clean header exchanges, the READ header goes through. |
| SramInterface.DrainClean | src/interface.rs:360-369 | With clean body exchanges, every byte is forwarded and both chips are released. |

## Left out

- Hardware: the real SPI, GPIO and delay peripherals and the embedded-hal traits are abstracted as event logs. The results of pin `.ok()` and `.unwrap()` calls are not modelled. Pins never fail in the model, and an `unwrap` panic is not represented.
- `busy_wait` (src/interface.rs:241-246, 485-490) spins without a bound. It is one `BusyWait` event in the call log, because its termination depends on the hardware.
- The `cfg!(target_os = "linux")` switch of `Interface::write` is left out, and so is the non-Linux branch, which makes a single `spi.write(data)`. Only the Linux chunking path is modelled.
- The `panic!()` stubs (src/interface.rs:207-230, 492-499) have no semantics. These are the SRAM operations on the plain interface and `epd_update_data` on the SRAM interface.
- The embedded-graphics rasterisation (rectangles, lines, text) and the `DrawTarget`/`PixelColor` plumbing are foreign code. A shape is modelled as the sequence of `draw_pixel` calls it makes (`Graphics.DrawPixels`).
- `Display::update` and `SramGraphicDisplay` are called or exported, but their bodies are not part of this model.
- The test assertions at src/graphics.rs:221-222, 236-237, 251-252, 279-281 and 307-310 contradict `clear` and `set_pixel` and are not modelled.
- The unused `Contains` helper (src/command.rs:267-283) and the `new`/`release` constructors are not modelled. Nor are src/lib.rs and the board examples.
- The `SramDisplayInterface` forwarders `sram_read`, `sram_write` and `sram_clear` (src/interface.rs:501-511) only delegate. Their behaviour is that of `Sram.SramRead`, `Sram.SramWrite` and `Sram.SramErase`.
- Bus.Transfer: one `spi.send` followed by one `spi.read` is one fallible exchange, so a model fault cannot tell a failing send from a failing read. The byte that goes out and the byte that comes back are the same in both cases.
- Sram.SramErase: its per-byte send/read loop is modelled as the exchange of `len` copies of `val`, which puts the same events on the bus as the source's loop.
- Graphics.Rotate: the combined test-vector property for 104×212 panels is stated as one lemma per corner (`Corner0*`, `Corner270*`), not as one lemma over all corners.
- SramInterface.Reset: the results of `sram_init` and `sram_seq` are discarded as in the source, so the method returns only the wire. Its clean-run `ensures` covers a fault-free window. With a fault, the pulses are still sent after a failed `sram_init`, as the source does.
- SramInterface.SendCommand: the source never raises DC after the opcode on this interface (src/interface.rs:454-457), unlike the plain interface. The model keeps that behaviour.
- SramInterface.UpdatePhases: its own contract states only that faults are unchanged. Its meaning is given by `UpdateClean`, `UpdateErrKeepsSelected` and `SramEpdUpdateData`.
- Display.Reset: `Interface::reset` is one `HwReset` event in the display-level call log. Its pin pattern is stated by `Linux.Reset` and `SramInterface.Reset`.
- Command.Execute: the `debug_assert!`s are not modelled as panics. The model follows release builds. `Command.WellFormed` states the assertions, and `Display.InitScriptOk` shows `init` never trips them for well-formed configurations.
- Display.WakeOnlyByReset: the phase rule is documented but not enforced by the code. The model records it as bookkeeping and does not reject calls made out of phase.
- Delays are `Delay(ms)` events. Wall-clock time is not modelled.

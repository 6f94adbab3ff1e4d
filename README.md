# EByte E22 configuration protocol, modelled in Dafny

This project models the core of a Python driver for the EByte E22 LoRa module. The module is configured over a UART link. Two mode-select lines, M0 and M1, put it into one of four modes, and its register file can be written only while the lines select Configuration. The model covers three parts of `EBYTE.py`:

- **Register map** (`registers.dfy`, module `Registers`). It has the ten register addresses `ADDR_H`..`PID` (0x00..0x09). The REG0, REG1 and REG3 bytes are built by OR-ing named sub-field constants. Each sub-field is a datatype, and each register has an encoder, a masking decoder and round-trip lemmas. The documented defaults 0x62, 0x00 and 0x03 are included. The register file is a 10-byte sequence, and `WriteBlock` places a multi-byte write at consecutive addresses.
- **Command frames** (`commands.dfy`, module `Commands`). It has the opcodes of `EBYTE_E22_CMD`. A set-register frame is `[0xC0, start, n] + data` and a read-register frame is `[0xC1, start, length]`, all in raw bytes. `DecodeFrame` is the parser that the encoders are proved against. `SetRegFrame` is the loop of `__set_reg`, which appends one payload byte at a time.
- **Modes and driver** (`modes.dfy`, `driver.dfy`, modules `Modes` and `Driver`). It has the mode enumeration, the mode → (M0, M1) table and an event trace of `SetLines`, `Settle`, `Send` and `Recv`. The class `Driver.E22` holds:
  - the mirrored mode;
  - the two line levels;
  - the stored channel;
  - the append-only trace.

  Its methods are `ChangeMode`, `SetReg`, `ReadReg`, `CheckDevice`, `CheckDeviceInConfiguration`, `SetChannel`, `SetConfig` and the constructor. Each states its whole new state and the events it appends. `Valid()` says that the mirrored mode, the line fields and the last levels driven in the trace all agree. `SendsGated()` is the protocol's gating rule: every frame is sent while the lines select Configuration, right after a settle step. The constructor, `ChangeMode`, `SetChannel`, `SetConfig` and `CheckDeviceInConfiguration` preserve it. `SetReg` and `ReadReg` are the unbracketed exchanges those operations build on; on their own they keep the rule only when the lines select Configuration and the last event is a settle. `CheckDevice` calls `ReadReg` with no mode change, so from Normal it breaks the rule.
- **Device reference model** (`device.dfy`, module `Device`). It describes how the module responds to a trace. A set-register frame changes its register file only while the lines select Configuration. `Respond` answers a read with the bytes the module holds at the requested addresses, in any mode. `ApplyAppend` splits the device's view of a trace at any point. With it, the lemmas `ChannelTakesEffect` and `ConfigTakesEffect` say what `set_channel` and `set_config` achieve on the device after any earlier trace.

Collaborators:
- The serial link's reply to a frame is a parameter (`reply`) of the operation that sends the frame.
- The 10 ms `time.sleep` is the `Settle` event.
- The pin writes, which the source leaves as comments, are `SetLines` events. `ChangeMode` sets the line fields to the levels those comments give. Updating the mirrored mode there is the model's addition: the source never assigns `__MODE` after the constructor (EBYTE.py:122).
- At power-on the lines are taken to be (0, 0), which is Normal. This matches the driver's initial `__MODE = NORMAL`.

In these places the model follows the code, where a more careful driver would behave differently:
- `__check_device` reads the product id without changing mode, which breaks the gating rule (see Findings).
- `set_config` and the constructor do not inspect the reply, and report no error for an empty one.
- `__read_reg` does not reject a length of 0.
- An out-of-range `set_channel` is silently ignored (EBYTE.py:227): nothing changes and no channel-range error is raised.
- No operation has an error path that restores Normal mode, because none of these operations in the source catches an error and recovers.

The source wraps the start address, the length and each payload value in `hex(...)`, producing text such as `'0x5'` (EBYTE.py:192-194, 201, 230); the opcode goes in as a plain integer. A serial link carries raw bytes, so the model carries raw bytes instead. Written as it is, `set_channel` passes `[hex(channel)]` to `__set_reg`. The check `type(d) is hex` is never true, because `hex` is a function and not a type, so `__set_reg` calls `hex` on a string. That call raises a TypeError in Python.

## Model

| member | source | states |
|---|---|---|
| Registers.RegisterAt | EBYTE.py:8-17 | exactly the addresses 0..9 name a register, and the register found at an address has that address |
| Registers.AddressesDistinct | EBYTE.py:8-17 | each register is found again at its own address; two registers share an address only if they are the same register |
| Registers.ConfigBlockLayout | EBYTE.py:11-14 | a 4-byte block written at REG0 lands on REG0, REG1, REG2 (the channel) and REG3, and leaves every other register unchanged |
| Registers.BaudBits | EBYTE.py:20-27 | every baud-rate constant lies inside the baud mask 0xE0 |
| Registers.ParityBits | EBYTE.py:29-31 | every parity constant lies inside the parity mask 0x18 |
| Registers.AirRateBits | EBYTE.py:33-40 | every air-data-rate constant lies inside the mask 0x07 |
| Registers.BaudOf | EBYTE.py:20-27 | the baud rate read from a byte has exactly that byte's bits under 0xE0 |
| Registers.ParityOf | EBYTE.py:29-31 | a byte's parity bits name a parity iff they are not 0x18, and the named parity has those bits |
| Registers.AirRateOf | EBYTE.py:33-40 | the air data rate read from a byte has exactly that byte's low three bits |
| Registers.EncodeReg0 | EBYTE.py:20-42 | masking the OR of baud, parity and air rate with 0xE0, 0x18 and 0x07 gives back each sub-field's constant |
| Registers.DecodeReg0 | EBYTE.py:20-42 | a byte decodes iff its parity bits are named, and a decoded byte is exactly the encoding of its sub-fields |
| Registers.Reg0RoundTrip | EBYTE.py:20-42 | decoding an encoded REG0 gives back baud, parity and air rate |
| Registers.PacketLenBits | EBYTE.py:45-48 | every packet-length constant lies inside the mask 0xC0 |
| Registers.TxPowerBits | EBYTE.py:53-56 | every TX-power constant lies inside the mask 0x03 |
| Registers.PacketLenOf | EBYTE.py:45-48 | the packet length read from a byte has exactly that byte's bits under 0xC0 |
| Registers.TxPowerOf | EBYTE.py:53-56 | the TX power read from a byte has exactly that byte's bits under 0x03 |
| Registers.EncodeReg1 | EBYTE.py:45-58 | in REG1, the packet length sits under 0xC0, RSSI-enable is bit 0x20 and the TX power sits under 0x03; no reserved bit (0x1C) is set |
| Registers.DecodeReg1 | EBYTE.py:45-58 | a byte decodes iff no reserved bit is set, and a decoded byte is exactly the encoding of its sub-fields |
| Registers.Reg1RoundTrip | EBYTE.py:45-58 | decoding an encoded REG1 gives back packet length, RSSI flag and TX power |
| Registers.WorPeriodBits | EBYTE.py:83-90 | every WOR-period constant lies inside the mask 0x07 |
| Registers.WorPeriodOf | EBYTE.py:83-90 | the WOR period read from a byte has exactly that byte's low three bits |
| Registers.EncodeReg3 | EBYTE.py:67-92 | in REG3, RSSI byte, fixed-point TX, repeater, LBT and WOR-transmitter are the single bits 0x80, 0x40, 0x20, 0x10 and 0x08, and the WOR period sits under 0x07 |
| Registers.DecodeReg3 | EBYTE.py:67-92 | every byte is the encoding of the sub-fields decoded from it |
| Registers.Reg3RoundTrip | EBYTE.py:67-92 | decoding an encoded REG3 gives back all six sub-fields |
| Registers.Defaults | EBYTE.py:42-92 | REG0_DEFAULT = 0x62, REG1_DEFAULT = 0x00 and REG3_DEFAULT = 0x03, and each decodes to its documented default sub-fields |
| Commands.OpcodeOf | EBYTE.py:101-106 | a byte names an opcode only if it is 0xC0, 0xC1, 0xC2, 0xCF or 0xFF, and the named opcode has that byte |
| Commands.OpcodesDistinct | EBYTE.py:101-106 | the opcode bytes are distinct |
| Commands.EncodeCommand | EBYTE.py:191-201 | a write frame is opcode 0xC0, the start address, a length byte equal to the payload count, then the payload (3 + n bytes); a read frame is 0xC1, start, length (3 bytes) |
| Commands.DecodeEncode | EBYTE.py:191-201 | parsing an encoded frame gives back the command |
| Commands.EncodeDecode | EBYTE.py:191-201 | every frame that parses is exactly the encoding of what it parses to |
| Commands.SetRegFrame | EBYTE.py:191-194 | the appending loop yields the set-register frame of (start, data), which parses back to that write; a payload of more than 255 bytes is refused with PayloadTooLarge |
| Commands.ReadRegFrame | EBYTE.py:200-201 | the read-register frame is 3 bytes and parses back to a read of `length` registers at `start`; a length outside 0..255 is refused with InvalidLength |
| Modes.ModeOf | EBYTE.py:95-99 | exactly the codes 0..3 name a mode, and each named mode has that code |
| Modes.LinesOf | EBYTE.py:128-140 | a mode with code c drives (M0, M1) = (c % 2, c / 2): Normal (0,0), WOR (1,0), Configuration (0,1), DeepSleep (1,1) |
| Modes.ModeOfLines | EBYTE.py:128-140 | every pair of line levels selects a mode whose lines are that pair |
| Modes.LinesBijection | EBYTE.py:128-140 | the mode → lines table is a bijection |
| Modes.ModeChangeEvents | EBYTE.py:128-145 | a mode change ends with a settle step and sends no frame; it drives the lines only for a code 0..3 |
| Modes.LinesAfterModeChange | EBYTE.py:128-145 | after a mode change, the lines select the mode the code names, or are unchanged for a code outside 0..3 |
| Modes.LinesAfterAppend | EBYTE.py:128-145 | replaying two stretches of trace in sequence gives the same line levels as replaying them together |
| Modes.LinesAfterQuiet | EBYTE.py:191-207 | a stretch of trace that only sends and receives leaves the line levels unchanged |
| Modes.GatedAppend | EBYTE.py:226-238 | two stretches that each keep the gating rule (from the levels where the first ends) keep it together |
| Modes.BracketedGated | EBYTE.py:229-231 | a frame exchange between a change to Configuration and a change back to Normal keeps the gating rule from any levels, and ends with the lines at Normal |
| Modes.SilentGated | EBYTE.py:128-145 | a stretch of trace that sends nothing keeps the gating rule |
| Device.Respond | EBYTE.py:200-207 | the reply to a read is exactly the bytes held from `start` on, `length` of them or up to the last register, whatever the mode; an address outside 0..9 or a length of at most 0 gets no bytes |
| Device.ApplyAppend | EBYTE.py:226-238 | the device's register file after `a + b` is what `b` does to the file left by `a`, with the lines where `a` left them |
| Device.ApplyBracketed | EBYTE.py:236-238 | a frame sent inside a Configuration bracket has the effect that frame has in Configuration: a parsed write is applied to the register file, and anything else changes nothing, whatever mode the device was in before |
| Driver.E22.constructor | EBYTE.py:109-125 | the driver starts in Normal mode with the given channel and writes the default REG0/REG1/REG3 with that channel; its trace keeps the gating rule |
| Driver.E22.ChangeMode | EBYTE.py:128-145 | codes 0..3 set the mode and drive its lines; any other code changes nothing; a settle step always follows; the channel is unchanged and the gating rule is kept |
| Driver.E22.SetReg | EBYTE.py:191-198 | appends exactly the send of the set-register frame and the reply; the mode, the lines and the channel are unchanged |
| Driver.E22.ReadReg | EBYTE.py:200-207 | appends exactly the send of the read-register frame and the reply, and returns the reply; the mode, the lines and the channel are unchanged |
| Driver.E22.CheckDevice | EBYTE.py:209-212 | sends a read of 1 byte at PID (0x09) without changing mode; returns true iff the reply is non-empty; called in Normal mode, it breaks the gating rule |
| Driver.E22.CheckDeviceInConfiguration | EBYTE.py:209-212 | the same read of PID, bracketed by Configuration and Normal; returns true iff the reply is non-empty, ends in Normal and keeps the gating rule |
| Driver.E22.SetChannel | EBYTE.py:226-231 | for a channel in 0..83: stores it; the trace gains a change to Configuration, a write of [channel] at REG2 and a change to Normal; ends in Normal. Otherwise nothing changes, not even the trace |
| Driver.E22.SetConfig | EBYTE.py:233-238 | the trace gains a change to Configuration, one write of [reg0, reg1, stored channel, reg3] at REG0 and a change to Normal; ends in Normal with the channel unchanged; defaults are the documented REG*_DEFAULT values |
| Driver.KeepsGating | EBYTE.py:229-238 | appending a bracketed frame exchange to a gated trace leaves it gated |
| Driver.UngatedRead | EBYTE.py:209-212 | the read as check_device issues it, sent with the lines at Normal, leaves a trace that breaks the gating rule |
| Driver.ChannelTakesEffect | EBYTE.py:226-231 | after any earlier trace followed by set_channel's events, the device holds the channel in REG2 and every other register is as the earlier trace left it; a 1-byte read of REG2 returns [channel] |
| Driver.ConfigTakesEffect | EBYTE.py:233-238 | after any earlier trace followed by set_config's events, the device holds reg0, reg1, channel and reg3 in REG0..REG3 and every other register is as the earlier trace left it |

## Left out

- Serial-port handling (`__open_port`, `__close_port`, `__send_data`, `__recv_data`, `serial.Serial`), EBYTE.py:147-188. It is I/O. A frame the driver hands to the link is a `Send` event, and what the link returns is the `reply` parameter. An empty reply stands for every failure path that returns `[]`. The unconditional `raise` on line 169 belongs to this layer.
- The `__IN_BUFFER` and `__OUT_BUFFER` fields and the `__OPEN` flag. They belong to the omitted port layer. The trace's `Recv` event records each reply instead.
- `time.sleep(0.01)`. It is real time, and is represented only as the `Settle` event.
- Logging and `print` output throughout. It is output only.
- The channel → frequency formula (EBYTE.py:61-65). It is floating point, and is only a comment in the source.
- `get_net_id`, `set_net_id`, `get_addr`, `set_addr` (EBYTE.py:214-224). Their bodies are `pass`.
- The constructor's port name, baud rate, `MAX_SIZE` and pin numbers. They are stored but never used.
- The `hex()` text encoding of frames. Frames are modelled as raw bytes.
- The opcodes `SET_TEMP` (0xC2), `WRLSS_CFG` (0xCF) and `WRONG_FRMT` (0xFF). The model names them, but the source builds no frame with them.
- A failing GPIO write. The source's pin writes are comments, so a line change here cannot fail.
- Driver.E22.constructor: requires the initial channel to fit in one byte (0..255). The source does no checking, and a larger value has no raw-byte encoding in the set_config frame.
- Driver.E22.SetChannel: models the evidently intended raw-byte write and completes the bracket. As written, an in-range `set_channel` stores the channel and enters Configuration (EBYTE.py:228-229), then raises TypeError in `__set_reg` (EBYTE.py:194), because line 230 passes the string `hex(channel)` and `hex` is applied to it again. Line 231 is never reached, so the module stays in Configuration. The model does not capture that failure path.
- Driver.E22.SetReg: a payload longer than 255 bytes sends nothing, because its count does not fit the length byte. The source would send the count as text. No caller passes more than 4 bytes.
- Driver.E22.ReadReg: a length outside 0..255 sends nothing and returns no data, for the same reason. The only caller passes 1.

## Findings

| source | as written | input that shows it | evidently intended | confidence | as-written member | corrected member |
|---|---|---|---|---|---|---|
| EBYTE.py:209-212 | `__check_device` sends the read-register frame for PID without first entering Configuration mode. Every other register access is bracketed by a change to Configuration and a change back to Normal. The module honours register writes only in Configuration, and sending frames only in Configuration is the driver's gating rule (`SendsGated`). | Call it on a driver in Normal mode with any reply. The trace gains `Send([0xC1, 0x09, 0x01])` while the lines are (0, 0). | Bracket the read with Configuration and Normal, as `set_channel` and `set_config` do. | medium; not executed | Driver.E22.CheckDevice (with Driver.UngatedRead) | Driver.E22.CheckDeviceInConfiguration (with Driver.KeepsGating) |

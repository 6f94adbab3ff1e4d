/**
 * The E22 driver (class EBYTE_E22): it mirrors the module's mode and its two
 * mode-select lines, remembers the channel, and records everything it does
 * on the lines and on the serial link as an append-only trace. The serial
 * link's reply to each frame is an input to the operation that sends it.
 */
module Driver {
  import opened Registers
  import opened Commands
  import opened Modes
  import Device

  /** The line levels before the driver drives them: the mode the driver starts in, Normal. */
  const PowerOnLines: Lines := LinesOf(Normal)

  /** The exchange of one set-register frame and the link's reply. */
  function WriteExchange(start: Register, data: seq<bv8>, reply: seq<bv8>): seq<Event>
    requires |data| <= 255
  {
    [Send(EncodeCommand(SetRegister(Address(start), data))), Recv(reply)]
  }

  /** What set_channel does for an in-range channel. */
  function ChannelEvents(channel: bv8, reply: seq<bv8>): seq<Event>
  {
    Bracketed(WriteExchange(Reg2, [channel], reply))
  }

  /** The write of the four-byte block REG0..REG3 that set_config sends. */
  function ConfigEvents(reg0: bv8, reg1: bv8, channel: bv8, reg3: bv8, reply: seq<bv8>): seq<Event>
  {
    Bracketed(WriteExchange(Reg0, [reg0, reg1, channel, reg3], reply))
  }

  /** The product-id read as check_device issues it: with no mode change around it. */
  function ProductIdExchange(reply: seq<bv8>): seq<Event>
  {
    [Send(EncodeCommand(ReadRegister(Address(Pid), 1))), Recv(reply)]
  }

  class E22 {
    var mode: Mode
    var m0: Level
    var m1: Level
    var channel: int
    var trace: seq<Event>

    /**
     * The mirrored mode agrees with the line levels, and both agree with the
     * last levels the trace drove.
     */
    ghost predicate Valid()
      reads this
    {
      && Lines(m0, m1) == LinesOf(mode)
      && LinesAfter(PowerOnLines, trace) == Lines(m0, m1)
      && 0 <= channel <= 255
    }

    /** Every frame in the trace went out in Configuration mode, after a settle step. */
    ghost predicate SendsGated()
      reads this
    {
      Gated(PowerOnLines, trace)
    }

    /** Starts in Normal mode and writes the default configuration with the given channel. */
    constructor (reply: seq<bv8>, channel: int := 0)
      requires 0 <= channel <= 255
      ensures Valid() && SendsGated()
      ensures mode == Normal && this.channel == channel
      ensures trace == ConfigEvents(Reg0Default, Reg1Default, channel as bv8, Reg3Default, reply)
    {
      this.channel := channel;
      mode := Normal;
      m0, m1 := 0, 0;
      trace := [];
      new;
      SetConfig(reply);
      assert [] + ConfigEvents(Reg0Default, Reg1Default, channel as bv8, Reg3Default, reply)
          == ConfigEvents(Reg0Default, Reg1Default, channel as bv8, Reg3Default, reply);
    }

    /**
     * Drives the lines for the mode `code` names and then always settles; a
     * code outside 0..3 changes nothing but still settles.
     */
    method ChangeMode(code: int)
      requires Valid()
      modifies this
      ensures Valid()
      ensures mode == if ModeOf(code).Some? then ModeOf(code).value else old(mode)
      ensures channel == old(channel)
      ensures trace == old(trace) + ModeChangeEvents(code)
      ensures old(SendsGated()) ==> SendsGated()
    {
      var before := trace;
      match ModeOf(code) {
        case Some(m) =>
          trace := trace + [SetLines(LinesOf(m))];
          m0, m1 := LinesOf(m).m0, LinesOf(m).m1;
          mode := m;
        case None =>
      }
      trace := trace + [Settle];
      assert trace == before + ModeChangeEvents(code);
      LinesAfterAppend(PowerOnLines, before, ModeChangeEvents(code));
      LinesAfterModeChange(LinesAfter(PowerOnLines, before), code);
      if Gated(PowerOnLines, before) {
        SilentGated(LinesAfter(PowerOnLines, before), ModeChangeEvents(code));
        GatedAppend(PowerOnLines, before, ModeChangeEvents(code));
      }
    }

    /**
     * Sends the set-register frame for `data` at `start` and records the
     * link's reply. A payload too long for the length byte sends nothing.
     */
    method SetReg(start: bv8, data: seq<bv8>, reply: seq<bv8>)
      requires Valid()
      modifies this
      ensures Valid()
      ensures mode == old(mode) && m0 == old(m0) && m1 == old(m1) && channel == old(channel)
      ensures trace == old(trace) + if |data| <= 255
        then [Send(EncodeCommand(SetRegister(start, data))), Recv(reply)] else []
    {
      var frame := SetRegFrame(start, data);
      if frame.Ok? {
        var exchange := [Send(frame.value), Recv(reply)];
        LinesAfterQuiet(LinesAfter(PowerOnLines, trace), exchange);
        LinesAfterAppend(PowerOnLines, trace, exchange);
        trace := trace + exchange;
      }
    }

    /**
     * Sends the read-register frame for `length` registers at `start` and
     * returns the link's reply. A length outside one byte sends nothing and
     * returns no data.
     */
    method ReadReg(start: bv8, length: int, reply: seq<bv8>) returns (data: seq<bv8>)
      requires Valid()
      modifies this
      ensures Valid()
      ensures mode == old(mode) && m0 == old(m0) && m1 == old(m1) && channel == old(channel)
      ensures data == if 0 <= length <= 255 then reply else []
      ensures trace == old(trace) + if 0 <= length <= 255
        then [Send(EncodeCommand(ReadRegister(start, length as bv8))), Recv(reply)] else []
    {
      var frame := ReadRegFrame(start, length);
      data := [];
      if frame.Ok? {
        var exchange := [Send(frame.value), Recv(reply)];
        LinesAfterQuiet(LinesAfter(PowerOnLines, trace), exchange);
        LinesAfterAppend(PowerOnLines, trace, exchange);
        trace := trace + exchange;
        data := reply;
      }
    }

    /**
     * Reads the product id (one byte at PID, 0x09), as the source does it:
     * without changing mode. The device is present iff the reply is non-empty.
     */
    method CheckDevice(reply: seq<bv8>) returns (present: bool)
      requires Valid()
      modifies this
      ensures Valid()
      ensures present <==> |reply| > 0
      ensures mode == old(mode) && channel == old(channel)
      ensures trace == old(trace) + ProductIdExchange(reply)
      ensures old(mode) == Normal ==> !SendsGated()
    {
      var r := ReadReg(Address(Pid), 1, reply);
      present := |r| > 0;
      if old(mode) == Normal {
        UngatedRead(old(trace), reply);
      }
    }

    /**
     * The product-id read bracketed by Configuration and Normal like every
     * other register access.
     */
    method CheckDeviceInConfiguration(reply: seq<bv8>) returns (present: bool)
      requires Valid()
      modifies this
      ensures Valid()
      ensures present <==> |reply| > 0
      ensures mode == Normal && channel == old(channel)
      ensures trace == old(trace) + Bracketed(ProductIdExchange(reply))
      ensures old(SendsGated()) ==> SendsGated()
    {
      ChangeMode(ModeCode(Configuration));
      var r := ReadReg(Address(Pid), 1, reply);
      ChangeMode(ModeCode(Normal));
      present := |r| > 0;
      assert trace == old(trace) + Bracketed(ProductIdExchange(reply));
      KeepsGating(old(trace), EncodeCommand(ReadRegister(Address(Pid), 1)), reply);
    }

    /**
     * For a channel in 0..83: stores it, then writes it to REG2 inside a
     * Configuration bracket. Any other channel changes nothing.
     */
    method SetChannel(channel: int, reply: seq<bv8>)
      requires Valid()
      modifies this
      ensures Valid()
      ensures 0 <= channel <= 83 ==>
        && this.channel == channel && mode == Normal
        && trace == old(trace) + ChannelEvents(channel as bv8, reply)
      ensures !(0 <= channel <= 83) ==>
        && this.channel == old(this.channel) && mode == old(mode)
        && m0 == old(m0) && m1 == old(m1) && trace == old(trace)
      ensures old(SendsGated()) ==> SendsGated()
    {
      if 0 <= channel <= 83 {
        this.channel := channel;
        ghost var exchange := WriteExchange(Reg2, [channel as bv8], reply);
        ChangeMode(ModeCode(Configuration));
        SetReg(Address(Reg2), [channel as bv8], reply);
        ChangeMode(ModeCode(Normal));
        assert trace == old(trace) + Bracketed(exchange);
        KeepsGating(old(trace), EncodeCommand(SetRegister(Address(Reg2), [channel as bv8])), reply);
      }
    }

    /**
     * Writes REG0, REG1, the stored channel and REG3 as one block at REG0
     * inside a Configuration bracket; the stored channel does not change.
     */
    method SetConfig(reply: seq<bv8>, reg0: bv8 := Reg0Default, reg1: bv8 := Reg1Default, reg3: bv8 := Reg3Default)
      requires Valid()
      modifies this
      ensures Valid()
      ensures mode == Normal && channel == old(channel)
      ensures trace == old(trace) + ConfigEvents(reg0, reg1, channel as bv8, reg3, reply)
      ensures old(SendsGated()) ==> SendsGated()
    {
      var config := [reg0, reg1, channel as bv8, reg3];
      ghost var exchange := WriteExchange(Reg0, config, reply);
      ChangeMode(ModeCode(Configuration));
      SetReg(Address(Reg0), config, reply);
      ChangeMode(ModeCode(Normal));
      assert trace == old(trace) + Bracketed(exchange);
      KeepsGating(old(trace), EncodeCommand(SetRegister(Address(Reg0), config)), reply);
    }
  }

  /** Appending a bracketed exchange keeps a gated trace gated. */
  lemma KeepsGating(t: seq<Event>, frame: seq<bv8>, reply: seq<bv8>)
    ensures Gated(PowerOnLines, t) ==> Gated(PowerOnLines, t + Bracketed([Send(frame), Recv(reply)]))
  {
    if Gated(PowerOnLines, t) {
      BracketedGated(LinesAfter(PowerOnLines, t), frame, reply);
      GatedAppend(PowerOnLines, t, Bracketed([Send(frame), Recv(reply)]));
    }
  }

  /**
   * The product-id read as check_device issues it breaks the gating rule:
   * sent with the lines at Normal, it goes out outside Configuration.
   */
  lemma UngatedRead(t: seq<Event>, reply: seq<bv8>)
    requires LinesAfter(PowerOnLines, t) == LinesOf(Normal)
    ensures !Gated(PowerOnLines, t + ProductIdExchange(reply))
  {
    var u := t + ProductIdExchange(reply);
    assert u[|t|].Send?;
    assert u[..|t|] == t;
  }

  /**
   * Whatever trace `t` came before, after set_channel's events the device
   * holds the channel in REG2, every other register is as `t` left it, and a
   * read of REG2 returns the channel.
   */
  lemma ChannelTakesEffect(file: RegisterFile, lines: Lines, t: seq<Event>, channel: bv8, reply: seq<bv8>, r: Register)
    ensures var before := Device.Apply(file, lines, t);
      var f := Device.Apply(file, lines, t + ChannelEvents(channel, reply));
      && Read(f, r) == (if r == Reg2 then channel else Read(before, r))
      && Device.Respond(f, Address(Reg2) as int, 1) == [channel]
  {
    var before := Device.Apply(file, lines, t);
    Device.ApplyAppend(file, lines, t, ChannelEvents(channel, reply));
    var c := SetRegister(Address(Reg2), [channel]);
    DecodeEncode(c);
    Device.ApplyBracketed(before, LinesAfter(lines, t), EncodeCommand(c), reply);
    var f := WriteBlock(before, Address(Reg2) as int, [channel]);
    assert Device.Apply(file, lines, t + ChannelEvents(channel, reply)) == f;
    assert f[5] == channel;
    var answer := Device.Respond(f, Address(Reg2) as int, 1);
    assert |answer| == 1 && answer[0] == f[5];
    assert answer == [channel];
  }

  /**
   * Whatever trace `t` came before, after set_config's events the device
   * holds the four bytes in REG0..REG3 and every other register is as `t` left it.
   */
  lemma ConfigTakesEffect(file: RegisterFile, lines: Lines, t: seq<Event>, reg0: bv8, reg1: bv8, channel: bv8, reg3: bv8,
                          reply: seq<bv8>, r: Register)
    ensures var before := Device.Apply(file, lines, t);
      var f := Device.Apply(file, lines, t + ConfigEvents(reg0, reg1, channel, reg3, reply));
      Read(f, r) == match r
        case Reg0 => reg0
        case Reg1 => reg1
        case Reg2 => channel
        case Reg3 => reg3
        case _ => Read(before, r)
  {
    var before := Device.Apply(file, lines, t);
    Device.ApplyAppend(file, lines, t, ConfigEvents(reg0, reg1, channel, reg3, reply));
    var c := SetRegister(Address(Reg0), [reg0, reg1, channel, reg3]);
    DecodeEncode(c);
    Device.ApplyBracketed(before, LinesAfter(lines, t), EncodeCommand(c), reply);
    ConfigBlockLayout(before, reg0, reg1, channel, reg3, r);
  }
}

/**
 * Command frames of the E22 serial configuration protocol (class EBYTE_E22_CMD
 * and the frames built by the driver's register accessors). A frame is a
 * three-byte header (opcode, start address, length) followed, for a write,
 * by exactly `length` payload bytes. All bytes are raw binary values.
 */
module Commands {
  import opened Wrappers

  datatype Opcode = SetReg | ReadReg | SetTemp | WirelessCfg | WrongFormat

  /** The byte that identifies each command on the wire. */
  function OpcodeByte(o: Opcode): bv8
  {
    match o
    case SetReg => 0xC0
    case ReadReg => 0xC1
    case SetTemp => 0xC2
    case WirelessCfg => 0xCF
    case WrongFormat => 0xFF
  }

  /** The opcode a header byte stands for, if any. */
  function OpcodeOf(b: bv8): (o: Option<Opcode>)
    ensures o.Some? ==> OpcodeByte(o.value) == b
    ensures o.None? ==> b !in {0xC0, 0xC1, 0xC2, 0xCF, 0xFF}
  {
    if b == 0xC0 then Some(SetReg)
    else if b == 0xC1 then Some(ReadReg)
    else if b == 0xC2 then Some(SetTemp)
    else if b == 0xCF then Some(WirelessCfg)
    else if b == 0xFF then Some(WrongFormat)
    else None
  }

  /** Opcode bytes are distinct, so a header byte names at most one command. */
  lemma OpcodesDistinct(o: Opcode)
    ensures OpcodeOf(OpcodeByte(o)) == Some(o)
  {
  }

  /** The two register commands the driver issues. */
  datatype Command =
    | SetRegister(start: bv8, data: seq<bv8>)
    | ReadRegister(start: bv8, length: bv8)

  /** A write can be framed only when its length fits the one-byte length field. */
  predicate Framable(c: Command)
  {
    c.SetRegister? ==> |c.data| <= 255
  }

  datatype FrameError = PayloadTooLarge | InvalidLength

  /** The wire form of a command. */
  function EncodeCommand(c: Command): (f: seq<bv8>)
    requires Framable(c)
    ensures |f| >= 3 && f[1] == c.start
    ensures c.SetRegister? ==> f[0] == OpcodeByte(SetReg) && f[2] == |c.data| as bv8
                               && |f| == 3 + |c.data| && f[3..] == c.data
    ensures c.ReadRegister? ==> f[0] == OpcodeByte(ReadReg) && f[2] == c.length && |f| == 3
  {
    match c
    case SetRegister(start, data) =>
      var f := [OpcodeByte(SetReg), start, |data| as bv8] + data;
      assert f[3..] == data;
      f
    case ReadRegister(start, length) => [OpcodeByte(ReadReg), start, length]
  }

  /**
   * Parses a frame. A write frame must carry exactly as many payload bytes as
   * its length field says (at most 255); a read frame is the bare header.
   */
  function DecodeFrame(f: seq<bv8>): Option<Command>
  {
    if |f| < 3 then None
    else if f[0] == OpcodeByte(SetReg) && |f| <= 258 && f[2] == (|f| - 3) as bv8 then Some(SetRegister(f[1], f[3..]))
    else if f[0] == OpcodeByte(ReadReg) && |f| == 3 then Some(ReadRegister(f[1], f[2]))
    else None
  }

  /** Decoding an encoded command gives the command back. */
  lemma DecodeEncode(c: Command)
    requires Framable(c)
    ensures DecodeFrame(EncodeCommand(c)) == Some(c)
  {
  }

  /** A frame that decodes is exactly the encoding of what it decodes to. */
  lemma EncodeDecode(f: seq<bv8>)
    ensures DecodeFrame(f).Some? ==> Framable(DecodeFrame(f).value) && EncodeCommand(DecodeFrame(f).value) == f
  {
    if DecodeFrame(f).Some? {
      var c := DecodeFrame(f).value;
      if c.SetRegister? {
        assert f == f[..3] + f[3..];
      }
    }
  }

  /**
   * Builds a set-register frame one payload byte at a time: opcode 0xC0,
   * the start address, the payload count, then each payload byte. A payload
   * longer than 255 bytes has no one-byte length and is refused.
   */
  method SetRegFrame(start: bv8, data: seq<bv8>) returns (r: Result<seq<bv8>, FrameError>)
    ensures r.Ok? <==> |data| <= 255
    ensures r.Err? ==> r.error == PayloadTooLarge
    ensures r.Ok? ==> r.value == EncodeCommand(SetRegister(start, data))
    ensures r.Ok? ==> DecodeFrame(r.value) == Some(SetRegister(start, data))
  {
    if |data| > 255 {
      return Err(PayloadTooLarge);
    }
    var buff := [OpcodeByte(SetReg), start, |data| as bv8];
    for i := 0 to |data|
      invariant buff == [OpcodeByte(SetReg), start, |data| as bv8] + data[..i]
    {
      buff := buff + [data[i]];
    }
    assert data[..|data|] == data;
    DecodeEncode(SetRegister(start, data));
    r := Ok(buff);
  }

  /**
   * The read-register frame: opcode 0xC1, the start address and the number
   * of bytes requested. A length outside one byte is refused.
   */
  function ReadRegFrame(start: bv8, length: int): (r: Result<seq<bv8>, FrameError>)
    ensures r.Ok? <==> 0 <= length <= 255
    ensures r.Err? ==> r.error == InvalidLength
    ensures r.Ok? ==> |r.value| == 3 && DecodeFrame(r.value) == Some(ReadRegister(start, length as bv8))
  {
    if 0 <= length <= 255 then Ok(EncodeCommand(ReadRegister(start, length as bv8)))
    else Err(InvalidLength)
  }
}

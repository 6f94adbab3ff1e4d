/**
 * The register file of the EByte E22 module: the ten register addresses and
 * the bit-field encodings of REG0, REG1 and REG3 (class EBYTE_E22_DEFS).
 * Every register value is one byte, modelled as a bv8.
 */
module Registers {
  import opened Wrappers

  /** The named registers, in address order. */
  datatype Register =
    | AddrH | AddrL | NetId | Reg0 | Reg1 | Reg2 | Reg3 | CryptH | CryptL | Pid

  /** The address of each register. */
  function Address(r: Register): bv8
  {
    match r
    case AddrH => 0x00
    case AddrL => 0x01
    case NetId => 0x02
    case Reg0 => 0x03
    case Reg1 => 0x04
    case Reg2 => 0x05
    case Reg3 => 0x06
    case CryptH => 0x07
    case CryptL => 0x08
    case Pid => 0x09
  }

  /** The register that sits at address `a`, if any. */
  function RegisterAt(a: int): (r: Option<Register>)
    ensures r.Some? <==> 0 <= a <= 9
    ensures r.Some? ==> Address(r.value) as int == a
  {
    if a == 0 then Some(AddrH)
    else if a == 1 then Some(AddrL)
    else if a == 2 then Some(NetId)
    else if a == 3 then Some(Reg0)
    else if a == 4 then Some(Reg1)
    else if a == 5 then Some(Reg2)
    else if a == 6 then Some(Reg3)
    else if a == 7 then Some(CryptH)
    else if a == 8 then Some(CryptL)
    else if a == 9 then Some(Pid)
    else None
  }

  /** Addresses are distinct: each register is found again at its own address. */
  lemma AddressesDistinct(r: Register, s: Register)
    ensures RegisterAt(Address(r) as int) == Some(r)
    ensures Address(r) == Address(s) <==> r == s
  {
  }

  /** The register file as the device holds it: one byte per address 0x00..0x09. */
  type RegisterFile = file: seq<bv8> | |file| == 10 witness seq(10, _ => 0x00)

  /** The value held in register `r`. */
  function Read(file: RegisterFile, r: Register): bv8
  {
    file[Address(r)]
  }

  /**
   * Writing a block of bytes starting at address `start`: byte `i` lands on
   * the register at address `start + i`; bytes past the last register are dropped.
   */
  function WriteBlock(file: RegisterFile, start: int, data: seq<bv8>): RegisterFile
  {
    seq(10, a requires 0 <= a < 10 => if start <= a < start + |data| then data[a - start] else file[a])
  }

  /**
   * The four-byte configuration block written at REG0 lands on REG0, REG1,
   * REG2 and REG3, with the channel on REG2, and leaves every other register as it was.
   */
  lemma ConfigBlockLayout(file: RegisterFile, reg0: bv8, reg1: bv8, channel: bv8, reg3: bv8, r: Register)
    ensures var f := WriteBlock(file, Address(Reg0) as int, [reg0, reg1, channel, reg3]);
      Read(f, r) == match r
        case Reg0 => reg0
        case Reg1 => reg1
        case Reg2 => channel
        case Reg3 => reg3
        case _ => Read(file, r)
  {
  }

  // ---------------------------------------------------------------------
  // REG0: UART baud rate (0xE0), parity (0x18), air data rate (0x07)
  // ---------------------------------------------------------------------

  const BaudMask: bv8 := 0xE0
  const ParityMask: bv8 := 0x18
  const AirRateMask: bv8 := 0x07

  datatype Baud = Baud1200 | Baud2400 | Baud4800 | Baud9600 | Baud19200 | Baud38400 | Baud57600 | Baud115200
  datatype Parity = Parity8N1 | Parity8O1 | Parity8E1
  datatype AirRate = AirRate0K3 | AirRate1K2 | AirRate2K4 | AirRate4K8 | AirRate9K6 | AirRate19K2 | AirRate38K4 | AirRate62K5

  function BaudBits(b: Baud): (v: bv8)
    ensures v & BaudMask == v
  {
    match b
    case Baud1200 => 0x00
    case Baud2400 => 0x20
    case Baud4800 => 0x40
    case Baud9600 => 0x60
    case Baud19200 => 0x80
    case Baud38400 => 0xA0
    case Baud57600 => 0xC0
    case Baud115200 => 0xE0
  }

  function ParityBits(p: Parity): (v: bv8)
    ensures v & ParityMask == v
  {
    match p
    case Parity8N1 => 0x00
    case Parity8O1 => 0x08
    case Parity8E1 => 0x10
  }

  function AirRateBits(a: AirRate): (v: bv8)
    ensures v & AirRateMask == v
  {
    match a
    case AirRate0K3 => 0x00
    case AirRate1K2 => 0x01
    case AirRate2K4 => 0x02
    case AirRate4K8 => 0x03
    case AirRate9K6 => 0x04
    case AirRate19K2 => 0x05
    case AirRate38K4 => 0x06
    case AirRate62K5 => 0x07
  }

  /** The baud rate held in the baud bits of `v` (every pattern of 0xE0 is named). */
  function BaudOf(v: bv8): (b: Baud)
    ensures BaudBits(b) == v & BaudMask
  {
    var f := v & BaudMask;
    if f == 0x00 then Baud1200
    else if f == 0x20 then Baud2400
    else if f == 0x40 then Baud4800
    else if f == 0x60 then Baud9600
    else if f == 0x80 then Baud19200
    else if f == 0xA0 then Baud38400
    else if f == 0xC0 then Baud57600
    else Baud115200
  }

  /** The parity held in the parity bits of `v`; the pattern 0x18 is not named. */
  function ParityOf(v: bv8): (p: Option<Parity>)
    ensures p.Some? <==> v & ParityMask != 0x18
    ensures p.Some? ==> ParityBits(p.value) == v & ParityMask
  {
    var f := v & ParityMask;
    if f == 0x00 then Some(Parity8N1)
    else if f == 0x08 then Some(Parity8O1)
    else if f == 0x10 then Some(Parity8E1)
    else None
  }

  /** The air data rate held in the low three bits of `v` (every pattern is named). */
  function AirRateOf(v: bv8): (a: AirRate)
    ensures AirRateBits(a) == v & AirRateMask
  {
    var f := v & AirRateMask;
    if f == 0x00 then AirRate0K3
    else if f == 0x01 then AirRate1K2
    else if f == 0x02 then AirRate2K4
    else if f == 0x03 then AirRate4K8
    else if f == 0x04 then AirRate9K6
    else if f == 0x05 then AirRate19K2
    else if f == 0x06 then AirRate38K4
    else AirRate62K5
  }

  datatype Reg0Fields = Reg0Fields(baud: Baud, parity: Parity, airRate: AirRate)

  /** REG0 as the bitwise OR of its three sub-fields; each is recovered by its mask. */
  function EncodeReg0(f: Reg0Fields): (v: bv8)
    ensures v & BaudMask == BaudBits(f.baud)
    ensures v & ParityMask == ParityBits(f.parity)
    ensures v & AirRateMask == AirRateBits(f.airRate)
  {
    BaudBits(f.baud) | ParityBits(f.parity) | AirRateBits(f.airRate)
  }

  /** The sub-fields of a REG0 byte, when its parity bits are a named value. */
  function DecodeReg0(v: bv8): (f: Option<Reg0Fields>)
    ensures f.Some? <==> v & ParityMask != 0x18
    ensures f.Some? ==> EncodeReg0(f.value) == v
  {
    match ParityOf(v)
    case None => None
    case Some(p) =>
      Some(Reg0Fields(BaudOf(v), p, AirRateOf(v)))
  }

  /** Encoding then decoding REG0 gives back the sub-fields. */
  lemma Reg0RoundTrip(f: Reg0Fields)
    ensures DecodeReg0(EncodeReg0(f)) == Some(f)
  {
  }

  // ---------------------------------------------------------------------
  // REG1: packet length (0xC0), ambient RSSI enable (0x20), TX power (0x03)
  // ---------------------------------------------------------------------

  const PacketLenMask: bv8 := 0xC0
  const Reg1RssiMask: bv8 := 0x20
  const TxPowerMask: bv8 := 0x03
  /** Bits of REG1 that no named sub-field uses. */
  const Reg1Reserved: bv8 := 0x1C

  datatype PacketLen = PacketLen240 | PacketLen128 | PacketLen64 | PacketLen32
  datatype TxPower = TxPower30 | TxPower27 | TxPower24 | TxPower21

  function PacketLenBits(p: PacketLen): (v: bv8)
    ensures v & PacketLenMask == v
  {
    match p
    case PacketLen240 => 0x00
    case PacketLen128 => 0x40
    case PacketLen64 => 0x80
    case PacketLen32 => 0xC0
  }

  function TxPowerBits(t: TxPower): (v: bv8)
    ensures v & TxPowerMask == v
  {
    match t
    case TxPower30 => 0x00
    case TxPower27 => 0x01
    case TxPower24 => 0x02
    case TxPower21 => 0x03
  }

  function PacketLenOf(v: bv8): (p: PacketLen)
    ensures PacketLenBits(p) == v & PacketLenMask
  {
    var f := v & PacketLenMask;
    if f == 0x00 then PacketLen240
    else if f == 0x40 then PacketLen128
    else if f == 0x80 then PacketLen64
    else PacketLen32
  }

  function TxPowerOf(v: bv8): (t: TxPower)
    ensures TxPowerBits(t) == v & TxPowerMask
  {
    var f := v & TxPowerMask;
    if f == 0x00 then TxPower30
    else if f == 0x01 then TxPower27
    else if f == 0x02 then TxPower24
    else TxPower21
  }

  datatype Reg1Fields = Reg1Fields(packetLen: PacketLen, rssiEnabled: bool, txPower: TxPower)

  /** REG1 as the bitwise OR of its sub-fields; each is recovered by its mask. */
  function EncodeReg1(f: Reg1Fields): (v: bv8)
    ensures v & PacketLenMask == PacketLenBits(f.packetLen)
    ensures (v & Reg1RssiMask != 0) == f.rssiEnabled
    ensures v & TxPowerMask == TxPowerBits(f.txPower)
    ensures v & Reg1Reserved == 0
  {
    PacketLenBits(f.packetLen) | (if f.rssiEnabled then 0x20 else 0x00) | TxPowerBits(f.txPower)
  }

  /** The sub-fields of a REG1 byte, when none of its reserved bits is set. */
  function DecodeReg1(v: bv8): (f: Option<Reg1Fields>)
    ensures f.Some? <==> v & Reg1Reserved == 0
    ensures f.Some? ==> EncodeReg1(f.value) == v
  {
    if v & Reg1Reserved != 0 then None
    else
      Some(Reg1Fields(PacketLenOf(v), v & Reg1RssiMask != 0, TxPowerOf(v)))
  }

  /** Encoding then decoding REG1 gives back the sub-fields. */
  lemma Reg1RoundTrip(f: Reg1Fields)
    ensures DecodeReg1(EncodeReg1(f)) == Some(f)
  {
  }

  // ---------------------------------------------------------------------
  // REG3: RSSI byte (0x80), fixed-point TX (0x40), repeater (0x20),
  // listen before talk (0x10), WOR transmitter (0x08), WOR period (0x07)
  // ---------------------------------------------------------------------

  const WorPeriodMask: bv8 := 0x07

  datatype WorPeriod = Wor500 | Wor1000 | Wor1500 | Wor2000 | Wor2500 | Wor3000 | Wor3500 | Wor4000

  function WorPeriodBits(w: WorPeriod): (v: bv8)
    ensures v & WorPeriodMask == v
  {
    match w
    case Wor500 => 0x00
    case Wor1000 => 0x01
    case Wor1500 => 0x02
    case Wor2000 => 0x03
    case Wor2500 => 0x04
    case Wor3000 => 0x05
    case Wor3500 => 0x06
    case Wor4000 => 0x07
  }

  function WorPeriodOf(v: bv8): (w: WorPeriod)
    ensures WorPeriodBits(w) == v & WorPeriodMask
  {
    var f := v & WorPeriodMask;
    if f == 0x00 then Wor500
    else if f == 0x01 then Wor1000
    else if f == 0x02 then Wor1500
    else if f == 0x03 then Wor2000
    else if f == 0x04 then Wor2500
    else if f == 0x05 then Wor3000
    else if f == 0x06 then Wor3500
    else Wor4000
  }

  datatype Reg3Fields = Reg3Fields(
    rssiByte: bool, fixedPoint: bool, repeater: bool, listenBeforeTalk: bool,
    worTransmitter: bool, worPeriod: WorPeriod)

  function Flag(b: bool, bit: bv8): bv8
  {
    if b then bit else 0x00
  }

  /** REG3 as the bitwise OR of its sub-fields; each is recovered by its mask. */
  function EncodeReg3(f: Reg3Fields): (v: bv8)
    ensures (v & 0x80 != 0) == f.rssiByte
    ensures (v & 0x40 != 0) == f.fixedPoint
    ensures (v & 0x20 != 0) == f.repeater
    ensures (v & 0x10 != 0) == f.listenBeforeTalk
    ensures (v & 0x08 != 0) == f.worTransmitter
    ensures v & WorPeriodMask == WorPeriodBits(f.worPeriod)
  {
    Flag(f.rssiByte, 0x80) | Flag(f.fixedPoint, 0x40) | Flag(f.repeater, 0x20)
      | Flag(f.listenBeforeTalk, 0x10) | Flag(f.worTransmitter, 0x08) | WorPeriodBits(f.worPeriod)
  }

  /** Every REG3 byte is a combination of named sub-fields. */
  function DecodeReg3(v: bv8): (f: Reg3Fields)
    ensures EncodeReg3(f) == v
  {
    Reg3Fields(v & 0x80 != 0, v & 0x40 != 0, v & 0x20 != 0, v & 0x10 != 0,
               v & 0x08 != 0, WorPeriodOf(v))
  }

  /** Encoding then decoding REG3 gives back the sub-fields. */
  lemma Reg3RoundTrip(f: Reg3Fields)
    ensures DecodeReg3(EncodeReg3(f)) == f
  {
  }

  // ---------------------------------------------------------------------
  // Documented defaults
  // ---------------------------------------------------------------------

  const Reg0Default: bv8 := EncodeReg0(Reg0Fields(Baud9600, Parity8N1, AirRate2K4))
  const Reg1Default: bv8 := EncodeReg1(Reg1Fields(PacketLen240, false, TxPower30))
  const Reg3Default: bv8 := EncodeReg3(Reg3Fields(false, false, false, false, false, Wor2000))

  /** The defaults are 0x62, 0x00 and 0x03, and decode to the documented sub-fields. */
  lemma Defaults()
    ensures Reg0Default == 0x62 && Reg1Default == 0x00 && Reg3Default == 0x03
    ensures DecodeReg0(Reg0Default) == Some(Reg0Fields(Baud9600, Parity8N1, AirRate2K4))
    ensures DecodeReg1(Reg1Default) == Some(Reg1Fields(PacketLen240, false, TxPower30))
    ensures DecodeReg3(Reg3Default) == Reg3Fields(false, false, false, false, false, Wor2000)
  {
    Reg0RoundTrip(Reg0Fields(Baud9600, Parity8N1, AirRate2K4));
    Reg1RoundTrip(Reg1Fields(PacketLen240, false, TxPower30));
    Reg3RoundTrip(Reg3Fields(false, false, false, false, false, Wor2000));
  }
}

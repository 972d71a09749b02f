/**
  The relay frame of src/SimpleNode.py: the struct format "!256sHH64s".
  A frame is 324 bytes: the ASCII destination address NUL-padded or cut to
  256 bytes, the destination port and the packet type as big-endian
  unsigned 16-bit integers, and the ASCII message NUL-padded or cut to 64
  bytes.
*/
module Frames {
  import opened Wrappers
  import opened Text

  /** The port every relay listens on. */
  const PORT: nat := 7877

  const IP_WIDTH: nat := 256
  const MESSAGE_WIDTH: nat := 64
  const FRAME_SIZE: nat := IP_WIDTH + 2 + 2 + MESSAGE_WIDTH

  /** The three packet types; `auto()` numbers them 1, 2 and 3 in declaration order. */
  datatype PacketType = Connect | Disconnect | Message

  function Value(t: PacketType): (v: nat)
    ensures 1 <= v <= 3
    ensures PacketTypeOf(v) == Some(t)
  {
    match t
    case Connect => 1
    case Disconnect => 2
    case Message => 3
  }

  /** `PacketType(v)`: the member with value `v`, or `None` where Python raises ValueError. */
  function PacketTypeOf(v: int): (r: Option<PacketType>)
    ensures r.Some? <==> 1 <= v <= 3
  {
    if v == 1 then Some(Connect)
    else if v == 2 then Some(Disconnect)
    else if v == 3 then Some(Message)
    else None
  }

  /** The inverse direction: a value `PacketType(v)` accepts is the value of the member it returns. */
  lemma PacketTypeValue(v: int)
    requires PacketTypeOf(v).Some?
    ensures Value(PacketTypeOf(v).value) == v
  {
  }

  /** The two exceptions packing can raise: a non-ASCII string, or a number `H` cannot hold. */
  datatype PackError = UnicodeEncodeError | StructError

  /** The `Ns` conversion: the bytes cut to `width`, or right-padded with NULs up to it. */
  function PadField(b: seq<byte>, width: nat): (r: seq<byte>)
    ensures |r| == width
    ensures forall i :: 0 <= i < width ==> r[i] == if i < |b| then b[i] else 0
  {
    if |b| >= width then b[..width] else b + seq(width - |b|, _ => 0)
  }

  /** What the `H` conversion accepts. */
  predicate IsU16(v: int) {
    0 <= v < 0x1_0000
  }

  function ReadU16BE(b: seq<byte>): (v: nat)
    requires |b| == 2
    ensures IsU16(v)
  {
    b[0] as int * 256 + b[1] as int
  }

  /** The `!H` conversion: two bytes, most significant first. */
  function U16BE(v: int): (r: seq<byte>)
    requires IsU16(v)
    ensures |r| == 2 && ReadU16BE(r) == v
  {
    assert v / 256 < 256;
    [v / 256, v % 256]
  }

  /** Every two bytes are the big-endian form of the number they denote. */
  lemma U16RoundTrip(b: seq<byte>)
    requires |b| == 2
    ensures U16BE(ReadU16BE(b)) == b
  {
    var v := ReadU16BE(b);
    assert v / 256 == b[0] && v % 256 == b[1];
  }

  /** The values `unpack` returns: two byte strings and two numbers. */
  datatype Fields = Fields(ip: seq<byte>, port: nat, ptype: nat, message: seq<byte>)

  /** `pack("!256sHH64s", ip, port, ptype, message)` on already encoded strings. */
  function PackFields(ip: seq<byte>, port: int, ptype: int, message: seq<byte>): (r: Result<seq<byte>, PackError>)
    ensures r.Success? <==> IsU16(port) && IsU16(ptype)
    ensures r.Failure? ==> r.error == StructError
    ensures r.Success? ==> |r.value| == FRAME_SIZE
  {
    if !IsU16(port) || !IsU16(ptype) then Failure(StructError)
    else Success(PadField(ip, IP_WIDTH) + U16BE(port) + U16BE(ptype) + PadField(message, MESSAGE_WIDTH))
  }

  /** `unpack("!256sHH64s", data)`: only a buffer of exactly the frame size is accepted. */
  function UnpackPacket(data: seq<byte>): (r: Result<Fields, PackError>)
    ensures r.Success? <==> |data| == FRAME_SIZE
    ensures r.Failure? ==> r.error == StructError
    ensures r.Success? ==> |r.value.ip| == IP_WIDTH && |r.value.message| == MESSAGE_WIDTH
    ensures r.Success? ==> IsU16(r.value.port) && IsU16(r.value.ptype)
  {
    if |data| != FRAME_SIZE then Failure(StructError)
    else Success(Fields(data[..256], ReadU16BE(data[256..258]), ReadU16BE(data[258..260]), data[260..]))
  }

  /**
    `pack_packet`: both strings are encoded as ASCII first (the address, then
    the message), and only then are the two numbers range-checked.
  */
  function PackPacket(ip: string, port: int, ptype: int, message: string): (r: Result<seq<byte>, PackError>)
    ensures r == Failure(UnicodeEncodeError) <==> !IsAscii(ip) || !IsAscii(message)
    ensures r == Failure(StructError) <==> IsAscii(ip) && IsAscii(message) && !(IsU16(port) && IsU16(ptype))
    ensures r.Success? ==> |r.value| == FRAME_SIZE
  {
    match EncodeAscii(ip)
    case None => Failure(UnicodeEncodeError)
    case Some(ipBytes) =>
      match EncodeAscii(message)
      case None => Failure(UnicodeEncodeError)
      case Some(messageBytes) => PackFields(ipBytes, port, ptype, messageBytes)
  }

  /** Unpacking a packed frame gives back the padded or cut fields and both numbers; NULs are not stripped. */
  lemma PackUnpack(ip: seq<byte>, port: int, ptype: int, message: seq<byte>)
    requires IsU16(port) && IsU16(ptype)
    ensures UnpackPacket(PackFields(ip, port, ptype, message).value)
         == Success(Fields(PadField(ip, IP_WIDTH), port, ptype, PadField(message, MESSAGE_WIDTH)))
  {
    var a, p, t, m := PadField(ip, IP_WIDTH), U16BE(port), U16BE(ptype), PadField(message, MESSAGE_WIDTH);
    var data := a + p + t + m;
    assert data[..256] == a;
    assert data[256..258] == p;
    assert data[258..260] == t;
    assert data[260..] == m;
  }

  /** Every 324-byte buffer is the packing of what it unpacks to. */
  lemma UnpackPack(data: seq<byte>)
    requires |data| == FRAME_SIZE
    ensures var f := UnpackPacket(data).value;
            PackFields(f.ip, f.port, f.ptype, f.message) == Success(data)
  {
    var f := UnpackPacket(data).value;
    U16RoundTrip(data[256..258]);
    U16RoundTrip(data[258..260]);
    assert PadField(f.ip, IP_WIDTH) == data[..256];
    assert PadField(f.message, MESSAGE_WIDTH) == data[260..];
    assert data == data[..256] + data[256..258] + data[258..260] + data[260..];
  }

  /** A string field as it reads back after `decode("ascii")`: cut to `width`, or padded with NUL characters. */
  function PadText(s: string, width: nat): (r: string)
    ensures |r| == width
    ensures forall i :: 0 <= i < width ==> r[i] == if i < |s| then s[i] else NUL
  {
    if |s| >= width then s[..width] else s + seq(width - |s|, _ => NUL)
  }

  /** An ASCII string packed into a field and decoded again reads back as `PadText`. */
  lemma TextFieldRoundTrip(s: string, width: nat)
    requires IsAscii(s)
    ensures DecodeAscii(PadField(EncodeAscii(s).value, width)) == Some(PadText(s, width))
  {
    var b := PadField(EncodeAscii(s).value, width);
    assert IsAsciiBytes(b);
    var d := DecodeAscii(b).value;
    assert forall i :: 0 <= i < width ==> d[i] == PadText(s, width)[i];
    assert d == PadText(s, width);
  }

  /** The sender's view of a frame after the receiver's `unpack` and `decode("ascii")`. */
  lemma PackPacketRoundTrip(ip: string, port: int, ptype: int, message: string)
    requires PackPacket(ip, port, ptype, message).Success?
    ensures var f := UnpackPacket(PackPacket(ip, port, ptype, message).value).value;
            && f.port == port && f.ptype == ptype
            && DecodeAscii(f.ip) == Some(PadText(ip, IP_WIDTH))
            && DecodeAscii(f.message) == Some(PadText(message, MESSAGE_WIDTH))
  {
    PackUnpack(EncodeAscii(ip).value, port, ptype, EncodeAscii(message).value);
    TextFieldRoundTrip(ip, IP_WIDTH);
    TextFieldRoundTrip(message, MESSAGE_WIDTH);
  }

  /** The text with every trailing NUL removed. */
  function StripTrailingNuls(s: string): (r: string)
    ensures |r| <= |s| && r == s[..|r|]
    ensures r == [] || r[|r| - 1] != NUL
    ensures forall i :: |r| <= i < |s| ==> s[i] == NUL
  {
    if |s| == 0 || s[|s| - 1] != NUL then s else StripTrailingNuls(s[..|s| - 1])
  }

  /** A string that fits its field and does not end in NUL is recovered from the padded field. */
  lemma StripPadText(s: string, width: nat)
    requires |s| <= width
    requires s == [] || s[|s| - 1] != NUL
    ensures StripTrailingNuls(PadText(s, width)) == s
  {
    var t := PadText(s, width);
    var r := StripTrailingNuls(t);
    assert t[..|s|] == s;
    assert |r| >= |s| by {
      if |s| > 0 {
        assert t[|s| - 1] == s[|s| - 1] != NUL;
      }
    }
    assert |r| <= |s| by {
      if |r| > 0 {
        assert t[|r| - 1] == r[|r| - 1] != NUL;
      }
    }
  }
}

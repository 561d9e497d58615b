/** The wire format of the switch's outgoing commands: a 12-byte payload
    followed by one checksum byte chosen so that all 13 bytes sum to 0
    modulo 256. Everything here is a value; the serial link and the loop
    that computes the checksum live in module Switcher. */
module Frames {

  /** One octet on the serial link, as held by a Python bytearray. */
  type Byte = x: int | 0 <= x < 256

  const PayloadLength := 12
  const FrameLength := 13

  /** The plain sum of a byte string, peeled from its last byte so that it
      follows a left-to-right scan one byte at a time. */
  function Sum(s: seq<Byte>): nat
  {
    if s == [] then 0 else Sum(s[..|s| - 1]) + s[|s| - 1]
  }

  lemma SumSnoc(s: seq<Byte>, b: Byte)
    ensures Sum(s + [b]) == Sum(s) + b
  {
    assert (s + [b])[..|s|] == s;
  }

  /** Every byte is zero: the one payload whose checksum accumulator is
      never reduced below 0x100. */
  predicate AllZero(s: seq<Byte>)
  {
    forall i :: 0 <= i < |s| ==> s[i] == 0
  }

  /** The checksum byte: the residue that completes the payload's sum to a
      multiple of 256. */
  function Checksum(payload: seq<Byte>): (b: Byte)
    ensures (Sum(payload) + b) % 256 == 0
  {
    var total: int := Sum(payload);
    (-total) % 256
  }

  /** The checksum byte is the only byte that makes the appended frame sum
      to 0 modulo 256, so recomputing it over a frame's payload gives back
      the byte that was appended. */
  lemma ChecksumUnique(payload: seq<Byte>, b: Byte)
    ensures Sum(payload + [b]) % 256 == 0 <==> b == Checksum(payload)
  {
    SumSnoc(payload, b);
  }

  /** A 13-byte frame whose bytes sum to 0 modulo 256. */
  predicate IsValidFrame(f: seq<Byte>)
  {
    |f| == FrameLength && Sum(f) % 256 == 0
  }

  /** The frame sent on the wire for a 12-byte payload. */
  function Frame(payload: seq<Byte>): (f: seq<Byte>)
    requires |payload| == PayloadLength
    ensures |f| == FrameLength && f[..PayloadLength] == payload
    ensures IsValidFrame(f)
  {
    var b := Checksum(payload);
    SumSnoc(payload, b);
    payload + [b]
  }

  /** A 13-byte string is a valid frame exactly when it is the frame of its
      own first 12 bytes. */
  lemma {:induction false} ValidFrameIsFrameOfPayload(f: seq<Byte>)
    requires |f| == FrameLength
    ensures IsValidFrame(f) <==> f == Frame(f[..PayloadLength])
  {
    assert f == f[..PayloadLength] + [f[PayloadLength]];
    ChecksumUnique(f[..PayloadLength], f[PayloadLength]);
  }

  /** Sum of a 12-byte string, written out byte by byte. */
  lemma SumOfTwelve(s: seq<Byte>)
    requires |s| == PayloadLength
    ensures Sum(s) == s[0] as int + s[1] + s[2] + s[3] + s[4] + s[5]
                    + s[6] + s[7] + s[8] + s[9] + s[10] + s[11]
  {
    var k := 1;
    while k <= |s|
      invariant 1 <= k <= |s| + 1
      invariant forall j :: 0 <= j < k - 1 ==> Sum(s[..j + 1]) == Sum(s[..j]) + s[j]
    {
      assert s[..k][..k - 1] == s[..k - 1];
      k := k + 1;
    }
    assert s[..12] == s;
  }

  // The two payloads the switch sends, laid out as in the source.

  /** Switch the output to input port `port`: group 0x02, opcode 0x03,
      the "set" flag in byte 6. */
  function SwitchPortPayload(port: Byte): seq<Byte>
  {
    [0xA5, 0x5B, 0x02, 0x03, port, 0x00, 0x01, 0x00, 0x00, 0x00, 0x00, 0x00]
  }

  /** Select display mode `mode`: group 0x08, opcode 0x05, the "set" flag
      in byte 6. */
  function ModePayload(mode: Byte): seq<Byte>
  {
    [0xA5, 0x5B, 0x08, 0x05, mode, 0x00, 0x01, 0x00, 0x00, 0x00, 0x00, 0x00]
  }

  function SwitchPortFrame(port: Byte): seq<Byte>
  {
    Frame(SwitchPortPayload(port))
  }

  function ModeFrame(mode: Byte): seq<Byte>
  {
    Frame(ModePayload(mode))
  }

  /** The whole switch-port frame, checksum included: the header and
      flag bytes contribute 0x106, so the checksum is 250 - port (mod 256). */
  lemma SwitchPortFrameBytes(port: Byte)
    ensures SwitchPortFrame(port)
         == [0xA5, 0x5B, 0x02, 0x03, port, 0x00, 0x01, 0x00, 0x00, 0x00, 0x00, 0x00,
             (250 - port) % 256]
    ensures IsValidFrame(SwitchPortFrame(port)) && SwitchPortFrame(port)[4] == port
  {
    SumOfTwelve(SwitchPortPayload(port));
  }

  /** The whole mode frame: header and flag bytes contribute 0x10E, so
      the checksum is 242 - mode (mod 256). */
  lemma ModeFrameBytes(mode: Byte)
    ensures ModeFrame(mode)
         == [0xA5, 0x5B, 0x08, 0x05, mode, 0x00, 0x01, 0x00, 0x00, 0x00, 0x00, 0x00,
             (242 - mode) % 256]
    ensures IsValidFrame(ModeFrame(mode)) && ModeFrame(mode)[4] == mode
  {
    SumOfTwelve(ModePayload(mode));
  }

  /** Conversely, a valid frame that carries the switch-port header and
      reserved bytes is the switch-port frame of the port in its byte 4. */
  lemma SwitchPortFrameDetermined(f: seq<Byte>)
    requires IsValidFrame(f)
    requires f[..4] == [0xA5, 0x5B, 0x02, 0x03]
    requires f[5..PayloadLength] == [0x00, 0x01, 0x00, 0x00, 0x00, 0x00, 0x00]
    ensures f == SwitchPortFrame(f[4])
  {
    ValidFrameIsFrameOfPayload(f);
    assert f[..PayloadLength] == f[..4] + [f[4]] + f[5..PayloadLength];
    assert f[..PayloadLength] == SwitchPortPayload(f[4]);
  }

  /** Conversely, a valid frame that carries the mode header and reserved
      bytes is the mode frame of the mode in its byte 4. */
  lemma ModeFrameDetermined(f: seq<Byte>)
    requires IsValidFrame(f)
    requires f[..4] == [0xA5, 0x5B, 0x08, 0x05]
    requires f[5..PayloadLength] == [0x00, 0x01, 0x00, 0x00, 0x00, 0x00, 0x00]
    ensures f == ModeFrame(f[4])
  {
    ValidFrameIsFrameOfPayload(f);
    assert f[..PayloadLength] == f[..4] + [f[4]] + f[5..PayloadLength];
    assert f[..PayloadLength] == ModePayload(f[4]);
  }
}

/** The host side of the HDMI switch: an object that owns the serial link
    and writes one checksummed 13-byte frame per command. */
module Switcher {
  import opened Frames

  /** Why appending the checksum can fail: a bytearray only holds values
      in range(0, 256). */
  datatype Error = ByteOutOfRange(value: int)

  datatype Result<T> = Ok(value: T) | Err(error: Error)

  /** The serial link, reduced to the frames written to it, oldest first. */
  class SerialPort {
    var written: seq<seq<Byte>>

    constructor ()
      ensures written == []
    {
      written := [];
    }

    method Write(data: seq<Byte>)
      modifies this
      ensures written == old(written) + [data]
    {
      written := written + [data];
    }
  }

  class HdmiSwitcher {
    const serial: SerialPort

    /** A switcher on a freshly opened link that has carried nothing yet. */
    constructor ()
      ensures fresh(serial) && serial.written == []
    {
      serial := new SerialPort();
    }

    /** Copies the 12-byte payload and appends its checksum: an accumulator
        starts at 0x100, each byte is subtracted, and 0x100 is added back
        whenever it goes negative. An all-zero payload leaves it at 0x100,
        which the bytearray refuses. */
    static method AddChecksum(cmd: seq<Byte>) returns (r: Result<seq<Byte>>)
      requires |cmd| == PayloadLength
      ensures r.Ok? <==> !AllZero(cmd)
      ensures r.Ok? ==> r.value == Frame(cmd)
      ensures r.Ok? ==> |r.value| == FrameLength && r.value[..PayloadLength] == cmd
                        && IsValidFrame(r.value)
      ensures r.Err? ==> r.error == ByteOutOfRange(0x100)
    {
      var checksum: int := 0x100;
      for i := 0 to |cmd|
        invariant 0 <= checksum <= 0x100
        invariant (checksum + Sum(cmd[..i])) % 256 == 0
        invariant checksum == 0x100 <==> AllZero(cmd[..i])
      {
        assert cmd[..i + 1] == cmd[..i] + [cmd[i]];
        SumSnoc(cmd[..i], cmd[i]);
        checksum := checksum - cmd[i];
        if checksum < 0 {
          checksum := checksum + 0x100;
        }
      }
      assert cmd[..|cmd|] == cmd;
      if 0 <= checksum < 256 {
        ChecksumUnique(cmd, checksum);
        SumSnoc(cmd, checksum);
        r := Ok(cmd + [checksum]);
      } else {
        r := Err(ByteOutOfRange(checksum));
      }
    }

    /** Switches the output to input port `port`, 1 to 4. */
    method SwitchPort(port: int)
      requires 1 <= port <= 4
      modifies serial
      ensures serial.written == old(serial.written) + [SwitchPortFrame(port)]
      ensures serial.written[|old(serial.written)|]
           == [0xA5, 0x5B, 0x02, 0x03, port, 0x00, 0x01, 0x00, 0x00, 0x00, 0x00, 0x00,
               250 - port]
    {
      var cmd := SwitchPortPayload(port);
      var frame := AddChecksum(cmd);
      assert cmd[0] != 0;
      SwitchPortFrameBytes(port);
      serial.Write(frame.value);
    }

    /** Selects display mode `mode`, 0 to 2. */
    method SetMode(mode: int)
      requires 0 <= mode <= 2
      modifies serial
      ensures serial.written == old(serial.written) + [ModeFrame(mode)]
      ensures serial.written[|old(serial.written)|]
           == [0xA5, 0x5B, 0x08, 0x05, mode, 0x00, 0x01, 0x00, 0x00, 0x00, 0x00, 0x00,
               242 - mode]
    {
      var cmd := ModePayload(mode);
      var frame := AddChecksum(cmd);
      assert cmd[0] != 0;
      ModeFrameBytes(mode);
      serial.Write(frame.value);
    }

    /** Two successive port switches leave two separate entries in the
        log, each a valid frame carrying its own port in byte 4. */
    method SwitchTwice(first: int, second: int)
      requires 1 <= first <= 4 && 1 <= second <= 4
      modifies serial
      ensures serial.written == old(serial.written) + [SwitchPortFrame(first), SwitchPortFrame(second)]
      ensures var n := |old(serial.written)|;
              IsValidFrame(serial.written[n]) && serial.written[n][4] == first &&
              IsValidFrame(serial.written[n + 1]) && serial.written[n + 1][4] == second
    {
      SwitchPort(first);
      SwitchPort(second);
    }

    /** Selects a mode and then visits the four inputs in order. */
    method CycleAllPorts(mode: int)
      requires 0 <= mode <= 2
      modifies serial
      ensures serial.written
           == old(serial.written) + [ModeFrame(mode)] + seq(4, k requires 0 <= k < 4 => SwitchPortFrame(k + 1))
    {
      SetMode(mode);
      ghost var start := serial.written;
      for i := 0 to 4
        invariant serial.written == start + seq(i, k requires 0 <= k < i => SwitchPortFrame(k + 1))
      {
        SwitchPort(i + 1);
      }
    }
  }
}

# HDMI switcher command framing, in Dafny

A model of the outgoing side of `HDMISwitcher`, the host driver for a
four-input HDMI matrix switch driven over a serial line. Every command is
a fixed 12-byte payload (`A5 5B group opcode param 00 flag 00 00 00 00 00`)
followed by a checksum byte. The checksum is computed by starting an
accumulator at 0x100, subtracting each payload byte and adding 0x100 back
whenever the accumulator goes negative, so that the 13 bytes of the frame
sum to 0 modulo 256.

- `frames.dfy`, module `Frames`: bytes, the byte sum, the reference
  checksum `Checksum` (the residue that completes the sum to a multiple of
  256), `Frame`, the two payload layouts and the lemmas about them.
- `hdmi_switcher.dfy`, module `Switcher`: the serial link as a class
  `SerialPort` whose `written` field is the log of frames written so far,
  and the class `HdmiSwitcher` that owns one. `AddChecksum` is the
  accumulator loop, proved against `Checksum`. `SwitchPort` and `SetMode`
  each append exactly one frame to the log and leave the earlier entries
  alone.

The Python `assert`s are preconditions: the payload given to
`AddChecksum` has 12 bytes, the port is 1 to 4 and the mode is 0 to 2.
One failure is not guarded by an assert. If every payload byte is zero,
the accumulator stays at 0x100, and appending 256 to a `bytearray` raises
`ValueError`. `AddChecksum` returns `Err(ByteOutOfRange(256))` exactly in
that case and a frame in every other case. Both command payloads begin
with 0xA5, so the commands never reach that error.

## Model

| member | source | states |
|---|---|---|
| `Switcher.HdmiSwitcher.AddChecksum` | hdmi_switcher.py:26-37 | for a 12-byte payload, fails exactly when every byte is zero, with the rejected value 256; otherwise returns the 13-byte frame whose first 12 bytes are the payload unchanged, whose last byte is `Checksum(payload)` and whose bytes sum to 0 mod 256; the loop keeps the accumulator in 0..256, congruent to 256 minus the prefix sum, and equal to 256 only while the prefix is all zeros |
| `Frames.Checksum` | hdmi_switcher.py:29-36 | the checksum byte is in 0..255 and completes the payload's sum to a multiple of 256 |
| `Frames.ChecksumUnique` | hdmi_switcher.py:29-36 | a byte appended to a payload makes the sum 0 mod 256 if and only if it is the checksum, so recomputing the checksum over a frame's payload reproduces its last byte |
| `Frames.Frame` | hdmi_switcher.py:36-37 | the frame of a 12-byte payload has 13 bytes, starts with the payload unchanged and sums to 0 mod 256 |
| `Frames.ValidFrameIsFrameOfPayload` | hdmi_switcher.py:29-37 | a 13-byte string sums to 0 mod 256 if and only if it equals the frame of its first 12 bytes |
| `Frames.SwitchPortFrameBytes` | hdmi_switcher.py:42-44 | the switch-port frame is `A5 5B 02 03 port 00 01 00 00 00 00 00` followed by `(250 - port) mod 256`, is valid, and carries the port in byte 4 |
| `Frames.ModeFrameBytes` | hdmi_switcher.py:49-51 | the mode frame is `A5 5B 08 05 mode 00 01 00 00 00 00 00` followed by `(242 - mode) mod 256`, is valid, and carries the mode in byte 4 |
| `Frames.SwitchPortFrameDetermined` | hdmi_switcher.py:42-44 | conversely, any valid 13-byte frame with the switch-port header and reserved bytes is the switch-port frame of its byte 4 |
| `Frames.ModeFrameDetermined` | hdmi_switcher.py:49-51 | conversely, any valid 13-byte frame with the mode header and reserved bytes is the mode frame of its byte 4 |
| `Switcher.HdmiSwitcher.SwitchPort` | hdmi_switcher.py:39-44 | requires port 1..4; appends exactly one entry to the serial log, `A5 5B 02 03 port 00 01 00 00 00 00 00 (250 - port)`, and leaves the earlier entries unchanged |
| `Switcher.HdmiSwitcher.SetMode` | hdmi_switcher.py:46-51 | requires mode 0..2; appends exactly one entry to the serial log, `A5 5B 08 05 mode 00 01 00 00 00 00 00 (242 - mode)`, and leaves the earlier entries unchanged |
| `Switcher.HdmiSwitcher.SwitchTwice` | hdmi_switcher.py:67-69 | two successive port switches append two separate entries, each a valid frame whose byte 4 is its own argument |
| `Switcher.HdmiSwitcher.CycleAllPorts` | hdmi_switcher.py:66-69 | selecting a mode and then switching to ports 1, 2, 3, 4 appends the mode frame followed by the four switch-port frames in that order |
| `Switcher.SerialPort.Write` | hdmi_switcher.py:44 | writing a frame appends it to the log and changes nothing else |

## Left out

- `__init__` (hdmi_switcher.py:53-54) opens a real serial device at 115200 baud through the `serial` library. The model's constructor starts from an empty frame log, and the device name and baud rate are not modelled.
- The demonstration at hdmi_switcher.py:56-77: its `time.sleep` pauses are timing only and are not modelled. `CycleAllPorts` covers the command sequence of its loops.
- What the device does with a frame, and any read from the serial link: the source only writes.
- The port and mode checks are Python `assert`s, so out-of-range arguments are caller errors. They are modelled as preconditions, not as an error result.
- Query commands, the resolution command, response decoding and mode names are not part of this source, so they are not modelled.

# NXP LCD driver of the gas-pump demo, in Dafny

The driver in `nxp_lcd_driver.c` runs five seven-segment LCDs over one
I2C bus:

- the two 6-digit lines of an H4235 glass (ids `LCD_L1`, `LCD_L2`), each
  driven by a PCF85134 controller at slave address 0x72;
- three 4-digit H4198 glasses (ids `LCD_S1`..`LCD_S3`), each driven by a
  PCF85176 at 0x70.

`lcdWrite(lcd, s)` turns a string into a segment frame with the encoder
of its glass (`h4235_SetSegments` or `h4198_SetSegments`). It then wraps
the frame in the controller's command bytes (`h4235_Write` or
`h4198_Write`), and sends the packet as one bus transaction
(`nxpRawWrite`).

The encoders walk the string from right to left:

- each character with a seven-segment code (`sevenSegCode`) takes the next
  digit position, and a space counts as a digit;
- a period or comma is attached to the digits already placed;
- a period or comma left of a full glass is still taken (on the H4198 a
  period there sets bit 0 of the comma byte; on the H4235 it is the
  out-of-range write of the finding below); the scan stops at the next
  character with a code.

`nxpRawWrite` does these steps, in order:

1. it clears a stuck bus with stop conditions;
2. it issues a start, then the slave address, then the data bytes;
3. it returns 1..5 at the first failure, with no stop condition after it;
4. if nothing failed, it sends a stop and returns 0.

`nxpInit` sends the mode-set commands to both controllers. It then lights
every segment of every display, waits, and clears them all.

The project is made of these modules:

- `SevenSeg` (`sevenseg.dfy`) holds the code table.
- `DisplayText` (`text.dfy`) covers what the encoders read in a string:
  - `strlen`;
  - the k-th coded character from the right;
  - where periods and commas stand.
- `H4198` (`h4198.dfy`) and `H4235` (`h4235.dfy`) each contain:
  - a scan function that specifies the encoder;
  - a reference description of every byte of the frame, built from the
    string;
  - the lemmas that tie the two together;
  - the encoder itself, a method that works in place on an `array`.
- `I2c` (`i2c.dfy`) contains:
  - the bus, a `class` that records a trace of events and answers with a
    hardware-answer function;
  - `Transaction`, the specification of one write;
  - `AwaitIdle`, the recovery loop, and `RawWrite`, the method that
    calls it and then runs the data loop.
- `Driver` (`driver.dfy`) contains:
  - the two framers;
  - `lcdWrite`;
  - the controllers' reading of a packet (`ReadH4198`, `ReadH4235`), which
    the packets are proved against;
  - the init sequence.
- `Demo` (`demo.dfy`) holds frames worked out for strings that the driver's
  notes and the demo program write, and ".111111", the witness of the
  finding below.

Two places where the model follows the code rather than its description:

- A space has a code (0x00), so it uses up a digit position.
- The period goes into a different byte on each glass:
  - On the H4198 it goes into bit 0 of the byte of the digit to its left,
    `segmentByte[digit]`. A period left of all four digits therefore lands
    in bit 0 of the comma byte, the same bit as the comma after three digits.
  - On the H4235 it goes into `segmentByte[digit-2]`.

## Model

| member | source | states |
|---|---|---|
| SevenSeg.SevenSegCode | nxp_lcd_driver.c:569-624 | a character has a code iff it is in the case-insensitive table; no code is 0xff; every code leaves bit 0 (the period) clear |
| SevenSeg.CaseInsensitive | nxp_lcd_driver.c:573 | a letter and its upper-case form have the same code |
| SevenSeg.Unsupported | nxp_lcd_driver.c:575-616 | period, comma and the letters K, M, Q, R, V, W, X, Z get 0xff |
| DisplayText.StrLen | nxp_lcd_driver.c:393 | the length is the position of the first NUL, or the whole buffer |
| DisplayText.SevenSegCodeIsCodeTable | nxp_lcd_driver.c:575-621 | `sevenSegCode` refuses period and comma and keeps bit 0 of every code free, which is all the encoders need from a table |
| DisplayText.ClearFrame | nxp_lcd_driver.c:391 | after the zeroing loop the first n bytes are 0 and the rest of the array is unchanged |
| DisplayText.OrByte | nxp_lcd_driver.c:403 | OR-ing v into byte k changes byte k of the frame to the OR and nothing else |
| DisplayText.DigitCodeAt | nxp_lcd_driver.c:414-423 | a coded character with k coded characters to its right is the (k+1)-th digit from the right |
| DisplayText.HasMarkAt | nxp_lcd_driver.c:400-411 | a mark "stands after k digits" iff some position holds it with exactly k coded characters to its right |
| H4198.Step | nxp_lcd_driver.c:397-425 | one turn of the scan loop keeps the scan well formed: a five-byte frame, the cursor in 0..4, or 5 once the loop has broken off |
| H4198.ScanText | nxp_lcd_driver.c:397-425 | the right-to-left scan of a whole string, from the zero frame at cursor 0, is well formed |
| H4198.ScanCount | nxp_lcd_driver.c:414-420 | the scan stops iff the string has more than four coded characters; until then the cursor equals their number |
| H4198.FrameMatchesReference | nxp_lcd_driver.c:381-427 | the frame equals the reference: byte k-1 holds the k-th digit from the right, a period after k digits sets bit 0 of byte k, byte 4 holds the commas |
| H4198.DigitPlacement | nxp_lcd_driver.c:414-423 | a coded character with k < 4 coded characters to its right appears in byte k, upper seven bits |
| H4198.BlankDigit | nxp_lcd_driver.c:391 | a digit byte beyond the number of digits holds at most a period |
| H4198.PeriodBit | nxp_lcd_driver.c:400-404 | bit 0 of byte b is set iff b > 0 and a period stands after b digits |
| H4198.CommaByte | nxp_lcd_driver.c:406-410 | byte 4 bits 2, 1, 0 are the commas after 1, 2, 3 digits; bit 0 also takes a period after 4 digits; bits 7..3 stay clear |
| H4198.CommaBitIsMark | nxp_lcd_driver.c:409 | `0x04 >> (digit-1)` is 0x04, 0x02, 0x01 for digits 1..3 and 0 for digit 4 |
| H4198.Truncation | nxp_lcd_driver.c:418-419 | prepending anything to a string with more than four coded characters leaves the frame unchanged |
| H4198.NothingToShow | nxp_lcd_driver.c:391-397 | a string without coded characters gives the all-zero frame |
| H4198.MarksBeforeDigitsIgnored | nxp_lcd_driver.c:400-406 | marks and uncoded characters right of every digit change nothing |
| H4198.StoppedStays | nxp_lcd_driver.c:418-419 | after the break, the characters further left change nothing |
| H4198.Turn | nxp_lcd_driver.c:400-423 | one loop turn advances the scan specification by exactly one character of the string |
| H4198.ScanLoop | nxp_lcd_driver.c:397-425 | the right-to-left loop over the first len characters turns the zeroed five-byte frame into the frame of the scan of those characters, touching no byte beyond the frame; the break ends it where the scan stops |
| H4198.SetSegments | nxp_lcd_driver.c:381-427 | returns 0, fills the five bytes with `Frame(s)` and leaves the rest of the array untouched |
| H4235.Step | nxp_lcd_driver.c:446-473 | one turn of the scan loop keeps the scan well formed: an eight-byte frame, the cursor in 1..7, or 0 once the loop has broken off |
| H4235.ScanText | nxp_lcd_driver.c:446-473 | the right-to-left scan of a whole string, from the zero frame at cursor 7, is well formed |
| H4235.ScanCount | nxp_lcd_driver.c:463-467 | the scan stops iff the string has more than six coded characters; until then the cursor is 7 minus their number |
| H4235.FrameMatchesReference | nxp_lcd_driver.c:430-476 | the frame equals the reference: byte 6-k holds the k-th digit from the right, a period after k digits sets bit 0 of byte 5-k, byte 6 the commas, byte 7 zero |
| H4235.DigitPlacement | nxp_lcd_driver.c:463-470 | a coded character with k < 6 coded characters to its right appears in byte 5-k, upper seven bits |
| H4235.BlankDigit | nxp_lcd_driver.c:438 | a digit byte left of all digits holds at most a period |
| H4235.PeriodBit | nxp_lcd_driver.c:449-453 | bit 0 of byte b is set iff b < 5 and a period stands after 5-b digits |
| H4235.CommaByte | nxp_lcd_driver.c:455-458 | byte 6 bits 5, 6, 7 are the commas after 1, 2, 3 digits, a comma further left is lost in the shift, bits 4..0 stay clear |
| H4235.CommaBitIsMark | nxp_lcd_driver.c:457 | `0x20 << (6-digit)` kept in a byte is 0x20, 0x40, 0x80 for 1..3 digits placed and 0 after |
| H4235.LastByteEmpty | nxp_lcd_driver.c:438-470 | byte 7 is never written |
| H4235.Truncation | nxp_lcd_driver.c:465-467 | prepending anything to a string with more than six coded characters leaves the frame unchanged |
| H4235.StoppedStays | nxp_lcd_driver.c:466-467 | after the break, the characters further left change nothing |
| H4235.OutOfBoundsExactly | nxp_lcd_driver.c:449-453 | as written, the period branch indexes before the frame iff the string has a period with six digits to its right |
| H4235.PeriodLostStep | nxp_lcd_driver.c:449-453 | a period at cursor 1 leaves cursor and frame as they are and is the out-of-bounds case |
| H4235.Turn | nxp_lcd_driver.c:449-471 | one loop turn advances the scan specification by exactly one character, with the period at cursor 1 dropped |
| H4235.ScanLoop | nxp_lcd_driver.c:446-473 | the right-to-left loop over the first len characters turns the zeroed eight-byte frame into the frame of the scan of those characters, touching no byte beyond the frame; the break ends it where the scan stops |
| H4235.SetSegments | nxp_lcd_driver.c:430-476 | returns 0, fills the eight bytes with `Frame(s)` and leaves the rest of the array untouched, for every string |
| I2c.Bus.constructor | nxp_lcd_driver.c:134-138 | stands for the bus these lines configure and enable: the trace is empty, no wait is in progress, the answers are the given ones |
| I2c.Bus.IsIdle | nxp_lcd_driver.c:288 | the first poll of a wait meets as many busy answers as the hardware gives after the trace so far; idle iff none remain, which ends the wait; a busy answer uses one up and keeps the wait going; the trace is unchanged |
| I2c.Bus.Stop | nxp_lcd_driver.c:293 | appends a stop condition |
| I2c.Bus.Delay | nxp_lcd_driver.c:294 | appends the delay to the trace |
| I2c.Bus.Start | nxp_lcd_driver.c:302 | appends a start condition; succeeds as the hardware answers |
| I2c.Bus.Send | nxp_lcd_driver.c:320 | appends the byte; accepted as the hardware answers |
| I2c.Bus.Acknowledged | nxp_lcd_driver.c:326 | reports the hardware's acknowledgement of the last byte, changing nothing |
| I2c.Recovery | nxp_lcd_driver.c:288-295 | k busy answers give exactly k pairs of a stop condition followed by a 2 ms delay |
| I2c.AwaitIdle | nxp_lcd_driver.c:288-295 | the wait appends the recovery for the busy answers pending when it starts and leaves the bus idle with no wait in progress |
| I2c.Sends | nxp_lcd_driver.c:333-346 | one event per byte sent |
| I2c.FirstFailure | nxp_lcd_driver.c:319-346 | the index of the first byte refused or not acknowledged is at most the number of bytes |
| I2c.FirstFailureSpec | nxp_lcd_driver.c:319-346 | every byte before `FirstFailure` is accepted and acknowledged, and the byte at it is not |
| I2c.DataPhase | nxp_lcd_driver.c:333-346 | the data loop returns 0, 4 or 5; it only appends to the trace, at most one event per byte |
| I2c.DataPhaseOutcome | nxp_lcd_driver.c:333-346 | the data loop sends up to and including the first failing byte and returns 4 or 5 there, or sends all and returns 0 |
| I2c.Transaction | nxp_lcd_driver.c:282-355 | the status is one of 0..5, and the trace always begins with the old trace, the recovery for the pending busy answers and a start condition |
| I2c.TransactionOutcome | nxp_lcd_driver.c:282-355 | a failed start gives 1 after the recovery stops; all passing gives recovery, start, address, data, stop and 0; a failure at byte k gives the bytes up to k and 2/3 (address) or 4/5 (data) |
| I2c.TransactionCodes | nxp_lcd_driver.c:282-355 | the status is one of 0..5, and 0 iff the start and every byte pass |
| I2c.SendsHaveNoStop | nxp_lcd_driver.c:333-346 | sending bytes never issues a stop condition |
| I2c.NoStopAfterFailure | nxp_lcd_driver.c:302-346 | a failing transaction ends with no stop condition after its start |
| I2c.RawWrite | nxp_lcd_driver.c:282-355 | status and new trace are those of `Transaction` on the first n bytes (no bytes for n < 0), with the recovery meeting the busy answers pending at the call; the bus ends idle with no wait in progress |
| Driver.PutH4198Packet | nxp_lcd_driver.c:253-259 | the first seven bytes of the buffer become `H4198Packet` of the display number and the five segment bytes; the bytes after them are unchanged |
| Driver.H4198Packet | nxp_lcd_driver.c:253-259 | the H4198 packet has seven bytes |
| Driver.H4198PacketRead | nxp_lcd_driver.c:253-259 | a PCF85176 reads the packet of display d as device d-1 receiving the five segment bytes unchanged |
| Driver.PutH4235Packet | nxp_lcd_driver.c:206-218 | the first thirteen bytes of the buffer become `H4235Packet` of the line number and the seven segment bytes; the bytes after them are unchanged |
| Driver.H4235Packet | nxp_lcd_driver.c:206-218 | the H4235 packet has thirteen bytes |
| Driver.H4235PacketRead | nxp_lcd_driver.c:206-218 | a PCF85134 reads line 1 as device 1 and line 2 as device 0, receiving the seven bytes and a zero eighth |
| Driver.H4198Write | nxp_lcd_driver.c:243-264 | a display number outside 1..3 gives 1 with no bus activity; otherwise the transaction to 0x70 of the packet built from the first five bytes |
| Driver.H4235Write | nxp_lcd_driver.c:196-222 | a line number outside 1..2 gives 1 with no bus activity; otherwise the transaction to 0x72 of the packet built from the first seven bytes |
| Driver.LcdWrite | nxp_lcd_driver.c:482-515 | an id outside 1..5 gives 1 with no bus activity; otherwise the transaction of the encoded string to the right controller and device |
| Driver.LcdPacket | nxp_lcd_driver.c:490-512 | the packet for an H4235 line has thirteen bytes, the one for an H4198 seven |
| Driver.LcdPacketRead | nxp_lcd_driver.c:491-512 | the controller addressed reads exactly the encoded frame of the string, on the device the id stands for (ids 1, 2 give devices 1, 0; ids 3..5 give 0..2) |
| Driver.RunFrom | nxp_lcd_driver.c:163-184 | running a step list from step k is step k followed by the rest |
| Driver.FillAllRead | nxp_lcd_driver.c:169-174 | the fill writes reach both H4235 lines and all three H4198s with the fill byte in every segment position and the unused eighth H4235 byte zero |
| Driver.Fill | nxp_lcd_driver.c:169 | every byte of the buffer holds the fill byte |
| Driver.WriteAll | nxp_lcd_driver.c:170-174 | the five writes leave the trace of the five fill steps, each write meeting the busy answers the hardware gives when it starts, and an idle bus |
| Driver.WriteLines | nxp_lcd_driver.c:170-171 | the two H4235 writes of a fill leave the trace of their two steps, whatever wait was in progress before, and an idle bus |
| Driver.WriteSmalls | nxp_lcd_driver.c:172-174 | the three H4198 writes of a fill leave the trace of their three steps, whatever wait was in progress before, and an idle bus |
| Driver.InitControllers | nxp_lcd_driver.c:155-166 | the two mode-set writes and their 2 ms delays leave the trace of the first four init steps, whatever wait was in progress before, and an idle bus |
| Driver.ShowAll | nxp_lcd_driver.c:169-184 | one fill of the buffer, the five writes and the delay after them leave the trace of the fill steps and the wait, and an idle bus; the buffer holds the fill byte in its first sixteen bytes and is unchanged beyond |
| Driver.NxpInit | nxp_lcd_driver.c:155-184 | the trace is that of the init script: the commands to 0x70 and 0x72 with 2 ms after each, all on, 750 ms, all off, 200 ms, where every write meets the busy answers the hardware gives after the events before it |
| Demo.Small4321 | nxp_lcd_driver.c:63-64 | "4321" gives 0x0c 0xb6 0x9e 0xcc, as the driver's note lists them |
| Demo.SmallPrice | main_p32.c:125 | "3.652" gives the period in bit 0 of the byte of the '3' |
| Demo.SmallCommas | main_p32.c:119-120 | "777,7" sets comma bit 0x04; in "7777," the comma has no digit to its right and is ignored |
| Demo.LargeComma | main_p32.c:114 | "11111,1" fills bytes 0..5 and sets comma bit 0x20 |
| Demo.LargeJetA | main_p32.c:174 | " JET A" renders the spaces as blank digits |
| Demo.OverflowPeriod | nxp_lcd_driver.c:449-453 | ".111111" reaches the period at cursor 1 (the out-of-bounds write as written); the frame shows the six digits only |

## Left out

- Polling loops: the waits for the start to complete, for the
  transmitter to be ready, for a transmission to complete and for the stop
  to complete (nxp_lcd_driver.c:309-314, 319, 325, 335, 341, 350-352) are
  not modelled. They hang on unresponsive hardware and return nothing.
- The dummy `I2CGetStatus` before the start is not modelled. Neither is
  the clearing of an arbitration-loss flag. Both only read or reset
  peripheral status.
- `nxpInit` lines 122-139 are not modelled: the power switch, the I2C
  configuration and frequency, enabling the module, and the two delays
  before it. They are peripheral configuration. The model starts at the
  init bytes.
- Delays are recorded as trace events. No time passes.
- The hardware's answers are functions of the trace so far. For
  `I2CBusIsIdle` that function gives the number of "busy" answers the
  first poll of a wait meets; the bus counts them down, one per poll, so
  each write of `nxpRawWrite` meets the busy answers of the trace at its
  start, including after an aborted transaction. A bus that stays busy
  forever, where the source loops forever, is not modelled.
- The `if(retval)` checks after the encoders in `lcdWrite` are not
  modelled. Both encoders always return 0, so those checks never fire.
- `nxpInit` ignores the statuses of its writes. The model does the same:
  a write's status does not change what follows.
- The C buffers are uninitialised. The model allocates them zeroed. No
  byte is read before it is written, so this is never observed.
- The encoder theorems are stated for any code table with the properties
  of `sevenSegCode` (`IsCodeTable`). The frames the driver sends use
  `sevenSegCode` itself.
- The demo program `main_p32.c` is not part of this model, beyond the
  strings it writes that appear in `Demo`.
- H4235.SetSegments: models the corrected encoder, which drops a period
  left of six digits. As written, the source writes `segmentByte[-1]`
  there; see Findings.

## Findings

| source | as written | input that shows it | evidently intended | confidence | as-written member | corrected member |
|---|---|---|---|---|---|---|
| nxp_lcd_driver.c:449-453 | a period is taken whenever `digit < 7`, and it sets bit 0 of `segmentByte[digit-2]`; with six digits placed, `digit` is 1, so the write goes to `segmentByte[-1]`, outside the frame | ".111111" on `LCD_L1` | a period with no digit to its left is dropped: excess input is ignored, never written outside the frame | not executed | H4235.OutOfBoundsExactly, Demo.OverflowPeriod | H4235.SetSegments, H4235.PeriodBit |

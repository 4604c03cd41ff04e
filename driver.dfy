/**
 The top of the LCD driver: the two framers that wrap a segment frame in
 the command bytes of its controller IC and send it with `nxpRawWrite`,
 `lcdWrite`, which routes a string to one of the five displays, and the
 bytes `nxpInit` sends when it brings the controllers up.

 The H4198 displays hang off PCF85176 controllers at slave address 0x70;
 their command bytes carry a continuation bit (bit 7): 0x80 loads data
 pointer 0 with more commands to follow, 0x60 | A selects device A and
 ends the commands. The two lines of the H4235 hang off PCF85134
 controllers at 0x72, whose bytes come after control bytes: 0x80 says a
 command follows and then another control byte, 0x40 says display data
 follows to the end; 0xe0 | A selects device A and 0x00 loads data
 pointer 0.
 */
module Driver {
  import opened SevenSeg
  import opened DisplayText
  import opened I2c
  import H4198
  import H4235

  datatype Option<T> = None | Some(value: T)

  /** `LCD_L1`, `LCD_L2`: the top and bottom line of the H4235. */
  const LcdL1: int := 1
  const LcdL2: int := 2
  /** `LCD_S1`, `LCD_S2`, `LCD_S3`: the left, middle and right H4198. */
  const LcdS1: int := 3
  const LcdS2: int := 4
  const LcdS3: int := 5

  /** `LCD_A1`: the slave address of the H4198 controllers. */
  const LcdA1: Byte := 0x70
  /** `LCD_A2`: the slave address of the H4235 controllers. */
  const LcdA2: Byte := 0x72

  /** What a controller takes from a write: the device it selects and the display data. */
  datatype Received = Received(device: int, segments: seq<Byte>)

  /** The bytes `h4198_Write(dispNum, seg)` sends after the slave address. */
  function H4198Packet(dispNum: int, seg: seq<Byte>): (p: seq<Byte>)
    requires 1 <= dispNum <= 3 && |seg| == H4198.FrameSize
    ensures |p| == 7
  {
    [0x80, 0x60 | (dispNum - 1) as Byte] + seg
  }

  /**
   How a PCF85176 reads a 7-byte write: load data pointer 0 with more
   commands to come, then a final device select, then the segment bytes.
   */
  function ReadH4198(p: seq<Byte>): Option<Received>
  {
    if |p| == 7 && p[0] == 0x80 && p[1] & 0xf8 == 0x60
    then Some(Received((p[1] & 0x07) as int, p[2..]))
    else None
  }

  /** Display `dispNum` is device `dispNum` - 1, and receives the five bytes unchanged. */
  lemma H4198PacketRead(dispNum: int, seg: seq<Byte>)
    requires 1 <= dispNum <= 3 && |seg| == H4198.FrameSize
    ensures ReadH4198(H4198Packet(dispNum, seg)) == Some(Received(dispNum - 1, seg))
  {
    var p := H4198Packet(dispNum, seg);
    assert p[2..] == seg;
    if dispNum == 1 {
      assert p[1] == 0x60;
    } else if dispNum == 2 {
      assert p[1] == 0x61;
    } else {
      assert p[1] == 0x62;
    }
  }

  /** The bytes `h4235_Write(disp, seg)` sends after the slave address. */
  function H4235Packet(disp: int, seg: seq<Byte>): (p: seq<Byte>)
    requires 1 <= disp <= 2 && |seg| == 7
    ensures |p| == 13
  {
    [0x80, if disp == 1 then 0xe1 else 0xe0, 0x80, 0x00, 0x40] + seg + [0x00]
  }

  /**
   How a PCF85134 reads a 13-byte write: a device select and a load of data
   pointer 0, each after a control byte that announces a further one, then
   a control byte that announces data, then eight data bytes.
   */
  function ReadH4235(p: seq<Byte>): Option<Received>
  {
    if |p| == 13 && p[0] == 0x80 && p[1] & 0xf8 == 0xe0 && p[2] == 0x80 && p[3] == 0x00 && p[4] == 0x40
    then Some(Received((p[1] & 0x07) as int, p[5..]))
    else None
  }

  /**
   Line 1 is device 1 and line 2 device 0; the line receives the seven
   bytes given and a zero eighth.
   */
  lemma H4235PacketRead(disp: int, seg: seq<Byte>)
    requires 1 <= disp <= 2 && |seg| == 7
    ensures ReadH4235(H4235Packet(disp, seg)) == Some(Received(if disp == 1 then 1 else 0, seg + [0]))
  {
    var p := H4235Packet(disp, seg);
    assert p[5..] == seg + [0];
  }

  /** The copy loop of `h4198_Write`: the packet in the first seven bytes of its buffer. */
  method PutH4198Packet(bytesToSend: array<Byte>, dispNum: int, segData: array<Byte>)
    requires 1 <= dispNum <= 3 && segData.Length >= H4198.FrameSize && bytesToSend.Length >= 7
    requires bytesToSend != segData
    modifies bytesToSend
    ensures bytesToSend[..7] == H4198Packet(dispNum, segData[..H4198.FrameSize])
    ensures bytesToSend[7..] == old(bytesToSend[7..])
  {
    bytesToSend[0] := 0x80;
    bytesToSend[1] := 0x60 | (dispNum - 1) as Byte;
    for i := 0 to 5
      invariant bytesToSend[..i + 2] == [0x80, 0x60 | (dispNum - 1) as Byte] + segData[..i]
      invariant bytesToSend[7..] == old(bytesToSend[7..])
    {
      bytesToSend[i + 2] := segData[i];
      assert bytesToSend[..i + 3] == bytesToSend[..i + 2] + [segData[i]];
      assert segData[..i + 1] == segData[..i] + [segData[i]];
    }
  }

  /**
   `h4198_Write(dispNum, segData)`: a display number outside 1..3 gives 1
   and touches no bus; otherwise the packet is built in a local 16-byte
   buffer and sent to `LCD_A1`, and the transaction's status is returned.
   */
  method H4198Write(bus: Bus, dispNum: int, segData: array<Byte>) returns (rc: int)
    requires 1 <= dispNum <= 3 ==> segData.Length >= H4198.FrameSize
    modifies bus
    ensures !(1 <= dispNum <= 3) ==>
      rc == 1 && bus.trace == old(bus.trace) && bus.busy == old(bus.busy) && bus.waiting == old(bus.waiting)
    ensures 1 <= dispNum <= 3 ==>
      Outcome(rc, bus.trace) ==
        Transaction(bus.answers, old(bus.PendingBusy()), old(bus.trace), LcdA1, H4198Packet(dispNum, segData[..H4198.FrameSize])) &&
      !bus.waiting && bus.busy == 0
  {
    if dispNum < 1 || dispNum > 3 {
      return 1;
    }
    var bytesToSend := new Byte[16];
    PutH4198Packet(bytesToSend, dispNum, segData);
    rc := RawWrite(bus, LcdA1, bytesToSend, 7);
  }

  /**
   The buffer of `h4235_Write`: the command bytes, a copy loop over
   `segData[0..7)` and a zero, the packet in the first thirteen bytes.
   */
  method PutH4235Packet(bytesToSend: array<Byte>, disp: int, segData: array<Byte>)
    requires 1 <= disp <= 2 && segData.Length >= 7 && bytesToSend.Length >= 13
    requires bytesToSend != segData
    modifies bytesToSend
    ensures bytesToSend[..13] == H4235Packet(disp, segData[..7])
    ensures bytesToSend[13..] == old(bytesToSend[13..])
  {
    bytesToSend[0] := 0x80;
    if disp == 1 {
      bytesToSend[1] := 0xe1;
    } else {
      bytesToSend[1] := 0xe0;
    }
    bytesToSend[2] := 0x80;
    bytesToSend[3] := 0x00;
    bytesToSend[4] := 0x40;
    ghost var head := bytesToSend[..5];
    for i := 0 to 7
      invariant bytesToSend[..i + 5] == head + segData[..i]
      invariant bytesToSend[13..] == old(bytesToSend[13..])
    {
      bytesToSend[i + 5] := segData[i];
      assert bytesToSend[..i + 6] == bytesToSend[..i + 5] + [segData[i]];
      assert segData[..i + 1] == segData[..i] + [segData[i]];
    }
    bytesToSend[12] := 0;
    assert bytesToSend[..13] == bytesToSend[..12] + [0];
  }

  /**
   `h4235_Write(disp, segData)`: a display number outside 1..2 gives 1 and
   touches no bus; otherwise the packet is built in a local 16-byte buffer,
   from `segData[0..7)` only, and sent to `LCD_A2`, and the transaction's
   status is returned.
   */
  method H4235Write(bus: Bus, disp: int, segData: array<Byte>) returns (rc: int)
    requires 1 <= disp <= 2 ==> segData.Length >= 7
    modifies bus
    ensures !(1 <= disp <= 2) ==>
      rc == 1 && bus.trace == old(bus.trace) && bus.busy == old(bus.busy) && bus.waiting == old(bus.waiting)
    ensures 1 <= disp <= 2 ==>
      Outcome(rc, bus.trace) ==
        Transaction(bus.answers, old(bus.PendingBusy()), old(bus.trace), LcdA2, H4235Packet(disp, segData[..7])) &&
      !bus.waiting && bus.busy == 0
  {
    if disp < 1 || disp > 2 {
      return 1;
    }
    var bytesToSend := new Byte[16];
    PutH4235Packet(bytesToSend, disp, segData);
    rc := RawWrite(bus, LcdA2, bytesToSend, 13);
  }

  /** The slave address `lcdWrite(lcd, s)` writes to. */
  function LcdAddress(lcd: int): Byte
  {
    if lcd == LcdL1 || lcd == LcdL2 then LcdA2 else LcdA1
  }

  /** The bytes `lcdWrite(lcd, s)` sends after the slave address, for `lcd` in 1..5. */
  function LcdPacket(lcd: int, s: string): (p: seq<Byte>)
    requires LcdL1 <= lcd <= LcdS3
    ensures |p| == if lcd <= LcdL2 then 13 else 7
  {
    if lcd == LcdL1 || lcd == LcdL2 then H4235Packet(lcd, H4235.Frame(s)[..7])
    else H4198Packet(lcd - 2, H4198.Frame(s))
  }

  /**
   `lcdWrite(lcd, s)`: an id outside `LCD_L1`..`LCD_S3` gives 1 and touches
   no bus; ids 1 and 2 encode `s` for the H4235 and write its line 1 or 2,
   ids 3, 4, 5 encode it for the H4198 and write unit 1, 2 or 3; the write's
   status is returned.
   */
  method LcdWrite(bus: Bus, lcd: int, s: string) returns (rc: int)
    modifies bus
    ensures !(LcdL1 <= lcd <= LcdS3) ==>
      rc == 1 && bus.trace == old(bus.trace) && bus.busy == old(bus.busy) && bus.waiting == old(bus.waiting)
    ensures LcdL1 <= lcd <= LcdS3 ==>
      Outcome(rc, bus.trace) == Transaction(bus.answers, old(bus.PendingBusy()), old(bus.trace), LcdAddress(lcd), LcdPacket(lcd, s)) &&
      !bus.waiting && bus.busy == 0
  {
    var segmentData := new Byte[32];
    if lcd < LcdL1 || lcd > LcdS3 {
      return 1;
    }
    if lcd == LcdL1 || lcd == LcdL2 {
      var _ := H4235.SetSegments(s, segmentData);
      assert segmentData[..7] == H4235.Frame(s)[..7];
      if lcd == LcdL1 {
        rc := H4235Write(bus, 1, segmentData);
      } else {
        rc := H4235Write(bus, 2, segmentData);
      }
    } else {
      var _ := H4198.SetSegments(s, segmentData);
      if lcd == LcdS1 {
        rc := H4198Write(bus, 1, segmentData);
      } else if lcd == LcdS2 {
        rc := H4198Write(bus, 2, segmentData);
      } else {
        rc := H4198Write(bus, 3, segmentData);
      }
    }
  }

  /**
   End to end: the controller `lcdWrite` addresses reads from its write the
   frame encoded from `s`, on the device the id stands for.
   */
  lemma LcdPacketRead(lcd: int, s: string)
    requires LcdL1 <= lcd <= LcdS3
    ensures lcd <= LcdL2 ==>
      LcdAddress(lcd) == LcdA2 && ReadH4235(LcdPacket(lcd, s)) == Some(Received(2 - lcd, H4235.Frame(s)))
    ensures lcd >= LcdS1 ==>
      LcdAddress(lcd) == LcdA1 && ReadH4198(LcdPacket(lcd, s)) == Some(Received(lcd - LcdS1, H4198.Frame(s)))
  {
    if lcd <= LcdL2 {
      var f := H4235.Frame(s);
      H4235PacketRead(lcd, f[..7]);
      H4235.LastByteEmpty(Visible(s), SevenSegCode);
      assert f[..7] + [0] == f;
    } else {
      H4198PacketRead(lcd - 2, H4198.Frame(s));
    }
  }

  /** One step of a fixed sequence of writes: a raw write whose status is dropped, or a delay. */
  datatype Step = Write(sa: Byte, bytes: seq<Byte>) | Wait(ms: nat)

  /**
   The events `steps` leave on a bus with history `tr`, in a wait with
   `busy` busy answers left when `waiting`. Each write meets the busy
   answers the hardware gives after the events before it.
   */
  function Run(ans: Answers, waiting: bool, busy: nat, tr: seq<Event>, steps: seq<Step>): seq<Event>
    decreases |steps|
  {
    if steps == [] then tr
    else match steps[0]
      case Write(sa, bytes) =>
        Run(ans, false, 0, Transaction(ans, Pending(ans, waiting, busy, tr), tr, sa, bytes).trace, steps[1..])
      case Wait(ms) => Run(ans, waiting, busy, tr + [DelayMs(ms)], steps[1..])
  }

  /** Running `steps` from step `k` is running step `k`, then the rest. */
  lemma RunFrom(ans: Answers, waiting: bool, busy: nat, tr: seq<Event>, steps: seq<Step>, k: nat)
    requires k < |steps|
    ensures Run(ans, waiting, busy, tr, steps[k..]) ==
      if steps[k].Write?
      then Run(ans, false, 0, Transaction(ans, Pending(ans, waiting, busy, tr), tr, steps[k].sa, steps[k].bytes).trace, steps[k + 1..])
      else Run(ans, waiting, busy, tr + [DelayMs(steps[k].ms)], steps[k + 1..])
  {
    assert steps[k..][0] == steps[k] && steps[k..][1..] == steps[k + 1..];
  }

  /** The mode-set, bank-select and blink commands `nxpInit` sends to both controllers. */
  const InitBytes: seq<Byte> := [0x80, 0xc9, 0x80, 0xf8, 0x00, 0xf0]

  /** Writing frame byte `b` everywhere to all five displays, in the order of `nxpInit`. */
  function FillAll(b: Byte): seq<Step>
  {
    [Write(LcdA2, H4235Packet(1, seq(7, _ => b))), Write(LcdA2, H4235Packet(2, seq(7, _ => b))),
     Write(LcdA1, H4198Packet(1, seq(5, _ => b))), Write(LcdA1, H4198Packet(2, seq(5, _ => b))),
     Write(LcdA1, H4198Packet(3, seq(5, _ => b)))]
  }

  /** The controllers read the fill writes as that byte in every segment position of every display. */
  lemma FillAllRead(b: Byte)
    ensures ReadH4235(FillAll(b)[0].bytes) == Some(Received(1, seq(7, _ => b) + [0]))
    ensures ReadH4235(FillAll(b)[1].bytes) == Some(Received(0, seq(7, _ => b) + [0]))
    ensures forall j :: 2 <= j < 5 ==> ReadH4198(FillAll(b)[j].bytes) == Some(Received(j - 2, seq(5, _ => b)))
  {
    H4235PacketRead(1, seq(7, _ => b));
    H4235PacketRead(2, seq(7, _ => b));
    H4198PacketRead(1, seq(5, _ => b));
    H4198PacketRead(2, seq(5, _ => b));
    H4198PacketRead(3, seq(5, _ => b));
  }

  /** The steps after the first four of `nxpInit`: all on, 750 ms, all off, 200 ms. */
  function InitTail(): seq<Step>
  {
    FillAll(0xff) + ([Wait(750)] + (FillAll(0x00) + [Wait(200)]))
  }

  /**
   What `nxpInit` sends from line 155 on: the initial commands to `LCD_A1`
   and `LCD_A2` with 2 ms after each, then every segment on, 750 ms, every
   segment off, 200 ms.
   */
  function InitScript(): seq<Step>
  {
    [Write(LcdA1, InitBytes), Wait(2), Write(LcdA2, InitBytes), Wait(2)] + InitTail()
  }

  /** The filling loop `for(i=0; i<16; i++) initBytes[i] = b;`. */
  method Fill(a: array<Byte>, b: Byte)
    requires a.Length >= 16
    modifies a
    ensures a[..16] == seq(16, _ => b)
    ensures a[16..] == old(a[16..])
  {
    for i := 0 to 16
      invariant a[..i] == seq(i, _ => b)
      invariant a[16..] == old(a[16..])
    {
      a[i] := b;
      assert a[..i + 1] == a[..i] + [b];
    }
  }

  /**
   The two `h4235_Write` calls of a fill in `nxpInit` (lines 170-171 and
   179-180), their statuses dropped as in the source. Whatever `rest`
   follows then runs from the new state of the bus.
   */
  method WriteLines(bus: Bus, initBytes: array<Byte>, b: Byte, ghost rest: seq<Step>)
    requires initBytes.Length >= 16 && initBytes[..16] == seq(16, _ => b)
    modifies bus
    ensures Run(bus.answers, old(bus.waiting), old(bus.busy), old(bus.trace), FillAll(b)[..2] + rest) ==
      Run(bus.answers, false, 0, bus.trace, rest)
    ensures !bus.waiting && bus.busy == 0
  {
    ghost var steps := FillAll(b)[..2] + rest;
    assert initBytes[..7] == seq(7, _ => b);
    assert steps[0..] == steps;
    ghost var waiting0, busy0, tr0 := bus.waiting, bus.busy, bus.trace;
    var _ := H4235Write(bus, 1, initBytes);
    RunFrom(bus.answers, waiting0, busy0, tr0, steps, 0);
    ghost var tr1 := bus.trace;
    var _ := H4235Write(bus, 2, initBytes);
    RunFrom(bus.answers, false, 0, tr1, steps, 1);
    assert steps[2..] == rest;
  }

  /**
   The three `h4198_Write` calls of a fill in `nxpInit` (lines 172-174 and
   181-183), their statuses dropped as in the source. Whatever `rest`
   follows then runs from the new state of the bus.
   */
  method WriteSmalls(bus: Bus, initBytes: array<Byte>, b: Byte, ghost rest: seq<Step>)
    requires initBytes.Length >= 16 && initBytes[..16] == seq(16, _ => b)
    modifies bus
    ensures Run(bus.answers, old(bus.waiting), old(bus.busy), old(bus.trace), FillAll(b)[2..] + rest) ==
      Run(bus.answers, false, 0, bus.trace, rest)
    ensures !bus.waiting && bus.busy == 0
  {
    ghost var steps := FillAll(b)[2..] + rest;
    assert initBytes[..5] == seq(5, _ => b);
    assert steps[0..] == steps;
    ghost var waiting0, busy0, tr0 := bus.waiting, bus.busy, bus.trace;
    var _ := H4198Write(bus, 1, initBytes);
    RunFrom(bus.answers, waiting0, busy0, tr0, steps, 0);
    ghost var tr1 := bus.trace;
    var _ := H4198Write(bus, 2, initBytes);
    RunFrom(bus.answers, false, 0, tr1, steps, 1);
    ghost var tr2 := bus.trace;
    var _ := H4198Write(bus, 3, initBytes);
    RunFrom(bus.answers, false, 0, tr2, steps, 2);
    assert steps[3..] == rest;
  }

  /**
   The five writes after each fill in `nxpInit`: both lines of the
   H4235, then the three H4198s. Whatever `rest` follows then runs from the
   new state of the bus.
   */
  method WriteAll(bus: Bus, initBytes: array<Byte>, b: Byte, ghost rest: seq<Step>)
    requires initBytes.Length >= 16 && initBytes[..16] == seq(16, _ => b)
    modifies bus
    ensures Run(bus.answers, old(bus.waiting), old(bus.busy), old(bus.trace), FillAll(b) + rest) ==
      Run(bus.answers, false, 0, bus.trace, rest)
    ensures !bus.waiting && bus.busy == 0
  {
    assert FillAll(b) + rest == FillAll(b)[..2] + (FillAll(b)[2..] + rest);
    WriteLines(bus, initBytes, b, FillAll(b)[2..] + rest);
    WriteSmalls(bus, initBytes, b, rest);
  }

  /**
   The first four steps of `nxpInit` from line 155: the initial commands to
   `LCD_A1`, 2 ms, the same to `LCD_A2`, 2 ms. Whatever `rest` follows then
   runs from the new state of the bus.
   */
  method InitControllers(bus: Bus, initBytes: array<Byte>, ghost rest: seq<Step>)
    requires initBytes.Length >= 6 && initBytes[..6] == InitBytes
    modifies bus
    ensures Run(bus.answers, old(bus.waiting), old(bus.busy), old(bus.trace),
      [Write(LcdA1, InitBytes), Wait(2), Write(LcdA2, InitBytes), Wait(2)] + rest) ==
      Run(bus.answers, false, 0, bus.trace, rest)
    ensures !bus.waiting && bus.busy == 0
  {
    ghost var steps := [Write(LcdA1, InitBytes), Wait(2), Write(LcdA2, InitBytes), Wait(2)] + rest;
    assert steps[0..] == steps;
    ghost var waiting0, busy0, tr0 := bus.waiting, bus.busy, bus.trace;
    var _ := RawWrite(bus, LcdA1, initBytes, 6);
    RunFrom(bus.answers, waiting0, busy0, tr0, steps, 0);
    ghost var tr1 := bus.trace;
    bus.Delay(2);
    RunFrom(bus.answers, false, 0, tr1, steps, 1);
    ghost var tr2 := bus.trace;
    var _ := RawWrite(bus, LcdA2, initBytes, 6);
    RunFrom(bus.answers, false, 0, tr2, steps, 2);
    ghost var tr3 := bus.trace;
    bus.Delay(2);
    RunFrom(bus.answers, false, 0, tr3, steps, 3);
    assert steps[4..] == rest;
  }

  /**
   One fill of `nxpInit`: every byte of the buffer set to `b`, the five
   writes, then a delay of `ms`.
   */
  method ShowAll(bus: Bus, initBytes: array<Byte>, b: Byte, ms: nat, ghost rest: seq<Step>)
    requires initBytes.Length >= 16
    modifies bus, initBytes
    ensures Run(bus.answers, old(bus.waiting), old(bus.busy), old(bus.trace), FillAll(b) + ([Wait(ms)] + rest)) ==
      Run(bus.answers, false, 0, bus.trace, rest)
    ensures !bus.waiting && bus.busy == 0
    ensures initBytes[..16] == seq(16, _ => b) && initBytes[16..] == old(initBytes[16..])
  {
    ghost var tail := [Wait(ms)] + rest;
    Fill(initBytes, b);
    WriteAll(bus, initBytes, b, tail);
    ghost var tr := bus.trace;
    bus.Delay(ms);
    RunFrom(bus.answers, false, 0, tr, tail, 0);
    assert tail[0..] == tail && tail[1..] == rest;
  }

  /**
   `nxpInit` from line 155 on: the initial commands, then every segment on
   and every segment off, with the delays between them; the events on the
   bus are those of `InitScript`.
   */
  method NxpInit(bus: Bus)
    modifies bus
    ensures bus.trace == Run(bus.answers, old(bus.waiting), old(bus.busy), old(bus.trace), InitScript())
    ensures !bus.waiting && bus.busy == 0
  {
    var initBytes := new Byte[32];
    initBytes[0] := 0x80;
    initBytes[1] := 0xc9;
    initBytes[2] := 0x80;
    initBytes[3] := 0xf8;
    initBytes[4] := 0x00;
    initBytes[5] := 0xf0;
    assert initBytes[..6] == InitBytes;
    InitControllers(bus, initBytes, InitTail());
    ShowAll(bus, initBytes, 0xff, 750, FillAll(0x00) + [Wait(200)]);
    assert FillAll(0x00) + [Wait(200)] == FillAll(0x00) + ([Wait(200)] + []);
    ShowAll(bus, initBytes, 0x00, 200, []);
  }
}

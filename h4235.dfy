/**
 `h4235_SetSegments`: the segment frame of one line of the large H4235
 display (six digits per line). Byte 5 is the rightmost digit, byte 0 the
 leftmost; bit 0 of a digit byte is the decimal point right of the digit in
 that byte, set by a period that stands between it and the digit in the next
 byte; byte 6 holds the three commas in bits 5..7; byte 7 carries no segment
 of the line and stays 0.
 */
module H4235 {
  import opened SevenSeg
  import opened DisplayText

  /** The number of digit positions of one line. */
  const DisplaySize := 6
  /** The number of bytes of a frame. */
  const FrameSize := 8
  /** The cursor before the first digit: "one past the right-most digit". */
  const FirstCursor := 7

  /**
   The encoder's state after some suffix of the string: the cursor `digit`
   (7 minus the characters with a code met so far), the frame built so far,
   whether the scan has hit the `break`, and whether a period has been met
   with the cursor at 1, where the source writes `segmentByte[-1]`, one byte
   before the frame.
   */
  datatype Scan = Scan(digit: int, frame: seq<Byte>, stopped: bool, outOfBounds: bool)

  predicate WellFormed(st: Scan)
  {
    |st.frame| == FrameSize &&
    if st.stopped then st.digit == 0 else 1 <= st.digit <= FirstCursor
  }

  const Start: Scan := Scan(FirstCursor, [0, 0, 0, 0, 0, 0, 0, 0], false, false)

  /**
   The comma bit for cursor `digit`: `0x20 << (6 - digit)` stored into a
   byte, so the bits shifted past bit 7 are lost.
   */
  function CommaBit(digit: int): Byte
    requires 1 <= digit <= DisplaySize
  {
    (0x20 as Byte) << (DisplaySize - digit)
  }

  /** One turn of the right-to-left loop, on character `c`. */
  function Step(st: Scan, c: char, code: char -> Byte): (r: Scan)
    requires WellFormed(st)
    ensures WellFormed(r)
  {
    if st.stopped then st
    else if c == '.' && st.digit < FirstCursor then
      if st.digit >= 2 then st.(frame := st.frame[st.digit - 2 := st.frame[st.digit - 2] | 1])
      else st.(outOfBounds := true)
    else if c == ',' && st.digit < FirstCursor then
      st.(frame := st.frame[6 := st.frame[6] | CommaBit(st.digit)])
    else if code(c) == Invalid then st
    else if st.digit - 1 < 1 then st.(digit := st.digit - 1, stopped := true)
    else st.(digit := st.digit - 1, frame := st.frame[st.digit - 2 := st.frame[st.digit - 2] | code(c)])
  }

  /**
   The scan of `t` from its last character to its first: `t[1..]` lies to the
   right of `t[0]`, so it is scanned first.
   */
  function ScanText(t: string, code: char -> Byte): (r: Scan)
    ensures WellFormed(r)
  {
    if t == [] then Start else Step(ScanText(t[1..], code), t[0], code)
  }

  /**
   The scan stops exactly when the string has more than six characters with a
   code; until then the cursor has moved once for each of them.
   */
  lemma {:induction false} ScanCount(t: string, code: char -> Byte)
    requires IsCodeTable(code)
    ensures ScanText(t, code).stopped <==> ValidCount(t, code) > DisplaySize
    ensures !ScanText(t, code).stopped ==> ScanText(t, code).digit == FirstCursor - ValidCount(t, code)
  {
    if t != [] {
      ScanCount(t[1..], code);
    }
  }

  /** The frame `h4235_SetSegments` leaves in `segmentByte` for the string `s`. */
  function Frame(s: string): seq<Byte>
  {
    ScanText(Visible(s), SevenSegCode).frame
  }

  /**
   Digit byte `b` of the frame, described from the string: the k-th character
   with a code from the right in byte 6-k (k = 1..6), and a period with k
   digits to its right in bit 0 of byte 5-k (k = 1..5).
   */
  function DigitRef(t: string, b: nat, code: char -> Byte): Byte
    requires b < DisplaySize
  {
    DigitCode(t, 5 - b, code) | Flag(b < 5 && HasMark(t, '.', 5 - b, code), 1)
  }

  /** The comma byte: a comma with one, two or three digits to its right as 0x20, 0x40 or 0x80. */
  function CommaRef(t: string, code: char -> Byte): Byte
  {
    Flag(HasMark(t, ',', 1, code), 0x20) | Flag(HasMark(t, ',', 2, code), 0x40) |
    Flag(HasMark(t, ',', 3, code), 0x80)
  }

  /** The whole frame described from the string; byte 7 is empty. */
  function Reference(t: string, code: char -> Byte): seq<Byte>
  {
    seq(FrameSize, b requires 0 <= b < FrameSize =>
      if b < DisplaySize then DigitRef(t, b, code) else if b == 6 then CommaRef(t, code) else 0)
  }

  /**
   What character `c`, met with `d` characters with a code to its right,
   adds to digit byte `b`: a period after d = 1..5 digits sets bit 0 of byte
   5-d, and a character with a code, the (d+1)-th, is ORed into byte 5-d.
   */
  function DigitMark(c: char, d: nat, b: nat, code: char -> Byte): Byte
  {
    if c == '.' && 0 < d && d + b == 5 then 1
    else if code(c) != Invalid && d + b == 5 then code(c)
    else 0
  }

  /**
   What character `c`, met with `d` characters with a code to its right, adds
   to byte 6: a comma after d = 1..3 digits sets 0x20 << (d-1).
   */
  function CommaMark(c: char, d: nat): Byte
  {
    if c == ',' && 1 <= d <= 3 then (0x20 as Byte) << (d - 1) else 0
  }

  /** The cursor of a scan that has passed `d` characters with a code. */
  predicate CursorAt(st: Scan, d: nat)
  {
    if st.stopped then d > DisplaySize else st.digit == FirstCursor - d
  }

  /** One step adds `DigitMark` to each digit byte. */
  lemma StepDigitByte(st: Scan, c: char, d: nat, b: nat, code: char -> Byte)
    requires IsCodeTable(code) && WellFormed(st) && CursorAt(st, d) && b < DisplaySize
    ensures Step(st, c, code).frame[b] == st.frame[b] | DigitMark(c, d, b, code)
  {
  }

  /** One step adds `CommaMark` to byte 6; bits shifted past bit 7 are lost. */
  lemma StepCommaByte(st: Scan, c: char, d: nat, code: char -> Byte)
    requires WellFormed(st) && CursorAt(st, d)
    ensures Step(st, c, code).frame[6] == st.frame[6] | CommaMark(c, d)
  {
    if !st.stopped && c == ',' && d > 0 {
      CommaBitIsMark(st.digit);
    }
  }

  /** The shifted comma bit is 0x20, 0x40, 0x80 for the first three digits and lost after. */
  lemma CommaBitIsMark(digit: int)
    requires 1 <= digit <= DisplaySize
    ensures CommaBit(digit) == CommaMark(',', FirstCursor - digit)
  {
    if digit == 6 {
      assert CommaBit(digit) == 0x20;
    } else if digit == 5 {
      assert CommaBit(digit) == 0x40;
    } else if digit == 4 {
      assert CommaBit(digit) == 0x80;
    } else {
      assert CommaBit(digit) == 0;
    }
  }

  /** The reference digit byte grows by `DigitMark` of the leftmost character. */
  lemma DigitRefCons(t: string, b: nat, code: char -> Byte)
    requires IsCodeTable(code) && t != [] && b < DisplaySize
    ensures DigitRef(t, b, code) == DigitRef(t[1..], b, code) | DigitMark(t[0], ValidCount(t[1..], code), b, code)
  {
    var r, d := t[1..], ValidCount(t[1..], code);
    if 5 - b >= d {
      NoDigitBeyondCount(r, 5 - b, code);
    }
  }

  /** The reference comma byte grows by `CommaMark` of the leftmost character. */
  lemma CommaRefCons(t: string, code: char -> Byte)
    requires t != []
    ensures CommaRef(t, code) == CommaRef(t[1..], code) | CommaMark(t[0], ValidCount(t[1..], code))
  {
  }

  /** Every digit byte the scan computes is the one the reference describes. */
  lemma {:induction false} ScanDigitByteMatches(t: string, b: nat, code: char -> Byte)
    requires IsCodeTable(code) && b < DisplaySize
    ensures ScanText(t, code).frame[b] == DigitRef(t, b, code)
  {
    if t != [] {
      var r := t[1..];
      ScanDigitByteMatches(r, b, code);
      ScanCount(r, code);
      StepDigitByte(ScanText(r, code), t[0], ValidCount(r, code), b, code);
      DigitRefCons(t, b, code);
    }
  }

  /** The comma byte the scan computes is the one the reference describes. */
  lemma {:induction false} ScanCommaByteMatches(t: string, code: char -> Byte)
    requires IsCodeTable(code)
    ensures ScanText(t, code).frame[6] == CommaRef(t, code)
  {
    if t != [] {
      var r := t[1..];
      ScanCommaByteMatches(r, code);
      ScanCount(r, code);
      StepCommaByte(ScanText(r, code), t[0], ValidCount(r, code), code);
      CommaRefCons(t, code);
    }
  }

  /** Byte 7 is never written. */
  lemma {:induction false} LastByteEmpty(t: string, code: char -> Byte)
    ensures ScanText(t, code).frame[7] == 0
  {
    if t != [] {
      LastByteEmpty(t[1..], code);
    }
  }

  /** The scan computes the frame the reference describes. */
  lemma ScanMatchesReference(t: string, code: char -> Byte)
    requires IsCodeTable(code)
    ensures ScanText(t, code).frame == Reference(t, code)
  {
    forall b | 0 <= b < FrameSize ensures ScanText(t, code).frame[b] == Reference(t, code)[b] {
      if b < DisplaySize {
        ScanDigitByteMatches(t, b, code);
      } else if b == 6 {
        ScanCommaByteMatches(t, code);
      } else {
        LastByteEmpty(t, code);
      }
    }
  }

  /** `Frame` is the reference frame of the visible string under `sevenSegCode`. */
  lemma FrameMatchesReference(s: string)
    ensures Frame(s) == Reference(Visible(s), SevenSegCode)
  {
    SevenSegCodeIsCodeTable();
    ScanMatchesReference(Visible(s), SevenSegCode);
  }

  /**
   The source writes before the frame exactly when the string has a period
   with six digits to its right, i.e. left of a full line.
   */
  lemma {:induction false} OutOfBoundsExactly(t: string, code: char -> Byte)
    requires IsCodeTable(code)
    ensures ScanText(t, code).outOfBounds <==> HasMark(t, '.', DisplaySize, code)
  {
    if t != [] {
      OutOfBoundsExactly(t[1..], code);
      ScanCount(t[1..], code);
    }
  }

  /** Once the scan has stopped, the characters further left change nothing. */
  lemma {:induction false} StoppedStays(t: string, j: nat, code: char -> Byte)
    requires j <= |t| && ScanText(t[j..], code).stopped
    ensures ScanText(t, code) == ScanText(t[j..], code)
  {
    if j > 0 {
      assert t[j - 1..][1..] == t[j..];
      StoppedStays(t, j - 1, code);
    }
  }

  /** Only the rightmost six characters with a code are rendered: what lies left of the seventh is dropped. */
  lemma Truncation(u: string, v: string, code: char -> Byte)
    requires IsCodeTable(code) && ValidCount(v, code) > DisplaySize
    ensures ScanText(u + v, code) == ScanText(v, code)
  {
    assert (u + v)[|u|..] == v;
    ScanCount(v, code);
    StoppedStays(u + v, |u|, code);
  }

  /**
   A character with a code that has k < 6 such characters to its right is
   shown in byte 5-k, in the upper seven bits.
   */
  lemma DigitPlacement(t: string, i: nat, code: char -> Byte)
    requires IsCodeTable(code) && i < |t| && code(t[i]) != Invalid
    requires ValidCount(t[i + 1..], code) < DisplaySize
    ensures ScanText(t, code).frame[5 - ValidCount(t[i + 1..], code)] & 0xfe == code(t[i])
  {
    ScanDigitByteMatches(t, 5 - ValidCount(t[i + 1..], code), code);
    DigitCodeAt(t, i, code);
  }

  /** A digit byte with no character left to show in it holds at most a period. */
  lemma BlankDigit(t: string, b: nat, code: char -> Byte)
    requires IsCodeTable(code) && b < DisplaySize && ValidCount(t, code) <= 5 - b
    ensures ScanText(t, code).frame[b] & 0xfe == 0
  {
    ScanDigitByteMatches(t, b, code);
    NoDigitBeyondCount(t, 5 - b, code);
  }

  /**
   Bit 0 of digit byte b is a period: set iff b < 5 and a period has 5-b
   digits to its right; a period right of every digit is dropped.
   */
  lemma PeriodBit(t: string, b: nat, code: char -> Byte)
    requires IsCodeTable(code) && b < DisplaySize
    ensures ScanText(t, code).frame[b] & 1 == 1 <==> b < 5 && HasMark(t, '.', 5 - b, code)
  {
    ScanDigitByteMatches(t, b, code);
  }

  /**
   Byte 6 holds the commas after one, two and three digits in bits 5, 6, 7;
   a comma further left is lost in the shift; bits 4..0 stay clear.
   */
  lemma CommaByte(t: string, code: char -> Byte)
    requires IsCodeTable(code)
    ensures ScanText(t, code).frame[6] & 0x1f == 0
    ensures ScanText(t, code).frame[6] & 0x20 != 0 <==> HasMark(t, ',', 1, code)
    ensures ScanText(t, code).frame[6] & 0x40 != 0 <==> HasMark(t, ',', 2, code)
    ensures ScanText(t, code).frame[6] & 0x80 != 0 <==> HasMark(t, ',', 3, code)
  {
    ScanCommaByteMatches(t, code);
  }

  /** The scan of the suffix from `i` is one step on from the scan of the suffix from `i + 1`. */
  lemma ScanTextCons(t: string, i: nat, code: char -> Byte)
    requires i < |t|
    ensures ScanText(t[i..], code) == Step(ScanText(t[i + 1..], code), t[i], code)
  {
    assert t[i..][1..] == t[i + 1..];
  }

  /**
   The scan has met `digit` as its cursor, built `frame` and not stopped,
   whether or not it has met a period it could not place.
   */
  predicate Reached(st: Scan, digit: int, frame: seq<Byte>)
  {
    !st.stopped && st.digit == digit && st.frame == frame
  }

  /** A period with cursor `digit` >= 2 sets bit 0 of byte `digit` - 2. */
  lemma PeriodStep(t: string, i: nat, digit: int, frame: seq<Byte>, code: char -> Byte)
    requires i < |t| && t[i] == '.' && 2 <= digit < FirstCursor
    requires Reached(ScanText(t[i + 1..], code), digit, frame)
    ensures Reached(ScanText(t[i..], code), digit, frame[digit - 2 := frame[digit - 2] | 1])
  {
    ScanTextCons(t, i, code);
  }

  /** A period with cursor 1, left of a full line, has no byte to go to and leaves the frame as it is. */
  lemma PeriodLostStep(t: string, i: nat, frame: seq<Byte>, code: char -> Byte)
    requires i < |t| && t[i] == '.'
    requires Reached(ScanText(t[i + 1..], code), 1, frame)
    ensures Reached(ScanText(t[i..], code), 1, frame)
    ensures ScanText(t[i..], code).outOfBounds
  {
    ScanTextCons(t, i, code);
  }

  /** A comma with cursor `digit` < 7 ORs `CommaBit(digit)` into byte 6. */
  lemma CommaStep(t: string, i: nat, digit: int, frame: seq<Byte>, code: char -> Byte)
    requires i < |t| && t[i] == ',' && 1 <= digit < FirstCursor
    requires Reached(ScanText(t[i + 1..], code), digit, frame)
    ensures Reached(ScanText(t[i..], code), digit, frame[6 := frame[6] | CommaBit(digit)])
  {
    ScanTextCons(t, i, code);
  }

  /** A character without a code, not a mark the loop takes, changes nothing. */
  lemma SkipStep(t: string, i: nat, digit: int, frame: seq<Byte>, code: char -> Byte)
    requires i < |t| && code(t[i]) == Invalid && 1 <= digit <= FirstCursor
    requires (t[i] != '.' && t[i] != ',') || digit == FirstCursor
    requires Reached(ScanText(t[i + 1..], code), digit, frame)
    ensures Reached(ScanText(t[i..], code), digit, frame)
  {
    ScanTextCons(t, i, code);
  }

  /** A character with a code moves the cursor left and is ORed into byte `digit` - 2. */
  lemma CodeStep(t: string, i: nat, digit: int, frame: seq<Byte>, code: char -> Byte)
    requires i < |t| && code(t[i]) != Invalid && 2 <= digit <= FirstCursor
    requires (t[i] != '.' && t[i] != ',') || digit == FirstCursor
    requires Reached(ScanText(t[i + 1..], code), digit, frame)
    ensures Reached(ScanText(t[i..], code), digit - 1, frame[digit - 2 := frame[digit - 2] | code(t[i])])
  {
    ScanTextCons(t, i, code);
  }

  /** The seventh character with a code from the right stops the scan. */
  lemma LastCodeStep(t: string, i: nat, frame: seq<Byte>, code: char -> Byte)
    requires i < |t| && code(t[i]) != Invalid && (t[i] != '.' && t[i] != ',')
    requires Reached(ScanText(t[i + 1..], code), 1, frame)
    ensures ScanText(t[i..], code).stopped && ScanText(t[i..], code).frame == frame
  {
    ScanTextCons(t, i, code);
  }

  /**
   One turn of the loop of `h4235_SetSegments` on `displayStr[i]`, at
   cursor `digit`: returns the new cursor, or `stop` when the loop breaks.
   A period at cursor 1 is dropped instead of written before the frame.
   */
  method Turn(displayStr: string, ghost t: string, i: nat, digit: int, segmentByte: array<Byte>)
    returns (next: int, stop: bool)
    requires segmentByte.Length >= FrameSize
    requires i < |t| <= |displayStr| && t == displayStr[..|t|]
    requires 1 <= digit <= FirstCursor
    requires Reached(ScanText(t[i + 1..], SevenSegCode), digit, segmentByte[..FrameSize])
    modifies segmentByte
    ensures 1 <= next <= FirstCursor
    ensures if stop then ScanText(t[i..], SevenSegCode).stopped && ScanText(t[i..], SevenSegCode).frame == segmentByte[..FrameSize]
      else Reached(ScanText(t[i..], SevenSegCode), next, segmentByte[..FrameSize])
    ensures segmentByte[FrameSize..] == old(segmentByte[FrameSize..])
  {
    ghost var frame := segmentByte[..FrameSize];
    next, stop := digit, false;
    if displayStr[i] == '.' && digit < FirstCursor {
      if digit >= 2 {
        OrByte(segmentByte, FrameSize, digit - 2, 1);
        PeriodStep(t, i, digit, frame, SevenSegCode);
      } else {
        PeriodLostStep(t, i, frame, SevenSegCode);
      }
    } else if displayStr[i] == ',' && digit < FirstCursor {
      OrByte(segmentByte, FrameSize, 6, CommaBit(digit));
      CommaStep(t, i, digit, frame, SevenSegCode);
    } else {
      var code := SevenSegCode(displayStr[i]);
      if code != Invalid {
        next := digit - 1;
        if next < 1 {
          LastCodeStep(t, i, frame, SevenSegCode);
          next, stop := 1, true;
          return;
        }
        OrByte(segmentByte, FrameSize, next - 1, code);
        CodeStep(t, i, digit, frame, SevenSegCode);
      } else {
        SkipStep(t, i, digit, frame, SevenSegCode);
      }
    }
  }

  /**
   The scanning loop of `h4235_SetSegments` over the first `len` characters
   of `displayStr`, starting from the zeroed frame.
   */
  method ScanLoop(displayStr: string, len: nat, segmentByte: array<Byte>)
    requires len <= |displayStr| && segmentByte.Length >= FrameSize
    requires segmentByte[..FrameSize] == Start.frame
    modifies segmentByte
    ensures segmentByte[..FrameSize] == ScanText(displayStr[..len], SevenSegCode).frame
    ensures segmentByte[FrameSize..] == old(segmentByte[FrameSize..])
  {
    ghost var t := displayStr[..len];
    var digit := FirstCursor;
    var i := len as int - 1;
    assert t[i + 1..] == [];
    while i >= 0
      invariant -1 <= i < len
      invariant 1 <= digit <= FirstCursor
      invariant Reached(ScanText(t[i + 1..], SevenSegCode), digit, segmentByte[..FrameSize])
      invariant segmentByte[FrameSize..] == old(segmentByte[FrameSize..])
      decreases i
    {
      var stop;
      digit, stop := Turn(displayStr, t, i, digit, segmentByte);
      if stop {
        StoppedStays(t, i, SevenSegCode);
        return;
      }
      i := i - 1;
    }
    assert t[0..] == t;
  }

  /**
   `h4235_SetSegments`: zero the eight bytes, then scan `displayStr` right to
   left from cursor 7, ORing codes, periods and commas into `segmentByte`.
   Always returns 0. A period left of six digits, which the source writes to
   `segmentByte[-1]`, is dropped here.
   */
  method SetSegments(displayStr: string, segmentByte: array<Byte>) returns (rc: int)
    requires segmentByte.Length >= FrameSize
    modifies segmentByte
    ensures rc == 0
    ensures segmentByte[..FrameSize] == Frame(displayStr)
    ensures segmentByte[FrameSize..] == old(segmentByte[FrameSize..])
  {
    ClearFrame(segmentByte, FrameSize);
    assert segmentByte[..FrameSize] == Start.frame;
    var len := StrLen(displayStr);
    ScanLoop(displayStr, len, segmentByte);
    rc := 0;
  }
}

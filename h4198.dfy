/**
 `h4198_SetSegments`: the segment frame of the small H4198 display (four
 digits, one PCF85176 controller). Byte 0 is the rightmost digit, byte 3 the
 leftmost; bit 0 of a byte is a decimal point; byte 4 holds the three commas.
 */
module H4198 {
  import opened SevenSeg
  import opened DisplayText

  /** `displaySize`: the number of digit positions. */
  const DisplaySize := 4
  /** The number of bytes of a frame. */
  const FrameSize := 5

  /**
   The encoder's state after some suffix of the string: the count `digit` of
   supported characters met (the cursor), the frame built so far, and whether
   the scan has hit the `break`.
   */
  datatype Scan = Scan(digit: int, frame: seq<Byte>, stopped: bool)

  predicate WellFormed(st: Scan)
  {
    |st.frame| == FrameSize &&
    if st.stopped then st.digit == DisplaySize + 1 else 0 <= st.digit <= DisplaySize
  }

  const Start: Scan := Scan(0, [0, 0, 0, 0, 0], false)

  /**
   The comma bit for cursor `digit`: `0x04 >> (digit - 1)`, so the comma
   after the first three digits lands in bits 2..0 and any later one is lost.
   */
  function CommaBit(digit: int): Byte
    requires 1 <= digit <= DisplaySize
  {
    (0x04 as Byte) >> (digit - 1)
  }

  /** One turn of the right-to-left loop, on character `c`. */
  function Step(st: Scan, c: char, code: char -> Byte): (r: Scan)
    requires WellFormed(st)
    ensures WellFormed(r)
  {
    if st.stopped then st
    else if c == '.' && st.digit > 0 then
      st.(frame := st.frame[st.digit := st.frame[st.digit] | 1])
    else if c == ',' && st.digit > 0 then
      st.(frame := st.frame[4 := st.frame[4] | CommaBit(st.digit)])
    else if code(c) == Invalid then st
    else if st.digit + 1 > DisplaySize then Scan(st.digit + 1, st.frame, true)
    else Scan(st.digit + 1, st.frame[st.digit := st.frame[st.digit] | code(c)], false)
  }

  /**
   The scan of `t` from its last character to its first: `t[1..]` lies to the
   right of `t[0]`, so it is scanned first.
   */
  function ScanText(t: string, code: char -> Byte): (r: Scan)
    ensures WellFormed(r)
  {
    if t == [] then Start else Step(ScanText(t[1..], code), t[0], code)
  }

  /**
   The scan stops exactly when the string has more than four characters with a
   code; until then the cursor has moved once for each of them.
   */
  lemma {:induction false} ScanCount(t: string, code: char -> Byte)
    requires IsCodeTable(code)
    ensures ScanText(t, code).stopped <==> ValidCount(t, code) > DisplaySize
    ensures !ScanText(t, code).stopped ==> ScanText(t, code).digit == ValidCount(t, code)
  {
    if t != [] {
      ScanCount(t[1..], code);
    }
  }

  /** The frame `h4198_SetSegments` leaves in `segmentByte` for the string `s`. */
  function Frame(s: string): seq<Byte>
  {
    ScanText(Visible(s), SevenSegCode).frame
  }

  /**
   Digit byte `b` of the frame, described from the string: the k-th character
   with a code from the right in byte k-1 (k = 1..4), and a period with k
   digits to its right in bit 0 of byte k (k = 1..3).
   */
  function DigitRef(t: string, b: nat, code: char -> Byte): Byte
    requires b < DisplaySize
  {
    DigitCode(t, b, code) | Flag(b > 0 && HasMark(t, '.', b, code), 1)
  }

  /**
   Byte 4 described from the string: a comma with k digits to its right as
   0x04 >> (k-1) (k = 1..3), and a period with four digits to its right in bit 0.
   */
  function CommaRef(t: string, code: char -> Byte): Byte
  {
    Flag(HasMark(t, ',', 1, code), 0x04) | Flag(HasMark(t, ',', 2, code), 0x02) |
    Flag(HasMark(t, ',', 3, code), 0x01) | Flag(HasMark(t, '.', 4, code), 0x01)
  }

  /** The whole frame described from the string. */
  function Reference(t: string, code: char -> Byte): seq<Byte>
  {
    seq(FrameSize, b requires 0 <= b < FrameSize =>
      if b < DisplaySize then DigitRef(t, b, code) else CommaRef(t, code))
  }

  /**
   What character `c`, met with `d` characters with a code to its right,
   adds to digit byte `b`: a period after d > 0 digits sets bit 0 of byte d,
   and a character with a code, the (d+1)-th, is ORed into byte d.
   */
  function DigitMark(c: char, d: nat, b: nat, code: char -> Byte): Byte
  {
    if c == '.' && 0 < d == b then 1
    else if code(c) != Invalid && d == b then code(c)
    else 0
  }

  /**
   What character `c`, met with `d` characters with a code to its right, adds
   to byte 4: a comma after d = 1..3 digits sets 0x04 >> (d-1), a period after
   four digits sets bit 0.
   */
  function CommaMark(c: char, d: nat): Byte
  {
    if c == ',' && 0 < d <= 3 then 0x04 >> (d - 1)
    else if c == '.' && d == DisplaySize then 1
    else 0
  }

  /** The cursor of a scan that has passed `d` characters with a code. */
  predicate CursorAt(st: Scan, d: nat)
  {
    if st.stopped then d > DisplaySize else st.digit == d
  }

  /** One step adds `DigitMark` to each digit byte. */
  lemma StepDigitByte(st: Scan, c: char, d: nat, b: nat, code: char -> Byte)
    requires IsCodeTable(code) && WellFormed(st) && CursorAt(st, d) && b < DisplaySize
    ensures Step(st, c, code).frame[b] == st.frame[b] | DigitMark(c, d, b, code)
  {
  }

  /** One step adds `CommaMark` to byte 4. */
  lemma StepCommaByte(st: Scan, c: char, d: nat, code: char -> Byte)
    requires WellFormed(st) && CursorAt(st, d)
    ensures Step(st, c, code).frame[4] == st.frame[4] | CommaMark(c, d)
  {
    if !st.stopped && c == ',' && d > 0 {
      CommaBitIsMark(st.digit);
    }
  }

  /** The shifted comma bit is 0x04, 0x02, 0x01 for the first three digits and lost after. */
  lemma CommaBitIsMark(digit: int)
    requires 1 <= digit <= DisplaySize
    ensures CommaBit(digit) == CommaMark(',', digit)
  {
    if digit == 1 {
      assert CommaBit(digit) == 0x04;
    } else if digit == 2 {
      assert CommaBit(digit) == 0x02;
    } else if digit == 3 {
      assert CommaBit(digit) == 0x01;
    } else {
      assert CommaBit(digit) == 0;
    }
  }

  /** The reference digit byte grows by `DigitMark` of the leftmost character. */
  lemma DigitRefCons(t: string, b: nat, code: char -> Byte)
    requires IsCodeTable(code) && t != [] && b < DisplaySize
    ensures DigitRef(t, b, code) == DigitRef(t[1..], b, code) | DigitMark(t[0], ValidCount(t[1..], code), b, code)
  {
    var r, d := t[1..], ValidCount(t[1..], code);
    if b >= d {
      NoDigitBeyondCount(r, b, code);
    }
  }

  /** The reference comma byte grows by `CommaMark` of the leftmost character. */
  lemma CommaRefCons(t: string, code: char -> Byte)
    requires t != []
    ensures CommaRef(t, code) == CommaRef(t[1..], code) | CommaMark(t[0], ValidCount(t[1..], code))
  {
  }

  /** Every digit byte the scan computes is the one the reference describes. */
  lemma {:induction false} ScanDigitByteMatches(t: string, b: nat, code: char -> Byte)
    requires IsCodeTable(code) && b < DisplaySize
    ensures ScanText(t, code).frame[b] == DigitRef(t, b, code)
  {
    if t != [] {
      var r := t[1..];
      ScanDigitByteMatches(r, b, code);
      ScanCount(r, code);
      StepDigitByte(ScanText(r, code), t[0], ValidCount(r, code), b, code);
      DigitRefCons(t, b, code);
    }
  }

  /** The comma byte the scan computes is the one the reference describes. */
  lemma {:induction false} ScanCommaByteMatches(t: string, code: char -> Byte)
    requires IsCodeTable(code)
    ensures ScanText(t, code).frame[4] == CommaRef(t, code)
  {
    if t != [] {
      var r := t[1..];
      ScanCommaByteMatches(r, code);
      ScanCount(r, code);
      StepCommaByte(ScanText(r, code), t[0], ValidCount(r, code), code);
      CommaRefCons(t, code);
    }
  }

  /** The scan computes the frame the reference describes. */
  lemma ScanMatchesReference(t: string, code: char -> Byte)
    requires IsCodeTable(code)
    ensures ScanText(t, code).frame == Reference(t, code)
  {
    forall b | 0 <= b < FrameSize ensures ScanText(t, code).frame[b] == Reference(t, code)[b] {
      if b < DisplaySize { ScanDigitByteMatches(t, b, code); } else { ScanCommaByteMatches(t, code); }
    }
  }

  /** `Frame` is the reference frame of the visible string under `sevenSegCode`. */
  lemma FrameMatchesReference(s: string)
    ensures Frame(s) == Reference(Visible(s), SevenSegCode)
  {
    SevenSegCodeIsCodeTable();
    ScanMatchesReference(Visible(s), SevenSegCode);
  }

  /** The scan of the suffix from `i` is one step on from the scan of the suffix from `i + 1`. */
  lemma ScanTextCons(t: string, i: nat, code: char -> Byte)
    requires i < |t|
    ensures ScanText(t[i..], code) == Step(ScanText(t[i + 1..], code), t[i], code)
  {
    assert t[i..][1..] == t[i + 1..];
  }

  /** A period with `digit` > 0 digits to its right sets bit 0 of byte `digit`. */
  lemma PeriodStep(t: string, i: nat, digit: int, frame: seq<Byte>, code: char -> Byte)
    requires i < |t| && t[i] == '.' && 0 < digit <= DisplaySize
    requires ScanText(t[i + 1..], code) == Scan(digit, frame, false)
    ensures ScanText(t[i..], code) == Scan(digit, frame[digit := frame[digit] | 1], false)
  {
    ScanTextCons(t, i, code);
  }

  /** A comma with `digit` > 0 digits to its right sets bit 3 - `digit` of byte 4. */
  lemma CommaStep(t: string, i: nat, digit: int, frame: seq<Byte>, code: char -> Byte)
    requires i < |t| && t[i] == ',' && 0 < digit <= DisplaySize
    requires ScanText(t[i + 1..], code) == Scan(digit, frame, false)
    ensures ScanText(t[i..], code) == Scan(digit, frame[4 := frame[4] | CommaBit(digit)], false)
  {
    ScanTextCons(t, i, code);
  }

  /** A character without a code, not a mark the loop takes, changes nothing. */
  lemma SkipStep(t: string, i: nat, digit: int, frame: seq<Byte>, code: char -> Byte)
    requires i < |t| && code(t[i]) == Invalid && 0 <= digit <= DisplaySize
    requires (t[i] != '.' && t[i] != ',') || digit == 0
    requires ScanText(t[i + 1..], code) == Scan(digit, frame, false)
    ensures ScanText(t[i..], code) == Scan(digit, frame, false)
  {
    ScanTextCons(t, i, code);
  }

  /** A character with a code, the (`digit`+1)-th from the right, is ORed into byte `digit`. */
  lemma CodeStep(t: string, i: nat, digit: int, frame: seq<Byte>, code: char -> Byte)
    requires i < |t| && code(t[i]) != Invalid && 0 <= digit < DisplaySize
    requires (t[i] != '.' && t[i] != ',') || digit == 0
    requires ScanText(t[i + 1..], code) == Scan(digit, frame, false)
    ensures ScanText(t[i..], code) == Scan(digit + 1, frame[digit := frame[digit] | code(t[i])], false)
  {
    ScanTextCons(t, i, code);
  }

  /** The fifth character with a code from the right stops the scan. */
  lemma LastCodeStep(t: string, i: nat, frame: seq<Byte>, code: char -> Byte)
    requires i < |t| && code(t[i]) != Invalid && (t[i] != '.' && t[i] != ',')
    requires ScanText(t[i + 1..], code) == Scan(DisplaySize, frame, false)
    ensures ScanText(t[i..], code) == Scan(DisplaySize + 1, frame, true)
  {
    ScanTextCons(t, i, code);
  }

  /** Once the scan has stopped, the characters further left change nothing. */
  lemma {:induction false} StoppedStays(t: string, j: nat, code: char -> Byte)
    requires j <= |t| && ScanText(t[j..], code).stopped
    ensures ScanText(t, code) == ScanText(t[j..], code)
  {
    if j > 0 {
      assert t[j - 1..][1..] == t[j..];
      StoppedStays(t, j - 1, code);
    }
  }

  /** Only the rightmost four characters with a code are rendered: what lies left of the fifth is dropped. */
  lemma Truncation(u: string, v: string, code: char -> Byte)
    requires IsCodeTable(code) && ValidCount(v, code) > DisplaySize
    ensures ScanText(u + v, code) == ScanText(v, code)
  {
    assert (u + v)[|u|..] == v;
    ScanCount(v, code);
    StoppedStays(u + v, |u|, code);
  }

  /** A string without characters that have a code leaves the scan where it started. */
  lemma {:induction false} NothingToShow(w: string, code: char -> Byte)
    requires IsCodeTable(code) && ValidCount(w, code) == 0
    ensures ScanText(w, code) == Start
  {
    if w != [] {
      NothingToShow(w[1..], code);
      ScanCount(w[1..], code);
    }
  }

  /** Periods, commas and other characters without a code right of every digit are ignored. */
  lemma {:induction false} MarksBeforeDigitsIgnored(t: string, w: string, code: char -> Byte)
    requires IsCodeTable(code) && ValidCount(w, code) == 0
    ensures ScanText(t + w, code) == ScanText(t, code)
  {
    if t == [] {
      assert t + w == w;
      NothingToShow(w, code);
    } else {
      assert (t + w)[1..] == t[1..] + w;
      MarksBeforeDigitsIgnored(t[1..], w, code);
    }
  }

  /**
   A character with a code that has k < 4 such characters to its right is
   shown in byte k, in the upper seven bits.
   */
  lemma DigitPlacement(t: string, i: nat, code: char -> Byte)
    requires IsCodeTable(code) && i < |t| && code(t[i]) != Invalid
    requires ValidCount(t[i + 1..], code) < DisplaySize
    ensures ScanText(t, code).frame[ValidCount(t[i + 1..], code)] & 0xfe == code(t[i])
  {
    ScanDigitByteMatches(t, ValidCount(t[i + 1..], code), code);
    DigitCodeAt(t, i, code);
  }

  /** A digit byte with no character left to show in it holds at most a period. */
  lemma BlankDigit(t: string, b: nat, code: char -> Byte)
    requires IsCodeTable(code) && ValidCount(t, code) <= b < DisplaySize
    ensures ScanText(t, code).frame[b] & 0xfe == 0
  {
    ScanDigitByteMatches(t, b, code);
    NoDigitBeyondCount(t, b, code);
  }

  /** Bit 0 of a digit byte is a period: set in byte b (b = 1..3) iff a period has b digits to its right. */
  lemma PeriodBit(t: string, b: nat, code: char -> Byte)
    requires IsCodeTable(code) && b < DisplaySize
    ensures ScanText(t, code).frame[b] & 1 == 1 <==> b > 0 && HasMark(t, '.', b, code)
  {
    ScanDigitByteMatches(t, b, code);
  }

  /**
   Byte 4 holds the commas after one, two and three digits in bits 2, 1, 0;
   bit 0 also takes a period after four digits; bits 7..3 stay clear.
   */
  lemma CommaByte(t: string, code: char -> Byte)
    requires IsCodeTable(code)
    ensures ScanText(t, code).frame[4] & 0xf8 == 0
    ensures ScanText(t, code).frame[4] & 0x04 != 0 <==> HasMark(t, ',', 1, code)
    ensures ScanText(t, code).frame[4] & 0x02 != 0 <==> HasMark(t, ',', 2, code)
    ensures ScanText(t, code).frame[4] & 0x01 != 0 <==> HasMark(t, ',', 3, code) || HasMark(t, '.', 4, code)
  {
    ScanCommaByteMatches(t, code);
  }

  /**
   One turn of the loop of `h4198_SetSegments` on `displayStr[i]`, with
   `digit` digits placed so far: returns the new count, or `stop` when the
   loop breaks.
   */
  method Turn(displayStr: string, ghost t: string, i: nat, digit: int, segmentByte: array<Byte>)
    returns (next: int, stop: bool)
    requires segmentByte.Length >= FrameSize
    requires i < |t| <= |displayStr| && t == displayStr[..|t|]
    requires 0 <= digit <= DisplaySize
    requires ScanText(t[i + 1..], SevenSegCode) == Scan(digit, segmentByte[..FrameSize], false)
    modifies segmentByte
    ensures 0 <= next <= DisplaySize
    ensures ScanText(t[i..], SevenSegCode) == Scan(if stop then DisplaySize + 1 else next, segmentByte[..FrameSize], stop)
    ensures segmentByte[FrameSize..] == old(segmentByte[FrameSize..])
  {
    ghost var frame := segmentByte[..FrameSize];
    next, stop := digit, false;
    if displayStr[i] == '.' && digit > 0 {
      OrByte(segmentByte, FrameSize, digit, 1);
      PeriodStep(t, i, digit, frame, SevenSegCode);
    } else if displayStr[i] == ',' && digit > 0 {
      OrByte(segmentByte, FrameSize, 4, CommaBit(digit));
      CommaStep(t, i, digit, frame, SevenSegCode);
    } else {
      var code := SevenSegCode(displayStr[i]);
      if code != Invalid {
        next := digit + 1;
        if next > DisplaySize {
          LastCodeStep(t, i, frame, SevenSegCode);
          next, stop := DisplaySize, true;
          return;
        }
        OrByte(segmentByte, FrameSize, next - 1, code);
        CodeStep(t, i, digit, frame, SevenSegCode);
      } else {
        SkipStep(t, i, digit, frame, SevenSegCode);
      }
    }
  }

  /**
   The scanning loop of `h4198_SetSegments` over the first `len` characters
   of `displayStr`, starting from the zeroed frame.
   */
  method ScanLoop(displayStr: string, len: nat, segmentByte: array<Byte>)
    requires len <= |displayStr| && segmentByte.Length >= FrameSize
    requires segmentByte[..FrameSize] == Start.frame
    modifies segmentByte
    ensures segmentByte[..FrameSize] == ScanText(displayStr[..len], SevenSegCode).frame
    ensures segmentByte[FrameSize..] == old(segmentByte[FrameSize..])
  {
    ghost var t := displayStr[..len];
    var digit := 0;
    var i := len as int - 1;
    assert t[i + 1..] == [];
    while i >= 0
      invariant -1 <= i < len
      invariant 0 <= digit <= DisplaySize
      invariant ScanText(t[i + 1..], SevenSegCode) == Scan(digit, segmentByte[..FrameSize], false)
      invariant segmentByte[FrameSize..] == old(segmentByte[FrameSize..])
      decreases i
    {
      var stop;
      digit, stop := Turn(displayStr, t, i, digit, segmentByte);
      if stop {
        StoppedStays(t, i, SevenSegCode);
        return;
      }
      i := i - 1;
    }
    assert t[0..] == t;
  }

  /**
   `h4198_SetSegments`: zero the five bytes, then scan `displayStr` right to
   left, ORing codes, periods and commas into `segmentByte`. Always returns 0.
   */
  method SetSegments(displayStr: string, segmentByte: array<Byte>) returns (rc: int)
    requires segmentByte.Length >= FrameSize
    modifies segmentByte
    ensures rc == 0
    ensures segmentByte[..FrameSize] == Frame(displayStr)
    ensures segmentByte[FrameSize..] == old(segmentByte[FrameSize..])
  {
    ClearFrame(segmentByte, FrameSize);
    assert segmentByte[..FrameSize] == Start.frame;
    var len := StrLen(displayStr);
    ScanLoop(displayStr, len, segmentByte);
    rc := 0;
  }
}

/**
 The frames the encoders build for strings that the driver's own notes and
 its demo program write, worked out by the model. Each is first derived for
 any code table with the right codes, then for `sevenSegCode`.
 */
module Demo {
  import opened SevenSeg
  import opened DisplayText
  import H4198
  import H4235

  /** The codes of the digits used below. */
  lemma DigitCodes()
    ensures SevenSegCode('1') == 0x0c && SevenSegCode('2') == 0xb6 && SevenSegCode('3') == 0x9e
    ensures SevenSegCode('4') == 0xcc && SevenSegCode('5') == 0xda && SevenSegCode('6') == 0xfa
    ensures SevenSegCode('7') == 0x0e
  {
  }

  /** The codes of the letters used below. */
  lemma LetterCodes()
    ensures SevenSegCode(' ') == 0x00 && SevenSegCode('J') == 0x1c && SevenSegCode('E') == 0xf2
    ensures SevenSegCode('T') == 0xf0 && SevenSegCode('A') == 0xee
  {
  }

  /** "4321" on an H4198, for any table with these codes. */
  lemma Scan4321(code: char -> Byte)
    requires code('1') == 0x0c && code('2') == 0xb6 && code('3') == 0x9e && code('4') == 0xcc
    ensures H4198.ScanText("4321", code).frame == [0x0c, 0xb6, 0x9e, 0xcc, 0x00]
  {
    var s := "4321";
    assert s[3..] == "1" && s[2..] == "21" && s[1..] == "321";
    assert H4198.ScanText("1", code) == H4198.Scan(1, [0x0c, 0, 0, 0, 0], false);
    assert H4198.ScanText("21", code) == H4198.Scan(2, [0x0c, 0xb6, 0, 0, 0], false);
    assert H4198.ScanText("321", code) == H4198.Scan(3, [0x0c, 0xb6, 0x9e, 0, 0], false);
  }

  /** "4321" lights '1' in byte 0 up to '4' in byte 3, with no punctuation. */
  lemma Small4321(s: string)
    requires s == "4321"
    ensures H4198.Frame(s) == [0x0c, 0xb6, 0x9e, 0xcc, 0x00]
  {
    assert Visible(s) == s;
    DigitCodes();
    Scan4321(SevenSegCode);
  }

  /** "3.652" on an H4198, for any table with these codes. */
  lemma ScanPrice(code: char -> Byte)
    requires code('.') == Invalid
    requires code('2') == 0xb6 && code('3') == 0x9e && code('5') == 0xda && code('6') == 0xfa
    ensures H4198.ScanText("3.652", code).frame == [0xb6, 0xda, 0xfa, 0x9f, 0x00]
  {
    var s := "3.652";
    assert s[4..] == "2" && s[3..] == "52" && s[2..] == "652" && s[1..] == ".652";
    assert H4198.ScanText("2", code) == H4198.Scan(1, [0xb6, 0, 0, 0, 0], false);
    assert H4198.ScanText("52", code) == H4198.Scan(2, [0xb6, 0xda, 0, 0, 0], false);
    assert H4198.ScanText("652", code) == H4198.Scan(3, [0xb6, 0xda, 0xfa, 0, 0], false);
    assert H4198.ScanText(".652", code) == H4198.Scan(3, [0xb6, 0xda, 0xfa, 0x01, 0], false);
  }

  /** "3.652": the period after three digits lights bit 0 of byte 3, beside the '3'. */
  lemma SmallPrice(s: string)
    requires s == "3.652"
    ensures H4198.Frame(s) == [0xb6, 0xda, 0xfa, 0x9f, 0x00]
  {
    assert Visible(s) == s;
    DigitCodes();
    Unsupported('.');
    ScanPrice(SevenSegCode);
  }

  /** "777,7" and "7777," on an H4198, for any table with these codes. */
  lemma ScanCommas(code: char -> Byte)
    requires code(',') == Invalid && code('7') == 0x0e
    ensures H4198.ScanText("777,7", code).frame == [0x0e, 0x0e, 0x0e, 0x0e, 0x04]
    ensures H4198.ScanText("7777,", code).frame == [0x0e, 0x0e, 0x0e, 0x0e, 0x00]
  {
    var s := "777,7";
    assert s[4..] == "7" && s[3..] == ",7" && s[2..] == "7,7" && s[1..] == "77,7";
    assert H4198.ScanText("7", code) == H4198.Scan(1, [0x0e, 0, 0, 0, 0], false);
    assert H4198.ScanText(",7", code) == H4198.Scan(1, [0x0e, 0, 0, 0, 0x04], false);
    assert H4198.ScanText("7,7", code) == H4198.Scan(2, [0x0e, 0x0e, 0, 0, 0x04], false);
    assert H4198.ScanText("77,7", code) == H4198.Scan(3, [0x0e, 0x0e, 0x0e, 0, 0x04], false);
    var u := "7777,";
    assert u[4..] == "," && u[3..] == "7," && u[2..] == "77," && u[1..] == "777,";
    assert H4198.ScanText(",", code) == H4198.Start;
    assert H4198.ScanText("7,", code) == H4198.Scan(1, [0x0e, 0, 0, 0, 0], false);
    assert H4198.ScanText("77,", code) == H4198.Scan(2, [0x0e, 0x0e, 0, 0, 0], false);
    assert H4198.ScanText("777,", code) == H4198.Scan(3, [0x0e, 0x0e, 0x0e, 0, 0], false);
  }

  /**
   "777,7" puts the comma after the first digit into byte 4 as 0x04;
   "7777," has its comma before any digit, and it is dropped.
   */
  lemma SmallCommas(s: string, u: string)
    requires s == "777,7" && u == "7777,"
    ensures H4198.Frame(s) == [0x0e, 0x0e, 0x0e, 0x0e, 0x04]
    ensures H4198.Frame(u) == [0x0e, 0x0e, 0x0e, 0x0e, 0x00]
  {
    assert Visible(s) == s && Visible(u) == u;
    DigitCodes();
    Unsupported(',');
    ScanCommas(SevenSegCode);
  }

  /** "11111,1" on the H4235, for any table with these codes. */
  lemma ScanLargeComma(code: char -> Byte)
    requires code(',') == Invalid && code('1') == 0x0c
    ensures H4235.ScanText("11111,1", code).frame == [0x0c, 0x0c, 0x0c, 0x0c, 0x0c, 0x0c, 0x20, 0x00]
  {
    var s := "11111,1";
    assert s[6..] == "1" && s[5..] == ",1" && s[4..] == "1,1" && s[3..] == "11,1";
    assert s[2..] == "111,1" && s[1..] == "1111,1";
    assert H4235.ScanText("1", code) == H4235.Scan(6, [0, 0, 0, 0, 0, 0x0c, 0, 0], false, false);
    assert H4235.ScanText(",1", code) == H4235.Scan(6, [0, 0, 0, 0, 0, 0x0c, 0x20, 0], false, false);
    assert H4235.ScanText("1,1", code) == H4235.Scan(5, [0, 0, 0, 0, 0x0c, 0x0c, 0x20, 0], false, false);
    assert H4235.ScanText("11,1", code) == H4235.Scan(4, [0, 0, 0, 0x0c, 0x0c, 0x0c, 0x20, 0], false, false);
    assert H4235.ScanText("111,1", code) == H4235.Scan(3, [0, 0, 0x0c, 0x0c, 0x0c, 0x0c, 0x20, 0], false, false);
    assert H4235.ScanText("1111,1", code) == H4235.Scan(2, [0, 0x0c, 0x0c, 0x0c, 0x0c, 0x0c, 0x20, 0], false, false);
  }

  /** "11111,1": the comma after the rightmost digit is 0x20 in byte 6; the digits fill bytes 5 down to 0. */
  lemma LargeComma(s: string)
    requires s == "11111,1"
    ensures H4235.Frame(s) == [0x0c, 0x0c, 0x0c, 0x0c, 0x0c, 0x0c, 0x20, 0x00]
  {
    assert Visible(s) == s;
    DigitCodes();
    Unsupported(',');
    ScanLargeComma(SevenSegCode);
  }

  /** " JET A" on the H4235, for any table with these codes. */
  lemma ScanJetA(code: char -> Byte)
    requires code(' ') == 0x00 && code('J') == 0x1c && code('E') == 0xf2 && code('T') == 0xf0 && code('A') == 0xee
    ensures H4235.ScanText(" JET A", code).frame == [0x00, 0x1c, 0xf2, 0xf0, 0x00, 0xee, 0x00, 0x00]
  {
    var s := " JET A";
    assert s[5..] == "A" && s[4..] == " A" && s[3..] == "T A" && s[2..] == "ET A" && s[1..] == "JET A";
    assert H4235.ScanText("A", code) == H4235.Scan(6, [0, 0, 0, 0, 0, 0xee, 0, 0], false, false);
    assert H4235.ScanText(" A", code) == H4235.Scan(5, [0, 0, 0, 0, 0, 0xee, 0, 0], false, false);
    assert H4235.ScanText("T A", code) == H4235.Scan(4, [0, 0, 0, 0xf0, 0, 0xee, 0, 0], false, false);
    assert H4235.ScanText("ET A", code) == H4235.Scan(3, [0, 0, 0xf2, 0xf0, 0, 0xee, 0, 0], false, false);
    assert H4235.ScanText("JET A", code) == H4235.Scan(2, [0, 0x1c, 0xf2, 0xf0, 0, 0xee, 0, 0], false, false);
  }

  /** " JET A": each space takes a digit place of its own and leaves it dark. */
  lemma LargeJetA(s: string)
    requires s == " JET A"
    ensures H4235.Frame(s) == [0x00, 0x1c, 0xf2, 0xf0, 0x00, 0xee, 0x00, 0x00]
  {
    assert Visible(s) == s;
    LetterCodes();
    ScanJetA(SevenSegCode);
  }

  /** "111111" on the H4235, for any table with this code: a full line, cursor at 1. */
  lemma ScanSixOnes(code: char -> Byte)
    requires code('1') == 0x0c
    ensures H4235.ScanText("111111", code) == H4235.Scan(1, [0x0c, 0x0c, 0x0c, 0x0c, 0x0c, 0x0c, 0, 0], false, false)
  {
    var s := "111111";
    assert s[5..] == "1" && s[4..] == "11" && s[3..] == "111" && s[2..] == "1111" && s[1..] == "11111";
    assert H4235.ScanText("1", code) == H4235.Scan(6, [0, 0, 0, 0, 0, 0x0c, 0, 0], false, false);
    assert H4235.ScanText("11", code) == H4235.Scan(5, [0, 0, 0, 0, 0x0c, 0x0c, 0, 0], false, false);
    assert H4235.ScanText("111", code) == H4235.Scan(4, [0, 0, 0, 0x0c, 0x0c, 0x0c, 0, 0], false, false);
    assert H4235.ScanText("1111", code) == H4235.Scan(3, [0, 0, 0x0c, 0x0c, 0x0c, 0x0c, 0, 0], false, false);
    assert H4235.ScanText("11111", code) == H4235.Scan(2, [0, 0x0c, 0x0c, 0x0c, 0x0c, 0x0c, 0, 0], false, false);
  }

  /** ".111111" on the H4235, for any table with these codes: the period meets cursor 1. */
  lemma ScanOverflowPeriod(code: char -> Byte)
    requires code('.') == Invalid && code('1') == 0x0c
    ensures H4235.ScanText(".111111", code).outOfBounds
    ensures H4235.ScanText(".111111", code).frame == [0x0c, 0x0c, 0x0c, 0x0c, 0x0c, 0x0c, 0x00, 0x00]
  {
    var s := ".111111";
    assert s[1..] == "111111";
    ScanSixOnes(code);
  }

  /**
   ".111111": `h4235_SetSegments` as written reaches the period with cursor 1
   and writes one byte before the frame; the frame itself shows the six digits
   without the period.
   */
  lemma OverflowPeriod(s: string)
    requires s == ".111111"
    ensures H4235.ScanText(Visible(s), SevenSegCode).outOfBounds
    ensures H4235.Frame(s) == [0x0c, 0x0c, 0x0c, 0x0c, 0x0c, 0x0c, 0x00, 0x00]
  {
    assert Visible(s) == s;
    DigitCodes();
    Unsupported('.');
    ScanOverflowPeriod(SevenSegCode);
  }
}

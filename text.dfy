/**
 What the two segment encoders read of a display string: the C string up
 to its terminator, its characters that have a code counted and listed from
 the right, and where its periods and commas stand relative to them.

 The encoders are specified over any character code table `code` that has
 the properties of `sevenSegCode` they rely on (`IsCodeTable`); the frames
 the driver builds use `sevenSegCode` itself.
 */
module DisplayText {
  import opened SevenSeg

  /** `strlen`: the length of the C string held in `s`, up to its first NUL. */
  function StrLen(s: string): (n: nat)
    ensures n <= |s|
    ensures forall i :: 0 <= i < n ==> s[i] != '\0'
    ensures n < |s| ==> s[n] == '\0'
  {
    if s == [] || s[0] == '\0' then 0 else 1 + StrLen(s[1..])
  }

  /** The characters of the C string held in `s`. */
  function Visible(s: string): string
  {
    s[..StrLen(s)]
  }

  /**
   What the encoders rely on in a code table: periods and commas have no
   code, and every real code leaves bit 0 (the decimal point) clear.
   */
  ghost predicate IsCodeTable(code: char -> Byte)
  {
    code('.') == Invalid && code(',') == Invalid &&
    forall c :: code(c) != Invalid ==> code(c) & 1 == 0
  }

  /** `sevenSegCode` is such a table. */
  lemma SevenSegCodeIsCodeTable()
    ensures IsCodeTable(SevenSegCode)
  {
    Unsupported('.');
    Unsupported(',');
  }

  /** The zeroing loop at the head of both encoders: `for(i=0; i<n; i++) a[i] = 0;`. */
  method ClearFrame(a: array<Byte>, n: nat)
    requires n <= a.Length
    modifies a
    ensures a[..n] == seq(n, _ => 0)
    ensures a[n..] == old(a[n..])
  {
    for i := 0 to n
      invariant a[..i] == seq(i, _ => 0)
      invariant a[n..] == old(a[n..])
    {
      a[i] := 0;
      assert a[..i + 1] == a[..i] + [0];
    }
  }

  /** `a[k] |= v` on an array whose first `n` bytes are a frame. */
  method OrByte(a: array<Byte>, n: nat, k: int, v: Byte)
    requires 0 <= k < n <= a.Length
    modifies a
    ensures a[..n] == old(a[..n])[k := old(a[k]) | v]
    ensures a[n..] == old(a[n..])
  {
    a[k] := a[k] | v;
    assert a[..n] == old(a[..n])[k := old(a[k]) | v];
  }

  /** The number of characters of `t` that have a code. */
  function ValidCount(t: string, code: char -> Byte): nat
  {
    if t == [] then 0 else ValidCount(t[1..], code) + (if code(t[0]) != Invalid then 1 else 0)
  }

  /**
   The code of the (k+1)-th character with a code, counted from the right end
   of `t`, or 0 when `t` has no more than k of them.
   */
  function DigitCode(t: string, k: nat, code: char -> Byte): (r: Byte)
    ensures r != Invalid
    ensures IsCodeTable(code) ==> r & 1 == 0
  {
    if t == [] then 0
    else if k < ValidCount(t[1..], code) then DigitCode(t[1..], k, code)
    else if k == ValidCount(t[1..], code) && code(t[0]) != Invalid then code(t[0])
    else 0
  }

  /** A character with a code and k such characters to its right is the (k+1)-th from the right. */
  lemma {:induction false} DigitCodeAt(t: string, i: nat, code: char -> Byte)
    requires i < |t| && code(t[i]) != Invalid
    ensures DigitCode(t, ValidCount(t[i + 1..], code), code) == code(t[i])
  {
    if i > 0 {
      assert t[1..][i - 1] == t[i] && t[1..][i..] == t[i + 1..];
      DigitCodeAt(t[1..], i - 1, code);
      assert t[i..][1..] == t[i + 1..];
      CountOfSuffix(t, i, code);
    }
  }

  /** A suffix of `t[1..]` has no more characters with a code than `t[1..]`. */
  lemma {:induction false} CountOfSuffix(t: string, j: nat, code: char -> Byte)
    requires 1 <= j <= |t|
    ensures ValidCount(t[j..], code) <= ValidCount(t[1..], code)
  {
    if j > 1 {
      assert t[1..][j - 1..] == t[j..];
      if |t| > 1 {
        CountOfSuffix(t[1..], j - 1, code);
      }
    }
  }

  /** Past the number of characters with a code there is no digit. */
  lemma {:induction false} NoDigitBeyondCount(t: string, k: nat, code: char -> Byte)
    requires k >= ValidCount(t, code)
    ensures DigitCode(t, k, code) == 0
  {
    if t != [] {
      NoDigitBeyondCount(t[1..], k, code);
    }
  }

  /** `mask` when `b` holds, else no bit. */
  function Flag(b: bool, mask: Byte): Byte
  {
    if b then mask else 0
  }

  /**
   `t` holds the mark `p` at a position that has exactly `k` characters with
   a code to its right.
   */
  predicate HasMark(t: string, p: char, k: nat, code: char -> Byte)
  {
    t != [] && ((t[0] == p && ValidCount(t[1..], code) == k) || HasMark(t[1..], p, k, code))
  }

  /** `HasMark` says what its name says: some position holds `p` with `k` codes to its right. */
  lemma {:induction false} HasMarkAt(t: string, p: char, k: nat, code: char -> Byte)
    ensures HasMark(t, p, k, code) <==>
      exists i :: 0 <= i < |t| && t[i] == p && ValidCount(t[i + 1..], code) == k
  {
    if t != [] {
      var r := t[1..];
      HasMarkAt(r, p, k, code);
      if HasMark(r, p, k, code) {
        var i :| 0 <= i < |r| && r[i] == p && ValidCount(r[i + 1..], code) == k;
        assert t[i + 1] == r[i] && t[i + 2..] == r[i + 1..];
      }
      if exists i :: 0 <= i < |t| && t[i] == p && ValidCount(t[i + 1..], code) == k {
        var i :| 0 <= i < |t| && t[i] == p && ValidCount(t[i + 1..], code) == k;
        if i > 0 {
          assert r[i - 1] == t[i] && r[i..] == t[i + 1..];
        }
      }
    }
  }
}

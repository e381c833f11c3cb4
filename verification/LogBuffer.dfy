/**
  The bounded log buffer: it grows up to a limit, and at the limit keeps the beginning of the
  text with its end overwritten by the truncation mark.
 */
module LogBuffer {
  import opened Wrappers

  // ------------------------------------------------------------- the bounded text

  /** The text with its end overwritten by the mark. */
  function Stamp(text: string, mark: string): (r: string)
    ensures |r| == |text|
  {
    if |mark| <= |text| then text[..|text| - |mark|] + mark else mark[..|text|]
  }

  predicate Fits(n: nat, sizeMax: nat) {
    sizeMax == 0 || n <= sizeMax - 1
  }

  /** What a buffer of at most sizeMax bytes holds of the text; no limit when sizeMax is 0. */
  function Clip(text: string, sizeMax: nat, mark: string): string {
    if Fits(|text|, sizeMax) then text else Stamp(text[..sizeMax - 1], mark)
  }

  /** Text that fits is kept; of text that does not, the first sizeMax - 1 bytes are kept but for the
      last ones, which are the mark; of a mark that is longer than that, only its beginning is there. */
  lemma {:induction false} ClipSpec(text: string, sizeMax: nat, mark: string)
    ensures var r, n := Clip(text, sizeMax, mark), sizeMax - 1;
            if sizeMax == 0 || |text| < sizeMax then r == text
            else if |mark| <= n then |r| == n && r[..n - |mark|] == text[..n - |mark|] && r[n - |mark|..] == mark
            else r == mark[..n]
  {
  }

  lemma {:induction false} StampTwice(text: string, mark: string)
    ensures Stamp(Stamp(text, mark), mark) == Stamp(text, mark)
  {
  }

  /** One append, as the buffer makes it: what fits, and at the limit what is left, stamped. */
  function Keep(had: string, x: string, sizeMax: nat, mark: string): (r: string)
    requires Fits(|had|, sizeMax)
    ensures Fits(|r|, sizeMax)
  {
    if Fits(|had| + |x|, sizeMax) then had + x else Stamp(had + x[..sizeMax - 1 - |had|], mark)
  }

  /** The buffer need not remember what it has clipped: appending to the clipped text and
      clipping again is clipping the whole. */
  lemma {:induction false} ClipAppend(text: string, x: string, sizeMax: nat, mark: string)
    ensures Clip(text + x, sizeMax, mark) ==
            Keep(Clip(text, sizeMax, mark), x, sizeMax, mark)
  {
    var had := Clip(text, sizeMax, mark);
    if Fits(|text|, sizeMax) {
      if !Fits(|text| + |x|, sizeMax) {
        assert (text + x)[..sizeMax - 1] == text + x[..sizeMax - 1 - |text|];
      }
    } else if x == "" {
      assert text + x == text && had + x == had;
    } else {
      assert (text + x)[..sizeMax - 1] == text[..sizeMax - 1];
      assert had + x[..0] == had;
      StampTwice(text[..sizeMax - 1], mark);
    }
  }

  /** Once text has been lost, nothing that is appended changes the buffer. */
  lemma {:induction false} ClipSaturates(text: string, x: string, sizeMax: nat, mark: string)
    requires !Fits(|text|, sizeMax)
    ensures Clip(text + x, sizeMax, mark) == Clip(text, sizeMax, mark)
  {
    assert (text + x)[..sizeMax - 1] == text[..sizeMax - 1];
  }

  /** The first n pieces in a row. */
  function Joined(pieces: seq<string>, n: nat): string
    requires n <= |pieces|
  {
    if n == 0 then "" else Joined(pieces, n - 1) + pieces[n - 1]
  }

  /** What a buffer holds after it has kept n pieces one by one. */
  function Held(pieces: seq<string>, n: nat, sizeMax: nat, mark: string): (r: string)
    requires n <= |pieces|
    ensures Fits(|r|, sizeMax)
  {
    if n == 0 then "" else Keep(Held(pieces, n - 1, sizeMax, mark), pieces[n - 1], sizeMax, mark)
  }

  /** Over every sequence of appends: the whole text, or its beginning under the mark. */
  lemma {:induction false} RunClips(pieces: seq<string>, n: nat, sizeMax: nat, mark: string)
    requires n <= |pieces|
    ensures Held(pieces, n, sizeMax, mark) == Clip(Joined(pieces, n), sizeMax, mark)
  {
    hide Keep, Clip;
    if n == 0 {
      ClipNothing(sizeMax, mark);
    } else {
      RunClips(pieces, n - 1, sizeMax, mark);
      ClipAppend(Joined(pieces, n - 1), pieces[n - 1], sizeMax, mark);
    }
  }

  lemma {:induction false} ClipNothing(sizeMax: nat, mark: string)
    ensures Clip("", sizeMax, mark) == ""
  {
  }

  // ------------------------------------------------------------- numbers and padding

  function Repeat(c: char, n: nat): (r: string)
    ensures |r| == n && forall i :: 0 <= i < n ==> r[i] == c
  {
    seq(n, _ => c)
  }

  /** Decimal or hexadecimal. */
  type Base = b: nat | b == 10 || b == 16 witness 10

  const HEX: string := "0123456789abcdef"

  function Digit(k: nat): char
    requires k < 16
  {
    HEX[k]
  }

  lemma {:induction false} DivMod(n: nat, base: Base)
    ensures n == n / base * base + n % base && 0 <= n % base < base <= 16
    ensures if n >= base then 0 < n / base < n else n / base == 0
  {
    if base == 10 {
    } else {
    }
  }

  /** The digits of n, without leading zeros. */
  function Digits(n: nat, base: Base): (r: string)
    ensures |r| > 0
  {
    DivMod(n, base);
    (if n < base then "" else Digits(n / base, base)) + [Digit(n % base)]
  }

  function DigitValue(c: char): nat {
    if '0' <= c <= '9' then c as int - '0' as int
    else if 'a' <= c <= 'f' then c as int - 'a' as int + 10
    else 0
  }

  /** The number that digits stand for. */
  function Value(s: string, base: Base): nat {
    if s == "" then 0 else Value(s[..|s| - 1], base) * base + DigitValue(s[|s| - 1])
  }

  /** Zeros in front, up to the width. */
  function ZeroPadded(digits: string, width: nat): string {
    if width > |digits| then Repeat('0', width - |digits|) + digits else digits
  }

  lemma {:induction false} HexDigit(k: nat)
    requires k < 16
    ensures DigitValue(Digit(k)) == k
  {
  }

  lemma {:induction false} ValueOfNothing(base: Base)
    ensures Value("", base) == 0
  {
  }

  lemma {:induction false} ValueOfLonger(s: string, c: char, base: Base)
    ensures Value(s + [c], base) == Value(s, base) * base + DigitValue(c)
  {
    assert (s + [c])[..|s|] == s;
  }

  lemma {:induction false} DigitsReadBack(n: nat, base: Base)
    ensures Value(Digits(n, base), base) == n
  {
    hide DigitValue, Value;
    DivMod(n, base);
    var q, r := n / base, n % base;
    var front := if n < base then "" else Digits(q, base);
    assert Digits(n, base) == front + [Digit(r)];
    HexDigit(r);
    ValueOfLonger(front, Digit(r), base);
    assert Value(front, base) == q by {
      if n < base {
        ValueOfNothing(base);
      } else {
        DigitsReadBack(q, base);
      }
    }
  }

  lemma {:induction false} LeadingZeros(k: nat, s: string, base: Base)
    ensures Value(Repeat('0', k) + s, base) == Value(s, base)
  {
    var z := Repeat('0', k);
    if s != "" {
      LeadingZeros(k, s[..|s| - 1], base);
      assert (z + s)[..k + |s| - 1] == z + s[..|s| - 1];
    } else if k > 0 {
      LeadingZeros(k - 1, s, base);
      assert z + s == z && z[..k - 1] == Repeat('0', k - 1) + s;
    }
  }

  /** A printed number reads back as the number, whatever the width. */
  lemma {:induction false} PaddedReadsBack(n: nat, base: Base, width: nat)
    ensures var text := ZeroPadded(Digits(n, base), width);
            && Value(text, base) == n
            && |text| == if width > |Digits(n, base)| then width else |Digits(n, base)|
  {
    hide Digits, Value, Repeat;
    DigitsReadBack(n, base);
    if width > |Digits(n, base)| {
      LeadingZeros(width - |Digits(n, base)|, Digits(n, base), base);
    }
  }

  /** Zeros and digits, as many as are written, are the beginning of the padded text. */
  lemma {:induction false} ZeroPaddedIsLaid(digits: string, width: nat, zero: nat, num: nat)
    requires num <= |digits|
    requires var all := if width > |digits| then width - |digits| else 0;
             zero == all || (zero < all && num == 0)
    ensures var piece := ZeroPadded(digits, width);
            && |piece| == (if width > |digits| then width else |digits|)
            && Laid(digits[..num], zero, false, '0') == piece[..zero + num]
            && (zero + num == |piece| ==> piece[..zero + num] == piece)
  {
  }

  function Power(base: nat, k: nat): nat {
    if k == 0 then 1 else base * Power(base, k - 1)
  }

  lemma {:induction false} DigitCount(n: nat, base: Base, k: nat)
    requires k > 0 && n < Power(base, k)
    ensures |Digits(n, base)| <= k
  {
    if n >= base {
      DivMod(n, base);
      assert k > 1;
      assert n / base < Power(base, k - 1) by {
        DivideBelow(n, base, Power(base, k - 1));
      }
      DigitCount(n / base, base, k - 1);
    }
  }

  lemma {:induction false} DivideBelow(n: nat, base: Base, m: nat)
    requires n < base * m
    ensures n / base < m
  {
    assert base * (n / base) <= n;
    assert base * (n / base - m) < 0;
  }

  /** The source and its padding. */
  function Laid(source: string, space: nat, leftAdjust: bool, pad: char): (r: string)
    ensures |r| == |source| + space
  {
    if leftAdjust then source + Repeat(' ', space) else Repeat(pad, space) + source
  }

  /** How much of the source, and of its padding, n bytes take. */
  function Cut(source: nat, space: nat, leftAdjust: bool, n: nat): (r: (nat, nat))
    requires n <= source + space
    ensures r.0 + r.1 == n && r.0 <= source
  {
    if leftAdjust then if source < n then (source, n - source) else (n, 0)
    else if space < n then (n - space, space) else (0, n)
  }

  lemma {:induction false} LaidPrefix(s: string, source: nat, space: nat, leftAdjust: bool, pad: char, n: nat)
    requires source <= |s| && n <= source + space
    ensures var cut := Cut(source, space, leftAdjust, n);
            Laid(s[..source], space, leftAdjust, pad)[..n] == Laid(s[..cut.0], cut.1, leftAdjust, pad)
  {
  }

  /** How many characters are taken; an outWidth of 0 is no limit. */
  function Taken(n: nat, outWidth: nat): nat {
    if outWidth == 0 || n < outWidth then n else outWidth
  }

  function Space(taken: nat, inWidth: nat): nat {
    if inWidth == 0 || taken >= inWidth then 0 else inWidth - taken
  }

  /** Cut to outWidth, then padded to inWidth on the left or on the right. */
  function Adjusted(s: string, leftAdjust: bool, zeroPad: bool, inWidth: nat, outWidth: nat): string {
    var taken := Taken(|s|, outWidth);
    Laid(s[..taken], Space(taken, inWidth), leftAdjust, if zeroPad then '0' else ' ')
  }

  /** Padding never loses a character of the source, and gives exactly the width asked for; it is made of
      zeros only on the left. */
  lemma {:induction false} AdjustedHolds(s: string, leftAdjust: bool, zeroPad: bool, inWidth: nat, outWidth: nat)
    ensures var r := Adjusted(s, leftAdjust, zeroPad, inWidth, outWidth);
            var n := if outWidth == 0 || |s| < outWidth then |s| else outWidth;
            && |r| == (if n < inWidth then inWidth else n)
            && (if leftAdjust then r[..n] else r[|r| - n..]) == s[..n]
            && (leftAdjust ==> forall k :: n <= k < |r| ==> r[k] == ' ')
            && (!leftAdjust ==> forall k :: 0 <= k < |r| - n ==> r[k] == if zeroPad then '0' else ' ')
  {
  }

  // ------------------------------------------------------------- the buffer

  class Buf {
    /** The bytes up to end_plus_1; its length is size_real. */
    var start: array<char>
    var tail: nat
    const sizeMax: nat
    const mark: string
    /** All that was appended since the last restart. */
    ghost var ideal: string

    ghost predicate Valid()
      reads this, start
    {
      && tail < start.Length && (sizeMax == 0 || start.Length <= sizeMax)
      && |mark| <= MAXLEN_PATH
      && start[..tail] == Clip(ideal, sizeMax, mark)
    }

    constructor (sizeMin: nat, sizeMax: nat, mark: string)
      requires sizeMin > 0 && (sizeMax == 0 || sizeMin <= sizeMax) && |mark| <= MAXLEN_PATH
      ensures Valid() && fresh(start) && ideal == "" && start.Length == sizeMin
      ensures this.sizeMax == sizeMax && this.mark == mark
    {
      start := new char[sizeMin](_ => '\0');
      tail := 0;
      this.sizeMax, this.mark, ideal := sizeMax, mark, "";
    }

    /** zlog_buf_new, which refuses an empty buffer, crossed limits and a mark that is too long. */
    static method Create(sizeMin: nat, sizeMax: nat, mark: string) returns (buf: Buf?)
      ensures buf == null <==> sizeMin == 0 || (sizeMax != 0 && sizeMax < sizeMin) || |mark| > MAXLEN_PATH
      ensures buf != null ==> buf.Valid() && fresh(buf) && fresh(buf.start) && buf.ideal == ""
      ensures buf != null ==> buf.sizeMax == sizeMax && buf.mark == mark && buf.start.Length == sizeMin
    {
      if sizeMin == 0 || (sizeMax != 0 && sizeMax < sizeMin) || |mark| > MAXLEN_PATH {
        return null;
      }
      buf := new Buf(sizeMin, sizeMax, mark);
    }

    /** memcpy to tail + at. */
    method Copy(at: nat, s: string)
      requires tail + at + |s| <= start.Length
      modifies start
      ensures forall i :: 0 <= i < start.Length ==>
                start[i] == if tail + at <= i < tail + at + |s| then s[i - tail - at] else old(start[i])
      ensures start[tail + at..tail + at + |s|] == s && start[..tail + at] == old(start[..tail + at])
    {
      forall i | 0 <= i < |s| {
        start[tail + at + i] := s[i];
      }
    }

    /** Overwrites the end of the text by the mark. */
    method Truncate()
      requires tail < start.Length
      modifies start
      ensures start[..tail] == Stamp(old(start[..tail]), mark)
      ensures |mark| <= tail ==>
                start[..tail - |mark|] == old(start[..tail - |mark|]) && start[tail - |mark|..tail] == mark
    {
      if mark == "" {
        return;
      }
      var p := if tail < |mark| then 0 else tail - |mark|;
      forall i | p <= i < tail {
        start[i] := mark[i - p];
      }
    }

    /** Makes room for increment more bytes; 1 says that the limit leaves less. */
    method Resize(increment: nat) returns (rc: int)
      requires increment > 0 && tail < start.Length && (sizeMax == 0 || start.Length <= sizeMax)
      modifies this`start
      ensures (start == old(start) || fresh(start)) && start.Length >= old(start.Length)
      ensures start[..tail] == old(start[..tail])
      ensures sizeMax == 0 || start.Length <= sizeMax
      ensures rc == if Fits(old(start.Length) + increment - 1, sizeMax) then 0 else 1
      ensures if rc == 0 then start.Length >= old(start.Length) + increment else start.Length == sizeMax
    {
      rc := 0;
      if sizeMax != 0 && start.Length >= sizeMax {
        return 1;
      }
      var newSize := start.Length + 3 * increment / 2;
      if sizeMax != 0 {
        newSize := start.Length + increment;
        if newSize > sizeMax {
          newSize := sizeMax;
          rc := 1;
        }
      }
      var was := start;
      start := new char[newSize](i requires 0 <= i reads was => if i < was.Length then was[i] else '\0');
    }

    /** The tail moves over what of the piece was written: all of it, or what the limit leaves. */
    method Advance(ghost was: string, ghost piece: string, n: nat, full: bool)
      requires tail + n < start.Length && (sizeMax == 0 || start.Length <= sizeMax) && |mark| <= MAXLEN_PATH
      requires start[..tail] == Clip(was, sizeMax, mark)
      requires n <= |piece| && start[tail..tail + n] == piece[..n]
      requires full <==> !Fits(tail + |piece|, sizeMax)
      requires if full then tail + n == sizeMax - 1 else n == |piece|
      modifies this`tail, this`ideal, start
      ensures Valid() && ideal == was + piece
    {
      ClipAppend(was, piece, sizeMax, mark);
      assert start[..tail + n] == start[..tail] + start[tail..tail + n];
      tail := tail + n;
      ideal := was + piece;
      if full {
        Truncate();
      } else {
        assert piece[..n] == piece;
      }
    }

    /** What the buffer holds when text has been lost. */
    lemma {:induction false} HoldsMarked()
      requires Valid() && sizeMax > 0 && |ideal| >= sizeMax
      ensures tail == sizeMax - 1
      ensures |mark| <= tail ==>
                start[..tail - |mark|] == ideal[..tail - |mark|] && start[tail - |mark|..tail] == mark
      ensures |mark| > tail ==> start[..tail] == mark[..tail]
    {
      ClipSpec(ideal, sizeMax, mark);
      var r := start[..tail];
      assert |mark| <= tail ==> r[..tail - |mark|] == start[..tail - |mark|];
      assert |mark| <= tail ==> r[tail - |mark|..] == start[tail - |mark|..tail];
    }

    method Restart()
      requires Valid()
      modifies this`tail, this`ideal
      ensures Valid() && ideal == ""
    {
      tail := 0;
      ideal := "";
    }

    method Append(s: string) returns (rc: int)
      requires Valid()
      modifies this, start
      ensures Valid() && (start == old(start) || fresh(start))
      ensures ideal == old(ideal) + s
      ensures rc == if Fits(old(tail) + |s|, sizeMax) then 0 else 1
      ensures sizeMax > 0 && |ideal| >= sizeMax && |mark| < sizeMax ==>
                start[..tail - |mark|] == ideal[..tail - |mark|] && start[tail - |mark|..tail] == mark
    {
      rc := AppendText(s);
      if sizeMax > 0 && |ideal| >= sizeMax {
        HoldsMarked();
      }
    }

    method AppendText(s: string) returns (rc: int)
      requires Valid()
      modifies this, start
      ensures Valid() && (start == old(start) || fresh(start))
      ensures ideal == old(ideal) + s
      ensures rc == if Fits(old(tail) + |s|, sizeMax) then 0 else 1
    {
      rc := 0;
      if tail + |s| > start.Length - 1 {
        rc := Resize(|s| - (start.Length - 1 - tail));
        if rc > 0 {
          var left := start.Length - 1 - tail;
          Copy(0, s[..left]);
          Advance(ideal, s, left, true);
          return 1;
        }
      }
      Copy(0, s);
      assert s[..|s|] == s;
      Advance(ideal, s, |s|, false);
    }

    /** The first bytes that vsnprintf writes of the formatted text, and its closing NUL. */
    method Snprintf(text: string, size: nat)
      requires size > 0 && tail + size <= start.Length
      modifies start
      ensures var n := if |text| < size then |text| else size - 1;
              && start[tail..tail + n] == text[..n]
              && start[..tail] == old(start[..tail])
    {
      var n := if |text| < size then |text| else size - 1;
      Copy(0, text[..n]);
      start[tail + n] := '\0';
    }

    /** The formatter is a parameter: None when vsnprintf fails. */
    method Vprintf(formatted: Option<string>) returns (rc: int)
      requires Valid()
      modifies this, start
      ensures Valid() && (start == old(start) || fresh(start))
      ensures formatted == None ==> rc == -1 && ideal == old(ideal)
      ensures formatted.Some? ==> ideal == old(ideal) + formatted.value
      ensures formatted.Some? ==> rc == if Fits(old(tail) + |formatted.value|, sizeMax) then 0 else 1
    {
      if formatted == None {
        return -1;
      }
      var text := formatted.value;
      var left := start.Length - tail;
      Snprintf(text, left);
      if |text| >= left {
        rc := Resize(|text| - left + 1);
        left := start.Length - tail;
        Snprintf(text, left);
        if rc > 0 {
          Advance(ideal, text, left - 1, true);
          return 1;
        }
      }
      Advance(ideal, text, |text|, false);
      rc := 0;
    }

    method AdjustAppend(s: string, leftAdjust: bool, zeroPad: bool, inWidth: nat, outWidth: nat) returns (rc: int)
      requires Valid()
      modifies this, start
      ensures Valid() && (start == old(start) || fresh(start))
      ensures var piece := Adjusted(s, leftAdjust, zeroPad, inWidth, outWidth);
              && ideal == old(ideal) + piece
              && rc == if Fits(old(tail) + |piece|, sizeMax) then 0 else 1
    {
      ghost var piece := Adjusted(s, leftAdjust, zeroPad, inWidth, outWidth);
      var source := Taken(|s|, outWidth);
      var space := Space(source, inWidth);
      var length := source + space;
      var pad := if zeroPad then '0' else ' ';
      assert piece == Laid(s[..source], space, leftAdjust, pad);
      hide Adjusted, Taken, Space, Laid, Clip, Stamp, Cut;
      assert piece[..length] == piece;
      rc := 0;
      if length > start.Length - 1 - tail {
        rc := Resize(length - (start.Length - 1 - tail));
        if rc > 0 {
          length := start.Length - 1 - tail;
          LaidPrefix(s, source, space, leftAdjust, pad, length);
          source, space := Squeeze(source, space, leftAdjust, length);
          assert start[..tail] == Clip(ideal, sizeMax, mark);
          Lay(s[..source], space, leftAdjust, pad);
          Advance(ideal, piece, length, true);
          return 1;
        }
      }
      Lay(s[..source], space, leftAdjust, pad);
      Advance(ideal, piece, length, false);
    }

    /** memset at tail + at. */
    method Fill(at: nat, c: char, n: nat)
      requires tail + at + n <= start.Length
      modifies start
      ensures forall i :: 0 <= i < start.Length ==>
                start[i] == if tail + at <= i < tail + at + n then c else old(start[i])
    {
      forall i | tail + at <= i < tail + at + n {
        start[i] := c;
      }
    }

    /** Writes the source and its padding after the text. */
    method Lay(source: string, space: nat, leftAdjust: bool, pad: char)
      requires tail + |source| + space <= start.Length
      modifies start
      ensures start[..tail] == old(start[..tail])
      ensures start[tail..tail + |source| + space] == Laid(source, space, leftAdjust, pad)
    {
      if leftAdjust {
        Fill(|source|, ' ', space);
        Copy(0, source);
      } else {
        Fill(0, pad, space);
        Copy(space, source);
      }
    }

    /** What the printers share: zeros up to the width, then the digits. */
    method PutPadded(digits: string, width: nat) returns (rc: int)
      requires Valid() && |digits| > 0
      modifies this, start
      ensures Valid() && (start == old(start) || fresh(start))
      ensures ideal == old(ideal) + ZeroPadded(digits, width)
      ensures rc == if Fits(old(tail) + |ZeroPadded(digits, width)|, sizeMax) then 0 else 1
    {
      hide ZeroPadded, Laid, Clip, Stamp;
      ghost var piece := ZeroPadded(digits, width);
      var num, zero, out := |digits|, 0, |digits|;
      if width > num {
        zero, out := width - num, width;
      }
      rc := 0;
      if tail + out > start.Length - 1 {
        rc := Resize(out - (start.Length - 1 - tail));
        if rc > 0 {
          out := start.Length - 1 - tail;
          if out <= zero {
            zero, num := out, 0;
          } else {
            num := out - zero;
          }
        }
      }
      ZeroPaddedIsLaid(digits, width, zero, num);
      Lay(digits[..num], zero, false, '0');
      Advance(ideal, piece, out, rc > 0);
    }

    method PrintDec32(n: nat, width: nat) returns (rc: int)
      requires Valid() && n < 0x1_0000_0000
      modifies this, start
      ensures Valid() && (start == old(start) || fresh(start))
      ensures ideal == old(ideal) + ZeroPadded(Digits(n, 10), width)
      ensures rc == if Fits(old(tail) + |ZeroPadded(Digits(n, 10), width)|, sizeMax) then 0 else 1
    {
      assert Power(10, 10) > n;
      DigitCount(n, 10, 10);
      var digits := WriteDigits(n, 10, INT32_LEN);
      rc := PutPadded(digits, width);
    }

    method PrintDec64(n: nat, width: nat) returns (rc: int)
      requires Valid() && n < 0x1_0000_0000_0000_0000
      modifies this, start
      ensures Valid() && (start == old(start) || fresh(start))
      ensures ideal == old(ideal) + ZeroPadded(Digits(n, 10), width)
      ensures rc == if Fits(old(tail) + |ZeroPadded(Digits(n, 10), width)|, sizeMax) then 0 else 1
    {
      assert Power(10, 10) == 10_000_000_000;
      assert Power(10, 15) == 1_000_000_000_000_000;
      assert Power(10, 20) > n;
      DigitCount(n, 10, 20);
      var digits := WriteDigits(n, 10, INT64_LEN);
      rc := PutPadded(digits, width);
    }

    method PrintHex(n: nat, width: nat) returns (rc: int)
      requires Valid() && n < 0x1_0000_0000
      modifies this, start
      ensures Valid() && (start == old(start) || fresh(start))
      ensures ideal == old(ideal) + ZeroPadded(Digits(n, 16), width)
      ensures rc == if Fits(old(tail) + |ZeroPadded(Digits(n, 16), width)|, sizeMax) then 0 else 1
    {
      assert Power(16, 8) > n;
      DigitCount(n, 16, 8);
      var digits := WriteDigits(n, 16, INT32_LEN);
      rc := PutPadded(digits, width);
    }
  }

  /** At the limit the padding of a left-adjusted text gives way first, and the end of the
      text of a right-adjusted one. */
  method Squeeze(source: nat, space: nat, leftAdjust: bool, n: nat) returns (source': nat, space': nat)
    requires n <= source + space
    ensures source' == Cut(source, space, leftAdjust, n).0 && space' == Cut(source, space, leftAdjust, n).1
  {
    source', space' := source, space;
    if leftAdjust {
      if source < n {
        space' := n - source;
      } else {
        source', space' := n, 0;
      }
    } else {
      if space < n {
        source' := n - space;
      } else {
        space', source' := n, 0;
      }
    }
  }

  // sizeof("-2147483648") - 1 and sizeof("-9223372036854775808") - 1
  const INT32_LEN := 11
  const INT64_LEN := 20

  /** The loop of the printers: the digits are written from the end of tmp, at least one. */
  method WriteDigits(n: nat, base: Base, length: nat) returns (digits: string)
    requires |Digits(n, base)| <= length
    ensures digits == Digits(n, base)
  {
    hide Digits, Digit;
    DigitsStep(n, base, "");
    var tmp := new char[length + 1];
    var p := length - 1;
    tmp[p] := Digit(n % base);
    assert tmp[p..length] == [Digit(n % base)] + "";
    var rest: nat := n / base;
    while rest > 0
      invariant 0 <= p < length
      invariant Digits(n, base) + "" == (if rest == 0 then "" else Digits(rest, base)) + tmp[p..length]
    {
      DigitsStep(rest, base, tmp[p..length]);
      ghost var was := tmp[p..length];
      p := p - 1;
      tmp[p] := Digit(rest % base);
      assert tmp[p..length] == [Digit(rest % base)] + was;
      rest := rest / base;
    }
    digits := tmp[p..length];
    assert Digits(n, base) + "" == Digits(n, base);
  }

  lemma {:induction false} DigitsStep(n: nat, base: Base, suffix: string)
    ensures n % base < 16 && 0 <= n / base && (n > 0 ==> n / base < n)
    ensures Digits(n, base) + suffix ==
            (if n / base == 0 then "" else Digits(n / base, base)) + ([Digit(n % base)] + suffix)
  {
    DivMod(n, base);
    var front := if n < base then "" else Digits(n / base, base);
    assert Digits(n, base) == front + [Digit(n % base)];
    Reassoc(front, [Digit(n % base)], suffix);
  }
}

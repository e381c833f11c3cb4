/**
  Strings as xini_file.h sees them: trimming, the case-insensitive comparison that
  orders its maps, and the text lines that its reader and writer exchange.
 */
module IniText {
  import opened Wrappers

  const SPACES: string := " \t\n\r\U{000C}\U{000B}"

  /** Which are the characters that isspace accepts. */
  lemma {:induction false} SpaceCodes(c: char)
    ensures c in SPACES <==> c as int == 32 || 9 <= c as int <= 13
  {
  }

  /** Erases the trailing characters that occur in cs. */
  function RTrim(s: string, cs: string := SPACES): string {
    if s != [] && s[|s| - 1] in cs then RTrim(s[..|s| - 1], cs) else s
  }

  /** Erases the leading characters that occur in cs. */
  function LTrim(s: string, cs: string := SPACES): string {
    if s != [] && s[0] in cs then LTrim(s[1..], cs) else s
  }

  /** What either trimming leaves: a piece of s that cs neither begins nor ends. */
  lemma {:induction false} TrimSpec(s: string, cs: string)
    ensures var r := RTrim(s, cs);
            && r <= s && (r == [] || r[|r| - 1] !in cs)
            && (s != [] && s[|s| - 1] !in cs ==> r == s)
    ensures var l := LTrim(s, cs);
            && |l| <= |s| && l == s[|s| - |l|..] && (l == [] || l[0] !in cs)
            && (s != [] && s[0] !in cs ==> l == s)
  {
    RTrimSpec(s, cs);
    LTrimSpec(s, cs);
  }

  lemma {:induction false} RTrimSpec(s: string, cs: string)
    ensures var r := RTrim(s, cs); r <= s && (r == [] || r[|r| - 1] !in cs)
  {
    if s != [] && s[|s| - 1] in cs {
      RTrimSpec(s[..|s| - 1], cs);
    }
  }

  lemma {:induction false} LTrimSpec(s: string, cs: string)
    ensures var l := LTrim(s, cs); |l| <= |s| && l == s[|s| - |l|..] && (l == [] || l[0] !in cs)
  {
    if s != [] && s[0] in cs {
      LTrimSpec(s[1..], cs);
    }
  }

  function Trim(s: string): string {
    LTrim(RTrim(s))
  }

  predicate Trimmed(s: string) {
    s == [] || (s[0] !in SPACES && s[|s| - 1] !in SPACES)
  }

  lemma {:induction false} TrimTrims(s: string)
    ensures Trimmed(Trim(s))
    ensures Trimmed(s) ==> Trim(s) == s
  {
    TrimSpec(s, SPACES);
    TrimSpec(RTrim(s), SPACES);
  }

  /** Trimming brings in no character. */
  lemma {:induction false} TrimDrops(s: string, cs: string, c: char)
    requires c !in s
    ensures c !in RTrim(s, cs) && c !in LTrim(s, cs)
  {
    var r, l := RTrim(s, cs), LTrim(s, cs);
    TrimSpec(s, cs);
    assert r == s[..|r|];
    assert forall i :: 0 <= i < |l| ==> l[i] == s[|s| - |l| + i];
  }

  /** A trimmed line keeps its first character when only its end is cut before trimming. */
  lemma {:induction false} TrimPrefix(s: string, n: nat)
    requires Trimmed(s) && 0 < n <= |s|
    ensures Trim(s[..n]) != [] && Trim(s[..n])[0] == s[0]
    ensures Trim(s[..n]) <= s[..n]
  {
    RTrimKeepsHead(s[..n]);
    TrimSpec(s[..n], SPACES);
    TrimSpec(RTrim(s[..n]), SPACES);
  }

  lemma {:induction false} RTrimKeepsHead(s: string)
    requires s != [] && s[0] !in SPACES
    ensures RTrim(s) != [] && RTrim(s)[0] == s[0]
  {
    if s[|s| - 1] in SPACES {
      RTrimKeepsHead(s[..|s| - 1]);
    }
  }

  /** Dually, the tail of a trimmed line keeps its last character. */
  lemma {:induction false} TrimSuffix(s: string, n: nat)
    requires Trimmed(s) && n <= |s|
    ensures var t := Trim(s[n..]); t == [] || t[|t| - 1] == s[|s| - 1]
  {
    if n < |s| {
      TrimSpec(s[n..], SPACES);
      assert s[n..][|s| - n - 1] == s[|s| - 1];
    }
  }

  // ------------------------------------------------------------- case-insensitive order

  function Lower(c: char): char {
    if 'A' <= c <= 'Z' then (c as int + 32) as char else c
  }

  /** What a comparison through c_str() sees of a string: lower case, up to the first NUL. */
  function Fold(s: string): string {
    if s == [] || s[0] == '\0' then [] else [Lower(s[0])] + Fold(s[1..])
  }

  /** The two cases of one ASCII letter. */
  predicate Cases(upper: char, lower: char) {
    'A' <= upper <= 'Z' && 'a' <= lower <= 'z' && upper as int - 'A' as int == lower as int - 'a' as int
  }

  predicate Alike(c: char, d: char) {
    c == d || Cases(c, d) || Cases(d, c)
  }

  /** The C string of s is its first n characters. */
  predicate EndsAt(s: string, n: nat) {
    n <= |s| && '\0' !in s[..n] && (n == |s| || s[n] == '\0')
  }

  /** The C strings are the same but for the case of their letters. */
  ghost predicate SameString(l: string, r: string) {
    exists n :: EndsAt(l, n) && EndsAt(r, n) && forall i :: 0 <= i < n ==> Alike(l[i], r[i])
  }

  lemma {:induction false} LowerSpec(c: char, d: char)
    ensures Lower(c) == Lower(d) <==> Alike(c, d)
    ensures if 'A' <= c <= 'Z' then Cases(c, Lower(c)) else Lower(c) == c
  {
  }

  lemma {:induction false} EndOf(s: string) returns (n: nat)
    ensures EndsAt(s, n)
  {
    if s == "" || s[0] == '\0' {
      n := 0;
    } else {
      n := EndOf(s[1..]);
      assert s[..n + 1] == [s[0]] + s[1..][..n];
      n := n + 1;
    }
  }

  lemma {:induction false} FoldIsLower(s: string, n: nat)
    requires EndsAt(s, n)
    ensures |Fold(s)| == n && forall i :: 0 <= i < n ==> Fold(s)[i] == Lower(s[i])
  {
    hide Lower;
    if n > 0 {
      assert s[0] == s[..n][0];
      assert s[1..][..n - 1] == s[..n][1..];
      FoldIsLower(s[1..], n - 1);
    }
  }

  /** A fold is the C string with every upper case letter replaced by the lower case one. */
  lemma {:induction false} FoldSpec(s: string, n: nat)
    requires EndsAt(s, n)
    ensures |Fold(s)| == n
    ensures forall i :: 0 <= i < n ==> if 'A' <= s[i] <= 'Z' then Cases(s[i], Fold(s)[i]) else Fold(s)[i] == s[i]
  {
    hide Lower, Fold;
    FoldIsLower(s, n);
    forall i | 0 <= i < n ensures if 'A' <= s[i] <= 'Z' then Cases(s[i], Fold(s)[i]) else Fold(s)[i] == s[i] {
      LowerSpec(s[i], s[i]);
    }
  }

  lemma {:induction false} EndsOnce(s: string, m: nat, n: nat)
    requires EndsAt(s, m) && EndsAt(s, n)
    ensures m == n
  {
    assert forall i :: 0 <= i < m ==> s[i] == s[..m][i];
    assert forall i :: 0 <= i < n ==> s[i] == s[..n][i];
  }

  /** Two strings have the same fold if and only if their C strings have equal length and at each
      place the same character, or the two cases of one letter. */
  lemma {:induction false} FoldTells(l: string, r: string)
    ensures Fold(l) == Fold(r) <==> SameString(l, r)
  {
    hide Fold, Lower, Alike;
    var m := EndOf(l);
    var n := EndOf(r);
    FoldIsLower(l, m);
    FoldIsLower(r, n);
    forall c, d ensures Lower(c) == Lower(d) <==> Alike(c, d) {
      LowerSpec(c, d);
    }
    if Fold(l) == Fold(r) {
      forall i | 0 <= i < m ensures Alike(l[i], r[i]) {
        assert Fold(l)[i] == Fold(r)[i];
      }
      assert SameString(l, r);
    } else if SameString(l, r) {
      var k :| EndsAt(l, k) && EndsAt(r, k) && forall i :: 0 <= i < k ==> Alike(l[i], r[i]);
      EndsOnce(l, k, m);
      EndsOnce(r, k, n);
      assert false;
    }
  }

  /** The i-th character of the C string of s; every index from its length on reads NUL. */
  function At(s: string, i: nat): char {
    if i < |s| then s[i] else '\0'
  }

  /** The value of a character where char is signed, or where it is not. */
  function Ord(signed: bool, c: char): (v: int)
    ensures v == 0 <==> c == '\0'
    ensures c <= '\U{00FF}' ==> (v - c as int) % 256 == 0 && if signed then -128 <= v < 128 else 0 <= v
  {
    if signed && '\U{0080}' <= c <= '\U{00FF}' then c as int - 256 else c as int
  }

  /** The order of C strings: the end of a string counts as 0, which signed characters can be
      below. */
  predicate LexLess(signed: bool, a: string, b: string) {
    var x, y := Ord(signed, At(a, 0)), Ord(signed, At(b, 0));
    x < y || (x == y && a != [] && b != [] && LexLess(signed, a[1..], b[1..]))
  }

  /** xstr_icmp: the sign of the first difference of the lowered C strings. */
  method XstrIcmp(signed: bool, l: string, r: string) returns (d: int)
    ensures d == 0 <==> SameString(l, r)
    ensures d == 0 <==> Fold(l) == Fold(r)
    ensures d < 0 <==> LexLess(signed, Fold(l), Fold(r))
    ensures d > 0 <==> LexLess(signed, Fold(r), Fold(l))
  {
    hide SameString;
    FoldTells(l, r);
    var i := 0;
    var lv, rv := Ord(signed, Lower(At(l, 0))), Ord(signed, Lower(At(r, 0)));
    FoldStep(signed, l, r);
    while lv != 0 && lv == rv
      invariant i < |l| || lv == 0
      invariant lv == Ord(signed, Lower(At(l, i))) && rv == Ord(signed, Lower(At(r, i)))
      invariant i <= |l| && i <= |r|
      invariant Fold(l) == Fold(r) <==> Fold(l[i..]) == Fold(r[i..])
      invariant LexLess(signed, Fold(l), Fold(r)) <==> LexLess(signed, Fold(l[i..]), Fold(r[i..]))
      invariant LexLess(signed, Fold(r), Fold(l)) <==> LexLess(signed, Fold(r[i..]), Fold(l[i..]))
      decreases |l| - i
    {
      FoldStep(signed, l[i..], r[i..]);
      assert l[i..][1..] == l[i + 1..] && r[i..][1..] == r[i + 1..];
      i := i + 1;
      lv, rv := Ord(signed, Lower(At(l, i))), Ord(signed, Lower(At(r, i)));
    }
    FoldStep(signed, l[i..], r[i..]);
    d := lv - rv;
  }

  lemma {:induction false} FoldHead(s: string)
    ensures Lower(At(s, 0)) == At(Fold(s), 0)
    ensures At(s, 0) != '\0' ==> s != [] && Fold(s) != [] && Fold(s)[1..] == Fold(s[1..])
    ensures At(s, 0) == '\0' ==> Fold(s) == []
  {
  }

  lemma {:induction false} OrdTells(signed: bool, c: char, d: char)
    ensures Ord(signed, c) == Ord(signed, d) <==> c == d
  {
  }

  lemma {:induction false} SameFold(a: string, b: string)
    requires a != [] && b != []
    ensures a == b <==> a[0] == b[0] && a[1..] == b[1..]
  {
    assert a == [a[0]] + a[1..] && b == [b[0]] + b[1..];
  }

  /** One step of the comparison, on whatever is left of both strings. */
  lemma {:induction false} FoldStep(signed: bool, l: string, r: string)
    ensures var lv, rv := Ord(signed, Lower(At(l, 0))), Ord(signed, Lower(At(r, 0)));
            if lv != 0 && lv == rv then
              l != [] && r != []
              && (Fold(l) == Fold(r) <==> Fold(l[1..]) == Fold(r[1..]))
              && (LexLess(signed, Fold(l), Fold(r)) <==> LexLess(signed, Fold(l[1..]), Fold(r[1..])))
              && (LexLess(signed, Fold(r), Fold(l)) <==> LexLess(signed, Fold(r[1..]), Fold(l[1..])))
            else
              (lv == rv <==> Fold(l) == Fold(r))
              && (lv < rv <==> LexLess(signed, Fold(l), Fold(r)))
              && (rv < lv <==> LexLess(signed, Fold(r), Fold(l)))
  {
    FoldHead(l);
    FoldHead(r);
    OrdTells(signed, Lower(At(l, 0)), Lower(At(r, 0)));
    hide Fold, Ord;
    if Fold(l) != [] && Fold(r) != [] {
      SameFold(Fold(l), Fold(r));
    }
  }

  /** The first difference decides. */
  lemma {:induction false} FirstDifference(signed: bool, a: string, b: string, n: nat)
    requires n <= |a| && n <= |b| && a[..n] == b[..n] && At(a, n) != At(b, n)
    ensures LexLess(signed, a, b) <==> Ord(signed, At(a, n)) < Ord(signed, At(b, n))
  {
    OrdTells(signed, At(a, n), At(b, n));
    if n > 0 {
      assert a[0] == a[..n][0] && b[0] == b[..n][0];
      assert a[1..][..n - 1] == a[..n][1..] && b[1..][..n - 1] == b[..n][1..];
      FirstDifference(signed, a[1..], b[1..], n - 1);
    }
  }

  lemma {:induction false} FoldHasNoNul(s: string)
    ensures '\0' !in Fold(s)
  {
    if s != [] {
      FoldHasNoNul(s[1..]);
    }
  }

  lemma {:induction false} OrdersStrings(signed: bool, a: string, b: string, c: string)
    requires '\0' !in a && '\0' !in b && '\0' !in c
    ensures !LexLess(signed, a, a)
    ensures a == b || LexLess(signed, a, b) || LexLess(signed, b, a)
    ensures !(LexLess(signed, a, b) && LexLess(signed, b, a))
    ensures LexLess(signed, a, b) && LexLess(signed, b, c) ==> LexLess(signed, a, c)
    decreases |a|
  {
    if a != [] {
      OrdersStrings(signed, a[1..], a[1..], a[1..]);
      if b != [] {
        OrdersStrings(signed, a[1..], b[1..], if c != [] then c[1..] else []);
        OrdTells(signed, a[0], b[0]);
        SameFold(a, b);
      }
    }
  }

  /** The comparison is a strict weak order whose ties are exactly the equal folds, so a map
      ordered by it holds one entry per fold and finds a key by its fold. */
  lemma {:induction false} IcmpOrdersFolds(signed: bool, l: string, r: string, t: string)
    ensures var a, b, c := Fold(l), Fold(r), Fold(t);
            && !LexLess(signed, a, a)
            && (a == b || LexLess(signed, a, b) || LexLess(signed, b, a))
            && !(LexLess(signed, a, b) && LexLess(signed, b, a))
            && (LexLess(signed, a, b) && LexLess(signed, b, c) ==> LexLess(signed, a, c))
  {
    FoldHasNoNul(l);
    FoldHasNoNul(r);
    FoldHasNoNul(t);
    OrdersStrings(signed, Fold(l), Fold(r), Fold(t));
  }

  // ------------------------------------------------------------- text and its lines

  /** The pieces of a text between its newlines: what repeated getline calls return. */
  function Segments(text: string): (r: seq<string>)
    ensures r != []
  {
    if text == [] then [[]]
    else
      var rest := Segments(text[1..]);
      if text[0] == '\n' then [[]] + rest else [[text[0]] + rest[0]] + rest[1..]
  }

  function TrimAll(lines: seq<string>): (r: seq<string>)
    ensures |r| == |lines|
    ensures forall i :: 0 <= i < |r| ==> r[i] == Trim(lines[i])
  {
    seq(|lines|, i requires 0 <= i < |lines| => Trim(lines[i]))
  }

  /** The lines the reader handles: trimmed, and without a last piece that is blank. */
  function InputLines(text: string): seq<string> {
    DropLastBlank(TrimAll(Segments(text)))
  }

  function DropLastBlank(lines: seq<string>): seq<string> {
    if lines != [] && lines[|lines| - 1] == [] then lines[..|lines| - 1] else lines
  }

  /** Every line followed by std::endl. */
  function JoinLines(lines: seq<string>): string {
    if lines == [] then [] else JoinLines(lines[..|lines| - 1]) + lines[|lines| - 1] + "\n"
  }

  predicate SingleLines(lines: seq<string>) {
    forall i :: 0 <= i < |lines| ==> '\n' !in lines[i]
  }

  lemma {:induction false} SegmentsOfLine(line: string, rest: string)
    requires '\n' !in line
    ensures Segments(line + "\n" + rest) == [line] + Segments(rest)
  {
    var t := line + "\n" + rest;
    if line == [] {
      assert t[1..] == rest;
    } else {
      assert t[0] == line[0] && t[1..] == line[1..] + "\n" + rest;
      SegmentsOfLine(line[1..], rest);
      assert ([line[1..]] + Segments(rest))[1..] == Segments(rest);
      assert [line[0]] + line[1..] == line;
    }
  }

  lemma {:induction false} SegmentsOfJoin(lines: seq<string>, rest: string)
    requires SingleLines(lines)
    ensures Segments(JoinLines(lines) + rest) == lines + Segments(rest)
    decreases |lines|
  {
    if lines == [] {
      assert JoinLines(lines) + rest == rest;
    } else {
      hide Segments, JoinLines;
      var n := |lines| - 1;
      var more := lines[n] + "\n" + rest;
      JoinLast(lines, rest);
      SegmentsOfJoin(lines[..n], more);
      SegmentsOfLine(lines[n], rest);
      Reassoc(lines[..n], [lines[n]], Segments(rest));
      assert lines[..n] + [lines[n]] == lines;
    }
  }

  lemma {:induction false} JoinLast(lines: seq<string>, rest: string)
    requires lines != []
    ensures var n := |lines| - 1;
            JoinLines(lines) + rest == JoinLines(lines[..n]) + (lines[n] + "\n" + rest)
  {
  }

  lemma {:induction false} SegmentsAreSingle(text: string)
    ensures SingleLines(Segments(text))
  {
    if text != [] {
      SegmentsAreSingle(text[1..]);
    }
  }

  lemma {:induction false} InputLinesAreTrimmed(text: string)
    ensures forall i :: 0 <= i < |InputLines(text)| ==>
              Trimmed(InputLines(text)[i]) && '\n' !in InputLines(text)[i]
  {
    SegmentsAreSingle(text);
    var segs := Segments(text);
    forall i | 0 <= i < |segs| ensures Trimmed(Trim(segs[i])) && '\n' !in Trim(segs[i]) {
      TrimTrims(segs[i]);
      TrimDrops(segs[i], SPACES, '\n');
      TrimDrops(RTrim(segs[i]), SPACES, '\n');
    }
  }

  predicate AllTrimmed(lines: seq<string>) {
    forall i :: 0 <= i < |lines| ==> Trimmed(lines[i])
  }

  /** Reading back a text of trimmed single lines gives those lines. */
  lemma {:induction false} ReadBack(lines: seq<string>)
    requires SingleLines(lines) && AllTrimmed(lines)
    ensures InputLines(JoinLines(lines)) == lines
  {
    var segs := Segments(JoinLines(lines));
    assert segs == lines + [""] by { SegmentsOfText(lines); }
    assert TrimAll(segs) == segs by { TrimAllTrimmed(segs); }
    assert segs[|segs| - 1] == "" && segs[..|segs| - 1] == lines;
  }

  lemma {:induction false} TrimAllTrimmed(lines: seq<string>)
    requires AllTrimmed(lines)
    ensures TrimAll(lines) == lines
  {
    forall i | 0 <= i < |lines| ensures Trim(lines[i]) == lines[i] {
      TrimTrims(lines[i]);
    }
  }

  lemma {:induction false} SegmentsOfText(lines: seq<string>)
    requires SingleLines(lines)
    ensures Segments(JoinLines(lines)) == lines + [""]
  {
    SegmentsOfJoin(lines, "");
    assert JoinLines(lines) + "" == JoinLines(lines);
  }

  lemma {:induction false} JoinUnfolds(lines: seq<string>)
    requires lines != []
    ensures var n := |lines| - 1; JoinLines(lines) == JoinLines(lines[..n]) + lines[n] + "\n"
  {
  }

  lemma {:induction false} JoinAppend(a: seq<string>, b: seq<string>)
    ensures JoinLines(a + b) == JoinLines(a) + JoinLines(b)
    decreases |b|
  {
    if b == [] {
      assert a + b == a;
    } else {
      var n := |b| - 1;
      hide JoinLines;
      JoinAppend(a, b[..n]);
      assert (a + b)[..|a| + n] == a + b[..n];
      JoinUnfolds(a + b);
      JoinUnfolds(b);
      Reassoc(JoinLines(a), JoinLines(b[..n]), b[n]);
      Reassoc(JoinLines(a), JoinLines(b[..n]) + b[n], "\n");
    }
  }
}

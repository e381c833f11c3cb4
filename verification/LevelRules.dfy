/**
  Output rules: which levels a rule puts out, the bitmap that caches them, and which rules
  fit a category.
 */
module LevelRules {
  import opened CMath

  /** The 32 bytes of a level bitmap. */
  type Bitmap = b: seq<bv8> | |b| == 32 witness Zeros(32)

  const EMPTY: Bitmap := Zeros(32)

  function Zeros(n: nat): (r: seq<bv8>)
    ensures |r| == n && forall i :: 0 <= i < n ==> r[i] == 0
  {
    if n == 0 then [] else Zeros(n - 1) + [0]
  }

  datatype Rule = Rule(category: string, compareChar: char, level: int, bitmap: Bitmap)

  /** zlog_rule_output: whether the rule puts out an event of level lv. */
  predicate Outputs(compareChar: char, level: int, lv: int) {
    match compareChar
    case '*' => true
    case '.' => lv >= level
    case '=' => lv == level
    case '!' => lv != level
    case _ => false
  }

  /** What the four signs mean, as sets of levels: all, those from the rule's own on, it alone,
      and its complement; without one of the signs nothing is put out. */
  lemma {:induction false} SignsMean(c: char, level: int, lv: int)
    ensures Outputs('*', level, lv)
    ensures Outputs('.', level, level) && (Outputs('.', level, lv) ==> Outputs('.', level, lv + 1))
    ensures !Outputs('.', level, level - 1)
    ensures Outputs('=', level, level) && (Outputs('=', level, lv) ==> lv == level)
    ensures Outputs('!', level, lv) <==> !Outputs('=', level, lv)
    ensures c !in {'*', '.', '=', '!'} ==> !Outputs(c, level, lv)
  {
  }

  /** The test of zlog_category_needless_level, the other way round. */
  predicate Bit(bitmap: Bitmap, lv: nat)
    requires lv < 256
  {
    BitOf(bitmap[lv / 8], lv % 8)
  }

  predicate BitOf(x: bv8, j: nat)
    requires j < 8
  {
    (x >> (7 - j)) & 1 == 1
  }

  function LowByte(x: bv32): bv8 {
    (x & 0xFF) as bv8
  }

  /** 1 << (7 - level % 8), cut to a byte; the shift is by 8 for the level -1. */
  function OneBit(k: int): bv8
    requires -1 <= k < 8
  {
    LowByte(1 as bv32 << (7 - k))
  }

  /** ~(0xFF << (8 - level % 8)), cut to a byte. */
  function FromBit(k: int): bv8
    requires -1 <= k < 8
  {
    LowByte(!(0xFF as bv32 << (8 - k)))
  }

  lemma {:induction false} OneBitAt(k: int, j: nat)
    requires -1 <= k < 8 && j < 8
    ensures BitOf(OneBit(k), j) <==> j == k
  {
  }

  lemma {:induction false} FromBitAt(k: int, j: nat)
    requires -1 <= k < 8 && j < 8
    ensures BitOf(FromBit(k), j) <==> j >= k
  {
  }

  // ------------------------------------------------------------- the bitmap of a rule

  /** The bitmap says of every level whether the rule puts it out. */
  ghost predicate Exact(bitmap: Bitmap, compareChar: char, level: int) {
    forall lv :: 0 <= lv < 256 ==> (Bit(bitmap, lv) <==> Outputs(compareChar, level, lv))
  }

  /** A rule as zlog_rule_new leaves it. */
  ghost predicate Made(r: Rule) {
    && r.category != "" && r.compareChar in {'*', '.', '=', '!'} && -1 <= r.level < 256
    && Exact(r.bitmap, r.compareChar, r.level)
  }

  method Fill(a: array<bv8>, from: nat, x: bv8)
    requires from <= a.Length
    modifies a
    ensures forall i :: 0 <= i < a.Length ==> a[i] == if i < from then old(a[i]) else x
  {
    forall i | from <= i < a.Length {
      a[i] := x;
    }
  }

  lemma {:induction false} ByteOf(level: int)
    requires -1 <= level < 256
    ensures 0 <= Div(level, 8) < 32 && -1 <= Mod(level, 8) < 8 && level == 8 * Div(level, 8) + Mod(level, 8)
    ensures level >= 0 ==> Div(level, 8) == level / 8 && Mod(level, 8) == level % 8
    ensures level < 0 ==> Div(level, 8) == 0 && Mod(level, 8) == -1
  {
  }

  /** The part of zlog_rule_new that sets the bitmap; a level of -1 is an unknown name. */
  method BuildBitmap(compareChar: char, level: int) returns (bitmap: Bitmap)
    requires compareChar in {'*', '.', '=', '!'} && -1 <= level < 256
    ensures Exact(bitmap, compareChar, level)
  {
    hide OneBit, FromBit, LowByte, Bit;
    ByteOf(level);
    var i, k := Div(level, 8), Mod(level, 8);
    var a := new bv8[32](_ => 0);
    if compareChar == '=' {
      Fill(a, 0, 0);
      a[i] := a[i] | OneBit(k);
    } else if compareChar == '!' {
      Fill(a, 0, 0xFF);
      a[i] := a[i] & !OneBit(k);
    } else if compareChar == '*' {
      Fill(a, 0, 0xFF);
    } else {
      Fill(a, 0, 0);
      a[i] := a[i] | FromBit(k);
      Fill(a, i + 1, 0xFF);
    }
    bitmap := a[..];
    forall lv | 0 <= lv < 256 ensures Bit(bitmap, lv) <==> Outputs(compareChar, level, lv) {
      BuiltBit(bitmap, compareChar, level, i, k, lv);
    }
  }

  /** Byte n of the bitmap of a rule whose level is bit k of byte i. */
  function BuiltByte(compareChar: char, i: nat, k: int, n: nat): bv8
    requires -1 <= k < 8
  {
    match compareChar
    case '=' => if n == i then 0 | OneBit(k) else 0
    case '!' => if n == i then 0xFF & !OneBit(k) else 0xFF
    case '*' => 0xFF
    case _ => if n < i then 0 else if n == i then 0 | FromBit(k) else 0xFF
  }

  /** One level in the bitmap that has been built. */
  lemma {:induction false} BuiltBit(bitmap: Bitmap, compareChar: char, level: int, i: nat, k: int, lv: nat)
    requires compareChar in {'*', '.', '=', '!'} && i < 32 && -1 <= k < 8 && level == 8 * i + k && lv < 256
    requires k == -1 ==> i == 0
    requires bitmap[lv / 8] == BuiltByte(compareChar, i, k, lv / 8)
    ensures Bit(bitmap, lv) <==> Outputs(compareChar, level, lv)
  {
    hide OneBit, FromBit, BitOf;
    var n, j := lv / 8, lv % 8;
    OneBitAt(k, j);
    FromBitAt(k, j);
    Plain(j);
    OrNot(OneBit(k), j);
    OrNot(FromBit(k), j);
  }

  lemma {:induction false} Plain(j: nat)
    requires j < 8
    ensures BitOf(0xFF, j) && !BitOf(0, j)
  {
  }

  lemma {:induction false} OrNot(x: bv8, j: nat)
    requires j < 8
    ensures BitOf(0xFF & !x, j) <==> !BitOf(x, j)
    ensures BitOf(0 | x, j) <==> BitOf(x, j)
  {
  }

  // ------------------------------------------------------------- fitting a category

  predicate IsWastebin(r: Rule) {
    r.category == "!"
  }

  /** zlog_rule_match_category. */
  predicate Matches(r: Rule, name: string)
    requires r.category != ""
  {
    if r.category == "*" || r.category == name then true
    else if r.category[|r.category| - 1] == '_' then
      var n := if |name| == |r.category| - 1 then |name| else |r.category|;
      n <= |name| && r.category[..n] == name[..n]
    else false
  }

  /** "aa_" is for "aa" and everything that begins with "aa_", and for nothing else. */
  lemma {:induction false} MatchesUnderscore(r: Rule, stem: string, name: string)
    requires r.category == stem + "_"
    ensures Matches(r, name) <==> name == stem || r.category <= name
  {
    assert r.category[..|stem|] == stem;
    if |name| == |stem| {
      assert name[..|stem|] == name;
    }
  }

  /** A name without the closing underscore is for itself only. */
  lemma {:induction false} MatchesExactly(r: Rule, name: string)
    requires r.category != "" && r.category != "*" && r.category[|r.category| - 1] != '_'
    ensures Matches(r, name) <==> name == r.category
  {
  }

  /** A rule is for a category if and only if its own category is the star, or the same name, or
      ends in an underscore and is a prefix of the name or one character longer than it. */
  lemma {:induction false} MatchesIff(r: Rule, name: string)
    requires r.category != ""
    ensures Matches(r, name) <==>
            || r.category == "*"
            || r.category == name
            || (exists stem :: r.category == stem + "_" && (name == stem || r.category <= name))
  {
    var n := |r.category| - 1;
    var stem := r.category[..n];
    if r.category[n] == '_' {
      assert r.category == stem + "_";
      if r.category != "*" {
        MatchesUnderscore(r, stem, name);
      }
    }
    if other :| r.category == other + "_" && (name == other || r.category <= name) {
      assert other == stem && r.category[n] == '_';
    }
  }

  predicate Named(rules: seq<Rule>) {
    forall r :: r in rules ==> r.category != ""
  }

  /** The rules of the first n that match, in order. */
  function Matching(rules: seq<Rule>, n: nat, name: string): seq<Rule>
    requires n <= |rules| && Named(rules)
  {
    if n == 0 then []
    else Matching(rules, n - 1, name) + if Matches(rules[n - 1], name) then [rules[n - 1]] else []
  }

  /** The last wastebin of the first n rules. */
  function Wastebin(rules: seq<Rule>, n: nat): seq<Rule>
    requires n <= |rules|
  {
    if n == 0 then [] else if IsWastebin(rules[n - 1]) then [rules[n - 1]] else Wastebin(rules, n - 1)
  }

  /** The rules of a category: those that match, or else the wastebin. */
  function Fitted(rules: seq<Rule>, name: string): seq<Rule>
    requires Named(rules)
  {
    var m := Matching(rules, |rules|, name);
    if m == [] then Wastebin(rules, |rules|) else m
  }

  /** The first n bytes of the one or-ed with those of the other. */
  function OrBytes(a: Bitmap, b: Bitmap, n: nat): (c: seq<bv8>)
    requires n <= 32
    ensures |c| == n && forall i :: 0 <= i < n ==> c[i] == a[i] | b[i]
  {
    if n == 0 then [] else OrBytes(a, b, n - 1) + [a[n - 1] | b[n - 1]]
  }

  function Union(rules: seq<Rule>): Bitmap {
    if rules == [] then EMPTY else OrBytes(Union(rules[..|rules| - 1]), rules[|rules| - 1].bitmap, 32)
  }

  lemma {:induction false} OrBit(x: bv8, y: bv8, j: nat)
    requires j < 8
    ensures BitOf(x | y, j) <==> BitOf(x, j) || BitOf(y, j)
  {
  }

  lemma {:induction false} LastUnion(rules: seq<Rule>, lv: nat)
    requires lv < 256 && rules != []
    ensures var n := |rules| - 1;
            Bit(Union(rules), lv) <==> Bit(Union(rules[..n]), lv) || Bit(rules[n].bitmap, lv)
  {
    hide BitOf;
    var n := |rules| - 1;
    OrBit(Union(rules[..n])[lv / 8], rules[n].bitmap[lv / 8], lv % 8);
  }

  lemma {:induction false} UnionBit(rules: seq<Rule>, lv: nat)
    requires lv < 256
    ensures Bit(Union(rules), lv) <==> exists r :: r in rules && Bit(r.bitmap, lv)
  {
    if rules == [] {
      Plain(lv % 8);
    } else {
      hide Bit, Union;
      var front, last := rules[..|rules| - 1], rules[|rules| - 1];
      UnionBit(front, lv);
      LastUnion(rules, lv);
      assert rules == front + [last];
    }
  }

  lemma {:induction false} MatchingSpec(rules: seq<Rule>, n: nat, name: string)
    requires n <= |rules| && Named(rules)
    ensures forall r :: r in Matching(rules, n, name) <==> r in rules[..n] && Matches(r, name)
  {
    if n > 0 {
      MatchingSpec(rules, n - 1, name);
      assert rules[..n] == rules[..n - 1] + [rules[n - 1]];
    }
  }

  lemma {:induction false} WastebinSpec(rules: seq<Rule>, n: nat)
    requires n <= |rules|
    ensures forall r :: r in Wastebin(rules, n) ==> r in rules[..n] && IsWastebin(r)
    ensures Wastebin(rules, n) == [] ==> forall r :: r in rules[..n] ==> !IsWastebin(r)
    ensures forall r :: IsWastebin(r) <==> r.category == ['!']
  {
    if n > 0 {
      WastebinSpec(rules, n - 1);
      assert rules[..n] == rules[..n - 1] + [rules[n - 1]];
    }
  }

  /** Of several wastebin rules the last one counts. */
  lemma {:induction false} LastWastebin(rules: seq<Rule>, n: nat, i: nat)
    requires i < n <= |rules| && IsWastebin(rules[i]) && forall j :: i < j < n ==> !IsWastebin(rules[j])
    ensures Wastebin(rules, n) == [rules[i]]
  {
    if i < n - 1 {
      LastWastebin(rules, n - 1, i);
    }
  }

  lemma {:induction false} MatchingPrefix(a: seq<Rule>, b: seq<Rule>, n: nat, name: string)
    requires n <= |a| && Named(a) && Named(a + b)
    ensures Matching(a + b, n, name) == Matching(a, n, name)
  {
    if n > 0 {
      MatchingPrefix(a, b, n - 1, name);
    }
  }

  /** The rules that match are taken in the order of the configuration, each as often as it is there. */
  lemma {:induction false} MatchingInOrder(a: seq<Rule>, b: seq<Rule>, n: nat, name: string)
    requires Named(a) && Named(b) && Named(a + b) && n <= |b|
    ensures Matching(a + b, |a| + n, name) == Matching(a, |a|, name) + Matching(b, n, name)
  {
    hide Matches;
    if n == 0 {
      MatchingPrefix(a, b, |a|, name);
    } else {
      MatchingInOrder(a, b, n - 1, name);
      assert (a + b)[|a| + n - 1] == b[n - 1];
    }
  }

  /** With a rule for the star no category is left to the fallback. */
  lemma {:induction false} StarFitsAll(rules: seq<Rule>, r: Rule, name: string)
    requires Named(rules) && r in rules && r.category == "*"
    ensures r in Fitted(rules, name) && Fitted(rules, name) == Matching(rules, |rules|, name)
  {
    hide Matching;
    MatchesIff(r, name);
    MatchingSpec(rules, |rules|, name);
    assert rules[..|rules|] == rules;
  }

  /** The category's bitmap is an exact cache: it skips a level just when no rule that fits
      would put it out. */
  lemma {:induction false} CacheIsExact(rules: seq<Rule>, name: string, lv: nat)
    requires (forall r :: r in rules ==> Made(r)) && lv < 256
    ensures Named(rules) && (Bit(Union(Fitted(rules, name)), lv) <==>
            exists r :: r in Fitted(rules, name) && Outputs(r.compareChar, r.level, lv))
  {
    var fitted := Fitted(rules, name);
    UnionBit(fitted, lv);
    MatchingSpec(rules, |rules|, name);
    WastebinSpec(rules, |rules|);
    assert forall r :: r in fitted ==> Made(r);
  }
}

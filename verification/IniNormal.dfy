/**
  Exactly which texts are printed again unchanged after reading: every line must be written as
  it would be printed, none may repeat a section or a key, and every title must stand where a
  blank line parts it from the section before.
 */
module IniNormal {
  import opened IniText
  import opened IniModel
  import opened IniShape
  import opened IniMeaning
  import opened IniPrinted
  import opened Wrappers

  // ------------------------------------------------------------- what lines say

  lemma {:induction false} SaysPrefix(a: seq<string>, b: seq<string>, n: nat, s: string, k: string)
    requires n <= |a|
    ensures CurrentSect(a + b, n) == CurrentSect(a, n)
    ensures FirstSetting(a + b, n, s, k) == FirstSetting(a, n, s, k)
  {
    hide Classify;
    if n > 0 {
      SaysPrefix(a, b, n - 1, s, k);
    }
  }

  function Current(lines: seq<string>): string {
    CurrentSect(lines, |lines|)
  }

  function First(lines: seq<string>, s: string, k: string): Option<string> {
    FirstSetting(lines, |lines|, s, k)
  }

  lemma {:induction false} SaysMore(a: seq<string>, l: string, s: string, k: string)
    ensures Current(a + [l]) == if Classify(l).Title? then Fold(Classify(l).name) else Current(a)
    ensures First(a + [l], s, k) ==
            if First(a, s, k).Some? then First(a, s, k)
            else if Classify(l).Setting? && Current(a) == s && Fold(Classify(l).pair.key) == k
                 then Some(Classify(l).pair.value)
            else None
  {
    SaysPrefix(a, [l], |a|, s, k);
  }

  function Front(a: seq<string>): seq<string>
    requires a != []
  {
    a[..|a| - 1]
  }

  function Last(a: seq<string>): string
    requires a != []
  {
    a[|a| - 1]
  }

  /** The lines have a section of this folded name; the nameless one is always there. */
  predicate Seen(a: seq<string>, s: string) {
    if a == [] then s == ""
    else Seen(Front(a), s) || (Classify(Last(a)).Title? && Fold(Classify(Last(a)).name) == s)
  }

  /** The comments at the end, if any, begin the text or follow a blank line. */
  predicate Detached(a: seq<string>) {
    a == [] || Classify(Last(a)).Blank? || (Classify(Last(a)).Note? && Detached(Front(a)))
  }

  /** The line behind those of a is kept, and printed as it is. */
  predicate Fits(a: seq<string>, l: string) {
    match Classify(l)
    case Blank => true
    case Note(_) => true
    case Title(name) => l == "[" + name + "]" && !Seen(a, Fold(name))
    case Setting(p) => l == p.key + "=" + p.value && First(a, Current(a), Fold(p.key)) == None
    case Junk => false
  }

  predicate AllFit(a: seq<string>) {
    a == [] || (AllFit(Front(a)) && Fits(Front(a), Last(a)))
  }

  /** No separator has to be put in front of a title. */
  predicate AllSpaced(a: seq<string>) {
    a == [] || (AllSpaced(Front(a)) && (Classify(Last(a)).Title? ==> Detached(Front(a))))
  }

  predicate Normal(a: seq<string>) {
    AllFit(a) && AllSpaced(a)
  }

  // ------------------------------------------------------------- what the reader holds

  ghost predicate HasName(sects: seq<Sect>, s: string) {
    exists i :: 0 <= i < |sects| && Fold(sects[i].name) == s
  }

  function ReadAll(a: seq<string>): State {
    Read(Begin([]), a, |a|)
  }

  lemma {:induction false} ReadMore(a: seq<string>)
    requires a != []
    ensures ReadAll(a) == Step(ReadAll(Front(a)), Last(a))
  {
    hide Step;
    ReadPrefix(Begin([]), Front(a), [Last(a)], |a| - 1);
    assert Front(a) + [Last(a)] == a;
  }

  lemma {:induction false} ReadPrefix(st: State, a: seq<string>, b: seq<string>, n: nat)
    requires n <= |a|
    ensures Read(st, a + b, n) == Read(st, a, n)
  {
    hide Step;
    if n > 0 {
      ReadPrefix(st, a, b, n - 1);
    }
  }

  lemma {:induction false} StepNames(st: State, l: string, s: string)
    ensures HasName(Step(st, l).sects, s) <==>
            HasName(st.sects, s) || (Classify(l).Title? && Fold(Classify(l).name) == s)
  {
    hide Fold, Classify, TailAt, WithNil, PushSect;
    var r := Step(st, l);
    if Classify(l).Title? {
      TitleNames(st, Classify(l).name, s);
    } else {
      SameNames(st.sects, r.sects, s);
    }
  }

  lemma {:induction false} SameNames(a: seq<Sect>, b: seq<Sect>, s: string)
    requires |a| <= |b| && forall i :: 0 <= i < |a| ==> a[i].name == b[i].name
    ensures HasName(b, s) <==> HasName(a, s) || HasName(b[|a|..], s)
  {
    hide Fold;
    forall i | |a| <= i < |b| ensures b[i] == b[|a|..][i - |a|] {
    }
  }

  lemma {:induction false} TitleNames(st: State, name: string, s: string)
    ensures HasName(PushSect(st, name).sects, s) <==> HasName(st.sects, s) || Fold(name) == s
  {
    hide Fold, TailAt, WithNil;
    var r := PushSect(st, name).sects;
    FindSectSpec(st.sects, name);
    SameNames(st.sects, r, s);
    if FindSect(st.sects, name) == |st.sects| {
      assert r[|st.sects|..] == [r[|st.sects|]];
    } else {
      assert r[|st.sects|..] == [];
      assert HasName(st.sects, Fold(name));
    }
  }

  lemma {:induction false} SeenIsRead(a: seq<string>, s: string)
    ensures Seen(a, s) <==> HasName(ReadAll(a).sects, s)
  {
    hide Fold, Classify, Step, HasName;
    if a == [] {
      RootName(s);
    } else {
      SeenIsRead(Front(a), s);
      ReadMore(a);
      StepNames(ReadAll(Front(a)), Last(a), s);
    }
  }

  lemma {:induction false} RootName(s: string)
    ensures HasName(ReadAll([]).sects, s) <==> s == ""
  {
    var sects := ReadAll([]).sects;
    assert sects == [Sect("", [])] && Fold(sects[0].name) == "";
  }

  /** What Fits says of the lines, said of the state. */
  predicate FitsState(st: State, l: string) {
    match Classify(l)
    case Blank => true
    case Note(_) => true
    case Title(name) => l == "[" + name + "]" && name != "" && NewName(st.sects, name)
    case Setting(p) => l == p.key + "=" + p.value && Value(st.sects[st.cur].nodes, Fold(p.key)) == None
    case Junk => false
  }

  lemma {:induction false} FitsIsState(a: seq<string>, l: string)
    requires SingleLines(a) && AllTrimmed(a)
    ensures Fits(a, l) <==> FitsState(ReadAll(a), l)
  {
    hide Classify, Fold, Step, Value, Seen, First, Current;
    var st := ReadAll(a);
    match Classify(l)
    case Title(name) =>
      SeenIsRead(a, Fold(name));
      SeenIsRead(a, Fold(""));
      RootSeen(a);
    case Setting(p) =>
      FirstIsValue(a, Fold(p.key));
    case _ =>
  }

  lemma {:induction false} RootSeen(a: seq<string>)
    ensures Seen(a, Fold(""))
  {
    hide Classify;
    if a != [] {
      RootSeen(Front(a));
    }
  }

  lemma {:induction false} FirstIsValue(a: seq<string>, k: string)
    requires SingleLines(a) && AllTrimmed(a)
    ensures var st := ReadAll(a); First(a, Current(a), k) == Value(st.sects[st.cur].nodes, k)
  {
    hide Fold, Step, Value;
    var st := ReadAll(a);
    ReadMeansText(a, |a|, Current(a), k);
    BeginRoot();
    ReadKeepsShape(Begin([]), a, |a|);
    LookupAt(st.sects, st.cur, Current(a), k);
  }

  // ------------------------------------------------------------- lines that fit are kept

  predicate Settled(nodes: seq<Entry>) {
    nodes == [] || EndsNil(nodes)
  }

  predicate AllSettled(sects: seq<Sect>, n: nat)
    requires n <= |sects|
  {
    forall i :: 0 <= i < n ==> Settled(sects[i].nodes)
  }

  /** Detached, said of nodes. */
  predicate Quiet(nodes: seq<Entry>, n: nat)
    requires n <= |nodes|
  {
    n == 0 || nodes[n - 1].NilLine? || (nodes[n - 1].Comment? && Quiet(nodes, n - 1))
  }

  lemma {:induction false} QuietPrefix(a: seq<Entry>, b: seq<Entry>, n: nat)
    requires n <= |a|
    ensures Quiet(a + b, n) == Quiet(a, n)
  {
    if n > 0 {
      QuietPrefix(a, b, n - 1);
    }
  }

  lemma {:induction false} QuietComments(nodes: seq<Entry>, n: nat)
    requires n <= |nodes| && (n == 0 || !nodes[n - 1].NilLine?)
    ensures var c := CommentsFrom(nodes, n); Quiet(nodes, n) <==> c == 0 || nodes[c - 1].NilLine?
  {
    if n > 1 && nodes[n - 1].Comment? && !nodes[n - 2].NilLine? {
      QuietComments(nodes, n - 1);
    }
  }

  /** When the comments move to a new section, what is left needs no separator just then. */
  lemma {:induction false} QuietTail(nodes: seq<Entry>)
    ensures Settled(nodes[..TailAt(nodes)]) <==> Quiet(nodes, |nodes|)
  {
    var m := TailAt(nodes);
    assert Settled(nodes[..m]) <==> m == 0 || nodes[m - 1].NilLine?;
    if EndsNil(nodes) {
      assert m == 0 || nodes[m - 1].NilLine?;
    } else if nodes != [] {
      QuietComments(nodes, |nodes|);
      var c := CommentsFrom(nodes, |nodes|);
      assert m == if c == 0 || nodes[c - 1].NilLine? then c else |nodes|;
      assert Quiet(nodes, |nodes|) <==> m == 0 || nodes[m - 1].NilLine?;
    }
  }

  /** The lines of the first n sections, with no separator between them. */
  function Flat(sects: seq<Sect>, n: nat): seq<string>
    requires n <= |sects|
  {
    if n == 0 then [] else Flat(sects, n - 1) + AllLines(sects[n - 1].name, sects[n - 1].nodes)
  }

  lemma {:induction false} FlatPrefix(a: seq<Sect>, b: seq<Sect>, n: nat)
    requires n <= |a| && n <= |b| && forall i :: 0 <= i < n ==> a[i] == b[i]
    ensures Flat(a, n) == Flat(b, n)
  {
    hide AllLines;
    if n > 0 {
      FlatPrefix(a, b, n - 1);
    }
  }

  /** The reader holds just the lines a, in the last section and those before. */
  predicate Follows(st: State, a: seq<string>) {
    && st.cur == |st.sects| - 1 && Flat(st.sects, |st.sects|) == a
    && (Quiet(st.sects[st.cur].nodes, |st.sects[st.cur].nodes|) <==> Detached(a))
    && (AllSettled(st.sects, st.cur) <==> AllSpaced(a))
  }

  function Added(st: State, e: Entry): State {
    var s := st.sects[st.cur];
    State(st.sects[st.cur := Sect(s.name, s.nodes + [e])], st.cur)
  }

  lemma {:induction false} FlatAdded(st: State, e: Entry)
    requires st.cur == |st.sects| - 1
    ensures var n := |st.sects|;
            Flat(Added(st, e).sects, n) == Flat(st.sects, n) + EntryLines(st.sects[st.cur].name, e)
  {
    hide EntryLines, AllLines;
    var n, s := st.cur, st.sects[st.cur];
    FlatPrefix(Added(st, e).sects, st.sects, n);
    OneEntryMore(s.name, s.nodes, e);
    Reassoc(Flat(st.sects, n), AllLines(s.name, s.nodes), EntryLines(s.name, e));
  }

  lemma {:induction false} AddedFollows(st: State, a: seq<string>, e: Entry, l: string)
    requires Follows(st, a) && !e.Header? && EntryLines(st.sects[st.cur].name, e) == [l]
    requires match Classify(l)
             case Blank => e.NilLine?
             case Note(_) => e.Comment?
             case Setting(_) => e.Item?
             case _ => false
    ensures Follows(Added(st, e), a + [l])
  {
    hide Classify, EntryLines, Flat, AllSettled, AllSpaced, Detached;
    FlatAdded(st, e);
    var nodes := st.sects[st.cur].nodes;
    QuietPrefix(nodes, [e], |nodes|);
    SaysLast(a, l);
    AllSettledPrefix(Added(st, e).sects, st.sects, st.cur);
  }

  /** A new title behind the last section: the trailing comments move along. */
  function Opened(st: State, name: string): State {
    var s := st.sects[st.cur];
    var m := TailAt(s.nodes);
    State(st.sects[st.cur := Sect(s.name, s.nodes[..m])] + [Sect(name, s.nodes[m..] + [Header])], |st.sects|)
  }

  lemma {:induction false} TitleOpens(st: State, name: string)
    requires NewName(st.sects, name)
    ensures PushSect(st, name) == Opened(st, name)
  {
    hide TailAt;
    FindSectSpec(st.sects, name);
  }

  /** Moving comments before a new title changes no line. */
  lemma {:induction false} MovedLines(a: string, b: string, nodes: seq<Entry>, m: nat)
    requires m <= |nodes| && NoHeader(nodes[m..])
    ensures AllLines(a, nodes[..m]) + AllLines(b, nodes[m..] + [Header]) == AllLines(a, nodes) + EntryLines(b, Header)
  {
    hide EntryLines, AllLines;
    var front, tail := nodes[..m], nodes[m..];
    assert nodes == front + tail;
    LinesAppend(a, front, tail);
    OneEntryMore(b, tail, Header);
    assert AllLines(a, tail) == AllLines(b, tail) by {
      SameLines(a, b, tail);
    }
    Reassoc(AllLines(a, front), AllLines(a, tail), EntryLines(b, Header));
  }

  lemma {:induction false} SameLines(a: string, b: string, nodes: seq<Entry>)
    requires NoHeader(nodes)
    ensures AllLines(a, nodes) == AllLines(b, nodes)
  {
    NamelessLines(a, b, nodes, |nodes|);
  }

  lemma {:induction false} FlatOpened(st: State, name: string)
    requires st.cur == |st.sects| - 1
    ensures var n := |st.sects|;
            Flat(Opened(st, name).sects, n + 1) == Flat(st.sects, n) + EntryLines(name, Header)
  {
    hide EntryLines, AllLines, TailAt;
    var n, s := st.cur, st.sects[st.cur];
    var m := TailAt(s.nodes);
    var r := Opened(st, name).sects;
    TailSpec(s.nodes);
    FlatPrefix(r, st.sects, n);
    MovedLines(s.name, name, s.nodes, m);
    var cut, next := AllLines(s.name, s.nodes[..m]), AllLines(name, s.nodes[m..] + [Header]);
    assert Flat(r, n + 2) == Flat(st.sects, n) + cut + next by {
      assert r[n] == Sect(s.name, s.nodes[..m]) && r[n + 1] == Sect(name, s.nodes[m..] + [Header]);
    }
    Reassoc(Flat(st.sects, n), cut, next);
    Reassoc(Flat(st.sects, n), AllLines(s.name, s.nodes), EntryLines(name, Header));
  }

  lemma {:induction false} OpenedFollows(st: State, a: seq<string>, name: string, l: string)
    requires Follows(st, a) && l == "[" + name + "]" && name != "" && Classify(l) == Title(name)
    ensures Follows(Opened(st, name), a + [l])
  {
    hide Classify, Flat, Opened, AllSettled, Quiet, AllSpaced, Detached;
    FlatOpened(st, name);
    OpenedQuiet(st, name);
    SaysLast(a, l);
    assert EntryLines(name, Header) == [l];
  }

  lemma {:induction false} SaysLast(a: seq<string>, l: string)
    ensures AllSpaced(a + [l]) <==> AllSpaced(a) && (Classify(l).Title? ==> Detached(a))
    ensures Detached(a + [l]) <==> Classify(l).Blank? || (Classify(l).Note? && Detached(a))
  {
    hide Classify;
    assert Front(a + [l]) == a;
  }

  lemma {:induction false} OpenedQuiet(st: State, name: string)
    requires st.cur == |st.sects| - 1
    ensures var r, nodes := Opened(st, name), st.sects[st.cur].nodes;
            && r.cur == |r.sects| - 1 == |st.sects|
            && !Quiet(r.sects[r.cur].nodes, |r.sects[r.cur].nodes|)
            && (AllSettled(r.sects, r.cur) <==> AllSettled(st.sects, st.cur) && Quiet(nodes, |nodes|))
  {
    hide Settled, TailAt;
    var r, n := Opened(st, name), st.cur;
    QuietTail(st.sects[n].nodes);
    assert r.sects[..n] == st.sects[..n];
    AllSettledPrefix(r.sects, st.sects, n);
  }

  lemma {:induction false} AllSettledPrefix(a: seq<Sect>, b: seq<Sect>, n: nat)
    requires n < |a| && n <= |b| && a[..n] == b[..n]
    ensures AllSettled(a, n) <==> AllSettled(b, n)
    ensures AllSettled(a, n + 1) <==> AllSettled(b, n) && Settled(a[n].nodes)
  {
    hide Settled;
    assert forall i :: 0 <= i < n ==> a[i] == a[..n][i] && b[i] == b[..n][i];
  }

  lemma {:induction false} StepFollows(st: State, a: seq<string>, l: string)
    requires Follows(st, a) && FitsState(st, l)
    ensures Follows(Step(st, l), a + [l])
  {
    hide Follows;
    match Classify(l)
    case Blank => AddedFollows(st, a, NilLine, l);
    case Note(t) => AddedFollows(st, a, Comment(t), l);
    case Setting(p) => AddedFollows(st, a, Item(p), l);
    case Title(name) =>
      TitleOpens(st, name);
      OpenedFollows(st, a, name, l);
  }

  lemma {:induction false} GoodFront(a: seq<string>)
    requires a != [] && SingleLines(a) && AllTrimmed(a)
    ensures SingleLines(Front(a)) && AllTrimmed(Front(a)) && OneLine(Last(a)) && Front(a) + [Last(a)] == a
  {
  }

  /** Lines that fit are held as they are. */
  lemma {:induction false} FitFollows(a: seq<string>)
    requires AllFit(a) && SingleLines(a) && AllTrimmed(a)
    ensures Follows(ReadAll(a), a)
  {
    hide Follows, Fits, FitsState, Step, Read;
    if a == [] {
      NothingFollows();
    } else {
      GoodFront(a);
      FitFollows(Front(a));
      FitsIsState(Front(a), Last(a));
      StepFollows(ReadAll(Front(a)), Front(a), Last(a));
      ReadMore(a);
    }
  }

  lemma {:induction false} NothingFollows()
    ensures Follows(ReadAll([]), [])
  {
    var sects := ReadAll([]).sects;
    assert sects == [Sect("", [])];
    assert Flat(sects, 1) == Flat(sects, 0) + AllLines("", []);
  }

  // ------------------------------------------------------------- other lines lose characters

  function Total(lines: seq<string>): nat {
    if lines == [] then 0 else Total(Front(lines)) + |Last(lines)|
  }

  lemma {:induction false} TotalAppend(a: seq<string>, b: seq<string>)
    ensures Total(a + b) == Total(a) + Total(b)
    decreases |b|
  {
    if b == [] {
      assert a + b == a;
    } else {
      assert Front(a + b) == a + Front(b);
      TotalAppend(a, Front(b));
    }
  }

  lemma {:induction false} TotalOne(l: string)
    ensures Total([l]) == |l| && Total([]) == 0
  {
  }

  function Weight(name: string, nodes: seq<Entry>): nat {
    Total(AllLines(name, nodes))
  }

  lemma {:induction false} WeightAppend(name: string, a: seq<Entry>, b: seq<Entry>)
    ensures Weight(name, a + b) == Weight(name, a) + Weight(name, b)
  {
    hide AllLines, Total;
    LinesAppend(name, a, b);
    TotalAppend(AllLines(name, a), AllLines(name, b));
  }

  lemma {:induction false} WeightOne(name: string, e: Entry)
    ensures Weight(name, [e]) ==
            match e
            case NilLine => 0
            case Comment(t) => |t|
            case Header => if name == "" then 0 else |name| + 2
            case Item(p) => |p.key| + |p.value| + 1
  {
    hide AllLines, Total;
    OneEntryMore(name, [], e);
    TotalOne(if EntryLines(name, e) == [] then "" else EntryLines(name, e)[0]);
  }

  lemma {:induction false} WeightWithNil(name: string, nodes: seq<Entry>)
    ensures Weight(name, WithNil(nodes)) == Weight(name, nodes)
  {
    hide Weight;
    WeightAppend(name, nodes, [NilLine]);
    WeightOne(name, NilLine);
  }

  function FlatWeight(sects: seq<Sect>, n: nat): nat
    requires n <= |sects|
  {
    if n == 0 then 0 else FlatWeight(sects, n - 1) + Weight(sects[n - 1].name, sects[n - 1].nodes)
  }

  lemma {:induction false} PrintedStep(sects: seq<Sect>, n: nat)
    requires 0 < n <= |sects|
    ensures var s := sects[n - 1];
            var own, sep := AllLines(s.name, s.nodes), AllLines(s.name, Separator(s, n == |sects|));
            && PrintLines(sects, n) == PrintLines(sects, n - 1) + own + sep
            && Flat(sects, n) == Flat(sects, n - 1) + own
            && (sep == [] <==> n == |sects| || Settled(s.nodes))
  {
    hide AllLines, Flat;
    var s := sects[n - 1];
    var own, sep := AllLines(s.name, s.nodes), AllLines(s.name, Separator(s, n == |sects|));
    SeparatorLines(s, n == |sects|);
    Reassoc(PrintLines(sects, n - 1), own, sep);
    FlatStep(sects, n);
  }

  lemma {:induction false} FlatStep(sects: seq<Sect>, n: nat)
    requires 0 < n <= |sects|
    ensures Flat(sects, n) == Flat(sects, n - 1) + AllLines(sects[n - 1].name, sects[n - 1].nodes)
  {
  }

  lemma {:induction false} FlatWeighs(sects: seq<Sect>, n: nat)
    requires n <= |sects|
    ensures Total(Flat(sects, n)) == FlatWeight(sects, n)
    ensures Total(PrintLines(sects, n)) == FlatWeight(sects, n)
  {
    hide *;
    if n == 0 {
      NothingFlat(sects);
    } else {
      FlatWeighs(sects, n - 1);
      PrintedStep(sects, n);
      WeightStep(sects, n);
      var s := sects[n - 1];
      var own, sep := AllLines(s.name, s.nodes), AllLines(s.name, Separator(s, n == |sects|));
      TotalAppend(Flat(sects, n - 1), own);
      TotalAppend(PrintLines(sects, n - 1), own);
      TotalAppend(PrintLines(sects, n - 1) + own, sep);
      SeparatorWeighs(s, n == |sects|);
    }
  }

  lemma {:induction false} NothingFlat(sects: seq<Sect>)
    ensures Total(Flat(sects, 0)) == Total(PrintLines(sects, 0)) == FlatWeight(sects, 0)
  {
  }

  lemma {:induction false} WeightStep(sects: seq<Sect>, n: nat)
    requires 0 < n <= |sects|
    ensures var s := sects[n - 1];
            FlatWeight(sects, n) == FlatWeight(sects, n - 1) + Total(AllLines(s.name, s.nodes))
  {
  }

  lemma {:induction false} SeparatorWeighs(s: Sect, last: bool)
    ensures Total(AllLines(s.name, Separator(s, last))) == 0
  {
    hide AllLines;
    SeparatorLines(s, last);
    TotalOne("");
  }

  lemma {:induction false} WeightReplaced(sects: seq<Sect>, i: nat, t: Sect, n: nat)
    requires i < |sects| && n <= |sects|
    ensures var s := sects[i];
            FlatWeight(sects[i := t], n) ==
              FlatWeight(sects, n) + if i < n then Weight(t.name, t.nodes) - Weight(s.name, s.nodes) else 0
  {
    hide Weight;
    if n > 0 {
      WeightReplaced(sects, i, t, n - 1);
    }
  }

  lemma {:induction false} TrimSame(s: string)
    ensures |Trim(s)| <= |s| && (|Trim(s)| == |s| ==> Trim(s) == s)
  {
    TrimSpec(s, SPACES);
    TrimSpec(RTrim(s), SPACES);
  }

  lemma {:induction false} SettingShrinks(l: string)
    requires Classify(l).Setting?
    ensures var p := Classify(l).pair;
            |p.key| + |p.value| + 1 < |l| || l == p.key + "=" + p.value
  {
    var n := EqualAt(l);
    EqualAtSpec(l);
    TrimSame(l[..n]);
    TrimSame(l[n + 1..]);
    assert l == l[..n] + "=" + l[n + 1..];
  }

  lemma {:induction false} TitleShrinks(l: string)
    requires Classify(l).Title?
    ensures var name := Classify(l).name;
            |name| + 2 < |l| || l == "[" + name + "]"
  {
    var n := |l| - 2;
    var r := RTrim(l, "]");
    var m := LTrim(r, "[");
    assert Classify(l).name == Trim(m);
    hide RTrim, LTrim, Trim, Classify;
    CloserGoes(l);
    OpenTrimmed(r);
    TrimSpec(r, "[");
    TrimSame(m);
    assert l == "[" + l[1..n + 1] + "]";
    if |Trim(m)| == n {
      assert r == l[..n + 1] && m == r[1..];
      assert m == l[1..n + 1];
    }
  }

  lemma {:induction false} CloserGoes(l: string)
    requires l != "" && l[0] == '[' && l[|l| - 1] == ']'
    ensures var r := RTrim(l, "]"); |r| < |l| && r != [] && r[0] == '[' && r == l[..|r|]
  {
    hide RTrim, LTrim;
    var open := l[..|l| - 1];
    assert l == open + "]";
    RTrimStep(open);
    RTrimSpec(open, "]");
    assert open == "[" + open[1..];
    BracketStays(open[1..]);
  }

  ghost predicate WeighsLess(st: State, l: string, r: State) {
    var before, after := FlatWeight(st.sects, |st.sects|), FlatWeight(r.sects, |r.sects|);
    after <= before + |l| && (!FitsState(st, l) ==> after < before + |l|)
  }

  lemma {:induction false} PushWeighs(st: State, e: Entry)
    requires !e.Header?
    ensures var before, after := FlatWeight(st.sects, |st.sects|), FlatWeight(Push(st, e).sects, |st.sects|);
            after == before +
              if PushNode(st.sects[st.cur].nodes, e) == st.sects[st.cur].nodes then 0
              else Weight(st.sects[st.cur].name, [e])
  {
    hide Weight, Value;
    var s := st.sects[st.cur];
    WeightReplaced(st.sects, st.cur, Sect(s.name, PushNode(s.nodes, e)), |st.sects|);
    WeightAppend(s.name, s.nodes, [e]);
  }

  lemma {:induction false} EntryStepWeighs(st: State, l: string)
    requires !Classify(l).Title?
    ensures WeighsLess(st, l, Step(st, l))
  {
    hide Weight, Value, FlatWeight;
    var s := st.sects[st.cur];
    match Classify(l)
    case Blank =>
      PushWeighs(st, NilLine);
      WeightOne(s.name, NilLine);
    case Note(t) =>
      PushWeighs(st, Comment(t));
      WeightOne(s.name, Comment(t));
    case Setting(p) =>
      PushWeighs(st, Item(p));
      WeightOne(s.name, Item(p));
      SettingShrinks(l);
    case Junk =>
  }

  /** Comments that move take their characters along. */
  lemma {:induction false} CutWeighs(a: string, b: string, nodes: seq<Entry>)
    ensures var m := TailAt(nodes); Weight(a, nodes) == Weight(a, nodes[..m]) + Weight(b, nodes[m..])
  {
    hide Weight, TailAt;
    var m := TailAt(nodes);
    TailSpec(nodes);
    assert nodes == nodes[..m] + nodes[m..];
    WeightAppend(a, nodes[..m], nodes[m..]);
    SameWeight(a, b, nodes[m..]);
  }

  lemma {:induction false} SameWeight(a: string, b: string, nodes: seq<Entry>)
    requires NoHeader(nodes)
    ensures Weight(a, nodes) == Weight(b, nodes)
  {
    SameLines(a, b, nodes);
  }

  lemma {:induction false} NewTitleWeighs(st: State, name: string)
    requires NewName(st.sects, name)
    ensures var r := PushSect(st, name);
            FlatWeight(r.sects, |r.sects|) == FlatWeight(st.sects, |st.sects|) + if name == "" then 0 else |name| + 2
  {
    hide Weight, TailAt;
    TitleOpens(st, name);
    var n, s := |st.sects|, st.sects[st.cur];
    var m := TailAt(s.nodes);
    var r, cut := PushSect(st, name).sects, st.sects[st.cur := Sect(s.name, s.nodes[..m])];
    WeightReplaced(st.sects, st.cur, Sect(s.name, s.nodes[..m]), n);
    WeightPrefix(r, cut, n);
    CutWeighs(s.name, name, s.nodes);
    WeightAppend(name, s.nodes[m..], [Header]);
    WeightOne(name, Header);
  }

  lemma {:induction false} WeightPrefix(a: seq<Sect>, b: seq<Sect>, n: nat)
    requires n <= |a| && n <= |b| && forall i :: 0 <= i < n ==> a[i] == b[i]
    ensures FlatWeight(a, n) == FlatWeight(b, n)
  {
    hide Weight;
    if n > 0 {
      WeightPrefix(a, b, n - 1);
    }
  }

  lemma {:induction false} OldTitleWeighs(st: State, name: string)
    requires !NewName(st.sects, name)
    ensures var r := PushSect(st, name);
            FlatWeight(r.sects, |r.sects|) == FlatWeight(st.sects, |st.sects|)
  {
    hide Weight, TailAt, WithNil, FlatWeight;
    var (sects, cur, n) := (st.sects, st.cur, |st.sects|);
    var f := FindSect(sects, name);
    FindSectSpec(sects, name);
    if f != cur {
      var s, t := sects[cur], sects[f];
      var m := TailAt(s.nodes);
      var cut, more := sects[cur := Sect(s.name, s.nodes[..m])], WithNil(t.nodes) + s.nodes[m..];
      WeightReplaced(sects, cur, Sect(s.name, s.nodes[..m]), n);
      WeightReplaced(cut, f, Sect(t.name, WithNil(more)), n);
      CutWeighs(s.name, t.name, s.nodes);
      WeightWithNil(t.name, t.nodes);
      WeightAppend(t.name, WithNil(t.nodes), s.nodes[m..]);
      WeightWithNil(t.name, more);
    }
  }

  lemma {:induction false} StepWeighs(st: State, l: string)
    ensures WeighsLess(st, l, Step(st, l))
  {
    hide FlatWeight, NewName, PushSect;
    if Classify(l).Title? {
      TitleShrinks(l);
      if NewName(st.sects, Classify(l).name) {
        NewTitleWeighs(st, Classify(l).name);
      } else {
        OldTitleWeighs(st, Classify(l).name);
      }
    } else {
      EntryStepWeighs(st, l);
    }
  }

  /** A line that does not fit loses characters for good. */
  lemma {:induction false} ReadWeighs(a: seq<string>)
    requires SingleLines(a) && AllTrimmed(a)
    ensures var r := ReadAll(a).sects;
            FlatWeight(r, |r|) <= Total(a) && (!AllFit(a) ==> FlatWeight(r, |r|) < Total(a))
  {
    hide FlatWeight, Step, Fits, FitsState, Read;
    if a == [] {
      NothingWeighs();
    } else {
      GoodFront(a);
      ReadWeighs(Front(a));
      FitsIsState(Front(a), Last(a));
      StepWeighs(ReadAll(Front(a)), Last(a));
      ReadMore(a);
    }
  }

  lemma {:induction false} NothingWeighs()
    ensures var r := ReadAll([]).sects; FlatWeight(r, |r|) == 0
  {
    var r := ReadAll([]).sects;
    assert r == [Sect("", [])];
    assert FlatWeight(r, 1) == FlatWeight(r, 0) + Weight("", []);
  }

  // ------------------------------------------------------------- exactly the normal texts

  lemma {:induction false} SeparatorShows(a: seq<string>, b: seq<string>, own: seq<string>, sep: seq<string>)
    requires |a| >= |b| && (|a| == |b| ==> a == b)
    ensures |a + own + sep| >= |b + own| && (a + own + sep == b + own <==> a == b && sep == [])
    ensures |a + own + sep| == |b + own| ==> a + own + sep == b + own
  {
    if a == b && sep == [] {
      assert a + own + sep == b + own;
    }
  }

  lemma {:induction false} NothingPrinted(sects: seq<Sect>)
    ensures PrintLines(sects, 0) == Flat(sects, 0) && AllSettled(sects, 0)
  {
  }

  lemma {:induction false} SettledMore(sects: seq<Sect>, n: nat)
    requires n < |sects|
    ensures AllSettled(sects, n + 1) <==> AllSettled(sects, n) && Settled(sects[n].nodes)
  {
    hide Settled;
  }

  /** Separators are printed just behind the sections that are not settled. */
  lemma {:induction false} PrintedIsFlat(sects: seq<Sect>, n: nat)
    requires n <= |sects|
    ensures |PrintLines(sects, n)| >= |Flat(sects, n)|
    ensures var m := if n == |sects| && n > 0 then n - 1 else n;
            PrintLines(sects, n) == Flat(sects, n) <==> AllSettled(sects, m)
    ensures |PrintLines(sects, n)| == |Flat(sects, n)| ==> PrintLines(sects, n) == Flat(sects, n)
  {
    hide AllLines, PrintLines, Flat, AllSettled, Settled, Separator;
    if n == 0 {
      NothingPrinted(sects);
    } else {
      PrintedStep(sects, n);
      PrintedIsFlat(sects, n - 1);
      SettledMore(sects, n - 1);
      var s := sects[n - 1];
      SeparatorShows(PrintLines(sects, n - 1), Flat(sects, n - 1), AllLines(s.name, s.nodes),
                     AllLines(s.name, Separator(s, n == |sects|)));
    }
  }

  /** What is read from trimmed lines is printed as the same lines if and only if they are normal. */
  lemma {:induction false} NormalIsFixpoint(a: seq<string>)
    requires SingleLines(a) && AllTrimmed(a)
    ensures var r := ReadAll(a).sects; PrintLines(r, |r|) == a <==> Normal(a)
  {
    hide PrintLines, Flat, AllSettled, AllSpaced, AllFit, Read;
    var st := ReadAll(a);
    var r := st.sects;
    PrintedIsFlat(r, |r|);
    if AllFit(a) {
      FitFollows(a);
    } else {
      ReadWeighs(a);
      FlatWeighs(r, |r|);
    }
  }
}

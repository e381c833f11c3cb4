/**
  The shape that every INI file read from text has, and that every further line keeps.
 */
module IniShape {
  import opened IniText
  import opened IniModel
  import opened Wrappers

  // ------------------------------------------------------------- well-formed files

  predicate NoteMark(c: char) {
    c == ';' || c == '#'
  }

  predicate OneLine(s: string) {
    Trimmed(s) && '\n' !in s
  }

  /** A key and a value as try_create and the index operators leave them. */
  predicate SoundPair(p: Pair) {
    OneLine(p.key) && p.key != "" && '=' !in p.key && OneLine(p.value)
  }

  /** A setting whose printed line is read as a setting again: not as a comment, and not as a
      section's title. */
  predicate Readable(p: Pair) {
    p.key != "" ==>
      !NoteMark(p.key[0]) && !(p.key[0] == '[' && p.value != "" && p.value[|p.value| - 1] == ']')
  }

  predicate GoodPair(p: Pair) {
    SoundPair(p) && Readable(p)
  }

  predicate SoundEntry(e: Entry) {
    match e
    case Comment(t) => OneLine(t) && t != "" && NoteMark(t[0])
    case Item(p) => SoundPair(p)
    case _ => true
  }

  predicate GoodEntry(e: Entry) {
    SoundEntry(e) && (e.Item? ==> Readable(e.kv))
  }

  /** The setting at i, if it is one, has a key that no earlier setting has. */
  predicate FreshAt(nodes: seq<Entry>, i: nat)
    requires i < |nodes|
  {
    nodes[i].Item? ==> Value(nodes[..i], Fold(nodes[i].kv.key)) == None
  }

  predicate SoundNodes(nodes: seq<Entry>) {
    forall i :: 0 <= i < |nodes| ==> SoundEntry(nodes[i]) && FreshAt(nodes, i)
  }

  predicate ReadableNodes(nodes: seq<Entry>) {
    forall i :: 0 <= i < |nodes| && nodes[i].Item? ==> Readable(nodes[i].kv)
  }

  predicate NoHeader(nodes: seq<Entry>) {
    forall i :: 0 <= i < |nodes| ==> !nodes[i].Header?
  }

  /** The section's own line stands at h, once, behind what the section before it left over. */
  predicate HeaderAt(nodes: seq<Entry>, h: nat) {
    && h < |nodes| && nodes[h].Header?
    && Lead(nodes[..h])
    && (forall i :: h < i < |nodes| ==> !nodes[i].Header?)
  }

  predicate GoodName(name: string) {
    name != "" && OneLine(name)
  }

  /** Around one header; the nameless section that a reading begins with has none. */
  ghost predicate SoundSect(s: Sect) {
    && (s.name == "" || GoodName(s.name)) && SoundNodes(s.nodes)
    && ((exists h :: HeaderAt(s.nodes, h)) || (s.name == "" && NoHeader(s.nodes)))
  }

  predicate DistinctNames(sects: seq<Sect>) {
    forall i, j :: 0 <= i < j < |sects| ==> Fold(sects[i].name) != Fold(sects[j].name)
  }

  /** What reading, indexing and assigning produce, in any order: no name or key twice. */
  ghost predicate Sound(sects: seq<Sect>) {
    && (forall i :: 0 <= i < |sects| ==> SoundSect(sects[i]))
    && DistinctNames(sects)
  }

  /** Every setting is read as itself again. */
  predicate AllReadable(sects: seq<Sect>) {
    forall i :: 0 <= i < |sects| ==> ReadableNodes(sects[i].nodes)
  }

  /** In front is a section without a name and without a header. */
  predicate Rooted(sects: seq<Sect>) {
    sects != [] && sects[0].name == "" && NoHeader(sects[0].nodes)
  }

  /** What reading alone produces. */
  ghost predicate WellFormed(sects: seq<Sect>) {
    Sound(sects) && Rooted(sects) && AllReadable(sects)
  }

  /** A name that its own brackets do not swallow. */
  predicate PlainName(name: string) {
    name != "" ==> name[0] != '[' && name[|name| - 1] != ']'
  }

  predicate AllPlain(sects: seq<Sect>) {
    forall i :: 0 <= i < |sects| ==> PlainName(sects[i].name)
  }

  // ------------------------------------------------------------- values in node lists

  lemma {:induction false} ValueAppend(a: seq<Entry>, b: seq<Entry>, k: string)
    ensures Value(a + b, k) == if Value(a, k).Some? then Value(a, k) else Value(b, k)
  {
    if a == [] {
      assert a + b == b;
    } else {
      assert (a + b)[1..] == a[1..] + b;
      ValueAppend(a[1..], b, k);
    }
  }

  lemma {:induction false} NoItemNoValue(nodes: seq<Entry>, k: string)
    requires forall i :: 0 <= i < |nodes| ==> !nodes[i].Item?
    ensures Value(nodes, k) == None
  {
    if nodes != [] {
      NoItemNoValue(nodes[1..], k);
    }
  }

  /** Cutting a tail of comments, or adding nodes that are no settings, changes no value. */
  lemma {:induction false} ValueIgnores(a: seq<Entry>, b: seq<Entry>, k: string)
    requires forall i :: 0 <= i < |b| ==> !b[i].Item?
    ensures Value(a + b, k) == Value(a, k)
    ensures Value(b + a, k) == Value(a, k)
  {
    ValueAppend(a, b, k);
    ValueAppend(b, a, k);
    NoItemNoValue(b, k);
  }

  lemma {:induction false} SoundNodesPrefix(nodes: seq<Entry>, n: nat)
    requires SoundNodes(nodes) && n <= |nodes|
    ensures SoundNodes(nodes[..n])
  {
    forall i | 0 <= i < n ensures FreshAt(nodes[..n], i) {
      assert nodes[..n][..i] == nodes[..i];
      assert FreshAt(nodes, i);
    }
  }

  lemma {:induction false} SoundNodesAdd(nodes: seq<Entry>, e: Entry)
    requires SoundNodes(nodes) && SoundEntry(e)
    requires e.Item? ==> Value(nodes, Fold(e.kv.key)) == None
    ensures SoundNodes(nodes + [e])
  {
    forall i | 0 <= i <= |nodes| ensures FreshAt(nodes + [e], i) {
      assert (nodes + [e])[..i] == nodes[..i];
      if i < |nodes| {
        assert FreshAt(nodes, i);
      } else {
        assert nodes[..i] == nodes;
      }
    }
  }

  lemma {:induction false} SoundNodesAppend(a: seq<Entry>, b: seq<Entry>)
    requires SoundNodes(a)
    requires forall i :: 0 <= i < |b| ==> !b[i].Item? && SoundEntry(b[i])
    ensures SoundNodes(a + b)
    decreases |b|
  {
    if b == [] {
      assert a + b == a;
    } else {
      var n := |b| - 1;
      SoundNodesAppend(a, b[..n]);
      assert a + b == a + b[..n] + [b[n]];
      SoundNodesAdd(a + b[..n], b[n]);
    }
  }

  // ------------------------------------------------------------- parsing is well-formed

  lemma {:induction false} TrimIsOneLine(s: string)
    requires '\n' !in s
    ensures OneLine(Trim(s))
  {
    TrimTrims(s);
    TrimDrops(s, SPACES, '\n');
    TrimDrops(RTrim(s), SPACES, '\n');
  }

  lemma {:induction false} TitleIsGood(s: string)
    requires OneLine(s)
    ensures OneLine(TitleName(s))
  {
    TrimDrops(s, "]", '\n');
    TrimDrops(RTrim(s, "]"), "[", '\n');
    TrimIsOneLine(LTrim(RTrim(s, "]"), "["));
  }

  lemma {:induction false} KeyIsGood(s: string, n: nat)
    requires OneLine(s) && 0 < n < |s| && '=' !in s[..n]
    ensures var key := Trim(s[..n]);
            OneLine(key) && key != "" && '=' !in key && key[0] == s[0]
  {
    TrimIsOneLine(s[..n]);
    TrimPrefix(s, n);
    TrimDrops(s[..n], SPACES, '=');
    TrimDrops(RTrim(s[..n]), SPACES, '=');
  }

  lemma {:induction false} ValueIsGood(s: string, n: nat)
    requires OneLine(s) && n < |s|
    ensures var v := Trim(s[n + 1..]);
            OneLine(v) && (v != "" ==> v[|v| - 1] == s[|s| - 1])
  {
    TrimIsOneLine(s[n + 1..]);
    TrimSuffix(s, n + 1);
  }

  lemma {:induction false} SettingIsGood(s: string)
    requires OneLine(s) && Classify(s).Setting?
    ensures GoodPair(Classify(s).pair)
  {
    var n := EqualAt(s);
    EqualAtSpec(s);
    var p := Pair(Trim(s[..n]), Trim(s[n + 1..]));
    assert Classify(s) == Setting(p);
    KeyIsGood(s, n);
    ValueIsGood(s, n);
    assert s[0] == '[' ==> s[|s| - 1] != ']';
  }

  lemma {:induction false} ClassifyIsGood(s: string)
    requires OneLine(s)
    ensures var l := Classify(s);
            && (l.Note? ==> GoodEntry(Comment(l.text)))
            && (l.Title? ==> OneLine(l.name))
            && (l.Setting? ==> GoodPair(l.pair))
  {
    TitleIsGood(s);
    if Classify(s).Setting? {
      SettingIsGood(s);
    }
  }

  ghost predicate Reading(st: State) {
    Sound(st.sects)
  }

  predicate Filler(b: seq<Entry>) {
    forall i :: 0 <= i < |b| ==> !b[i].Item? && !b[i].Header? && SoundEntry(b[i])
  }

  lemma {:induction false} HeaderStays(nodes: seq<Entry>, n: nat, b: seq<Entry>, h: nat)
    requires HeaderAt(nodes, h) && h < n <= |nodes| && NoHeader(b)
    ensures HeaderAt(nodes[..n] + b, h)
  {
    assert (nodes[..n] + b)[..h] == nodes[..h];
  }

  /** A section stays sound when nodes that are neither settings nor headers are added or cut. */
  lemma {:induction false} SectKeepsShape(s: Sect, n: nat, b: seq<Entry>)
    requires SoundSect(s) && n <= |s.nodes| && Filler(b)
    requires forall i :: n <= i < |s.nodes| ==> !s.nodes[i].Header?
    ensures SoundSect(Sect(s.name, s.nodes[..n] + b))
  {
    SoundNodesPrefix(s.nodes, n);
    SoundNodesAppend(s.nodes[..n], b);
    if h :| HeaderAt(s.nodes, h) {
      HeaderStays(s.nodes, n, b, h);
    }
  }

  lemma {:induction false} PushKeepsShape(s: Sect, e: Entry)
    requires SoundSect(s) && SoundEntry(e) && !e.Header?
    ensures SoundSect(Sect(s.name, PushNode(s.nodes, e)))
  {
    if PushNode(s.nodes, e) != s.nodes {
      SoundNodesAdd(s.nodes, e);
      if h :| HeaderAt(s.nodes, h) {
        HeaderStays(s.nodes, |s.nodes|, [e], h);
        assert s.nodes[..|s.nodes|] == s.nodes;
      }
    }
  }

  lemma {:induction false} NewSectIsSound(name: string, tail: seq<Entry>)
    requires OneLine(name) && Lead(tail) && Filler(tail)
    ensures SoundSect(Sect(name, tail + [Header]))
  {
    assert [] + tail == tail;
    SoundNodesAppend([], tail);
    SoundNodesAdd(tail, Header);
    assert (tail + [Header])[..|tail|] == tail;
    assert HeaderAt(tail + [Header], |tail|);
  }

  lemma {:induction false} TailIsFiller(nodes: seq<Entry>)
    requires SoundNodes(nodes)
    ensures Filler(nodes[TailAt(nodes)..])
  {
    TailSpec(nodes);
    assert forall i :: 0 <= i < |nodes| - TailAt(nodes) ==>
             nodes[TailAt(nodes)..][i] == nodes[TailAt(nodes) + i];
  }

  /** A section that loses its trailing comments keeps its shape. */
  lemma {:induction false} CutSectKeepsShape(s: Sect)
    requires SoundSect(s)
    ensures SoundSect(Sect(s.name, s.nodes[..TailAt(s.nodes)]))
  {
    var m := TailAt(s.nodes);
    TailSpec(s.nodes);
    assert forall i :: m <= i < |s.nodes| ==> s.nodes[i] == s.nodes[m..][i - m];
    assert s.nodes[..m] == s.nodes[..m] + [];
    SectKeepsShape(s, m, []);
  }

  lemma {:induction false} ReplaceKeepsShape(sects: seq<Sect>, i: nat, t: Sect)
    requires Sound(sects) && i < |sects| && t.name == sects[i].name && SoundSect(t)
    ensures Sound(sects[i := t])
  {
    hide SoundSect;
  }

  lemma {:induction false} PushSectKeepsShape(st: State, name: string)
    requires Reading(st) && OneLine(name)
    ensures Reading(PushSect(st, name))
  {
    hide SoundSect, TailAt, WithNil;
    var (sects, cur) := (st.sects, st.cur);
    var nodes := sects[cur].nodes;
    var m := TailAt(nodes);
    var tail := nodes[m..];
    var f := FindSect(sects, name);
    FindSectSpec(sects, name);
    SectIsSound(sects, cur);
    TailIsFiller(nodes);
    TailSpec(nodes);
    CutSectKeepsShape(sects[cur]);
    var s := Sect(sects[cur].name, nodes[..m]);
    ReplaceKeepsShape(sects, cur, s);
    if f == |sects| {
      NewSectKeepsShape(sects[cur := s], name, tail);
    } else if f != cur {
      MergeKeepsShape(sects[f], tail);
      ReplaceKeepsShape(sects[cur := s], f, Sect(sects[f].name, WithNil(WithNil(sects[f].nodes) + tail)));
    }
  }

  lemma {:induction false} SectIsSound(sects: seq<Sect>, i: nat)
    requires Sound(sects) && i < |sects|
    ensures SoundSect(sects[i]) && SoundNodes(sects[i].nodes)
    ensures sects[i].name == "" || GoodName(sects[i].name)
  {
  }

  lemma {:induction false} NewSectKeepsShape(sects: seq<Sect>, name: string, tail: seq<Entry>)
    requires Sound(sects) && NewName(sects, name) && OneLine(name)
    requires Lead(tail) && Filler(tail)
    ensures Sound(sects + [Sect(name, tail + [Header])])
  {
    NewSectIsSound(name, tail);
  }

  lemma {:induction false} FillKeepsShape(s: Sect, b: seq<Entry>)
    requires SoundSect(s) && Filler(b)
    ensures SoundSect(Sect(s.name, s.nodes + b))
  {
    SectKeepsShape(s, |s.nodes|, b);
    assert s.nodes[..|s.nodes|] == s.nodes;
  }

  lemma {:induction false} MergeKeepsShape(s: Sect, tail: seq<Entry>)
    requires SoundSect(s) && Filler(tail)
    ensures SoundSect(Sect(s.name, WithNil(WithNil(s.nodes) + tail)))
  {
    FillKeepsShape(s, [NilLine]);
    var s1 := Sect(s.name, WithNil(s.nodes));
    FillKeepsShape(s1, tail);
    FillKeepsShape(Sect(s.name, s1.nodes + tail), [NilLine]);
  }

  lemma {:induction false} StepKeepsShape(st: State, s: string)
    requires Reading(st) && OneLine(s)
    ensures Reading(Step(st, s))
  {
    hide Classify, PushSect, SoundSect;
    ClassifyIsGood(s);
    SectIsSound(st.sects, st.cur);
    match Classify(s)
    case Blank => PushKeepsSound(st, NilLine);
    case Note(t) => PushKeepsSound(st, Comment(t));
    case Title(n) => PushSectKeepsShape(st, n);
    case Setting(p) => PushKeepsSound(st, Item(p));
    case Junk =>
  }

  lemma {:induction false} PushKeepsSound(st: State, e: Entry)
    requires Reading(st) && SoundEntry(e) && !e.Header?
    ensures Reading(Push(st, e))
  {
    hide SoundSect, PushNode;
    SectIsSound(st.sects, st.cur);
    PushKeepsShape(st.sects[st.cur], e);
  }

  /** Any reading of trimmed lines keeps a file sound. */
  lemma {:induction false} ReadKeepsShape(st: State, lines: seq<string>, n: nat)
    requires Reading(st) && n <= |lines|
    requires SingleLines(lines) && AllTrimmed(lines)
    ensures Reading(Read(st, lines, n))
  {
    hide Step, Reading;
    if n > 0 {
      ReadKeepsShape(st, lines, n - 1);
      StepKeepsShape(Read(st, lines, n - 1), lines[n - 1]);
    }
  }

  lemma {:induction false} BeginKeepsShape(file: seq<Sect>)
    requires Sound(file)
    ensures Reading(Begin(file))
  {
    if file != [] {
      var n := |file| - 1;
      FillKeepsShape(file[n], [NilLine]);
      assert file[n := file[n]] == file;
      hide SoundSect;
      ReplaceKeepsShape(file, n, Sect(file[n].name, WithNil(file[n].nodes)));
    }
  }

  // ------------------------------------------------------------- reading keeps the root

  lemma {:induction false} StepKeepsRoot(st: State, s: string)
    requires Rooted(st.sects)
    ensures Rooted(Step(st, s).sects)
  {
    hide Classify, PushSect;
    if Classify(s).Title? {
      PushSectKeepsRoot(st, Classify(s).name);
    }
  }

  lemma {:induction false} PushSectKeepsRoot(st: State, name: string)
    requires Rooted(st.sects)
    ensures Rooted(PushSect(st, name).sects)
  {
    hide FindSect, TailAt;
    TailSpec(st.sects[st.cur].nodes);
  }

  lemma {:induction false} ReadKeepsRoot(st: State, lines: seq<string>, n: nat)
    requires Rooted(st.sects) && n <= |lines|
    ensures Rooted(Read(st, lines, n).sects)
  {
    hide Step;
    if n > 0 {
      ReadKeepsRoot(st, lines, n - 1);
      StepKeepsRoot(Read(st, lines, n - 1), lines[n - 1]);
    }
  }

  // ------------------------------------------------------------- reading is readable

  lemma {:induction false} ReadableCut(nodes: seq<Entry>, n: nat, b: seq<Entry>)
    requires ReadableNodes(nodes) && n <= |nodes| && ReadableNodes(b)
    ensures ReadableNodes(nodes[..n]) && ReadableNodes(nodes[n..]) && ReadableNodes(nodes + b)
  {
    assert forall i :: n <= i < |nodes| ==> nodes[n..][i - n] == nodes[i];
  }

  lemma {:induction false} PushSectKeepsReadable(st: State, name: string)
    requires AllReadable(st.sects)
    ensures AllReadable(PushSect(st, name).sects)
  {
    var nodes := st.sects[st.cur].nodes;
    var m := TailAt(nodes);
    ReadableCut(nodes, m, []);
    ReadableCut(nodes[m..], 0, [Header]);
    var f := FindSect(st.sects, name);
    if f < |st.sects| {
      var to := st.sects[f].nodes;
      ReadableCut(to, 0, [NilLine]);
      ReadableCut(WithNil(to), 0, nodes[m..]);
      ReadableCut(WithNil(to) + nodes[m..], 0, [NilLine]);
    }
  }

  lemma {:induction false} StepKeepsReadable(st: State, s: string)
    requires AllReadable(st.sects) && OneLine(s)
    ensures AllReadable(Step(st, s).sects)
  {
    hide Classify, PushSect;
    ClassifyIsGood(s);
    match Classify(s)
    case Title(n) => PushSectKeepsReadable(st, n);
    case _ =>
  }

  lemma {:induction false} ReadKeepsReadable(st: State, lines: seq<string>, n: nat)
    requires AllReadable(st.sects) && n <= |lines|
    requires SingleLines(lines) && AllTrimmed(lines)
    ensures AllReadable(Read(st, lines, n).sects)
  {
    hide Step, AllReadable;
    if n > 0 {
      ReadKeepsReadable(st, lines, n - 1);
      StepKeepsReadable(Read(st, lines, n - 1), lines[n - 1]);
    }
  }

  lemma {:induction false} ParseIsWellFormed(text: string)
    ensures WellFormed(Parse(text))
  {
    hide Step, Rooted;
    var lines := InputLines(text);
    InputLinesAreTrimmed(text);
    BeginRoot();
    ReadKeepsShape(Begin([]), lines, |lines|);
    ReadKeepsRoot(Begin([]), lines, |lines|);
    ReadKeepsReadable(Begin([]), lines, |lines|);
  }

  lemma {:induction false} BeginRoot()
    ensures Reading(Begin([])) && Rooted(Begin([]).sects) && AllReadable(Begin([]).sects)
  {
  }
}

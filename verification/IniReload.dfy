/**
  What a dump and a reload keep of a file, setting by setting: exactly which names and which
  settings come back.
 */
module IniReload {
  import opened IniText
  import opened IniModel
  import opened IniShape
  import opened IniMeaning
  import opened IniPrinted
  import opened IniNames
  import opened IniNormal
  import opened Wrappers

  /** The printed line of the setting is a title. */
  predicate Titled(p: Pair) {
    p.key != "" && p.key[0] == '[' && p.value != "" && p.value[|p.value| - 1] == ']'
  }

  predicate NoTitles(file: seq<Sect>) {
    forall i, j :: 0 <= i < |file| && 0 <= j < |file[i].nodes| && file[i].nodes[j].Item? ==>
      !Titled(file[i].nodes[j].kv)
  }

  /** A value that is printed comes back unless its key begins like a comment. */
  function Survives(value: Option<string>, k: string): Option<string> {
    if k != "" && NoteMark(k[0]) then None else value
  }

  // ------------------------------------------------------------- what printed lines say

  /** A setting whose key begins like a comment is printed as one. */
  lemma {:induction false} NotePrinted(p: Pair)
    requires SoundPair(p) && NoteMark(p.key[0])
    ensures Classify(p.key + "=" + p.value).Note?
  {
    PairLine(p);
  }

  lemma {:induction false} MarkedHead(s: string)
    requires s != "" && NoteMark(Lower(s[0]))
    ensures s[0] == Lower(s[0]) && Fold(s) != "" && Fold(s)[0] == s[0]
  {
  }

  lemma {:induction false} NoteKey(key: string, k: string)
    requires key != "" && Fold(key) == k
    ensures NoteMark(key[0]) <==> k != "" && NoteMark(k[0])
  {
    if NoteMark(key[0]) {
      MarkedHead(key);
    } else if k != "" && NoteMark(k[0]) {
      assert k[0] == Lower(key[0]);
      MarkedHead(key);
    }
  }

  lemma {:induction false} EntrySays(a: seq<string>, name: string, e: Entry, s: string, k: string)
    requires SoundEntry(e) && !e.Header? && (e.Item? ==> !Titled(e.kv))
    ensures var ls := EntryLines(name, e);
            && Current(a + ls) == Current(a)
            && First(a + ls, s, k) ==
               if First(a, s, k).Some? then First(a, s, k)
               else if e.Item? && Current(a) == s && Fold(e.kv.key) == k then Survives(Some(e.kv.value), k)
               else None
  {
    EntryIsLine(name, e);
    var l := EntryLines(name, e)[0];
    assert EntryLines(name, e) == [l];
    SaysMore(a, l, s, k);
    if e.Item? {
      NoteKey(e.kv.key, Fold(e.kv.key));
      if NoteMark(e.kv.key[0]) {
        NotePrinted(e.kv);
      } else {
        PairPrinted(e.kv);
      }
    }
  }

  predicate PlainEntries(nodes: seq<Entry>) {
    forall i :: 0 <= i < |nodes| ==>
      SoundEntry(nodes[i]) && !nodes[i].Header? && (nodes[i].Item? ==> !Titled(nodes[i].kv))
  }

  lemma {:induction false} NodesSay(a: seq<string>, name: string, nodes: seq<Entry>, n: nat, s: string, k: string)
    requires n <= |nodes| && PlainEntries(nodes)
    ensures var ls := NodeLines(name, nodes, n);
            && Current(a + ls) == Current(a)
            && First(a + ls, s, k) ==
               if First(a, s, k).Some? then First(a, s, k)
               else if Current(a) == s then Survives(Value(nodes[..n], k), k)
               else None
  {
    hide First, Current, EntryLines, Value;
    if n == 0 {
      assert a + NodeLines(name, nodes, 0) == a;
      NoItemNoValue(nodes[..0], k);
    } else {
      var before, e := NodeLines(name, nodes, n - 1), nodes[n - 1];
      NodesSay(a, name, nodes, n - 1, s, k);
      EntrySays(a + before, name, e, s, k);
      Reassoc(a, before, EntryLines(name, e));
      assert nodes[..n] == nodes[..n - 1] + [e];
      ValueAppend(nodes[..n - 1], [e], k);
      ValueOfOne(e, k);
    }
  }

  lemma {:induction false} ValueOfOne(e: Entry, k: string)
    ensures Value([e], k) == if e.Item? && Fold(e.kv.key) == k then Some(e.kv.value) else None
  {
  }

  lemma {:induction false} TitleSays(a: seq<string>, name: string, s: string, k: string)
    requires GoodName(name)
    ensures Current(a + ["[" + name + "]"]) == Shown(name)
    ensures First(a + ["[" + name + "]"], s, k) == First(a, s, k)
  {
    TitleLine(name);
    SaysMore(a, "[" + name + "]", s, k);
  }

  predicate Untitled(nodes: seq<Entry>) {
    forall i :: 0 <= i < |nodes| && nodes[i].Item? ==> !Titled(nodes[i].kv)
  }

  /** Under which name the lines of a section are read, behind the lines a. */
  function HomeBehind(a: seq<string>, name: string): string {
    if name == "" then Current(a) else Shown(name)
  }

  /** A printed section gives its settings to the name that its title is read as; without a
      name it goes on with the section before. */
  lemma {:induction false} SectSays(a: seq<string>, t: Sect, last: bool, s: string, k: string)
    requires SoundSect(t) && Untitled(t.nodes)
    ensures Current(a + SectLines(t, last)) == HomeBehind(a, t.name)
    ensures First(a + SectLines(t, last), s, k) ==
            if First(a, s, k).Some? then First(a, s, k)
            else if HomeBehind(a, t.name) == s then Survives(Value(t.nodes, k), k)
            else None
  {
    hide First, Current, Value, HomeBehind, AllLines, Survives, HeaderAt;
    if h: nat :| HeaderAt(t.nodes, h) {
      HeadedSays(a, t, h, s, k);
    } else {
      AllSay(a, t.name, t.nodes, s, k);
      NamelessHome(a);
    }
    var own, sep := AllLines(t.name, t.nodes), AllLines(t.name, Separator(t, last));
    SeparatorLines(t, last);
    SeparatorSays(a + own, t, last, s, k);
    Reassoc(a, own, sep);
  }

  lemma {:induction false} NamelessHome(a: seq<string>)
    ensures HomeBehind(a, "") == Current(a)
  {
  }

  lemma {:induction false} AllSay(a: seq<string>, name: string, nodes: seq<Entry>, s: string, k: string)
    requires PlainEntries(nodes)
    ensures var ls := AllLines(name, nodes);
            && Current(a + ls) == Current(a)
            && First(a + ls, s, k) ==
               if First(a, s, k).Some? then First(a, s, k)
               else if Current(a) == s then Survives(Value(nodes, k), k)
               else None
  {
    hide First, Current, Value;
    NodesSay(a, name, nodes, |nodes|, s, k);
    assert nodes[..|nodes|] == nodes;
  }

  lemma {:induction false} SeparatorSays(a: seq<string>, t: Sect, last: bool, s: string, k: string)
    ensures var ls := AllLines(t.name, Separator(t, last));
            Current(a + ls) == Current(a) && First(a + ls, s, k) == First(a, s, k)
  {
    hide First, Current, AllLines;
    AllSay(a, t.name, Separator(t, last), s, k);
    NoItemNoValue(Separator(t, last), k);
  }

  lemma {:induction false} HeaderSays(a: seq<string>, name: string, s: string, k: string)
    requires name == "" || GoodName(name)
    ensures var ls := EntryLines(name, Header);
            Current(a + ls) == HomeBehind(a, name) && First(a + ls, s, k) == First(a, s, k)
  {
    if name == "" {
      assert a + EntryLines(name, Header) == a;
    } else {
      TitleSays(a, name, s, k);
    }
  }

  lemma {:induction false} HeadedSays(a: seq<string>, t: Sect, h: nat, s: string, k: string)
    requires SoundSect(t) && Untitled(t.nodes) && HeaderAt(t.nodes, h)
    ensures var ls := AllLines(t.name, t.nodes);
            && Current(a + ls) == HomeBehind(a, t.name)
            && First(a + ls, s, k) ==
               if First(a, s, k).Some? then First(a, s, k)
               else if HomeBehind(a, t.name) == s then Survives(Value(t.nodes, k), k)
               else None
  {
    SplitEntries(t, h);
    LeadHasNoValue(t.nodes[..h], k);
    ValueBehindHeader(t.nodes, h, k);
    SectionLines(t.name, t.nodes, h);
    hide First, Current, Value, Survives, AllLines, EntryLines, HeaderAt, SoundSect, Untitled, PlainEntries;
    var lead, post := t.nodes[..h], t.nodes[h + 1..];
    var ll, title, pl := AllLines(t.name, lead), EntryLines(t.name, Header), AllLines(t.name, post);
    AllSay(a, t.name, lead, s, k);
    HeaderSays(a + ll, t.name, s, k);
    AllSay(a + ll + title, t.name, post, s, k);
    Reassoc(a, ll, title);
    Reassoc(a, ll + title, pl);
  }

  lemma {:induction false} SplitEntries(t: Sect, h: nat)
    requires SoundSect(t) && Untitled(t.nodes) && HeaderAt(t.nodes, h)
    ensures PlainEntries(t.nodes[..h]) && PlainEntries(t.nodes[h + 1..])
  {
    var lead, post := t.nodes[..h], t.nodes[h + 1..];
    assert forall i :: 0 <= i < |lead| ==> lead[i] == t.nodes[i];
    assert forall i :: 0 <= i < |post| ==> post[i] == t.nodes[h + 1 + i];
  }

  lemma {:induction false} LeadHasNoValue(lead: seq<Entry>, k: string)
    requires Lead(lead)
    ensures Value(lead, k) == None
  {
    NoItemNoValue(lead, k);
  }

  lemma {:induction false} ValueBehindHeader(nodes: seq<Entry>, h: nat, k: string)
    requires HeaderAt(nodes, h)
    ensures Value(nodes, k) == Value(nodes[h + 1..], k)
  {
    var front := nodes[..h + 1];
    assert forall i :: 0 <= i < h ==> front[i] == nodes[..h][i];
    assert nodes == front + nodes[h + 1..];
    NoItemNoValue(front, k);
    ValueAppend(front, nodes[h + 1..], k);
  }

  // ------------------------------------------------------------- what a reload finds

  /** The name under which the i-th printed section is read. */
  function Home(file: seq<Sect>, i: nat): string
    requires i < |file|
  {
    if file[i].name != "" then Shown(file[i].name) else if i == 0 then "" else Home(file, i - 1)
  }

  /** The first of n sections that is read under s and keeps a value for k. */
  function Reloaded(file: seq<Sect>, n: nat, s: string, k: string): Option<string>
    requires n <= |file|
  {
    if n == 0 then None
    else if Reloaded(file, n - 1, s, k).Some? then Reloaded(file, n - 1, s, k)
    else if Home(file, n - 1) == s then Survives(Value(file[n - 1].nodes, k), k)
    else None
  }

  lemma {:induction false} FileSays(file: seq<Sect>, n: nat, s: string, k: string)
    requires Sound(file) && NoTitles(file) && n <= |file|
    ensures First(PrintLines(file, n), s, k) == Reloaded(file, n, s, k)
    ensures Current(PrintLines(file, n)) == if n == 0 then "" else Home(file, n - 1)
  {
    hide First, Current, SectLines, Survives, Shown, SoundSect;
    if n > 0 {
      FileSays(file, n - 1, s, k);
      SectIsSound(file, n - 1);
      assert Untitled(file[n - 1].nodes);
      SectSays(PrintLines(file, n - 1), file[n - 1], n == |file|, s, k);
    } else {
      NothingSaid(s, k);
    }
  }

  lemma {:induction false} NothingSaid(s: string, k: string)
    ensures First([], s, k) == None && Current([]) == ""
  {
  }

  lemma {:induction false} ReloadFinds(file: seq<Sect>, s: string, k: string)
    requires Sound(file)
    ensures Lookup(Parse(Print(file)), s, k) == First(PrintLines(file, |file|), s, k)
    ensures NoTitles(file) ==> Lookup(Parse(Print(file)), s, k) == Reloaded(file, |file|, s, k)
  {
    hide Reloaded, Sound, NoTitles, PrintLines, Lookup;
    PrintedIsRead(file);
    PrintLinesGood(file, |file|);
    ReadMeansText(PrintLines(file, |file|), |PrintLines(file, |file|)|, s, k);
    if NoTitles(file) {
      FileSays(file, |file|, s, k);
    }
  }

  /** Where a value that is found comes from. */
  lemma {:induction false} ReloadedFrom(file: seq<Sect>, n: nat, s: string, k: string) returns (j: nat)
    requires n <= |file| && Reloaded(file, n, s, k).Some?
    ensures j < n && Home(file, j) == s && Value(file[j].nodes, k).Some?
    ensures Reloaded(file, n, s, k) == Survives(Value(file[j].nodes, k), k)
  {
    hide Home;
    if Reloaded(file, n - 1, s, k).Some? {
      j := ReloadedFrom(file, n - 1, s, k);
    } else {
      j := n - 1;
    }
  }

  lemma {:induction false} ReloadedHas(file: seq<Sect>, n: nat, j: nat, s: string, k: string)
    requires j < n <= |file| && Home(file, j) == s && Survives(Value(file[j].nodes, k), k).Some?
    ensures Reloaded(file, n, s, k).Some?
  {
    hide Home, Value, Survives;
    if j < n - 1 {
      ReloadedHas(file, n - 1, j, s, k);
    }
  }

  predicate NoItems(nodes: seq<Entry>) {
    forall i :: 0 <= i < |nodes| ==> !nodes[i].Item?
  }

  /** Every section that has a setting keeps its name. */
  predicate NamesStay(file: seq<Sect>) {
    forall i :: 0 <= i < |file| ==> Stays(file[i].name) || NoItems(file[i].nodes)
  }

  lemma {:induction false} ValueItem(nodes: seq<Entry>, k: string) returns (i: nat)
    requires Value(nodes, k).Some?
    ensures i < |nodes| && nodes[i].Item? && Fold(nodes[i].kv.key) == k && Value(nodes, k) == Some(nodes[i].kv.value)
  {
    if nodes[0].Item? && Fold(nodes[0].kv.key) == k {
      i := 0;
    } else {
      i := ValueItem(nodes[1..], k);
      i := i + 1;
    }
  }

  /** Every section that has a setting is read under its own name. */
  predicate HomesStay(file: seq<Sect>) {
    forall i :: 0 <= i < |file| ==> Home(file, i) == Fold(file[i].name) || NoItems(file[i].nodes)
  }

  lemma {:induction false} HasItem(nodes: seq<Entry>, k: string)
    requires Value(nodes, k).Some?
    ensures !NoItems(nodes)
  {
    var p := ValueItem(nodes, k);
  }

  /** When the sections with settings are read under their names and no setting is printed as a
      title, a reload loses exactly the settings whose keys begin like a comment. */
  lemma {:induction false} ReloadLosesComments(file: seq<Sect>, s: string, k: string)
    requires Sound(file) && HomesStay(file) && NoTitles(file)
    ensures Lookup(Parse(Print(file)), s, k) == Survives(Lookup(file, s, k), k)
  {
    hide Home, Value, Sound, NoTitles, Reloaded, Parse, Print, NoItems;
    ReloadFinds(file, s, k);
    SoundIsDistinct(file);
    var r := Reloaded(file, |file|, s, k);
    if r.Some? {
      var j := ReloadedFrom(file, |file|, s, k);
      HasItem(file[j].nodes, k);
      LookupAt(file, j, s, k);
    } else if Survives(Lookup(file, s, k), k).Some? {
      var i := LookupFrom(file, s, k);
      HasItem(file[i].nodes, k);
      ReloadedHas(file, |file|, i, s, k);
      assert false;
    }
  }

  lemma {:induction false} SoundIsDistinct(file: seq<Sect>)
    requires Sound(file)
    ensures DistinctNames(file)
  {
  }

  lemma {:induction false} LookupFrom(file: seq<Sect>, s: string, k: string) returns (i: nat)
    requires Lookup(file, s, k).Some?
    ensures i < |file| && Fold(file[i].name) == s && Value(file[i].nodes, k) == Lookup(file, s, k)
  {
    hide Value;
    if Fold(file[0].name) == s {
      i := 0;
    } else {
      i := LookupFrom(file[1..], s, k);
      i := i + 1;
    }
  }

  // ------------------------------------------------------------- exactly when nothing is lost

  ghost predicate KeepsLookups(file: seq<Sect>) {
    forall s, k :: Lookup(Parse(Print(file)), s, k) == Lookup(file, s, k)
  }

  /** A value that is read stands in a line that is a setting. */
  lemma {:induction false} SettingSource(lines: seq<string>, n: nat, s: string, k: string) returns (q: Pair)
    requires SingleLines(lines) && AllTrimmed(lines) && n <= |lines| && FirstSetting(lines, n, s, k).Some?
    ensures GoodPair(q) && Fold(q.key) == k && FirstSetting(lines, n, s, k) == Some(q.value)
  {
    hide Classify;
    if FirstSetting(lines, n - 1, s, k).Some? {
      q := SettingSource(lines, n - 1, s, k);
    } else {
      ClassifyIsGood(lines[n - 1]);
      q := Classify(lines[n - 1]).pair;
    }
  }

  lemma {:induction false} SameKeySameReading(p: Pair, q: Pair)
    requires SoundPair(p) && GoodPair(q) && Fold(p.key) == Fold(q.key) && p.value == q.value
    ensures Readable(p)
  {
    NoteKey(p.key, Fold(p.key));
    NoteKey(q.key, Fold(p.key));
    if p.key[0] == '[' {
      assert Fold(p.key)[0] == '[' && q.key[0] == '[';
    }
  }

  /** What is printed as a comment or a title is not found again. */
  lemma {:induction false} UnreadableIsLost(file: seq<Sect>, i: nat, j: nat)
    requires Sound(file) && i < |file| && j < |file[i].nodes| && file[i].nodes[j].Item?
    requires !Readable(file[i].nodes[j].kv)
    ensures !KeepsLookups(file)
  {
    hide Print, Parse, PrintLines, Readable;
    var p := file[i].nodes[j].kv;
    var s, k := Fold(file[i].name), Fold(p.key);
    SectIsSound(file, i);
    assert SoundEntry(file[i].nodes[j]);
    ItemValue(file[i].nodes, j);
    LookupAt(file, i, s, k);
    if Lookup(Parse(Print(file)), s, k) == Lookup(file, s, k) {
      var lines := PrintLines(file, |file|);
      ReloadFinds(file, s, k);
      PrintLinesGood(file, |file|);
      var q := SettingSource(lines, |lines|, s, k);
      SameKeySameReading(p, q);
    }
  }

  /** Section j has the same setting for k as section i, and is read under its name. */
  predicate Takes(file: seq<Sect>, i: nat, j: nat, k: string)
    requires i < |file| && j < |file|
  {
    Home(file, j) == Fold(file[i].name) && Value(file[j].nodes, k) == Value(file[i].nodes, k)
  }

  /** For every setting, some section that has it is read under its section's name. */
  ghost predicate Rehomed(file: seq<Sect>) {
    forall i, k :: 0 <= i < |file| && Value(file[i].nodes, k).Some? ==>
      exists j :: 0 <= j < |file| && Takes(file, i, j, k)
  }

  ghost function Taker(file: seq<Sect>, i: nat, k: string): (j: nat)
    requires Rehomed(file) && i < |file| && Value(file[i].nodes, k).Some?
    ensures j < |file| && Takes(file, i, j, k) && Value(file[j].nodes, k).Some?
  {
    var j :| 0 <= j < |file| && Takes(file, i, j, k);
    j
  }

  ghost function Takers(file: seq<Sect>, k: string): (f: map<nat, nat>)
    requires Rehomed(file)
    ensures forall x: nat :: x in f <==> x < |file| && Value(file[x].nodes, k).Some?
    ensures forall x: nat :: x in f ==> f[x] == Taker(file, x, k) && f[x] in f && Takes(file, x, f[x], k)
  {
    map x: nat | 0 <= x < |file| && Value(file[x].nodes, k).Some? :: Taker(file, x, k)
  }

  lemma {:induction false} SameTaker(file: seq<Sect>, x: nat, y: nat, j: nat, k: string)
    requires DistinctNames(file) && x < |file| && y < |file| && j < |file|
    requires Takes(file, x, j, k) && Takes(file, y, j, k)
    ensures x == y
  {
  }

  /** Then every section with the key takes the place of one, and no two of the same: there are
      no more places than takers. */
  lemma {:induction false} TakesPlace(file: seq<Sect>, j: nat, k: string) returns (i: nat)
    requires Sound(file) && Rehomed(file) && j < |file| && Value(file[j].nodes, k).Some?
    ensures i < |file| && Takes(file, i, j, k) && Taker(file, i, k) == j
  {
    hide Sound, Rehomed, Takes, Value, DistinctNames;
    SoundIsDistinct(file);
    hide Takers;
    var f := Takers(file, k);
    forall x, y | x in f && y in f && f[x] == f[y] ensures x == y {
      SameTaker(file, x, y, f[x], k);
    }
    i := ImageIsAll(f, j);
  }

  /** So a reload finds every setting again, and nothing else, if and only if every setting is
      printed as a setting and for every setting some section with the same setting is read
      under its section's name. */
  lemma {:induction false} ReloadKeepsLookups(file: seq<Sect>)
    requires Sound(file)
    ensures KeepsLookups(file) <==> AllReadable(file) && Rehomed(file)
  {
    hide Parse, Print, Sound, NoTitles, Value, Takes;
    if !AllReadable(file) {
      var i, j :| 0 <= i < |file| && 0 <= j < |file[i].nodes| && file[i].nodes[j].Item?
                  && !Readable(file[i].nodes[j].kv);
      UnreadableIsLost(file, i, j);
    } else if KeepsLookups(file) {
      forall i, k | 0 <= i < |file| && Value(file[i].nodes, k).Some?
        ensures exists j :: 0 <= j < |file| && Takes(file, i, j, k)
      {
        var j := KeptIsTaken(file, i, k);
      }
    } else if Rehomed(file) {
      forall s, k ensures Lookup(Parse(Print(file)), s, k) == Lookup(file, s, k) {
        TakenIsKept(file, s, k);
      }
    }
  }

  lemma {:induction false} KeptIsTaken(file: seq<Sect>, i: nat, k: string) returns (j: nat)
    requires Sound(file) && AllReadable(file) && KeepsLookups(file) && i < |file| && Value(file[i].nodes, k).Some?
    ensures j < |file| && Takes(file, i, j, k)
  {
    hide Parse, Print, Sound, NoTitles, Value, AllReadable, Reloaded, Home;
    var s := Fold(file[i].name);
    SoundIsDistinct(file);
    LookupAt(file, i, s, k);
    ReadableHasNoTitles(file);
    ReloadFinds(file, s, k);
    j := ReloadedFrom(file, |file|, s, k);
  }

  lemma {:induction false} TakenIsKept(file: seq<Sect>, s: string, k: string)
    requires Sound(file) && AllReadable(file) && Rehomed(file)
    ensures Lookup(Parse(Print(file)), s, k) == Lookup(file, s, k)
  {
    hide Parse, Print, Sound, NoTitles, Value, AllReadable, Reloaded, Rehomed, Home;
    SoundIsDistinct(file);
    ReadableHasNoTitles(file);
    ReloadFinds(file, s, k);
    if Reloaded(file, |file|, s, k).Some? {
      var j := ReloadedFrom(file, |file|, s, k);
      var i := TakesPlace(file, j, k);
      LookupAt(file, i, s, k);
    } else if Lookup(file, s, k).Some? {
      ReadableSurvives(file, s, k);
      var i := LookupFrom(file, s, k);
      var j := Taker(file, i, k);
      ReloadedHas(file, |file|, j, s, k);
      assert false;
    }
  }

  lemma {:induction false} ReadableHasNoTitles(file: seq<Sect>)
    requires Sound(file) && AllReadable(file)
    ensures NoTitles(file)
  {
  }

  lemma {:induction false} ReadableSurvives(file: seq<Sect>, s: string, k: string)
    requires Sound(file) && AllReadable(file)
    ensures Survives(Lookup(file, s, k), k) == Lookup(file, s, k)
  {
    hide Value, Lookup;
    if Lookup(file, s, k).Some? {
      var i := LookupFrom(file, s, k);
      var j := ValueItem(file[i].nodes, k);
      SectIsSound(file, i);
      assert SoundEntry(file[i].nodes[j]);
      NoteKey(file[i].nodes[j].kv.key, k);
      assert Readable(file[i].nodes[j].kv);
    }
  }

  // ------------------------------------------------------------- in terms of names

  /** A section without a name has settings only in front. */
  predicate NamelessInFront(file: seq<Sect>) {
    forall i :: 1 <= i < |file| && file[i].name == "" ==> NoItems(file[i].nodes)
  }

  /** The section before one without a name keeps its own. */
  predicate SteadyBefore(file: seq<Sect>) {
    forall i :: 1 <= i < |file| && file[i].name == "" ==> Stays(file[i - 1].name)
  }

  lemma {:induction false} OnlyNameless(file: seq<Sect>, i: nat)
    requires Sound(file) && 1 <= i < |file| && file[i].name == ""
    ensures file[i - 1].name != "" && Home(file, i) == Shown(file[i - 1].name)
  {
    SoundIsDistinct(file);
  }

  lemma {:induction false} NamesKeepHomes(file: seq<Sect>)
    requires Sound(file) && NamesStay(file) && NamelessInFront(file)
    ensures HomesStay(file)
  {
    hide Sound, Fold, Shown, Stays, NoItems;
    forall i | 0 <= i < |file| ensures Home(file, i) == Fold(file[i].name) || NoItems(file[i].nodes) {
      SectIsSound(file, i);
      if file[i].name == "" {
        NoNameFolds();
      } else {
        ShownNames(file[i].name);
      }
    }
  }

  lemma {:induction false} NoNameFolds()
    ensures Fold("") == "" && Stays("")
  {
  }

  lemma {:induction false} HomesAreRehomed(file: seq<Sect>)
    requires HomesStay(file)
    ensures Rehomed(file)
  {
    hide Home, Fold, NoItems, Value;
    forall i, k | 0 <= i < |file| && Value(file[i].nodes, k).Some?
      ensures exists j :: 0 <= j < |file| && Takes(file, i, j, k)
    {
      HasItem(file[i].nodes, k);
      assert Takes(file, i, i, k);
    }
  }

  predicate Swallowed(t: Sect) {
    !Stays(t.name) && !NoItems(t.nodes)
  }

  /** The longest of the names that are lost. */
  lemma {:induction false} Longest(file: seq<Sect>, n: nat) returns (i: nat)
    requires n <= |file| && exists j :: 0 <= j < n && Swallowed(file[j])
    ensures i < n && Swallowed(file[i])
    ensures forall j :: 0 <= j < n && Swallowed(file[j]) ==> |Fold(file[j].name)| <= |Fold(file[i].name)|
  {
    hide Swallowed, Fold;
    if exists j :: 0 <= j < n - 1 && Swallowed(file[j]) {
      i := Longest(file, n - 1);
      if Swallowed(file[n - 1]) && |Fold(file[n - 1].name)| > |Fold(file[i].name)| {
        i := n - 1;
      }
    } else {
      i := n - 1;
    }
  }

  /** No section with settings is read under the longest name that is lost. */
  lemma {:induction false} NotHome(file: seq<Sect>, i: nat, j: nat)
    requires Sound(file) && NamelessInFront(file) && i < |file| && j < |file| && Swallowed(file[i])
    requires !NoItems(file[j].nodes) && (Swallowed(file[j]) ==> |Fold(file[j].name)| <= |Fold(file[i].name)|)
    ensures Home(file, j) != Fold(file[i].name)
  {
    hide Shown, Stays, Fold, Sound, NoItems;
    SectIsSound(file, i);
    ShownNames(file[i].name);
    NoNameFolds();
    if file[j].name != "" {
      SectIsSound(file, j);
      ShownNames(file[j].name);
      SoundIsDistinct(file);
    }
  }

  lemma {:induction false} SwallowedIsLost(file: seq<Sect>)
    requires Sound(file) && NamelessInFront(file) && !NamesStay(file)
    ensures !Rehomed(file)
  {
    hide Home, Stays, Value, Fold, Sound, NamelessInFront;
    var b :| 0 <= b < |file| && Swallowed(file[b]);
    var i := Longest(file, |file|);
    var p :| 0 <= p < |file[i].nodes| && file[i].nodes[p].Item?;
    var k := Fold(file[i].nodes[p].kv.key);
    SectIsSound(file, i);
    ItemValue(file[i].nodes, p);
    if Rehomed(file) {
      var j := Taker(file, i, k);
      HasItem(file[j].nodes, k);
      NotHome(file, i, j);
      assert false;
    }
  }

  /** Settings without a section name behind a section that keeps its name are lost to it. */
  lemma {:induction false} NamelessIsLost(file: seq<Sect>)
    requires Sound(file) && SteadyBefore(file) && !NamelessInFront(file)
    ensures !Rehomed(file)
  {
    hide Value, Sound, Fold, Shown, Stays, Home, Rehomed;
    var i: nat :| 1 <= i < |file| && file[i].name == "" && !NoItems(file[i].nodes);
    var p :| 0 <= p < |file[i].nodes| && file[i].nodes[p].Item?;
    var k, t := Fold(file[i].nodes[p].kv.key), i - 1;
    SectIsSound(file, i);
    SectIsSound(file, t);
    ItemValue(file[i].nodes, p);
    OnlyNameless(file, i);
    OwnHome(file, t);
    SoundIsDistinct(file);
    if Rehomed(file) {
      var x := TakesPlace(file, i, k);
      assert x == t;
      var y := TakesPlace(file, t, k);
      assert false;
    }
  }

  lemma {:induction false} OwnHome(file: seq<Sect>, i: nat)
    requires Sound(file) && i < |file| && file[i].name != "" && Stays(file[i].name)
    ensures Home(file, i) == Shown(file[i].name) == Fold(file[i].name)
  {
    SectIsSound(file, i);
    ShownNames(file[i].name);
  }

  /** When the section before one without a name keeps its own, the names alone decide: every
      section with settings must keep its name, and the one without a name must be in front. */
  lemma {:induction false} NamesDecide(file: seq<Sect>)
    requires Sound(file) && SteadyBefore(file)
    ensures Rehomed(file) <==> NamesStay(file) && NamelessInFront(file)
  {
    hide Sound, Rehomed, NamesStay, NamelessInFront, SteadyBefore;
    if !NamelessInFront(file) {
      NamelessIsLost(file);
    } else if !NamesStay(file) {
      SwallowedIsLost(file);
    } else {
      NamesKeepHomes(file);
      HomesAreRehomed(file);
    }
  }

  // ------------------------------------------------------------- names that change places

  const RING := [Sect("[", [Header, Item(Pair("x", "1"))]), Sect("[ [", [Header]),
                 Sect("", [Header, Item(Pair("x", "1"))])]

  lemma {:induction false} RingNames()
    ensures Shown("[") == "" && Shown("[ [") == "[" && Fold("[") == "[" && Fold("[ [") == "[ ["
  {
    var l, m := "[[]", "[[ []";
    assert "[" + "[" + "]" == l && "[" + "[ [" + "]" == m;
    assert l[..2] == "[[" && RTrim(l, "]") == "[[" && "[["[1..] == "[" && "["[1..] == "" && LTrim("[[", "[") == "";
    assert m[..4] == "[[ [" && RTrim(m, "]") == "[[ [";
    assert "[[ ["[1..] == "[ [" && "[ ["[1..] == " [" && LTrim("[[ [", "[") == " [";
    assert " ["[1..] == "[" && RTrim(" [") == " [" && LTrim(" [") == "[" && Trim(" [") == "[";
    assert Fold("") == "" && Fold("[") == "[" && Fold(" [") == " [" && Fold("[ [") == "[ [";
  }

  lemma {:induction false} RingIsSound()
    ensures Sound(RING) && AllReadable(RING)
  {
    hide SoundSect, Fold, Shown;
    RingNames();
    NoNameFolds();
    SmallSect("[", Pair("x", "1"));
    SmallSect("[ [", Pair("x", "1"));
    SmallSect("", Pair("x", "1"));
  }

  lemma {:induction false} SmallSect(name: string, p: Pair)
    requires OneLine(name) && SoundPair(p)
    ensures SoundSect(Sect(name, [Header])) && SoundSect(Sect(name, [Header, Item(p)]))
  {
    var none: seq<Entry> := [];
    NewSectIsSound(name, none);
    assert none + [Header] == [Header];
    NoItemNoValue([Header], Fold(p.key));
    PushKeepsShape(Sect(name, [Header]), Item(p));
    assert [Header] + [Item(p)] == [Header, Item(p)];
  }

  /** All lookups survive although neither name with a setting is read as itself: the settings
      are the same, and the two names change places. */
  lemma {:induction false} RingSurvives()
    ensures Sound(RING) && !NamesStay(RING) && !NamelessInFront(RING) && KeepsLookups(RING)
  {
    RingIsSound();
    RingNames();
    assert RING[0].nodes[1].Item? && RING[2].nodes[1].Item?;
    forall i, k | 0 <= i < |RING| && Value(RING[i].nodes, k).Some?
      ensures exists j :: 0 <= j < |RING| && Takes(RING, i, j, k)
    {
      NoItemNoValue([Header], k);
      assert i != 1;
      assert Home(RING, 0) == "" && Home(RING, 1) == "[" && Home(RING, 2) == "[";
      assert Takes(RING, i, 2 - i, k);
    }
    hide Sound, KeepsLookups;
    ReloadKeepsLookups(RING);
  }
}

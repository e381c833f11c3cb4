/**
  A parsed file answers every lookup as its text says.
 */
module IniMeaning {
  import opened IniText
  import opened IniModel
  import opened IniShape
  import opened Wrappers

  lemma {:induction false} LookupAt(sects: seq<Sect>, i: nat, s: string, k: string)
    requires DistinctNames(sects) && i < |sects| && Fold(sects[i].name) == s
    ensures Lookup(sects, s, k) == Value(sects[i].nodes, k)
  {
    if i > 0 {
      assert DistinctNames(sects[1..]) by {
        forall a, b | 0 <= a < b < |sects| - 1
          ensures Fold(sects[1..][a].name) != Fold(sects[1..][b].name)
        {
          assert Fold(sects[a + 1].name) != Fold(sects[b + 1].name);
        }
      }
      assert Fold(sects[0].name) != Fold(sects[i].name);
      LookupAt(sects[1..], i - 1, s, k);
    }
  }

  lemma {:induction false} LookupNone(sects: seq<Sect>, s: string, k: string)
    requires forall i :: 0 <= i < |sects| && Fold(sects[i].name) == s ==> Value(sects[i].nodes, k) == None
    ensures Lookup(sects, s, k) == None
  {
    if sects != [] {
      LookupNone(sects[1..], s, k);
    }
  }

  /** A lookup sees only the names and the values behind them. */
  lemma {:induction false} LookupSame(a: seq<Sect>, b: seq<Sect>, s: string, k: string)
    requires |a| <= |b|
    requires forall i :: 0 <= i < |a| ==> a[i].name == b[i].name && Value(a[i].nodes, k) == Value(b[i].nodes, k)
    requires forall i :: |a| <= i < |b| ==> Value(b[i].nodes, k) == None
    ensures Lookup(a, s, k) == Lookup(b, s, k)
  {
    if a == [] {
      LookupNone(b, s, k);
    } else {
      LookupSame(a[1..], b[1..], s, k);
    }
  }

  lemma {:induction false} ItemValue(nodes: seq<Entry>, i: nat)
    requires SoundNodes(nodes) && i < |nodes| && nodes[i].Item?
    ensures Value(nodes, Fold(nodes[i].kv.key)) == Some(nodes[i].kv.value)
  {
    var k := Fold(nodes[i].kv.key);
    assert FreshAt(nodes, i);
    assert nodes == nodes[..i] + nodes[i..];
    ValueAppend(nodes[..i], nodes[i..], k);
  }

  /** A lookup does not see the case of the names. */
  lemma {:induction false} LookupIgnoresCase(sects: seq<Sect>, s: string, t: string, k: string, m: string)
    requires SameString(s, t) && SameString(k, m)
    ensures Lookup(sects, Fold(s), Fold(k)) == Lookup(sects, Fold(t), Fold(m))
  {
    FoldTells(s, t);
    FoldTells(k, m);
  }

  /** Every setting is found by its names, in any case. */
  lemma {:induction false} SettingIsFound(sects: seq<Sect>, i: nat, j: nat, name: string, key: string)
    requires Sound(sects) && i < |sects| && j < |sects[i].nodes| && sects[i].nodes[j].Item?
    requires SameString(name, sects[i].name) && SameString(key, sects[i].nodes[j].kv.key)
    ensures Lookup(sects, Fold(name), Fold(key)) == Some(sects[i].nodes[j].kv.value)
  {
    hide Fold, SameString, SoundSect, Value;
    FoldTells(name, sects[i].name);
    FoldTells(key, sects[i].nodes[j].kv.key);
    SectIsSound(sects, i);
    ItemValue(sects[i].nodes, j);
    LookupAt(sects, i, Fold(name), Fold(key));
  }

  lemma {:induction false} TailHasNoValue(nodes: seq<Entry>, k: string)
    ensures Value(nodes[..TailAt(nodes)], k) == Value(nodes, k)
  {
    var m := TailAt(nodes);
    TailSpec(nodes);
    ValueIgnores(nodes[..m], nodes[m..], k);
    assert nodes == nodes[..m] + nodes[m..];
  }

  lemma {:induction false} MergeHasNoValue(nodes: seq<Entry>, tail: seq<Entry>, k: string)
    requires Filler(tail)
    ensures Value(WithNil(WithNil(nodes) + tail), k) == Value(nodes, k)
  {
    ValueIgnores(nodes, [NilLine], k);
    ValueIgnores(WithNil(nodes), tail, k);
    ValueIgnores(WithNil(nodes) + tail, [NilLine], k);
  }

  lemma {:induction false} PushSectValues(st: State, name: string, k: string)
    requires Reading(st) && OneLine(name)
    ensures var r := PushSect(st, name);
            && |st.sects| <= |r.sects| <= |st.sects| + 1
            && (forall i :: 0 <= i < |st.sects| ==>
                  r.sects[i].name == st.sects[i].name
                  && Value(r.sects[i].nodes, k) == Value(st.sects[i].nodes, k))
            && (|st.sects| < |r.sects| ==> Value(r.sects[|st.sects|].nodes, k) == None)
  {
    var (sects, cur) := (st.sects, st.cur);
    var nodes := sects[cur].nodes;
    var tail := nodes[TailAt(nodes)..];
    var f := FindSect(sects, name);
    SectIsSound(sects, cur);
    hide Reading, Sound, SoundSect, SoundNodes, Fold, TailAt, Value, Lead;
    TailHasNoValue(nodes, k);
    TailIsFiller(nodes);
    FindSectSpec(sects, name);
    NoItemNoValue(tail + [Header], k);
    if f < |sects| {
      MergeHasNoValue(sects[f].nodes, tail, k);
    }
  }

  /** Changing the current section moves comments about but no value. */
  lemma {:induction false} PushSectKeepsLookups(st: State, name: string, s: string, k: string)
    requires Reading(st) && OneLine(name)
    ensures var r := PushSect(st, name);
            && Fold(r.sects[r.cur].name) == Fold(name)
            && Lookup(r.sects, s, k) == Lookup(st.sects, s, k)
  {
    PushSectValues(st, name, k);
    FindSectSpec(st.sects, name);
    LookupSame(st.sects, PushSect(st, name).sects, s, k);
  }

  lemma {:induction false} PushLookups(st: State, e: Entry, s: string, k: string)
    requires Reading(st) && SoundEntry(e) && !e.Header?
    ensures var r := Push(st, e);
            Lookup(r.sects, s, k) ==
              if Lookup(st.sects, s, k).Some? then Lookup(st.sects, s, k)
              else if e.Item? && Fold(st.sects[st.cur].name) == s && Fold(e.kv.key) == k then Some(e.kv.value)
              else None
  {
    var (sects, cur) := (st.sects, st.cur);
    var nodes := sects[cur].nodes;
    var r := Push(st, e);
    ValueAppend(nodes, [e], k);
    PushKeepsSound(st, e);
    if Fold(sects[cur].name) == s {
      LookupAt(sects, cur, s, k);
      LookupAt(r.sects, cur, s, k);
    } else {
      LookupElsewhere(sects, r.sects, cur, s, k);
    }
  }

  lemma {:induction false} LookupElsewhere(a: seq<Sect>, b: seq<Sect>, cur: nat, s: string, k: string)
    requires |a| == |b| && cur < |a| && b == a[cur := b[cur]] && b[cur].name == a[cur].name
    requires Fold(a[cur].name) != s
    ensures Lookup(a, s, k) == Lookup(b, s, k)
  {
    if cur == 0 {
      assert a[1..] == b[1..];
    } else {
      LookupElsewhere(a[1..], b[1..], cur - 1, s, k);
    }
  }

  lemma {:induction false} EmptyLookup(s: string, k: string)
    ensures Lookup(Begin([]).sects, s, k) == None && Fold("") == ""
  {
    LookupNone(Begin([]).sects, s, k);
  }

  /** Reading lines gives every key the value of its first setting in the text. */
  lemma {:induction false} ReadMeansText(lines: seq<string>, n: nat, s: string, k: string)
    requires SingleLines(lines) && AllTrimmed(lines) && n <= |lines|
    ensures var st := Read(Begin([]), lines, n);
            && Fold(st.sects[st.cur].name) == CurrentSect(lines, n)
            && Lookup(st.sects, s, k) == FirstSetting(lines, n, s, k)
  {
    hide Lookup, Fold, Classify, PushSect, Reading, SoundEntry;
    if n == 0 {
      EmptyLookup(s, k);
    } else {
      var st := Read(Begin([]), lines, n - 1);
      ReadMeansText(lines, n - 1, s, k);
      BeginRoot();
      ReadKeepsShape(Begin([]), lines, n - 1);
      ClassifyIsGood(lines[n - 1]);
      match Classify(lines[n - 1])
      case Blank => PushLookups(st, NilLine, s, k);
      case Note(t) => PushLookups(st, Comment(t), s, k);
      case Title(t) => PushSectKeepsLookups(st, t, s, k);
      case Setting(p) => PushLookups(st, Item(p), s, k);
      case Junk =>
    }
  }

  lemma {:induction false} ParseMeansText(text: string, section: string, key: string)
    ensures var lines := InputLines(text);
            Lookup(Parse(text), Fold(section), Fold(key))
            == FirstSetting(lines, |lines|, Fold(section), Fold(key))
  {
    InputLinesAreTrimmed(text);
    ReadMeansText(InputLines(text), |InputLines(text)|, Fold(section), Fold(key));
  }

  // ------------------------------------------------------------- where comments go

  /** The nodes without the blank lines. */
  function Solid(nodes: seq<Entry>): seq<Entry> {
    if nodes == [] then []
    else Solid(nodes[..|nodes| - 1]) + if EndsNil(nodes) then [] else [nodes[|nodes| - 1]]
  }

  lemma {:induction false} SolidAppend(a: seq<Entry>, b: seq<Entry>)
    ensures Solid(a + b) == Solid(a) + Solid(b)
    decreases |b|
  {
    if b == [] {
      assert a + b == a;
    } else {
      assert (a + b)[..|a + b| - 1] == a + b[..|b| - 1];
      SolidAppend(a, b[..|b| - 1]);
    }
  }

  lemma {:induction false} SolidWithNil(nodes: seq<Entry>)
    ensures Solid(WithNil(nodes)) == Solid(nodes) && EndsNil(WithNil(nodes)) && nodes <= WithNil(nodes)
  {
    assert (nodes + [NilLine])[..|nodes|] == nodes;
  }

  /** A title leaves all comments and settings in the order of the text: those taken from the
      current section come behind what the titled section has, or in front of a new title. */
  lemma {:induction false} TitleKeepsOrder(st: State, name: string)
    ensures var r := PushSect(st, name);
            var tail := st.sects[st.cur].nodes[TailAt(st.sects[st.cur].nodes)..];
            && (r.cur == st.cur ==> r == st)
            && (r.cur != st.cur ==>
                  && Solid(st.sects[st.cur].nodes) == Solid(r.sects[st.cur].nodes) + Solid(tail)
                  && Solid(r.sects[r.cur].nodes) ==
                     if r.cur < |st.sects| then Solid(st.sects[r.cur].nodes) + Solid(tail) else Solid(tail) + [Header])
            && (forall i :: 0 <= i < |st.sects| && i != st.cur && i != r.cur ==> r.sects[i] == st.sects[i])
  {
    hide TailAt, WithNil;
    var (sects, cur) := (st.sects, st.cur);
    var nodes := sects[cur].nodes;
    var m := TailAt(nodes);
    var f := FindSect(sects, name);
    assert nodes == nodes[..m] + nodes[m..];
    SolidAppend(nodes[..m], nodes[m..]);
    if f == |sects| {
      SolidAppend(nodes[m..], [Header]);
      assert Solid([Header]) == Solid([Header][..0]) + [Header];
    } else if f != cur {
      SolidWithNil(sects[f].nodes);
      SolidAppend(WithNil(sects[f].nodes), nodes[m..]);
      SolidWithNil(WithNil(sects[f].nodes) + nodes[m..]);
    }
  }

  /** Between the nodes of a section that is there already and those that join it, and behind
      them, stands a blank line. */
  lemma {:induction false} MergedIsParted(st: State, name: string)
    requires FindSect(st.sects, name) < |st.sects| && FindSect(st.sects, name) != st.cur
    ensures var r := PushSect(st, name);
            && EndsNil(r.sects[r.cur].nodes) && WithNil(st.sects[r.cur].nodes) <= r.sects[r.cur].nodes
            && EndsNil(WithNil(st.sects[r.cur].nodes))
  {
    hide TailAt;
  }

  /** A further text is read into the last section, behind a blank line. */
  lemma {:induction false} TextsAreParted(file: seq<Sect>)
    requires file != []
    ensures var st := Begin(file);
            && st.cur == |file| - 1 == |st.sects| - 1 && EndsNil(st.sects[st.cur].nodes)
            && Solid(st.sects[st.cur].nodes) == Solid(file[st.cur].nodes)
            && st.sects[st.cur].name == file[st.cur].name && st.sects[..st.cur] == file[..st.cur]
  {
    hide WithNil;
    SolidWithNil(file[|file| - 1].nodes);
  }
}

/**
  The lines a file prints, and how each of them is read again.
 */
module IniPrinted {
  import opened IniText
  import opened IniModel
  import opened IniShape
  import opened Wrappers

  // ------------------------------------------------------------- one printed line

  lemma {:induction false} EqualAtFirst(a: string, b: string)
    requires '=' !in a
    ensures EqualAt(a + "=" + b) == |a|
  {
    var s := a + "=" + b;
    if a == [] {
      assert s[0] == '=';
    } else {
      assert s[1..] == a[1..] + "=" + b;
      EqualAtFirst(a[1..], b);
    }
  }

  lemma {:induction false} PairLine(p: Pair)
    requires SoundPair(p)
    ensures var l := p.key + "=" + p.value;
            && OneLine(l) && l[0] == p.key[0]
            && l[|l| - 1] == if p.value == "" then '=' else p.value[|p.value| - 1]
  {
    var l := p.key + "=" + p.value;
    assert forall i :: 0 <= i < |l| ==> l[i] in p.key || l[i] == '=' || l[i] in p.value;
  }

  lemma {:induction false} PairPrinted(p: Pair)
    requires GoodPair(p)
    ensures var l := p.key + "=" + p.value; OneLine(l) && Classify(l) == Setting(p)
  {
    var l := p.key + "=" + p.value;
    PairLine(p);
    assert EqualAt(l) == |p.key| by { EqualAtFirst(p.key, p.value); }
    assert l[..|p.key|] == p.key && l[|p.key| + 1..] == p.value;
    assert Trim(p.key) == p.key by { TrimTrims(p.key); }
    assert Trim(p.value) == p.value by { TrimTrims(p.value); }
  }

  lemma {:induction false} EntryIsLine(name: string, e: Entry)
    requires SoundEntry(e) && !e.Header?
    ensures var ls := EntryLines(name, e); |ls| == 1 && OneLine(ls[0])
  {
    if e.Item? {
      PairLine(e.kv);
    }
  }

  lemma {:induction false} TitleLine(name: string)
    requires GoodName(name)
    ensures var l := "[" + name + "]"; OneLine(l) && Classify(l) == Title(TitleName(l))
  {
    var l := "[" + name + "]";
    assert l[0] == '[' && l[|l| - 1] == ']';
    assert forall i :: 0 <= i < |l| ==> l[i] == '[' || l[i] in name || l[i] == ']';
  }

  /** The closing bracket goes, and with it every ']' that ends the name. */
  lemma {:induction false} CloseTrimmed(name: string)
    requires name != ""
    ensures var r := RTrim("[" + name + "]", "]");
            && r != [] && r[0] == '['
            && if name[|name| - 1] == ']' then |r| <= |name| else r == "[" + name
  {
    hide RTrim;
    var l, open := "[" + name + "]", "[" + name;
    RTrimStep(open);
    BracketStays(name);
    if name[|name| - 1] == ']' {
      assert open == open[..|name|] + "]";
      RTrimStep(open[..|name|]);
      RTrimLength(open[..|name|]);
    } else {
      RTrimLength(open);
    }
  }

  /** The opening bracket goes, and with it every '[' that begins the name. */
  lemma {:induction false} OpenTrimmed(r: string)
    requires r != [] && r[0] == '['
    ensures var m := LTrim(r, "[");
            && |m| < |r|
            && (|r| > 1 && r[1] != '[' ==> m == r[1..])
            && (|r| > 1 && r[1] == '[' ==> |m| < |r| - 1)
  {
    hide LTrim, RTrim;
    LTrimStep(r);
    TrimSpec(r[1..], "[");
    if |r| > 1 && r[1] == '[' {
      LTrimStep(r[1..]);
      TrimSpec(r[1..][1..], "[");
    }
  }

  lemma {:induction false} LTrimStep(s: string)
    requires s != [] && s[0] == '['
    ensures LTrim(s, "[") == LTrim(s[1..], "[")
  {
  }

  lemma {:induction false} RTrimLength(s: string)
    ensures |RTrim(s, "]")| <= |s| && (s != "" && s[|s| - 1] != ']' ==> RTrim(s, "]") == s)
  {
    RTrimSpec(s, "]");
  }

  lemma {:induction false} RTrimStep(open: string)
    ensures RTrim(open + "]", "]") == RTrim(open, "]")
  {
    assert (open + "]")[..|open|] == open;
  }

  lemma {:induction false} TrimShrinks(s: string)
    ensures |Trim(s)| <= |s|
  {
    TrimSpec(s, SPACES);
    TrimSpec(RTrim(s), SPACES);
  }

  /** Reading a printed title gives back the name exactly when the name is plain. */
  lemma {:induction false} TitlePrinted(name: string)
    requires GoodName(name)
    ensures var l := "[" + name + "]";
            && OneLine(l) && Classify(l) == Title(TitleName(l))
            && (PlainName(name) ==> TitleName(l) == name)
            && (!PlainName(name) ==> |TitleName(l)| < |name|)
  {
    TitleLine(name);
    CloseTrimmed(name);
    var r := RTrim("[" + name + "]", "]");
    OpenTrimmed(r);
    TrimShrinks(LTrim(r, "["));
    TrimTrims(name);
    assert PlainName(name) ==> r[1..] == name;
  }

  lemma {:induction false} BracketStays(name: string)
    ensures var r := RTrim("[" + name, "]"); r != [] && r[0] == '['
    decreases |name|
  {
    var s := "[" + name;
    if name != "" && name[|name| - 1] == ']' {
      assert s[..|s| - 1] == "[" + name[..|name| - 1];
      BracketStays(name[..|name| - 1]);
    }
  }

  // ------------------------------------------------------------- printed nodes

  function AllLines(name: string, nodes: seq<Entry>): seq<string> {
    NodeLines(name, nodes, |nodes|)
  }

  lemma {:induction false} NodeLinesPrefix(name: string, a: seq<Entry>, b: seq<Entry>, n: nat)
    requires n <= |a|
    ensures NodeLines(name, a + b, n) == NodeLines(name, a, n)
  {
    if n > 0 {
      NodeLinesPrefix(name, a, b, n - 1);
    }
  }

  lemma {:induction false} OneEntryMore(name: string, a: seq<Entry>, e: Entry)
    ensures AllLines(name, a + [e]) == AllLines(name, a) + EntryLines(name, e)
    ensures AllLines(name, [e]) == EntryLines(name, e)
  {
    hide EntryLines;
    NodeLinesPrefix(name, a, [e], |a|);
    assert NodeLines(name, [e], 1) == NodeLines(name, [e], 0) + EntryLines(name, e);
  }

  lemma {:induction false} LinesAppend(name: string, a: seq<Entry>, b: seq<Entry>)
    ensures AllLines(name, a + b) == AllLines(name, a) + AllLines(name, b)
    decreases |b|
  {
    hide EntryLines, AllLines;
    if b == [] {
      assert a + b == a;
      NoEntries(name);
    } else {
      var n := |b| - 1;
      LinesAppend(name, a, b[..n]);
      assert a + b == a + b[..n] + [b[n]] && b == b[..n] + [b[n]];
      OneEntryMore(name, a + b[..n], b[n]);
      OneEntryMore(name, b[..n], b[n]);
      Reassoc(AllLines(name, a), AllLines(name, b[..n]), EntryLines(name, b[n]));
    }
  }

  lemma {:induction false} NoEntries(name: string)
    ensures AllLines(name, []) == []
  {
  }

  /** Around the section's own line. */
  lemma {:induction false} SectionLines(name: string, nodes: seq<Entry>, h: nat)
    requires HeaderAt(nodes, h)
    ensures AllLines(name, nodes)
            == AllLines(name, nodes[..h]) + EntryLines(name, Header) + AllLines(name, nodes[h + 1..])
  {
    hide EntryLines, AllLines;
    assert nodes == nodes[..h] + [Header] + nodes[h + 1..];
    LinesAppend(name, nodes[..h] + [Header], nodes[h + 1..]);
    OneEntryMore(name, nodes[..h], Header);
  }

  /** Without a header the name is not printed. */
  lemma {:induction false} NamelessLines(a: string, b: string, nodes: seq<Entry>, n: nat)
    requires n <= |nodes| && NoHeader(nodes)
    ensures NodeLines(a, nodes, n) == NodeLines(b, nodes, n)
  {
    if n > 0 {
      NamelessLines(a, b, nodes, n - 1);
    }
  }

  // ------------------------------------------------------------- printed files

  function Separator(s: Sect, last: bool): seq<Entry> {
    if s.nodes == [] || EndsNil(s.nodes) || last then [] else [NilLine]
  }

  lemma {:induction false} SeparatorLines(s: Sect, last: bool)
    ensures var sep := Separator(s, last);
            && AllLines(s.name, sep) == (if sep == [] then [] else [""])
            && SectLines(s, last) == AllLines(s.name, s.nodes) + AllLines(s.name, sep)
  {
    assert NodeLines(s.name, [NilLine], 1) == NodeLines(s.name, [NilLine], 0) + [""];
  }

  lemma {:induction false} NodeLinesGood(s: Sect, n: nat)
    requires n <= |s.nodes| && SoundNodes(s.nodes) && (s.name == "" || GoodName(s.name))
    ensures SingleLines(NodeLines(s.name, s.nodes, n)) && AllTrimmed(NodeLines(s.name, s.nodes, n))
  {
    if n > 0 {
      NodeLinesGood(s, n - 1);
      var e := s.nodes[n - 1];
      if e.Header? {
        if s.name != "" {
          TitleLine(s.name);
        }
      } else {
        EntryIsLine(s.name, e);
      }
    }
  }

  lemma {:induction false} GoodLinesAppend(a: seq<string>, b: seq<string>)
    ensures SingleLines(a + b) <==> SingleLines(a) && SingleLines(b)
    ensures AllTrimmed(a + b) <==> AllTrimmed(a) && AllTrimmed(b)
    ensures SingleLines([""]) && AllTrimmed([""])
  {
    assert forall i :: 0 <= i < |a| ==> (a + b)[i] == a[i];
    assert forall i :: 0 <= i < |b| ==> (a + b)[|a| + i] == b[i];
    if SingleLines(a) && SingleLines(b) {
      assert forall i :: |a| <= i < |a + b| ==> (a + b)[i] == b[i - |a|];
    }
  }

  lemma {:induction false} PrintLinesGood(file: seq<Sect>, n: nat)
    requires Sound(file) && n <= |file|
    ensures SingleLines(PrintLines(file, n)) && AllTrimmed(PrintLines(file, n))
  {
    if n > 0 {
      hide Sound, SoundSect, NodeLines, SingleLines, AllTrimmed;
      PrintLinesGood(file, n - 1);
      SectIsSound(file, n - 1);
      NodeLinesGood(file[n - 1], |file[n - 1].nodes|);
      var own := NodeLines(file[n - 1].name, file[n - 1].nodes, |file[n - 1].nodes|);
      assert SectLines(file[n - 1], n == |file|) == own || SectLines(file[n - 1], n == |file|) == own + [""];
      GoodLinesAppend(own, [""]);
      GoodLinesAppend(PrintLines(file, n - 1), own);
      GoodLinesAppend(PrintLines(file, n - 1), own + [""]);
    } else {
      hide Sound, SoundSect;
    }
  }

  /** A printed file is read as the very lines it printed. */
  lemma {:induction false} PrintedIsRead(file: seq<Sect>)
    requires Sound(file)
    ensures InputLines(Print(file)) == PrintLines(file, |file|)
  {
    PrintLinesGood(file, |file|);
    ReadBack(PrintLines(file, |file|));
  }
}

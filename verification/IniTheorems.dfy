/**
  The promises of dumping and reloading an INI file: exactly which texts and which files are
  printed again unchanged.
 */
module IniTheorems {
  import opened IniText
  import opened IniModel
  import opened IniShape
  import opened IniPrinted
  import opened IniNames
  import opened IniNormal
  import opened IniReload
  import opened Wrappers

  // ------------------------------------------------------------- any file, any text

  lemma {:induction false} SameText(a: seq<Sect>, b: seq<Sect>)
    requires Sound(a) && Sound(b)
    ensures Print(a) == Print(b) <==> PrintLines(a, |a|) == PrintLines(b, |b|)
  {
    hide Sound, PrintLines;
    PrintedIsRead(a);
    PrintedIsRead(b);
  }

  lemma {:induction false} ReadIsSound(text: string)
    ensures Sound(Parse(text))
  {
    ParseIsWellFormed(text);
  }

  /** A file that is dumped and reloaded prints the same text if and only if its lines are normal. */
  lemma {:induction false} PrintFixpoint(file: seq<Sect>)
    requires Sound(file)
    ensures Print(Parse(Print(file))) == Print(file) <==> Normal(PrintLines(file, |file|))
  {
    hide Sound, Print, PrintLines, Normal, Read;
    PrintedIsRead(file);
    PrintLinesGood(file, |file|);
    NormalIsFixpoint(PrintLines(file, |file|));
    ReadIsSound(Print(file));
    SameText(Parse(Print(file)), file);
  }

  /** A text is printed unchanged after reading if and only if its lines are normal and it
      consists of them. */
  lemma {:induction false} TextFixpoint(text: string)
    ensures var a := InputLines(text); Print(Parse(text)) == text <==> Normal(a) && text == JoinLines(a)
  {
    hide Sound, Normal, Read, InputLines, JoinLines, PrintLines;
    var a := InputLines(text);
    InputLinesAreTrimmed(text);
    NormalIsFixpoint(a);
    ReadIsSound(text);
    PrintedIsRead(Parse(text));
  }

  // ------------------------------------------------------------- lines that are added

  lemma {:induction false} NormalMore(a: seq<string>, l: string)
    ensures Normal(a + [l]) <==> Normal(a) && Fits(a, l) && (Classify(l).Title? ==> Detached(a))
    ensures Detached(a + [l]) <==> Classify(l).Blank? || (Classify(l).Note? && Detached(a))
  {
    hide Classify, Fits;
    assert Front(a + [l]) == a;
  }

  lemma {:induction false} SeenMore(a: seq<string>, l: string, s: string)
    ensures Seen(a + [l], s) <==> Seen(a, s) || (Classify(l).Title? && Fold(Classify(l).name) == s)
  {
    hide Classify;
    assert Front(a + [l]) == a;
  }

  /** Settings stand under names that have been seen. */
  lemma {:induction false} FirstIsSeen(a: seq<string>, s: string, k: string)
    ensures Seen(a, Current(a)) && (First(a, s, k).Some? ==> Seen(a, s))
  {
    hide Classify, Fold, First, Current;
    if a == [] {
      NothingSaid(s, k);
    } else {
      FirstIsSeen(Front(a), s, k);
      assert Front(a) + [Last(a)] == a;
      SaysMore(Front(a), Last(a), s, k);
      SeenMore(Front(a), Last(a), Current(a));
      SeenMore(Front(a), Last(a), s);
    }
  }

  /** The setting is not printed as a comment. */
  predicate Shows(p: Pair) {
    p.key != "" && !NoteMark(p.key[0])
  }

  lemma {:induction false} EntryClass(name: string, e: Entry)
    requires SoundEntry(e) && !e.Header? && (e.Item? ==> !Titled(e.kv))
    ensures |EntryLines(name, e)| == 1
    ensures var l := EntryLines(name, e)[0];
            match e
            case NilLine => Classify(l).Blank?
            case Comment(_) => Classify(l).Note?
            case Item(p) => if Shows(p) then Classify(l) == Setting(p) && l == p.key + "=" + p.value
                            else Classify(l).Note?
  {
    if e.Item? {
      if Shows(e.kv) {
        PairPrinted(e.kv);
      } else {
        NotePrinted(e.kv);
      }
    }
  }

  lemma {:induction false} EntryFits(a: seq<string>, name: string, e: Entry, s: string)
    requires SoundEntry(e) && !e.Header? && (e.Item? ==> !Titled(e.kv))
    ensures var ls := EntryLines(name, e);
            && (Normal(a + ls) <==>
                  Normal(a) && (e.Item? && Shows(e.kv) ==> First(a, Current(a), Fold(e.kv.key)) == None))
            && (Seen(a + ls, s) <==> Seen(a, s))
            && (e.NilLine? || (e.Comment? && Detached(a)) ==> Detached(a + ls))
  {
    hide Classify, Normal, Detached, Seen, First, Current;
    EntryClass(name, e);
    var l := EntryLines(name, e)[0];
    assert EntryLines(name, e) == [l];
    NormalMore(a, l);
    SeenMore(a, l, s);
  }

  /** The keys of the nodes are new under the name that the lines end with. */
  predicate NewBehind(a: seq<string>, nodes: seq<Entry>) {
    forall i :: 0 <= i < |nodes| && nodes[i].Item? && Shows(nodes[i].kv) ==>
      First(a, Current(a), Fold(nodes[i].kv.key)) == None
  }

  lemma {:induction false} NewBehindMore(a: seq<string>, nodes: seq<Entry>, e: Entry)
    ensures NewBehind(a, nodes + [e]) <==>
            NewBehind(a, nodes) && (e.Item? && Shows(e.kv) ==> First(a, Current(a), Fold(e.kv.key)) == None)
    ensures NewBehind(a, [])
  {
    hide First, Current, Fold, Shows;
    assert (nodes + [e])[|nodes|] == e;
    assert forall i :: 0 <= i < |nodes| ==> (nodes + [e])[i] == nodes[i];
  }

  lemma {:induction false} NextIsNew(a: seq<string>, name: string, nodes: seq<Entry>, n: nat)
    requires n < |nodes| && PlainEntries(nodes) && SoundNodes(nodes) && nodes[n].Item?
    ensures var b, k := a + NodeLines(name, nodes, n), Fold(nodes[n].kv.key);
            First(b, Current(b), k) == None <==> First(a, Current(a), k) == None
  {
    hide First, Current, NodeLines, Value, Fold, PlainEntries;
    NodesSay(a, name, nodes, n, Current(a), Fold(nodes[n].kv.key));
    assert FreshAt(nodes, n);
  }

  lemma {:induction false} NodesFit(a: seq<string>, name: string, nodes: seq<Entry>, n: nat, s: string)
    requires n <= |nodes| && PlainEntries(nodes) && SoundNodes(nodes)
    ensures var b := a + NodeLines(name, nodes, n);
            (Normal(b) <==> Normal(a) && NewBehind(a, nodes[..n])) && (Seen(b, s) <==> Seen(a, s))
  {
    hide Normal, Seen, First, Current, NewBehind, EntryLines, SoundNodes, Shows, Fold;
    if n == 0 {
      assert a + NodeLines(name, nodes, 0) == a && nodes[..0] == [];
      NewBehindMore(a, [], NilLine);
    } else {
      var b, e := a + NodeLines(name, nodes, n - 1), nodes[n - 1];
      NodesFit(a, name, nodes, n - 1, s);
      EntryFits(b, name, e, s);
      Reassoc(a, NodeLines(name, nodes, n - 1), EntryLines(name, e));
      assert nodes[..n] == nodes[..n - 1] + [e];
      NewBehindMore(a, nodes[..n - 1], e);
      if e.Item? {
        NextIsNew(a, name, nodes, n - 1);
      }
    }
  }

  lemma {:induction false} AllFitBehind(a: seq<string>, name: string, nodes: seq<Entry>, s: string)
    requires PlainEntries(nodes) && SoundNodes(nodes)
    ensures var b := a + AllLines(name, nodes);
            (Normal(b) <==> Normal(a) && NewBehind(a, nodes)) && (Seen(b, s) <==> Seen(a, s))
  {
    hide Normal, Seen, NewBehind;
    NodesFit(a, name, nodes, |nodes|, s);
    assert nodes[..|nodes|] == nodes;
  }

  lemma {:induction false} LeadDetached(a: seq<string>, name: string, lead: seq<Entry>, n: nat)
    requires n <= |lead| && Lead(lead) && PlainEntries(lead) && Detached(a)
    ensures Detached(a + NodeLines(name, lead, n))
  {
    hide EntryLines, Detached;
    if n == 0 {
      assert a + NodeLines(name, lead, 0) == a;
    } else {
      LeadDetached(a, name, lead, n - 1);
      var b := a + NodeLines(name, lead, n - 1);
      EntryFits(b, name, lead[n - 1], "");
      Reassoc(a, NodeLines(name, lead, n - 1), EntryLines(name, lead[n - 1]));
    }
  }

  /** What is left out of sound nodes in front holds no setting. */
  lemma {:induction false} SoundParts(t: Sect, h: nat)
    requires SoundSect(t) && HeaderAt(t.nodes, h)
    ensures SoundNodes(t.nodes[..h]) && SoundNodes(t.nodes[h + 1..])
  {
    hide Value;
    SoundNodesPrefix(t.nodes, h);
    var post := t.nodes[h + 1..];
    forall i | 0 <= i < |post| ensures SoundEntry(post[i]) && FreshAt(post, i) {
      assert post[i] == t.nodes[h + 1 + i] && FreshAt(t.nodes, h + 1 + i);
      if post[i].Item? {
        FrontHasNoValue(t.nodes, h, i, Fold(post[i].kv.key));
      }
    }
  }

  lemma {:induction false} FrontHasNoValue(nodes: seq<Entry>, h: nat, i: nat, k: string)
    requires HeaderAt(nodes, h) && h + 1 + i <= |nodes|
    ensures Value(nodes[..h + 1 + i], k) == Value(nodes[h + 1..][..i], k)
  {
    var front := nodes[..h + 1];
    assert forall j :: 0 <= j < h ==> front[j] == nodes[..h][j];
    assert nodes[..h + 1 + i] == front + nodes[h + 1..][..i];
    NoItemNoValue(front, k);
    ValueAppend(front, nodes[h + 1..][..i], k);
  }

  // ------------------------------------------------------------- sections that are added

  lemma {:induction false} TitleFits(a: seq<string>, name: string, s: string)
    requires GoodName(name) && Detached(a)
    ensures var b := a + ["[" + name + "]"];
            && (Normal(b) <==> Normal(a) && PlainName(name) && !Seen(a, Fold(name)))
            && (Seen(b, s) <==> Seen(a, s) || Shown(name) == s)
  {
    hide Normal, Seen, TitleName, Fold;
    var l := "[" + name + "]";
    TitlePrinted(name);
    NormalMore(a, l);
    SeenMore(a, l, s);
    assert l == "[" + TitleName(l) + "]" ==> |TitleName(l)| == |name|;
  }

  /** The section's own block, behind the lines a, is printed again unchanged. */
  predicate BlockFits(a: seq<string>, t: Sect) {
    if t.name == "" then NewBehind(a, t.nodes) else PlainName(t.name) && !Seen(a, Fold(t.name))
  }

  /** The lines in front of the section's own change nothing that new keys depend on. */
  lemma {:induction false} LeadSaysNothing(a: seq<string>, name: string, lead: seq<Entry>, s: string)
    requires Lead(lead) && PlainEntries(lead) && SoundNodes(lead)
    ensures var b := a + AllLines(name, lead);
            && Current(b) == Current(a) && (Normal(b) <==> Normal(a)) && (Seen(b, s) <==> Seen(a, s))
            && (forall k :: First(b, Current(b), k) == First(a, Current(a), k))
            && (Detached(a) ==> Detached(b))
  {
    hide First, Current, Normal, Seen, Value, AllLines, Detached, Lead;
    NoLeadItems(a, lead);
    AllFitBehind(a, name, lead, s);
    var b := a + AllLines(name, lead);
    AllSay(a, name, lead, "", "");
    forall k ensures First(b, Current(b), k) == First(a, Current(a), k) {
      AllSay(a, name, lead, Current(a), k);
      LeadHasNoValue(lead, k);
    }
    if Detached(a) {
      LeadAllDetached(a, name, lead);
    }
  }

  lemma {:induction false} LeadAllDetached(a: seq<string>, name: string, lead: seq<Entry>)
    requires Lead(lead) && PlainEntries(lead) && Detached(a)
    ensures Detached(a + AllLines(name, lead))
  {
    LeadDetached(a, name, lead, |lead|);
  }

  lemma {:induction false} NoLeadItems(a: seq<string>, lead: seq<Entry>)
    requires Lead(lead)
    ensures NewBehind(a, lead)
  {
    hide First, Current;
  }

  lemma {:induction false} ItemsBehind(a: seq<string>, b: seq<string>, nodes: seq<Entry>, h: nat)
    requires HeaderAt(nodes, h) && forall k :: First(b, Current(b), k) == First(a, Current(a), k)
    ensures NewBehind(b, nodes[h + 1..]) <==> NewBehind(a, nodes)
  {
    hide First, Current, Shows, Fold;
    var post := nodes[h + 1..];
    assert forall i :: 0 <= i < |post| ==> post[i] == nodes[h + 1 + i];
    assert forall i :: 0 <= i < h ==> nodes[i] == nodes[..h][i];
    forall i | h < i < |nodes| ensures nodes[i] == post[i - h - 1] {
    }
  }

  lemma {:induction false} NewUnderTitle(a: seq<string>, name: string, nodes: seq<Entry>)
    requires GoodName(name) && PlainName(name) && !Seen(a, Fold(name))
    ensures NewBehind(a + ["[" + name + "]"], nodes)
  {
    hide First, Current, Seen, Fold, TitleName;
    TitlePrinted(name);
    var b := a + ["[" + name + "]"];
    forall k ensures First(b, Current(b), k) == None {
      TitleSays(a, name, Fold(name), k);
      FirstIsSeen(a, Fold(name), k);
    }
  }

  lemma {:induction false} HeadedFits(a: seq<string>, t: Sect, h: nat, s: string)
    requires SoundSect(t) && Untitled(t.nodes) && HeaderAt(t.nodes, h) && Detached(a)
    ensures var b := a + AllLines(t.name, t.nodes);
            && (Normal(b) <==> Normal(a) && BlockFits(a, t))
            && (Seen(b, s) <==> Seen(a, s) || (t.name != "" && Shown(t.name) == s))
  {
    SplitEntries(t, h);
    SoundParts(t, h);
    SectionLines(t.name, t.nodes, h);
    hide First, Current, Normal, Seen, NewBehind, Detached, AllLines, HeaderAt, SoundNodes, PlainEntries, Untitled,
         Shown, PlainName, Fold;
    var lead, post := t.nodes[..h], t.nodes[h + 1..];
    var ll, title, pl := AllLines(t.name, lead), EntryLines(t.name, Header), AllLines(t.name, post);
    IsLead(t.nodes, h);
    LeadSaysNothing(a, t.name, lead, s);
    LeadSaysNothing(a, t.name, lead, Fold(t.name));
    AllFitBehind(a + ll + title, t.name, post, s);
    Reassoc(a, ll, title);
    Reassoc(a, ll + title, pl);
    if t.name == "" {
      assert a + ll + title == a + ll;
      ItemsBehind(a, a + ll, t.nodes, h);
    } else {
      TitleFits(a + ll, t.name, s);
      if PlainName(t.name) && !Seen(a, Fold(t.name)) {
        NewUnderTitle(a + ll, t.name, post);
      }
    }
  }

  lemma {:induction false} IsLead(nodes: seq<Entry>, h: nat)
    requires HeaderAt(nodes, h)
    ensures Lead(nodes[..h])
  {
  }

  lemma {:induction false} OwnFits(a: seq<string>, t: Sect, s: string)
    requires SoundSect(t) && Untitled(t.nodes) && Detached(a)
    ensures var b := a + AllLines(t.name, t.nodes);
            && (Normal(b) <==> Normal(a) && BlockFits(a, t))
            && (Seen(b, s) <==> Seen(a, s) || (t.name != "" && Shown(t.name) == s))
  {
    hide Normal, Seen, NewBehind, Detached, AllLines, HeaderAt, Shown;
    if h: nat :| HeaderAt(t.nodes, h) {
      HeadedFits(a, t, h, s);
    } else {
      AllFitBehind(a, t.name, t.nodes, s);
    }
  }

  lemma {:induction false} BlankFits(a: seq<string>, s: string)
    ensures (Normal(a + [""]) <==> Normal(a)) && (Seen(a + [""], s) <==> Seen(a, s)) && Detached(a + [""])
  {
    hide Normal, Seen, Detached;
    NormalMore(a, "");
    SeenMore(a, "", s);
  }

  lemma {:induction false} SectFits(a: seq<string>, t: Sect, last: bool, s: string)
    requires SoundSect(t) && Untitled(t.nodes) && Detached(a)
    ensures var b := a + SectLines(t, last);
            && (Normal(b) <==> Normal(a) && BlockFits(a, t))
            && (Seen(b, s) <==> Seen(a, s) || (t.name != "" && Shown(t.name) == s))
            && (!last ==> Detached(b))
  {
    hide Normal, Seen, NewBehind, Detached, BlockFits, AllLines, SoundSect, Shown;
    OwnFits(a, t, s);
    var own, sep := AllLines(t.name, t.nodes), AllLines(t.name, Separator(t, last));
    SeparatorLines(t, last);
    Reassoc(a, own, sep);
    if Separator(t, last) == [] {
      assert a + own + sep == a + own;
      if !last {
        SettledDetached(a, t);
      }
    } else {
      BlankFits(a + own, s);
    }
  }

  lemma {:induction false} SettledDetached(a: seq<string>, t: Sect)
    requires Settled(t.nodes) && Detached(a)
    ensures Detached(a + AllLines(t.name, t.nodes))
  {
    hide Detached, AllLines;
    if t.nodes == [] {
      NoEntries(t.name);
      assert a + [] == a;
    } else {
      var n := |t.nodes| - 1;
      assert t.nodes == t.nodes[..n] + [NilLine];
      OneEntryMore(t.name, t.nodes[..n], NilLine);
      BlankFits(a + AllLines(t.name, t.nodes[..n]), "");
      Reassoc(a, AllLines(t.name, t.nodes[..n]), [""]);
    }
  }

  // ------------------------------------------------------------- files

  /** One of the first n sections is read under this name. */
  predicate ShownIn(file: seq<Sect>, n: nat, s: string)
    requires n <= |file|
  {
    s == "" || exists i :: 0 <= i < n && file[i].name != "" && Shown(file[i].name) == s
  }

  lemma {:induction false} ShownMore(file: seq<Sect>, n: nat, s: string)
    requires n < |file|
    ensures ShownIn(file, n + 1, s) <==> ShownIn(file, n, s) || (file[n].name != "" && Shown(file[n].name) == s)
  {
    hide Shown;
  }

  /** The section prints what is printed again: its name survives, and if it has none, its
      settings are new to the section before. */
  predicate SectStays(file: seq<Sect>, i: nat)
    requires i < |file|
  {
    if file[i].name != "" then PlainName(file[i].name) && Fold(file[i].name) != ""
    else i == 0 || NewTo(file[i - 1].nodes, file[i].nodes)
  }

  /** None of the keys that are printed as keys is a key of the other nodes. */
  predicate NewTo(before: seq<Entry>, nodes: seq<Entry>) {
    forall i :: 0 <= i < |nodes| && nodes[i].Item? && Shows(nodes[i].kv) ==>
      Value(before, Fold(nodes[i].kv.key)) == None
  }

  predicate TextStays(file: seq<Sect>, n: nat)
    requires n <= |file|
  {
    forall i :: 0 <= i < n ==> SectStays(file, i)
  }

  lemma {:induction false} PlainHome(file: seq<Sect>, i: nat)
    requires Sound(file) && i < |file| && file[i].name != "" && PlainName(file[i].name)
    ensures Home(file, i) == Shown(file[i].name) == Fold(file[i].name)
  {
    OwnHome(file, i);
  }

  lemma {:induction false} NotSeen(file: seq<Sect>, n: nat)
    requires Sound(file) && n < |file| && TextStays(file, n) && file[n].name != ""
    ensures ShownIn(file, n, Fold(file[n].name)) <==> Fold(file[n].name) == ""
  {
    hide Fold, Shown, Sound, Home, PlainName;
    SoundIsDistinct(file);
    forall i | 0 <= i < n && file[i].name != "" ensures Shown(file[i].name) != Fold(file[n].name) {
      assert SectStays(file, i);
      PlainHome(file, i);
    }
  }

  /** Behind a section that keeps its name only that section has settings under it. */
  lemma {:induction false} OnlyPrevious(file: seq<Sect>, n: nat, k: string)
    requires Sound(file) && 0 < n < |file| && TextStays(file, n) && file[n].name == ""
    ensures Reloaded(file, n, Home(file, n - 1), k) == Survives(Value(file[n - 1].nodes, k), k)
  {
    hide Fold, Sound, Home, PlainName, Value, Survives;
    var s := Home(file, n - 1);
    SoundIsDistinct(file);
    NoNameFolds();
    if Reloaded(file, n - 1, s, k).Some? {
      var j := ReloadedFrom(file, n - 1, s, k);
      assert SectStays(file, j) && SectStays(file, n - 1);
      assert file[j].name != "" && file[n - 1].name != "";
      PlainHome(file, j);
      PlainHome(file, n - 1);
      assert false;
    }
  }

  lemma {:induction false} NewToPrevious(file: seq<Sect>, n: nat)
    requires Sound(file) && NoTitles(file) && n < |file| && TextStays(file, n) && file[n].name == ""
    ensures NewBehind(PrintLines(file, n), file[n].nodes) <==> SectStays(file, n)
  {
    hide First, Current, Sound, NoTitles, PrintLines, Reloaded, Home, Value, Fold;
    var a, nodes := PrintLines(file, n), file[n].nodes;
    forall i | 0 <= i < |nodes| && nodes[i].Item? && Shows(nodes[i].kv)
      ensures First(a, Current(a), Fold(nodes[i].kv.key)) ==
              if n == 0 then None else Value(file[n - 1].nodes, Fold(nodes[i].kv.key))
    {
      var k := Fold(nodes[i].kv.key);
      FileSays(file, n, "", k);
      FileSays(file, n, Current(a), k);
      NoteKey(nodes[i].kv.key, k);
      if n == 0 {
        NothingReloaded(file, Current(a), k);
      } else {
        OnlyPrevious(file, n, k);
      }
    }
  }

  lemma {:induction false} NothingReloaded(file: seq<Sect>, s: string, k: string)
    ensures Reloaded(file, 0, s, k) == None
  {
  }

  /** The lines of the first n sections are normal exactly when those sections stay. */
  lemma {:induction false} FileFits(file: seq<Sect>, n: nat)
    requires Sound(file) && NoTitles(file) && n <= |file|
    ensures Normal(PrintLines(file, n)) <==> TextStays(file, n)
    ensures n < |file| || n == 0 ==> Detached(PrintLines(file, n))
    ensures forall s :: Seen(PrintLines(file, n), s) <==> ShownIn(file, n, s)
  {
    hide Normal, Seen, ShownIn, Detached, BlockFits, SectLines, Sound, SectStays, Shown;
    if n == 0 {
      NothingFits(file);
    } else {
      var a, t := PrintLines(file, n - 1), file[n - 1];
      FileFits(file, n - 1);
      SectIsSound(file, n - 1);
      assert Untitled(t.nodes);
      SectFits(a, t, n == |file|, "");
      forall s ensures Seen(PrintLines(file, n), s) <==> ShownIn(file, n, s) {
        SectFits(a, t, n == |file|, s);
        ShownMore(file, n - 1, s);
      }
      assert TextStays(file, n) <==> TextStays(file, n - 1) && SectStays(file, n - 1);
      if TextStays(file, n - 1) {
        BlockStays(file, n - 1);
      }
    }
  }

  lemma {:induction false} NothingFits(file: seq<Sect>)
    ensures Normal(PrintLines(file, 0)) && Detached(PrintLines(file, 0))
    ensures forall s :: Seen(PrintLines(file, 0), s) <==> ShownIn(file, 0, s)
  {
  }

  lemma {:induction false} BlockStays(file: seq<Sect>, n: nat)
    requires Sound(file) && NoTitles(file) && n < |file| && TextStays(file, n)
    requires forall s :: Seen(PrintLines(file, n), s) <==> ShownIn(file, n, s)
    ensures BlockFits(PrintLines(file, n), file[n]) <==> SectStays(file, n)
  {
    hide Seen, ShownIn, Sound, NoTitles, NewBehind, PrintLines, Fold, PlainName;
    if file[n].name == "" {
      NewToPrevious(file, n);
    } else {
      NotSeen(file, n);
    }
  }

  /** A file in which no setting is printed as a title prints the same text again if and only if
      every section name survives, and the settings of a later section without a name are new to
      the section before. */
  lemma {:induction false} FileFixpoint(file: seq<Sect>)
    requires Sound(file) && NoTitles(file)
    ensures Print(Parse(Print(file))) == Print(file) <==> TextStays(file, |file|)
  {
    hide *;
    PrintFixpoint(file);
    FileFits(file, |file|);
  }

  // ------------------------------------------------------------- files that were read

  lemma {:induction false} RootedStays(file: seq<Sect>)
    requires WellFormed(file)
    ensures TextStays(file, |file|) <==> AllPlain(file)
    ensures NoTitles(file)
  {
    hide NewTo;
    SoundIsDistinct(file);
    NoNameFolds();
    if AllPlain(file) {
      forall i | 0 <= i < |file| ensures SectStays(file, i) {
        assert i > 0 ==> Fold(file[i].name) != Fold(file[0].name);
      }
    } else {
      var i :| 0 <= i < |file| && !PlainName(file[i].name);
      assert !SectStays(file, i);
    }
  }

  /** For any text: what is printed after reading it is printed again after reading that if and
      only if every section name is plain. */
  lemma {:induction false} ParsedTextFixpoint(text: string)
    ensures Print(Parse(Print(Parse(text)))) == Print(Parse(text)) <==> AllPlain(Parse(text))
  {
    hide *;
    ParseIsWellFormed(text);
    ReadIsSound(text);
    RootedStays(Parse(text));
    FileFixpoint(Parse(text));
  }

  /** Every lookup gives the same answer after a dump and a reload. */
  lemma {:induction false} LookupsSurvive(file: seq<Sect>, section: string, key: string)
    requires WellFormed(file) && AllPlain(file)
    ensures Lookup(Parse(Print(file)), Fold(section), Fold(key)) == Lookup(file, Fold(section), Fold(key))
  {
    PlainNamesStay(file);
    hide *;
    ReadableSurvives(file, Fold(section), Fold(key));
    NamesKeepHomes(file);
    ReloadLosesComments(file, Fold(section), Fold(key));
  }

  lemma {:induction false} PlainNamesStay(file: seq<Sect>)
    requires WellFormed(file) && AllPlain(file)
    ensures Sound(file) && AllReadable(file) && NoTitles(file) && NamesStay(file) && NamelessInFront(file)
  {
    SoundIsDistinct(file);
    assert forall i :: 1 <= i < |file| ==> Fold(file[i].name) != Fold(file[0].name);
    assert forall i :: 0 <= i < |file| ==> PlainName(file[i].name);
  }

  lemma {:induction false} SwallowedTitle()
    ensures TitleName("[ [a] ]") == "[a]"
  {
    assert "[ [a] ]"[..6] == "[ [a] " && RTrim("[ [a] ]", "]") == "[ [a] ";
    assert "[ [a] "[1..] == " [a] " && LTrim("[ [a] ", "[") == " [a] ";
    assert " [a] "[..4] == " [a]" && RTrim(" [a] ") == " [a]";
    assert " [a]"[1..] == "[a]" && LTrim(" [a]") == "[a]";
  }

  lemma {:induction false} SwallowedStep()
    ensures Step(Begin([]), "[ [a] ]").sects == [Sect("", []), Sect("[a]", [Header])]
  {
    hide Step, Begin;
    SwallowedTitle();
    assert Fold("[a]")[0] == '[';
    NewTitle("[ [a] ]");
  }

  /** A text that shows the condition matters: its section name keeps brackets of its own. */
  lemma {:induction false} SwallowedName()
    ensures var text := JoinLines(["[ [a] ]"]); !AllPlain(Parse(text))
  {
    hide Step, Begin, Parse, JoinLines;
    SwallowedStep();
    ParseOneLine("[ [a] ]");
    assert Parse(JoinLines(["[ [a] ]"]))[1].name == "[a]";
  }

  lemma {:induction false} ParseOneLine(l: string)
    requires OneLine(l)
    ensures Parse(JoinLines([l])) == Step(Begin([]), l).sects
  {
    hide Step;
    ReadMore([l]);
    assert Front([l]) == [];
    ReadBack([l]);
  }

  lemma {:induction false} NewTitle(l: string)
    requires Classify(l).Title? && Fold(TitleName(l)) != ""
    ensures Step(Begin([]), l).sects == [Sect("", []), Sect(TitleName(l), [Header])]
  {
    var st := Begin([]);
    assert FindSect(st.sects, TitleName(l)) == 1;
    var nodes := st.sects[0].nodes;
    assert TailAt(nodes) == 0 && nodes[..0] == [] && nodes[0..] + [Header] == [Header];
    assert st.sects[0 := Sect("", [])] == [Sect("", [])];
  }
}

/**
  Files that were read and then edited: more texts read behind them, settings reached through
  the two index operators, and values assigned to them.
 */
module IniEdit {
  import opened IniText
  import opened IniModel
  import opened IniShape
  import opened IniMeaning
  import opened IniPrinted
  import opened IniNames
  import opened IniNormal
  import opened IniReload
  import opened IniTheorems
  import opened Wrappers

  // ------------------------------------------------------------- the index operators

  /** The normalized name of a section, under which operator[] looks and files it. */
  function NameOf(section: string): string {
    TitleName(Trim(section))
  }

  /** The section that operator[] makes: try_create of the name in brackets. */
  function MadeSect(name: string): Sect {
    Sect(TitleName("[" + name + "]"), [Header])
  }

  /** The setting that operator[] makes: try_create of the key with an equals sign behind it. */
  function MadePair(key: string): Pair {
    var l := key + "=";
    Pair(Trim(l[..EqualAt(l)]), if EqualAt(l) < |l| then Trim(l[EqualAt(l) + 1..]) else "")
  }

  /** The node that is the first setting with this key, or the length. */
  function KeyPlace(nodes: seq<Entry>, k: string): (i: nat)
    ensures i <= |nodes|
    ensures i < |nodes| ==> nodes[i].Item?
  {
    if nodes == [] || (nodes[0].Item? && Fold(nodes[0].kv.key) == k) then 0 else KeyPlace(nodes[1..], k) + 1
  }

  function WithSect(file: seq<Sect>, name: string): (r: seq<Sect>)
    ensures FindSect(file, name) < |r|
  {
    if FindSect(file, name) < |file| then file else file + [MadeSect(name)]
  }

  function WithKey(nodes: seq<Entry>, key: string): (r: seq<Entry>)
    ensures KeyPlace(nodes, Fold(key)) < |r| && r[KeyPlace(nodes, Fold(key))].Item?
  {
    if KeyPlace(nodes, Fold(key)) < |nodes| then nodes else nodes + [Item(MadePair(key))]
  }

  /** The file after both index operators. */
  function Indexed(file: seq<Sect>, name: string, key: string): seq<Sect> {
    var i := FindSect(file, name);
    var more := WithSect(file, name);
    more[i := Sect(more[i].name, WithKey(more[i].nodes, key))]
  }

  /** set_value: the first line, trimmed. */
  function OneValue(value: string): string {
    Trim(value[..LineEnd(value)])
  }

  function LineEnd(s: string): (n: nat)
    ensures n <= |s| && '\n' !in s[..n]
  {
    if s == "" || s[0] == '\n' || s[0] == '\r' then 0
    else
      var n := LineEnd(s[1..]);
      assert s[..n + 1] == [s[0]] + s[1..][..n];
      n + 1
  }

  /** The value ends in front of the first line break. */
  lemma {:induction false} LineEndSpec(s: string)
    ensures var n := LineEnd(s);
            '\n' !in s[..n] && '\r' !in s[..n] && (n < |s| ==> s[n] == '\n' || s[n] == '\r')
  {
    if s != "" && s[0] != '\n' && s[0] != '\r' {
      LineEndSpec(s[1..]);
      assert s[..LineEnd(s)] == [s[0]] + s[1..][..LineEnd(s[1..])];
    }
  }

  function WithValue(nodes: seq<Entry>, key: string, v: string): seq<Entry> {
    var more := WithKey(nodes, key);
    var p := KeyPlace(nodes, Fold(key));
    more[p := Item(Pair(more[p].kv.key, v))]
  }

  /** The file after an assignment to a setting that is reached by its names. */
  function Assigned(file: seq<Sect>, name: string, key: string, value: string): seq<Sect> {
    var i := FindSect(file, name);
    var more := WithSect(file, name);
    more[i := Sect(more[i].name, WithValue(more[i].nodes, key, OneValue(value)))]
  }

  // ------------------------------------------------------------- when map and list agree

  /** What try_create demands of a key. */
  predicate Usable(key: string) {
    Trimmed(key) && key != "" && key[0] != '='
  }

  /** The section is there already, or the one made is found under the name it is filed by. */
  predicate NameAgrees(file: seq<Sect>, name: string) {
    FindSect(file, name) < |file| || Stays(name)
  }

  /** The same for a key; an equals sign behind a NUL does not matter. */
  predicate KeyAgrees(nodes: seq<Entry>, key: string) {
    KeyPlace(nodes, Fold(key)) < |nodes| || '=' !in Fold(key)
  }

  lemma {:induction false} MadeSectFolds(name: string)
    requires name == "" || GoodName(name)
    ensures Fold(MadeSect(name).name) == Fold(name) <==> Stays(name)
    ensures OneLine(MadeSect(name).name)
    ensures PlainName(name) ==> MadeSect(name).name == name
  {
    ShownNames(name);
    if name == "" {
      assert "[" + "" + "]" == "[]" && "[]"[..1] == "[";
      assert RTrim("[]", "]") == "[" && LTrim("[", "[") == "";
    } else {
      TitlePrinted(name);
      TitleIsGood("[" + name + "]");
    }
  }

  lemma {:induction false} EqualAtMost(s: string, i: nat)
    requires i < |s| && s[i] == '='
    ensures EqualAt(s) <= i
  {
    if i > 0 && s[0] != '=' {
      EqualAtMost(s[1..], i - 1);
    }
  }

  lemma {:induction false} FoldAt(s: string, n: nat)
    requires n < |s| && '\0' !in s[..n + 1]
    ensures n < |Fold(s)| && Fold(s)[n] == Lower(s[n])
  {
    assert s[0] == s[..n + 1][0];
    if n > 0 {
      assert forall i :: 0 <= i < n ==> s[1..][..n][i] == s[..n + 1][i + 1];
      FoldAt(s[1..], n - 1);
    }
  }

  lemma {:induction false} FoldKeeps(s: string, c: char)
    requires c !in s && !('a' <= c <= 'z')
    ensures c !in Fold(s)
  {
    if s != "" && s[0] != '\0' {
      assert Fold(s) == [Lower(s[0])] + Fold(s[1..]);
      FoldKeeps(s[1..], c);
    }
  }

  /** The key of the setting that is made compares like the key it is filed by exactly when no
      comparison sees an equals sign in it. */
  lemma {:induction false} MadePairFolds(key: string)
    requires Usable(key)
    ensures Fold(MadePair(key).key) == Fold(key) <==> '=' !in Fold(key)
    ensures '=' !in key ==> MadePair(key) == Pair(key, "")
    ensures '\n' !in key ==> SoundPair(MadePair(key))
  {
    var l := key + "=";
    EqualAtSpec(l);
    var n := EqualAt(l);
    assert 0 < n <= |key| && l[..n] == key[..n] by {
      EqualAtMost(l, |key|);
      assert l[0] == key[0];
    }
    MadePairIsSound(key, n);
    if '=' !in key {
      assert n == |key| && l[..n] == key && l[n + 1..] == "";
      TrimTrims(key);
      FoldKeeps(key, '=');
    } else {
      assert n < |key| by {
        var i :| 0 <= i < |key| && key[i] == '=';
        EqualAtMost(l, i);
      }
      CutKeyFolds(key, n);
    }
  }

  lemma {:induction false} CutKeyFolds(key: string, n: nat)
    requires Usable(key) && 0 < n < |key| && key[n] == '=' && '=' !in key[..n]
    ensures Fold(Trim(key[..n])) == Fold(key) <==> '=' !in Fold(key)
  {
    hide Fold, Trim;
    if '\0' in key[..n] {
      HiddenEqual(key, n);
    } else {
      SeenEqual(key, n);
    }
  }

  lemma {:induction false} HiddenEqual(key: string, n: nat)
    requires Usable(key) && 0 < n < |key| && '=' !in key[..n] && '\0' in key[..n]
    ensures Fold(Trim(key[..n])) == Fold(key) && '=' !in Fold(key)
  {
    hide Fold, RTrim, LTrim;
    var front := key[..n];
    FoldPrefix(key, n);
    FoldKeeps(front, '=');
    RTrimKeepsNul(front, SPACES);
    RTrimKeepsHead(front);
    TrimSpec(RTrim(front), SPACES);
  }

  lemma {:induction false} SeenEqual(key: string, n: nat)
    requires 0 < n < |key| && key[n] == '=' && '\0' !in key[..n]
    ensures |Fold(Trim(key[..n]))| < |Fold(key)| && '=' in Fold(key)
  {
    hide Fold, Trim;
    assert key[..n + 1] == key[..n] + "=";
    FoldAt(key, n);
    assert Fold(key)[n] == '=';
    TrimFolds(key[..n]);
    FoldLength(key[..n]);
  }

  lemma {:induction false} MadePairIsSound(key: string, n: nat)
    requires Usable(key) && n == EqualAt(key + "=") && 0 < n <= |key|
    ensures '\n' !in key ==> SoundPair(MadePair(key))
  {
    var l := key + "=";
    EqualAtSpec(l);
    if '\n' !in key {
      assert OneLine(l);
      KeyIsGood(l, n);
      ValueIsGood(l, n);
    }
  }

  // ------------------------------------------------------------- what the operators keep

  lemma {:induction false} KeyPlaceValue(nodes: seq<Entry>, k: string)
    ensures var p := KeyPlace(nodes, k);
            && (p < |nodes| <==> Value(nodes, k).Some?)
            && (p < |nodes| ==> Fold(nodes[p].kv.key) == k && Value(nodes, k) == Some(nodes[p].kv.value))
  {
    if nodes != [] && !(nodes[0].Item? && Fold(nodes[0].kv.key) == k) {
      KeyPlaceValue(nodes[1..], k);
    }
  }

  lemma {:induction false} KeyPlaceFirst(nodes: seq<Entry>, k: string)
    ensures var p := KeyPlace(nodes, k);
            && (p < |nodes| ==> Fold(nodes[p].kv.key) == k)
            && forall j :: 0 <= j < p && nodes[j].Item? ==> Fold(nodes[j].kv.key) != k
  {
    if nodes != [] && !(nodes[0].Item? && Fold(nodes[0].kv.key) == k) {
      KeyPlaceFirst(nodes[1..], k);
      var p := KeyPlace(nodes[1..], k);
      assert forall j :: 1 <= j < p + 1 ==> nodes[j] == nodes[1..][j - 1];
    }
  }

  lemma {:induction false} WithSectKeeps(file: seq<Sect>, name: string, s: string, k: string)
    requires Sound(file) && OneLine(name) && NameAgrees(file, name)
    ensures var more := WithSect(file, name);
            && Sound(more) && Fold(more[FindSect(file, name)].name) == Fold(name)
            && Lookup(more, s, k) == Lookup(file, s, k)
  {
    hide Fold, TitleName;
    FindSectSpec(file, name);
    if FindSect(file, name) == |file| {
      var made, none: seq<Entry> := MadeSect(name), [];
      MadeSectFolds(name);
      assert none + [Header] == [Header];
      NewSectKeepsShape(file, made.name, none);
      NoItemNoValue([Header], k);
      LookupSame(file, WithSect(file, name), s, k);
    }
  }

  lemma {:induction false} WithKeyKeeps(t: Sect, key: string, k: string)
    requires SoundSect(t) && Usable(key) && '\n' !in key && KeyAgrees(t.nodes, key)
    ensures var u := Sect(t.name, WithKey(t.nodes, key));
            && SoundSect(u)
            && KeyPlace(u.nodes, Fold(key)) == KeyPlace(t.nodes, Fold(key))
            && Value(u.nodes, k) ==
               if Value(t.nodes, k) == None && Fold(key) == k then Some(MadePair(key).value) else Value(t.nodes, k)
  {
    hide Fold, MadePair, SoundSect;
    KeyPlaceValue(t.nodes, Fold(key));
    if KeyPlace(t.nodes, Fold(key)) == |t.nodes| {
      var e: Entry := Item(MadePair(key));
      MadePairFolds(key);
      PushKeepsShape(t, e);
      ValueAppend(t.nodes, [e], k);
      ValueOfOne(e, k);
      KeyPlaceAppend(t.nodes, e, Fold(key));
    }
  }

  lemma {:induction false} KeyPlaceAppend(nodes: seq<Entry>, e: Entry, k: string)
    requires KeyPlace(nodes, k) == |nodes| && e.Item? && Fold(e.kv.key) == k
    ensures KeyPlace(nodes + [e], k) == |nodes|
  {
    hide Fold;
    if nodes != [] {
      assert (nodes + [e])[1..] == nodes[1..] + [e];
      KeyPlaceAppend(nodes[1..], e, k);
    }
  }

  /** A file with the section at i changed answers lookups under other names as before. */
  lemma {:induction false} SectReplaced(file: seq<Sect>, i: nat, u: Sect, s: string, k: string)
    requires Sound(file) && i < |file| && u.name == file[i].name && SoundSect(u)
    ensures Sound(file[i := u])
    ensures Lookup(file[i := u], s, k) ==
            if Fold(file[i].name) == s then Value(u.nodes, k) else Lookup(file, s, k)
    ensures Fold(file[i].name) == s ==> Lookup(file, s, k) == Value(file[i].nodes, k)
  {
    hide Value, SoundSect, Fold;
    ReplaceKeepsShape(file, i, u);
    SoundIsDistinct(file);
    SoundIsDistinct(file[i := u]);
    if Fold(file[i].name) == s {
      LookupAt(file, i, s, k);
      LookupAt(file[i := u], i, s, k);
    } else {
      LookupElsewhere(file, file[i := u], i, s, k);
    }
  }

  /** The index operators keep a sound file sound, and change no lookup but the one they are
      for, which gives the old value, or that of the setting made if there was none. */
  lemma {:induction false} IndexKeepsLookups(file: seq<Sect>, name: string, key: string, s: string, k: string)
    requires Sound(file) && OneLine(name) && Usable(key) && '\n' !in key
    requires NameAgrees(file, name) && KeyAgrees(WithSect(file, name)[FindSect(file, name)].nodes, key)
    ensures var r := Indexed(file, name, key);
            && Sound(r)
            && Lookup(r, s, k) ==
               if Lookup(file, s, k) == None && Fold(name) == s && Fold(key) == k then Some(MadePair(key).value)
               else Lookup(file, s, k)
  {
    hide Fold, Sound, SoundSect, Value, Lookup, MadePair, WithKey, NameAgrees, KeyAgrees, WithSect;
    var i, more := FindSect(file, name), WithSect(file, name);
    WithSectKeeps(file, name, s, k);
    SectIsSound(more, i);
    WithKeyKeeps(more[i], key, k);
    SectReplaced(more, i, Sect(more[i].name, WithKey(more[i].nodes, key)), s, k);
  }

  // ------------------------------------------------------------- assignment

  /** A new value in the setting at p, under the same key. */
  function Revalued(nodes: seq<Entry>, p: nat, v: string): seq<Entry>
    requires p < |nodes| && nodes[p].Item?
  {
    nodes[p := Item(Pair(nodes[p].kv.key, v))]
  }

  lemma {:induction false} RevaluedValue(nodes: seq<Entry>, p: nat, v: string, k: string)
    requires p < |nodes| && nodes[p].Item?
    ensures Value(Revalued(nodes, p, v), k) == if KeyPlace(nodes, k) == p then Some(v) else Value(nodes, k)
  {
    var r := Revalued(nodes, p, v);
    if p > 0 && !(nodes[0].Item? && Fold(nodes[0].kv.key) == k) {
      assert r[1..] == Revalued(nodes[1..], p - 1, v);
      RevaluedValue(nodes[1..], p - 1, v, k);
    } else if p == 0 && Fold(nodes[0].kv.key) != k {
      assert r[1..] == nodes[1..];
    }
  }

  lemma {:induction false} RevaluedKeepsShape(t: Sect, p: nat, v: string)
    requires SoundSect(t) && p < |t.nodes| && t.nodes[p].Item? && OneLine(v)
    ensures SoundSect(Sect(t.name, Revalued(t.nodes, p, v)))
  {
    RevaluedNodes(t.nodes, p, v);
    hide SoundNodes;
    if h: nat :| HeaderAt(t.nodes, h) {
      HeaderRevalued(t.nodes, h, p, v);
    }
  }

  lemma {:induction false} RevaluedNodes(nodes: seq<Entry>, p: nat, v: string)
    requires SoundNodes(nodes) && p < |nodes| && nodes[p].Item? && OneLine(v)
    ensures SoundNodes(Revalued(nodes, p, v))
  {
    var r := Revalued(nodes, p, v);
    forall i | 0 <= i < |r| ensures SoundEntry(r[i]) && FreshAt(r, i) {
      assert SoundEntry(nodes[i]) && FreshAt(nodes, i);
      if i <= p {
        assert r[..i] == nodes[..i];
      } else {
        assert r[..i] == Revalued(nodes[..i], p, v);
        if r[i].Item? {
          var k := Fold(r[i].kv.key);
          RevaluedValue(nodes[..i], p, v, k);
          KeyPlaceValue(nodes[..i], k);
        }
      }
    }
  }

  lemma {:induction false} HeaderRevalued(nodes: seq<Entry>, h: nat, p: nat, v: string)
    requires HeaderAt(nodes, h) && p < |nodes| && nodes[p].Item?
    ensures HeaderAt(Revalued(nodes, p, v), h)
  {
    assert forall i :: 0 <= i < h ==> nodes[..h][i] == nodes[i];
    assert Revalued(nodes, p, v)[..h] == nodes[..h];
  }

  lemma {:induction false} OneValueIsLine(value: string)
    ensures OneLine(OneValue(value))
  {
    TrimIsOneLine(value[..LineEnd(value)]);
  }

  /** An assignment keeps a sound file sound, and changes just the lookup of its own setting,
      to the first line of the value, trimmed. */
  lemma {:induction false} AssignKeepsLookups(file: seq<Sect>, name: string, key: string, value: string, s: string,
                                              k: string)
    requires Sound(file) && OneLine(name) && Usable(key) && '\n' !in key
    requires NameAgrees(file, name) && KeyAgrees(WithSect(file, name)[FindSect(file, name)].nodes, key)
    ensures var r := Assigned(file, name, key, value);
            && Sound(r)
            && Lookup(r, s, k) ==
               if Fold(name) == s && Fold(key) == k then Some(OneValue(value)) else Lookup(file, s, k)
  {
    hide Fold, Sound, SoundSect, Value, Lookup, MadePair, NameAgrees, KeyAgrees, WithSect, KeyPlace,
         OneValue;
    var i, more := FindSect(file, name), WithSect(file, name);
    WithSectKeeps(file, name, s, k);
    var t := more[i];
    var own := Sect(t.name, WithKey(t.nodes, key));
    var p, v := KeyPlace(t.nodes, Fold(key)), OneValue(value);
    SectIsSound(more, i);
    WithKeyKeeps(t, key, k);
    OneValueIsLine(value);
    RevaluedKeepsShape(own, p, v);
    RevaluedValue(own.nodes, p, v, k);
    OnlyKeyPlace(own.nodes, p, Fold(key), k);
    SectReplaced(more, i, Sect(t.name, Revalued(own.nodes, p, v)), s, k);
  }

  lemma {:induction false} OnlyKeyPlace(nodes: seq<Entry>, p: nat, k: string, other: string)
    requires p == KeyPlace(nodes, k) && p < |nodes|
    ensures KeyPlace(nodes, other) == p <==> other == k
  {
    KeyPlaceValue(nodes, k);
    KeyPlaceValue(nodes, other);
  }

  // ------------------------------------------------------------- any number of edits

  datatype Edit =
    | MoreText(text: string)
    | SectAt(section: string)
    | IndexAt(section: string, key: string)
    | SetTo(section: string, key: string, value: string)

  /** What the operators assert of their arguments: single lines, and a key that is one. */
  predicate Asserted(e: Edit) {
    e.MoreText? || ('\n' !in e.section && (e.SectAt? || ('\n' !in e.key && Usable(Trim(e.key)))))
  }

  /** Map and list agree after the edit. */
  predicate Agrees(file: seq<Sect>, e: Edit) {
    e.MoreText? ||
    var name := NameOf(e.section);
    && NameAgrees(file, name)
    && (e.SectAt? || KeyAgrees(WithSect(file, name)[FindSect(file, name)].nodes, Trim(e.key)))
  }

  function Apply(file: seq<Sect>, e: Edit): seq<Sect> {
    match e
    case MoreText(text) => Read(Begin(file), InputLines(text), |InputLines(text)|).sects
    case SectAt(section) => WithSect(file, NameOf(section))
    case IndexAt(section, key) => Indexed(file, NameOf(section), Trim(key))
    case SetTo(section, key, value) => Assigned(file, NameOf(section), Trim(key), value)
  }

  /** A new file after the first n edits; reading a text is one, and may come at any place. */
  function Edited(edits: seq<Edit>, n: nat): seq<Sect>
    requires n <= |edits|
  {
    if n == 0 then [] else Apply(Edited(edits, n - 1), edits[n - 1])
  }

  ghost predicate AllAgree(edits: seq<Edit>) {
    forall i :: 0 <= i < |edits| ==> Asserted(edits[i]) && Agrees(Edited(edits, i), edits[i])
  }

  lemma {:induction false} ReadingKeepsShape(file: seq<Sect>, text: string)
    requires Sound(file)
    ensures Sound(Apply(file, MoreText(text)))
  {
    hide Sound, Begin, Read;
    BeginKeepsShape(file);
    InputLinesAreTrimmed(text);
    ReadKeepsShape(Begin(file), InputLines(text), |InputLines(text)|);
  }

  lemma {:induction false} ReachingKeepsShape(file: seq<Sect>, e: Edit)
    requires Sound(file) && Asserted(e) && Agrees(file, e) && !e.MoreText?
    ensures Sound(Apply(file, e))
  {
    hide Sound, Indexed, Assigned, TitleName, NameAgrees, KeyAgrees, WithSect;
    TrimIsOneLine(e.section);
    TitleIsGood(Trim(e.section));
    if e.SectAt? {
      WithSectKeeps(file, NameOf(e.section), "", "");
      return;
    }
    TrimIsOneLine(e.key);
    if e.IndexAt? {
      IndexKeepsLookups(file, NameOf(e.section), Trim(e.key), "", "");
    } else {
      AssignKeepsLookups(file, NameOf(e.section), Trim(e.key), e.value, "", "");
    }
  }

  /** However a file came about, by reading, indexing and assigning: no two sections and no two
      keys of a section are equal up to case, as long as every edit agrees. */
  lemma {:induction false} EditedIsSound(edits: seq<Edit>, n: nat)
    requires n <= |edits| && AllAgree(edits)
    ensures Sound(Edited(edits, n))
  {
    hide Sound, Asserted, Agrees, Apply;
    if n == 0 {
      NothingIsSound();
    } else {
      EditedIsSound(edits, n - 1);
      assert Asserted(edits[n - 1]) && Agrees(Edited(edits, n - 1), edits[n - 1]);
      if edits[n - 1].MoreText? {
        ReadingKeepsShape(Edited(edits, n - 1), edits[n - 1].text);
      } else {
        ReachingKeepsShape(Edited(edits, n - 1), edits[n - 1]);
      }
    }
  }

  lemma {:induction false} NothingIsSound()
    ensures Sound([])
  {
  }

  /** Such a file finds all its settings again after a dump and a reload, and no others, exactly
      when each is printed as a setting, and for each some section that has it is read under its
      section's name; unless a name is lost just before the section without a name, the names
      decide this alone.  It prints the same text again exactly when its lines are normal, and when
      no setting is printed as a title, the names and the keys behind them decide that. */
  lemma {:induction false} EditedFilesSurvive(edits: seq<Edit>)
    requires AllAgree(edits)
    ensures var file := Edited(edits, |edits|);
            && (KeepsLookups(file) <==> AllReadable(file) && Rehomed(file))
            && (SteadyBefore(file) ==>
                  (KeepsLookups(file) <==> AllReadable(file) && NamesStay(file) && NamelessInFront(file)))
            && (Print(Parse(Print(file))) == Print(file) <==> Normal(PrintLines(file, |file|)))
            && (NoTitles(file) ==> (Print(Parse(Print(file))) == Print(file) <==> TextStays(file, |file|)))
  {
    hide *;
    var file := Edited(edits, |edits|);
    EditedIsSound(edits, |edits|);
    ReloadKeepsLookups(file);
    PrintFixpoint(file);
    if SteadyBefore(file) {
      NamesDecide(file);
    }
    if NoTitles(file) {
      FileFixpoint(file);
    }
  }

  /** An assignment leaves all settings readable exactly when its own is: when the key does not
      begin like a comment, and not like a title that the value ends. */
  lemma {:induction false} AssignedReadable(file: seq<Sect>, name: string, key: string, value: string)
    requires AllReadable(file) && Usable(key)
    ensures var i, p := FindSect(file, name), KeyPlace(WithSect(file, name)[FindSect(file, name)].nodes, Fold(key));
            var r := Assigned(file, name, key, value);
            i < |r| && p < |r[i].nodes| && r[i].nodes[p].Item?
            && (AllReadable(r) <==> Readable(r[i].nodes[p].kv))
  {
    var i := FindSect(file, name);
    var more := WithSect(file, name);
    var nodes := more[i].nodes;
    var r := Assigned(file, name, key, value);
    assert AllReadable(more);
    assert forall j :: 0 <= j < |nodes| && j != KeyPlace(nodes, Fold(key)) ==> r[i].nodes[j] == nodes[j];
  }

  /** A key like "[a" with a value like "b]": the line is read as a title. */
  lemma {:induction false} ReadAsTitle()
    ensures Usable("[a") && !Readable(Pair("[a", OneValue("b]")))
    ensures Classify("[a" + "=" + OneValue("b]")).Title?
  {
    assert "b]"[1..] == "]" && LineEnd("]"[1..]) == 0 && LineEnd("]") == 1 && LineEnd("b]") == 2;
    assert "b]"[..2] == "b]" && Trim("b]") == "b]" by { TrimTrims("b]"); }
  }

  /** The name of the text [ [a] ] is filed as [a], and its section is listed as a. */
  lemma {:induction false} BracketsDisagree()
    ensures NameOf("[ [a] ]") == "[a]" && !Stays("[a]") && MadeSect("[a]").name == "a"
  {
    hide TitleName, RTrim, LTrim;
    TrimTrims("[ [a] ]");
    SwallowedTitle();
    BracketedAgain();
    assert "[" + "[a]" + "]" == "[[a]]";
  }

  lemma {:induction false} BracketedAgain()
    ensures TitleName("[[a]]") == "a"
  {
    var l := "[[a]]";
    assert l[..4] == "[[a]" && l[..3] == "[[a" && RTrim(l, "]") == "[[a";
    assert "[[a"[1..] == "[a" && "[a"[1..] == "a" && LTrim("[[a", "[") == "a";
    TrimTrims("a");
  }

  /** The key a=b is filed under itself, and its setting is listed as a, with a value. */
  lemma {:induction false} EqualsDisagree()
    ensures Usable("a=b") && '=' in Fold("a=b") && MadePair("a=b") == Pair("a", "b=")
  {
    FoldAt("a=b", 1);
    assert Fold("a=b")[1] == '=';
    var l := "a=b" + "=";
    assert l == "a=b=" && l[1..] == "=b=" && EqualAt(l) == 1;
    assert l[..1] == "a" && l[2..] == "b=";
    TrimTrims("a");
    TrimTrims("b=");
  }

  // ------------------------------------------------------------- files without a root

  lemma {:induction false} NameOfPlain(name: string)
    requires name != "" && Trimmed(name) && PlainName(name)
    ensures NameOf(name) == name
  {
    hide RTrim, LTrim, Trim;
    TrimTrims(name);
    TrimSpec(name, "]");
    TrimSpec(name, "[");
  }

  /** A name may be written like a title. */
  lemma {:induction false} NameOfTitle(name: string)
    requires GoodName(name) && PlainName(name)
    ensures NameOf("[" + name + "]") == name
  {
    TitlePrinted(name);
    hide Trim, TitleName;
    TrimTrims("[" + name + "]");
  }

  lemma {:induction false} NameOfNothing()
    ensures NameOf("") == ""
  {
  }

  lemma {:induction false} KeyAndValue()
    ensures Trim("y") == "y" && OneValue("2") == "2"
  {
    hide Trim;
    TrimTrims("y");
    TrimTrims("2");
    assert LineEnd("2"[1..]) == 0 && LineEnd("2") == 1 && "2"[..1] == "2";
  }

  lemma {:induction false} MadeByNames()
    ensures WithSect([], "a") == [Sect("a", [Header])]
    ensures WithSect([Sect("a", [Header])], "") == [Sect("a", [Header]), Sect("", [Header])]
    ensures FindSect([Sect("a", [Header])], "") == 1
  {
    hide TitleName;
    MadeSectFolds("a");
    MadeSectFolds("");
    assert Fold("a")[0] == 'a' && Fold("") == "";
  }

  lemma {:induction false} MadeByKey()
    ensures WithValue([Header], "y", "2") == [Header, Item(Pair("y", "2"))]
  {
    hide Fold, MadePair;
    MadePairFolds("y");
    assert KeyPlace([], Fold("y")) == 0 && KeyPlace([Header], Fold("y")) == 1;
  }

  const ROOTLESS := [Sect("a", [Header]), Sect("", [Header, Item(Pair("y", "2"))])]

  lemma {:induction false} RootlessFile()
    ensures var edits := [SectAt("a"), SetTo("", "y", "2")]; AllAgree(edits) && Edited(edits, 2) == ROOTLESS
  {
    hide Trim, NameOf, OneValue, WithSect, WithValue, Fold, KeyPlace;
    var edits := [SectAt("a"), SetTo("", "y", "2")];
    NameOfPlain("a");
    NameOfNothing();
    KeyAndValue();
    MadeByNames();
    MadeByKey();
    NoNameFolds();
    assert Edited(edits, 0) == [];
    assert Edited(edits, 1) == [Sect("a", [Header])];
    FoldKeeps("y", '=');
  }

  lemma {:induction false} RootlessShape()
    ensures AllReadable(ROOTLESS) && NamesStay(ROOTLESS) && SteadyBefore(ROOTLESS) && !NamelessInFront(ROOTLESS)
  {
    assert ROOTLESS[1].nodes[1].Item?;
  }

  lemma {:induction false} RootlessHomes()
    ensures Home(ROOTLESS, 0) == "a" && Home(ROOTLESS, 1) == "a"
  {
    hide Shown;
    ShownNames("a");
    assert Fold("a") == "a" by {
      assert Fold("a") == ['a'] + Fold("a"[1..]) && "a"[1..] == "";
    }
  }

  lemma {:induction false} RootlessValues(k: string)
    ensures Value([Header], k) == None
    ensures Value([Header, Item(Pair("y", "2"))], "y") == Some("2")
    ensures Fold("a") == "a" && Fold("") == "" && Survives(Some("2"), "y") == Some("2") && Survives(None, k) == None
  {
    assert Fold("y") == ['y'] + Fold("y"[1..]) && "y"[1..] == "";
    assert Fold("a") == ['a'] + Fold("a"[1..]) && "a"[1..] == "";
    NoItemNoValue([Header], k);
    assert [Header, Item(Pair("y", "2"))][1..] == [Item(Pair("y", "2"))];
  }

  lemma {:induction false} RootlessReloaded(s: string)
    ensures Reloaded(ROOTLESS, 2, s, "y") == if s == "a" then Some("2") else None
    ensures Lookup(ROOTLESS, "", "y") == Some("2")
  {
    hide Home, Survives, Value, Fold;
    RootlessHomes();
    RootlessValues("y");
    assert Reloaded(ROOTLESS, 0, s, "y") == None && Reloaded(ROOTLESS, 1, s, "y") == None;
    assert ROOTLESS[1..] == [ROOTLESS[1]];
  }

  /** Indexing before anything is read leaves no section without a name in front.  One that
      comes later gives its settings to the section before. */
  lemma {:induction false} RootlessLoses()
    ensures var edits := [SectAt("a"), SetTo("", "y", "2")];
            && AllAgree(edits) && Edited(edits, 2) == ROOTLESS
            && AllReadable(ROOTLESS) && NamesStay(ROOTLESS) && !KeepsLookups(ROOTLESS)
    ensures Lookup(ROOTLESS, "", "y") == Some("2") && Lookup(Parse(Print(ROOTLESS)), "", "y") == None
    ensures Lookup(Parse(Print(ROOTLESS)), "a", "y") == Some("2")
  {
    assert |ROOTLESS| == 2;
    hide *;
    RootlessFile();
    RootlessShape();
    EditedIsSound([SectAt("a"), SetTo("", "y", "2")], 2);
    ReadableHasNoTitles(ROOTLESS);
    ReloadFinds(ROOTLESS, "", "y");
    ReloadFinds(ROOTLESS, "a", "y");
    RootlessReloaded("");
    RootlessReloaded("a");
    NamesDecide(ROOTLESS);
    ReloadKeepsLookups(ROOTLESS);
  }
}

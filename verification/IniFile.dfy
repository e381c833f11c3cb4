/**
  The INI file objects: nodes in lists that change in place, and beside each list a map
  that must keep finding what a linear, case-insensitive scan of the list would find.
 */
module IniFile {
  import opened IniText
  import opened IniModel
  import opened IniShape
  import opened IniMeaning
  import opened IniNames
  import opened IniEdit
  import opened Wrappers

  class KeyValue {
    const key: string
    var value: string
    /** The section that holds the node. */
    ghost const home: object

    constructor (key: string, value: string, ghost home: object)
      ensures this.key == key && this.value == value && this.home == home
    {
      this.key, this.value, this.home := key, value, home;
    }

    /** set_value: the first line, trimmed. */
    method SetValue(value: string)
      modifies this
      ensures this.value == OneValue(value)
    {
      var n := 0;
      while n < |value| && value[n] != '\n' && value[n] != '\r'
        invariant n <= |value| && LineEnd(value) == n + LineEnd(value[n..])
      {
        n := n + 1;
      }
      var line := Trim(value[..n]);
      if line != this.value {
        this.value := line;
      }
    }
  }

  type Nodes = seq<Node<KeyValue>>

  ghost function Items(nodes: Nodes): set<KeyValue> {
    set i | 0 <= i < |nodes| && nodes[i].Item? :: nodes[i].kv
  }

  /** Nodes belong to one section only. */
  ghost predicate Homed(nodes: Nodes, home: object) {
    forall kv :: kv in Items(nodes) ==> kv.home == home
  }

  function ValOf(node: Node<KeyValue>): Entry
    reads if node.Item? then {node.kv} else {}
  {
    match node
    case NilLine => NilLine
    case Comment(t) => Comment(t)
    case Header => Header
    case Item(kv) => Item(Pair(kv.key, kv.value))
  }

  /** The values of a list of nodes. */
  ghost function Vals(nodes: Nodes): (r: seq<Entry>)
    reads Items(nodes)
    ensures |r| == |nodes|
  {
    if nodes == [] then []
    else
      var (init, last) := (nodes[..|nodes| - 1], nodes[|nodes| - 1]);
      assert Items(init) <= Items(nodes);
      assert last.Item? ==> last.kv in Items(nodes);
      Vals(init) + [ValOf(last)]
  }

  /** The linear scan: the first setting whose key folds to k. */
  ghost function Scan(nodes: Nodes, k: string): KeyValue? {
    if nodes == [] then null
    else if nodes[0].Item? && Fold(nodes[0].kv.key) == k then nodes[0].kv
    else Scan(nodes[1..], k)
  }

  /** A map that finds, for every key, what the scan finds. */
  ghost predicate KeysAgree(nodes: Nodes, keys: map<string, KeyValue>) {
    forall k :: Scan(nodes, k) == if k in keys then keys[k] else null
  }

  ghost predicate KeysUnique(nodes: Nodes) {
    forall i, j :: 0 <= i < j < |nodes| && nodes[i].Item? && nodes[j].Item? ==>
      Fold(nodes[i].kv.key) != Fold(nodes[j].kv.key)
  }

  // ------------------------------------------------------------- scans and values

  lemma {:induction false} ScanAppend(a: Nodes, b: Nodes, k: string)
    ensures Scan(a + b, k) == if Scan(a, k) != null then Scan(a, k) else Scan(b, k)
  {
    if a == [] {
      assert a + b == b;
    } else {
      assert (a + b)[1..] == a[1..] + b;
      ScanAppend(a[1..], b, k);
    }
  }

  lemma {:induction false} ScanSpec(nodes: Nodes, k: string)
    ensures Scan(nodes, k) == null <==>
            forall i :: 0 <= i < |nodes| && nodes[i].Item? ==> Fold(nodes[i].kv.key) != k
    ensures Scan(nodes, k) != null ==> Scan(nodes, k) in Items(nodes) && Fold(Scan(nodes, k).key) == k
  {
    if nodes != [] {
      ScanSpec(nodes[1..], k);
      assert nodes == [nodes[0]] + nodes[1..];
      var s := Scan(nodes[1..], k);
      if s != null {
        var i :| 0 <= i < |nodes| - 1 && nodes[1..][i].Item? && nodes[1..][i].kv == s;
        assert nodes[i + 1].kv == s;
      }
    }
  }

  lemma {:induction false} ValsAppend(a: Nodes, b: Nodes)
    ensures Vals(a + b) == Vals(a) + Vals(b)
    decreases |b|
  {
    if b == [] {
      assert a + b == a;
    } else {
      var n := |b| - 1;
      ValsAppend(a, b[..n]);
      assert (a + b)[..|a| + n] == a + b[..n];
      assert (a + b)[|a| + n] == b[n];
    }
  }

  lemma {:induction false} ValsAt(nodes: Nodes, i: nat)
    requires i < |nodes|
    ensures nodes[i].Item? ==> nodes[i].kv in Items(nodes)
    ensures Vals(nodes)[i] == ValOf(nodes[i])
    decreases |nodes|
  {
    if i < |nodes| - 1 {
      ValsAt(nodes[..|nodes| - 1], i);
    }
  }

  lemma {:induction false} ValsCommentsFrom(nodes: Nodes, n: nat)
    requires n <= |nodes|
    ensures CommentsFrom(Vals(nodes), n) == CommentsFrom(nodes, n)
  {
    if n > 0 {
      ValsAt(nodes, n - 1);
      ValsCommentsFrom(nodes, n - 1);
    }
  }

  lemma {:induction false} ValsTailAt(nodes: Nodes)
    ensures TailAt(Vals(nodes)) == TailAt(nodes)
    ensures EndsNil(Vals(nodes)) == EndsNil(nodes)
  {
    if nodes != [] {
      ValsAt(nodes, |nodes| - 1);
    }
    var n := |nodes| - if EndsNil(nodes) then 1 else 0;
    ValsCommentsFrom(nodes, n);
    if CommentsFrom(nodes, n) > 0 {
      ValsAt(nodes, CommentsFrom(nodes, n) - 1);
    }
  }

  /** The node stands at p and nowhere else. */
  ghost predicate OnlyAt(nodes: Nodes, p: nat, kv: KeyValue) {
    && p < |nodes| && nodes[p] == Item(kv)
    && forall q :: 0 <= q < |nodes| && q != p && nodes[q].Item? ==> nodes[q].kv != kv
  }

  lemma {:induction false} KeyIsOnce(nodes: Nodes, p: nat)
    requires KeysUnique(nodes) && p < |nodes| && nodes[p].Item?
    ensures OnlyAt(nodes, p, nodes[p].kv)
  {
  }

  /** The node that the scan finds stands where the value has the key. */
  lemma {:induction false} ScanAt(nodes: Nodes, i: nat, k: string)
    requires i < |nodes| && nodes[i].Item? && Fold(nodes[i].kv.key) == k
    requires forall j :: 0 <= j < i && nodes[j].Item? ==> Fold(nodes[j].kv.key) != k
    ensures Scan(nodes, k) == nodes[i].kv
  {
    if i > 0 {
      assert forall j :: 0 <= j < i - 1 ==> nodes[1..][j] == nodes[j + 1];
      ScanAt(nodes[1..], i - 1, k);
    }
  }

  lemma {:induction false} ValsKeyPlace(nodes: Nodes, k: string)
    ensures var p := KeyPlace(Vals(nodes), k);
            if p < |nodes| then nodes[p].Item? && Scan(nodes, k) == nodes[p].kv else Scan(nodes, k) == null
  {
    hide Vals, Scan, Fold;
    var p := KeyPlace(Vals(nodes), k);
    KeyPlaceFirst(Vals(nodes), k);
    forall i | 0 <= i < |nodes| ensures Vals(nodes)[i] == ValOf(nodes[i]) {
      ValsAt(nodes, i);
    }
    if p < |nodes| {
      ScanAt(nodes, p, k);
    } else {
      ScanNone(nodes, k);
    }
  }

  lemma {:induction false} ScanNone(nodes: Nodes, k: string)
    requires forall j :: 0 <= j < |nodes| && nodes[j].Item? ==> Fold(nodes[j].kv.key) != k
    ensures Scan(nodes, k) == null
  {
    if nodes != [] {
      assert forall j :: 0 <= j < |nodes| - 1 ==> nodes[1..][j] == nodes[j + 1];
      ScanNone(nodes[1..], k);
    }
  }

  lemma {:induction false} ValsScan(nodes: Nodes, k: string)
    ensures Value(Vals(nodes), k) == if Scan(nodes, k) == null then None else Some(Scan(nodes, k).value)
    decreases |nodes|
  {
    if nodes != [] {
      var n := |nodes| - 1;
      ValsScan(nodes[..n], k);
      assert nodes == nodes[..n] + [nodes[n]];
      ScanAppend(nodes[..n], [nodes[n]], k);
      ValueAppend(Vals(nodes[..n]), [Vals(nodes)[n]], k);
    }
  }

  lemma {:induction false} AddKey(nodes: Nodes, keys: map<string, KeyValue>, kv: KeyValue)
    requires KeysAgree(nodes, keys) && KeysUnique(nodes)
    requires Scan(nodes, Fold(kv.key)) == null
    ensures KeysAgree(nodes + [Item(kv)], keys[Fold(kv.key) := kv])
    ensures KeysUnique(nodes + [Item(kv)])
  {
    forall k ensures Scan(nodes + [Item(kv)], k)
                     == if Scan(nodes, k) != null then Scan(nodes, k) else if Fold(kv.key) == k then kv else null
    {
      ScanAppend(nodes, [Item(kv)], k);
    }
    ScanSpec(nodes, Fold(kv.key));
  }

  /** A new setting filed under a key is what the scan finds for it just when it is listed
      under a key that compares equal. */
  lemma {:induction false} FiledKey(nodes: Nodes, keys: map<string, KeyValue>, kv: KeyValue, key: string)
    requires KeysAgree(nodes, keys) && KeysUnique(nodes) && Scan(nodes, Fold(key)) == null
    requires Usable(key) && kv.key == MadePair(key).key
    ensures KeysAgree(nodes + [Item(kv)], keys[Fold(key) := kv]) && KeysUnique(nodes + [Item(kv)])
            <==> '=' !in Fold(key)
  {
    hide Scan, Fold, MadePair;
    MadePairFolds(key);
    if '=' !in Fold(key) {
      AddKey(nodes, keys, kv);
    } else {
      ScanAppend(nodes, [Item(kv)], Fold(key));
      ScanOne(kv, Fold(key));
    }
  }

  lemma {:induction false} ScanOne(kv: KeyValue, k: string)
    ensures Scan([Item(kv)], k) == if Fold(kv.key) == k then kv else null
  {
  }

  lemma {:induction false} HomedAdd(nodes: Nodes, node: Node<KeyValue>, home: object)
    requires Homed(nodes, home) && (node.Item? ==> node.kv.home == home)
    ensures Homed(nodes + [node], home)
  {
    forall kv | kv in Items(nodes + [node]) ensures kv.home == home {
      var i :| 0 <= i < |nodes + [node]| && (nodes + [node])[i].Item? && (nodes + [node])[i].kv == kv;
      if i < |nodes| {
        assert nodes[i].kv in Items(nodes);
      }
    }
  }

  lemma {:induction false} HomedTail(nodes: Nodes, more: Nodes, home: object)
    requires Homed(nodes, home) && forall i :: 0 <= i < |more| ==> !more[i].Item?
    ensures Homed(nodes + more, home) && Homed(more + nodes, home)
  {
    assert Items(nodes + more) <= Items(nodes);
    assert Items(more + nodes) <= Items(nodes);
  }

  lemma {:induction false} AddOther(nodes: Nodes, more: Nodes, k: string)
    requires forall i :: 0 <= i < |more| ==> !more[i].Item?
    ensures Scan(nodes + more, k) == Scan(nodes, k)
  {
    ScanAppend(nodes, more, k);
    ScanSpec(more, k);
  }

  /** Comments taken from the end carry no key away. */
  lemma {:induction false} TailHasNoKey(nodes: Nodes, k: string)
    ensures Scan(nodes[..TailAt(nodes)], k) == Scan(nodes, k)
  {
    var m := TailAt(nodes);
    TailSpec(nodes);
    AddOther(nodes[..m], nodes[m..], k);
    assert nodes == nodes[..m] + nodes[m..];
  }

  /** Nodes without keys, put before or behind, change nothing the map must find. */
  lemma {:induction false} OtherKeepsKeys(nodes: Nodes, more: Nodes, keys: map<string, KeyValue>)
    requires KeysAgree(nodes, keys) && KeysUnique(nodes)
    requires forall i :: 0 <= i < |more| ==> !more[i].Item?
    ensures KeysAgree(nodes + more, keys) && KeysUnique(nodes + more)
    ensures KeysAgree(more + nodes, keys) && KeysUnique(more + nodes)
  {
    forall k ensures Scan(nodes + more, k) == Scan(nodes, k) && Scan(more + nodes, k) == Scan(nodes, k) {
      AddOther(nodes, more, k);
      ScanAppend(more, nodes, k);
      ScanSpec(more, k);
    }
  }

  lemma {:induction false} TailKeepsKeys(nodes: Nodes, keys: map<string, KeyValue>)
    requires KeysAgree(nodes, keys) && KeysUnique(nodes)
    ensures KeysAgree(nodes[..TailAt(nodes)], keys) && KeysUnique(nodes[..TailAt(nodes)])
  {
    forall k ensures Scan(nodes[..TailAt(nodes)], k) == Scan(nodes, k) {
      TailHasNoKey(nodes, k);
    }
  }

  /** Where the comments before place n begin; a blank line at the very end is passed over. */
  ghost function FromHere(all: Nodes, n: nat, line: nat): nat
    requires n <= |all| && (line == 0 && EndsNil(all) ==> n > 0)
  {
    CommentsFrom(all, n - if line == 0 && EndsNil(all) then 1 else 0)
  }

  lemma {:induction false} HomedPrefix(all: Nodes, n: nat, home: object)
    requires Homed(all, home) && n <= |all|
    ensures Homed(all[..n], home)
  {
  }

  lemma {:induction false} FromHereEnds(all: Nodes)
    requires EndsNil(all) ==> all != []
    ensures var m := FromHere(all, |all|, 0);
            m <= |all| && TailAt(all) == if m == 0 || all[m - 1].NilLine? then m else |all|
    ensures forall line :: line > 0 || !EndsNil(all) ==> FromHere(all, 0, line) == 0
  {
  }

  lemma {:induction false} MoveBack(all: Nodes, nodes: Nodes, taken: Nodes)
    requires all == nodes + taken && nodes != []
    ensures var n := |nodes| - 1; all[n] == nodes[n] && all == nodes[..n] + ([nodes[n]] + taken)
    ensures all == (nodes + taken) + []
  {
  }

  lemma {:induction false} SplitAt(all: Nodes, nodes: Nodes, taken: Nodes)
    requires all == nodes + taken
    ensures nodes == all[..|nodes|] && taken == all[|nodes|..]
  {
  }

  lemma {:induction false} FromHereStep(all: Nodes, n: nat, line: nat)
    requires 0 < n <= |all| && (line == 0 ==> n == |all|)
    ensures all[n - 1].Comment? ==> FromHere(all, n - 1, line + 1) == FromHere(all, n, line)
    ensures all[n - 1].NilLine? && line == 0 ==> FromHere(all, n - 1, line + 1) == FromHere(all, n, line)
    ensures all[n - 1].NilLine? && line > 0 ==> FromHere(all, n, line) == n
    ensures all[n - 1].Item? || all[n - 1].Header? ==> FromHere(all, n, line) == n
  {
  }

  class Section {
    const name: string
    var nodes: Nodes
    var keys: map<string, KeyValue>

    /** The map finds what the scan finds, and no two settings have case-equal keys. */
    ghost predicate Valid()
      reads this
    {
      KeysAgree(nodes, keys) && KeysUnique(nodes) && Homed(nodes, this)
    }

    /** The root section, which has no line of its own. */
    constructor Root()
      ensures Valid() && name == "" && nodes == []
    {
      name, nodes, keys := "", [], map[];
    }

    constructor Titled(name: string)
      ensures Valid() && this.name == name && nodes == [Header]
    {
      this.name, nodes, keys := name, [Header], map[];
    }

    predicate HasEndNilLine()
      reads this
    {
      nodes != [] && nodes[|nodes| - 1].NilLine?
    }

    /** The map's answer is the scan's. */
    function FindKnode(key: string): (kv: KeyValue?)
      reads this
      requires Valid()
      ensures kv == Scan(nodes, Fold(key))
    {
      if Fold(key) in keys then keys[Fold(key)] else null
    }

    /** push_node: refuses a setting whose key the section has. */
    method PushNode(node: Node<KeyValue>) returns (ok: bool)
      requires Valid() && !node.Header? && (node.Item? ==> node.kv.home == this)
      modifies this
      ensures Valid()
      ensures ok <==> !(node.Item? && old(Scan(nodes, Fold(node.kv.key))) != null)
      ensures nodes == if ok then old(nodes) + [node] else old(nodes)
    {
      if node.NilLine? || node.Comment? {
        forall k ensures Scan(nodes + [node], k) == Scan(nodes, k) {
          AddOther(nodes, [node], k);
        }
        nodes := nodes + [node];
        return true;
      }
      var found := FindKnode(node.kv.key);
      if found != null {
        return false;
      }
      AddKey(nodes, keys, node.kv);
      nodes := nodes + [node];
      keys := keys[Fold(node.kv.key) := node.kv];
      return true;
    }

    /** operator[] on a key: the setting that the map has, or the one that is made of the key
        and filed by it.  The map still agrees with the list unless it had none and the key
        shows an equals sign. */
    method Index(key: string) returns (kv: KeyValue)
      requires Valid() && Trim(key) != "" && Trim(key)[0] != '='
      modifies this
      ensures Homed(nodes, this)
      ensures var k := Fold(Trim(key));
              if old(Scan(nodes, k)) != null then kv == old(Scan(nodes, k)) && nodes == old(nodes) && Valid()
              else && fresh(kv) && Pair(kv.key, kv.value) == MadePair(Trim(key)) && nodes == old(nodes) + [Item(kv)]
                   && (Valid() <==> '=' !in k)
    {
      var nkey := Trim(key);
      var found := FindKnode(nkey);
      if found != null {
        return found;
      }
      TrimTrims(key);
      var made := MadePair(nkey);
      kv := new KeyValue(made.key, made.value, this);
      HomedAdd(nodes, Item(kv), this);
      FiledKey(nodes, keys, kv, nkey);
      nodes := nodes + [Item(kv)];
      keys := keys[Fold(nkey) := kv];
    }

    /** Takes the trailing comments that belong to the next section, before or after comm. */
    method PopTailComment(comm: Nodes, front: bool) returns (r: Nodes, count: nat)
      requires Valid()
      modifies this
      ensures Valid()
      ensures var m := TailAt(old(nodes));
              var taken := old(nodes)[m..];
              nodes == old(nodes)[..m] && count == |taken|
              && r == if front then taken + comm else comm + taken
    {
      hide KeysAgree, KeysUnique, Homed, FromHere, TailAt, CommentsFrom;
      ghost var all := nodes;
      var taken: Nodes := [];
      var line, most := 0, |nodes|;
      var done := false;
      FromHereEnds(all);
      while !done && line < most && nodes != []
        invariant keys == old(keys) && line <= most && all == nodes + taken
        invariant !done ==> line == |taken| && |nodes| == most - line
        invariant !done ==> FromHere(all, |nodes|, line) == FromHere(all, |all|, 0)
        invariant !done && line == 1 && EndsNil(all) ==> taken == [NilLine]
        invariant done ==> |nodes| == TailAt(all)
        decreases most - line, !done
      {
        FromHereStep(all, |nodes|, line);
        MoveBack(all, nodes, taken);
        line := line + 1;
        var node := nodes[|nodes| - 1];
        if node.NilLine? {
          if line > 1 {
            done := true;
          } else {
            taken, nodes := [node] + taken, nodes[..|nodes| - 1];
          }
        } else if node.Item? || node.Header? {
          nodes, taken := nodes + taken, [];
          done := true;
        } else {
          taken, nodes := [node] + taken, nodes[..|nodes| - 1];
        }
      }
      SplitAt(all, nodes, taken);
      TailKeepsKeys(all, keys);
      HomedPrefix(all, TailAt(all), this);
      count := |taken|;
      if front {
        r := taken + comm;
      } else {
        r := comm + taken;
      }
    }

    /** Splices the trailing comments of another section into this one. */
    method TakeTail(from: Section, front: bool)
      requires Valid() && from.Valid() && from != this
      modifies this, from
      ensures Valid() && from.Valid()
      ensures var all := old(Vals(from.nodes));
              var tail := all[TailAt(all)..];
              && Vals(from.nodes) == all[..TailAt(all)]
              && Vals(nodes) == if front then tail + old(Vals(nodes)) else old(Vals(nodes)) + tail
    {
      hide Vals, Scan, KeysAgree, KeysUnique, TailAt, Homed;
      ghost var m := TailAt(from.nodes);
      ghost var (rest, tail, own) := (from.nodes[..m], from.nodes[m..], nodes);
      ValsTailAt(from.nodes);
      assert from.nodes == rest + tail;
      ValsAppend(rest, tail);
      ValsAppend(own, tail);
      ValsAppend(tail, own);
      TailSpec(from.nodes);
      OtherKeepsKeys(own, tail, keys);
      HomedTail(own, tail, this);
      var r, count := from.PopTailComment(nodes, front);
      nodes := r;
      assert Vals(rest) == old(Vals(rest)) by {
        assert forall kv :: kv in Items(rest) ==> kv as object != from && kv as object != this;
      }
      assert Vals(r) == old(Vals(r)) by {
        assert forall kv :: kv in Items(r) ==> kv as object != from && kv as object != this;
      }
    }

    /** operator>>: the section's lines, its own title where the header stands. */
    method Write() returns (text: string)
      ensures text == JoinLines(NodeLines(name, Vals(nodes), |nodes|))
    {
      hide EntryLines, JoinLines, Vals;
      text := "";
      var i := 0;
      NoLines(name, Vals(nodes));
      while i < |nodes|
        invariant i <= |nodes|
        invariant text == JoinLines(NodeLines(name, Vals(nodes), i))
      {
        var node := nodes[i];
        ValsAt(nodes, i);
        JoinAppend(NodeLines(name, Vals(nodes), i), EntryLines(name, ValOf(node)));
        EntryText(name, ValOf(node));
        match node {
          case NilLine => text := text + "\n";
          case Comment(t) => text := text + t + "\n";
          case Header =>
            if name != "" {
              text := text + "[" + name + "]" + "\n";
            }
          case Item(kv) => text := text + kv.key + "=" + kv.value + "\n";
        }
        i := i + 1;
      }
    }
  }

  lemma {:induction false} NoLines(name: string, nodes: seq<Entry>)
    ensures JoinLines(NodeLines(name, nodes, 0)) == ""
  {
  }

  lemma {:induction false} NoText()
    ensures JoinLines([]) == ""
  {
  }

  lemma {:induction false} OneLineText(l: string)
    ensures JoinLines([l]) == l + "\n"
  {
    assert [l][..0] == [] && JoinLines([]) == "";
  }

  lemma {:induction false} EntryText(name: string, e: Entry)
    ensures JoinLines(EntryLines(name, e)) ==
            match e
            case NilLine => "\n"
            case Comment(t) => t + "\n"
            case Header => if name == "" then "" else "[" + name + "]" + "\n"
            case Item(p) => p.key + "=" + p.value + "\n"
  {
    hide JoinLines;
    match e
    case NilLine => OneLineText("");
    case Comment(t) => OneLineText(t);
    case Header =>
      if name == "" {
        NoLines(name, []);
      } else {
        OneLineText("[" + name + "]");
      }
    case Item(p) => OneLineText(p.key + "=" + p.value);
  }

  // ------------------------------------------------------------- the file

  /** The linear scan of the sections: the first whose name folds to k. */
  ghost function ScanSect(sections: seq<Section>, k: string): Section? {
    if sections == [] then null
    else if Fold(sections[0].name) == k then sections[0]
    else ScanSect(sections[1..], k)
  }

  lemma {:induction false} ScanSectAppend(a: seq<Section>, b: seq<Section>, k: string)
    ensures ScanSect(a + b, k) == if ScanSect(a, k) != null then ScanSect(a, k) else ScanSect(b, k)
  {
    if a == [] {
      assert a + b == b;
    } else {
      assert (a + b)[1..] == a[1..] + b;
      ScanSectAppend(a[1..], b, k);
    }
  }

  ghost function Kvs(sections: seq<Section>): set<KeyValue>
    reads sections
  {
    set s, kv | s in sections && kv in Items(s.nodes) :: kv
  }

  lemma {:induction false} ScanSectFinds(sections: seq<Section>, file: seq<Sect>, name: string)
    requires |file| == |sections| && forall i :: 0 <= i < |file| ==> file[i].name == sections[i].name
    ensures var i := FindSect(file, name);
            ScanSect(sections, Fold(name)) == if i < |sections| then sections[i] else null
  {
    if sections != [] && Fold(sections[0].name) != Fold(name) {
      ScanSectFinds(sections[1..], file[1..], name);
    }
  }

  ghost predicate NamesAgree(sections: seq<Section>, names: map<string, Section>) {
    forall k :: ScanSect(sections, k) == if k in names then names[k] else null
  }

  ghost predicate NamesUnique(sections: seq<Section>) {
    forall i, j :: 0 <= i < j < |sections| ==>
      sections[i] != sections[j] && Fold(sections[i].name) != Fold(sections[j].name)
  }

  lemma {:induction false} AddName(sections: seq<Section>, names: map<string, Section>, s: Section)
    requires NamesAgree(sections, names) && NamesUnique(sections)
    requires ScanSect(sections, Fold(s.name)) == null
    ensures NamesAgree(sections + [s], names[Fold(s.name) := s]) && NamesUnique(sections + [s])
  {
    forall k ensures ScanSect(sections + [s], k)
                     == if ScanSect(sections, k) != null then ScanSect(sections, k)
                        else if Fold(s.name) == k then s else null
    {
      ScanSectAppend(sections, [s], k);
    }
    ScanSectNull(sections, Fold(s.name));
  }

  lemma {:induction false} ScanSectNull(sections: seq<Section>, k: string)
    requires ScanSect(sections, k) == null
    ensures forall i :: 0 <= i < |sections| ==> Fold(sections[i].name) != k
  {
    if sections != [] {
      ScanSectNull(sections[1..], k);
      assert sections == [sections[0]] + sections[1..];
    }
  }

  /** A section's nodes as a value, with one more node. */
  lemma {:induction false} PushVals(nodes: Nodes, node: Node<KeyValue>)
    ensures Vals(nodes + [node]) == Vals(nodes) + Vals([node])
    ensures |Vals([node])| == 1
    ensures PushNode(Vals(nodes), Vals([node])[0])
            == if node.Item? && Scan(nodes, Fold(node.kv.key)) != null then Vals(nodes)
               else Vals(nodes + [node])
  {
    ValsAppend(nodes, [node]);
    if node.Item? {
      ValsScan(nodes, Fold(node.kv.key));
    }
  }

  lemma {:induction false} SingleVal(node: Node<KeyValue>)
    ensures Vals([node]) == [ValOf(node)]
  {
    assert [node][..0] == [];
  }

  class IniFile {
    var sections: seq<Section>
    var names: map<string, Section>
    /** The value of the sections. */
    ghost var file: seq<Sect>

    /** Both maps find what the scans find, and no name or key occurs twice up to case. */
    ghost predicate Valid()
      reads this, sections, Kvs(sections)
    {
      && NamesAgree(sections, names) && NamesUnique(sections) && |file| == |sections|
      && forall i :: 0 <= i < |sections| ==>
           sections[i].Valid() && file[i] == Sect(sections[i].name, Vals(sections[i].nodes))
    }

    /** The value of the file is that of its sections, which hold different nodes. */
    ghost predicate Filed()
      reads this, sections, Kvs(sections)
    {
      && |file| == |sections|
      && (forall i, j :: 0 <= i < j < |sections| ==> sections[i] != sections[j])
      && forall i :: 0 <= i < |sections| ==>
           Homed(sections[i].nodes, sections[i]) && file[i] == Sect(sections[i].name, Vals(sections[i].nodes))
    }

    constructor ()
      ensures Valid() && file == []
    {
      sections, names, file := [], map[], [];
    }

    /** The map's answer is the scan's. */
    function FindSection(name: string): (s: Section?)
      reads this, sections, Kvs(sections)
      requires Valid()
      ensures s == ScanSect(sections, Fold(name))
      ensures var i := FindSect(file, name); s == if i < |sections| then sections[i] else null
    {
      ScanSectFinds(sections, file, name);
      if Fold(name) in names then names[Fold(name)] else null
    }

    /** push_node on the section at cur. */
    method AddNode(sect: Section, node: Node<KeyValue>, ghost cur: nat)
      requires Valid() && cur < |sections| && sections[cur] == sect && !node.Header?
      requires node.Item? ==> node.kv.home == sect
      modifies `file, sect
      ensures Valid()
      ensures State(file, cur) == Push(State(old(file), cur), old(Vals([node])[0]))
    {
      hide KeysAgree, KeysUnique, NamesAgree, Vals, Scan;
      PushVals(sect.nodes, node);
      var ok := sect.PushNode(node);
      file := file[cur := Sect(sect.name, old(PushNode(Vals(sect.nodes), Vals([node])[0])))];
      forall j | 0 <= j < |sections|
        ensures sections[j].Valid() && file[j] == Sect(sections[j].name, Vals(sections[j].nodes))
      {
        assert j != cur ==> sections[j] != sect;
        assert forall kv :: kv in Items(sections[j].nodes) ==> kv as object != sect as object && kv as object != this;
        if j == cur {
          assert sect.nodes == old(sect.nodes) || sect.nodes == old(sect.nodes) + [node];
          assert Vals(sect.nodes) == old(Vals(sect.nodes)) || Vals(sect.nodes) == old(Vals(sect.nodes + [node]));
        }
      }
    }

    /** operator[] on a key of the section at cur. */
    method IndexKey(sect: Section, key: string, ghost cur: nat) returns (kv: KeyValue)
      requires Filed() && cur < |sections| && sections[cur] == sect && sect.Valid()
      requires Trim(key) != "" && Trim(key)[0] != '='
      modifies `file, sect
      ensures Filed() && file == old(file)[cur := Sect(sect.name, WithKey(old(file)[cur].nodes, Trim(key)))]
      ensures var p := KeyPlace(old(file)[cur].nodes, Fold(Trim(key))); OnlyAt(sect.nodes, p, kv)
      ensures sect.Valid() <==> KeyAgrees(old(file)[cur].nodes, Trim(key))
      ensures kv in old(Items(sect.nodes)) || fresh(kv)
    {
      hide KeysAgree, KeysUnique, Vals, Scan, Homed, Fold;
      ghost var was, nodes, k := Vals(sect.nodes), sect.nodes, Fold(Trim(key));
      ValsKeyPlace(nodes, k);
      kv := sect.Index(key);
      ghost var more := WithKey(was, Trim(key));
      if sect.nodes == nodes {
        KeyIsOnce(nodes, KeyPlace(was, k));
      } else {
        FreshIsOnce(nodes, kv);
      }
      forall j | 0 <= j < |sections| ensures Vals(sections[j].nodes) == if j == cur then more else file[j].nodes {
        assert j != cur ==> sections[j] != sect;
        assert forall kv :: kv in Items(old(sections[j].nodes)) ==>
            old(allocated(kv)) && kv as object != sect && kv as object != this;
        assert Vals(old(sections[j].nodes)) == old(Vals(sections[j].nodes));
        if j == cur && sect.nodes != nodes {
          ValsAppend(nodes, [Item(kv)]);
          SingleVal(Item(kv));
        }
      }
      file := file[cur := Sect(sect.name, more)];
      forall j | 0 <= j < |sections|
        ensures Homed(sections[j].nodes, sections[j]) && file[j] == Sect(sections[j].name, Vals(sections[j].nodes))
      {
        assert j != cur ==> sections[j] != sect;
        assert forall kv :: kv in Items(sections[j].nodes) ==> kv as object != this;
      }
    }

    /** Appends a section whose name no other section has. */
    method AddSection(sect: Section)
      requires Valid() && sect.Valid() && ScanSect(sections, Fold(sect.name)) == null
      modifies this
      ensures Valid() && sections == old(sections) + [sect]
      ensures file == old(file) + [old(Sect(sect.name, Vals(sect.nodes)))]
    {
      hide KeysAgree, KeysUnique, Vals, Scan;
      AddName(sections, names, sect);
      file := file + [Sect(sect.name, Vals(sect.nodes))];
      sections := sections + [sect];
      names := names[Fold(sect.name) := sect];
      forall j | 0 <= j < |sections|
        ensures sections[j].Valid() && file[j] == Sect(sections[j].name, Vals(sections[j].nodes))
      {
        assert forall kv :: kv in Items(sections[j].nodes) ==> kv as object != this;
      }
    }

    /** pop_tail_comment from one section into another. */
    method MoveTail(from: Section, to: Section, front: bool, ghost i: nat, ghost j: nat)
      requires Valid() && i < |sections| && j < |sections| && i != j
      requires sections[i] == from && sections[j] == to
      modifies `file, from, to
      ensures Valid()
      ensures var (a, b) := (old(file)[i], old(file)[j]);
              var tail := a.nodes[TailAt(a.nodes)..];
              file == old(file)[i := Sect(a.name, a.nodes[..TailAt(a.nodes)])]
                               [j := Sect(b.name, if front then tail + b.nodes else b.nodes + tail)]
    {
      hide NamesAgree, Vals, Section.Valid, TailAt;
      ghost var (a, b) := (file[i], file[j]);
      ghost var tail := a.nodes[TailAt(a.nodes)..];
      assert from != to;
      to.TakeTail(from, front);
      file := file[i := Sect(a.name, a.nodes[..TailAt(a.nodes)])]
                  [j := Sect(b.name, if front then tail + b.nodes else b.nodes + tail)];
      forall k | 0 <= k < |sections|
        ensures sections[k].Valid() && file[k] == Sect(sections[k].name, Vals(sections[k].nodes))
      {
        assert k != i && k != j ==> sections[k] != from && sections[k] != to;
        assert forall kv :: kv in Items(sections[k].nodes) ==>
            kv as object != from && kv as object != to && kv as object != this;
      }
    }

    /** Ends a section by a blank line unless it has one. */
    method EndByNilLine(sect: Section, ghost cur: nat)
      requires Valid() && cur < |sections| && sections[cur] == sect
      modifies `file, sect
      ensures Valid()
      ensures var s := old(file)[cur]; file == old(file)[cur := Sect(s.name, WithNil(s.nodes))]
    {
      hide KeysAgree, KeysUnique, NamesAgree, Vals, Scan, Value;
      ValsTailAt(sect.nodes);
      SingleVal(NilLine);
      if !sect.HasEndNilLine() {
        AddNode(sect, NilLine, cur);
      }
    }

    /** The comments at the end of a section go to one that is there already, between blank lines. */
    method Merge(from: Section, to: Section, ghost i: nat, ghost j: nat)
      requires Valid() && i < |sections| && j < |sections| && i != j
      requires sections[i] == from && sections[j] == to
      modifies `file, from, to
      ensures Valid()
      ensures var (a, b) := (old(file)[i], old(file)[j]);
              var tail := a.nodes[TailAt(a.nodes)..];
              file == old(file)[i := Sect(a.name, a.nodes[..TailAt(a.nodes)])]
                               [j := Sect(b.name, WithNil(WithNil(b.nodes) + tail))]
    {
      hide Section.Valid, NamesAgree, Vals, Items, WithNil, TailAt;
      EndByNilLine(to, j);
      MoveTail(from, to, false, i, j);
      EndByNilLine(to, j);
    }

    /** push_sect: makes the titled section current, a new one or the one that has its name. */
    method EnterSection(fresh0: Section, sect: Section, ghost cur: nat) returns (r: Section, ghost i: nat)
      requires Valid() && cur < |sections| && sections[cur] == sect
      requires fresh0.Valid() && fresh0 !in sections && fresh0.nodes == [Header]
      modifies this, sections, fresh0
      ensures Valid() && i < |sections| && sections[i] == r
      ensures sections == old(sections) || sections == old(sections) + [fresh0]
      ensures State(file, i) == PushSect(State(old(file), cur), fresh0.name)
    {
      hide Section.Valid, NamesAgree, Vals, Items, WithNil, TailAt;
      FindSectSpec(file, fresh0.name);
      SingleVal(Header);
      ghost var spec := PushSect(State(file, cur), fresh0.name).sects;
      var found := FindSection(fresh0.name);
      if found == null {
        i := |sections|;
        AddSection(fresh0);
        assert file == old(file) + [Sect(fresh0.name, [Header])];
        MoveTail(sect, fresh0, true, cur, i);
        r := fresh0;
        assert file == spec;
      } else if found != sect {
        i := FindSect(file, fresh0.name);
        Merge(sect, found, cur, i);
        r := found;
        assert file == spec;
      } else {
        r, i := sect, cur;
      }
    }

    /** Where reading begins: in the last section, or in a new one without a name. */
    method BeginReading() returns (sect: Section, ghost cur: nat)
      requires Valid()
      modifies this, sections
      ensures Valid() && cur < |sections| && sections[cur] == sect && State(file, cur) == Begin(old(file))
      ensures forall k :: 0 <= k < |sections| ==> sections[k] in old(sections) || fresh(sections[k])
    {
      hide KeysAgree, KeysUnique, NamesAgree, Vals, Scan;
      if sections == [] {
        sect := new Section.Root();
        cur := 0;
        NoVals();
        AddSection(sect);
        assert file == Begin([]).sects;
      } else {
        sect, cur := sections[|sections| - 1], |sections| - 1;
        EndByNilLine(sect, cur);
      }
    }

    /** operator<<: reads a text behind what the file holds. */
    method ReadText(text: string)
      requires Valid()
      modifies this, sections
      ensures Valid()
      ensures file == Read(Begin(old(file)), InputLines(text), |InputLines(text)|).sects
    {
      hide KeysAgree, KeysUnique, NamesAgree, Vals, Scan, Step, InputLines, Begin;
      ghost var begin := Begin(file);
      var sect: Section;
      ghost var cur: nat;
      sect, cur := BeginReading();
      var segs := Segments(text);
      ghost var lines := InputLines(text);
      InputLineAt(text, 0);
      var i := 0;
      while i < |segs|
        invariant i <= |lines| <= |segs| && i <= |segs|
        invariant i == |segs| ==> |lines| == |segs|
        invariant Valid() && cur < |sections| && sections[cur] == sect
        invariant forall k :: 0 <= k < |sections| ==> sections[k] in old(sections) || fresh(sections[k])
        invariant State(file, cur) == Read(begin, lines, i)
      {
        var line := Trim(segs[i]);
        InputLineAt(text, i);
        if i == |segs| - 1 && line == "" {
          break;
        }
        ReadNext(begin, lines, i);
        sect, cur := ReadLine(line, sect, cur);
        i := i + 1;
      }
    }

    /** The reader's loop body: makes the node of one line and puts it in its place. */
    method ReadLine(line: string, sect: Section, ghost cur: nat) returns (r: Section, ghost i: nat)
      requires Valid() && cur < |sections| && sections[cur] == sect
      modifies this, sections
      ensures Valid() && i < |sections| && sections[i] == r
      ensures forall k :: 0 <= k < |sections| ==> sections[k] in old(sections) || fresh(sections[k])
      ensures State(file, i) == Step(State(old(file), cur), line)
    {
      hide KeysAgree, KeysUnique, NamesAgree, Vals, Scan, PushSect, Classify;
      r, i := sect, cur;
      var made := Classify(line);
      if made.Title? {
        var titled := new Section.Titled(made.name);
        forall j | 0 <= j < |sections| ensures Vals(sections[j].nodes) == old(Vals(sections[j].nodes)) {
          assert forall kv :: kv in Items(sections[j].nodes) ==> old(allocated(kv));
        }
        r, i := EnterSection(titled, sect, cur);
      } else if !made.Junk? {
        var node := NilLine;
        if made.Note? {
          node := Comment(made.text);
        } else if made.Setting? {
          var kv := new KeyValue(made.pair.key, made.pair.value, sect);
          node := Item(kv);
        }
        forall j | 0 <= j < |sections| ensures Vals(sections[j].nodes) == old(Vals(sections[j].nodes)) {
          assert forall kv :: kv in Items(sections[j].nodes) ==> old(allocated(kv));
        }
        SingleVal(node);
        AddNode(sect, node, cur);
      }
    }

    /** operator>>: the sections in order, a blank line after those that need one. */
    method Dump() returns (text: string)
      requires Valid()
      ensures text == Print(file)
    {
      hide JoinLines, NodeLines, PrintLines, Vals, Section.Valid, NamesAgree;
      text := "";
      var i := 0;
      NothingPrinted(file);
      while i < |sections|
        invariant i <= |sections| && Valid()
        invariant forall j :: 0 <= j < |sections| ==> Vals(sections[j].nodes) == old(Vals(sections[j].nodes))
        invariant text == JoinLines(PrintLines(file, i))
      {
        var s := sections[i];
        ValsTailAt(s.nodes);
        NextPrinted(file, i);
        if s.nodes != [] {
          var own := s.Write();
          text := text + own;
          forall j | 0 <= j < |sections| ensures Vals(sections[j].nodes) == old(Vals(sections[j].nodes)) {
            assert forall kv :: kv in Items(sections[j].nodes) ==> old(allocated(kv));
          }
          if !s.HasEndNilLine() && i != |sections| - 1 {
            text := text + "\n";
          }
        }
        i := i + 1;
      }
    }

    /** operator[] on a section name: the section that the map has, or the one that is made of
        the name and filed by it.  Map and list still agree unless there was none and the name
        loses its own brackets. */
    method Index(section: string) returns (s: Section)
      requires Valid() && '\n' !in section
      modifies this
      ensures Filed() && file == WithSect(old(file), NameOf(section)) && s.Valid()
      ensures var i := FindSect(old(file), NameOf(section)); i < |sections| && s == sections[i]
      ensures s in old(sections) || fresh(s)
      ensures forall j :: 0 <= j < |sections| ==> sections[j] in old(sections) || fresh(sections[j])
      ensures s in old(sections) ==> s.nodes == old(s.nodes)
      ensures fresh(s) ==> s.nodes == [Header]
      ensures Valid() <==> NameAgrees(old(file), NameOf(section))
    {
      hide KeysAgree, KeysUnique, NamesAgree, Vals, Scan, TitleName, Homed, Fold;
      var name := TitleName(Trim(section));
      var found := FindSection(name);
      if found != null {
        return found;
      }
      s := new Section.Titled(TitleName("[" + name + "]"));
      forall j | 0 <= j < |sections| ensures Vals(sections[j].nodes) == old(Vals(sections[j].nodes)) {
        assert forall kv :: kv in Items(sections[j].nodes) ==> old(allocated(kv));
      }
      SingleVal(Header);
      NameIsLine(section);
      FiledName(sections, names, s, name);
      file := file + [MadeSect(name)];
      sections := sections + [s];
      names := names[Fold(name) := s];
      forall j | 0 <= j < |sections|
        ensures sections[j].Valid() && file[j] == Sect(sections[j].name, Vals(sections[j].nodes))
      {
        assert forall kv :: kv in Items(sections[j].nodes) ==> kv as object != this;
      }
    }

    /** The two index operators one after the other, as a setting is reached by its names. */
    method At(section: string, key: string) returns (kv: KeyValue, ghost i: nat, ghost p: nat)
      requires Valid() && '\n' !in section && Trim(key) != "" && Trim(key)[0] != '='
      modifies this, sections
      ensures Filed() && file == Indexed(old(file), NameOf(section), Trim(key))
      ensures i == FindSect(old(file), NameOf(section)) && i < |sections|
      ensures p == KeyPlace(WithSect(old(file), NameOf(section))[i].nodes, Fold(Trim(key)))
      ensures OnlyAt(sections[i].nodes, p, kv) && (kv in old(Kvs(sections)) || fresh(kv))
      ensures forall j :: 0 <= j < |sections| ==> sections[j] in old(sections) || fresh(sections[j])
      ensures Valid() <==> NameAgrees(old(file), NameOf(section))
                           && KeyAgrees(WithSect(old(file), NameOf(section))[i].nodes, Trim(key))
    {
      hide KeysAgree, KeysUnique, NamesAgree, Vals, Scan, NameOf, Homed, Fold, NameAgrees, KeyAgrees;
      var s := Index(section);
      i := FindSect(old(file), NameOf(section));
      p := KeyPlace(file[i].nodes, Fold(Trim(key)));
      assert Items(s.nodes) <= old(Kvs(sections));
      kv := IndexKey(s, key, i);
    }

    /** set_value on a node of the file. */
    method SetNode(kv: KeyValue, value: string, ghost i: nat, ghost p: nat)
      requires Filed() && i < |sections| && OnlyAt(sections[i].nodes, p, kv)
      modifies `file, kv
      ensures Filed() && Valid() == old(Valid())
      ensures p < |old(file)[i].nodes| && old(file)[i].nodes[p].Item?
      ensures file == old(file)[i := Sect(old(file)[i].name, Revalued(old(file)[i].nodes, p, OneValue(value)))]
    {
      hide KeysAgree, KeysUnique, NamesAgree, NamesUnique, Vals, Fold;
      ghost var nodes := sections[i].nodes;
      assert kv.home == sections[i] by { InItems(nodes, p); }
      ValsAll(nodes);
      ghost var changed := Revalued(file[i].nodes, p, OneValue(value));
      kv.SetValue(value);
      file := file[i := Sect(file[i].name, changed)];
      forall j | 0 <= j < |sections|
        ensures Homed(sections[j].nodes, sections[j]) && file[j] == Sect(sections[j].name, Vals(sections[j].nodes))
      {
        if j == i {
          ValsAll(nodes);
          assert Vals(nodes) == changed;
        } else {
          assert forall other :: other in Items(sections[j].nodes) ==> other != kv;
        }
      }
    }

    /** An assignment to a setting that is reached by its names. */
    method Set(section: string, key: string, value: string)
      requires Valid() && '\n' !in section && Trim(key) != "" && Trim(key)[0] != '='
      modifies this, sections, Kvs(sections)
      ensures Filed() && file == Assigned(old(file), NameOf(section), Trim(key), value)
      ensures Valid() <==> var more := WithSect(old(file), NameOf(section));
                           NameAgrees(old(file), NameOf(section))
                           && KeyAgrees(more[FindSect(old(file), NameOf(section))].nodes, Trim(key))
    {
      hide KeysAgree, KeysUnique, NamesAgree, Vals, Scan, NameOf, Fold, NameAgrees, KeyAgrees, WithSect, OnlyAt, Filed;
      var kv;
      ghost var i, p;
      kv, i, p := At(section, key);
      SetNode(kv, value, i, p);
    }
  }

  lemma {:induction false} NothingPrinted(file: seq<Sect>)
    ensures JoinLines(PrintLines(file, 0)) == ""
  {
    NoText();
  }

  lemma {:induction false} NextPrinted(file: seq<Sect>, i: nat)
    requires i < |file|
    ensures var (s, last) := (file[i], i + 1 == |file|);
            JoinLines(PrintLines(file, i + 1)) ==
              if s.nodes == [] then JoinLines(PrintLines(file, i))
              else JoinLines(PrintLines(file, i)) + JoinLines(NodeLines(s.name, s.nodes, |s.nodes|))
                   + if EndsNil(s.nodes) || last then "" else "\n"
  {
    hide JoinLines, NodeLines;
    var (s, last) := (file[i], i + 1 == |file|);
    JoinAppend(PrintLines(file, i), SectLines(s, last));
    SectText(s, last);
    Reassoc(JoinLines(PrintLines(file, i)), JoinLines(NodeLines(s.name, s.nodes, |s.nodes|)),
            if EndsNil(s.nodes) || last then "" else "\n");
  }

  lemma {:induction false} SectText(s: Sect, last: bool)
    ensures JoinLines(SectLines(s, last))
            == JoinLines(NodeLines(s.name, s.nodes, |s.nodes|))
               + if s.nodes == [] || EndsNil(s.nodes) || last then "" else "\n"
    ensures s.nodes == [] ==> JoinLines(NodeLines(s.name, s.nodes, |s.nodes|)) == ""
  {
    hide NodeLines;
    OneLineText("");
    JoinAppend(NodeLines(s.name, s.nodes, |s.nodes|),
               if s.nodes == [] || EndsNil(s.nodes) || last then [] else [""]);
    NoLines(s.name, s.nodes);
  }

  lemma {:induction false} InItems(nodes: Nodes, p: nat)
    requires p < |nodes| && nodes[p].Item?
    ensures nodes[p].kv in Items(nodes)
  {
  }

  lemma {:induction false} ValsAll(nodes: Nodes)
    ensures forall q :: 0 <= q < |nodes| ==> Vals(nodes)[q] == ValOf(nodes[q])
  {
    forall q | 0 <= q < |nodes| ensures Vals(nodes)[q] == ValOf(nodes[q]) {
      ValsAt(nodes, q);
    }
  }

  lemma {:induction false} FreshIsOnce(nodes: Nodes, kv: KeyValue)
    requires forall q :: 0 <= q < |nodes| && nodes[q].Item? ==> nodes[q].kv != kv
    ensures OnlyAt(nodes + [Item(kv)], |nodes|, kv)
  {
  }

  lemma {:induction false} NameIsLine(section: string)
    requires '\n' !in section
    ensures NameOf(section) == "" || GoodName(NameOf(section))
  {
    TrimIsOneLine(section);
    TitleIsGood(Trim(section));
  }

  /** A new section filed under a name is what the scan finds for it just when the name stays. */
  lemma {:induction false} FiledName(sections: seq<Section>, names: map<string, Section>, s: Section, name: string)
    requires NamesAgree(sections, names) && NamesUnique(sections) && ScanSect(sections, Fold(name)) == null
    requires s !in sections && (name == "" || GoodName(name)) && s.name == MadeSect(name).name
    ensures NamesAgree(sections + [s], names[Fold(name) := s]) && NamesUnique(sections + [s]) <==> Stays(name)
  {
    hide ScanSect, Fold, MadeSect;
    MadeSectFolds(name);
    if Stays(name) {
      AddName(sections, names, s);
    } else {
      ScanSectAppend(sections, [s], Fold(name));
      ScanSectOne(s, Fold(name));
    }
  }

  lemma {:induction false} ScanSectOne(s: Section, k: string)
    ensures ScanSect([s], k) == if Fold(s.name) == k then s else null
  {
  }

  /** What the two maps find together is the value that a lookup in the file gives. */
  lemma {:induction false} FoundIsLookedUp(f: IniFile, section: string, key: string)
    requires f.Valid()
    ensures var s := f.FindSection(section);
            Lookup(f.file, Fold(section), Fold(key)) ==
              if s == null || s.FindKnode(key) == null then None else Some(s.FindKnode(key).value)
  {
    hide NamesAgree, KeysAgree, KeysUnique, Vals, Scan, Value;
    var i := FindSect(f.file, section);
    FindSectSpec(f.file, section);
    if i < |f.file| {
      assert DistinctNames(f.file);
      LookupAt(f.file, i, Fold(section), Fold(key));
      ValsScan(f.sections[i].nodes, Fold(key));
    } else {
      LookupNone(f.file, Fold(section), Fold(key));
    }
  }

  lemma {:induction false} NoVals()
    ensures Vals([]) == []
  {
  }

  lemma {:induction false} InputLineAt(text: string, i: nat)
    requires i < |Segments(text)|
    ensures var segs, lines := Segments(text), InputLines(text);
            && |segs| - 1 <= |lines| <= |segs|
            && if i == |segs| - 1 && Trim(segs[i]) == "" then |lines| == i
               else i < |lines| && lines[i] == Trim(segs[i])
  {
  }

  lemma {:induction false} ReadNext(st: State, lines: seq<string>, i: nat)
    requires i < |lines|
    ensures Read(st, lines, i + 1) == Step(Read(st, lines, i), lines[i])
  {
  }
}


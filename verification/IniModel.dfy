/**
  The value of an INI file: sections of nodes, how one more input line changes them, and
  the lines they print.  The classes of IniFile.dfy are proved to compute these functions.
 */
module IniModel {
  import opened IniText
  import opened Wrappers

  datatype Pair = Pair(key: string, value: string)

  /** A node of a section; Header marks where the section's own title line stands. */
  datatype Node<+K> = NilLine | Comment(text: string) | Header | Item(kv: K)

  type Entry = Node<Pair>

  datatype Sect = Sect(name: string, nodes: seq<Entry>)

  datatype Place = State(sects: seq<Sect>, cur: nat)

  /** The sections, and the one among them that the reader is filling. */
  type State = st: Place | st.cur < |st.sects| witness State([Sect("", [])], 0)

  // ------------------------------------------------------------- one line to one node

  datatype Line = Blank | Note(text: string) | Title(name: string) | Setting(pair: Pair) | Junk

  /** The first '=' of a line, or its length. */
  function EqualAt(s: string): (n: nat)
    ensures n <= |s|
  {
    if s == [] || s[0] == '=' then 0 else EqualAt(s[1..]) + 1
  }

  lemma {:induction false} EqualAtSpec(s: string)
    ensures var n := EqualAt(s); '=' !in s[..n] && (n < |s| ==> s[n] == '=')
  {
    if s != [] && s[0] != '=' {
      EqualAtSpec(s[1..]);
      var n := EqualAt(s[1..]);
      assert s[..n + 1] == [s[0]] + s[1..][..n];
    }
  }

  function TitleName(s: string): string {
    Trim(LTrim(RTrim(s, "]"), "["))
  }

  /** make_node: the four try_create functions in turn, on a trimmed line. */
  function Classify(s: string): Line {
    if s == [] then Blank
    else if s[0] == ';' || s[0] == '#' then Note(s)
    else if s[0] == '[' && s[|s| - 1] == ']' then Title(TitleName(s))
    else if EqualAt(s) == 0 || EqualAt(s) == |s| then Junk
    else Setting(Pair(Trim(s[..EqualAt(s)]), Trim(s[EqualAt(s) + 1..])))
  }

  // ------------------------------------------------------------- linear scans

  /** The position of the first section whose name ties with name, or |sects|. */
  function FindSect(sects: seq<Sect>, name: string): (i: nat)
    ensures i <= |sects|
  {
    if sects == [] || Fold(sects[0].name) == Fold(name) then 0
    else FindSect(sects[1..], name) + 1
  }

  /** No section among these has a name that ties with name. */
  predicate NewName(sects: seq<Sect>, name: string) {
    forall i :: 0 <= i < |sects| ==> Fold(sects[i].name) != Fold(name)
  }

  lemma {:induction false} FindSectSpec(sects: seq<Sect>, name: string)
    ensures var i := FindSect(sects, name);
            && NewName(sects[..i], name)
            && (i < |sects| ==> Fold(sects[i].name) == Fold(name))
            && (i == |sects| <==> NewName(sects, name))
  {
    if sects != [] && Fold(sects[0].name) != Fold(name) {
      FindSectSpec(sects[1..], name);
      var i := FindSect(sects[1..], name);
      assert sects[..i + 1] == [sects[0]] + sects[1..][..i];
      assert sects == [sects[0]] + sects[1..];
    }
  }

  /** The value of the first setting whose key folds to k. */
  function Value(nodes: seq<Entry>, k: string): Option<string> {
    if nodes == [] then None
    else if nodes[0].Item? && Fold(nodes[0].kv.key) == k then Some(nodes[0].kv.value)
    else Value(nodes[1..], k)
  }

  /** The value stored under a section and a key, both given folded. */
  function Lookup(sects: seq<Sect>, s: string, k: string): Option<string> {
    if sects == [] then None
    else if Fold(sects[0].name) == s then Value(sects[0].nodes, k)
    else Lookup(sects[1..], s, k)
  }

  // ------------------------------------------------------------- node lists

  predicate EndsNil<K>(nodes: seq<Node<K>>) {
    nodes != [] && nodes[|nodes| - 1].NilLine?
  }

  function WithNil<K>(nodes: seq<Node<K>>): seq<Node<K>> {
    if EndsNil(nodes) then nodes else nodes + [NilLine]
  }

  /** Where the comments that end just before n begin. */
  function CommentsFrom<K>(nodes: seq<Node<K>>, n: nat): (m: nat)
    requires n <= |nodes|
    ensures m <= n
  {
    if n > 0 && nodes[n - 1].Comment? then CommentsFrom(nodes, n - 1) else n
  }

  lemma {:induction false} CommentsSpec<K>(nodes: seq<Node<K>>, n: nat)
    requires n <= |nodes|
    ensures var m := CommentsFrom(nodes, n);
            && (forall i :: m <= i < n ==> nodes[i].Comment?)
            && (m > 0 ==> !nodes[m - 1].Comment?)
  {
    if n > 0 && nodes[n - 1].Comment? {
      CommentsSpec(nodes, n - 1);
    }
  }

  /** Where the trailing comments that belong to the next section begin: at most one final
      blank line, the comments before it, and only if a blank line or nothing precedes. */
  function TailAt<K>(nodes: seq<Node<K>>): (m: nat)
    ensures m <= |nodes|
  {
    var m := CommentsFrom(nodes, |nodes| - if EndsNil(nodes) then 1 else 0);
    if m == 0 || nodes[m - 1].NilLine? then m else |nodes|
  }

  /** What may stand before a section's own line: comments and at most one final blank line. */
  predicate Lead<K>(nodes: seq<Node<K>>) {
    forall i :: 0 <= i < |nodes| ==> nodes[i].Comment? || (i == |nodes| - 1 && nodes[i].NilLine?)
  }

  lemma {:induction false} TailSpec<K>(nodes: seq<Node<K>>)
    ensures Lead(nodes[TailAt(nodes)..])
  {
    CommentsSpec(nodes, |nodes| - if EndsNil(nodes) then 1 else 0);
  }

  /** A place from which comments and a final blank line run to the end, behind a blank line or nothing. */
  predicate IsTail<K>(nodes: seq<Node<K>>, p: nat)
    requires p <= |nodes|
  {
    Lead(nodes[p..]) && (p == 0 || nodes[p - 1].NilLine?)
  }

  /** If any such tail is not empty, it is the one taken, and otherwise nothing is. */
  lemma {:induction false} TailExactly<K>(nodes: seq<Node<K>>)
    ensures var m := TailAt(nodes);
            && (m < |nodes| ==> IsTail(nodes, m))
            && forall p :: 0 <= p < |nodes| && IsTail(nodes, p) ==> p == m
  {
    TailSpec(nodes);
    TailBehindBlank(nodes);
    hide TailAt, IsTail;
    forall p | 0 <= p < |nodes| && IsTail(nodes, p) ensures p == TailAt(nodes) {
      OnlyTail(nodes, p);
    }
  }

  lemma {:induction false} TailBehindBlank<K>(nodes: seq<Node<K>>)
    ensures var m := TailAt(nodes); m < |nodes| && Lead(nodes[m..]) ==> IsTail(nodes, m)
  {
    hide Lead;
  }

  lemma {:induction false} OnlyTail<K>(nodes: seq<Node<K>>, p: nat)
    requires p < |nodes| && IsTail(nodes, p)
    ensures TailAt(nodes) == p
  {
    var n := |nodes| - if EndsNil(nodes) then 1 else 0;
    forall i | p <= i < n ensures nodes[i].Comment? {
      assert nodes[i] == nodes[p..][i - p];
    }
    CommentsReach(nodes, n, p);
  }

  lemma {:induction false} CommentsReach<K>(nodes: seq<Node<K>>, n: nat, p: nat)
    requires p <= n <= |nodes| && forall i :: p <= i < n ==> nodes[i].Comment?
    requires p == 0 || !nodes[p - 1].Comment?
    ensures CommentsFrom(nodes, n) == p
  {
    if p < n {
      CommentsReach(nodes, n - 1, p);
    }
  }

  function PushNode(nodes: seq<Entry>, e: Entry): seq<Entry> {
    if e.Item? && Value(nodes, Fold(e.kv.key)).Some? then nodes else nodes + [e]
  }

  // ------------------------------------------------------------- the reader

  /** What a new reading starts from: a fresh root section, or the last one, ended by a blank line. */
  function Begin(sects: seq<Sect>): State {
    if sects == [] then State([Sect("", [])], 0)
    else
      var n := |sects| - 1;
      State(sects[n := Sect(sects[n].name, WithNil(sects[n].nodes))], n)
  }

  function PushSect(st: State, name: string): State {
    var (sects, cur) := (st.sects, st.cur);
    var nodes := sects[cur].nodes;
    var m := TailAt(nodes);
    var f := FindSect(sects, name);
    if f == cur then st
    else
      var cut := sects[cur := Sect(sects[cur].name, nodes[..m])];
      if f == |sects| then
        State(cut + [Sect(name, nodes[m..] + [Header])], f)
      else
        State(cut[f := Sect(cut[f].name, WithNil(WithNil(cut[f].nodes) + nodes[m..]))], f)
  }

  function Push(st: State, e: Entry): State {
    var s := st.sects[st.cur];
    st.(sects := st.sects[st.cur := Sect(s.name, PushNode(s.nodes, e))])
  }

  /** The reader's loop body, on a trimmed line. */
  function Step(st: State, line: string): State {
    match Classify(line)
    case Blank => Push(st, NilLine)
    case Note(t) => Push(st, Comment(t))
    case Title(n) => PushSect(st, n)
    case Setting(p) => Push(st, Item(p))
    case Junk => st
  }

  /** What n applications of f make of s. */
  function Iterate<S, L>(f: (S, L) -> S, s: S, lines: seq<L>, n: nat): S
    requires n <= |lines|
  {
    if n == 0 then s else f(Iterate(f, s, lines, n - 1), lines[n - 1])
  }

  /** The state after the first n lines. */
  function Read(st: State, lines: seq<string>, n: nat): State
    requires n <= |lines|
  {
    Iterate(Step, st, lines, n)
  }

  function Parse(text: string): seq<Sect> {
    var lines := InputLines(text);
    Read(Begin([]), lines, |lines|).sects
  }

  // ------------------------------------------------------------- the writer

  function EntryLines(name: string, e: Entry): seq<string> {
    match e
    case NilLine => [""]
    case Comment(t) => [t]
    case Header => if name == "" then [] else ["[" + name + "]"]
    case Item(p) => [p.key + "=" + p.value]
  }

  /** The lines of the first n nodes. */
  function NodeLines(name: string, nodes: seq<Entry>, n: nat): seq<string>
    requires n <= |nodes|
  {
    if n == 0 then [] else NodeLines(name, nodes, n - 1) + EntryLines(name, nodes[n - 1])
  }

  /** A section, and a blank line after it unless it has one or is the last. */
  function SectLines(s: Sect, last: bool): seq<string> {
    NodeLines(s.name, s.nodes, |s.nodes|)
    + if s.nodes == [] || EndsNil(s.nodes) || last then [] else [""]
  }

  /** The lines of the first n sections. */
  function PrintLines(sects: seq<Sect>, n: nat): seq<string>
    requires n <= |sects|
  {
    if n == 0 then []
    else PrintLines(sects, n - 1) + SectLines(sects[n - 1], n == |sects|)
  }

  function Print(sects: seq<Sect>): string {
    JoinLines(PrintLines(sects, |sects|))
  }

  // ------------------------------------------------------------- what a text says

  /** The section, folded, that line n belongs to. */
  function CurrentSect(lines: seq<string>, n: nat): string
    requires n <= |lines|
  {
    if n == 0 then ""
    else match Classify(lines[n - 1])
      case Title(name) => Fold(name)
      case _ => CurrentSect(lines, n - 1)
  }

  /** The value that the first of the n lines that sets key k under section s gives it. */
  function FirstSetting(lines: seq<string>, n: nat, s: string, k: string): Option<string>
    requires n <= |lines|
  {
    if n == 0 then None
    else
      var l := Classify(lines[n - 1]);
      if FirstSetting(lines, n - 1, s, k).Some? then FirstSetting(lines, n - 1, s, k)
      else if l.Setting? && CurrentSect(lines, n - 1) == s && Fold(l.pair.key) == k then Some(l.pair.value)
      else None
  }
}

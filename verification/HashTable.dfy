/**
  The chained hash table of zlog: an array of doubly linked buckets that doubles when it
  fills, proved to be a finite map whatever is put, removed, cleaned or rehashed.
 */
module HashTable {
  import opened Wrappers

  class Entry<K, V> {
    var hashKey: nat
    var key: K
    var value: V
    var prev: Entry?<K, V>
    var next: Entry?<K, V>

    constructor (hashKey: nat, key: K, value: V)
      ensures this.hashKey == hashKey && this.key == key && this.value == value
      ensures prev == null && next == null
    {
      this.hashKey, this.key, this.value := hashKey, key, value;
      prev, next := null, null;
    }
  }

  type Chain<K, V> = seq<Entry<K, V>>

  /** All entries of some buckets. */
  ghost function Members<K, V>(chains: seq<Chain<K, V>>): set<Entry<K, V>> {
    set i, j | 0 <= i < |chains| && 0 <= j < |chains[i]| :: chains[i][j]
  }

  /** The entry at j, or null past either end. */
  ghost function At<K, V>(chain: Chain<K, V>, j: int): Entry?<K, V> {
    if 0 <= j < |chain| then chain[j] else null
  }

  /** Following next from head visits the chain from k on, in order, and stops. */
  ghost predicate NextLinked<K, V>(head: Entry?<K, V>, chain: Chain<K, V>, k: nat)
    reads chain
  {
    && k <= |chain|
    && head == At(chain, k)
    && forall j {:trigger chain[j].next} :: k <= j < |chain| ==> chain[j].next == At(chain, j + 1)
  }

  ghost predicate PrevLinked<K, V>(chain: Chain<K, V>)
    reads chain
  {
    forall j {:trigger chain[j].prev} :: 0 <= j < |chain| ==> chain[j].prev == At(chain, j - 1)
  }

  /** No entry stands in two places. */
  ghost predicate Apart<K, V>(chains: seq<Chain<K, V>>) {
    forall i, j, m, n :: 0 <= i < |chains| && 0 <= j < |chains[i]| && 0 <= m < |chains| && 0 <= n < |chains[m]| ==>
      chains[i][j] == chains[m][n] ==> i == m && j == n
  }

  /** The array heads exactly these chains, linked both ways. */
  ghost predicate Buckets<K, V>(tab: array<Entry?<K, V>>, chains: seq<Chain<K, V>>)
    reads tab, Members(chains)
  {
    && |chains| == tab.Length && Apart(chains)
    && forall i :: 0 <= i < |chains| ==>
         assert forall e :: e in chains[i] ==> e in Members(chains);
         NextLinked(tab[i], chains[i], 0) && PrevLinked(chains[i])
  }

  lemma {:induction false} MembersPush<K, V>(chains: seq<Chain<K, V>>, b: nat, p: Entry<K, V>)
    requires b < |chains|
    ensures Members(chains[b := [p] + chains[b]]) == Members(chains) + {p}
  {
    var after := chains[b := [p] + chains[b]];
    forall e | e in Members(chains) ensures e in Members(after) {
      var i, j :| 0 <= i < |chains| && 0 <= j < |chains[i]| && chains[i][j] == e;
      assert after[i][if i == b then j + 1 else j] == e;
    }
    assert after[b][0] == p;
  }

  lemma {:induction false} ApartPush<K, V>(chains: seq<Chain<K, V>>, b: nat, p: Entry<K, V>)
    requires b < |chains| && Apart(chains) && p !in Members(chains)
    ensures Apart(chains[b := [p] + chains[b]])
  {
    var after := chains[b := [p] + chains[b]];
    forall i, j, m, n | 0 <= i < |after| && 0 <= j < |after[i]| && 0 <= m < |after| && 0 <= n < |after[m]|
      && after[i][j] == after[m][n]
      ensures i == m && j == n
    {
      var j0 := if i == b then j - 1 else j;
      var n0 := if m == b then n - 1 else n;
      assert j0 >= 0 ==> chains[i][j0] == after[i][j] && chains[i][j0] in Members(chains);
      assert n0 >= 0 ==> chains[m][n0] == after[m][n] && chains[m][n0] in Members(chains);
    }
  }

  lemma {:induction false} ApartAt<K, V>(chains: seq<Chain<K, V>>, b: nat, c: nat)
    requires b < |chains| && c < |chains[b]| && Apart(chains)
    ensures forall i, j :: 0 <= i < |chains| && 0 <= j < |chains[i]| && (i != b || j != c) ==>
              chains[i][j] != chains[b][c]
  {
  }

  lemma {:induction false} InMembers<K, V>(chains: seq<Chain<K, V>>)
    ensures forall i, j :: 0 <= i < |chains| && 0 <= j < |chains[i]| ==> chains[i][j] in Members(chains)
  {
  }

  /** Puts an entry at the front of a bucket, as put and rehash both do. */
  method LinkFront<K, V>(tab: array<Entry?<K, V>>, b: nat, p: Entry<K, V>, ghost chains: seq<Chain<K, V>>)
    requires b < tab.Length && Buckets(tab, chains) && p !in Members(chains)
    modifies tab, p`next, p`prev, (if tab[b] == null then {} else {tab[b]})`prev
    ensures Buckets(tab, chains[b := [p] + chains[b]])
  {
    hide Apart, Members;
    ghost var chain, after := chains[b], chains[b := [p] + chains[b]];
    InMembers(chains);
    if chain != [] {
      ApartAt(chains, b, 0);
    }
    p.next, p.prev := null, null;
    if tab[b] != null {
      tab[b].prev := p;
      p.next := tab[b];
    }
    tab[b] := p;
    ApartPush(chains, b, p);
    MembersPush(chains, b, p);
    forall i | 0 <= i < |after| && i != b
      ensures NextLinked(tab[i], after[i], 0) && PrevLinked(after[i])
    {
      assert after[i] == chains[i];
    }
    assert NextLinked(tab[b], after[b], 0) && PrevLinked(after[b]) by {
      assert old(NextLinked(tab[b], chain, 0) && PrevLinked(chain));
      forall j | 0 < j < |after[b]|
        ensures after[b][j].next == At(after[b], j + 1) && after[b][j].prev == At(after[b], j - 1)
      {
        assert after[b][j] == chains[b][j - 1] && chains[b][j - 1] in Members(chains);
      }
    }
  }

  // ------------------------------------------------------------- unlinking

  function Without<T>(s: seq<T>, j: nat): seq<T>
    requires j < |s|
  {
    s[..j] + s[j + 1..]
  }

  lemma {:induction false} MembersDrop<K, V>(chains: seq<Chain<K, V>>, b: nat, j: nat)
    requires b < |chains| && j < |chains[b]| && Apart(chains)
    ensures Members(chains[b := Without(chains[b], j)]) == Members(chains) - {chains[b][j]}
    ensures Apart(chains[b := Without(chains[b], j)])
  {
    var after := chains[b := Without(chains[b], j)];
    var p := chains[b][j];
    forall i, k | 0 <= i < |after| && 0 <= k < |after[i]|
      ensures var k0 := if i == b && k >= j then k + 1 else k;
              after[i][k] == chains[i][k0] && after[i][k] in Members(chains) && after[i][k] != p
    {
    }
    forall e | e in Members(chains) && e != p ensures e in Members(after) {
      var i, k :| 0 <= i < |chains| && 0 <= k < |chains[i]| && chains[i][k] == e;
      assert after[i][if i == b && k > j then k - 1 else k] == e;
    }
  }

  /** Takes an entry out of its bucket through its own links, as remove does. */
  method Unlink<K, V>(tab: array<Entry?<K, V>>, b: nat, p: Entry<K, V>,
                      ghost chains: seq<Chain<K, V>>, ghost j: nat)
    requires b < tab.Length && Buckets(tab, chains) && j < |chains[b]| && chains[b][j] == p
    modifies tab, (set e | e in Members(chains))`next, (set e | e in Members(chains))`prev
    ensures Buckets(tab, chains[b := Without(chains[b], j)])
    ensures p.next == old(p.next)
  {
    hide Apart, Members;
    ghost var chain, after := chains[b], chains[b := Without(chains[b], j)];
    InMembers(chains);
    ApartAt(chains, b, j);
    if j > 0 {
      ApartAt(chains, b, j - 1);
    }
    if j + 1 < |chain| {
      ApartAt(chains, b, j + 1);
    }
    assert p.next == At(chain, j + 1) && p.prev == At(chain, j - 1);
    if p.next != null {
      p.next.prev := p.prev;
    }
    if p.prev != null {
      p.prev.next := p.next;
    } else {
      tab[b] := p.next;
    }
    MembersDrop(chains, b, j);
    forall i | 0 <= i < |after| && i != b
      ensures NextLinked(tab[i], after[i], 0) && PrevLinked(after[i])
    {
      assert old(NextLinked(tab[i], chains[i], 0) && PrevLinked(chains[i]));
    }
    assert old(NextLinked(tab[b], chain, 0) && PrevLinked(chain));
    SplicedLinks(tab[b], chain, j);
  }

  /** A chain whose links skip the entry at j is linked without it. */
  lemma {:induction false} SplicedLinks<K, V>(head: Entry?<K, V>, chain: Chain<K, V>, j: nat)
    requires j < |chain| && head == At(chain, if j == 0 then 1 else 0)
    requires forall k {:trigger chain[k].next} :: 0 <= k < |chain| && k != j ==>
               chain[k].next == At(chain, if k + 1 == j then k + 2 else k + 1)
    requires forall k {:trigger chain[k].prev} :: 0 <= k < |chain| && k != j ==>
               chain[k].prev == At(chain, if k - 1 == j then k - 2 else k - 1)
    ensures NextLinked(head, Without(chain, j), 0) && PrevLinked(Without(chain, j))
  {
    var after := Without(chain, j);
    forall k | 0 <= k < |after|
      ensures after[k].next == At(after, k + 1) && after[k].prev == At(after, k - 1)
    {
      assert after[k] == chain[if k < j then k else k + 1];
    }
  }

  // ------------------------------------------------------------- the table

  datatype Cell<K, V> = Cell(hashKey: nat, key: K, value: V)

  /** What the entries hold, apart from their links. */
  ghost function Contents<K, V>(entries: set<Entry<K, V>>): map<Entry<K, V>, Cell<K, V>>
    reads entries
  {
    map e | e in entries :: Cell(e.hashKey, e.key, e.value)
  }

  /** These cells are the map m, one for each key, under their hashes. */
  ghost predicate Holds<K, V>(cells: map<Entry<K, V>, Cell<K, V>>, m: map<K, V>, hash: K -> nat) {
    && (forall e :: e in cells ==>
          cells[e].hashKey == hash(cells[e].key) && cells[e].key in m && m[cells[e].key] == cells[e].value)
    && (forall e, f :: e in cells && f in cells && cells[e].key == cells[f].key ==> e == f)
    && (forall k :: k in m ==> exists e :: e in cells && cells[e].key == k)
  }

  /** Every entry stands in the bucket of its hash. */
  ghost predicate InPlace<K, V>(chains: seq<Chain<K, V>>, cells: map<Entry<K, V>, Cell<K, V>>) {
    forall i, j :: 0 <= i < |chains| && 0 <= j < |chains[i]| ==>
      chains[i][j] in cells && cells[chains[i][j]].hashKey % |chains| == i
  }

  lemma {:induction false} InPlacePush<K, V>(chains: seq<Chain<K, V>>, b: nat, p: Entry<K, V>,
                                             cells: map<Entry<K, V>, Cell<K, V>>, more: map<Entry<K, V>, Cell<K, V>>)
    requires b < |chains| && InPlace(chains, cells)
    requires p in more && more[p].hashKey % |chains| == b
    requires forall e :: e in cells && e != p ==> e in more && more[e] == cells[e]
    requires p in cells ==> more[p].hashKey == cells[p].hashKey
    ensures InPlace(chains[b := [p] + chains[b]], more)
  {
  }

  lemma {:induction false} HeadIsMember<K, V>(tab: array<Entry?<K, V>>, chains: seq<Chain<K, V>>, b: nat)
    requires Buckets(tab, chains) && b < tab.Length
    ensures tab[b] != null ==> tab[b] in Members(chains)
  {
    InMembers(chains);
  }

  class HashTable<K(==), V> {
    const hash: K -> nat
    var nelem: nat
    var tab: array<Entry?<K, V>>
    ghost var chains: seq<Chain<K, V>>
    /** The map that the table stands for. */
    ghost var M: map<K, V>

    ghost predicate Valid()
      reads this, tab, Members(chains)
    {
      && tab.Length > 0 && Buckets(tab, chains) && InPlace(chains, Contents(Members(chains)))
      && Holds(Contents(Members(chains)), M, hash) && nelem == |M|
    }

    constructor (size: nat, hash: K -> nat)
      requires size > 0
      ensures Valid() && M == map[] && tab.Length == size && fresh(tab)
      ensures this.hash == hash && chains == seq(size, _ => [])
    {
      this.hash, nelem := hash, 0;
      tab := new Entry?<K, V>[size](_ => null);
      chains := seq(size, _ => []);
      M := map[];
    }

    /** Walks the key's bucket; the entry it stops at is the key's entry. */
    method FindEntry(key: K) returns (p: Entry?<K, V>, ghost j: nat)
      requires Valid()
      ensures Valid() && (p == null <==> key !in M)
      ensures p != null ==>
                && p.key == key && p.value == M[key]
                && var b := hash(key) % tab.Length; j < |chains[b]| && chains[b][j] == p
    {
      hide Apart, Contents, Holds;
      var i := hash(key) % tab.Length;
      p, j := tab[i], 0;
      while p != null
        invariant j <= |chains[i]| && p == At(chains[i], j)
        invariant forall k :: 0 <= k < j ==> chains[i][k].key != key
        decreases |chains[i]| - j
      {
        EntryHeld(i, j);
        assert NextLinked(tab[i], chains[i], 0);
        if p.key == key {
          return;
        }
        p, j := p.next, j + 1;
      }
      if key in M {
        ghost var k := Position(key);
      }
    }

    /** What any entry of the table holds is in the map, in the bucket of its hash. */
    lemma {:induction false} EntryHeld(i: nat, j: nat)
      requires Valid() && i < |chains| && j < |chains[i]|
      ensures var e := chains[i][j];
              e in Members(chains) && e.key in M && M[e.key] == e.value && e.hashKey == hash(e.key)
              && hash(e.key) % tab.Length == i
    {
      ghost var cells := Contents(Members(chains));
      assert cells[chains[i][j]].key == chains[i][j].key;
    }

    /** A key of the map has its entry in the bucket of its hash. */
    lemma {:induction false} Position(key: K) returns (j: nat)
      requires Valid() && key in M
      ensures var b := hash(key) % tab.Length; j < |chains[b]| && chains[b][j].key == key
    {
      ghost var cells := Contents(Members(chains));
      var e: Entry<K, V> :| e in cells && cells[e].key == key;
      var b, k :| 0 <= b < |chains| && 0 <= k < |chains[b]| && chains[b][k] == e;
      j := k;
    }

    /** zc_hashtable_get: the value of a key, or nothing. */
    method Get(key: K) returns (value: Option<V>)
      requires Valid()
      ensures value == if key in M then Some(M[key]) else None
    {
      var p, j := FindEntry(key);
      value := if p == null then None else Some(p.value);
    }

    /** One turn of the outer loop of rehash. */
    method MoveNext(t: array<Entry?<K, V>>, i: nat, ghost to: seq<Chain<K, V>>,
                    ghost cells: map<Entry<K, V>, Cell<K, V>>)
      returns (ghost r: seq<Chain<K, V>>)
      requires i < tab.Length == |chains| && t != tab && t.Length > 0 && Apart(chains)
      requires Buckets(t, to) && InPlace(to, cells) && Members(to) == Members(chains[..i])
      requires forall b {:trigger chains[b]} :: i <= b < |chains| ==> NextLinked(tab[b], chains[b], 0)
      requires Contents(Members(chains)) == cells
      modifies t, Members(chains)`next, Members(chains)`prev
      ensures Buckets(t, r) && InPlace(r, cells) && Members(r) == Members(chains[..i + 1])
      ensures forall b {:trigger chains[b]} :: i < b < |chains| ==> NextLinked(tab[b], chains[b], 0)
      ensures Contents(Members(chains)) == cells
    {
      hide Apart, Members, Buckets, InPlace;
      MembersPrefix(chains);
      BucketApart(chains, i);
      r := MoveBucket(t, tab[i], chains[i], to, cells);
      forall e | e in Members(chains) ensures Cell(e.hashKey, e.key, e.value) == cells[e] {
      }
    }

    /** Doubles the array and moves every entry to its new bucket; the map stays. */
    method Rehash()
      requires Valid()
      modifies this, Members(chains)
      ensures Valid() && M == old(M) && tab.Length == 2 * old(tab.Length) && fresh(tab)
      ensures Members(chains) == old(Members(chains))
    {
      hide Apart, Members, Holds;
      var size := 2 * tab.Length;
      var t := new Entry?<K, V>[size](_ => null);
      ghost var to: seq<Chain<K, V>> := seq(size, _ => []);
      ghost var cells := Contents(Members(chains));
      EmptyBuckets(t, to);
      var i := 0;
      MembersPrefix(chains);
      while i < tab.Length
        invariant i <= tab.Length && chains == old(chains) && tab == old(tab) && M == old(M) && nelem == old(nelem)
        invariant tab[..] == old(tab[..]) && fresh(t) && t.Length == size
        invariant Buckets(t, to) && InPlace(to, cells) && Members(to) == Members(chains[..i])
        invariant forall b {:trigger chains[b]} :: i <= b < |chains| ==> NextLinked(tab[b], chains[b], 0)
        invariant Contents(Members(chains)) == cells
      {
        to := MoveNext(t, i, to, cells);
        i := i + 1;
      }
      assert chains[..i] == chains;
      tab, chains := t, to;
    }

    /** Replaces what the entry of a key holds. */
    method Overwrite(p: Entry<K, V>, value: V)
      requires Valid() && p in Members(chains)
      modifies this, Members(chains)
      ensures Valid() && M == old(M)[old(p.key) := value] && tab == old(tab) && chains == old(chains)
    {
      hide Apart, Members, Holds;
      ghost var cells := Contents(Members(chains));
      HoldsSet(cells, M, hash, p, value);
      p.value := value;
      M := M[p.key := value];
      ghost var c := Cell(p.hashKey, p.key, value);
      forall e | e in Members(chains)
        ensures Cell(e.hashKey, e.key, e.value) == if e == p then c else cells[e]
      {
      }
      assert Contents(Members(chains)) == cells[p := c];
    }

    /** Puts a new entry for a key that has none at the front of its bucket. */
    method Insert(key: K, value: V)
      requires Valid() && key !in M
      modifies this, tab, Members(chains)
      ensures Valid() && M == old(M)[key := value] && tab == old(tab)
      ensures forall e :: e in Members(chains) ==> e in old(Members(chains)) || fresh(e)
    {
      hide Apart, Members, Holds, NextLinked, PrevLinked, InPlace;
      ghost var cells := Contents(Members(chains));
      ghost var c := Cell(hash(key), key, value);
      var p := new Entry(hash(key), key, value);
      var i := p.hashKey % tab.Length;
      assert p !in Members(chains);
      HeadIsMember(tab, chains, i);
      LinkFront(tab, i, p, chains);
      MembersPush(chains, i, p);
      InPlacePush(chains, i, p, cells, cells[p := c]);
      HoldsAdd(cells, M, hash, p, c);
      chains := chains[i := [p] + chains[i]];
      nelem, M := nelem + 1, M[key := value];
      forall e | e in Members(chains)
        ensures Cell(e.hashKey, e.key, e.value) == if e == p then c else cells[e]
      {
      }
      assert Contents(Members(chains)) == cells[p := c];
    }

    /** Sets a key: in its entry if it has one, else in a new entry, after doubling a full table. */
    method Put(key: K, value: V)
      requires Valid()
      modifies this, tab, Members(chains)
      ensures Valid() && M == old(M)[key := value]
      ensures tab.Length == if key !in old(M) && 10 * |old(M)| > 13 * old(tab.Length) then 2 * old(tab.Length)
                            else old(tab.Length)
      ensures tab == old(tab) || fresh(tab)
      ensures forall e :: e in Members(chains) ==> e in old(Members(chains)) || fresh(e)
    {
      hide Apart, Members, Holds;
      var p, j := FindEntry(key);
      if p != null {
        EntryHeld(hash(key) % tab.Length, j);
        Overwrite(p, value);
        return;
      }
      if 10 * nelem > 13 * tab.Length {
        Rehash();
      }
      Insert(key, value);
    }

    /** Unlinks the entry of a key; a key that has none is left alone. */
    method Remove(key: K)
      requires Valid()
      modifies this, tab, Members(chains)
      ensures Valid() && M == old(M) - {key} && tab == old(tab)
      ensures Members(chains) <= old(Members(chains))
    {
      hide Apart, Members, Holds, NextLinked, PrevLinked;
      var p, j := FindEntry(key);
      if p == null {
        return;
      }
      EntryHeld(hash(key) % tab.Length, j);
      TakeOut(p, hash(key) % tab.Length, j);
    }

    /** Unlinks an entry, which knows its bucket by its hash. */
    method TakeOut(p: Entry<K, V>, ghost b: nat, ghost j: nat)
      requires Valid() && b < |chains| && j < |chains[b]| && chains[b][j] == p
      requires p in Members(chains) && b == p.hashKey % tab.Length
      modifies this, tab, Members(chains)
      ensures Valid() && M == old(M) - {old(p.key)} && tab == old(tab)
      ensures Members(chains) <= old(Members(chains))
    {
      hide Apart, Members, Holds, NextLinked, PrevLinked, InPlace;
      ghost var key := p.key;
      ghost var cells := Contents(Members(chains));
      Unlink(tab, p.hashKey % tab.Length, p, chains, j);
      MembersDrop(chains, b, j);
      InPlaceDrop(chains, b, j, cells);
      HoldsDrop(cells, M, hash, p);
      chains := chains[b := Without(chains[b], j)];
      nelem, M := nelem - 1, M - {key};
      forall e | e in Members(chains) ensures Cell(e.hashKey, e.key, e.value) == cells[e] {
      }
      assert Contents(Members(chains)) == cells - {p};
    }

    /** Empties every bucket. */
    method Clean()
      requires Valid()
      modifies this, tab
      ensures Valid() && M == map[] && tab == old(tab)
    {
      hide Apart, Members, Contents, Buckets, InPlace, Holds;
      var i := 0;
      while i < tab.Length
        invariant i <= tab.Length && tab == old(tab)
        invariant forall b :: 0 <= b < i ==> tab[b] == null
      {
        tab[i] := null;
        i := i + 1;
      }
      chains := seq(tab.Length, _ => []);
      nelem, M := 0, map[];
      EmptyBuckets(tab, chains);
      HoldsNothing(Members(chains), hash);
    }

    // ----------------------------------------------------------- iteration

    /** The entries in the order in which begin and next deliver them. */
    ghost function Order(): seq<Entry<K, V>>
      reads this
    {
      Flat(chains, |chains|)
    }

    method Begin() returns (e: Entry?<K, V>)
      requires Valid()
      ensures Valid() && e == At(Order(), 0)
    {
      hide Apart, Members, Contents, InPlace, Holds, PrevLinked;
      var i := 0;
      while i < tab.Length
        invariant i <= tab.Length && Flat(chains, i) == []
      {
        assert NextLinked(tab[i], chains[i], 0);
        if tab[i] != null {
          FlatAt(chains, |chains|, i, 0);
          return tab[i];
        }
        i := i + 1;
      }
      e := null;
    }

    /** The entry after the k-th one of the order. */
    method Next(e: Entry<K, V>, ghost k: nat) returns (r: Entry?<K, V>)
      requires Valid() && k < |Order()| && Order()[k] == e
      ensures Valid() && r == At(Order(), k + 1)
    {
      hide Apart, Members, Contents, InPlace, Holds, PrevLinked;
      ghost var i, j := FlatPosition(chains, |chains|, k);
      EntryHeld(i, j);
      assert NextLinked(tab[i], chains[i], 0);
      if e.next != null {
        FlatAt(chains, |chains|, i, j + 1);
        return e.next;
      }
      var b := e.hashKey % tab.Length + 1;
      while b < tab.Length
        invariant i < b <= tab.Length && |Flat(chains, b)| == k + 1
      {
        assert NextLinked(tab[b], chains[b], 0);
        if tab[b] != null {
          FlatAt(chains, |chains|, b, 0);
          return tab[b];
        }
        b := b + 1;
      }
      r := null;
    }

    /** The foreach macro: begin, then next until there is none, meets the whole order. */
    method Visit() returns (visited: seq<Entry<K, V>>)
      requires Valid()
      ensures visited == Order()
    {
      hide Apart, Members, Contents, Buckets, InPlace, Holds, Flat;
      visited := [];
      var e := Begin();
      while e != null
        invariant Valid() && visited <= Order() && e == At(Order(), |visited|)
        decreases |Order()| - |visited|
      {
        var r := Next(e, |visited|);
        visited := visited + [e];
        e := r;
      }
    }

    /** The order meets every key of the map exactly once, with its value. */
    lemma {:induction false} OrderIsMap()
      requires Valid()
      ensures |Order()| == |M|
      ensures forall k :: 0 <= k < |Order()| ==>
                Order()[k].key in M && Order()[k].value == M[Order()[k].key]
      ensures forall k, m :: 0 <= k < m < |Order()| ==> Order()[k].key != Order()[m].key
      ensures forall key :: key in M ==> exists k :: 0 <= k < |Order()| && Order()[k].key == key
    {
      hide Apart, Members, InPlace, Holds, Flat;
      ghost var cells := Contents(Members(chains));
      CellsInOrder(chains, cells, M, hash);
    }
  }

  /** The same, of the cells, with no links involved. */
  lemma {:induction false} CellsInOrder<K, V>(chains: seq<Chain<K, V>>, cells: map<Entry<K, V>, Cell<K, V>>,
                                              m: map<K, V>, hash: K -> nat)
    requires Apart(chains) && Holds(cells, m, hash) && cells.Keys == Members(chains)
    ensures var order := Flat(chains, |chains|);
            && |order| == |m|
            && (forall k :: 0 <= k < |order| ==> order[k] in cells)
            && (forall k :: 0 <= k < |order| ==>
                  var c := cells[order[k]]; c.key in m && c.value == m[c.key])
            && (forall k, n :: 0 <= k < n < |order| ==> cells[order[k]].key != cells[order[n]].key)
            && (forall key :: key in m ==> exists k :: 0 <= k < |order| && cells[order[k]].key == key)
  {
    hide Members, Flat, Apart, Holds;
    var order := Flat(chains, |chains|);
    FlatMembers(chains, order);
    forall k | 0 <= k < |order| ensures order[k] in cells {
      assert order[k] in cells.Keys;
    }
    HeldAt(order, cells, m, hash);
    HeldAll(order, cells, m, hash);
    HeldCount(order, cells, m);
  }

  /** Different entries hold different keys, with the values of the map. */
  lemma {:induction false} HeldAt<K, V>(order: seq<Entry<K, V>>, cells: map<Entry<K, V>, Cell<K, V>>, m: map<K, V>,
                                        hash: K -> nat)
    requires Holds(cells, m, hash) && forall k :: 0 <= k < |order| ==> order[k] in cells
    requires forall k, n :: 0 <= k < n < |order| ==> order[k] != order[n]
    ensures forall k :: 0 <= k < |order| ==> cells[order[k]].key in m && cells[order[k]].value == m[cells[order[k]].key]
    ensures forall k, n :: 0 <= k < n < |order| ==> cells[order[k]].key != cells[order[n]].key
  {
  }

  lemma {:induction false} HeldAll<K, V>(order: seq<Entry<K, V>>, cells: map<Entry<K, V>, Cell<K, V>>, m: map<K, V>,
                                         hash: K -> nat)
    requires Holds(cells, m, hash) && forall k :: 0 <= k < |order| ==> order[k] in cells
    requires forall e :: e in cells ==> e in order
    ensures forall key :: key in m ==> exists k :: 0 <= k < |order| && cells[order[k]].key == key
  {
    forall key | key in m ensures exists k :: 0 <= k < |order| && cells[order[k]].key == key {
      var e: Entry<K, V> :| e in cells && cells[e].key == key;
      var k :| 0 <= k < |order| && order[k] == e;
      assert cells[order[k]].key == key;
    }
  }

  lemma {:induction false} HeldCount<K, V>(order: seq<Entry<K, V>>, cells: map<Entry<K, V>, Cell<K, V>>, m: map<K, V>)
    requires forall k :: 0 <= k < |order| ==> order[k] in cells && cells[order[k]].key in m
    requires forall k, n :: 0 <= k < n < |order| ==> cells[order[k]].key != cells[order[n]].key
    requires forall key :: key in m ==> exists k :: 0 <= k < |order| && cells[order[k]].key == key
    ensures |order| == |m|
  {
    var keys := seq(|order|, k requires 0 <= k < |order| && order[k] in cells => cells[order[k]].key);
    forall key | key in m ensures key in keys {
      var k :| 0 <= k < |order| && cells[order[k]].key == key;
      assert keys[k] == key;
    }
    DistinctCount(keys);
    assert (set key | key in keys) == m.Keys;
  }

  /** The order holds every entry once. */
  lemma {:induction false} FlatMembers<K, V>(chains: seq<Chain<K, V>>, order: seq<Entry<K, V>>)
    requires Apart(chains) && order == Flat(chains, |chains|)
    ensures forall k :: 0 <= k < |order| ==> order[k] in Members(chains)
    ensures forall k, n :: 0 <= k < n < |order| ==> order[k] != order[n]
    ensures forall e :: e in Members(chains) ==> e in order
  {
    hide Flat;
    forall k | 0 <= k < |order| ensures order[k] in Members(chains) {
      var i, j := FlatPosition(chains, |chains|, k);
    }
    forall k, n | 0 <= k < n < |order| ensures order[k] != order[n] {
      var i, j := FlatPosition(chains, |chains|, k);
      var a, b := FlatPosition(chains, |chains|, n);
    }
    forall e | e in Members(chains) ensures e in order {
      var i, j :| 0 <= i < |chains| && 0 <= j < |chains[i]| && chains[i][j] == e;
      FlatAt(chains, |chains|, i, j);
    }
  }

  lemma {:induction false} DistinctCount<T>(s: seq<T>)
    requires forall k, m :: 0 <= k < m < |s| ==> s[k] != s[m]
    ensures |(set e | e in s)| == |s|
  {
    if s != [] {
      var n := |s| - 1;
      DistinctCount(s[..n]);
      assert (set e | e in s) == (set e | e in s[..n]) + {s[n]};
    }
  }

  ghost function Flat<K, V>(chains: seq<Chain<K, V>>, n: nat): seq<Entry<K, V>>
    requires n <= |chains|
  {
    if n == 0 then [] else Flat(chains, n - 1) + chains[n - 1]
  }

  lemma {:induction false} FlatAt<K, V>(chains: seq<Chain<K, V>>, n: nat, i: nat, j: nat)
    requires i < n <= |chains| && j < |chains[i]|
    ensures |Flat(chains, i)| + j < |Flat(chains, n)|
    ensures Flat(chains, n)[|Flat(chains, i)| + j] == chains[i][j]
  {
    if i < n - 1 {
      FlatAt(chains, n - 1, i, j);
    }
  }

  lemma {:induction false} FlatPosition<K, V>(chains: seq<Chain<K, V>>, n: nat, k: nat) returns (i: nat, j: nat)
    requires n <= |chains| && k < |Flat(chains, n)|
    ensures i < n && j < |chains[i]| && k == |Flat(chains, i)| + j && Flat(chains, n)[k] == chains[i][j]
  {
    if k < |Flat(chains, n - 1)| {
      i, j := FlatPosition(chains, n - 1, k);
    } else {
      i, j := n - 1, k - |Flat(chains, n - 1)|;
    }
  }

  lemma {:induction false} InPlaceDrop<K, V>(chains: seq<Chain<K, V>>, b: nat, j: nat,
                                             cells: map<Entry<K, V>, Cell<K, V>>)
    requires b < |chains| && j < |chains[b]| && InPlace(chains, cells) && Apart(chains)
    ensures InPlace(chains[b := Without(chains[b], j)], cells - {chains[b][j]})
  {
    var after := chains[b := Without(chains[b], j)];
    forall i, k | 0 <= i < |after| && 0 <= k < |after[i]|
      ensures after[i][k] in cells - {chains[b][j]} && cells[after[i][k]].hashKey % |chains| == i
    {
      assert after[i][k] == chains[i][if i == b && k >= j then k + 1 else k];
    }
  }

  lemma {:induction false} HoldsDrop<K, V>(cells: map<Entry<K, V>, Cell<K, V>>, m: map<K, V>, hash: K -> nat,
                                           p: Entry<K, V>)
    requires Holds(cells, m, hash) && p in cells
    ensures Holds(cells - {p}, m - {cells[p].key}, hash)
    ensures |m - {cells[p].key}| == |m| - 1
  {
    var key := cells[p].key;
    assert (m - {key}).Keys == m.Keys - {key};
    forall k | k in m - {key} ensures exists e :: e in cells - {p} && (cells - {p})[e].key == k {
      var e: Entry<K, V> :| e in cells && cells[e].key == k;
      assert e in cells - {p};
    }
  }

  lemma {:induction false} HoldsNothing<K, V>(entries: set<Entry<K, V>>, hash: K -> nat)
    requires entries == {}
    ensures Contents(entries) == map[] && Holds(Contents(entries), map[], hash)
  {
  }

  lemma {:induction false} HoldsSet<K, V>(cells: map<Entry<K, V>, Cell<K, V>>, m: map<K, V>, hash: K -> nat,
                                          p: Entry<K, V>, value: V)
    requires Holds(cells, m, hash) && p in cells
    ensures Holds(cells[p := cells[p].(value := value)], m[cells[p].key := value], hash)
    ensures |m[cells[p].key := value]| == |m|
  {
    var key := cells[p].key;
    var after := cells[p := cells[p].(value := value)];
    assert m[key := value].Keys == m.Keys;
    forall k | k in m ensures exists e :: e in after && after[e].key == k {
      var e: Entry<K, V> :| e in cells && cells[e].key == k;
      assert after[e].key == k;
    }
  }

  lemma {:induction false} HoldsAdd<K, V>(cells: map<Entry<K, V>, Cell<K, V>>, m: map<K, V>, hash: K -> nat,
                                          p: Entry<K, V>, c: Cell<K, V>)
    requires Holds(cells, m, hash) && p !in cells && c.key !in m && c.hashKey == hash(c.key)
    ensures Holds(cells[p := c], m[c.key := c.value], hash)
    ensures |m[c.key := c.value]| == |m| + 1
  {
    var after, n := cells[p := c], m[c.key := c.value];
    assert n.Keys == m.Keys + {c.key};
    hide Holds;
    forall e | e in after
      ensures after[e].hashKey == hash(after[e].key) && after[e].key in n && n[after[e].key] == after[e].value
    {
      HeldCell(cells, m, hash, p, c, e);
    }
    forall e, f | e in after && f in after && after[e].key == after[f].key ensures e == f {
      HeldOnce(cells, m, hash, p, c, e, f);
    }
    forall k | k in n ensures exists e :: e in after && after[e].key == k {
      var e := HeldAfterAdd(cells, m, hash, p, c, k);
    }
    HoldsFrom(after, n, hash);
  }

  lemma {:induction false} HoldsFrom<K, V>(cells: map<Entry<K, V>, Cell<K, V>>, m: map<K, V>, hash: K -> nat)
    requires forall e :: e in cells ==>
               cells[e].hashKey == hash(cells[e].key) && cells[e].key in m && m[cells[e].key] == cells[e].value
    requires forall e, f :: e in cells && f in cells && cells[e].key == cells[f].key ==> e == f
    requires forall k :: k in m ==> exists e :: e in cells && cells[e].key == k
    ensures Holds(cells, m, hash)
  {
  }

  lemma {:induction false} HeldCell<K, V>(cells: map<Entry<K, V>, Cell<K, V>>, m: map<K, V>, hash: K -> nat,
                                          p: Entry<K, V>, c: Cell<K, V>, e: Entry<K, V>)
    requires Holds(cells, m, hash) && c.key !in m && c.hashKey == hash(c.key) && e in cells[p := c]
    ensures var (d, n) := (cells[p := c][e], m[c.key := c.value]);
            d.hashKey == hash(d.key) && d.key in n && n[d.key] == d.value
  {
  }

  lemma {:induction false} HeldOnce<K, V>(cells: map<Entry<K, V>, Cell<K, V>>, m: map<K, V>, hash: K -> nat,
                                          p: Entry<K, V>, c: Cell<K, V>, e: Entry<K, V>, f: Entry<K, V>)
    requires Holds(cells, m, hash) && c.key !in m && e in cells[p := c] && f in cells[p := c]
    requires cells[p := c][e].key == cells[p := c][f].key
    ensures e == f
  {
  }

  lemma {:induction false} HeldAfterAdd<K, V>(cells: map<Entry<K, V>, Cell<K, V>>, m: map<K, V>, hash: K -> nat,
                                              p: Entry<K, V>, c: Cell<K, V>, k: K) returns (e: Entry<K, V>)
    requires Holds(cells, m, hash) && p !in cells && (k == c.key || k in m)
    ensures e in cells[p := c] && cells[p := c][e].key == k
  {
    if k == c.key {
      e := p;
    } else {
      e :| e in cells && cells[e].key == k;
    }
  }

  lemma {:induction false} EmptyBuckets<K, V>(t: array<Entry?<K, V>>, to: seq<Chain<K, V>>)
    requires |to| == t.Length && forall i :: 0 <= i < |to| ==> to[i] == [] && t[i] == null
    ensures Buckets(t, to) && InPlace(to, map[]) && Members(to) == {}
  {
  }

  ghost function Elements<K, V>(chain: Chain<K, V>): set<Entry<K, V>> {
    set e | e in chain
  }

  lemma {:induction false} MembersPrefix<K, V>(chains: seq<Chain<K, V>>)
    ensures Members(chains[..0]) == {}
    ensures forall i :: 0 <= i < |chains| ==>
              Members(chains[..i + 1]) == Members(chains[..i]) + Elements(chains[i])
  {
    forall i | 0 <= i < |chains|
      ensures Members(chains[..i + 1]) == Members(chains[..i]) + Elements(chains[i])
    {
      forall e | e in Elements(chains[i]) ensures e in Members(chains[..i + 1]) {
        var j :| 0 <= j < |chains[i]| && chains[i][j] == e;
        assert chains[..i + 1][i][j] == e;
      }
      forall e | e in Members(chains[..i]) ensures e in Members(chains[..i + 1]) {
        var m, j :| 0 <= m < i && 0 <= j < |chains[..i][m]| && chains[..i][m][j] == e;
        assert chains[..i + 1][m][j] == e;
      }
    }
  }

  ghost predicate Distinct<K, V>(chain: Chain<K, V>) {
    forall j, k :: 0 <= j < k < |chain| ==> chain[j] != chain[k]
  }

  lemma {:induction false} BucketApart<K, V>(chains: seq<Chain<K, V>>, i: nat)
    requires i < |chains| && Apart(chains)
    ensures Distinct(chains[i]) && Elements(chains[i]) !! Members(chains[..i])
    ensures forall b, k :: 0 <= b < |chains| && b != i && 0 <= k < |chains[b]| ==> chains[b][k] !in chains[i]
    ensures Elements(chains[i]) <= Members(chains) && Members(chains[..i]) <= Members(chains)
  {
  }

  /** The inner loop of rehash: relinks one old bucket, entry by entry, into the new array. */
  method MoveBucket<K, V>(t: array<Entry?<K, V>>, head: Entry?<K, V>, ghost chain: Chain<K, V>,
                          ghost to: seq<Chain<K, V>>, ghost cells: map<Entry<K, V>, Cell<K, V>>)
    returns (ghost r: seq<Chain<K, V>>)
    requires t.Length > 0 && Buckets(t, to) && InPlace(to, cells)
    requires forall e :: e in chain ==> e in cells && cells[e].hashKey == e.hashKey
    requires NextLinked(head, chain, 0) && Distinct(chain) && Elements(chain) !! Members(to)
    modifies t, Elements(chain)`next, Elements(chain)`prev, Members(to)`prev
    ensures Buckets(t, r) && InPlace(r, cells)
    ensures Members(r) == Members(to) + Elements(chain)
  {
    hide Apart, Members;
    r := to;
    var p := head;
    ghost var j := 0;
    while p != null
      invariant j <= |chain| && NextLinked(p, chain, j)
      invariant Buckets(t, r) && InPlace(r, cells) && Members(r) == Members(to) + Elements(chain[..j])
      decreases |chain| - j
    {
      var q := p.next;
      var b := p.hashKey % t.Length;
      assert p == chain[j] && p !in Elements(chain[..j]) && p !in Members(r);
      assert r[b] != [] ==> r[b][0] in Members(r) by { InMembers(r); }
      LinkFront(t, b, p, r);
      MembersPush(r, b, p);
      InPlacePush(r, b, p, cells, cells);
      assert chain[..j + 1] == chain[..j] + [p];
      r := r[b := [p] + r[b]];
      p, j := q, j + 1;
    }
    assert chain[..j] == chain;
  }
}
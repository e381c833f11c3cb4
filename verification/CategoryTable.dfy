/**
  Categories and the table of them: the rules of every category are replaced in two phases,
  so that a change can be taken back.
 */
module CategoryTable {
  import opened Wrappers
  import opened LevelRules
  import opened HashTable

  /** What a category knows of its rules. */
  datatype Knowledge = Knowledge(bitmap: Bitmap, bitmapBackup: Bitmap,
                                 fitRules: Option<seq<Rule>>, fitRulesBackup: Option<seq<Rule>>)

  /** No change is pending. */
  predicate Settled(s: Knowledge) {
    s.fitRules.Some? && s.fitRulesBackup.None? && s.bitmapBackup == EMPTY
  }

  /** The category has these rules, and the bitmap that caches them. */
  predicate Obtained(s: Knowledge, rules: seq<Rule>, name: string)
    requires Named(rules)
  {
    s.fitRules == Some(Fitted(rules, name)) && s.bitmap == Union(Fitted(rules, name))
  }

  /** What an update of one category leaves: the old rules as the backup, and the new rules
      or, when an allocation failed, none. */
  predicate Updated(s: Knowledge, t: Knowledge, rules: seq<Rule>, name: string, ok: bool)
    requires Named(rules)
  {
    && t.fitRulesBackup == s.fitRules && t.bitmapBackup == s.bitmap
    && if ok then Obtained(t, rules, name) else t.fitRules == None
  }

  function Committed(s: Knowledge): Knowledge {
    if s.fitRulesBackup == None then s else s.(fitRulesBackup := None, bitmapBackup := EMPTY)
  }

  function RolledBack(s: Knowledge): Knowledge {
    if s.fitRulesBackup == None then s else Knowledge(s.bitmapBackup, EMPTY, s.fitRulesBackup, None)
  }

  /** The bit of a level in the category's bitmap is set exactly if one of its rules puts the level out. */
  lemma {:induction false} SkipsExactly(s: Knowledge, rules: seq<Rule>, name: string, lv: nat)
    requires (forall r :: r in rules ==> Made(r)) && Named(rules) && lv < 256 && Obtained(s, rules, name)
    ensures Bit(s.bitmap, lv) <==> exists r :: r in s.fitRules.value && Outputs(r.compareChar, r.level, lv)
  {
    hide Bit, Union, Fitted, Outputs;
    CacheIsExact(rules, name, lv);
  }

  /** Rollback undoes an update, complete or failed, of a settled category. */
  lemma {:induction false} RollbackUndoes(s: Knowledge, t: Knowledge, rules: seq<Rule>, name: string, ok: bool)
    requires Named(rules) && Updated(s, t, rules, name, ok) && Settled(s)
    ensures RolledBack(t) == s
  {
  }

  /** It undoes a complete update of no other category. */
  lemma {:induction false} RollbackUndoesOnlySettled(s: Knowledge, t: Knowledge, rules: seq<Rule>, name: string)
    requires Named(rules) && Updated(s, t, rules, name, true) && RolledBack(t) == s
    ensures Settled(s)
  {
  }

  class Category {
    const name: string
    var bitmap: Bitmap
    var bitmapBackup: Bitmap
    var fitRules: Option<seq<Rule>>
    var fitRulesBackup: Option<seq<Rule>>

    ghost function State(): Knowledge
      reads this
    {
      Knowledge(bitmap, bitmapBackup, fitRules, fitRulesBackup)
    }

    /** calloc and the name. */
    constructor (name: string)
      ensures this.name == name && State() == Knowledge(EMPTY, EMPTY, None, None)
    {
      this.name := name;
      bitmap, bitmapBackup, fitRules, fitRulesBackup := EMPTY, EMPTY, None, None;
    }

    /** zlog_category_new: NULL for a name that is too long or when an allocation fails. */
    static method Create(name: string, rules: seq<Rule>) returns (c: Category?)
      requires Named(rules)
      ensures |name| > MAXLEN_PATH ==> c == null
      ensures c != null ==> fresh(c) && c.name == name && Settled(c.State()) && Obtained(c.State(), rules, name)
    {
      var fails: bool := *;
      if |name| > MAXLEN_PATH || fails {
        return null;
      }
      c := new Category(name);
      var rc := c.ObtainRules(rules);
      if rc != 0 {
        c := null;
      }
    }

    /** zlog_cateogry_overlap_bitmap */
    method OverlapBitmap(r: Rule)
      modifies this`bitmap
      ensures bitmap == OrBytes(old(bitmap), r.bitmap, 32)
    {
      hide OrBytes;
      ghost var was := bitmap;
      var i := 0;
      while i < 32
        invariant i <= 32
        invariant forall j :: 0 <= j < 32 ==> bitmap[j] == if j < i then was[j] | r.bitmap[j] else was[j]
      {
        bitmap := bitmap[i := bitmap[i] | r.bitmap[i]];
        i := i + 1;
      }
    }

    /** zlog_category_obtain_rules: any list_new or list_add may fail. */
    method ObtainRules(rules: seq<Rule>) returns (rc: int)
      requires Named(rules)
      modifies this`bitmap, this`fitRules
      ensures rc == 0 ==> Obtained(State(), rules, name)
      ensures rc != 0 ==> rc == -1 && fitRules == None
    {
      hide Matches, OrBytes, Matching, Union, Wastebin, IsWastebin;
      NoRules(rules, name);
      fitRules := None;
      bitmap := EMPTY;
      var fails: bool := *;
      if fails {
        return -1;
      }
      fitRules := Some([]);
      var i, count := 0, 0;
      var wastebin: Option<Rule> := None;
      while i < |rules|
        invariant i <= |rules| && fitRules == Some(Matching(rules, i, name))
        invariant bitmap == Union(fitRules.value) && count == |fitRules.value|
        invariant Wastebin(rules, i) == if wastebin == None then [] else [wastebin.value]
      {
        var r := rules[i];
        OneRule(rules, i, name);
        assert fitRules.value + [] == fitRules.value;
        if Matches(r, name) {
          fails := *;
          if fails {
            fitRules := None;
            return -1;
          }
          UnionAdd(fitRules.value, r);
          fitRules := Some(fitRules.value + [r]);
          OverlapBitmap(r);
          count := count + 1;
        }
        if IsWastebin(r) {
          wastebin := Some(r);
        }
        i := i + 1;
      }
      if count == 0 && wastebin != None {
        fails := *;
        if fails {
          fitRules := None;
          return -1;
        }
        UnionAdd(fitRules.value, wastebin.value);
        assert fitRules.value == [] && [] + [wastebin.value] == [wastebin.value];
        fitRules := Some(fitRules.value + [wastebin.value]);
        OverlapBitmap(wastebin.value);
      }
      rc := 0;
    }

    /** zlog_category_update_rules */
    method UpdateRules(rules: seq<Rule>) returns (rc: int)
      requires Named(rules)
      modifies this
      ensures rc == 0 || rc == -1
      ensures Updated(old(State()), State(), rules, name, rc == 0)
    {
      fitRulesBackup := fitRules;
      fitRules := None;
      bitmapBackup := bitmap;
      rc := ObtainRules(rules);
      if rc != 0 {
        fitRules := None;
        return -1;
      }
    }

    method CommitRules()
      modifies this
      ensures State() == Committed(old(State()))
    {
      if fitRulesBackup == None {
        return;
      }
      fitRulesBackup := None;
      bitmapBackup := EMPTY;
    }

    method RollbackRules()
      modifies this
      ensures State() == RolledBack(old(State()))
    {
      if fitRulesBackup == None {
        return;
      }
      fitRules := fitRulesBackup;
      fitRulesBackup := None;
      bitmap := bitmapBackup;
      bitmapBackup := EMPTY;
    }
  }

  lemma {:induction false} NoRules(rules: seq<Rule>, name: string)
    requires Named(rules)
    ensures Matching(rules, 0, name) == [] && Wastebin(rules, 0) == [] && Union([]) == EMPTY
  {
  }

  lemma {:induction false} OneRule(rules: seq<Rule>, i: nat, name: string)
    requires Named(rules) && i < |rules|
    ensures Matching(rules, i + 1, name)
            == Matching(rules, i, name) + if Matches(rules[i], name) then [rules[i]] else []
    ensures Wastebin(rules, i + 1) == if IsWastebin(rules[i]) then [rules[i]] else Wastebin(rules, i)
  {
  }

  lemma {:induction false} UnionAdd(rules: seq<Rule>, r: Rule)
    ensures Union(rules + [r]) == OrBytes(Union(rules), r.bitmap, 32)
  {
    assert (rules + [r])[..|rules|] == rules;
  }

  // ------------------------------------------------------------- the table

  /** What the categories of a table know, by name. */
  type Snapshot = map<string, Knowledge>

  /** A table-wide update that stopped after done categories of the order: those are updated,
      the next one has failed unless all are done, the rest is as before. */
  ghost predicate TableUpdated(was: Snapshot, now: Snapshot, order: seq<string>, rules: seq<Rule>, done: nat)
    requires Named(rules) && was.Keys == now.Keys && forall k :: k in order ==> k in was
  {
    && done <= |order|
    && (forall i :: 0 <= i < done ==> Updated(was[order[i]], now[order[i]], rules, order[i], true))
    && (done < |order| ==> Updated(was[order[done]], now[order[done]], rules, order[done], false))
    && (forall i :: done < i < |order| ==> now[order[i]] == was[order[i]])
  }

  function TableCommitted(s: Snapshot): Snapshot {
    map k | k in s :: Committed(s[k])
  }

  function TableRolledBack(s: Snapshot): Snapshot {
    map k | k in s :: RolledBack(s[k])
  }

  ghost predicate Lists(order: seq<string>, s: Snapshot) {
    forall k :: k in order <==> k in s
  }

  predicate AllSettled(s: Snapshot) {
    forall k :: k in s ==> Settled(s[k])
  }

  /** An update that stops leaves the category that failed without rules. */
  lemma {:induction false} StoppedIsUnsettled(was: Snapshot, now: Snapshot, order: seq<string>, rules: seq<Rule>,
                                              done: nat)
    requires Named(rules) && was.Keys == now.Keys && Lists(order, was) && done < |order|
    requires TableUpdated(was, now, order, rules, done)
    ensures !AllSettled(now)
  {
    assert order[done] in now && now[order[done]].fitRules == None;
  }

  lemma {:induction false} CommittedKeys(s: Snapshot)
    ensures TableCommitted(s).Keys == s.Keys
  {
  }

  lemma {:induction false} CommitSettles(was: Snapshot, now: Snapshot, order: seq<string>, rules: seq<Rule>)
    requires Named(rules) && was.Keys == now.Keys && Lists(order, was) && AllSettled(was)
    requires TableUpdated(was, now, order, rules, |order|)
    ensures var end := TableCommitted(now);
            end.Keys == was.Keys && AllSettled(end) && forall k :: k in end ==> Obtained(end[k], rules, k)
  {
    hide TableUpdated, Obtained, TableCommitted;
    TableCommitKeeps(was, now, order, rules);
  }

  /** From a table without pending changes, an update that succeeds or stops anywhere, and
      then a rollback, give back every category's rules and bitmap. */
  lemma {:induction false} TableRollbackUndoes(was: Snapshot, now: Snapshot, order: seq<string>, rules: seq<Rule>,
                                               done: nat)
    requires Named(rules) && was.Keys == now.Keys && Lists(order, was)
    requires AllSettled(was)
    requires TableUpdated(was, now, order, rules, done)
    ensures TableRolledBack(now) == was
  {
    hide RolledBack, TableUpdated;
    forall k | k in was ensures RolledBack(now[k]) == was[k] {
      var i :| 0 <= i < |order| && order[i] == k;
      KeyRollbackUndoes(was, now, order, rules, done, i);
    }
  }

  lemma {:induction false} KeyRollbackUndoes(was: Snapshot, now: Snapshot, order: seq<string>, rules: seq<Rule>,
                                             done: nat, i: nat)
    requires Named(rules) && was.Keys == now.Keys && (forall k :: k in order ==> k in was) && i < |order|
    requires Settled(was[order[i]]) && TableUpdated(was, now, order, rules, done)
    ensures RolledBack(now[order[i]]) == was[order[i]]
  {
    hide Updated, RolledBack;
    var k := order[i];
    if i <= done {
      RollbackUndoes(was[k], now[k], rules, k, i < done);
    } else {
      SettledRollback(was[k]);
    }
  }

  lemma {:induction false} SettledRollback(s: Knowledge)
    requires Settled(s)
    ensures RolledBack(s) == s
  {
  }

  /** A complete update and a commit leave every category with the new rules and no backup. */
  lemma {:induction false} TableCommitKeeps(was: Snapshot, now: Snapshot, order: seq<string>, rules: seq<Rule>)
    requires Named(rules) && was.Keys == now.Keys && Lists(order, was)
    requires AllSettled(was)
    requires TableUpdated(was, now, order, rules, |order|)
    ensures var end := TableCommitted(now);
            end.Keys == was.Keys && forall k :: k in end ==> Settled(end[k]) && Obtained(end[k], rules, k)
  {
    forall k | k in was ensures Settled(Committed(now[k])) && Obtained(Committed(now[k]), rules, k) {
      var i :| 0 <= i < |order| && order[i] == k;
      assert Updated(was[order[i]], now[order[i]], rules, order[i], true);
    }
  }

  ghost function KeysOf<V>(order: seq<Entry<string, V>>, n: nat): (names: seq<string>)
    requires n <= |order|
    reads order
    ensures |names| == n && forall i :: 0 <= i < n ==> names[i] == order[i].key
  {
    if n == 0 then [] else KeysOf(order, n - 1) + [order[n - 1].key]
  }

  lemma {:induction false} KeysListed<V>(order: seq<Entry<string, V>>, names: seq<string>, m: map<string, V>)
    requires |names| == |order| && forall i :: 0 <= i < |names| ==> names[i] == order[i].key
    requires forall k :: 0 <= k < |order| ==> order[k].key in m && order[k].value == m[order[k].key]
    requires forall k, l :: 0 <= k < l < |order| ==> order[k].key != order[l].key
    requires forall key :: key in m ==> exists k :: 0 <= k < |order| && order[k].key == key
    ensures forall i :: 0 <= i < |names| ==> names[i] in m && order[i].value == m[names[i]]
    ensures forall i, j :: 0 <= i < j < |names| ==> names[i] != names[j]
    ensures forall k :: k in m ==> k in names
  {
  }

  /** The entries of the order hold the values of these names in the map. */
  ghost predicate Located<V>(order: seq<Entry<string, V>>, names: seq<string>, m: map<string, V>)
    reads order
  {
    |names| == |order| && forall i :: 0 <= i < |names| ==> names[i] in m && order[i].value == m[names[i]]
  }

  class Table {
    const categories: HashTable<string, Category>

    ghost predicate Valid()
      reads categories, categories.tab, Members(categories.chains)
    {
      && categories.Valid()
      && forall k :: k in categories.M ==> categories.M[k].name == k
    }

    ghost function Snapshot(): Snapshot
      reads categories, categories.M.Values
    {
      map k | k in categories.M :: categories.M[k].State()
    }

    /** The names in the order of the iteration. */
    lemma {:induction false} ListNames(order: seq<Entry<string, Category>>) returns (names: seq<string>)
      requires Valid() && order == categories.Order()
      ensures Iterating(order, names) && |names| == |order|
      ensures forall i, j :: 0 <= i < j < |names| ==> names[i] != names[j]
      ensures forall k :: k in categories.M <==> k in names
    {
      names := ListKeys(order);
      hide HashTable.Valid;
      LocatedAll(order, names, categories.M);
    }

    lemma {:induction false} ListKeys(order: seq<Entry<string, Category>>) returns (names: seq<string>)
      requires Valid() && order == categories.Order()
      ensures |names| == |order|
      ensures forall i :: 0 <= i < |names| ==> names[i] in categories.M
      ensures forall i :: 0 <= i < |names| ==> order[i].value == categories.M[names[i]]
      ensures forall i, j :: 0 <= i < j < |names| ==> names[i] != names[j]
      ensures forall k :: k in categories.M ==> k in names
    {
      categories.OrderIsMap();
      hide *;
      names := KeysOf(order, |order|);
      KeysListed(order, names, categories.M);
    }

    constructor (hash: string -> nat)
      ensures Valid() && fresh(categories) && categories.M == map[]
    {
      categories := new HashTable(20, hash);
    }

    /** zlog_category_table_fetch_category: finds the category or adds a new one. */
    method FetchCategory(name: string, rules: seq<Rule>) returns (c: Category?)
      requires Valid() && Named(rules)
      modifies categories, categories.tab, Members(categories.chains)
      ensures Valid() && forall k :: k in old(Snapshot()) ==> k in Snapshot() && Snapshot()[k] == old(Snapshot()[k])
      ensures forall k :: k in Snapshot() ==> k in old(Snapshot()) || k == name
      ensures c != null ==> name in categories.M && categories.M[name] == c
      ensures c != null && name !in old(categories.M) ==>
                Settled(c.State()) && Obtained(c.State(), rules, name)
      ensures c == null ==> Snapshot() == old(Snapshot())
    {
      hide HashTable.Order, Apart, Contents, InPlace, Holds, Buckets;
      var found := categories.Get(name);
      if found.Some? {
        return found.value;
      }
      c := Category.Create(name, rules);
      if c != null {
        categories.Put(name, c);
      }
    }

    /** The table is in the middle of an iteration over these entries. */
    ghost predicate Iterating(order: seq<Entry<string, Category>>, names: seq<string>)
      reads categories, categories.tab, Members(categories.chains), order
    {
      Valid() && order == categories.Order() && Located(order, names, categories.M)
    }

    /** Where an iteration stands. */
    lemma {:induction false} Here(order: seq<Entry<string, Category>>, names: seq<string>, i: nat)
      requires Iterating(order, names) && i <= |names|
      ensures Valid() && |names| == |order| && (At(order, i) == null <==> i == |names|)
      ensures i < |names| ==> At(order, i) == order[i] && names[i] in categories.M
      ensures i < |names| ==> order[i].value == categories.M[names[i]] && order[i].value.name == names[i]
    {
      hide HashTable.Valid;
    }

    lemma {:induction false} SnapshotKeys()
      ensures Snapshot().Keys == categories.M.Keys
    {
    }

    method Begin(ghost order: seq<Entry<string, Category>>, ghost names: seq<string>)
      returns (e: Entry?<string, Category>)
      requires Iterating(order, names)
      ensures Iterating(order, names) && categories.M == old(categories.M) && Snapshot() == old(Snapshot())
      ensures e == At(order, 0)
    {
      hide Apart, Members, Contents, InPlace, Holds, Buckets, Flat;
      e := categories.Begin();
    }

    method Next(e: Entry<string, Category>, ghost i: nat, ghost order: seq<Entry<string, Category>>,
                ghost names: seq<string>)
      returns (next: Entry?<string, Category>)
      requires Iterating(order, names) && i < |order| && e == order[i]
      ensures Iterating(order, names) && categories.M == old(categories.M) && Snapshot() == old(Snapshot())
      ensures next == At(order, i + 1)
    {
      hide Apart, Members, Contents, InPlace, Holds, Buckets, Flat;
      next := categories.Next(e, i);
    }

    /** The body of the commit's loop; it leaves the table's own structure alone. */
    method CommitOne(c: Category, ghost order: seq<Entry<string, Category>>, ghost names: seq<string>)
      requires Iterating(order, names) && c.name in categories.M && categories.M[c.name] == c
      modifies c
      ensures Iterating(order, names) && categories.M == old(categories.M)
      ensures Snapshot() == old(Snapshot())[c.name := Committed(old(Snapshot())[c.name])]
    {
      hide Apart, Contents, InPlace, Holds, Buckets, Flat;
      assert forall x :: x in Members(categories.chains) ==> x as object != c;
      assert forall j :: 0 <= j < |order| ==> order[j] as object != c;
      c.CommitRules();
    }

    /** The body of the rollback's loop; it leaves the table's own structure alone. */
    method RollbackOne(c: Category, ghost order: seq<Entry<string, Category>>, ghost names: seq<string>)
      requires Iterating(order, names) && c.name in categories.M && categories.M[c.name] == c
      modifies c
      ensures Iterating(order, names) && categories.M == old(categories.M)
      ensures Snapshot() == old(Snapshot())[c.name := RolledBack(old(Snapshot())[c.name])]
    {
      hide Apart, Contents, InPlace, Holds, Buckets, Flat;
      assert forall x :: x in Members(categories.chains) ==> x as object != c;
      assert forall j :: 0 <= j < |order| ==> order[j] as object != c;
      c.RollbackRules();
    }

    /** The body of the update's loop; it leaves the table's own structure alone. */
    method UpdateOne(c: Category, rules: seq<Rule>, ghost order: seq<Entry<string, Category>>, ghost names: seq<string>)
      returns (rc: int)
      requires Named(rules)
      requires Iterating(order, names) && c.name in categories.M && categories.M[c.name] == c
      modifies c
      ensures Iterating(order, names) && categories.M == old(categories.M)
      ensures rc == 0 || rc == -1
      ensures Snapshot() == old(Snapshot())[c.name := c.State()]
      ensures Updated(old(c.State()), c.State(), rules, c.name, rc == 0)
    {
      hide Apart, Contents, InPlace, Holds, Buckets, Flat;
      assert forall x :: x in Members(categories.chains) ==> x as object != c;
      assert forall j :: 0 <= j < |order| ==> order[j] as object != c;
      rc := c.UpdateRules(rules);
    }

    method UpdateAt(c: Category, ghost i: nat, rules: seq<Rule>, ghost order: seq<Entry<string, Category>>,
                    ghost names: seq<string>)
      returns (rc: int)
      requires Named(rules) && Iterating(order, names) && i < |names|
      requires names[i] in categories.M && categories.M[names[i]] == c && c.name == names[i]
      modifies c
      ensures Iterating(order, names) && categories.M == old(categories.M)
      ensures rc == 0 || rc == -1
      ensures names[i] in old(Snapshot()) && old(Snapshot()).Keys == Snapshot().Keys
      ensures Updated(old(Snapshot())[names[i]], Snapshot()[names[i]], rules, names[i], rc == 0)
      ensures Snapshot() == old(Snapshot())[names[i] := Snapshot()[names[i]]]
    {
      hide Iterating, Updated, Snapshot;
      SnapshotAt(c);
      rc := UpdateOne(c, rules, order, names);
    }

    method CommitRules()
      requires Valid()
      modifies categories.M.Values
      ensures Valid() && Snapshot() == TableCommitted(old(Snapshot()))
    {
      hide HashTable.Valid, HashTable.Order, Iterating, Members, Committed, At, Located, Snapshot;
      ghost var was, m, order := Snapshot(), categories.M, categories.Order();
      SnapshotKeys();
      ghost var names := ListNames(order);
      var e := Begin(order, names);
      ghost var i, now := 0, was;
      while e != null
        invariant Iterating(order, names) && categories.M == m && Snapshot() == now
        invariant i <= |names| && e == At(order, i) && now.Keys == was.Keys
        invariant forall j :: 0 <= j < |names| ==>
          now[names[j]] == if j < i then Committed(was[names[j]]) else was[names[j]]
        decreases |names| - i
      {
        Here(order, names, i);
        CommitOne(e.value, order, names);
        now := now[names[i] := Committed(was[names[i]])];
        e := Next(e, i, order, names);
        i := i + 1;
      }
      Here(order, names, i);
    }

    method RollbackRules()
      requires Valid()
      modifies categories.M.Values
      ensures Valid() && Snapshot() == TableRolledBack(old(Snapshot()))
    {
      hide HashTable.Valid, HashTable.Order, Iterating, Members, RolledBack, At, Located, Snapshot;
      ghost var was, m, order := Snapshot(), categories.M, categories.Order();
      SnapshotKeys();
      ghost var names := ListNames(order);
      var e := Begin(order, names);
      ghost var i, now := 0, was;
      while e != null
        invariant Iterating(order, names) && categories.M == m && Snapshot() == now
        invariant i <= |names| && e == At(order, i) && now.Keys == was.Keys
        invariant forall j :: 0 <= j < |names| ==>
          now[names[j]] == if j < i then RolledBack(was[names[j]]) else was[names[j]]
        decreases |names| - i
      {
        Here(order, names, i);
        RollbackOne(e.value, order, names);
        now := now[names[i] := RolledBack(was[names[i]])];
        e := Next(e, i, order, names);
        i := i + 1;
      }
      Here(order, names, i);
    }

    /** zlog_category_table_update_rules: stops at the first category that fails. */
    method UpdateRules(rules: seq<Rule>) returns (rc: int, ghost names: seq<string>, ghost done: nat)
      requires Valid() && Named(rules)
      modifies categories.M.Values
      ensures Valid() && Lists(names, Snapshot()) && old(Snapshot()).Keys == Snapshot().Keys
      ensures TableUpdated(old(Snapshot()), Snapshot(), names, rules, done)
      ensures rc == if done == |names| then 0 else -1
      ensures done <= |names|
    {
      hide HashTable.Valid, HashTable.Order, Iterating, Members, Updated, At, Located, Snapshot, TableUpdated;
      ghost var was, m, order := Snapshot(), categories.M, categories.Order();
      SnapshotKeys();
      names := ListNames(order);
      var e := Begin(order, names);
      ghost var now := was;
      done := 0;
      while e != null
        invariant Iterating(order, names) && categories.M == m && Snapshot() == now
        invariant done <= |names| && e == At(order, done) && now.Keys == was.Keys
        invariant forall j :: 0 <= j < done ==> Updated(was[names[j]], now[names[j]], rules, names[j], true)
        invariant forall j :: done <= j < |names| ==> now[names[j]] == was[names[j]]
        decreases |names| - done
      {
        Here(order, names, done);
        rc := UpdateAt(e.value, done, rules, order, names);
        now := Snapshot();
        if rc != 0 {
          Here(order, names, done);
          StoppedAt(was, now, names, rules, done);
          return -1, names, done;
        }
        e := Next(e, done, order, names);
        done := done + 1;
      }
      Here(order, names, done);
      StoppedAt(was, now, names, rules, done);
      rc := 0;
    }

    /** What the error path of zlog_reload is written for: an update, complete or not, is undone. */
    method UpdateAndRollback(rules: seq<Rule>) returns (rc: int)
      requires Valid() && Named(rules)
      modifies categories.M.Values
      ensures Valid()
      ensures AllSettled(old(Snapshot())) ==> Snapshot() == old(Snapshot())
    {
      hide HashTable.Valid, Members, Snapshot, TableUpdated, TableRolledBack;
      ghost var was := Snapshot();
      ghost var names, done;
      rc, names, done := UpdateRules(rules);
      ghost var now := Snapshot();
      if AllSettled(was) {
        TableRollbackUndoes(was, now, names, rules, done);
      }
      RollbackRules();
    }

    /** The part of zlog_reload that concerns the categories: a complete update is committed; one
        that stops is left where it stopped, because the mark that asks for a rollback is only
        set by a complete one. */
    method Reload(rules: seq<Rule>) returns (rc: int, ghost names: seq<string>, ghost done: nat)
      requires Valid() && Named(rules)
      modifies categories.M.Values
      ensures Valid() && old(Snapshot()).Keys == Snapshot().Keys && Lists(names, Snapshot())
      ensures done <= |names| && rc == if done == |names| then 0 else -1
      ensures rc != 0 ==> TableUpdated(old(Snapshot()), Snapshot(), names, rules, done)
      ensures AllSettled(old(Snapshot())) ==> (rc == 0 <==> AllSettled(Snapshot()))
      ensures AllSettled(old(Snapshot())) && rc == 0 ==>
                forall k :: k in Snapshot() ==> Obtained(Snapshot()[k], rules, k)
    {
      hide HashTable.Valid, Members, Snapshot, TableUpdated, TableCommitted, Obtained, AllSettled;
      ghost var was := Snapshot();
      rc, names, done := UpdateRules(rules);
      ghost var now := Snapshot();
      if rc != 0 {
        if AllSettled(was) {
          StoppedIsUnsettled(was, now, names, rules, done);
        }
        return;
      }
      if AllSettled(was) {
        CommitSettles(was, now, names, rules);
      }
      CommittedKeys(now);
      CommitRules();
    }

    lemma {:induction false} SnapshotAt(c: Category)
      requires c.name in categories.M && categories.M[c.name] == c
      ensures c.name in Snapshot() && Snapshot()[c.name] == c.State()
    {
    }
  }

  lemma {:induction false} StoppedAt(was: Snapshot, now: Snapshot, order: seq<string>, rules: seq<Rule>, done: nat)
    requires Named(rules) && was.Keys == now.Keys && (forall k :: k in order ==> k in was) && done <= |order|
    requires forall i :: 0 <= i < done ==> Updated(was[order[i]], now[order[i]], rules, order[i], true)
    requires done < |order| ==> Updated(was[order[done]], now[order[done]], rules, order[done], false)
    requires forall i :: done < i < |order| ==> now[order[i]] == was[order[i]]
    ensures TableUpdated(was, now, order, rules, done)
  {
  }

  lemma {:induction false} LocatedAll<V>(order: seq<Entry<string, V>>, names: seq<string>, m: map<string, V>)
    requires |names| == |order|
    requires forall i :: 0 <= i < |names| ==> names[i] in m && order[i].value == m[names[i]]
    ensures Located(order, names, m)
  {
  }
}

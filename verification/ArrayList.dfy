/**
  The growable array of zlog: set and add grow it, sortadd keeps it sorted.
 */
module ArrayList {
  import opened Wrappers

  /** A slot of the array: a pointer, or NULL. */
  datatype Slot<+T> = Null | Ptr(value: T)

  function Ptrs<T>(s: seq<T>): (r: seq<Slot<T>>)
    ensures |r| == |s| && forall i :: 0 <= i < |r| ==> r[i] == Ptr(s[i])
  {
    seq(|s|, i requires 0 <= i < |s| => Ptr(s[i]))
  }

  /** The list with NULL slots up to length n. */
  function Padded<T>(s: seq<Slot<T>>, n: nat): (r: seq<Slot<T>>)
    ensures |r| == Max(|s|, n) && s <= r && forall i :: |s| <= i < |r| ==> r[i] == Null
  {
    if n <= |s| then s else s + seq(n - |s|, _ => Null)
  }

  // ------------------------------------------------------------- sorted insertion

  predicate SortedBy<T>(over: (T, T) -> bool, s: seq<T>) {
    forall i, j :: 0 <= i < j < |s| ==> !over(s[i], s[j])
  }

  /** Before which element sortadd puts x: the first one that is over it. */
  function Place<T>(over: (T, T) -> bool, s: seq<T>, x: T): (i: nat)
    ensures i <= |s|
  {
    if s == [] || over(s[0], x) then 0 else Place(over, s[1..], x) + 1
  }

  function Inserted<T>(over: (T, T) -> bool, s: seq<T>, x: T): seq<T> {
    var i := Place(over, s, x);
    s[..i] + [x] + s[i..]
  }

  lemma {:induction false} PlaceSpec<T>(over: (T, T) -> bool, s: seq<T>, x: T)
    ensures var i := Place(over, s, x);
            && (forall k :: 0 <= k < i ==> !over(s[k], x))
            && (i < |s| ==> over(s[i], x))
  {
    if s != [] && !over(s[0], x) {
      PlaceSpec(over, s[1..], x);
      assert forall k :: 1 <= k < |s| ==> s[k] == s[1..][k - 1];
    }
  }

  /** What "greater than" gives the sort: no cycles, and not-over is transitive. */
  ghost predicate WeakOrder<T(!new)>(over: (T, T) -> bool) {
    && (forall a, b :: over(a, b) ==> !over(b, a))
    && (forall a, b, c :: over(a, c) ==> over(a, b) || over(b, c))
  }

  /** Insertion keeps a list sorted and adds just the new element. */
  lemma {:induction false} InsertedSorts<T(!new)>(over: (T, T) -> bool, s: seq<T>, x: T)
    requires WeakOrder(over) && SortedBy(over, s)
    ensures SortedBy(over, Inserted(over, s, x))
  {
    PlaceSpec(over, s, x);
    var i := Place(over, s, x);
    var r := Inserted(over, s, x);
    forall a, b | 0 <= a < b < |r| ensures !over(r[a], r[b]) {
      if a == i {
        assert r[b] == s[b - 1] && over(s[i], x) && (b - 1 == i || !over(s[i], s[b - 1]));
      } else if b != i {
        var a0, b0 := if a < i then a else a - 1, if b < i then b else b - 1;
        assert r[a] == s[a0] && r[b] == s[b0];
      }
    }
  }

  lemma {:induction false} InsertedAdds<T>(over: (T, T) -> bool, s: seq<T>, x: T)
    ensures multiset(Inserted(over, s, x)) == multiset(s) + multiset{x}
  {
    var i := Place(over, s, x);
    assert s == s[..i] + s[i..];
  }

  lemma {:induction false} PtrsInserted<T>(over: (T, T) -> bool, s: seq<T>, x: T)
    ensures var i := Place(over, s, x);
            && Ptrs(Inserted(over, s, x)) == Ptrs(s)[..i] + [Ptr(x)] + Ptrs(s)[i..]
  {
    hide Ptrs, Place;
    var i := Place(over, s, x);
    IsInserted(Ptrs(s), Ptrs(Inserted(over, s, x)), i, Ptr(x));
  }

  lemma {:induction false} IsInserted<X>(was: seq<X>, now: seq<X>, idx: nat, x: X)
    requires idx <= |was| && |now| == |was| + 1
    requires now[..idx] == was[..idx] && now[idx] == x
    requires forall k :: idx < k < |now| ==> now[k] == was[k - 1]
    ensures now == was[..idx] + [x] + was[idx..]
  {
    var want := was[..idx] + [x] + was[idx..];
    forall k | 0 <= k < |now| ensures now[k] == want[k] {
      if k < idx {
        assert now[k] == now[..idx][k] && want[k] == was[..idx][k];
      } else if k > idx {
        assert want[k] == was[idx..][k - idx - 1];
      } else {
        assert (was[..idx] + [x])[k] == x;
      }
    }
  }

  // ------------------------------------------------------------- the list

  class ArrayList<T> {
    var data: array<Slot<T>>
    var len: nat

    ghost predicate Valid()
      reads this, data
    {
      len <= data.Length && data.Length > 0 && forall i :: len <= i < data.Length ==> data[i] == Null
    }

    ghost function Contents(): seq<Slot<T>>
      requires Valid()
      reads this, data
    {
      data[..len]
    }

    constructor ()
      ensures Valid() && fresh(data) && Contents() == [] && data.Length == 32
    {
      data := new Slot<T>[32](_ => Null);
      len := 0;
    }

    /** expand_inner: at least doubles the array; the new slots are NULL. */
    method Expand(max: nat)
      requires Valid()
      modifies this
      ensures Valid() && fresh(data) && len == old(len)
      ensures data.Length == Max(old(data.Length) * 2, max)
      ensures Contents() == old(Contents())
    {
      var size := Max(data.Length * 2, max);
      var more := new Slot<T>[size](_ => Null);
      var i := 0;
      while i < data.Length
        invariant i <= data.Length && data == old(data) && len == old(len) && Valid()
        invariant data[..] == old(data[..])
        invariant forall k :: 0 <= k < size ==> more[k] == if k < i then data[k] else Null
      {
        more[i] := data[i];
        i := i + 1;
      }
      data := more;
    }

    /** Stores at idx, growing the array; a growth reaches idx only if idx is below twice its size. */
    method Set(idx: nat, x: Slot<T>)
      requires Valid() && idx < 2 * data.Length
      modifies this, data
      ensures Valid() && (data == old(data) || fresh(data))
      ensures Contents() == Padded(old(Contents()), idx + 1)[idx := x]
    {
      if idx > data.Length - 1 {
        Expand(idx);
      }
      data[idx] := x;
      if len <= idx {
        len := idx + 1;
      }
    }

    method Add(x: T)
      requires Valid()
      modifies this, data
      ensures Valid() && (data == old(data) || fresh(data))
      ensures Contents() == old(Contents()) + [Ptr(x)]
    {
      Set(len, Ptr(x));
    }

    /** Moves the elements from idx on up by one. */
    method MoveUp(idx: nat)
      requires idx <= len < data.Length
      modifies data
      ensures forall k :: 0 <= k < data.Length ==>
                data[k] == if idx < k <= len then old(data[k - 1]) else old(data[k])
    {
      var i := len;
      while i > idx
        invariant idx <= i <= len
        invariant forall k :: 0 <= k < data.Length ==>
                    data[k] == if i < k <= len then old(data[k - 1]) else old(data[k])
      {
        data[i] := data[i - 1];
        i := i - 1;
      }
    }

    /** insert_inner: fills a NULL slot, or moves the rest up by one. */
    method InsertInner(idx: nat, x: T)
      requires Valid() && idx < len
      modifies this, data
      ensures Valid() && (data == old(data) || fresh(data))
      ensures var was := old(Contents());
              Contents() == if was[idx] == Null then was[idx := Ptr(x)]
                            else was[..idx] + [Ptr(x)] + was[idx..]
    {
      if data[idx] == Null {
        data[idx] := Ptr(x);
        return;
      }
      if len > data.Length - 1 {
        Expand(0);
      }
      ghost var was := Contents();
      MoveUp(idx);
      data[idx] := Ptr(x);
      len := len + 1;
      assert data[..len][..idx] == was[..idx] && forall k :: idx < k < len ==> data[..len][k] == was[k - 1];
      IsInserted(was, data[..len], idx, Ptr(x));
    }

    /** sortadd on a list without NULLs. */
    method SortAdd(over: (T, T) -> bool, x: T, ghost items: seq<T>)
      requires Valid() && Contents() == Ptrs(items)
      modifies this, data
      ensures Valid() && (data == old(data) || fresh(data))
      ensures Contents() == Ptrs(Inserted(over, items, x))
    {
      var i := 0;
      PlaceSpec(over, items, x);
      while i < len && !over(data[i].value, x)
        invariant i <= len == |items| && i <= Place(over, items, x)
        invariant forall k :: 0 <= k < len ==> data[k] == Ptr(items[k])
      {
        i := i + 1;
      }
      assert i == Place(over, items, x);
      PtrsInserted(over, items, x);
      hide Inserted, Place;
      if i == len {
        assert Contents()[..i] == Contents() && Contents()[i..] == [];
        Add(x);
      } else {
        InsertInner(i, x);
      }
    }
  }
}

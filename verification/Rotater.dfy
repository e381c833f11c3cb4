/**
  Log archive rotation: the archives are listed in the order of their numbers, and then
  either rolled up by one or left behind under growing numbers.
 */
module Rotater {
  import opened ArrayList
  import opened Wrappers

  /** The archives of one log, by number. */
  type Archives<!C> = map<nat, C>

  /** The ascending list of the archives' numbers. */
  ghost predicate Listing<C>(files: seq<nat>, fs: Archives<C>) {
    && (forall i, j :: 0 <= i < j < |files| ==> files[i] < files[j])
    && (forall k :: k in files <==> k in fs)
  }

  /** The numbers below n. */
  function UpTo(n: nat): (s: set<nat>)
    ensures forall k :: k in s <==> 0 <= k < n
  {
    if n == 0 then {} else UpTo(n - 1) + {n - 1}
  }

  // ------------------------------------------------------------- rolling

  /** How many of n listed archives a rolling rotation keeps; no limit when max is not positive. */
  function Keep(n: nat, max: int): nat {
    if max > 0 && n >= max then max - 1 else n
  }

  /** rename(2): an archive of the new number is replaced. */
  function Rename<C>(fs: Archives<C>, from: nat, to: nat): Archives<C>
    requires from in fs
  {
    (fs - {from})[to := fs[from]]
  }

  /** One turn of the loop of roll_files: the n-th listed archive is removed or takes place n. */
  function Turn<C>(fs: Archives<C>, files: seq<nat>, keep: nat, n: nat): Archives<C>
    requires 0 < n <= |files| && files[n - 1] in fs
  {
    if n > keep then fs - {files[n - 1]} else Rename(fs, files[n - 1], n)
  }

  /** What the loop holds when it comes to place n, from the highest place downwards. */
  function Before<C>(fs: Archives<C>, files: seq<nat>, keep: nat, n: nat): (g: Archives<C>)
    requires n <= |files| && forall i :: 0 <= i < |files| ==> files[i] in fs
    requires forall i, j :: 0 <= i < j < |files| ==> files[i] < files[j]
    ensures forall i :: 0 <= i < n ==> files[i] in g
    decreases |files| - n
  {
    if n == |files| then fs else Turn(Before(fs, files, keep, n + 1), files, keep, n + 1)
  }

  /** The archives after roll_files. */
  function Rolled<C>(fs: Archives<C>, files: seq<nat>, keep: nat, base: C): Archives<C>
    requires forall i :: 0 <= i < |files| ==> files[i] in fs
    requires forall i, j :: 0 <= i < j < |files| ==> files[i] < files[j]
  {
    Before(fs, files, keep, 0)[0 := base]
  }

  /** The archive that is k-th in the list, counted from one. */
  function Nth<C>(fs: Archives<C>, files: seq<nat>, k: nat): C
    requires 1 <= k <= |files| && files[k - 1] in fs
  {
    fs[files[k - 1]]
  }

  /** The lowest archives, each one number above its place in the list, behind the new one. */
  function Shifted<C>(fs: Archives<C>, files: seq<nat>, keep: nat, base: C): Archives<C>
    requires keep <= |files| && forall i :: 0 <= i < |files| ==> files[i] in fs
  {
    var places := UpTo(keep + 1);
    map k | k in places :: if k == 0 then base else Nth(fs, files, k)
  }

  /** No kept archive has a number that a higher one is about to take. */
  predicate NoClash(files: seq<nat>, keep: nat)
    requires keep <= |files|
  {
    forall j :: 0 <= j < keep ==> files[j] <= j + 1 || files[j] > keep
  }

  /** What is there when the archives from place n on have been moved or removed. */
  ghost function Halfway<C>(fs: Archives<C>, files: seq<nat>, keep: nat, n: nat): Archives<C>
    requires keep <= |files| && n <= |files| && forall i :: 0 <= i < |files| ==> files[i] in fs
  {
    var low := set k | k in files[..n];
    var numbers := low + (UpTo(keep + 1) - UpTo(n + 1));
    map k | k in numbers :: if n < k <= keep then Nth(fs, files, k) else fs[k]
  }

  lemma {:induction false} HalfwayUnlink<C>(fs: Archives<C>, files: seq<nat>, keep: nat, n: nat)
    requires Listing(files, fs) && keep < n <= |files|
    ensures files[n - 1] in Halfway(fs, files, keep, n)
    ensures Halfway(fs, files, keep, n) - {files[n - 1]} == Halfway(fs, files, keep, n - 1)
  {
    hide Halfway, Nth;
    var f := files[n - 1];
    var g, want := Halfway(fs, files, keep, n), Halfway(fs, files, keep, n - 1);
    LastOfPrefix(files, n);
    HalfwayAt(fs, files, keep, n, f);
    forall k: nat
      ensures k in g - {f} <==> k in want
      ensures k in want ==> g[k] == want[k]
    {
      HalfwayAt(fs, files, keep, n, k);
      HalfwayAt(fs, files, keep, n - 1, k);
    }
  }

  lemma {:induction false} LastOfPrefix(files: seq<nat>, n: nat)
    requires 0 < n <= |files| && forall i, j :: 0 <= i < j < |files| ==> files[i] < files[j]
    ensures forall k :: k in files[..n] <==> k in files[..n - 1] || k == files[n - 1]
    ensures files[n - 1] !in files[..n - 1]
  {
    assert files[..n] == files[..n - 1] + [files[n - 1]];
  }

  lemma {:induction false} HalfwayRename<C>(fs: Archives<C>, files: seq<nat>, keep: nat, n: nat)
    requires Listing(files, fs) && 0 < n <= keep <= |files| && NoClash(files, keep)
    ensures files[n - 1] in Halfway(fs, files, keep, n)
    ensures Rename(Halfway(fs, files, keep, n), files[n - 1], n) == Halfway(fs, files, keep, n - 1)
  {
    hide Halfway;
    var f := files[n - 1];
    var g, want := Halfway(fs, files, keep, n), Halfway(fs, files, keep, n - 1);
    LastOfPrefix(files, n);
    NoneAtPlace(files, keep, n);
    HalfwayAt(fs, files, keep, n, f);
    var moved := Rename(g, f, n);
    forall k: nat
      ensures k in moved <==> k in want
      ensures k in moved ==> moved[k] == want[k]
    {
      HalfwayAt(fs, files, keep, n, k);
      HalfwayAt(fs, files, keep, n - 1, k);
    }
  }

  lemma {:induction false} NoneAtPlace(files: seq<nat>, keep: nat, n: nat)
    requires 0 < n <= keep <= |files| && NoClash(files, keep)
    ensures n !in files[..n - 1]
  {
    assert forall j :: 0 <= j < n - 1 ==> files[j] != n;
  }

  lemma {:induction false} HalfwayAt<C>(fs: Archives<C>, files: seq<nat>, keep: nat, n: nat, k: nat)
    requires keep <= |files| && n <= |files| && forall i :: 0 <= i < |files| ==> files[i] in fs
    ensures var g := Halfway(fs, files, keep, n);
            && (k in g <==> k in files[..n] || n < k <= keep)
            && (k in g ==> g[k] == if n < k <= keep then Nth(fs, files, k) else fs[k])
  {
  }

  /** Without a clash the loop keeps to that form. */
  lemma {:induction false} BeforeIsHalfway<C>(fs: Archives<C>, files: seq<nat>, keep: nat, n: nat)
    requires Listing(files, fs) && keep <= |files| && NoClash(files, keep) && n <= |files|
    ensures Before(fs, files, keep, n) == Halfway(fs, files, keep, n)
    decreases |files| - n
  {
    hide Halfway, NoClash;
    if n == |files| {
      HalfwayWhole(fs, files, keep);
    } else {
      BeforeIsHalfway(fs, files, keep, n + 1);
      if n + 1 > keep {
        HalfwayUnlink(fs, files, keep, n + 1);
      } else {
        HalfwayRename(fs, files, keep, n + 1);
      }
    }
  }

  /** An archive that has moved downwards leaves its number for good. */
  lemma {:induction false} ClashDrops<C>(fs: Archives<C>, files: seq<nat>, keep: nat, n: nat, j: nat)
    requires Listing(files, fs) && n <= j < |files| && files[j] > j + 1
    ensures files[j] !in Before(fs, files, keep, n)
    decreases j - n
  {
    if n < j {
      ClashDrops(fs, files, keep, n + 1, j);
    }
  }

  /** Number 0, which the log takes last, is free by then. */
  lemma {:induction false} ZeroIsFree<C>(fs: Archives<C>, files: seq<nat>, keep: nat, n: nat)
    requires Listing(files, fs) && n <= |files|
    ensures 0 in Before(fs, files, keep, n) ==> n > 0 && files[0] == 0
    decreases |files| - n
  {
    if n == |files| {
      assert 0 in fs ==> 0 in files;
    } else {
      ZeroIsFree(fs, files, keep, n + 1);
    }
  }

  lemma {:induction false} ClearWithoutClash<C>(fs: Archives<C>, files: seq<nat>, keep: nat, n: nat)
    requires Listing(files, fs) && 0 < n <= keep <= |files| && NoClash(files, keep)
    requires n in Before(fs, files, keep, n)
    ensures files[n - 1] == n
  {
    hide Before, Halfway;
    BeforeIsHalfway(fs, files, keep, n);
    HalfwayAt(fs, files, keep, n, n);
    var i :| 0 <= i < n && files[i] == n;
  }

  /** No rename of the loop lands on an archive that is still there, other than itself,
      exactly when no number clashes. */
  lemma {:induction false} RenamesAreClear<C>(fs: Archives<C>, files: seq<nat>, keep: nat)
    requires Listing(files, fs) && keep <= |files|
    ensures (forall n :: 0 < n <= keep && n in Before(fs, files, keep, n) ==> files[n - 1] == n)
            <==> NoClash(files, keep)
    ensures 0 !in Before(fs, files, keep, 0)
  {
    hide Before;
    ZeroIsFree(fs, files, keep, 0);
    if NoClash(files, keep) {
      forall n | 0 < n <= keep && n in Before(fs, files, keep, n) ensures files[n - 1] == n {
        ClearWithoutClash(fs, files, keep, n);
      }
    } else {
      var j :| 0 <= j < keep && j + 1 < files[j] <= keep;
      assert files[j] in Before(fs, files, keep, files[j]);
    }
  }

  /** Such a rename loses an archive: the higher of two takes the place where the lower still is. */
  lemma {:induction false} RollingLoses<C>(a: C, b: C, c: C)
    ensures var fs, files := map[2 := a, 3 := b], [2, 3];
            Listing(files, fs) && Rolled(fs, files, Keep(|files|, 0), c) == map[0 := c, 1 := b]
  {
    var fs, files: seq<nat> := map[2 := a, 3 := b], [2, 3];
    assert Before(fs, files, 2, 2) == fs;
    assert Before(fs, files, 2, 1) == map[2 := b];
    assert Before(fs, files, 2, 0) == map[1 := b];
  }

  lemma {:induction false} RollShiftsIf<C>(fs: Archives<C>, files: seq<nat>, keep: nat, base: C)
    requires Listing(files, fs) && keep <= |files| && NoClash(files, keep)
    ensures Rolled(fs, files, keep, base) == Shifted(fs, files, keep, base)
  {
    hide Halfway, Shifted, Before, NoClash;
    HalfwayEnds(fs, files, keep, base);
    BeforeIsHalfway(fs, files, keep, 0);
  }

  lemma {:induction false} HalfwayWhole<C>(fs: Archives<C>, files: seq<nat>, keep: nat)
    requires Listing(files, fs) && keep <= |files|
    ensures Halfway(fs, files, keep, |files|) == fs
  {
    hide Halfway, Nth;
    assert files[..|files|] == files;
    var whole := Halfway(fs, files, keep, |files|);
    forall k: nat
      ensures k in whole <==> k in fs
      ensures k in fs ==> whole[k] == fs[k]
    {
      HalfwayAt(fs, files, keep, |files|, k);
    }
  }

  lemma {:induction false} HalfwayEnds<C>(fs: Archives<C>, files: seq<nat>, keep: nat, base: C)
    requires Listing(files, fs) && keep <= |files|
    ensures Halfway(fs, files, keep, 0)[0 := base] == Shifted(fs, files, keep, base)
  {
    hide Halfway, Shifted, Nth;
    var moved := Halfway(fs, files, keep, 0)[0 := base];
    ShiftedAt(fs, files, keep, base);
    forall k: nat
      ensures k in moved <==> k <= keep
      ensures k in moved ==> moved[k] == if k == 0 then base else Nth(fs, files, k)
    {
      HalfwayAt(fs, files, keep, 0, k);
    }
  }

  /** A rolling rotation moves every kept archive up by one place, and loses none,
      exactly when no number clashes. */
  lemma {:induction false} RollShifts<C>(fs: Archives<C>, files: seq<nat>, max: int, base: C)
    requires Listing(files, fs)
    ensures var keep := Keep(|files|, max);
            Rolled(fs, files, keep, base) == Shifted(fs, files, keep, base) <==> NoClash(files, keep)
  {
    hide Before;
    var keep := Keep(|files|, max);
    if NoClash(files, keep) {
      RollShiftsIf(fs, files, keep, base);
    } else {
      var j :| 0 <= j < keep && j + 1 < files[j] <= keep;
      ClashDrops(fs, files, keep, 0, j);
      assert files[j] in Shifted(fs, files, keep, base);
    }
  }

  // ------------------------------------------------------------- sequence numbers

  /** seq_files: removes all but the newest max archives; none when max is not positive. */
  function Dropped(n: nat, max: int): nat {
    if max > 0 && n > max then n - max else 0
  }

  /** The number of the next archive. */
  function NextNumber(files: seq<nat>): nat {
    if files == [] then 0 else Max(|files| - 1, files[|files| - 1]) + 1
  }

  /** The numbers from place i up to place j of the list. */
  function Span(files: seq<nat>, i: nat, j: nat): (s: set<nat>)
    requires i <= j <= |files|
  {
    if i == j then {} else Span(files, i, j - 1) + {files[j - 1]}
  }

  lemma {:induction false} SpanAt(files: seq<nat>, i: nat, j: nat)
    requires i <= j <= |files|
    ensures |Span(files, i, j)| <= j - i
    ensures forall p :: i <= p < j ==> files[p] in Span(files, i, j)
    ensures forall k :: k in Span(files, i, j) ==> exists p :: i <= p < j && files[p] == k
  {
    if i < j {
      SpanAt(files, i, j - 1);
    }
  }

  function Sequenced<C>(fs: Archives<C>, files: seq<nat>, max: int, base: C): Archives<C> {
    (fs - Span(files, 0, Dropped(|files|, max)))[NextNumber(files) := base]
  }

  lemma {:induction false} NextExceedsAll<C>(fs: Archives<C>, files: seq<nat>)
    requires Listing(files, fs)
    ensures forall k :: k in fs ==> k < NextNumber(files)
  {
    forall k | k in fs ensures k < NextNumber(files) {
      var i :| 0 <= i < |files| && files[i] == k;
    }
  }

  lemma {:induction false} SurvivesIffNewest<C>(fs: Archives<C>, files: seq<nat>, max: int, base: C, i: nat)
    requires Listing(files, fs) && i < |files|
    ensures var after := Sequenced(fs, files, max, base);
            && (files[i] in after <==> i >= Dropped(|files|, max))
            && (files[i] in after ==> after[files[i]] == fs[files[i]])
  {
    var d := Dropped(|files|, max);
    NextExceedsAll(fs, files);
    SpanAt(files, 0, d);
  }

  lemma {:induction false} InKept<C>(fs: Archives<C>, files: seq<nat>, d: nat, k: nat)
    requires Listing(files, fs) && d <= |files| && k in fs && k !in Span(files, 0, d)
    ensures k in Span(files, d, |files|)
  {
    hide Span;
    var p := PlaceOf(files, fs, k);
    SpanAt(files, 0, d);
    SpanAt(files, d, |files|);
  }

  lemma {:induction false} FewRemain<C>(fs: Archives<C>, files: seq<nat>, max: int, base: C)
    requires Listing(files, fs) && max > 0
    ensures |Sequenced(fs, files, max, base)| <= max + 1
  {
    var d, next := Dropped(|files|, max), NextNumber(files);
    var after := Sequenced(fs, files, max, base);
    var kept := Span(files, d, |files|);
    SpanAt(files, d, |files|);
    assert after.Keys <= kept + {next} by {
      forall k | k in after && k != next ensures k in kept {
        InKept(fs, files, d, k);
      }
    }
    hide Sequenced, Span, NextNumber;
    SubsetIsSmaller(after.Keys, kept + {next});
    assert |kept + {next}| <= |kept| + 1;
    assert |after| == |after.Keys|;
  }

  /** The new number exceeds all there are; just the newest archives stay, as they were. */
  lemma {:induction false} SequenceKeepsNewest<C>(fs: Archives<C>, files: seq<nat>, max: int, base: C)
    requires Listing(files, fs)
    ensures var next := NextNumber(files);
            var after := Sequenced(fs, files, max, base);
            && (forall k :: k in fs ==> k < next)
            && next in after && after[next] == base
            && (forall i :: 0 <= i < |files| ==>
                  (files[i] in after <==> i >= Dropped(|files|, max))
                  && (files[i] in after ==> after[files[i]] == fs[files[i]]))
            && (forall k :: k in after ==> k == next || k in fs)
            && (max > 0 ==> |after| <= max + 1)
  {
    NextExceedsAll(fs, files);
    if max > 0 {
      FewRemain(fs, files, max, base);
    }
    var after := Sequenced(fs, files, max, base);
    assert NextNumber(files) in after && after[NextNumber(files)] == base;
    assert forall k :: k in after ==> k == NextNumber(files) || k in fs;
    hide Sequenced, NextNumber, Dropped;
    forall i | 0 <= i < |files|
      ensures (files[i] in after <==> i >= Dropped(|files|, max))
              && (files[i] in after ==> after[files[i]] == fs[files[i]])
    {
      SurvivesIffNewest(fs, files, max, base, i);
    }
  }

  // ------------------------------------------------------------- the rotater

  datatype MoveType = Rolling | Sequence

  /** One rotation of a log base takes the archives from fs to after. */
  ghost predicate Rotated<C>(fs: Archives<C>, after: Archives<C>, kind: MoveType, max: int, base: C) {
    exists files: seq<nat> :: Listing(files, fs) &&
      after == match kind
               case Rolling => Rolled(fs, files, Keep(|files|, max), base)
               case Sequence => Sequenced(fs, files, max, base)
  }

  predicate Higher(a: nat, b: nat) {
    a > b
  }

  class Rotater<C> {
    /** The archive files of the file system. */
    var archives: Archives<C>

    /** add_archive_files: sorts what the directory lists, in whatever order it comes. */
    method AddArchiveFiles(found: seq<nat>) returns (files: ArrayList<nat>, ghost list: seq<nat>)
      requires forall k :: k in found <==> k in archives
      requires forall i, j :: 0 <= i < j < |found| ==> found[i] != found[j]
      ensures fresh(files) && fresh(files.data) && files.Valid()
      ensures files.Contents() == Ptrs(list) && Listing(list, archives)
    {
      hide SortedBy, Inserted, Ptrs;
      files := new ArrayList<nat>();
      list := [];
      NothingFound(Higher);
      var i := 0;
      while i < |found|
        invariant i <= |found| && fresh(files) && fresh(files.data) && files.Valid()
        invariant files.Contents() == Ptrs(list) && SortedBy(Higher, list)
        invariant multiset(list) == multiset(found[..i])
      {
        InsertedSorts(Higher, list, found[i]);
        InsertedAdds(Higher, list, found[i]);
        NextFound(found, i);
        files.SortAdd(Higher, found[i], list);
        list := Inserted(Higher, list, found[i]);
        i := i + 1;
      }
      assert found[..i] == found;
      SortedIsListing(list, found, archives);
    }

    /** roll_files: from the highest archive down, unlinks it or moves it to its place plus one. */
    method RollFiles(files: ArrayList<nat>, ghost list: seq<nat>, max: int, base: C)
      requires files.Valid() && files.Contents() == Ptrs(list) && Listing(list, archives)
      modifies this
      ensures archives == Rolled(old(archives), list, Keep(|list|, max), base)
    {
      hide Before;
      ghost var was := archives;
      ghost var keep := Keep(|list|, max);
      BeforeStep(was, list, keep, |list|);
      var i := files.len - 1;
      while i > -1
        invariant -1 <= i < |list| == files.len && files.Valid() && files.Contents() == Ptrs(list)
        invariant archives == Before(was, list, keep, i + 1)
      {
        var index := files.data[i].value;
        assert index == list[i] by {
          assert files.Contents()[i] == Ptr(list[i]);
        }
        BeforeStep(was, list, keep, i);
        if max > 0 && i >= max - 1 {
          archives := archives - {index};
        } else {
          archives := Rename(archives, index, i + 1);
        }
        i := i - 1;
      }
      archives := archives[0 := base];
    }

    /** seq_files: unlinks the oldest archives and gives the log the next number. */
    method SeqFiles(files: ArrayList<nat>, ghost list: seq<nat>, max: int, base: C)
      requires files.Valid() && files.Contents() == Ptrs(list) && Listing(list, archives)
      modifies this
      ensures archives == Sequenced(old(archives), list, max, base)
    {
      hide Listing, Padded;
      ghost var was := archives;
      ghost var d := Dropped(|list|, max);
      var i := 0;
      while i < files.len
        invariant i <= |list| == files.len && files.Valid() && files.Contents() == Ptrs(list)
        invariant archives == was - Span(list, 0, if i < d then i else d)
      {
        var index := files.data[i].value;
        assert index == list[i] by {
          assert files.Contents()[i] == Ptr(list[i]);
        }
        if max > 0 && i < files.len - max {
          archives := archives - {index};
        }
        i := i + 1;
      }
      var j := 0;
      if files.len > 0 {
        assert files.Contents()[|list| - 1] == Ptr(list[|list| - 1]);
        j := Max(files.len - 1, files.data[files.len - 1].value) + 1;
      }
      assert j == NextNumber(list);
      hide Span, NextNumber;
      archives := archives[j := base];
    }

    /** lsmv: lists the archives and rotates the log into them. */
    method Rotate(kind: MoveType, max: int, found: seq<nat>, base: C)
      requires forall k :: k in found <==> k in archives
      requires forall i, j :: 0 <= i < j < |found| ==> found[i] != found[j]
      modifies this
      ensures Rotated(old(archives), archives, kind, max, base)
    {
      hide Rolled, Sequenced;
      var files, list := AddArchiveFiles(found);
      if kind == Rolling {
        RollFiles(files, list, max, base);
      } else {
        SeqFiles(files, list, max, base);
      }
    }
  }

  lemma {:induction false} BeforeStep<C>(fs: Archives<C>, files: seq<nat>, keep: nat, n: nat)
    requires Listing(files, fs) && n <= |files|
    ensures Before(fs, files, keep, n)
            == if n == |files| then fs else Turn(Before(fs, files, keep, n + 1), files, keep, n + 1)
  {
  }

  lemma {:induction false} NothingFound(over: (nat, nat) -> bool)
    ensures SortedBy(over, []) && Ptrs<nat>([]) == []
  {
  }

  lemma {:induction false} NextFound(found: seq<nat>, i: nat)
    requires i < |found|
    ensures multiset(found[..i + 1]) == multiset(found[..i]) + multiset{found[i]}
  {
    assert found[..i + 1] == found[..i] + [found[i]];
  }

  lemma {:induction false} SortedIsListing<C>(list: seq<nat>, found: seq<nat>, fs: Archives<C>)
    requires SortedBy(Higher, list) && multiset(list) == multiset(found)
    requires forall k :: k in found <==> k in fs
    requires forall i, j :: 0 <= i < j < |found| ==> found[i] != found[j]
    ensures Listing(list, fs)
  {
    forall k ensures k in list <==> k in found {
      assert k in list <==> k in multiset(list);
      assert k in found <==> k in multiset(found);
    }
    forall i, j | 0 <= i < j < |list| ensures list[i] < list[j] {
      assert !Higher(list[i], list[j]);
      if list[i] == list[j] {
        TwiceInMultiset(list, i, j);
        OnceInMultiset(found, list[i]);
      }
    }
  }

  lemma {:induction false} TwiceInMultiset(s: seq<nat>, i: nat, j: nat)
    requires i < j < |s| && s[i] == s[j]
    ensures multiset(s)[s[i]] >= 2
  {
    assert s == s[..i] + [s[i]] + s[i + 1..j] + [s[j]] + s[j + 1..];
  }

  lemma {:induction false} OnceInMultiset(s: seq<nat>, x: nat)
    requires forall i, j :: 0 <= i < j < |s| ==> s[i] != s[j]
    ensures multiset(s)[x] <= 1
  {
    if s != [] {
      var n := |s| - 1;
      OnceInMultiset(s[..n], x);
      assert s == s[..n] + [s[n]];
      assert s[n] !in s[..n];
    }
  }

  // ------------------------------------------------------------- histories of rotations

  /** The archives after each of the rotations that put away the logs, starting with none. */
  ghost predicate History<C>(states: seq<Archives<C>>, logs: seq<C>, kind: MoveType, max: int) {
    && |states| == |logs| + 1 && states[0] == map[]
    && forall k :: 0 <= k < |logs| ==> Rotated(states[k], states[k + 1], kind, max, logs[k])
  }

  /** The archives are numbered from lo up to hi, without a gap. */
  ghost predicate Numbered<C>(fs: Archives<C>, lo: nat, hi: nat) {
    lo <= hi && forall k: nat :: k in fs <==> lo <= k < hi
  }

  lemma {:induction false} PlaceOf<C>(files: seq<nat>, fs: Archives<C>, k: nat) returns (i: nat)
    requires Listing(files, fs) && k in fs
    ensures i < |files| && files[i] == k
  {
    assert k in files;
    i :| 0 <= i < |files| && files[i] == k;
  }

  /** Then their list is forced. */
  lemma {:induction false} ListingOfRange<C>(files: seq<nat>, fs: Archives<C>, lo: nat, hi: nat)
    requires Listing(files, fs) && Numbered(fs, lo, hi)
    ensures |files| == hi - lo && forall i :: 0 <= i < |files| ==> files[i] == lo + i
  {
    RangePrefix(files, fs, lo, hi, |files|);
    if lo < hi {
      var i := PlaceOf(files, fs, hi - 1);
      assert files[i] == lo + i;
    }
  }

  lemma {:induction false} RangePrefix<C>(files: seq<nat>, fs: Archives<C>, lo: nat, hi: nat, n: nat)
    requires Listing(files, fs) && Numbered(fs, lo, hi) && n <= |files|
    ensures n <= hi - lo && forall i :: 0 <= i < n ==> files[i] == lo + i
  {
    if n > 0 {
      RangePrefix(files, fs, lo, hi, n - 1);
      assert files[n - 1] in fs && lo <= files[n - 1] < hi;
      assert files[n - 1] >= lo + n - 1 by {
        assert n > 1 ==> files[n - 2] == lo + n - 2;
      }
      var j := PlaceOf(files, fs, lo + n - 1);
    }
  }

  /** How many archives k rolling rotations leave. */
  function RollingCount(k: nat, max: int): nat {
    if max > 0 && k > max then max else k
  }

  lemma {:induction false} RollOnRange<C>(fs: Archives<C>, files: seq<nat>, max: int, base: C, n: nat)
    requires Listing(files, fs) && Numbered(fs, 0, n) && (max > 0 ==> n <= max)
    ensures var after := Rolled(fs, files, Keep(|files|, max), base);
            && Numbered(after, 0, if max > 0 && n == max then n else n + 1)
            && after[0] == base
            && forall i :: 1 <= i && i in after ==> i - 1 in fs && after[i] == fs[i - 1]
  {
    hide Rolled, Shifted;
    ListingOfRange(files, fs, 0, n);
    var keep := Keep(|files|, max);
    assert NoClash(files, keep);
    hide NoClash, Listing;
    RollShifts(fs, files, max, base);
    ShiftedAt(fs, files, keep, base);
  }

  lemma {:induction false} ShiftedAt<C>(fs: Archives<C>, files: seq<nat>, keep: nat, base: C)
    requires keep <= |files| && forall i :: 0 <= i < |files| ==> files[i] in fs
    ensures var after := Shifted(fs, files, keep, base);
            && (forall k: nat :: k in after <==> k <= keep)
            && forall k :: k in after ==> after[k] == if k == 0 then base else Nth(fs, files, k)
  {
  }

  lemma {:induction false} NextCount(k: nat, max: int)
    ensures var n := RollingCount(k, max);
            (max > 0 ==> n <= max) && RollingCount(k + 1, max) == if max > 0 && n == max then n else n + 1
  {
  }

  lemma {:induction false} RollingStep<C>(fs: Archives<C>, after: Archives<C>, max: int, base: C, n: nat)
    requires Rotated(fs, after, Rolling, max, base) && Numbered(fs, 0, n) && (max > 0 ==> n <= max)
    ensures Numbered(after, 0, if max > 0 && n == max then n else n + 1) && after[0] == base
    ensures forall i :: 1 <= i && i in after ==> i - 1 in fs && after[i] == fs[i - 1]
  {
    hide Rolled, Numbered;
    var files: seq<nat> :| Listing(files, fs) &&
      after == Rolled(fs, files, Keep(|files|, max), base);
    RollOnRange(fs, files, max, base, n);
  }

  /** After k rolling rotations archive i exists for i < min(k, max) only, and holds the
      (i+1)-th most recent log. */
  lemma {:induction false} RollingHistory<C>(states: seq<Archives<C>>, logs: seq<C>, max: int, k: nat)
    requires History(states, logs, Rolling, max) && k <= |logs|
    ensures Numbered(states[k], 0, RollingCount(k, max))
    ensures forall i :: i in states[k] ==> states[k][i] == logs[k - 1 - i]
  {
    if k > 0 {
      hide Rotated, RollingCount, Numbered;
      RollingHistory(states, logs, max, k - 1);
      assert Rotated(states[k - 1], states[k - 1 + 1], Rolling, max, logs[k - 1]);
      NextCount(k - 1, max);
      RollingStep(states[k - 1], states[k], max, logs[k - 1], RollingCount(k - 1, max));
    } else {
      hide Rotated;
    }
  }

  /** On archives without a gap every rename takes a number that is free. */
  lemma {:induction false} RollingOverwritesNothing<C>(fs: Archives<C>, files: seq<nat>, max: int, n: nat, m: nat)
    requires Listing(files, fs) && Numbered(fs, 0, m) && 0 < n <= Keep(|files|, max)
    ensures n !in Before(fs, files, Keep(|files|, max), n)
  {
    hide Before;
    ListingOfRange(files, fs, 0, m);
    RenamesAreClear(fs, files, Keep(|files|, max));
  }

  /** The lowest number that k sequence rotations leave. */
  function SequenceStart(k: nat, max: int): nat {
    if max > 0 && k > max + 1 then k - 1 - max else 0
  }

  /** After k sequence rotations the archives are the newest max + 1, each under the number
      of its rotation; all k when max is not positive. */
  lemma {:induction false} SequenceHistory<C>(states: seq<Archives<C>>, logs: seq<C>, max: int, k: nat)
    requires History(states, logs, Sequence, max) && k <= |logs|
    ensures Numbered(states[k], SequenceStart(k, max), k)
    ensures forall i :: i in states[k] ==> states[k][i] == logs[i]
  {
    if k > 0 {
      hide Rotated, SequenceStart, Numbered;
      SequenceHistory(states, logs, max, k - 1);
      assert Rotated(states[k - 1], states[k - 1 + 1], Sequence, max, logs[k - 1]);
      SequenceStep(states[k - 1], states[k], max, logs[k - 1], k - 1);
    } else {
      hide Rotated;
    }
  }

  lemma {:induction false} SequenceStep<C>(fs: Archives<C>, after: Archives<C>, max: int, base: C, n: nat)
    requires Rotated(fs, after, Sequence, max, base) && Numbered(fs, SequenceStart(n, max), n)
    ensures Numbered(after, SequenceStart(n + 1, max), n + 1)
    ensures forall i :: i in after ==> (i == n && after[i] == base) || (i in fs && after[i] == fs[i])
  {
    hide Sequenced, SequenceStart;
    var files: seq<nat> :| Listing(files, fs) && after == Sequenced(fs, files, max, base);
    SequenceOnRange(fs, files, max, base, SequenceStart(n, max), n);
  }

  lemma {:induction false} SequenceOnRange<C>(fs: Archives<C>, files: seq<nat>, max: int, base: C, lo: nat, n: nat)
    requires Listing(files, fs) && Numbered(fs, lo, n) && lo == SequenceStart(n, max)
    ensures var after := Sequenced(fs, files, max, base);
            && Numbered(after, SequenceStart(n + 1, max), n + 1)
            && after[n] == base
            && forall i :: i in after && i < n ==> i in fs && after[i] == fs[i]
  {
    ListingOfRange(files, fs, lo, n);
    var after := Sequenced(fs, files, max, base);
    assert NextNumber(files) == n;
    forall i: nat ensures i in after <==> SequenceStart(n + 1, max) <= i < n + 1 {
      if lo <= i < n {
        assert files[i - lo] == i;
        SurvivesIffNewest(fs, files, max, base, i - lo);
      }
    }
  }
}

/** What several modules share. */
module Wrappers {
  datatype Option<+T> = None | Some(value: T)

  /** The longest name and mark that zlog accepts. */
  const MAXLEN_PATH := 1024

  function Max(a: int, b: int): int {
    if a > b then a else b
  }

  function Min(a: int, b: int): int {
    if a < b then a else b
  }

  lemma {:induction false} Reassoc<T>(a: seq<T>, b: seq<T>, c: seq<T>)
    ensures a + (b + c) == a + b + c
  {
  }

  lemma {:induction false} SubsetIsSmaller<T>(a: set<T>, b: set<T>)
    requires a <= b
    ensures |a| <= |b|
  {
    if a != {} {
      var x :| x in a;
      SubsetIsSmaller(a - {x}, b - {x});
    }
  }

  /** A map that gives no value twice has as many values as keys. */
  lemma {:induction false} ImageIsLarge<K, V>(f: map<K, V>)
    requires forall x, y :: x in f && y in f && f[x] == f[y] ==> x == y
    ensures |f.Values| == |f|
  {
    if f.Keys != {} {
      var x :| x in f;
      var g := f - {x};
      ImageIsLarge(g);
      assert f.Values == g.Values + {f[x]};
      assert f == g[x := f[x]];
    }
  }

  /** And if its values are keys, every key is a value. */
  lemma {:induction false} ImageIsAll<K>(f: map<K, K>, y: K) returns (x: K)
    requires forall a, b :: a in f && b in f && f[a] == f[b] ==> a == b
    requires f.Values <= f.Keys && y in f
    ensures x in f && f[x] == y
  {
    ImageIsLarge(f);
    var values := f.Values;
    if y !in values {
      SubsetIsSmaller(values + {y}, f.Keys);
      assert false;
    }
    x :| x in f && f[x] == y;
  }
}

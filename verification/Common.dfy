/** Small helpers shared by every component of the model. */
module Common {

  datatype Option<+T> = None | Some(value: T) {
    function GetOr(default: T): T {
      match this
      case None => default
      case Some(v) => v
    }
  }

  function Max(a: int, b: int): int {
    if a < b then b else a
  }

  function Min(a: int, b: int): int {
    if a < b then a else b
  }

  // ----- Sequences -----

  lemma ConcatAssociates<T>(a: seq<T>, b: seq<T>, c: seq<T>)
    ensures a + (b + c) == a + b + c
  {
  }

  lemma SliceInTwo<T>(s: seq<T>, i: nat, j: nat, k: nat)
    requires i <= j <= k <= |s|
    ensures s[i..k] == s[i..j] + s[j..k]
  {
  }

  // ----- Sums over the values of a finite map -----

  ghost function Total<K(!new)>(m: map<K, nat>): nat
    decreases |m.Keys|
  {
    if m.Keys == {} then 0
    else
      var k :| k in m.Keys;
      assert (m - {k}).Keys == m.Keys - {k};
      m[k] + Total(m - {k})
  }

  // The order in which Total visits the keys does not matter.
  lemma {:induction false} TotalRemove<K(!new)>(m: map<K, nat>, k: K)
    requires k in m
    ensures Total(m) == m[k] + Total(m - {k})
    decreases |m.Keys|
  {
    var first :| first in m.Keys && Total(m) == m[first] + Total(m - {first});
    if first != k {
      assert (m - {first}).Keys == m.Keys - {first};
      assert (m - {k}).Keys == m.Keys - {k};
      assert |(m - {k}).Keys| == |m.Keys| - 1;
      TotalRemove(m - {first}, k);
      TotalRemove(m - {k}, first);
      assert m - {first} - {k} == m - {k} - {first};
    }
  }

  lemma TotalUpdate<K(!new)>(m: map<K, nat>, k: K, v: nat)
    ensures Total(m[k := v]) == Total(m) + v - (if k in m then m[k] else 0)
  {
    var updated := m[k := v];
    TotalRemove(updated, k);
    assert updated - {k} == m - {k};
    if k in m {
      TotalRemove(m, k);
    } else {
      assert m - {k} == m;
    }
  }

  lemma TotalChangedAt<K(!new)>(m: map<K, nat>, n: map<K, nat>, k: K)
    requires m.Keys == n.Keys && k in m && forall j {:trigger n[j]} :: j in m && j != k ==> n[j] == m[j]
    ensures Total(n) == Total(m) - m[k] + n[k]
  {
    TotalUpdate(m, k, n[k]);
    assert n == m[k := n[k]];
  }

  lemma {:induction false} TotalZeroIff<K(!new)>(m: map<K, nat>)
    ensures Total(m) == 0 <==> forall k :: k in m ==> m[k] == 0
    decreases |m.Keys|
  {
    if m.Keys != {} {
      var k :| k in m.Keys;
      TotalRemove(m, k);
      assert (m - {k}).Keys == m.Keys - {k};
      TotalZeroIff(m - {k});
      assert forall j :: j in m ==> j == k || (j in m - {k} && (m - {k})[j] == m[j]);
    }
  }

  // ----- Arrangements by a key -----

  ghost predicate SortedBy<T>(xs: seq<T>, key: T -> int) {
    forall i, j {:trigger xs[i], xs[j]} :: 0 <= i < j < |xs| ==> key(xs[i]) <= key(xs[j])
  }

  ghost predicate AscendingBy<T>(xs: seq<T>, key: T -> int) {
    forall i, j {:trigger xs[i], xs[j]} :: 0 <= i < j < |xs| ==> key(xs[i]) < key(xs[j])
  }

  lemma SameHead<T>(xs: seq<T>, ys: seq<T>, key: T -> int)
    requires AscendingBy(xs, key) && SortedBy(ys, key) && multiset(xs) == multiset(ys) && xs != [] && ys != []
    ensures xs[0] == ys[0]
  {
    assert ys[0] in multiset(xs) && xs[0] in multiset(ys);
    var i :| 0 <= i < |xs| && xs[i] == ys[0];
    var j :| 0 <= j < |ys| && ys[j] == xs[0];
    assert key(xs[0]) <= key(xs[i]) && key(ys[0]) <= key(ys[j]);
  }

  lemma TailMembers<T>(xs: seq<T>)
    requires xs != []
    ensures multiset(xs[1..]) == multiset(xs) - multiset{xs[0]} && xs == [xs[0]] + xs[1..]
  {
    assert xs == [xs[0]] + xs[1..];
  }

  lemma SameLength<T>(xs: seq<T>, ys: seq<T>)
    requires multiset(xs) == multiset(ys)
    ensures |xs| == |ys|
  {
    assert |multiset(xs)| == |xs| && |multiset(ys)| == |ys|;
  }

  // A strictly ascending sequence is its only sorted arrangement.
  lemma {:induction false} AscendingIsUnique<T>(xs: seq<T>, ys: seq<T>, key: T -> int)
    requires AscendingBy(xs, key) && SortedBy(ys, key) && multiset(xs) == multiset(ys)
    ensures xs == ys
  {
    SameLength(xs, ys);
    if xs != [] {
      SameHead(xs, ys, key);
      TailMembers(xs);
      TailMembers(ys);
      AscendingIsUnique(xs[1..], ys[1..], key);
    }
  }
}

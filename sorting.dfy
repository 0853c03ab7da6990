/**
 * `Array.prototype.sort` with a "larger key first" comparator, as the
 * diary uses it twice: play items by `played_at`, newest first, and a
 * day's tallies by play count, most played first.  Since ES2019 the
 * built-in sort is stable, so elements with equal keys keep their input
 * order.  The model is a stable insertion sort; its three lemmas
 * (permutation, non-increasing keys, stability) determine the result
 * uniquely.
 */
module Sorting {

  /** Insert `x` in front of the first element whose key is not larger than its own. */
  function Insert<T>(x: T, s: seq<T>, key: T -> int): (r: seq<T>)
    ensures |r| == |s| + 1
  {
    if s == [] || key(s[0]) <= key(x) then [x] + s else [s[0]] + Insert(x, s[1..], key)
  }

  /** `[...s].sort((a, b) => key(b) - key(a))`. */
  function SortDesc<T>(s: seq<T>, key: T -> int): (r: seq<T>)
    ensures |r| == |s|
  {
    if s == [] then [] else Insert(s[0], SortDesc(s[1..], key), key)
  }

  ghost predicate NonIncreasing<T>(s: seq<T>, key: T -> int)
  {
    forall i, j :: 0 <= i < j < |s| ==> key(s[i]) >= key(s[j])
  }

  /** The elements of `s` whose key is `k`, in their order in `s`. */
  function WithKey<T>(s: seq<T>, key: T -> int, k: int): seq<T>
  {
    if s == [] then []
    else (if key(s[0]) == k then [s[0]] else []) + WithKey(s[1..], key, k)
  }

  lemma {:induction false} InsertPermutes<T>(x: T, s: seq<T>, key: T -> int)
    ensures multiset(Insert(x, s, key)) == multiset(s) + multiset{x}
  {
    if s != [] && key(s[0]) > key(x) {
      InsertPermutes(x, s[1..], key);
      assert s == [s[0]] + s[1..];
    }
  }

  lemma {:induction false} InsertKeepsOrder<T>(x: T, s: seq<T>, key: T -> int)
    requires NonIncreasing(s, key)
    ensures NonIncreasing(Insert(x, s, key), key)
  {
    if s != [] && key(s[0]) > key(x) {
      var tail := Insert(x, s[1..], key);
      InsertKeepsOrder(x, s[1..], key);
      InsertBelowHead(x, s, key);
      ConsKeepsOrder(s[0], tail, key);
    } else if s != [] {
      ConsKeepsOrder(x, s, key);
    }
  }

  /** Inserting below the head of an ordered sequence puts nothing above the head. */
  lemma InsertBelowHead<T>(x: T, s: seq<T>, key: T -> int)
    requires NonIncreasing(s, key) && s != [] && key(s[0]) > key(x)
    ensures forall j :: 0 <= j < |Insert(x, s[1..], key)| ==> key(s[0]) >= key(Insert(x, s[1..], key)[j])
  {
    var tail := Insert(x, s[1..], key);
    InsertPermutes(x, s[1..], key);
    forall j | 0 <= j < |tail| ensures key(s[0]) >= key(tail[j]) {
      assert tail[j] in multiset(tail);
      if tail[j] != x {
        assert tail[j] in multiset(s[1..]);
        var m :| 0 <= m < |s[1..]| && s[1..][m] == tail[j];
        assert s[m + 1] == tail[j];
      }
    }
  }

  /** A head no smaller than any element of an ordered tail keeps the order. */
  lemma ConsKeepsOrder<T>(h: T, t: seq<T>, key: T -> int)
    requires NonIncreasing(t, key)
    requires forall j :: 0 <= j < |t| ==> key(h) >= key(t[j])
    ensures NonIncreasing([h] + t, key)
  {
    var r := [h] + t;
    forall i, j | 0 <= i < j < |r| ensures key(r[i]) >= key(r[j]) {
      assert r[j] == t[j - 1];
      if i > 0 {
        assert r[i] == t[i - 1];
      }
    }
  }

  lemma WithKeyCons<T>(a: T, t: seq<T>, key: T -> int, k: int)
    ensures WithKey([a] + t, key, k) == (if key(a) == k then [a] else []) + WithKey(t, key, k)
  {
    assert ([a] + t)[1..] == t;
  }

  lemma {:induction false} InsertWithKey<T>(x: T, s: seq<T>, key: T -> int, k: int)
    ensures WithKey(Insert(x, s, key), key, k)
         == (if key(x) == k then [x] else []) + WithKey(s, key, k)
  {
    var front := if key(x) == k then [x] else [];
    if s != [] && key(s[0]) > key(x) {
      var t := Insert(x, s[1..], key);
      var head := if key(s[0]) == k then [s[0]] else [];
      var w := WithKey(s[1..], key, k);
      InsertWithKey(x, s[1..], key, k);
      WithKeyCons(s[0], t, key, k);
      WithKeyCons(s[0], s[1..], key, k);
      assert s == [s[0]] + s[1..];
      assert WithKey(Insert(x, s, key), key, k) == head + (front + w);
      assert WithKey(s, key, k) == head + w;
      if front == [] {
        assert head + (front + w) == head + w;
      } else {
        assert head == [];
        assert head + (front + w) == front + w;
      }
    } else {
      WithKeyCons(x, s, key, k);
    }
  }

  /** The sorted sequence is a permutation of the input. */
  lemma {:induction false} SortDescPermutes<T>(s: seq<T>, key: T -> int)
    ensures multiset(SortDesc(s, key)) == multiset(s)
  {
    if s != [] {
      SortDescPermutes(s[1..], key);
      InsertPermutes(s[0], SortDesc(s[1..], key), key);
      assert s == [s[0]] + s[1..];
    }
  }

  /** Keys never increase along the sorted sequence. */
  lemma {:induction false} SortDescOrders<T>(s: seq<T>, key: T -> int)
    ensures NonIncreasing(SortDesc(s, key), key)
  {
    if s != [] {
      SortDescOrders(s[1..], key);
      InsertKeepsOrder(s[0], SortDesc(s[1..], key), key);
    }
  }

  /** Stability: the elements sharing any one key keep their input order. */
  lemma {:induction false} SortDescStable<T>(s: seq<T>, key: T -> int, k: int)
    ensures WithKey(SortDesc(s, key), key, k) == WithKey(s, key, k)
  {
    if s != [] {
      SortDescStable(s[1..], key, k);
      InsertWithKey(s[0], SortDesc(s[1..], key), key, k);
    }
  }

  ghost predicate DistinctBy<T, U>(s: seq<T>, f: T -> U)
  {
    forall i, j :: 0 <= i < j < |s| ==> f(s[i]) != f(s[j])
  }

  lemma {:induction false} InsertDistinct<T, U>(x: T, s: seq<T>, key: T -> int, f: T -> U)
    requires DistinctBy(s, f) && forall k :: 0 <= k < |s| ==> f(s[k]) != f(x)
    ensures DistinctBy(Insert(x, s, key), f)
  {
    var r := Insert(x, s, key);
    InsertPermutes(x, s, key);
    if s != [] && key(s[0]) > key(x) {
      var tail := Insert(x, s[1..], key);
      assert DistinctBy(s[1..], f) by {
        forall i, j | 0 <= i < j < |s| - 1 ensures f(s[1..][i]) != f(s[1..][j]) {
          assert s[1..][i] == s[i + 1] && s[1..][j] == s[j + 1];
        }
      }
      InsertDistinct(x, s[1..], key, f);
      InsertPermutes(x, s[1..], key);
      forall i, j | 0 <= i < j < |r| ensures f(r[i]) != f(r[j]) {
        assert r[j] == tail[j - 1];
        if i > 0 {
          assert r[i] == tail[i - 1];
        } else {
          assert tail[j - 1] in multiset(s[1..]) + multiset{x};
          if tail[j - 1] != x {
            var m :| 0 <= m < |s[1..]| && s[1..][m] == tail[j - 1];
            assert s[m + 1] == r[j];
          }
        }
      }
    } else {
      forall i, j | 0 <= i < j < |r| ensures f(r[i]) != f(r[j]) {
        assert r[j] == s[j - 1];
        if i > 0 {
          assert r[i] == s[i - 1];
        }
      }
    }
  }

  /** Sorting keeps a sequence free of duplicates under any projection. */
  lemma {:induction false} SortDescDistinct<T, U>(s: seq<T>, key: T -> int, f: T -> U)
    requires DistinctBy(s, f)
    ensures DistinctBy(SortDesc(s, key), f)
  {
    if s != [] {
      var rest := SortDesc(s[1..], key);
      assert DistinctBy(s[1..], f) by {
        forall i, j | 0 <= i < j < |s| - 1 ensures f(s[1..][i]) != f(s[1..][j]) {
          assert s[1..][i] == s[i + 1] && s[1..][j] == s[j + 1];
        }
      }
      SortDescDistinct(s[1..], key, f);
      SortDescPermutes(s[1..], key);
      forall k | 0 <= k < |rest| ensures f(rest[k]) != f(s[0]) {
        assert rest[k] in multiset(s[1..]);
        var m :| 0 <= m < |s[1..]| && s[1..][m] == rest[k];
        assert s[m + 1] == rest[k];
      }
      InsertDistinct(s[0], rest, key, f);
    }
  }
}

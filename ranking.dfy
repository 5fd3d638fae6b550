/**
 * The ranking step: a stable sort in descending order of a real-valued key,
 * followed by keeping a prefix of bounded length. Stable means that entries
 * with equal keys keep the order they had in the input.
 */
module Ranking {

  /** Non-increasing by `key`. */
  ghost predicate SortedDesc<T>(s: seq<T>, key: T -> real) {
    forall i, j :: 0 <= i < j < |s| ==> key(s[i]) >= key(s[j])
  }

  /** The entries of `s` whose key is `k`, in their order in `s`. */
  function WithKey<T>(s: seq<T>, key: T -> real, k: real): seq<T> {
    if s == [] then []
    else (if key(s[0]) == k then [s[0]] else []) + WithKey(s[1..], key, k)
  }

  /** Puts `x` in front of the first entry of `t` whose key is not larger than its own. */
  function Insert<T>(x: T, t: seq<T>, key: T -> real): (r: seq<T>)
    ensures multiset(r) == multiset(t) + multiset{x}
  {
    if t == [] || key(t[0]) <= key(x) then [x] + t
    else
      assert t == [t[0]] + t[1..];
      [t[0]] + Insert(x, t[1..], key)
  }

  /** Stable descending insertion sort. */
  function SortDesc<T>(s: seq<T>, key: T -> real): (r: seq<T>)
    ensures multiset(r) == multiset(s)
  {
    if s == [] then []
    else
      assert s == [s[0]] + s[1..];
      Insert(s[0], SortDesc(s[1..], key), key)
  }

  /** The first `n` entries of `s`, or all of them when there are fewer. */
  function Take<T>(s: seq<T>, n: nat): (r: seq<T>)
    ensures |r| == if |s| <= n then |s| else n
    ensures r == s[..|r|]
    ensures |s| <= n ==> r == s
  {
    if |s| <= n then s else s[..n]
  }

  /** The top `n` entries by descending key. */
  function Rank<T>(s: seq<T>, key: T -> real, n: nat): seq<T> {
    Take(SortDesc(s, key), n)
  }

  lemma {:induction false} InsertSorted<T>(x: T, t: seq<T>, key: T -> real)
    requires SortedDesc(t, key)
    ensures SortedDesc(Insert(x, t, key), key)
    decreases |t|
  {
    if t == [] || key(t[0]) <= key(x) {
    } else {
      var rest := Insert(x, t[1..], key);
      InsertSorted(x, t[1..], key);
      forall y | y in rest ensures key(y) <= key(t[0]) {
        assert y in multiset(rest);
        if y != x {
          assert y in t[1..];
        }
      }
      assert Insert(x, t, key) == [t[0]] + rest;
    }
  }

  /** The sort orders its entries by non-increasing key. */
  lemma {:induction false} SortDescSorted<T>(s: seq<T>, key: T -> real)
    ensures SortedDesc(SortDesc(s, key), key)
    decreases |s|
  {
    if s != [] {
      SortDescSorted(s[1..], key);
      InsertSorted(s[0], SortDesc(s[1..], key), key);
    }
  }

  /** Inserting `x` puts it first among the entries of its key and disturbs no other key's order. */
  lemma {:induction false} InsertWithKey<T>(x: T, t: seq<T>, key: T -> real, k: real)
    ensures WithKey(Insert(x, t, key), key, k) ==
            if key(x) == k then [x] + WithKey(t, key, k) else WithKey(t, key, k)
    decreases |t|
  {
    if t == [] || key(t[0]) <= key(x) {
      assert ([x] + t)[1..] == t;
    } else {
      InsertWithKey(x, t[1..], key, k);
      assert ([t[0]] + Insert(x, t[1..], key))[1..] == Insert(x, t[1..], key);
    }
  }

  /** The sort is stable: for every key, the entries with that key keep their input order. */
  lemma {:induction false} SortDescStable<T>(s: seq<T>, key: T -> real, k: real)
    ensures WithKey(SortDesc(s, key), key, k) == WithKey(s, key, k)
    decreases |s|
  {
    if s != [] {
      SortDescStable(s[1..], key, k);
      InsertWithKey(s[0], SortDesc(s[1..], key), key, k);
    }
  }

  /**
   * The top `n`: at most `n` entries, sorted, drawn from the input, all of it
   * when it has at most `n` entries, and no entry left out has a larger key
   * than an entry kept.
   */
  lemma RankIsTop<T>(s: seq<T>, key: T -> real, n: nat)
    ensures |Rank(s, key, n)| == if |s| <= n then |s| else n
    ensures SortedDesc(Rank(s, key, n), key)
    ensures multiset(Rank(s, key, n)) <= multiset(s)
    ensures |s| <= n ==> multiset(Rank(s, key, n)) == multiset(s)
    ensures forall x, y :: x in Rank(s, key, n) && y in multiset(s) - multiset(Rank(s, key, n)) ==> key(y) <= key(x)
  {
    var sorted := SortDesc(s, key);
    var r := Rank(s, key, n);
    assert |multiset(sorted)| == |multiset(s)|;
    SortDescSorted(s, key);
    var rest := sorted[|r|..];
    assert sorted == r + rest;
    assert multiset(s) == multiset(r) + multiset(rest);
    forall x, y | x in r && y in multiset(s) - multiset(r) ensures key(y) <= key(x) {
      assert y in rest;
      var i :| 0 <= i < |r| && r[i] == x;
      var j :| 0 <= j < |rest| && rest[j] == y;
      assert sorted[i] == x && sorted[|r| + j] == y;
    }
  }
}

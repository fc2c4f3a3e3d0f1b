/** Stable sorting by an integer key, as Rust's `sort_by_key` does it. */
module StableSort {

  ghost predicate SortedBy<T(!new)>(s: seq<T>, key: T -> int)
  {
    forall i, j :: 0 <= i < j < |s| ==> key(s[i]) <= key(s[j])
  }

  /** Puts `x` before the first element whose key is not smaller. */
  function InsertBy<T>(x: T, s: seq<T>, key: T -> int): (r: seq<T>)
    ensures |r| == |s| + 1
  {
    if s == [] || key(x) <= key(s[0]) then [x] + s else [s[0]] + InsertBy(x, s[1..], key)
  }

  function SortBy<T>(s: seq<T>, key: T -> int): (r: seq<T>)
    ensures |r| == |s|
  {
    if s == [] then [] else InsertBy(s[0], SortBy(s[1..], key), key)
  }

  /** The elements with one key, in their order. */
  function WithKey<T>(s: seq<T>, key: T -> int, k: int): seq<T>
  {
    if s == [] then []
    else if key(s[0]) == k then [s[0]] + WithKey(s[1..], key, k)
    else WithKey(s[1..], key, k)
  }

  lemma {:induction false} InsertByAbove<T(!new)>(x: T, s: seq<T>, key: T -> int, bound: int)
    requires bound <= key(x) && forall i :: 0 <= i < |s| ==> bound <= key(s[i])
    ensures forall i :: 0 <= i < |InsertBy(x, s, key)| ==> bound <= key(InsertBy(x, s, key)[i])
  {
    if s != [] && key(s[0]) < key(x) { InsertByAbove(x, s[1..], key, bound); }
  }

  lemma {:induction false} InsertBySorted<T(!new)>(x: T, s: seq<T>, key: T -> int)
    requires SortedBy(s, key)
    ensures SortedBy(InsertBy(x, s, key), key)
  {
    if s != [] && key(s[0]) < key(x) {
      InsertBySorted(x, s[1..], key);
      InsertByAbove(x, s[1..], key, key(s[0]));
    }
  }

  lemma {:induction false} InsertByPermutes<T>(x: T, s: seq<T>, key: T -> int)
    ensures multiset(InsertBy(x, s, key)) == multiset{x} + multiset(s)
  {
    if s != [] && key(s[0]) < key(x) {
      InsertByPermutes(x, s[1..], key);
      assert s == [s[0]] + s[1..];
    }
  }

  /** Sorting gives a sorted permutation. */
  lemma {:induction false} SortByFacts<T(!new)>(s: seq<T>, key: T -> int)
    ensures SortedBy(SortBy(s, key), key)
    ensures multiset(SortBy(s, key)) == multiset(s)
  {
    if s != [] {
      SortByFacts(s[1..], key);
      InsertBySorted(s[0], SortBy(s[1..], key), key);
      InsertByPermutes(s[0], SortBy(s[1..], key), key);
      assert s == [s[0]] + s[1..];
    }
  }

  lemma {:induction false} InsertByStable<T>(x: T, s: seq<T>, key: T -> int, k: int)
    ensures key(x) == k ==> WithKey(InsertBy(x, s, key), key, k) == [x] + WithKey(s, key, k)
    ensures key(x) != k ==> WithKey(InsertBy(x, s, key), key, k) == WithKey(s, key, k)
  {
    var r := InsertBy(x, s, key);
    if s == [] || key(x) <= key(s[0]) {
      assert r[1..] == s;
    } else {
      assert r[1..] == InsertBy(x, s[1..], key);
      InsertByStable(x, s[1..], key, k);
    }
  }

  /** Elements with equal keys keep their order. */
  lemma {:induction false} SortByStable<T>(s: seq<T>, key: T -> int, k: int)
    ensures WithKey(SortBy(s, key), key, k) == WithKey(s, key, k)
  {
    if s != [] {
      SortByStable(s[1..], key, k);
      InsertByStable(s[0], SortBy(s[1..], key), key, k);
    }
  }

  /** A sorted sequence is left as it is. */
  lemma {:induction false} SortBySorted<T(!new)>(s: seq<T>, key: T -> int)
    requires SortedBy(s, key)
    ensures SortBy(s, key) == s
  {
    if s != [] {
      SortBySorted(s[1..], key);
      if |s| > 1 { assert key(s[0]) <= key(s[1]); }
    }
  }

  /** Two sequences agree in length, in keys and in a relation, position by position. */
  ghost predicate Together<A(!new), B(!new)>(
    s: seq<A>, keyS: A -> int, t: seq<B>, keyT: B -> int, rel: (A, B) -> bool)
  {
    && |s| == |t|
    && forall i :: 0 <= i < |s| ==> keyS(s[i]) == keyT(t[i]) && rel(s[i], t[i])
  }

  lemma {:induction false} InsertTogether<A(!new), B(!new)>(
    x: A, s: seq<A>, keyS: A -> int, y: B, t: seq<B>, keyT: B -> int, rel: (A, B) -> bool)
    requires keyS(x) == keyT(y) && rel(x, y) && Together(s, keyS, t, keyT, rel)
    ensures Together(InsertBy(x, s, keyS), keyS, InsertBy(y, t, keyT), keyT, rel)
  {
    if s != [] && keyS(s[0]) < keyS(x) { InsertTogether(x, s[1..], keyS, y, t[1..], keyT, rel); }
  }

  /** Sorting moves two such sequences in the same way. */
  lemma {:induction false} SortTogether<A(!new), B(!new)>(
    s: seq<A>, keyS: A -> int, t: seq<B>, keyT: B -> int, rel: (A, B) -> bool)
    requires Together(s, keyS, t, keyT, rel)
    ensures Together(SortBy(s, keyS), keyS, SortBy(t, keyT), keyT, rel)
  {
    if s != [] {
      SortTogether(s[1..], keyS, t[1..], keyT, rel);
      InsertTogether(s[0], SortBy(s[1..], keyS), keyS, t[0], SortBy(t[1..], keyT), keyT, rel);
    }
  }
}

/** Sequences up to order: mapping, flattening and multisets. */
module Permutations {

  /** Rust's `iter().map(f).collect()`. */
  function Map<T, R>(f: T -> R, s: seq<T>): (r: seq<R>)
    ensures |r| == |s|
    ensures forall i :: 0 <= i < |s| ==> r[i] == f(s[i])
  {
    seq(|s|, i requires 0 <= i < |s| => f(s[i]))
  }

  /** Rust's repeated `extend`. */
  function Concat<T>(parts: seq<seq<T>>): seq<T>
  {
    if parts == [] then [] else parts[0] + Concat(parts[1..])
  }

  lemma {:induction false} ConcatSnoc<T>(parts: seq<seq<T>>, last: seq<T>)
    ensures Concat(parts + [last]) == Concat(parts) + last
  {
    if parts == [] {
      assert [last][1..] == [];
    } else {
      ConcatSnoc(parts[1..], last);
      assert (parts + [last])[1..] == parts[1..] + [last];
    }
  }

  lemma EqualSize<T>(a: seq<T>, b: seq<T>)
    requires multiset(a) == multiset(b)
    ensures |a| == |b|
  {
    assert |multiset(a)| == |a| && |multiset(b)| == |b|;
  }

  lemma Cancel<T>(a: multiset<T>, b: multiset<T>, c: multiset<T>)
    requires a + c == b + c
    ensures a == b
  {
    assert a == (a + c) - c == (b + c) - c == b;
  }

  lemma RemoveAt<T, R>(f: T -> R, s: seq<T>, i: nat)
    requires i < |s|
    ensures multiset(s) == multiset(s[..i] + s[i + 1..]) + multiset{s[i]}
    ensures multiset(Map(f, s)) == multiset(Map(f, s[..i] + s[i + 1..])) + multiset{f(s[i])}
  {
    assert s == s[..i] + [s[i]] + s[i + 1..];
    var (l, r) := (Map(f, s[..i]), Map(f, s[i + 1..]));
    assert Map(f, s) == l + [f(s[i])] + r;
    assert Map(f, s[..i] + s[i + 1..]) == l + r;
  }

  lemma {:induction false} MapKeepsPermutation<T, R>(f: T -> R, a: seq<T>, b: seq<T>)
    requires multiset(a) == multiset(b)
    ensures multiset(Map(f, a)) == multiset(Map(f, b))
    decreases |a|
  {
    EqualSize(a, b);
    if a != [] {
      assert a[0] in multiset(b);
      var i :| 0 <= i < |b| && b[i] == a[0];
      var ra, rb := a[..0] + a[1..], b[..i] + b[i + 1..];
      RemoveAt(f, a, 0);
      RemoveAt(f, b, i);
      Cancel(multiset(ra), multiset(rb), multiset{a[0]});
      MapKeepsPermutation(f, ra, rb);
    }
  }

  // ----- Slices -----

  lemma AppendFirst<T>(done: seq<T>, next: T, rest: seq<T>)
    ensures done + [next] + rest == done + ([next] + rest)
  {
  }

  /** A sequence that agrees with another from `d` on is its end. */
  lemma IsTail<T>(x: seq<T>, y: seq<T>, d: nat)
    requires |y| == d + |x|
    requires forall i :: 0 <= i < |x| ==> x[i] == y[d + i]
    ensures y[d..] == x
  {
    forall i | 0 <= i < |x| ensures y[d..][i] == x[i] {
    }
  }

  /** Dropping the last element of a tail. */
  lemma TailInit<T>(s: seq<T>, j: nat)
    requires j < |s|
    ensures s[j..][|s| - j - 1] == s[|s| - 1]
    ensures s[j..][..|s| - j - 1] == s[..|s| - 1][j..]
  {
    var (a, b) := (s[j..][..|s| - j - 1], s[..|s| - 1][j..]);
    forall i | 0 <= i < |a| ensures a[i] == b[i] {
    }
  }
}

/** The audit Merkle tree (ignite-pay-core/src/audit_merkle.rs). */
module AuditMerkle {
  import opened Bytes
  import opened MerkleProof
  import opened Permutations

  // ----- Tree shape: split at the largest power of two below n -----

  ghost predicate IsPowerOfTwo(k: nat)
  {
    k == 1 || (k > 1 && k % 2 == 0 && IsPowerOfTwo(k / 2))
  }

  /** Doubles `k` until the next doubling would reach `n`. */
  function DoubleBelow(k: nat, n: nat): (r: nat)
    requires 0 < k < n
    requires IsPowerOfTwo(k)
    ensures IsPowerOfTwo(r) && r < n <= 2 * r
    decreases n - k
  {
    if n <= 2 * k then k else DoubleBelow(2 * k, n)
  }

  /** The largest power of two below `n`. */
  function SplitPoint(n: nat): (k: nat)
    requires n >= 2
    ensures IsPowerOfTwo(k) && k < n <= 2 * k
  {
    DoubleBelow(1, n)
  }

  lemma {:induction false} SplitPointUnique(j: nat, k: nat, n: nat)
    requires IsPowerOfTwo(j) && IsPowerOfTwo(k)
    requires j < n <= 2 * j && k < n <= 2 * k
    ensures j == k
  {
    if j > 1 && k > 1 {
      SplitPointUnique(j / 2, k / 2, (n + 1) / 2);
    }
  }

  function LeafHashes(h: Hash, leafData: seq<bytes>): (s: seq<Digest>)
    ensures |s| == |leafData|
    ensures forall i :: 0 <= i < |s| ==> s[i] == h(leafData[i])
  {
    seq(|leafData|, i requires 0 <= i < |leafData| => h(leafData[i]))
  }

  /** Reference definition: the tree of section 2.1 of RFC 6962, without prefixes and with sorted pairs. */
  function TopDown(h: Hash, s: seq<Digest>): Digest
    requires s != []
    decreases |s|
  {
    if |s| == 1 then s[0]
    else
      var k := SplitPoint(|s|);
      Combine(h, TopDown(h, s[..k]), TopDown(h, s[k..]))
  }

  /** The root of a leaf list; the empty list hashes the empty string. */
  function RootOf(h: Hash, leafData: seq<bytes>): Digest
  {
    if leafData == [] then h([]) else TopDown(h, LeafHashes(h, leafData))
  }

  // ----- The level-by-level computation -----

  /** Neighbours are joined by `f`, an odd last element is kept. */
  function PairUp<T>(f: (T, T) -> T, s: seq<T>): (up: seq<T>)
    ensures |up| == (|s| + 1) / 2
  {
    if |s| <= 1 then s else [f(s[0], s[1])] + PairUp(f, s[2..])
  }

  lemma {:induction false} PairUpConcat<T>(f: (T, T) -> T, s: seq<T>, t: seq<T>)
    requires |s| % 2 == 0
    ensures PairUp(f, s + t) == PairUp(f, s) + PairUp(f, t)
  {
    if s == [] {
      assert s + t == t;
    } else {
      PairUpConcat(f, s[2..], t);
      assert (s + t)[2..] == s[2..] + t;
    }
  }

  lemma PairUpFrom<T>(f: (T, T) -> T, s: seq<T>, i: nat)
    requires i < |s|
    ensures i + 1 < |s| ==> PairUp(f, s[i..]) == [f(s[i], s[i + 1])] + PairUp(f, s[i + 2..])
    ensures i + 1 == |s| ==> PairUp(f, s[i..]) == [s[i]] + PairUp(f, s[i + 1..])
  {
    if i + 1 < |s| { assert s[i..][2..] == s[i + 2..]; }
  }

  function Combiner(h: Hash): (Digest, Digest) -> Digest
  {
    (a, b) => Combine(h, a, b)
  }

  /** One level up in the tree. */
  function LevelUp(h: Hash, s: seq<Digest>): (up: seq<Digest>)
    ensures |up| == (|s| + 1) / 2
  {
    PairUp(Combiner(h), s)
  }

  /** Moving one level up keeps the top-down root. */
  lemma {:induction false} LevelUpKeepsRoot(h: Hash, s: seq<Digest>)
    requires |s| >= 2
    ensures TopDown(h, LevelUp(h, s)) == TopDown(h, s)
    decreases |s|
  {
    if |s| == 2 {
      SplitPointUnique(SplitPoint(2), 1, 2);
      assert s[2..] == [] && s[..1] == [s[0]] && s[1..] == [s[1]];
      assert LevelUp(h, s) == [Combine(h, s[0], s[1])];
    } else {
      var k := SplitPoint(|s|);
      var up := LevelUp(h, s);
      assert k > 1;
      PairUpConcat(Combiner(h), s[..k], s[k..]);
      assert s == s[..k] + s[k..];
      SplitPointUnique(SplitPoint(|up|), k / 2, |up|);
      assert up[..k / 2] == LevelUp(h, s[..k]) && up[k / 2..] == LevelUp(h, s[k..]);
      LevelUpKeepsRoot(h, s[..k]);
      if |s[k..]| >= 2 { LevelUpKeepsRoot(h, s[k..]); }
    }
  }

  lemma LevelUpFrom(h: Hash, s: seq<Digest>, i: nat)
    requires i < |s|
    ensures i + 1 < |s| ==> LevelUp(h, s[i..]) == [Combine(h, s[i], s[i + 1])] + LevelUp(h, s[i + 2..])
    ensures i + 1 == |s| ==> LevelUp(h, s[i..]) == [s[i]] + LevelUp(h, s[i + 1..])
  {
    PairUpFrom(Combiner(h), s, i);
  }

  /** One pass over the chunks of two of the current level. */
  method NextLevel(h: Hash, currentLevel: seq<Digest>) returns (nextLevel: seq<Digest>)
    ensures nextLevel == LevelUp(h, currentLevel)
  {
    nextLevel := [];
    var i := 0;
    while i < |currentLevel|
      invariant 0 <= i <= |currentLevel|
      invariant nextLevel + LevelUp(h, currentLevel[i..]) == LevelUp(h, currentLevel)
    {
      LevelUpFrom(h, currentLevel, i);
      if i + 1 < |currentLevel| {
        var a, b := currentLevel[i], currentLevel[i + 1];
        var (lo, hi) := if Less(a, b) then (a, b) else (b, a);
        assert HashPair(h, lo, hi) == Combine(h, a, b);
        AppendFirst(nextLevel, Combine(h, a, b), LevelUp(h, currentLevel[i + 2..]));
        nextLevel := nextLevel + [HashPair(h, lo, hi)];
        i := i + 2;
      } else {
        AppendFirst(nextLevel, currentLevel[i], LevelUp(h, currentLevel[i + 1..]));
        nextLevel := nextLevel + [currentLevel[i]];
        i := i + 1;
      }
    }
  }

  /** The level-by-level loop with odd promotion computes the top-down root. */
  method ComputeRoot(h: Hash, leaves: seq<Digest>) returns (root: Digest)
    requires leaves != []
    ensures root == TopDown(h, leaves)
  {
    if |leaves| == 1 {
      return leaves[0];
    }
    var currentLevel := leaves;
    while |currentLevel| > 1
      invariant currentLevel != []
      invariant TopDown(h, currentLevel) == TopDown(h, leaves)
      decreases |currentLevel|
    {
      LevelUpKeepsRoot(h, currentLevel);
      currentLevel := NextLevel(h, currentLevel);
    }
    root := currentLevel[0];
  }

  datatype AuditMerkleTree = AuditMerkleTree(rootHash: Digest)

  method NewTree(h: Hash, leafData: seq<bytes>) returns (tree: AuditMerkleTree)
    ensures tree.rootHash == RootOf(h, leafData)
  {
    var leaves := LeafHashes(h, leafData);
    if leaves == [] {
      tree := AuditMerkleTree(h([]));
    } else {
      var root := ComputeRoot(h, leaves);
      tree := AuditMerkleTree(root);
    }
  }

  // ----- Binding -----

  /** No two different strings of `strings` have the same hash. */
  ghost predicate CollisionFree(h: Hash, strings: set<bytes>)
  {
    forall x, y :: x in strings && y in strings && h(x) == h(y) ==> x == y
  }

  /** Every string hashed while building the tree over `leafData`. */
  ghost function HashedStrings(h: Hash, leafData: seq<bytes>): set<bytes>
    decreases |leafData|
  {
    if |leafData| == 0 then {}
    else if |leafData| == 1 then {leafData[0]}
    else
      var k := SplitPoint(|leafData|);
      {SortedPair(RootOf(h, leafData[..k]), RootOf(h, leafData[k..]))}
      + HashedStrings(h, leafData[..k]) + HashedStrings(h, leafData[k..])
  }

  /** A 64-byte leaf could be read as the string of an inner node. */
  ghost predicate NoLeafLooksLikeAPair(leafData: seq<bytes>)
  {
    forall i :: 0 <= i < |leafData| ==> |leafData[i]| != 64
  }

  lemma RootUnfold(h: Hash, leafData: seq<bytes>)
    requires leafData != []
    ensures |leafData| == 1 ==> RootOf(h, leafData) == h(leafData[0])
    ensures |leafData| > 1 ==>
              var k := SplitPoint(|leafData|);
              RootOf(h, leafData) == h(SortedPair(RootOf(h, leafData[..k]), RootOf(h, leafData[k..])))
  {
    var s := LeafHashes(h, leafData);
    if |leafData| > 1 {
      var k := SplitPoint(|leafData|);
      assert s[..k] == LeafHashes(h, leafData[..k]) && s[k..] == LeafHashes(h, leafData[k..]);
    }
  }

  lemma MultisetOfParts<T>(s: seq<T>, k: nat)
    requires k <= |s|
    ensures multiset(s) == multiset(s[..k]) + multiset(s[k..])
  {
    assert s == s[..k] + s[k..];
  }

  /** What RootBinds assumes of two lists. */
  ghost predicate Comparable(h: Hash, a: seq<bytes>, b: seq<bytes>, strings: set<bytes>)
  {
    && a != [] && b != []
    && NoLeafLooksLikeAPair(a) && NoLeafLooksLikeAPair(b)
    && HashedStrings(h, a) <= strings && HashedStrings(h, b) <= strings
    && RootOf(h, a) == RootOf(h, b)
  }

  lemma LeafRootBinds(h: Hash, a: seq<bytes>, b: seq<bytes>, strings: set<bytes>)
    requires Comparable(h, a, b, strings) && CollisionFree(h, strings)
    requires |a| == 1 || |b| == 1
    ensures a == b
  {
    RootUnfold(h, a);
    RootUnfold(h, b);
  }

  lemma NodeRootsMatch(h: Hash, a: seq<bytes>, b: seq<bytes>, strings: set<bytes>)
    requires Comparable(h, a, b, strings) && CollisionFree(h, strings)
    requires |a| > 1 && |b| > 1
    ensures
      var (al, ar) := (a[..SplitPoint(|a|)], a[SplitPoint(|a|)..]);
      var (bl, br) := (b[..SplitPoint(|b|)], b[SplitPoint(|b|)..]);
      || (Comparable(h, al, bl, strings) && Comparable(h, ar, br, strings))
      || (Comparable(h, al, br, strings) && Comparable(h, ar, bl, strings))
  {
    RootUnfold(h, a);
    RootUnfold(h, b);
    var (j, k) := (SplitPoint(|a|), SplitPoint(|b|));
    SortedPairInjective(RootOf(h, a[..j]), RootOf(h, a[j..]), RootOf(h, b[..k]), RootOf(h, b[k..]));
  }

  /** Equal roots mean equal leaves, up to order. */
  lemma {:induction false} RootBinds(h: Hash, a: seq<bytes>, b: seq<bytes>, strings: set<bytes>)
    requires Comparable(h, a, b, strings) && CollisionFree(h, strings)
    ensures multiset(a) == multiset(b)
    decreases |a|
  {
    if |a| == 1 || |b| == 1 {
      LeafRootBinds(h, a, b, strings);
    } else {
      var al, ar := a[..SplitPoint(|a|)], a[SplitPoint(|a|)..];
      var bl, br := b[..SplitPoint(|b|)], b[SplitPoint(|b|)..];
      MultisetOfParts(a, SplitPoint(|a|));
      MultisetOfParts(b, SplitPoint(|b|));
      NodeRootsMatch(h, a, b, strings);
      if Comparable(h, al, bl, strings) && Comparable(h, ar, br, strings) {
        RootBinds(h, al, bl, strings);
        RootBinds(h, ar, br, strings);
      } else {
        RootBinds(h, al, br, strings);
        RootBinds(h, ar, bl, strings);
      }
    }
  }

  /** Binding: with no collision among the strings the two trees hash, equal roots mean
      the same number of leaves and the same leaves with the same multiplicities. */
  lemma MerkleBinding(h: Hash, a: seq<bytes>, b: seq<bytes>)
    requires a != [] && b != []
    requires NoLeafLooksLikeAPair(a) && NoLeafLooksLikeAPair(b)
    requires CollisionFree(h, HashedStrings(h, a) + HashedStrings(h, b))
    ensures RootOf(h, a) == RootOf(h, b) ==> multiset(a) == multiset(b) && |a| == |b|
    ensures RootOf(h, a) == RootOf(h, b) ==> multiset(LeafHashes(h, a)) == multiset(LeafHashes(h, b))
  {
    if RootOf(h, a) == RootOf(h, b) {
      RootBinds(h, a, b, HashedStrings(h, a) + HashedStrings(h, b));
      EqualSize(a, b);
      MapKeepsPermutation(h, a, b);
      assert LeafHashes(h, a) == Map(h, a) && LeafHashes(h, b) == Map(h, b);
    }
  }

  /** Each hypothesis of MerkleBinding is needed, whatever the hash: the order of two siblings is
      not bound, a 64-byte leaf can stand for a pair, and the empty list shares its root. */
  lemma BindingIsSharp(h: Hash, x: bytes, y: bytes)
    ensures RootOf(h, [x, y]) == RootOf(h, [y, x])
    ensures RootOf(h, [SortedPair(h(x), h(y))]) == RootOf(h, [x, y])
    ensures RootOf(h, []) == RootOf(h, [[]])
  {
    SplitPointUnique(SplitPoint(2), 1, 2);
    RootUnfold(h, [x, y]);
    RootUnfold(h, [y, x]);
    RootUnfold(h, [x]);
    RootUnfold(h, [y]);
    RootUnfold(h, [SortedPair(h(x), h(y))]);
    assert [x, y][..1] == [x] && [x, y][1..] == [y] && [y, x][..1] == [y] && [y, x][1..] == [x];
    SortedPairSymmetric(h(x), h(y));
    RootUnfold(h, [[]]);
  }

  // ----- Inclusion paths -----

  function CeilLog2(n: nat): nat
    requires n > 0
  {
    if n == 1 then 0 else 1 + CeilLog2((n + 1) / 2)
  }

  /** CeilLog2(n) is the least d with n <= 2^d. */
  lemma {:induction false} CeilLog2IsLeast(n: nat)
    requires n > 0
    ensures n <= Pow(2, CeilLog2(n))
    ensures CeilLog2(n) > 0 ==> Pow(2, CeilLog2(n) - 1) < n
  {
    if n > 1 { CeilLog2IsLeast((n + 1) / 2); }
  }

  lemma {:induction false} CeilLog2Monotone(m: nat, n: nat)
    requires 0 < m <= n
    ensures CeilLog2(m) <= CeilLog2(n)
  {
    if m > 1 { CeilLog2Monotone((m + 1) / 2, (n + 1) / 2); }
  }

  lemma {:induction false} CeilLog2AbovePower(k: nat, n: nat)
    requires IsPowerOfTwo(k) && k < n
    ensures CeilLog2(k) + 1 <= CeilLog2(n)
  {
    if k > 1 { CeilLog2AbovePower(k / 2, (n + 1) / 2); }
  }

  /** The sibling digests from leaf `i` up to the root. */
  function Path(h: Hash, s: seq<Digest>, i: nat): seq<Digest>
    requires i < |s|
    decreases |s|
  {
    if |s| == 1 then []
    else
      var k := SplitPoint(|s|);
      if i < k then Path(h, s[..k], i) + [TopDown(h, s[k..])]
      else Path(h, s[k..], i - k) + [TopDown(h, s[..k])]
  }

  lemma FoldSnoc(h: Hash, leaf: Digest, init: seq<Digest>, last: Digest)
    ensures Fold(h, leaf, init + [last]) == Combine(h, last, Fold(h, leaf, init))
    ensures Fold(h, leaf, init + [last]) == Combine(h, Fold(h, leaf, init), last)
  {
    assert (init + [last])[..|init|] == init;
    SortedPairSymmetric(Fold(h, leaf, init), last);
  }

  lemma PathOnTheLeft(h: Hash, s: seq<Digest>, i: nat, left: seq<Digest>)
    requires i < |s| && |s| > 1 && i < SplitPoint(|s|) && left == s[..SplitPoint(|s|)]
    requires Fold(h, s[i], Path(h, left, i)) == TopDown(h, left)
    ensures Fold(h, s[i], Path(h, s, i)) == TopDown(h, s)
  {
    FoldSnoc(h, s[i], Path(h, left, i), TopDown(h, s[SplitPoint(|s|)..]));
  }

  lemma PathOnTheRight(h: Hash, s: seq<Digest>, i: nat, right: seq<Digest>)
    requires i < |s| && |s| > 1 && i >= SplitPoint(|s|) && right == s[SplitPoint(|s|)..]
    requires Fold(h, s[i], Path(h, right, i - SplitPoint(|s|))) == TopDown(h, right)
    ensures Fold(h, s[i], Path(h, s, i)) == TopDown(h, s)
  {
    FoldSnoc(h, s[i], Path(h, right, i - SplitPoint(|s|)), TopDown(h, s[..SplitPoint(|s|)]));
  }

  /** Completeness: the verifier accepts the path of every leaf. */
  lemma {:induction false} PathFoldsToRoot(h: Hash, s: seq<Digest>, i: nat)
    requires i < |s|
    ensures Fold(h, s[i], Path(h, s, i)) == TopDown(h, s)
    decreases |s|
  {
    if |s| > 1 {
      var k := SplitPoint(|s|);
      var left, right := s[..k], s[k..];
      if i < k {
        PathFoldsToRoot(h, left, i);
        assert left[i] == s[i];
        PathOnTheLeft(h, s, i, left);
      } else {
        PathFoldsToRoot(h, right, i - k);
        assert right[i - k] == s[i];
        PathOnTheRight(h, s, i, right);
      }
    }
  }

  /** A path has at most ceil(log2 n) siblings. */
  lemma {:induction false} PathIsShort(h: Hash, s: seq<Digest>, i: nat)
    requires i < |s|
    ensures |Path(h, s, i)| <= CeilLog2(|s|)
    decreases |s|
  {
    if |s| > 1 {
      var k := SplitPoint(|s|);
      CeilLog2AbovePower(k, |s|);
      CeilLog2Monotone(|s| - k, k);
      if i < k { PathIsShort(h, s[..k], i); } else { PathIsShort(h, s[k..], i - k); }
    }
  }

  /** Soundness: an accepted proof for data that is not 64 bytes long proves membership. */
  lemma {:induction false} AcceptedProofProvesMembership(
    h: Hash, leafData: seq<bytes>, data: bytes, proof: seq<Digest>, strings: set<bytes>)
    requires leafData != [] && NoLeafLooksLikeAPair(leafData) && |data| != 64
    requires HashedStrings(h, leafData) + FoldStrings(h, h(data), proof) + {data} <= strings
    requires CollisionFree(h, strings)
    requires Fold(h, h(data), proof) == RootOf(h, leafData)
    ensures data in leafData
    decreases |leafData|
  {
    RootUnfold(h, leafData);
    if |leafData| > 1 {
      var k := SplitPoint(|leafData|);
      var (l, r) := (leafData[..k], leafData[k..]);
      assert proof != [];
      var init, last := proof[..|proof| - 1], proof[|proof| - 1];
      SortedPairInjective(Fold(h, h(data), init), last, RootOf(h, l), RootOf(h, r));
      if Fold(h, h(data), init) == RootOf(h, l) {
        AcceptedProofProvesMembership(h, l, data, init, strings);
      } else {
        AcceptedProofProvesMembership(h, r, data, init, strings);
      }
    }
  }
}

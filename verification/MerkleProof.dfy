/** Sorted-pair Merkle proof checking (ignite-pay-program/src/utils/merkle.rs). */
module MerkleProof {
  import opened Bytes

  /** The hash function is a parameter: nothing about SHA-256 itself is assumed. */
  type Hash = bytes -> Digest

  /** The 64 bytes hashed for two siblings: smaller digest first. */
  function SortedPair(a: Digest, b: Digest): (s: bytes)
    ensures |s| == 64
  {
    if Less(a, b) then a + b else b + a
  }

  function HashPair(h: Hash, a: Digest, b: Digest): Digest
  {
    h(a + b)
  }

  function Combine(h: Hash, a: Digest, b: Digest): Digest
  {
    h(SortedPair(a, b))
  }

  lemma SortedPairSymmetric(a: Digest, b: Digest)
    ensures SortedPair(a, b) == SortedPair(b, a)
  {
    LessTotal(a, b);
    if Less(a, b) { LessAsymmetric(a, b); }
    if Less(b, a) { LessAsymmetric(b, a); }
  }

  /** The two siblings, the one that comes first in byte order in front. */
  lemma SortedPairIsOrdered(a: Digest, b: Digest)
    ensures
      var s := SortedPair(a, b);
      && ((s[..32] == a && s[32..] == b) || (s[..32] == b && s[32..] == a))
      && !Less(s[32..], s[..32])
  {
    var s := SortedPair(a, b);
    assert (a + b)[..32] == a && (a + b)[32..] == b && (b + a)[..32] == b && (b + a)[32..] == a;
    if Less(a, b) { LessAsymmetric(a, b); }
  }

  /** The hashed string determines the two siblings up to order. */
  lemma SortedPairInjective(a: Digest, b: Digest, c: Digest, d: Digest)
    requires SortedPair(a, b) == SortedPair(c, d)
    ensures (a == c && b == d) || (a == d && b == c)
  {
    var s, t := SortedPair(a, b), SortedPair(c, d);
    assert s[..32] == t[..32] && s[32..] == t[32..];
    assert (a + b)[..32] == a && (a + b)[32..] == b && (b + a)[..32] == b && (b + a)[32..] == a;
    assert (c + d)[..32] == c && (c + d)[32..] == d && (d + c)[..32] == d && (d + c)[32..] == c;
  }

  /** The digest reached from `leaf` by combining with each sibling in turn. */
  function Fold(h: Hash, leaf: Digest, proof: seq<Digest>): Digest
  {
    if proof == [] then leaf
    else Combine(h, Fold(h, leaf, proof[..|proof| - 1]), proof[|proof| - 1])
  }

  /** The strings hashed while folding. */
  ghost function FoldStrings(h: Hash, leaf: Digest, proof: seq<Digest>): set<bytes>
  {
    if proof == [] then {}
    else
      var init := proof[..|proof| - 1];
      {SortedPair(Fold(h, leaf, init), proof[|proof| - 1])} + FoldStrings(h, leaf, init)
  }

  method VerifyMerkleProof(h: Hash, leafHash: Digest, proof: seq<Digest>, root: Digest) returns (ok: bool)
    ensures ok <==> Fold(h, leafHash, proof) == root
  {
    var current := leafHash;
    for i := 0 to |proof|
      invariant current == Fold(h, leafHash, proof[..i])
    {
      var sibling := proof[i];
      var (left, right) := if Less(current, sibling) then (current, sibling) else (sibling, current);
      current := HashPair(h, left, right);
      assert proof[..i + 1][..i] == proof[..i];
    }
    assert proof[..|proof|] == proof;
    ok := current == root;
  }
}

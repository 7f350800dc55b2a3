/** `verify_merkle_proof` (relayer/src/light_client/mod.rs): fold the
    siblings into the leaf, each step hashing `current || sibling`, and
    compare with the root. The hash function is a parameter; its internals
    (Keccak-256) are not modelled. */
module Merkle {
  import opened Bytes

  /** A hash of a byte string to a 32-byte word (Keccak-256 in the source). */
  type Hasher = seq<byte> -> Word

  /** The reference left fold over the proof: each step hashes the running
      value followed by the sibling, whatever side the sibling is on. */
  function Fold(keccak: Hasher, leaf: Word, proof: seq<Word>): Word
    decreases |proof|
  {
    if |proof| == 0 then leaf else Fold(keccak, keccak(leaf + proof[0]), proof[1..])
  }

  /** Folding a concatenated proof is folding the second part into the
      result of the first. */
  lemma {:induction false} FoldAppend(keccak: Hasher, leaf: Word, p1: seq<Word>, p2: seq<Word>)
    ensures Fold(keccak, leaf, p1 + p2) == Fold(keccak, Fold(keccak, leaf, p1), p2)
    decreases |p1|
  {
    if |p1| == 0 {
      assert p1 + p2 == p2;
    } else {
      assert (p1 + p2)[0] == p1[0];
      assert (p1 + p2)[1..] == p1[1..] + p2;
      FoldAppend(keccak, keccak(leaf + p1[0]), p1[1..], p2);
    }
  }

  /** The loop of `verify_merkle_proof`. */
  method VerifyMerkleProof(keccak: Hasher, leaf: Word, proof: seq<Word>, root: Word) returns (ok: bool)
    ensures ok <==> Fold(keccak, leaf, proof) == root
  {
    var current: seq<byte> := leaf;
    var i := 0;
    while i < |proof|
      invariant 0 <= i <= |proof|
      invariant current == Fold(keccak, leaf, proof[..i])
    {
      assert proof[..i + 1] == proof[..i] + [proof[i]];
      FoldAppend(keccak, leaf, proof[..i], [proof[i]]);
      current := keccak(current + proof[i]);
      i := i + 1;
    }
    assert proof[..i] == proof;
    ok := current == root;
  }

  /** With no siblings the proof holds exactly when the leaf is the root. */
  lemma EmptyProof(keccak: Hasher, leaf: Word, root: Word)
    ensures Fold(keccak, leaf, []) == root <==> leaf == root
  {
  }

  /** Two siblings: the root is `H(H(leaf || s1) || s2)`. */
  lemma TwoSiblings(keccak: Hasher, leaf: Word, s1: Word, s2: Word)
    ensures Fold(keccak, leaf, [s1, s2]) == keccak(keccak(leaf + s1) + s2)
  {
    assert [s1, s2][1..] == [s2];
    assert [s2][1..] == [];
    calc {
      Fold(keccak, leaf, [s1, s2]);
      Fold(keccak, keccak(leaf + s1), [s2]);
      Fold(keccak, keccak(keccak(leaf + s1) + s2), []);
    }
  }
}

/** The sparse Merkle state trie (core/poe/src/lib.rs, `state_trie`): what a root commits to, and
    what a proof against it shows. Hashes are modelled as the data they commit to, so distinct
    contents have distinct hashes, and leaf, inner and empty hashes never collide. */
module StateTrie {
  import opened TextFormat

  const DEPTH: nat := 256

  /** A 256-bit key hash, most significant bit first: the path to its leaf. */
  type KeyHash = k: seq<bool> | |k| == DEPTH witness seq(DEPTH, _ => false)

  type Bytes = seq<nat>

  /** `Zero` is the all-zero empty-leaf sentinel. */
  datatype Hash = Zero | Leaf(key: KeyHash, value: Bytes) | Node(left: Hash, right: Hash)

  type State = map<KeyHash, Bytes>

  function Lookup(m: State, k: KeyHash): Option<Bytes> {
    if k in m then Some(m[k]) else None
  }

  /** `m` after writing `v` at `k`, or deleting `k`. */
  function Put(m: State, k: KeyHash, v: Option<Bytes>): State {
    if v.Some? then m[k := v.value] else m - {k}
  }

  /** `default_hashes()[d]`: an empty subtree of depth `d`. */
  function Default(d: nat): Hash {
    if d == 0 then Zero else Node(Default(d - 1), Default(d - 1))
  }

  function LeafNode(k: KeyHash, v: Option<Bytes>): Hash {
    if v.Some? then Leaf(k, v.value) else Zero
  }

  // ----- what a root commits to

  /** The root of the subtree holding every key of `m` that starts with `prefix`. */
  function Subtree(m: State, prefix: seq<bool>): Hash
    requires |prefix| <= DEPTH
    decreases DEPTH - |prefix|
  {
    if |prefix| == DEPTH then LeafNode(prefix, Lookup(m, prefix))
    else Node(Subtree(m, prefix + [false]), Subtree(m, prefix + [true]))
  }

  function RootOf(m: State): Hash { Subtree(m, []) }

  /** A subtree depends only on the keys under it. */
  lemma {:induction false} SubtreeLocal(m: State, n: State, prefix: seq<bool>)
    requires |prefix| <= DEPTH
    requires forall k: KeyHash :: prefix <= k ==> Lookup(m, k) == Lookup(n, k)
    ensures Subtree(m, prefix) == Subtree(n, prefix)
    decreases DEPTH - |prefix|
  {
    if |prefix| < DEPTH {
      SubtreeLocal(m, n, prefix + [false]);
      SubtreeLocal(m, n, prefix + [true]);
    }
  }

  /** A subtree with no keys is the default of its depth: `root_of`'s shortcut is exact. */
  lemma {:induction false} SubtreeEmpty(m: State, prefix: seq<bool>)
    requires |prefix| <= DEPTH
    requires forall k: KeyHash :: prefix <= k ==> k !in m
    ensures Subtree(m, prefix) == Default(DEPTH - |prefix|)
    decreases DEPTH - |prefix|
  {
    if |prefix| < DEPTH {
      SubtreeEmpty(m, prefix + [false]);
      SubtreeEmpty(m, prefix + [true]);
    }
  }

  /** The contents determine the root and the root the contents. */
  lemma {:induction false} SubtreeCommits(m: State, n: State, prefix: seq<bool>, k: KeyHash)
    requires |prefix| <= DEPTH && prefix <= k && Subtree(m, prefix) == Subtree(n, prefix)
    ensures Lookup(m, k) == Lookup(n, k)
    decreases DEPTH - |prefix|
  {
    if |prefix| < DEPTH {
      if k[|prefix|] {
        SubtreeCommits(m, n, prefix + [true], k);
      } else {
        SubtreeCommits(m, n, prefix + [false], k);
      }
    } else {
      assert prefix == k;
    }
  }

  // ----- paths

  /** The node with children `node` on `k`'s side at `level` and `sibling` on the other. */
  function Join(k: KeyHash, level: nat, node: Hash, sibling: Hash): Hash
    requires level < DEPTH
  {
    if k[level] then Node(sibling, node) else Node(node, sibling)
  }

  /** The root reached by climbing from `node` at `level` past the siblings above it. */
  function Climb(k: KeyHash, siblings: seq<Hash>, node: Hash, level: nat): Hash
    requires |siblings| == DEPTH && level <= DEPTH
    decreases level
  {
    if level == 0 then node
    else Climb(k, siblings, Join(k, level - 1, node, siblings[level - 1]), level - 1)
  }

  function Flip(k: KeyHash, level: nat): (p: seq<bool>)
    requires level < DEPTH
    ensures |p| == level + 1 && !(p <= k)
  {
    k[..level] + [!k[level]]
  }

  /** The siblings along `k`'s path in the trie of `m`. */
  function SiblingsOf(m: State, k: KeyHash): (ss: seq<Hash>)
    ensures |ss| == DEPTH
  {
    seq(DEPTH, level requires 0 <= level < DEPTH => Subtree(m, Flip(k, level)))
  }

  lemma SubtreeSplits(m: State, k: KeyHash, level: nat)
    requires level < DEPTH
    ensures Subtree(m, k[..level]) == Join(k, level, Subtree(m, k[..level + 1]), Subtree(m, Flip(k, level)))
  {
    assert k[..level + 1] == k[..level] + [k[level]];
  }

  /** Climbing the true path leads to the true root. */
  lemma {:induction false} ClimbTrue(m: State, k: KeyHash, siblings: seq<Hash>, level: nat)
    requires level <= DEPTH && |siblings| == DEPTH
    requires forall i :: 0 <= i < level ==> siblings[i] == Subtree(m, Flip(k, i))
    ensures Climb(k, siblings, Subtree(m, k[..level]), level) == RootOf(m)
    decreases level
  {
    if level == 0 {
      assert k[..0] == [];
    } else {
      SubtreeSplits(m, k, level - 1);
      ClimbTrue(m, k, siblings, level - 1);
    }
  }

  // ----- proofs

  datatype Proof = Proof(key: KeyHash, value: Option<Bytes>, siblings: seq<Hash>)

  /** `verify_proof`. */
  predicate Verifies(root: Hash, p: Proof) {
    |p.siblings| == DEPTH && Climb(p.key, p.siblings, LeafNode(p.key, p.value), DEPTH) == root
  }

  /** Climbing to the true root is climbing the true path: nothing else hashes to it. */
  lemma {:induction false} ClimbUnique(m: State, k: KeyHash, siblings: seq<Hash>, node: Hash, level: nat)
    requires level <= DEPTH && |siblings| == DEPTH && Climb(k, siblings, node, level) == RootOf(m)
    ensures node == Subtree(m, k[..level])
    ensures forall i :: 0 <= i < level ==> siblings[i] == Subtree(m, Flip(k, i))
    decreases level
  {
    if level == 0 {
      assert k[..0] == [];
    } else {
      ClimbUnique(m, k, siblings, Join(k, level - 1, node, siblings[level - 1]), level - 1);
      SubtreeSplits(m, k, level - 1);
    }
  }

  /** A proof verifies against the root of `m` exactly when it tells the truth about `m`: the value
      at its key (or its absence) and the sibling at every level. */
  lemma ProofExact(m: State, p: Proof)
    ensures Verifies(RootOf(m), p) <==> p.value == Lookup(m, p.key) && p.siblings == SiblingsOf(m, p.key)
  {
    assert p.key[..DEPTH] == p.key;
    if Verifies(RootOf(m), p) {
      ClimbUnique(m, p.key, p.siblings, LeafNode(p.key, p.value), DEPTH);
    }
    if p.value == Lookup(m, p.key) && p.siblings == SiblingsOf(m, p.key) {
      ClimbTrue(m, p.key, p.siblings, DEPTH);
    }
  }

  /** Writing one key replaces its leaf and leaves every sibling subtree alone. */
  lemma PutRoot(m: State, k: KeyHash, v: Option<Bytes>)
    ensures RootOf(Put(m, k, v)) == Climb(k, SiblingsOf(m, k), LeafNode(k, v), DEPTH)
  {
    var n := Put(m, k, v);
    forall i | 0 <= i < DEPTH ensures SiblingsOf(m, k)[i] == Subtree(n, Flip(k, i)) {
      SubtreeLocal(m, n, Flip(k, i));
    }
    assert k[..DEPTH] == k;
    ClimbTrue(n, k, SiblingsOf(m, k), DEPTH);
  }
}

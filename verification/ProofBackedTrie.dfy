/** `ProofBackedTrie` as it runs: maps filled node by node while walking a path
    (core/poe/src/lib.rs). Each method does what `ProofTrie` says, so everything proved there and
    in `ProofCoverage` is about this object. */
module ProofBackedTrieClass {
  import opened TextFormat
  import opened StateTrie
  import T = ProofTrie

  /** `verify_proof`: climb from the leaf and compare. */
  method VerifyProof(root: Hash, p: Proof) returns (ok: bool)
    ensures ok == Verifies(root, p)
  {
    if |p.siblings| != DEPTH {
      return false;
    }
    var current := LeafNode(p.key, p.value);
    var level := DEPTH;
    while level > 0
      invariant 0 <= level <= DEPTH
      invariant Climb(p.key, p.siblings, current, level) == Climb(p.key, p.siblings, LeafNode(p.key, p.value), DEPTH)
    {
      level := level - 1;
      current := Join(p.key, level, current, p.siblings[level]);
    }
    ok := current == root;
  }

  class ProofBackedTrie {
    var root: Hash
    var nodes: map<Hash, (Hash, Hash)>
    var leaves: map<Hash, Bytes>

    function Contents(): T.Partial
      reads this
    {
      T.Partial(root, nodes, leaves)
    }

    constructor (root: Hash)
      ensures Contents() == T.Partial(root, map[], map[])
    {
      this.root := root;
      nodes, leaves := map[], map[];
    }

    /** The climb shared by `record_path` and `apply`: stores the leaf's value and every node on the
        path, and returns the root it reaches. */
    method ClimbPath(k: KeyHash, v: Option<Bytes>, siblings: seq<Hash>) returns (top: Hash)
      requires |siblings| == DEPTH
      modifies this
      ensures root == old(root)
      ensures Contents().(root := top) == T.Record(old(Contents()), k, v, siblings)
    {
      var leaf := LeafNode(k, v);
      if v.Some? {
        leaves := leaves[leaf := v.value];
      }
      top := leaf;
      var level := DEPTH;
      while level > 0
        invariant 0 <= level <= DEPTH
        invariant root == old(root)
        invariant leaves == if v.Some? then old(leaves)[leaf := v.value] else old(leaves)
        invariant Climb(k, siblings, top, level) == Climb(k, siblings, leaf, DEPTH)
        invariant nodes + T.PathRows(k, siblings, top, level) == old(nodes) + T.PathRows(k, siblings, leaf, DEPTH)
      {
        T.RowsOnce(nodes, k, siblings, top, level);
        level := level - 1;
        var parent := Join(k, level, top, siblings[level]);
        nodes := nodes[parent := (parent.left, parent.right)];
        top := parent;
      }
      assert nodes + map[] == nodes;
    }

    /** Walks `k`'s path down from the root; `found` is false the moment a node is missing. */
    method Descend(k: KeyHash) returns (found: bool, siblings: seq<Hash>, leaf: Hash)
      ensures found == T.Descend(nodes, root, k, 0).Some?
      ensures found ==> (siblings, leaf) == T.Descend(nodes, root, k, 0).value
    {
      hide T.Descend;
      ghost var whole := T.Descend(nodes, root, k, 0);
      siblings, leaf := [], root;
      assert whole.Some? ==> [] + whole.value.0 == whole.value.0;
      var level := 0;
      while level < DEPTH
        invariant 0 <= level <= DEPTH
        invariant T.After(siblings, T.Descend(nodes, leaf, k, level)) == whole
      {
        T.DescendOnce(nodes, leaf, k, level, siblings);
        if leaf == Default(DEPTH - level) {
          siblings := siblings + [Default(DEPTH - level - 1)];
          leaf := Default(DEPTH - level - 1);
        } else if leaf !in nodes {
          return false, siblings, leaf;
        } else {
          var (left, right) := nodes[leaf];
          siblings := siblings + [if k[level] then left else right];
          leaf := if k[level] then right else left;
        }
        level := level + 1;
      }
      T.DescendEnd(nodes, leaf, k);
      found := true;
    }

    method Get(k: KeyHash) returns (a: T.Answer)
      ensures a == T.Get(Contents(), k)
    {
      var found, _, leaf := Descend(k);
      if !found {
        a := T.Unproven;
      } else if leaf == Zero {
        a := T.Known(None);
      } else if leaf in leaves {
        a := T.Known(Some(leaves[leaf]));
      } else {
        a := T.Unproven;
      }
    }

    /** Fails closed, leaving the trie as it was, when the path is not covered. */
    method Apply(k: KeyHash, v: Option<Bytes>) returns (ok: bool)
      modifies this
      ensures ok == T.Apply(old(Contents()), k, v).Some?
      ensures ok ==> Contents() == T.Apply(old(Contents()), k, v).value
      ensures !ok ==> Contents() == old(Contents())
    {
      var found, siblings, _ := Descend(k);
      ok := found;
      if ok {
        root := ClimbPath(k, v, siblings);
      }
    }
  }

  /** `from_proofs`: one bad proof rejects the batch. */
  method FromProofs(root: Hash, proofs: seq<Proof>) returns (ok: bool, trie: ProofBackedTrie)
    ensures fresh(trie)
    ensures ok == T.FromProofs(root, proofs).Some?
    ensures ok ==> trie.Contents() == T.FromProofs(root, proofs).value
  {
    trie := new ProofBackedTrie(root);
    for i := 0 to |proofs|
      invariant T.FromProofs(root, proofs[..i]) == Some(trie.Contents())
      invariant trie.root == root
    {
      assert proofs[..i + 1][..i] == proofs[..i];
      var good := VerifyProof(root, proofs[i]);
      if !good {
        Rejected(root, proofs, i + 1);
        return false, trie;
      }
      var top := trie.ClimbPath(proofs[i].key, proofs[i].value, proofs[i].siblings);
    }
    assert proofs[..|proofs|] == proofs;
    ok := true;
  }

  /** A batch with a rejected prefix is rejected. */
  lemma {:induction false} Rejected(root: Hash, proofs: seq<Proof>, i: nat)
    requires i <= |proofs| && T.FromProofs(root, proofs[..i]).None?
    ensures T.FromProofs(root, proofs).None?
    decreases |proofs|
  {
    if i < |proofs| {
      var front := proofs[..|proofs| - 1];
      assert front[..i] == proofs[..i];
      Rejected(root, front, i);
    } else {
      assert proofs[..i] == proofs;
    }
  }
}

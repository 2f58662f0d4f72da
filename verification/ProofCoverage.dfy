/** Which keys a proof-backed trie can answer, and that updates never change it: a key is readable
    exactly when it was at the start or has been written since, and writable exactly when it was at
    the start (core/poe/src/lib.rs, `ProofBackedTrie`). */
module ProofCoverage {
  import opened TextFormat
  import opened StateTrie
  import opened ProofTrie

  /** The path to `k` is known: `k` can be written. */
  predicate KnowsPath(t: Partial, k: KeyHash) {
    Descend(t.nodes, t.root, k, 0).Some?
  }

  /** The value at `k`, or its absence, is known: `k` can be read. */
  predicate KnowsValue(t: Partial, k: KeyHash) {
    Get(t, k).Known?
  }

  // ----- where in the trie a hash can occur

  /** Some key stored under `h`. */
  function AnyKey(h: Hash): Option<KeyHash> {
    match h
    case Zero => None
    case Leaf(k, _) => Some(k)
    case Node(l, r) => if AnyKey(l).Some? then AnyKey(l) else AnyKey(r)
  }

  function Tall(h: Hash): nat {
    if h.Node? then Tall(h.left) + 1 else 0
  }

  /** A subtree knows its depth, is empty only if it is the default, and holds only its own keys. */
  lemma {:induction false} SubtreeSelf(m: State, p: seq<bool>)
    requires |p| <= DEPTH
    ensures Tall(Subtree(m, p)) == DEPTH - |p|
    ensures AnyKey(Subtree(m, p)).Some? ==> p <= AnyKey(Subtree(m, p)).value
    ensures AnyKey(Subtree(m, p)).None? ==> Subtree(m, p) == Default(DEPTH - |p|)
    decreases DEPTH - |p|
  {
    if |p| < DEPTH {
      SubtreeSelf(m, p + [false]);
      SubtreeSelf(m, p + [true]);
      assert p <= p + [false] && p <= p + [true];
    }
  }

  lemma PrefixesOfOne(p: seq<bool>, q: seq<bool>, k: KeyHash)
    requires |p| == |q| && p <= k && q <= k
    ensures p == q
  {
    assert p == k[..|p|] == q;
  }

  /** A non-empty subtree hash occurs at one position only. */
  lemma SubtreePosition(m: State, p: seq<bool>, q: seq<bool>)
    requires |p| <= DEPTH && |q| <= DEPTH && Subtree(m, p) == Subtree(m, q)
    requires Subtree(m, p) != Default(DEPTH - |p|)
    ensures p == q
  {
    SubtreeSelf(m, p);
    SubtreeSelf(m, q);
    PrefixesOfOne(p, q, AnyKey(Subtree(m, p)).value);
  }

  // ----- the rows along a path

  /** The rows of `k`'s path are exactly the inner nodes on it. */
  lemma {:induction false} PathRowsTrue(m: State, k: KeyHash, level: nat, h: Hash)
    requires level <= DEPTH
    ensures h in PathRows(k, SiblingsOf(m, k), Subtree(m, k[..level]), level) <==>
            exists i :: 0 <= i < level && h == Subtree(m, k[..i])
    decreases level
  {
    hide Subtree;
    if level > 0 {
      SubtreeSplits(m, k, level - 1);
      PathRowsTrue(m, k, level - 1, h);
    }
  }

  lemma PathRecorded(m: State, k: KeyHash, h: Hash)
    ensures h in PathRows(k, SiblingsOf(m, k), LeafNode(k, Lookup(m, k)), DEPTH) <==>
            exists i :: 0 <= i < DEPTH && h == Subtree(m, k[..i])
  {
    assert k[..DEPTH] == k;
    PathRowsTrue(m, k, DEPTH, h);
  }

  /** The siblings along `k` in `m` and after writing `k` are the same. */
  lemma SiblingsStay(m: State, k: KeyHash, v: Option<Bytes>)
    ensures SiblingsOf(Put(m, k, v), k) == SiblingsOf(m, k)
  {
    forall i | 0 <= i < DEPTH ensures SiblingsOf(Put(m, k, v), k)[i] == SiblingsOf(m, k)[i] {
      SubtreeLocal(m, Put(m, k, v), Flip(k, i));
    }
  }

  // ----- descents below a point

  /** The rest of `j`'s path below `level` is known. */
  predicate KnownBelow(t: Partial, m: State, j: KeyHash, level: nat)
    requires level <= DEPTH
  {
    Descend(t.nodes, Subtree(m, j[..level]), j, level).Some?
  }

  /** The node at `level` can be stepped through. */
  predicate KnownAt(t: Partial, m: State, j: KeyHash, level: nat)
    requires level < DEPTH
  {
    Subtree(m, j[..level]) == Default(DEPTH - level) || Subtree(m, j[..level]) in t.nodes
  }

  lemma KnownStep(t: Partial, m: State, j: KeyHash, level: nat)
    requires Coherent(t) && level < DEPTH
    ensures KnownBelow(t, m, j, level) <==> KnownAt(t, m, j, level) && KnownBelow(t, m, j, level + 1)
  {
    StepDownTrue(t, m, j, level);
  }

  /** Two views that agree on which nodes of `j`'s remaining path they hold agree on reaching its end. */
  lemma {:induction false} KnownSame(t: Partial, m: State, t': Partial, m': State, j: KeyHash, level: nat)
    requires Coherent(t) && Coherent(t') && level <= DEPTH
    requires forall i :: level <= i < DEPTH ==> (KnownAt(t, m, j, i) <==> KnownAt(t', m', j, i))
    ensures KnownBelow(t, m, j, level) <==> KnownBelow(t', m', j, level)
    decreases DEPTH - level
  {
    if level < DEPTH {
      KnownStep(t, m, j, level);
      KnownStep(t', m', j, level);
      KnownSame(t, m, t', m', j, level + 1);
    }
  }

  lemma {:induction false} KnownEverywhere(t: Partial, m: State, k: KeyHash, level: nat, i: nat)
    requires Coherent(t) && level <= i < DEPTH && KnownBelow(t, m, k, level)
    ensures KnownAt(t, m, k, i)
    decreases i - level
  {
    KnownStep(t, m, k, level);
    if level < i {
      KnownEverywhere(t, m, k, level + 1, i);
    }
  }

  /** Writing `k` adds the inner nodes of `k`'s new path, and no others. */
  lemma ApplyNodes(t: Partial, m: State, k: KeyHash, v: Option<Bytes>, h: Hash)
    requires Views(t, m) && Apply(t, k, v).Some?
    ensures h in Apply(t, k, v).value.nodes <==>
            h in t.nodes || exists e :: 0 <= e < DEPTH && h == Subtree(Put(m, k, v), k[..e])
  {
    assert k[..0] == [] && SiblingsOf(m, k)[0..] == SiblingsOf(m, k);
    DescendTrue(t, m, k, 0);
    SiblingsStay(m, k, v);
    PathRecorded(Put(m, k, v), k, h);
  }

  /** Above the fork of `j` and `k`: on `k`'s own path, known before and after. */
  lemma KnownAboveFork(t: Partial, m: State, k: KeyHash, v: Option<Bytes>, j: KeyHash, i: nat)
    requires Views(t, m) && Apply(t, k, v).Some? && i < DEPTH && j[..i] == k[..i]
    ensures KnownAt(t, m, j, i) && KnownAt(Apply(t, k, v).value, Put(m, k, v), j, i)
  {
    assert k[..0] == [];
    KnownEverywhere(t, m, k, 0, i);
    ApplyNodes(t, m, k, v, Subtree(Put(m, k, v), k[..i]));
  }

  /** Below the fork: the subtree is untouched, and none of `k`'s new rows can be it. */
  lemma KnownBelowFork(t: Partial, m: State, k: KeyHash, v: Option<Bytes>, j: KeyHash, i: nat)
    requires Views(t, m) && Apply(t, k, v).Some? && i < DEPTH && j[..i] != k[..i]
    ensures KnownAt(t, m, j, i) <==> KnownAt(Apply(t, k, v).value, Put(m, k, v), j, i)
  {
    hide Apply, Put, Views;
    var n := Put(m, k, v);
    assert forall x: KeyHash :: j[..i] <= x ==> Lookup(m, x) == Lookup(n, x) by { OtherKeys(m, k, v, j, i); }
    SubtreeLocal(m, n, j[..i]);
    ApplyNodes(t, m, k, v, Subtree(n, j[..i]));
    forall e | 0 <= e < DEPTH && Subtree(n, j[..i]) == Subtree(n, k[..e])
      ensures Subtree(n, j[..i]) == Default(DEPTH - i)
    {
      if Subtree(n, j[..i]) != Default(DEPTH - i) {
        SubtreePosition(n, j[..i], k[..e]);
      }
    }
  }

  lemma OtherKeys(m: State, k: KeyHash, v: Option<Bytes>, j: KeyHash, i: nat)
    requires i < DEPTH && j[..i] != k[..i]
    ensures forall x: KeyHash :: j[..i] <= x ==> Lookup(m, x) == Lookup(Put(m, k, v), x)
  {
    assert forall x: KeyHash :: j[..i] <= x ==> x[..i] == j[..i];
  }

  /** Writing `k` changes which paths are known for no key. */
  lemma ApplyKeepsPaths(t: Partial, m: State, k: KeyHash, v: Option<Bytes>, j: KeyHash)
    requires Views(t, m) && Apply(t, k, v).Some?
    ensures KnowsPath(Apply(t, k, v).value, j) <==> KnowsPath(t, j)
  {
    var after := Apply(t, k, v).value;
    ApplyTrue(t, m, k, v);
    forall i | 0 <= i < DEPTH ensures KnownAt(t, m, j, i) <==> KnownAt(after, Put(m, k, v), j, i) {
      if j[..i] == k[..i] {
        KnownAboveFork(t, m, k, v, j, i);
      } else {
        KnownBelowFork(t, m, k, v, j, i);
      }
    }
    assert j[..0] == [];
    KnownSame(t, m, after, Put(m, k, v), j, 0);
  }

  /** A value is known when the path is and the leaf at its end is empty or stored. */
  lemma ValueKnown(t: Partial, m: State, j: KeyHash)
    requires Views(t, m)
    ensures KnowsValue(t, j) <==> KnowsPath(t, j) && (j in m ==> Leaf(j, m[j]) in t.leaves)
  {
    assert j[..0] == [];
    DescendTrue(t, m, j, 0);
  }

  /** Writing `k` makes `k` readable and changes nothing else. */
  lemma ApplyKeepsValues(t: Partial, m: State, k: KeyHash, v: Option<Bytes>, j: KeyHash)
    requires Views(t, m) && Apply(t, k, v).Some?
    ensures KnowsValue(Apply(t, k, v).value, j) <==> j == k || KnowsValue(t, j)
  {
    ApplyTrue(t, m, k, v);
    ApplyKeepsPaths(t, m, k, v, j);
    ValueKnown(t, m, j);
    ValueKnown(Apply(t, k, v).value, Put(m, k, v), j);
  }

  // ----- what the proofs cover

  lemma {:induction false} KnownGrows(t: Partial, t': Partial, m: State, j: KeyHash, level: nat)
    requires Coherent(t) && Coherent(t') && level <= DEPTH && KnownBelow(t, m, j, level)
    requires forall h :: h in t.nodes ==> h in t'.nodes
    ensures KnownBelow(t', m, j, level)
    decreases DEPTH - level
  {
    if level < DEPTH {
      KnownStep(t, m, j, level);
      KnownStep(t', m, j, level);
      KnownGrows(t, t', m, j, level + 1);
    }
  }

  lemma {:induction false} PathKnown(t: Partial, m: State, k: KeyHash, level: nat)
    requires Coherent(t) && level <= DEPTH
    requires forall i :: level <= i < DEPTH ==> Subtree(m, k[..i]) in t.nodes
    ensures KnownBelow(t, m, k, level)
    decreases DEPTH - level
  {
    if level < DEPTH {
      PathKnown(t, m, k, level + 1);
      KnownStep(t, m, k, level);
    }
  }

  lemma RecordedKnown(t: Partial, m: State, k: KeyHash)
    requires Coherent(t)
    ensures KnowsValue(Record(t, k, Lookup(m, k), SiblingsOf(m, k)), k)
  {
    var after := Record(t, k, Lookup(m, k), SiblingsOf(m, k));
    RecordCoherent(t, k, Lookup(m, k), SiblingsOf(m, k));
    assert k[..DEPTH] == k && k[..0] == [];
    ClimbTrue(m, k, SiblingsOf(m, k), DEPTH);
    forall i | 0 <= i < DEPTH ensures Subtree(m, k[..i]) in after.nodes {
      PathRecorded(m, k, Subtree(m, k[..i]));
    }
    PathKnown(after, m, k, 0);
    ValueKnown(after, m, k);
  }

  lemma RecordGrows(t: Partial, m: State, k: KeyHash, j: KeyHash)
    requires Views(t, m) && KnowsValue(t, j)
    ensures KnowsValue(Record(t, k, Lookup(m, k), SiblingsOf(m, k)), j)
  {
    var after := Record(t, k, Lookup(m, k), SiblingsOf(m, k));
    RecordCoherent(t, k, Lookup(m, k), SiblingsOf(m, k));
    assert k[..DEPTH] == k && j[..0] == [];
    ClimbTrue(m, k, SiblingsOf(m, k), DEPTH);
    ValueKnown(t, m, j);
    KnownGrows(t, after, m, j, 0);
    ValueKnown(after, m, j);
  }

  /** Every key a proof was supplied for can be read and written from the start. */
  lemma {:induction false} ProofsCover(m: State, proofs: seq<Proof>, p: Proof)
    requires FromProofs(RootOf(m), proofs).Some? && p in proofs
    ensures KnowsValue(FromProofs(RootOf(m), proofs).value, p.key)
    decreases |proofs|
  {
    hide KnowsValue, Record, Verifies, SiblingsOf, RootOf;
    var n := |proofs| - 1;
    var before := FromProofs(RootOf(m), proofs[..n]).value;
    FromProofsTrue(m, proofs[..n]);
    ProofExact(m, proofs[n]);
    if p == proofs[n] {
      RecordedKnown(before, m, p.key);
    } else {
      assert p in proofs[..n];
      ProofsCover(m, proofs[..n], p);
      RecordGrows(before, m, proofs[n].key, p.key);
    }
  }
}

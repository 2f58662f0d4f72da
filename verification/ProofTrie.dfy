/** A trie rebuilt from proofs alone (core/poe/src/lib.rs, `ProofBackedTrie`): it answers only what
    the proofs cover, answers it as the full trie would, and keeps doing both across updates. */
module ProofTrie {
  import opened TextFormat
  import opened StateTrie

  /** Content-addressed nodes and leaf values, and the root they hang from. */
  datatype Partial = Partial(root: Hash, nodes: map<Hash, (Hash, Hash)>, leaves: map<Hash, Bytes>)

  /** Every stored row is what its hash commits to. */
  ghost predicate Coherent(t: Partial) {
    && (forall h :: h in t.nodes ==> h == Node(t.nodes[h].0, t.nodes[h].1))
    && (forall h :: h in t.leaves ==> h.Leaf? && h.value == t.leaves[h])
  }

  /** `t` is a partial view of `m`. */
  ghost predicate Views(t: Partial, m: State) {
    Coherent(t) && t.root == RootOf(m)
  }

  // ----- descending

  /** The child to follow and its sibling at `level`, if they are known: the default pair below an
      empty subtree, otherwise the stored row. */
  function StepDown(nodes: map<Hash, (Hash, Hash)>, node: Hash, k: KeyHash, level: nat): Option<(Hash, Hash)>
    requires level < DEPTH
  {
    if node == Default(DEPTH - level) then Some((Default(DEPTH - level - 1), Default(DEPTH - level - 1)))
    else if node !in nodes then None
    else if k[level] then Some((nodes[node].1, nodes[node].0)) else Some(nodes[node])
  }

  /** The leaf under `node` on `k`'s path and the siblings passed on the way, or `None` the moment
      a node is missing. */
  function Descend(nodes: map<Hash, (Hash, Hash)>, node: Hash, k: KeyHash, level: nat): (d: Option<(seq<Hash>, Hash)>)
    requires level <= DEPTH
    ensures d.Some? ==> |d.value.0| == DEPTH - level
    decreases DEPTH - level
  {
    if level == DEPTH then Some(([], node))
    else
      var down := StepDown(nodes, node, k, level);
      if down.None? then None
      else
        var rest := Descend(nodes, down.value.0, k, level + 1);
        if rest.None? then None else Some(([down.value.1] + rest.value.0, rest.value.1))
  }

  /** A descent continued after passing the siblings `ss`. */
  function After(ss: seq<Hash>, d: Option<(seq<Hash>, Hash)>): Option<(seq<Hash>, Hash)> {
    if d.None? then None else Some((ss + d.value.0, d.value.1))
  }

  lemma DescendOnce(nodes: map<Hash, (Hash, Hash)>, node: Hash, k: KeyHash, level: nat, ss: seq<Hash>)
    requires level < DEPTH
    ensures var down := StepDown(nodes, node, k, level);
            After(ss, Descend(nodes, node, k, level)) ==
            if down.None? then None else After(ss + [down.value.1], Descend(nodes, down.value.0, k, level + 1))
  {
    var down := StepDown(nodes, node, k, level);
    if down.Some? {
      var rest := Descend(nodes, down.value.0, k, level + 1);
      if rest.Some? {
        assert ss + ([down.value.1] + rest.value.0) == ss + [down.value.1] + rest.value.0;
      }
    }
  }

  lemma DescendEnd(nodes: map<Hash, (Hash, Hash)>, node: Hash, k: KeyHash)
    ensures Descend(nodes, node, k, DEPTH) == Some(([], node))
    ensures forall ss: seq<Hash> :: ss + [] == ss
  {
  }

  /** In a coherent trie a known step is the true one. */
  lemma StepDownTrue(t: Partial, m: State, k: KeyHash, level: nat)
    requires Coherent(t) && level < DEPTH
    ensures var down := StepDown(t.nodes, Subtree(m, k[..level]), k, level);
            down.Some? ==> down.value == (Subtree(m, k[..level + 1]), Subtree(m, Flip(k, level)))
  {
    SubtreeSplits(m, k, level);
  }

  /** What a descent finds is what the full trie holds. */
  lemma {:induction false} DescendTrue(t: Partial, m: State, k: KeyHash, level: nat)
    requires Coherent(t) && level <= DEPTH
    ensures var d := Descend(t.nodes, Subtree(m, k[..level]), k, level);
            d.Some? ==> && d.value.0 == SiblingsOf(m, k)[level..]
                        && d.value.1 == LeafNode(k, Lookup(m, k))
    decreases DEPTH - level
  {
    if level == DEPTH {
      assert k[..DEPTH] == k;
    } else {
      StepDownTrue(t, m, k, level);
      DescendTrue(t, m, k, level + 1);
      assert SiblingsOf(m, k)[level..] == [SiblingsOf(m, k)[level]] + SiblingsOf(m, k)[level + 1..];
    }
  }

  // ----- reading and writing

  datatype Answer = Known(value: Option<Bytes>) | Unproven

  /** `get`. */
  function Get(t: Partial, k: KeyHash): Answer {
    var d := Descend(t.nodes, t.root, k, 0);
    if d.None? then Unproven
    else if d.value.1 == Zero then Known(None)
    else if d.value.1 in t.leaves then Known(Some(t.leaves[d.value.1]))
    else Unproven
  }

  /** The rows for every node on `k`'s path from `node` at `level` up to the root. */
  function PathRows(k: KeyHash, siblings: seq<Hash>, node: Hash, level: nat): map<Hash, (Hash, Hash)>
    requires |siblings| == DEPTH && level <= DEPTH
    decreases level
  {
    if level == 0 then map[]
    else
      var sibling := siblings[level - 1];
      var parent := Join(k, level - 1, node, sibling);
      PathRows(k, siblings, parent, level - 1)[parent := (parent.left, parent.right)]
  }

  /** `record_path`, and the climb of `apply`: store the leaf and its path, and move the root. */
  function Record(t: Partial, k: KeyHash, v: Option<Bytes>, siblings: seq<Hash>): Partial
    requires |siblings| == DEPTH
  {
    Partial(Climb(k, siblings, LeafNode(k, v), DEPTH),
            t.nodes + PathRows(k, siblings, LeafNode(k, v), DEPTH),
            if v.Some? then t.leaves[Leaf(k, v.value) := v.value] else t.leaves)
  }

  /** `apply`. */
  function Apply(t: Partial, k: KeyHash, v: Option<Bytes>): Option<Partial> {
    var d := Descend(t.nodes, t.root, k, 0);
    if d.None? then None else Some(Record(t, k, v, d.value.0))
  }

  /** `from_proofs`: every proof verified against `root` before it is recorded. */
  function FromProofs(root: Hash, proofs: seq<Proof>): Option<Partial> {
    if proofs == [] then Some(Partial(root, map[], map[]))
    else
      var n := |proofs| - 1;
      var before := FromProofs(root, proofs[..n]);
      if before.None? || !Verifies(root, proofs[n]) then None
      else Some(Record(before.value, proofs[n].key, proofs[n].value, proofs[n].siblings))
  }

  lemma {:induction false} PathRowsCoherent(k: KeyHash, siblings: seq<Hash>, node: Hash, level: nat)
    requires |siblings| == DEPTH && level <= DEPTH
    ensures forall h :: h in PathRows(k, siblings, node, level) ==>
              h == Node(PathRows(k, siblings, node, level)[h].0, PathRows(k, siblings, node, level)[h].1)
    decreases level
  {
    if level > 0 {
      PathRowsCoherent(k, siblings, Join(k, level - 1, node, siblings[level - 1]), level - 1);
    }
  }

  /** Storing a parent before its own path is the same as after it. */
  lemma RowsOnce(nodes: map<Hash, (Hash, Hash)>, k: KeyHash, siblings: seq<Hash>, node: Hash, level: nat)
    requires |siblings| == DEPTH && 0 < level <= DEPTH
    ensures var parent := Join(k, level - 1, node, siblings[level - 1]);
            && nodes[parent := (parent.left, parent.right)] + PathRows(k, siblings, parent, level - 1)
               == nodes + PathRows(k, siblings, node, level)
            && Climb(k, siblings, parent, level - 1) == Climb(k, siblings, node, level)
  {
    PathRowsCoherent(k, siblings, Join(k, level - 1, node, siblings[level - 1]), level - 1);
  }

  lemma RecordCoherent(t: Partial, k: KeyHash, v: Option<Bytes>, siblings: seq<Hash>)
    requires Coherent(t) && |siblings| == DEPTH
    ensures Coherent(Record(t, k, v, siblings))
  {
    PathRowsCoherent(k, siblings, LeafNode(k, v), DEPTH);
  }

  /** A read that is answered is answered as the full state would. */
  lemma GetTrue(t: Partial, m: State, k: KeyHash)
    requires Views(t, m) && Get(t, k).Known?
    ensures Get(t, k).value == Lookup(m, k)
  {
    assert k[..0] == [];
    DescendTrue(t, m, k, 0);
  }

  /** An update that goes through lands on the root a full commit would. */
  lemma ApplyTrue(t: Partial, m: State, k: KeyHash, v: Option<Bytes>)
    requires Views(t, m) && Apply(t, k, v).Some?
    ensures Views(Apply(t, k, v).value, Put(m, k, v))
  {
    assert k[..0] == [];
    DescendTrue(t, m, k, 0);
    assert SiblingsOf(m, k)[0..] == SiblingsOf(m, k);
    RecordCoherent(t, k, v, SiblingsOf(m, k));
    PutRoot(m, k, v);
  }

  lemma EmptyCoherent(root: Hash)
    ensures Coherent(Partial(root, map[], map[]))
  {
  }

  /** Proofs against the root of `m` are accepted exactly when every one is true of `m`, and what
      they build is a partial view of `m`. */
  lemma {:induction false} FromProofsTrue(m: State, proofs: seq<Proof>)
    ensures FromProofs(RootOf(m), proofs).Some? <==>
            forall p :: p in proofs ==> p.value == Lookup(m, p.key) && p.siblings == SiblingsOf(m, p.key)
    ensures FromProofs(RootOf(m), proofs).Some? ==> Views(FromProofs(RootOf(m), proofs).value, m)
    decreases |proofs|
  {
    hide SiblingsOf, RootOf, Coherent;
    if proofs == [] {
      EmptyCoherent(RootOf(m));
    } else {
      var n := |proofs| - 1;
      FromProofsTrue(m, proofs[..n]);
      ProofExact(m, proofs[n]);
      assert forall p :: p in proofs <==> p in proofs[..n] || p == proofs[n];
      var before := FromProofs(RootOf(m), proofs[..n]);
      if before.Some? && Verifies(RootOf(m), proofs[n]) {
        RecordCoherent(before.value, proofs[n].key, proofs[n].value, proofs[n].siblings);
      }
    }
  }
}

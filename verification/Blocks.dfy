/** Blocks as values. A block hash commits to the whole block, its parent hash included, so a hash
    is modelled by the block it names: equal hashes are equal blocks, and a block carries its chain. */
module Blocks {

  /** `body` stands for everything the header signs besides parent and round. */
  datatype Block = Genesis | Child(parent: Block, round: nat, body: nat)

  function Height(b: Block): nat {
    match b
    case Genesis => 0
    case Child(parent, _, _) => Height(parent) + 1
  }

  function Round(b: Block): nat {
    if b.Genesis? then 0 else b.round
  }

  /** The block at height `h` on the chain ending in `b` (`b` itself when `h` is not below it). */
  function Ancestor(b: Block, h: nat): (a: Block)
    ensures h <= Height(b) ==> Height(a) == h
    ensures Height(b) <= h ==> a == b
  {
    if Height(b) <= h then b else Ancestor(b.parent, h)
  }

  lemma {:induction false} AncestorOfAncestor(b: Block, h: nat, k: nat)
    requires k <= h
    ensures Ancestor(Ancestor(b, h), k) == Ancestor(b, k)
  {
    if Height(b) > h {
      AncestorOfAncestor(b.parent, h, k);
    }
  }

  lemma {:induction false} AncestorParent(b: Block, h: nat)
    requires 1 <= h <= Height(b)
    ensures Ancestor(b, h).Child? && Ancestor(b, h).parent == Ancestor(b, h - 1)
  {
    if h < Height(b) {
      AncestorParent(b.parent, h);
    }
  }

  lemma {:induction false} AncestorZero(b: Block)
    ensures Ancestor(b, 0) == Genesis
  {
    if b.Child? {
      AncestorZero(b.parent);
    }
  }

  /** `a` lies on the chain ending in `b`. */
  predicate IsPrefix(a: Block, b: Block) {
    Height(a) <= Height(b) && Ancestor(b, Height(a)) == a
  }
}

/** An honest proposer the adjudicator names: a one-action block whose circuit reads a key the
    dissenter left out of the proof set (arxd/runtime/src/adjudicate.rs). */
module AdjudicateExample {
  import opened TextFormat
  import opened StateTrie
  import opened ProofTrie
  import opened ProofCoverage
  import opened Replay
  import opened Adjudicate
  import A = ActionAdjudicate

  /** Two keys in different halves of the trie, and a state holding only the second. */
  function Account(): KeyHash {
    seq(DEPTH, _ => false)
  }

  function Balance(): KeyHash {
    seq(DEPTH, _ => true)
  }

  function Parent(): Ledger {
    Ledger(map[Balance() := [1]], map[])
  }

  /** Every action's account policy is under `Account`; its circuit reads `Balance` and changes
      nothing. */
  function Example(): Runtime {
    Runtime(_ => 0, _ => false, _ => 0,
            _ => Program(0, _ => Request.Stop, _ => Some([])),
            _ => Program(0, _ => Request.Stop, _ => Context([], U64_MAX, _ => 0)),
            _ => Program(1, _ => Read(InTrie(Account()), false), _ => true),
            (_, _, _) => Program(1, _ => Read(InTrie(Balance()), true), _ => Some(Effect([], []))),
            (_, _, _) => Program(0, _ => Request.Stop, _ => Some(Sealed([], None))),
            (_, _) => [])
  }

  function AccountProof(): Proof {
    Proof(Account(), None, SiblingsOf(Parent().state, Account()))
  }

  /** The block is signed with the true root; only the account policy is proven. */
  function Artifact(): Dispute {
    var root := RootOf(Parent().state);
    Dispute(Header(1, 1, 0, 0, root, root), [0], 0, [AccountProof()], Zero)
  }

  /** A proof of one key does not open the other half of the trie. */
  lemma OtherHalfUnproven(t: Partial)
    requires FromProofs(RootOf(Parent().state), [AccountProof()]) == Some(t)
    ensures !KnowsValue(t, Balance())
  {
    var m, k, p := Parent().state, Balance(), AccountProof();
    assert [p][..0] == [] && k[..0] == [];
    FromProofsTrue(m, [p]);
    if KnowsPath(t, k) {
      KnownEverywhere(t, m, k, 0, 1);
      OtherHalfHash(t);
    }
  }

  lemma OtherHalfHash(t: Partial)
    requires FromProofs(RootOf(Parent().state), [AccountProof()]) == Some(t)
    ensures !KnownAt(t, Parent().state, Balance(), 1)
  {
    hide Climb, Default, RootOf, SiblingsOf, Verifies;
    var m, k, p := Parent().state, Balance(), AccountProof();
    var h := Subtree(m, k[..1]);
    assert [p][..0] == [];
    PathRecorded(m, p.key, h);
    NotEmpty();
    forall i | 0 <= i < DEPTH ensures h != Subtree(m, p.key[..i]) {
      ElsewhereInTrie(i);
    }
  }

  lemma NotEmpty()
    ensures Subtree(Parent().state, Balance()[..1]) != Default(DEPTH - 1)
  {
    hide Subtree, Default;
    var m, k := Parent().state, Balance();
    SubtreeEmpty(map[], k[..1]);
    if Subtree(m, k[..1]) == Default(DEPTH - 1) {
      SubtreeCommits(m, map[], k[..1], k);
    }
  }

  lemma ElsewhereInTrie(i: nat)
    requires i < DEPTH
    ensures Subtree(Parent().state, Balance()[..1]) != Subtree(Parent().state, Account()[..i])
  {
    hide Subtree, Default;
    var m, k, j := Parent().state, Balance(), Account();
    NotEmpty();
    assert i == 1 ==> k[..1][0] != j[..i][0];
    if Subtree(m, k[..1]) == Subtree(m, j[..i]) {
      SubtreePosition(m, k[..1], j[..i]);
    }
  }

  lemma ExampleHonest()
    ensures SeedKeepsContext(Example(), 1, Parent()) && HonestBlock(Example(), Artifact(), Parent())
  {
    hide RootOf, SiblingsOf;
    var rt, l, h := Example(), Parent(), Artifact().header;
    assert StoreAll(l, []) == l;
    assert RunFull(rt.unbonding(1), [], l) == Some([]);
    var ctx := RunFull(rt.context(1), [], l);
    var tally := Tally(0, 0, []);
    assert RunFull(rt.authorize(0), [], l);
    assert RunFull(rt.dispatch(0, ctx, h), [], l) == Some(Effect([], []));
    assert WalkAction(rt, h, ctx, l, 0, START, false).0 == Through(l, tally);
    assert [0][1..] == [];
    assert WalkActions(rt, h, ctx, l, [0], START, false).0 == Through(l, tally);
    assert RunFull(rt.seal(h, ctx, tally), [], l) == Some(Sealed([], None));
  }

  lemma ExampleJudged(t: Partial)
    requires KnowsValue(t, Account()) && !KnowsValue(t, Balance())
    ensures JudgeFrom(Example(), Artifact(), t) == Proposer
  {
    hide Get, RootOf, SiblingsOf;
    var rt, h := Example(), Artifact().header;
    assert RunProof(rt.unbonding(1), [], t) == Done(Some([]));
    assert ApplyAll(t, []) == Some(t);
    var ctx := RunFull(rt.context(1), [], Parent());
    assert RunProof(rt.context(1), [], t) == Done(ctx);
    assert RunProof(rt.authorize(0), [], t) == Done(true);
    assert RunProof(rt.dispatch(0, ctx, h), [], t) == Blocked(true);
    assert JudgeAction(rt, h, ctx, t, 0, START) == Ruled(Proposer);
    assert JudgeActions(rt, h, ctx, t, [0], START) == Ruled(Proposer);
  }

  /** The block is honest, the dissenter's root is wrong, and the proposer is named. */
  lemma HonestProposerFramed()
    ensures RootOf(Parent().state) == Artifact().header.parentRoot && SeedKeepsContext(Example(), 1, Parent())
    ensures HonestBlock(Example(), Artifact(), Parent()) && Artifact().dissentRoot != Artifact().header.stateRoot
    ensures Judge(Example(), Artifact()) == Proposer
  {
    hide JudgeFrom, HonestBlock, SeedKeepsContext, KnowsValue, SiblingsOf;
    var c := Artifact();
    FromProofsTrue(Parent().state, c.proofs);
    var t := FromProofs(c.header.parentRoot, c.proofs).value;
    OtherHalfUnproven(t);
    ProofsCover(Parent().state, c.proofs, c.proofs[0]);
    ExampleJudged(t);
    ExampleHonest();
  }

  // ----- an honest side named over one action

  /** Reads the balance through a circuit that wraps the failure, and doubles it. */
  function Doubling(): A.Disputed {
    A.Disputed(false, false, Program(0, _ => Request.Stop, _ => []),
               _ => Program(1, _ => Read(InTrie(Balance()), true), _ => Some([Update(InTrie(Balance()), Some([2]))])))
  }

  /** The true result, without a proof of the balance. */
  function TrueClaim(): A.Claim {
    A.Claim(RootOf(Parent().state), RootOf(map[Balance() := [2]]), [])
  }

  /** The claim that the action changes nothing. */
  function NoChange(): A.Claim {
    A.Claim(RootOf(Parent().state), RootOf(Parent().state), [])
  }

  lemma DoublingPerformed()
    ensures A.Performed(Doubling(), Parent()).state == map[Balance() := [2]]
  {
    hide RootOf;
    var d, l := Doubling(), Parent();
    var us := [Update(InTrie(Balance()), Some([2]))];
    assert RunFull(d.dispatch([]), [], l) == Some(us);
    assert us[1..] == [];
    assert StoreAll(l, us) == Store(l, us[0]);
  }

  lemma BareRootUnproven()
    ensures Get(Partial(RootOf(Parent().state), map[], map[]), Balance()) == Unproven
  {
    hide Subtree, Default;
    SubtreeEmpty(map[], []);
    if RootOf(Parent().state) == Default(DEPTH) {
      SubtreeCommits(Parent().state, map[], [], Balance());
    }
  }

  /** An honest proposer whose proofs leave out the read is contradicted by the replay of its own claim,
      and named once the other side merely claims that nothing changed. */
  lemma HonestSideNamed()
    ensures A.Truthful(Doubling(), TrueClaim(), Parent()) && TrueClaim().preRoot != TrueClaim().postRoot
    ensures A.ReplayClaim(Doubling(), TrueClaim()) == A.Root(TrueClaim().preRoot)
    ensures A.JudgeAction(Doubling(), TrueClaim(), NoChange()) == A.Proposer
  {
    hide RootOf, Get;
    DoublingPerformed();
    BareRootUnproven();
    var t := Partial(RootOf(Parent().state), map[], map[]);
    assert RunProof(Doubling().dispatch([]), [], t) == Blocked(true);
    RootsDiffer();
  }

  lemma RootsDiffer()
    ensures RootOf(Parent().state) != RootOf(map[Balance() := [2]])
  {
    hide Subtree;
    if RootOf(Parent().state) == RootOf(map[Balance() := [2]]) {
      SubtreeCommits(Parent().state, map[Balance() := [2]], [], Balance());
    }
  }
}

/** Adjudicating one disputed action from two claims (arxd/runtime/src/adjudicate.rs,
    `adjudicate_action_divergence` and `replay`): each side's own proofs, against each side's own
    claimed result. */
module ActionAdjudicate {
  import opened TextFormat
  import opened VotingPower
  import opened StateTrie
  import opened ProofTrie
  import opened Replay

  /** The disputed action: whether replay refuses its kind, whether it reads the validator set, and
      what it does given that set. */
  datatype Disputed = Disputed(
    refused: bool,
    readsSet: bool,
    validators: Program<seq<Address>>,
    dispatch: seq<Address> -> Program<Option<seq<Update>>>)

  datatype Claim = Claim(preRoot: Hash, postRoot: Hash, proofs: seq<Proof>)

  datatype Outcome = Unprovable | Root(root: Hash)

  // ----- on the full ledger

  function SetOn(d: Disputed, l: Ledger): seq<Address> {
    if d.readsSet then RunFull(d.validators, [], l) else []
  }

  /** The ledger after the action: unchanged when it is rejected. */
  function Performed(d: Disputed, l: Ledger): Ledger {
    match RunFull(d.dispatch(SetOn(d, l)), [], l)
    case None => l
    case Some(us) => StoreAll(l, us)
  }

  /** Everything the action touches. */
  function Touched(d: Disputed, l: Ledger): seq<Access> {
    var p := d.dispatch(SetOn(d, l));
    (if d.readsSet then Reads(d.validators, [], l, false) else []) + Reads(p, [], l, true)
    + match RunFull(p, [], l) case None => [] case Some(us) => Writes(us)
  }

  // ----- on proofs

  /** `replay`, once the trie is built. A rejection leaves the root the claim started from, and so
      does a read that fails inside a circuit's own error. */
  function ReplayOn(d: Disputed, t: Partial): Outcome {
    var members := if d.readsSet then RunProof(d.validators, [], t) else Done([]);
    match members
    case Blocked(_) => Unprovable
    case Done(vs) =>
      match RunProof(d.dispatch(vs), [], t)
      case Blocked(wrapped) => if wrapped then Root(t.root) else Unprovable
      case Done(out) =>
        if out.None? then Root(t.root)
        else
          match ApplyAll(t, out.value)
          case None => Unprovable
          case Some(t') => Root(t'.root)
  }

  function ReplayClaim(d: Disputed, c: Claim): Outcome {
    if d.refused then Unprovable
    else
      match FromProofs(c.preRoot, c.proofs)
      case None => Unprovable
      case Some(t) => ReplayOn(d, t)
  }

  datatype Verdict = Proposer | Voter | Disagreement

  /** `adjudicate_action_divergence`: a culprit only when exactly one side's result is reproduced. */
  function JudgeAction(d: Disputed, proposed: Claim, dissent: Claim): Verdict {
    var p, v := ReplayClaim(d, proposed), ReplayClaim(d, dissent);
    if p.Unprovable? || v.Unprovable? then Disagreement
    else
      var fine, right := p.root == proposed.postRoot, v.root == dissent.postRoot;
      if fine && !right then Voter else if !fine && right then Proposer else Disagreement
  }

  // ----- exactness

  /** Replay gives the full ledger's root, or stops at the first access the proofs do not cover: bare
      failures are admitted, wrapped ones are taken for a rejection. */
  lemma ReplayExact(d: Disputed, t: Partial, l: Ledger)
    requires Views(t, l.state)
    ensures var gap := FirstGap(t, [], Touched(d, l));
            ReplayOn(d, t) ==
            if gap.None? then Root(RootOf(Performed(d, l).state))
            else if gap.value.ReadOf? && gap.value.blames then Root(RootOf(l.state))
            else Unprovable
  {
    hide ApplyAll, StoreAll, Writes, RunProof, RunFull, Reads, Covered, RootOf, Coherent, FirstGap;
    var a := if d.readsSet then Reads(d.validators, [], l, false) else [];
    SetInStep(d, t, l);
    var p := d.dispatch(SetOn(d, l));
    var b := Reads(p, [], l, true);
    RunInStep(p, [], t, l, t, a, true);
    ReadsStayInStep(t, l, t, a, p, [], true);
    var us := if RunFull(p, [], l).Some? then RunFull(p, [], l).value else [];
    WritesInStep(us, t, l, t, a + b);
    var c := if RunFull(p, [], l).Some? then Writes(us) else [];
    NoGap(t, a + b);
    assert [] + a == a && [] + (a + b) == a + b;
    GapConcat(t, [], a, b);
    GapConcat(t, [], a + b, c);
  }

  lemma NoGap(t: Partial, before: seq<Access>)
    ensures FirstGap(t, before, []).None?
  {
  }

  lemma SetInStep(d: Disputed, t: Partial, l: Ledger)
    requires Views(t, l.state)
    ensures var a := if d.readsSet then Reads(d.validators, [], l, false) else [];
            && InStep(t, l, t, a)
            && (FirstGap(t, [], a).None? ==>
                  (if d.readsSet then RunProof(d.validators, [], t) else Done([])) == Done(SetOn(d, l)))
            && (FirstGap(t, [], a).Some? ==> && d.readsSet && RunProof(d.validators, [], t).Blocked?
                                             && FirstGap(t, [], a).value.ReadOf? && !FirstGap(t, [], a).value.blames)
  {
    hide RunProof, RunFull, Covered;
    if d.readsSet {
      RunInStep(d.validators, [], t, l, t, [], false);
      ReadsStayInStep(t, l, t, [], d.validators, [], false);
      assert [] + Reads(d.validators, [], l, false) == Reads(d.validators, [], l, false);
    }
  }

  /** The side's proofs leave out a read whose failure a circuit wraps, before anything else. */
  ghost predicate Misread(d: Disputed, c: Claim, l: Ledger) {
    && !d.refused && FromProofs(c.preRoot, c.proofs).Some?
    && var gap := FirstGap(FromProofs(c.preRoot, c.proofs).value, [], Touched(d, l));
       gap.Some? && gap.value.ReadOf? && gap.value.blames
  }

  /** The claim is what the full ledger gives. */
  predicate Truthful(d: Disputed, c: Claim, l: Ledger) {
    c.preRoot == RootOf(l.state) && c.postRoot == RootOf(Performed(d, l).state)
  }

  /** A side that claims what the full ledger gives is contradicted by the replay of its own claim
      exactly when its own proofs miss a wrapped read and the action does change the root. */
  lemma TrueClaimContradictedIff(d: Disputed, c: Claim, l: Ledger)
    requires Truthful(d, c, l)
    ensures ReplayClaim(d, c).Root? && ReplayClaim(d, c).root != c.postRoot <==>
            Misread(d, c, l) && c.preRoot != c.postRoot
  {
    hide ReplayOn, Touched, Performed, RootOf, FirstGap, Views, FromProofs;
    FromProofsTrue(l.state, c.proofs);
    if FromProofs(c.preRoot, c.proofs).Some? {
      ReplayExact(d, FromProofs(c.preRoot, c.proofs).value, l);
    }
  }

  /** The replay of the claim gives the result it claims. */
  predicate Reproduced(d: Disputed, c: Claim) {
    ReplayClaim(d, c) == Root(c.postRoot)
  }

  /** A claim that starts from the true state is reproduced exactly when its proofs cover the action and
      it claims the true result, or they miss a wrapped read and it claims that nothing changed. */
  lemma ReproducedIff(d: Disputed, c: Claim, l: Ledger)
    requires c.preRoot == RootOf(l.state)
    ensures Reproduced(d, c) <==>
            && !d.refused && FromProofs(c.preRoot, c.proofs).Some?
            && var gap := FirstGap(FromProofs(c.preRoot, c.proofs).value, [], Touched(d, l));
               if gap.None? then c.postRoot == RootOf(Performed(d, l).state)
               else gap.value.ReadOf? && gap.value.blames && c.postRoot == c.preRoot
  {
    hide ReplayOn, Touched, Performed, RootOf, FirstGap, Views, FromProofs;
    FromProofsTrue(l.state, c.proofs);
    if FromProofs(c.preRoot, c.proofs).Some? {
      ReplayExact(d, FromProofs(c.preRoot, c.proofs).value, l);
    }
  }

  /** An honest side is named exactly when its own proofs miss a wrapped read, the action changes the
      root, and the other side's claim is reproduced. */
  lemma HonestSideNamedIff(d: Disputed, honest: Claim, other: Claim, l: Ledger)
    requires Truthful(d, honest, l)
    ensures JudgeAction(d, honest, other) == Proposer <==>
            Misread(d, honest, l) && honest.preRoot != honest.postRoot && Reproduced(d, other)
    ensures JudgeAction(d, other, honest) == Voter <==>
            Misread(d, honest, l) && honest.preRoot != honest.postRoot && Reproduced(d, other)
  {
    hide ReplayClaim, Misread, Performed, RootOf;
    TrueClaimContradictedIff(d, honest, l);
  }

  /** So with that read proven, an honest side is never named, whatever the other side sent. */
  lemma HonestSideNotNamed(d: Disputed, proposed: Claim, dissent: Claim, l: Ledger)
    ensures Truthful(d, proposed, l) && !Misread(d, proposed, l) ==> JudgeAction(d, proposed, dissent) != Proposer
    ensures Truthful(d, dissent, l) && !Misread(d, dissent, l) ==> JudgeAction(d, proposed, dissent) != Voter
  {
    hide ReplayClaim, Misread, Performed, RootOf;
    if Truthful(d, proposed, l) {
      TrueClaimContradictedIff(d, proposed, l);
    }
    if Truthful(d, dissent, l) {
      TrueClaimContradictedIff(d, dissent, l);
    }
  }
}

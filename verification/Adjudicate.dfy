/** Adjudicating a block dispute from proofs alone (arxd/runtime/src/adjudicate.rs), against the
    execution a full node performs (core/executor/src/lib.rs, `accept_block`). */
module Adjudicate {
  import opened TextFormat
  import opened VotingPower
  import opened StateTrie
  import opened ProofTrie
  import opened ProofCoverage
  import opened Replay

  const MAX_ADJUDICATED_ACTIONS: nat := 4096
  const U128_MAX: nat := 0xFFFF_FFFF_FFFF_FFFF_FFFF_FFFF_FFFF_FFFF

  type Action = nat

  datatype Header = Header(height: nat, timestamp: nat, proposer: Address, txRoot: nat,
                           parentRoot: Hash, stateRoot: Hash)

  /** The validator set `dispatch` and the seal are handed, and the metering in force. */
  datatype Context = Context(validators: seq<Address>, maxWeight: nat, fee: nat -> nat)

  /** What one action does. */
  datatype Effect = Effect(updates: seq<Update>, statuses: seq<Address>)

  /** What the seal does, and the validator set it opens the next height with, if any. */
  datatype Sealed = Sealed(updates: seq<Update>, newSet: Option<seq<Address>>)

  /** What the action loop has accumulated. */
  datatype Tally = Tally(weight: nat, fees: nat, statuses: seq<Address>)

  /** The chain's own code, phase by phase: any deterministic programs over key reads. */
  datatype Runtime = Runtime(
    txRoot: seq<Action> -> nat,
    isFaultSubmission: Action -> bool,
    weight: Action -> nat,
    unbonding: nat -> Program<Option<seq<Update>>>,
    context: nat -> Program<Context>,
    authorize: Action -> Program<bool>,
    dispatch: (Action, Context, Header) -> Program<Option<Effect>>,
    seal: (Header, Context, Tally) -> Program<Option<Sealed>>,
    snapshot: (nat, seq<Address>) -> seq<Update>)

  const START := Tally(0, 0, [])

  function SaturatingAdd(a: nat, b: nat, max: nat): nat {
    if a + b > max then max else a + b
  }

  function Counted(rt: Runtime, ctx: Context, tally: Tally, a: Action, e: Effect): Tally {
    Tally(SaturatingAdd(tally.weight, rt.weight(a), U64_MAX),
          SaturatingAdd(tally.fees, ctx.fee(rt.weight(a)), U128_MAX),
          tally.statuses + e.statuses)
  }

  predicate OverWeight(rt: Runtime, ctx: Context, tally: Tally, a: Action) {
    SaturatingAdd(tally.weight, rt.weight(a), U64_MAX) > ctx.maxWeight
  }

  /** Everything the seal writes, the next height's validator set included. */
  function SealEntries(rt: Runtime, h: Header, s: Sealed): seq<Update> {
    s.updates + if s.newSet.Some? then rt.snapshot(h.height + 1, s.newSet.value) else []
  }

  // ----- a full node

  datatype Stop = Refused | Nested
  datatype Walked = Halted(why: Stop) | Through(ledger: Ledger, tally: Tally)

  /** One action on the full ledger, and what it touches. `nested` says whether fault submissions
      stop the walk, as they do in adjudication, or run like any other action. */
  function WalkAction(rt: Runtime, h: Header, ctx: Context, l: Ledger, a: Action, tally: Tally, nested: bool)
    : (Walked, seq<Access>)
  {
    if nested && rt.isFaultSubmission(a) then (Halted(Nested), [])
    else
      var checked := Reads(rt.authorize(a), [], l, false);
      if !RunFull(rt.authorize(a), [], l) || OverWeight(rt, ctx, tally, a) then (Halted(Refused), checked)
      else
        var p := rt.dispatch(a, ctx, h);
        var ran := checked + Reads(p, [], l, true);
        match RunFull(p, [], l)
        case None => (Halted(Refused), ran)
        case Some(e) => (Through(StoreAll(l, e.updates), Counted(rt, ctx, tally, a, e)), ran + Writes(e.updates))
  }

  function WalkActions(rt: Runtime, h: Header, ctx: Context, l: Ledger, actions: seq<Action>, tally: Tally,
                       nested: bool): (Walked, seq<Access>)
    decreases |actions|
  {
    if actions == [] then (Through(l, tally), [])
    else
      var one := WalkAction(rt, h, ctx, l, actions[0], tally, nested);
      match one.0
      case Halted(_) => one
      case Through(l', tally') =>
        var rest := WalkActions(rt, h, ctx, l', actions[1..], tally', nested);
        (rest.0, one.1 + rest.1)
  }

  datatype End = Executed(ledger: Ledger) | Rejected | Unreplayable | SealFailed | UnbondingFailed

  /** The seal, after the actions. */
  function WalkSeal(rt: Runtime, h: Header, ctx: Context, w: Walked): (End, seq<Access>) {
    match w
    case Halted(Refused) => (Rejected, [])
    case Halted(Nested) => (Unreplayable, [])
    case Through(l, tally) =>
      var p := rt.seal(h, ctx, tally);
      match RunFull(p, [], l)
      case None => (SealFailed, Reads(p, [], l, false))
      case Some(s) =>
        (Executed(StoreAll(l, SealEntries(rt, h, s))), Reads(p, [], l, false) + Writes(SealEntries(rt, h, s)))
  }

  /** `accept_block`'s state transition: the ledger after the block, or `None` when the block is not
      acceptable. The validator set and parameters are the parent's. */
  function Execute(rt: Runtime, h: Header, actions: seq<Action>, l: Ledger): Option<Ledger> {
    match RunFull(rt.unbonding(h.height), [], l)
    case None => None
    case Some(us) =>
      var ctx := RunFull(rt.context(h.height), [], l);
      var end := WalkSeal(rt, h, ctx, WalkActions(rt, h, ctx, StoreAll(l, us), actions, START, false).0).0;
      if end.Executed? then Some(end.ledger) else None
  }

  /** Maturing unbonds moves balances, never the validator set or the chain parameters. */
  ghost predicate SeedKeepsContext(rt: Runtime, height: nat, l: Ledger) {
    match RunFull(rt.unbonding(height), [], l)
    case None => true
    case Some(us) => RunFull(rt.context(height), [], StoreAll(l, us)) == RunFull(rt.context(height), [], l)
  }

  /** The same block in the order adjudication runs it, with everything it touches. */
  function Survey(rt: Runtime, h: Header, actions: seq<Action>, l: Ledger): (End, seq<Access>) {
    var p := rt.unbonding(h.height);
    match RunFull(p, [], l)
    case None => (UnbondingFailed, Reads(p, [], l, false))
    case Some(us) =>
      var l1 := StoreAll(l, us);
      var ctx := RunFull(rt.context(h.height), [], l1);
      var acted := WalkActions(rt, h, ctx, l1, actions, START, true);
      var sealed := WalkSeal(rt, h, ctx, acted.0);
      (sealed.0, Reads(p, [], l, false) + Writes(us) + Reads(rt.context(h.height), [], l1, false) + acted.1 + sealed.1)
  }

  // ----- the adjudicator

  datatype Verdict = Proposer | Voter | Disagreement | Failed

  datatype Dispute = Dispute(header: Header, actions: seq<Action>, signer: Address, proofs: seq<Proof>,
                             dissentRoot: Hash)

  datatype Judged = Ruled(verdict: Verdict) | Onward(trie: Partial, tally: Tally)

  function JudgeAction(rt: Runtime, h: Header, ctx: Context, t: Partial, a: Action, tally: Tally): Judged {
    if rt.isFaultSubmission(a) then Ruled(Disagreement)
    else
      match RunProof(rt.authorize(a), [], t)
      case Blocked(_) => Ruled(Disagreement)
      case Done(ok) =>
        if !ok || OverWeight(rt, ctx, tally, a) then Ruled(Proposer)
        else
          match RunProof(rt.dispatch(a, ctx, h), [], t)
          case Blocked(wrapped) => Ruled(if wrapped then Proposer else Disagreement)
          case Done(out) =>
            if out.None? then Ruled(Proposer)
            else
              match ApplyAll(t, out.value.updates)
              case None => Ruled(Disagreement)
              case Some(t') => Onward(t', Counted(rt, ctx, tally, a, out.value))
  }

  function JudgeActions(rt: Runtime, h: Header, ctx: Context, t: Partial, actions: seq<Action>, tally: Tally): Judged
    decreases |actions|
  {
    if actions == [] then Onward(t, tally)
    else
      match JudgeAction(rt, h, ctx, t, actions[0], tally)
      case Ruled(v) => Ruled(v)
      case Onward(t', tally') => JudgeActions(rt, h, ctx, t', actions[1..], tally')
  }

  /** Who signed a root other than `root`. */
  function Compare(root: Hash, proposed: Hash, dissent: Hash): Verdict {
    if root != proposed then Proposer else if root != dissent then Voter else Disagreement
  }

  function JudgeSeal(rt: Runtime, c: Dispute, ctx: Context, j: Judged): Verdict {
    match j
    case Ruled(v) => v
    case Onward(t, tally) =>
      match RunProof(rt.seal(c.header, ctx, tally), [], t)
      case Blocked(_) => Disagreement
      case Done(out) =>
        if out.None? then Disagreement
        else
          match ApplyAll(t, SealEntries(rt, c.header, out.value))
          case None => Disagreement
          case Some(t') => Compare(t'.root, c.header.stateRoot, c.dissentRoot)
  }

  /** From the trie the proofs built to a verdict. */
  function JudgeFrom(rt: Runtime, c: Dispute, t: Partial): Verdict {
    match RunProof(rt.unbonding(c.header.height), [], t)
    case Blocked(_) => Disagreement
    case Done(seed) =>
      if seed.None? then Failed
      else
        match ApplyAll(t, seed.value)
        case None => Disagreement
        case Some(t1) =>
          match RunProof(rt.context(c.header.height), [], t1)
          case Blocked(_) => Disagreement
          case Done(ctx) => JudgeSeal(rt, c, ctx, JudgeActions(rt, c.header, ctx, t1, c.actions, START))
  }

  /** The action list is the signed one, short enough to replay, and signed by the block's proposer. */
  predicate Admissible(rt: Runtime, c: Dispute) {
    && |c.actions| <= MAX_ADJUDICATED_ACTIONS
    && rt.txRoot(c.actions) == c.header.txRoot
    && c.signer == c.header.proposer
  }

  /** `replay_block_divergence`. */
  function Judge(rt: Runtime, c: Dispute): Verdict {
    if !Admissible(rt, c) then Disagreement
    else
      match FromProofs(c.header.parentRoot, c.proofs)
      case None => Disagreement
      case Some(t) => JudgeFrom(rt, c, t)
  }

  // ----- the verdict is the full replay's, up to the first gap in the proofs

  /** What an uncovered access is taken for. */
  function GapVerdict(a: Access): Verdict {
    if a.ReadOf? && a.blames then Proposer else Disagreement
  }

  function StopVerdict(s: Stop): Verdict {
    if s.Refused? then Proposer else Disagreement
  }

  /** `j` is what judging must answer when the full walk is `w`, up to the first gap. */
  ghost predicate Tracks(j: Judged, w: (Walked, seq<Access>), t0: Partial, before: seq<Access>) {
    match FirstGap(t0, before, w.1)
    case Some(a) => j == Ruled(GapVerdict(a))
    case None =>
      match w.0
      case Halted(why) => j == Ruled(StopVerdict(why))
      case Through(l, tally) => j.Onward? && j.tally == tally && InStep(j.trie, l, t0, before + w.1)
  }

  lemma ActionInStep(rt: Runtime, h: Header, ctx: Context, t: Partial, l: Ledger, a: Action, tally: Tally,
                     t0: Partial, before: seq<Access>)
    requires InStep(t, l, t0, before)
    ensures Tracks(JudgeAction(rt, h, ctx, t, a, tally), WalkAction(rt, h, ctx, l, a, tally, true), t0, before)
  {
    hide InStep, ApplyAll, StoreAll, Writes, Counted, OverWeight, RunProof, RunFull, Reads, Covered;
    if !rt.isFaultSubmission(a) {
      var checked := Reads(rt.authorize(a), [], l, false);
      RunInStep(rt.authorize(a), [], t, l, t0, before, false);
      ReadsStayInStep(t, l, t0, before, rt.authorize(a), [], false);
      if RunFull(rt.authorize(a), [], l) && !OverWeight(rt, ctx, tally, a) {
        var p := rt.dispatch(a, ctx, h);
        var ran := Reads(p, [], l, true);
        RunInStep(p, [], t, l, t0, before + checked, true);
        ReadsStayInStep(t, l, t0, before + checked, p, [], true);
        GapConcat(t0, before, checked, ran);
        assert before + checked + ran == before + (checked + ran);
        if RunFull(p, [], l).Some? {
          var us := RunFull(p, [], l).value.updates;
          WritesInStep(us, t, l, t0, before + checked + ran);
          GapConcat(t0, before, checked + ran, Writes(us));
          assert before + checked + ran + Writes(us) == before + (checked + ran + Writes(us));
        }
      }
    }
  }

  lemma {:induction false} ActionsInStep(rt: Runtime, h: Header, ctx: Context, t: Partial, l: Ledger,
                                         actions: seq<Action>, tally: Tally, t0: Partial, before: seq<Access>)
    requires InStep(t, l, t0, before)
    ensures Tracks(JudgeActions(rt, h, ctx, t, actions, tally),
                   WalkActions(rt, h, ctx, l, actions, tally, true), t0, before)
    decreases |actions|
  {
    hide InStep, JudgeAction, WalkAction, Covered, GapVerdict, StopVerdict;
    if actions == [] {
      assert before + [] == before;
    } else {
      var one := WalkAction(rt, h, ctx, l, actions[0], tally, true);
      var first := JudgeAction(rt, h, ctx, t, actions[0], tally);
      ActionInStep(rt, h, ctx, t, l, actions[0], tally, t0, before);
      if one.0.Through? {
        var rest := WalkActions(rt, h, ctx, one.0.ledger, actions[1..], one.0.tally, true);
        GapConcat(t0, before, one.1, rest.1);
        if first.Onward? {
          ActionsInStep(rt, h, ctx, first.trie, one.0.ledger, actions[1..], first.tally, t0, before + one.1);
          assert before + one.1 + rest.1 == before + (one.1 + rest.1);
        }
      }
    }
  }

  /** The verdict owed to the dissenter and the proposer when nothing is missing. */
  function EndVerdict(end: End, c: Dispute): Verdict {
    match end
    case Executed(l) => Compare(RootOf(l.state), c.header.stateRoot, c.dissentRoot)
    case Rejected => Proposer
    case Unreplayable => Disagreement
    case SealFailed => Disagreement
    case UnbondingFailed => Failed
  }

  /** The verdict for a run that ends in `end` after touching `trace`. */
  function Ruling(c: Dispute, t0: Partial, before: seq<Access>, run: (End, seq<Access>)): Verdict {
    match FirstGap(t0, before, run.1)
    case Some(a) => GapVerdict(a)
    case None => EndVerdict(run.0, c)
  }

  lemma SealInStep(rt: Runtime, c: Dispute, ctx: Context, j: Judged, w: (Walked, seq<Access>), t0: Partial,
                   before: seq<Access>)
    requires Tracks(j, w, t0, before)
    ensures var sealed := WalkSeal(rt, c.header, ctx, w.0);
            JudgeSeal(rt, c, ctx, j) == Ruling(c, t0, before, (sealed.0, w.1 + sealed.1))
  {
    hide ApplyAll, StoreAll, Writes, RunProof, RunFull, Reads, Covered, SealEntries, RootOf, Coherent;
    var sealed := WalkSeal(rt, c.header, ctx, w.0);
    GapConcat(t0, before, w.1, sealed.1);
    if w.0.Through? && j.Onward? {
      var p := rt.seal(c.header, ctx, w.0.tally);
      var l := w.0.ledger;
      var read := Reads(p, [], l, false);
      RunInStep(p, [], j.trie, l, t0, before + w.1, false);
      ReadsStayInStep(j.trie, l, t0, before + w.1, p, [], false);
      if RunFull(p, [], l).Some? {
        var us := SealEntries(rt, c.header, RunFull(p, [], l).value);
        WritesInStep(us, j.trie, l, t0, before + w.1 + read);
        GapConcat(t0, before + w.1, read, Writes(us));
      }
    }
  }

  lemma UnbondingGap(rt: Runtime, c: Dispute, t: Partial, l: Ledger)
    requires Views(t, l.state) && RunFull(rt.unbonding(c.header.height), [], l).None?
    ensures JudgeFrom(rt, c, t) == Ruling(c, t, [], Survey(rt, c.header, c.actions, l))
  {
    hide Views, RunProof, RunFull, Reads, Covered, JudgeSeal, JudgeActions;
    RunInStep(rt.unbonding(c.header.height), [], t, l, t, [], false);
  }

  lemma SeededExact(rt: Runtime, c: Dispute, t: Partial, l: Ledger, us: seq<Update>)
    requires Views(t, l.state) && RunFull(rt.unbonding(c.header.height), [], l) == Some(us)
    ensures JudgeFrom(rt, c, t) == Ruling(c, t, [], Survey(rt, c.header, c.actions, l))
  {
    hide Views, ApplyAll, StoreAll, Writes, RunProof, RunFull, Reads, Covered, JudgeSeal, WalkSeal, JudgeActions,
      WalkActions, EndVerdict;
    var p := rt.unbonding(c.header.height);
    var l1 := StoreAll(l, us);
    var q := rt.context(c.header.height);
    var ctx := RunFull(q, [], l1);
    var a, b, r := Reads(p, [], l, false), Writes(us), Reads(q, [], l1, false);
    RunInStep(p, [], t, l, t, [], false);
    ReadsStayInStep(t, l, t, [], p, [], false);
    assert [] + a == a;
    WritesInStep(us, t, l, t, a);
    var acted := WalkActions(rt, c.header, ctx, l1, c.actions, START, true);
    var sealed := WalkSeal(rt, c.header, ctx, acted.0);
    GapConcat(t, [], a, b);
    GapConcat(t, [], a + b, r);
    GapConcat(t, [], a + b + r, acted.1 + sealed.1);
    assert a + b + r + acted.1 + sealed.1 == a + b + r + (acted.1 + sealed.1);
    assert [] + (a + b) == a + b && [] + (a + b + r) == a + b + r;
    if ApplyAll(t, us).Some? && FirstGap(t, [], a + b).None? {
      var t1 := ApplyAll(t, us).value;
      RunInStep(q, [], t1, l1, t, a + b, false);
      ReadsStayInStep(t1, l1, t, a + b, q, [], false);
      if FirstGap(t, [], a + b + r).None? {
        ActionsInStep(rt, c.header, ctx, t1, l1, c.actions, START, t, a + b + r);
        SealInStep(rt, c, ctx, JudgeActions(rt, c.header, ctx, t1, c.actions, START), acted, t, a + b + r);
      }
    }
  }

  /** From any trie that sees the parent ledger: the verdict is the one the full replay earns, unless
      the replay first touches something the proofs do not cover. */
  lemma JudgeFromExact(rt: Runtime, c: Dispute, t: Partial, l: Ledger)
    requires Views(t, l.state)
    ensures JudgeFrom(rt, c, t) == Ruling(c, t, [], Survey(rt, c.header, c.actions, l))
  {
    hide *;
    if RunFull(rt.unbonding(c.header.height), [], l).Some? {
      SeededExact(rt, c, t, l, RunFull(rt.unbonding(c.header.height), [], l).value);
    } else {
      UnbondingGap(rt, c, t, l);
    }
  }

  // ----- adjudication against the block a full node accepts or refuses

  /** Refusing to run fault submissions changes a walk only by stopping it at one. */
  lemma {:induction false} NestedOnlyStops(rt: Runtime, h: Header, ctx: Context, l: Ledger, actions: seq<Action>,
                                           tally: Tally)
    ensures var strict := WalkActions(rt, h, ctx, l, actions, tally, true).0;
            strict == Halted(Nested) || strict == WalkActions(rt, h, ctx, l, actions, tally, false).0
    decreases |actions|
  {
    hide StoreAll, Counted, OverWeight, RunFull, Reads, Writes;
    if actions != [] {
      var one := WalkAction(rt, h, ctx, l, actions[0], tally, false).0;
      if one.Through? {
        NestedOnlyStops(rt, h, ctx, one.ledger, actions[1..], one.tally);
      }
    }
  }

  lemma SurveyExecutes(rt: Runtime, h: Header, actions: seq<Action>, l: Ledger)
    requires SeedKeepsContext(rt, h.height, l)
    ensures var end := Survey(rt, h, actions, l).0;
            && (end.Executed? ==> Execute(rt, h, actions, l) == Some(end.ledger))
            && (Execute(rt, h, actions, l).Some? ==>
                  end.Unreplayable? || end == Executed(Execute(rt, h, actions, l).value))
            && (end.Rejected? ==> Execute(rt, h, actions, l).None?)
  {
    hide StoreAll, RunFull, Reads, Writes, WalkActions;
    if RunFull(rt.unbonding(h.height), [], l).Some? {
      var l1 := StoreAll(l, RunFull(rt.unbonding(h.height), [], l).value);
      NestedOnlyStops(rt, h, RunFull(rt.context(h.height), [], l), l1, actions, START);
    }
  }

  /** A block a full node accepts, with the root its proposer signed. */
  ghost predicate HonestBlock(rt: Runtime, c: Dispute, l: Ledger) {
    var done := Execute(rt, c.header, c.actions, l);
    done.Some? && RootOf(done.value.state) == c.header.stateRoot
  }

  /** The whole adjudication: outside its own admission checks, the verdict is the full replay's up to
      the first gap in the proofs. */
  lemma JudgeExact(rt: Runtime, c: Dispute, l: Ledger)
    requires RootOf(l.state) == c.header.parentRoot
    ensures Judge(rt, c) ==
            if Admissible(rt, c) && FromProofs(c.header.parentRoot, c.proofs).Some?
            then Ruling(c, FromProofs(c.header.parentRoot, c.proofs).value, [], Survey(rt, c.header, c.actions, l))
            else Disagreement
  {
    hide JudgeFrom, Ruling, Survey, Views, RootOf, Admissible, FromProofs;
    FromProofsTrue(l.state, c.proofs);
    if FromProofs(c.header.parentRoot, c.proofs).Some? {
      JudgeFromExact(rt, c, FromProofs(c.header.parentRoot, c.proofs).value, l);
    }
  }

  /** Nobody is named over an action list the proposer did not sign, or one too long to replay. */
  lemma NamedOverSigned(rt: Runtime, c: Dispute)
    requires Judge(rt, c) == Proposer || Judge(rt, c) == Voter
    ensures |c.actions| <= MAX_ADJUDICATED_ACTIONS && rt.txRoot(c.actions) == c.header.txRoot
    ensures c.signer == c.header.proposer
  {
  }

  /** A dissenter is named only for a root the block does not have, on a block a full node accepts
      as proposed: whoever reports the full replay's root, or refuses a block a full node refuses,
      is never named, whatever proofs were supplied. */
  lemma VoterNamedOnlyIfWrong(rt: Runtime, c: Dispute, l: Ledger)
    requires RootOf(l.state) == c.header.parentRoot && SeedKeepsContext(rt, c.header.height, l)
    ensures Judge(rt, c) == Voter ==> HonestBlock(rt, c, l) && c.dissentRoot != c.header.stateRoot
  {
    hide Judge, Survey, Execute, RootOf, FromProofs, Admissible, FirstGap, SeedKeepsContext;
    JudgeExact(rt, c, l);
    SurveyExecutes(rt, c.header, c.actions, l);
  }

  /** When an honest proposer is named: exactly when the first thing the proofs do not cover is a
      read whose failure a circuit wraps in its own error. */
  lemma HonestProposerNamed(rt: Runtime, c: Dispute, l: Ledger)
    requires RootOf(l.state) == c.header.parentRoot && SeedKeepsContext(rt, c.header.height, l)
    requires HonestBlock(rt, c, l)
    ensures Judge(rt, c) == Proposer <==>
            && Admissible(rt, c)
            && FromProofs(c.header.parentRoot, c.proofs).Some?
            && var gap := FirstGap(FromProofs(c.header.parentRoot, c.proofs).value, [],
                                   Survey(rt, c.header, c.actions, l).1);
               gap.Some? && gap.value.ReadOf? && gap.value.blames
  {
    hide Judge, Survey, Execute, RootOf, FromProofs, Admissible, FirstGap, SeedKeepsContext;
    JudgeExact(rt, c, l);
    SurveyExecutes(rt, c.header, c.actions, l);
  }

  // ----- complete proofs

  ghost predicate Supplied(proofs: seq<Proof>, k: KeyHash) {
    exists p :: p in proofs && p.key == k
  }

  ghost predicate SuppliedFor(proofs: seq<Proof>, a: Access) {
    match a
    case ReadOf(key, _) => key.InTrie? && Supplied(proofs, key.hash)
    case WriteOf(k) => Supplied(proofs, k)
  }

  /** Every access is to a key the proofs were supplied for. */
  ghost predicate Complete(proofs: seq<Proof>, trace: seq<Access>) {
    forall i :: 0 <= i < |trace| ==> SuppliedFor(proofs, trace[i])
  }

  lemma {:induction false} CompleteNoGap(m: State, proofs: seq<Proof>, before: seq<Access>, trace: seq<Access>)
    requires FromProofs(RootOf(m), proofs).Some? && Complete(proofs, trace)
    ensures FirstGap(FromProofs(RootOf(m), proofs).value, before, trace).None?
    decreases |trace|
  {
    hide RootOf, FromProofs, Get;
    if trace != [] {
      assert SuppliedFor(proofs, trace[0]);
      var k := if trace[0].WriteOf? then trace[0].hash else trace[0].key.hash;
      var p :| p in proofs && p.key == k;
      ProofsCover(m, proofs, p);
      ValueNeedsPath(FromProofs(RootOf(m), proofs).value, k);
      CompleteNoGap(m, proofs, before + [trace[0]], trace[1..]);
    }
  }

  lemma ValueNeedsPath(t: Partial, k: KeyHash)
    ensures KnowsValue(t, k) ==> KnowsPath(t, k)
  {
  }

  /** With a proof for every key the replay touches, the party named is the party at fault: the
      proposer exactly when a full node refuses the block or computes another root, the voter exactly
      when the block is as proposed and the voter's root is not. */
  lemma CompleteProofsDecide(rt: Runtime, c: Dispute, l: Ledger)
    requires RootOf(l.state) == c.header.parentRoot && SeedKeepsContext(rt, c.header.height, l)
    requires |c.actions| <= MAX_ADJUDICATED_ACTIONS && rt.txRoot(c.actions) == c.header.txRoot
    requires c.signer == c.header.proposer && FromProofs(c.header.parentRoot, c.proofs).Some?
    requires Complete(c.proofs, Survey(rt, c.header, c.actions, l).1)
    ensures var end := Survey(rt, c.header, c.actions, l).0;
            && (Judge(rt, c) == Voter <==>
                  end.Executed? && HonestBlock(rt, c, l) && c.dissentRoot != c.header.stateRoot)
            && (Judge(rt, c) == Proposer <==> (end.Executed? || end.Rejected?) && !HonestBlock(rt, c, l))
  {
    hide Judge, Survey, Execute, RootOf, FromProofs, FirstGap, SeedKeepsContext, Complete;
    JudgeExact(rt, c, l);
    SurveyExecutes(rt, c.header, c.actions, l);
    CompleteNoGap(l.state, c.proofs, [], Survey(rt, c.header, c.actions, l).1);
  }
}

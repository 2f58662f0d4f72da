/** `replay_block_divergence` as it runs (arxd/runtime/src/adjudicate.rs): one mutable trie, a loop
    over the actions and early returns. Every method computes what `Replay` and `Adjudicate` say. */
module BlockAdjudicator {
  import opened TextFormat
  import T = ProofTrie
  import opened ProofBackedTrieClass
  import opened Replay
  import opened Adjudicate

  /** `ProofBackedView::get`. */
  method Fetch(trie: ProofBackedTrie, key: Key) returns (a: T.Answer)
    ensures a == FetchProven(trie.Contents(), key)
  {
    if key.OffTrie? {
      return T.Unproven;
    }
    a := trie.Get(key.hash);
  }

  /** A phase of the chain's code, run over the view. */
  method RunOver<R>(p: Program<R>, trie: ProofBackedTrie) returns (r: Ran<R>)
    ensures r == RunProof(p, [], trie.Contents())
  {
    var answers := [];
    while Ask(p, answers).Read?
      invariant RunProof(p, answers, trie.Contents()) == RunProof(p, [], trie.Contents())
      decreases p.limit - |answers|
    {
      var a := Fetch(trie, Ask(p, answers).key);
      if a.Unproven? {
        return Blocked(Ask(p, answers).wrapped);
      }
      answers := answers + [a.value];
    }
    r := Done(p.finish(answers));
  }

  /** `apply_entries` over `state_entries`. */
  method ApplyEntries(trie: ProofBackedTrie, us: seq<Update>) returns (ok: bool)
    modifies trie
    ensures ok == ApplyAll(old(trie.Contents()), us).Some?
    ensures ok ==> trie.Contents() == ApplyAll(old(trie.Contents()), us).value
  {
    hide T.Apply;
    for i := 0 to |us|
      invariant ApplyAll(trie.Contents(), us[i..]) == ApplyAll(old(trie.Contents()), us)
    {
      assert us[i..][0] == us[i] && us[i..][1..] == us[i + 1..];
      if us[i].key.InTrie? {
        var placed := trie.Apply(us[i].key.hash, us[i].value);
        if !placed {
          return false;
        }
      }
    }
    ok := true;
  }

  /** One turn of the action loop: a verdict, or the trie and tally for the next action. */
  method ReplayAction(rt: Runtime, h: Header, ctx: Context, trie: ProofBackedTrie, a: Action, tally: Tally)
    returns (verdict: Option<Verdict>, next: Tally)
    modifies trie
    ensures var j := JudgeAction(rt, h, ctx, old(trie.Contents()), a, tally);
            && (verdict.Some? <==> j.Ruled?)
            && (verdict.Some? ==> j == Ruled(verdict.value))
            && (verdict.None? ==> j == Onward(trie.Contents(), next))
  {
    hide RunProof, ApplyAll, Counted, OverWeight;
    next := tally;
    if rt.isFaultSubmission(a) {
      return Some(Disagreement), next;
    }
    var signed := RunOver(rt.authorize(a), trie);
    if signed.Blocked? {
      return Some(Disagreement), next;
    }
    if !signed.value || OverWeight(rt, ctx, tally, a) {
      return Some(Proposer), next;
    }
    var ran := RunOver(rt.dispatch(a, ctx, h), trie);
    if ran.Blocked? {
      return Some(if ran.wrapped then Proposer else Disagreement), next;
    }
    if ran.value.None? {
      return Some(Proposer), next;
    }
    var placed := ApplyEntries(trie, ran.value.value.updates);
    if !placed {
      return Some(Disagreement), next;
    }
    verdict, next := None, Counted(rt, ctx, tally, a, ran.value.value);
  }

  /** The action loop. */
  method ReplayActions(rt: Runtime, h: Header, ctx: Context, trie: ProofBackedTrie, actions: seq<Action>)
    returns (verdict: Option<Verdict>, tally: Tally)
    modifies trie
    ensures var j := JudgeActions(rt, h, ctx, old(trie.Contents()), actions, START);
            && (verdict.Some? ==> j == Ruled(verdict.value))
            && (verdict.None? ==> j == Onward(trie.Contents(), tally))
  {
    hide JudgeAction;
    tally := START;
    verdict := None;
    for i := 0 to |actions|
      invariant JudgeActions(rt, h, ctx, trie.Contents(), actions[i..], tally)
             == JudgeActions(rt, h, ctx, old(trie.Contents()), actions, START)
    {
      assert actions[i..][0] == actions[i] && actions[i..][1..] == actions[i + 1..];
      verdict, tally := ReplayAction(rt, h, ctx, trie, actions[i], tally);
      if verdict.Some? {
        return;
      }
    }
    verdict := None;
  }

  /** `replay_block_divergence`. */
  method ReplayBlockDivergence(rt: Runtime, c: Dispute) returns (v: Verdict)
    ensures v == Judge(rt, c)
  {
    hide RunProof, ApplyAll, JudgeActions, T.FromProofs, SealEntries;
    if |c.actions| > MAX_ADJUDICATED_ACTIONS {
      return Disagreement;
    }
    if rt.txRoot(c.actions) != c.header.txRoot || c.signer != c.header.proposer {
      return Disagreement;
    }
    var ok, trie := FromProofs(c.header.parentRoot, c.proofs);
    if !ok {
      return Disagreement;
    }
    var seed := RunOver(rt.unbonding(c.header.height), trie);
    if seed.Blocked? {
      return Disagreement;
    }
    if seed.value.None? {
      return Failed;
    }
    ok := ApplyEntries(trie, seed.value.value);
    if !ok {
      return Disagreement;
    }
    var context := RunOver(rt.context(c.header.height), trie);
    if context.Blocked? {
      return Disagreement;
    }
    var ruled, tally := ReplayActions(rt, c.header, context.value, trie, c.actions);
    if ruled.Some? {
      return ruled.value;
    }
    var sealed := RunOver(rt.seal(c.header, context.value, tally), trie);
    if sealed.Blocked? || sealed.value.None? {
      return Disagreement;
    }
    ok := ApplyEntries(trie, SealEntries(rt, c.header, sealed.value.value));
    if !ok {
      return Disagreement;
    }
    var proposed, dissent := trie.root == c.header.stateRoot, trie.root == c.dissentRoot;
    if proposed {
      v := if dissent then Disagreement else Voter;
    } else {
      v := Proposer;
    }
  }
}

/** What executing a block means, action by action (core/executor/src/lib.rs, `accept_block` and
    `execute_actions`; arxd/runtime/src/adjudicate.rs replays the same): the ledgers it goes through, sums of
    weights and fees over the action list, and what the seal leaves behind. */
module BlockExecution {
  import opened TextFormat
  import opened VotingPower
  import opened StateTrie
  import opened ProofTrie
  import opened Replay
  import opened Adjudicate

  // ----- sums over the action list

  /** The sum of `f` over the actions, without a bound. */
  function Total(f: Action -> nat, actions: seq<Action>): nat {
    if actions == [] then 0 else Total(f, actions[..|actions| - 1]) + f(actions[|actions| - 1])
  }

  function Capped(n: nat, max: nat): nat {
    if n > max then max else n
  }

  function Fee(rt: Runtime, ctx: Context): Action -> nat {
    a => ctx.fee(rt.weight(a))
  }

  function Statuses(effects: seq<Effect>): seq<Address> {
    if effects == [] then [] else Statuses(effects[..|effects| - 1]) + effects[|effects| - 1].statuses
  }

  /** What the action loop hands the seal. */
  function Sums(rt: Runtime, ctx: Context, actions: seq<Action>, effects: seq<Effect>): Tally {
    Tally(Capped(Total(rt.weight, actions), U64_MAX), Capped(Total(Fee(rt, ctx), actions), U128_MAX), Statuses(effects))
  }

  // ----- the actions

  /** Action `k` runs on `ledgers[k]` and leaves the next ledger: its sender authorized it, the weights up to it
      fit the block, and the chain's code gives it an effect. */
  ghost predicate RunsAt(rt: Runtime, h: Header, ctx: Context, actions: seq<Action>, nested: bool,
                         ledgers: seq<Ledger>, effects: seq<Effect>, k: nat)
    requires k < |actions| && k < |effects| && |ledgers| == |effects| + 1
  {
    && !(nested && rt.isFaultSubmission(actions[k]))
    && RunFull(rt.authorize(actions[k]), [], ledgers[k])
    && Capped(Total(rt.weight, actions[..k + 1]), U64_MAX) <= ctx.maxWeight
    && RunFull(rt.dispatch(actions[k], ctx, h), [], ledgers[k]) == Some(effects[k])
    && ledgers[k + 1] == StoreAll(ledgers[k], effects[k].updates)
  }

  /** The first `|effects|` actions run, from `l` on. */
  ghost predicate Runs(rt: Runtime, h: Header, ctx: Context, l: Ledger, actions: seq<Action>, nested: bool,
                       ledgers: seq<Ledger>, effects: seq<Effect>)
  {
    && |effects| <= |actions| && |ledgers| == |effects| + 1 && ledgers[0] == l
    && forall k :: 0 <= k < |effects| ==> RunsAt(rt, h, ctx, actions, nested, ledgers, effects, k)
  }

  /** Why the last of `actions` does not run on `l`. */
  ghost predicate StopsFor(rt: Runtime, h: Header, ctx: Context, l: Ledger, actions: seq<Action>, nested: bool,
                           why: Stop)
    requires actions != []
  {
    var a := actions[|actions| - 1];
    if nested && rt.isFaultSubmission(a) then why == Nested
    else
      && why == Refused
      && (|| !RunFull(rt.authorize(a), [], l)
          || Capped(Total(rt.weight, actions), U64_MAX) > ctx.maxWeight
          || RunFull(rt.dispatch(a, ctx, h), [], l).None?)
  }

  /** A walk of one action more is the walk before it, then that action. */
  lemma {:induction false} WalkLast(rt: Runtime, h: Header, ctx: Context, l: Ledger, actions: seq<Action>,
                                    tally: Tally, nested: bool)
    requires actions != []
    ensures var n := |actions| - 1;
            var before := WalkActions(rt, h, ctx, l, actions[..n], tally, nested).0;
            WalkActions(rt, h, ctx, l, actions, tally, nested).0 ==
            if before.Halted? then before
            else WalkAction(rt, h, ctx, before.ledger, actions[n], before.tally, nested).0
    decreases |actions|
  {
    hide WalkAction;
    var n := |actions| - 1;
    if n == 0 {
      assert actions[..n] == [];
    } else {
      assert actions[..n][1..] == actions[1..][..n - 1] && actions[..n][0] == actions[0];
      var one := WalkAction(rt, h, ctx, l, actions[0], tally, nested).0;
      if one.Through? {
        WalkLast(rt, h, ctx, one.ledger, actions[1..], one.tally, nested);
      }
    }
  }

  /** One more action on the sums of those before it. */
  lemma WalkOne(rt: Runtime, h: Header, ctx: Context, l: Ledger, actions: seq<Action>, effects: seq<Effect>,
                nested: bool)
    requires actions != [] && |effects| == |actions| - 1
    ensures var n := |actions| - 1;
            var next := WalkAction(rt, h, ctx, l, actions[n], Sums(rt, ctx, actions[..n], effects), nested).0;
            if next.Halted? then StopsFor(rt, h, ctx, l, actions, nested, next.why)
            else
              && !(nested && rt.isFaultSubmission(actions[n])) && RunFull(rt.authorize(actions[n]), [], l)
              && Capped(Total(rt.weight, actions), U64_MAX) <= ctx.maxWeight
              && var effect := RunFull(rt.dispatch(actions[n], ctx, h), [], l);
                 && effect.Some? && next.ledger == StoreAll(l, effect.value.updates)
                 && next.tally == Sums(rt, ctx, actions, effects + [effect.value])
  {
    hide RunFull, StoreAll, Reads, Writes;
    var effect := RunFull(rt.dispatch(actions[|actions| - 1], ctx, h), [], l);
    if effect.Some? {
      assert (effects + [effect.value])[..|effects|] == effects;
    }
  }

  /** The action loop, exactly: it gets through the actions that run, one after the other, and hands on the sums
      over all of them; or it stops at the first that does not, for the reason it does not. */
  lemma {:induction false} WalkExact(rt: Runtime, h: Header, ctx: Context, l: Ledger, actions: seq<Action>,
                                     nested: bool)
    returns (ledgers: seq<Ledger>, effects: seq<Effect>)
    ensures Runs(rt, h, ctx, l, actions, nested, ledgers, effects)
    ensures var n, end := |effects|, WalkActions(rt, h, ctx, l, actions, START, nested).0;
            if end.Through? then n == |actions| && end == Through(ledgers[n], Sums(rt, ctx, actions, effects))
            else n < |actions| && StopsFor(rt, h, ctx, ledgers[n], actions[..n + 1], nested, end.why)
    decreases |actions|
  {
    hide WalkAction, RunFull, StoreAll, StopsFor;
    if actions == [] {
      ledgers, effects := [l], [];
    } else {
      var n := |actions| - 1;
      ledgers, effects := WalkExact(rt, h, ctx, l, actions[..n], nested);
      WalkLast(rt, h, ctx, l, actions, START, nested);
      RunsLonger(rt, h, ctx, l, actions[..n], actions, nested, ledgers, effects);
      var before := WalkActions(rt, h, ctx, l, actions[..n], START, nested).0;
      if before.Halted? {
        assert actions[..n][..|effects| + 1] == actions[..|effects| + 1];
      } else {
        WalkOne(rt, h, ctx, before.ledger, actions, effects, nested);
        assert actions[..n + 1] == actions;
        if WalkAction(rt, h, ctx, before.ledger, actions[n], before.tally, nested).0.Through? {
          var effect := RunFull(rt.dispatch(actions[n], ctx, h), [], before.ledger).value;
          RunsMore(rt, h, ctx, l, actions, nested, ledgers, effects, effect);
          ledgers, effects := ledgers + [StoreAll(before.ledger, effect.updates)], effects + [effect];
        }
      }
    }
  }

  /** Actions appended to the list do not change how those before them run. */
  lemma RunsLonger(rt: Runtime, h: Header, ctx: Context, l: Ledger, actions: seq<Action>, more: seq<Action>,
                   nested: bool, ledgers: seq<Ledger>, effects: seq<Effect>)
    requires actions <= more && Runs(rt, h, ctx, l, actions, nested, ledgers, effects)
    ensures Runs(rt, h, ctx, l, more, nested, ledgers, effects)
  {
    hide RunFull, StoreAll, Total;
    forall k | 0 <= k < |effects| ensures RunsAt(rt, h, ctx, more, nested, ledgers, effects, k) {
      assert RunsAt(rt, h, ctx, actions, nested, ledgers, effects, k);
      assert more[..k + 1] == actions[..k + 1];
    }
  }

  lemma RunsMore(rt: Runtime, h: Header, ctx: Context, l: Ledger, actions: seq<Action>, nested: bool,
                 ledgers: seq<Ledger>, effects: seq<Effect>, effect: Effect)
    requires Runs(rt, h, ctx, l, actions, nested, ledgers, effects) && |effects| < |actions|
    requires var n := |effects|;
             && !(nested && rt.isFaultSubmission(actions[n])) && RunFull(rt.authorize(actions[n]), [], ledgers[n])
             && Capped(Total(rt.weight, actions[..n + 1]), U64_MAX) <= ctx.maxWeight
             && RunFull(rt.dispatch(actions[n], ctx, h), [], ledgers[n]) == Some(effect)
    ensures Runs(rt, h, ctx, l, actions, nested, ledgers + [StoreAll(ledgers[|effects|], effect.updates)],
                 effects + [effect])
  {
    hide RunFull, StoreAll, Total;
    var more, all := ledgers + [StoreAll(ledgers[|effects|], effect.updates)], effects + [effect];
    forall k | 0 <= k < |all| ensures RunsAt(rt, h, ctx, actions, nested, more, all, k) {
      if k < |effects| {
        assert RunsAt(rt, h, ctx, actions, nested, ledgers, effects, k);
      }
    }
  }

  /** What stopped the loop stops it for every longer list. */
  lemma {:induction false} HaltStays(rt: Runtime, h: Header, ctx: Context, l: Ledger, actions: seq<Action>,
                                     nested: bool, k: nat)
    requires k <= |actions| && WalkActions(rt, h, ctx, l, actions[..k], START, nested).0.Halted?
    ensures WalkActions(rt, h, ctx, l, actions, START, nested).0 ==
            WalkActions(rt, h, ctx, l, actions[..k], START, nested).0
    decreases |actions|
  {
    hide WalkActions;
    if k == |actions| {
      assert actions[..k] == actions;
    } else {
      var n := |actions| - 1;
      assert actions[..n][..k] == actions[..k];
      HaltStays(rt, h, ctx, l, actions[..n], nested, k);
      WalkLast(rt, h, ctx, l, actions, START, nested);
    }
  }

  /** The metering of a block: the loop gets through only if the weights of every prefix add up to no more than
      the block may weigh, and at the first prefix that weighs more the block is refused. */
  lemma WeightBinds(rt: Runtime, h: Header, ctx: Context, l: Ledger, actions: seq<Action>, nested: bool, k: nat)
    requires 1 <= k <= |actions|
    ensures WalkActions(rt, h, ctx, l, actions, START, nested).0.Through? ==>
              Capped(Total(rt.weight, actions[..k]), U64_MAX) <= ctx.maxWeight
    ensures WalkActions(rt, h, ctx, l, actions[..k - 1], START, nested).0.Through? &&
            Capped(Total(rt.weight, actions[..k]), U64_MAX) > ctx.maxWeight &&
            !(nested && rt.isFaultSubmission(actions[k - 1])) ==>
              WalkActions(rt, h, ctx, l, actions, START, nested).0 == Halted(Refused)
  {
    hide RunFull, StoreAll, Total, WalkAction, WalkActions;
    var ledgers, effects := WalkExact(rt, h, ctx, l, actions, nested);
    assert k - 1 < |effects| ==> RunsAt(rt, h, ctx, actions, nested, ledgers, effects, k - 1);
    var _, done := WalkExact(rt, h, ctx, l, actions[..k - 1], nested);
    WalkLast(rt, h, ctx, l, actions[..k], START, nested);
    assert actions[..k][..k - 1] == actions[..k - 1];
    var before := WalkActions(rt, h, ctx, l, actions[..k - 1], START, nested).0;
    if before.Through? {
      WalkOne(rt, h, ctx, before.ledger, actions[..k], done, nested);
      if WalkActions(rt, h, ctx, l, actions[..k], START, nested).0.Halted? {
        HaltStays(rt, h, ctx, l, actions, nested, k);
      }
    }
  }

  // ----- the block

  /** The block is executed: unbonds mature first, every action runs under the parent's validator set and
      parameters, the seal is given the sums over all of them, and its writes come last, with the validator set
      it elects filed for the next height. */
  ghost predicate Executes(rt: Runtime, h: Header, actions: seq<Action>, l: Ledger, matured: seq<Update>,
                           ledgers: seq<Ledger>, effects: seq<Effect>, s: Sealed, after: Ledger)
  {
    var ctx := RunFull(rt.context(h.height), [], l);
    && RunFull(rt.unbonding(h.height), [], l) == Some(matured)
    && Runs(rt, h, ctx, StoreAll(l, matured), actions, false, ledgers, effects) && |effects| == |actions|
    && var end := ledgers[|actions|];
       && RunFull(rt.seal(h, ctx, Sums(rt, ctx, actions, effects)), [], end) == Some(s)
       && after == match s.newSet
                   case None => StoreAll(end, s.updates)
                   case Some(elected) => StoreAll(StoreAll(end, s.updates), rt.snapshot(h.height + 1, elected))
  }

  lemma {:induction false} StoreConcat(l: Ledger, a: seq<Update>, b: seq<Update>)
    ensures StoreAll(l, a + b) == StoreAll(StoreAll(l, a), b)
    decreases |a|
  {
    if a == [] {
      assert a + b == b;
    } else {
      assert (a + b)[0] == a[0] && (a + b)[1..] == a[1..] + b;
      StoreConcat(Store(l, a[0]), a[1..], b);
    }
  }

  /** Execution is deterministic. */
  lemma {:induction false} OneRun(rt: Runtime, h: Header, ctx: Context, l: Ledger, actions: seq<Action>, nested: bool,
                                  ledgers: seq<Ledger>, effects: seq<Effect>, others: seq<Ledger>, done: seq<Effect>,
                                  k: nat)
    requires Runs(rt, h, ctx, l, actions, nested, ledgers, effects)
    requires Runs(rt, h, ctx, l, actions, nested, others, done)
    requires k <= |effects| && k <= |done|
    ensures ledgers[k] == others[k] && effects[..k] == done[..k]
    decreases k
  {
    hide RunFull, StoreAll, Total;
    if k > 0 {
      OneRun(rt, h, ctx, l, actions, nested, ledgers, effects, others, done, k - 1);
      assert RunsAt(rt, h, ctx, actions, nested, ledgers, effects, k - 1);
      assert RunsAt(rt, h, ctx, actions, nested, others, done, k - 1);
      assert effects[..k] == effects[..k - 1] + [effects[k - 1]] && done[..k] == done[..k - 1] + [done[k - 1]];
    }
  }

  /** A full path is the only one, and the loop takes it. */
  lemma FullRun(rt: Runtime, h: Header, ctx: Context, l: Ledger, actions: seq<Action>, nested: bool,
                ledgers: seq<Ledger>, effects: seq<Effect>)
    requires Runs(rt, h, ctx, l, actions, nested, ledgers, effects) && |effects| == |actions|
    ensures WalkActions(rt, h, ctx, l, actions, START, nested).0 ==
            Through(ledgers[|actions|], Sums(rt, ctx, actions, effects))
  {
    hide RunFull, StoreAll, Total, WalkActions, Runs;
    var others, done := WalkExact(rt, h, ctx, l, actions, nested);
    var n := |done|;
    RunsShape(rt, h, ctx, l, actions, nested, ledgers, effects);
    RunsShape(rt, h, ctx, l, actions, nested, others, done);
    OneRun(rt, h, ctx, l, actions, nested, ledgers, effects, others, done, n);
    if n < |actions| {
      StopsAlone(rt, h, ctx, l, actions, nested, ledgers, effects, n,
                 WalkActions(rt, h, ctx, l, actions, START, nested).0.why);
    } else {
      assert effects[..n] == effects && done[..n] == done;
    }
  }

  lemma RunsShape(rt: Runtime, h: Header, ctx: Context, l: Ledger, actions: seq<Action>, nested: bool,
                  ledgers: seq<Ledger>, effects: seq<Effect>)
    requires Runs(rt, h, ctx, l, actions, nested, ledgers, effects)
    ensures |effects| <= |actions| && |ledgers| == |effects| + 1
  {
  }

  /** An action that runs does not stop the loop. */
  lemma StopsAlone(rt: Runtime, h: Header, ctx: Context, l: Ledger, actions: seq<Action>, nested: bool,
                   ledgers: seq<Ledger>, effects: seq<Effect>, n: nat, why: Stop)
    requires Runs(rt, h, ctx, l, actions, nested, ledgers, effects) && n < |effects|
    ensures !StopsFor(rt, h, ctx, ledgers[n], actions[..n + 1], nested, why)
  {
    hide RunFull, StoreAll, Total;
    assert RunsAt(rt, h, ctx, actions, nested, ledgers, effects, n);
  }

  /** A full node ends with `after` exactly when the block executes to it. */
  lemma ExecuteIff(rt: Runtime, h: Header, actions: seq<Action>, l: Ledger, after: Ledger)
    ensures Execute(rt, h, actions, l) == Some(after) <==>
            exists matured, ledgers, effects, s :: Executes(rt, h, actions, l, matured, ledgers, effects, s, after)
  {
    hide Execute, Executes;
    if Execute(rt, h, actions, l) == Some(after) {
      var matured, ledgers, effects, s := AcceptedExecutes(rt, h, actions, l, after);
    }
    forall matured, ledgers, effects, s | Executes(rt, h, actions, l, matured, ledgers, effects, s, after)
      ensures Execute(rt, h, actions, l) == Some(after)
    {
      ExecutedAccepts(rt, h, actions, l, matured, ledgers, effects, s, after);
    }
  }

  lemma AcceptedExecutes(rt: Runtime, h: Header, actions: seq<Action>, l: Ledger, after: Ledger)
    returns (matured: seq<Update>, ledgers: seq<Ledger>, effects: seq<Effect>, s: Sealed)
    requires Execute(rt, h, actions, l) == Some(after)
    ensures Executes(rt, h, actions, l, matured, ledgers, effects, s, after)
  {
    hide RunFull, StoreAll, WalkActions, Runs, Sums;
    matured := RunFull(rt.unbonding(h.height), [], l).value;
    var ctx := RunFull(rt.context(h.height), [], l);
    ledgers, effects := WalkExact(rt, h, ctx, StoreAll(l, matured), actions, false);
    RunsShape(rt, h, ctx, StoreAll(l, matured), actions, false, ledgers, effects);
    s := RunFull(rt.seal(h, ctx, Sums(rt, ctx, actions, effects)), [], ledgers[|actions|]).value;
    SealStores(rt, h, s, ledgers[|actions|]);
  }

  lemma ExecutedAccepts(rt: Runtime, h: Header, actions: seq<Action>, l: Ledger, matured: seq<Update>,
                        ledgers: seq<Ledger>, effects: seq<Effect>, s: Sealed, after: Ledger)
    requires Executes(rt, h, actions, l, matured, ledgers, effects, s, after)
    ensures Execute(rt, h, actions, l) == Some(after)
  {
    hide RunFull, StoreAll, WalkActions, Runs, Sums;
    var ctx := RunFull(rt.context(h.height), [], l);
    RunsShape(rt, h, ctx, StoreAll(l, matured), actions, false, ledgers, effects);
    FullRun(rt, h, ctx, StoreAll(l, matured), actions, false, ledgers, effects);
    SealStores(rt, h, s, ledgers[|actions|]);
  }

  /** The seal's own writes, then the elected set at the next height. */
  lemma SealStores(rt: Runtime, h: Header, s: Sealed, l: Ledger)
    ensures StoreAll(l, SealEntries(rt, h, s)) ==
            match s.newSet
            case None => StoreAll(l, s.updates)
            case Some(elected) => StoreAll(StoreAll(l, s.updates), rt.snapshot(h.height + 1, elected))
  {
    hide StoreAll;
    if s.newSet.Some? {
      StoreConcat(l, s.updates, rt.snapshot(h.height + 1, s.newSet.value));
    } else {
      assert s.updates + [] == s.updates;
    }
  }

  /** A block one of whose prefixes weighs more than allowed is held against its proposer, given the proofs for
      what the replay touches and no fault submission among the actions. */
  lemma OverweightBlamed(rt: Runtime, c: Dispute, l: Ledger, k: nat)
    requires RootOf(l.state) == c.header.parentRoot && SeedKeepsContext(rt, c.header.height, l)
    requires Admissible(rt, c) && FromProofs(c.header.parentRoot, c.proofs).Some?
    requires Complete(c.proofs, Survey(rt, c.header, c.actions, l).1)
    requires RunFull(rt.unbonding(c.header.height), [], l).Some?
    requires forall i :: 0 <= i < |c.actions| ==> !rt.isFaultSubmission(c.actions[i])
    requires 1 <= k <= |c.actions|
    requires Capped(Total(rt.weight, c.actions[..k]), U64_MAX) > RunFull(rt.context(c.header.height), [], l).maxWeight
    ensures Judge(rt, c) == Proposer
  {
    hide Judge, RootOf, FromProofs, Complete, RunFull, StoreAll, WalkActions, Total, Reads, Writes, Execute;
    CompleteProofsDecide(rt, c, l);
    SurveyExecutes(rt, c.header, c.actions, l);
    var l1 := StoreAll(l, RunFull(rt.unbonding(c.header.height), [], l).value);
    var ctx := RunFull(rt.context(c.header.height), [], l);
    WeightBinds(rt, c.header, ctx, l1, c.actions, true, k);
    var ledgers, effects := WalkExact(rt, c.header, ctx, l1, c.actions, true);
    assert c.actions[..|effects| + 1][|effects|] == c.actions[|effects|];
  }
}

/** A validator's finality engine (arxd/finality/src/lib.rs, `Engine::try_step` and the three signing
    methods), as a run of the network's events: whatever is proved of every run holds of it. */
module FinalityEngine {
  import opened TextFormat
  import opened VotingPower
  import opened Blocks
  import opened Chain
  import R = VoteRecord
  import V = VoteRuns
  import P = Protocol
  import S = System
  import U = Unwind

  type Slot = (nat, nat)

  /** The vote record and what this process remembers having signed or been refused. */
  datatype Hand = Hand(store: R.Store<Block>, prevotes: set<Slot>, precommits: set<Slot>, timeouts: set<Slot>,
                       refused: set<(R.Kind, nat, nat)>)

  function Signed(hand: Hand, kind: R.Kind): set<Slot> {
    match kind
    case Prevote => hand.prevotes
    case Precommit => hand.precommits
    case Timeout => hand.timeouts
  }

  function Remembering(hand: Hand, e: R.Entry<Block>): Hand {
    match e.kind
    case Prevote => hand.(prevotes := hand.prevotes + {(e.height, e.round)})
    case Precommit => hand.(precommits := hand.precommits + {(e.height, e.round)})
    case Timeout => hand.(timeouts := hand.timeouts + {(e.height, e.round)})
  }

  /** One signature attempt: nothing already signed or refused is tried again, and nothing is signed
      that the record does not grant. */
  function Tried(hand: Hand, me: Address, e: R.Entry<Block>, pol: Option<nat>, ep: nat, write: R.Write)
    : (Hand, set<S.Signed>)
  {
    if (e.height, e.round) in Signed(hand, e.kind) || (e.kind, e.height, e.round) in hand.refused then (hand, {})
    else
      match V.Attempt(hand.store, e, pol, write)
      case Granted(st) => (Remembering(hand.(store := st), e), {S.Signed(S.VoteOf(me, e), ep)})
      case Refused(st, _) => (hand.(store := st, refused := hand.refused + {(e.kind, e.height, e.round)}), {})
  }

  /** The vote of `kind` that the database read calls for, if any. */
  function Turn(hand: Hand, me: Address, view: Db, kind: R.Kind, ep: nat, write: R.Write): (Hand, set<S.Signed>)
    requires S.WellFormed(view)
  {
    match S.Intent(view, kind)
    case None => (hand, {})
    case Some((e, pol)) => Tried(hand, me, e, pol, ep, write)
  }

  /** Everything one `try_step` signs: precommit, prevote, and the timeout once its time has come. */
  function Voted(hand: Hand, me: Address, view: Db, elapsed: bool, ep: nat, writes: (R.Write, R.Write, R.Write))
    : (Hand, set<S.Signed>)
    requires S.WellFormed(view)
  {
    var (h1, s1) := Turn(hand, me, view, R.Precommit, ep, writes.0);
    var (h2, s2) := Turn(h1, me, view, R.Prevote, 0, writes.1);
    var (h3, s3) := if elapsed then Turn(h2, me, view, R.Timeout, 0, writes.2) else (h2, {});
    (h3, s1 + s2 + s3)
  }

  // ----- what a step signs, from the state it starts in

  /** The height after the watermark is open here: no certificate for it, nothing held above it. */
  predicate Voting(db: Db) {
    TipHeight(db) <= db.watermark + 1 && db.watermark + 1 !in db.certs
  }

  /** A block is held there. */
  predicate Holds(db: Db) {
    Voting(db) && TipHeight(db) == db.watermark + 1
  }

  /** And it is the locked one. */
  predicate HoldsLocked(db: Db) {
    Holds(db) && TipHeight(db) in db.pols && db.pols[TipHeight(db)].block == db.tip
  }

  /** The round voted in: the first that is neither certified over nor behind the held block. */
  function VotingRound(db: Db): (r: nat)
    ensures forall c :: c in db.roundCerts && c.0 == db.watermark + 1 ==> c.1 < r
    ensures Holds(db) ==> Round(db.tip) <= r
    ensures r > 0 ==> (db.watermark + 1, r - 1) in db.roundCerts || (Holds(db) && Round(db.tip) == r)
  {
    var known := CurrentRound(db, db.watermark + 1);
    if Holds(db) && Round(db.tip) > known then Round(db.tip) else known
  }

  /** The record takes the vote: it is there already, or it is new and the write durable. */
  predicate Takes(rec: R.Record<Block>, e: R.Entry<Block>, pol: Option<nat>, write: R.Write) {
    && (e.kind.Prevote? ==> R.LockAllows(rec, e.height, e.round, e.hash, pol))
    && (R.Check(rec, e) == R.Repeat || (R.Check(rec, e) == R.Fresh && write.Durable?))
  }

  /** The record after a vote it took. */
  function Noted(rec: R.Record<Block>, e: R.Entry<Block>): R.Record<Block> {
    if R.Check(rec, e) == R.Fresh then R.Appended(rec, e) else rec
  }

  /** The vote was neither signed nor refused before. */
  predicate Untried(hand: Hand, e: R.Entry<Block>) {
    && (e.kind, e.height, e.round) !in hand.refused
    && match e.kind
       case Prevote => (e.height, e.round) !in hand.prevotes
       case Precommit => (e.height, e.round) !in hand.precommits
       case Timeout => (e.height, e.round) !in hand.timeouts
  }

  /** A step from `hand` and `db` to `after`: it precommits the locked block if it holds it, at the round of the
      lock; prevotes the locked block, or without a lock the round's own; and times the round out unless that
      is certified - in this order, each vote once and only if the record takes it as the votes before left it.
      What the record did not take is not tried again. */
  predicate SignsDue(hand: Hand, me: Address, db: Db, elapsed: bool, ep: nat, writes: (R.Write, R.Write, R.Write),
                     after: Hand, sent: set<S.Signed>)
    requires S.WellFormed(db)
  {
    var h, r, rec0 := db.watermark + 1, VotingRound(db), hand.store.mem;
    var lock := if h in db.pols then Some(db.pols[h].round) else None;
    var precommit := R.Entry(R.Precommit, h, if lock.Some? then lock.value else 0, db.tip);
    var prevote := R.Entry(R.Prevote, h, r, db.tip);
    var timeout := R.Entry(R.Timeout, h, r, Ancestor(db.tip, h - 1));
    var precommits := HoldsLocked(db) && Untried(hand, precommit);
    var prevotes :=
      (HoldsLocked(db) || (Holds(db) && lock.None? && Round(db.tip) == r)) && Untried(hand, prevote);
    var timesOut := Voting(db) && elapsed && (h, r) !in db.roundCerts && Untried(hand, timeout);
    var first := precommits && Takes(rec0, precommit, None, writes.0);
    var rec1 := if first then Noted(rec0, precommit) else rec0;
    var second := prevotes && Takes(rec1, prevote, lock, writes.1);
    var rec2 := if second then Noted(rec1, prevote) else rec1;
    var third := timesOut && Takes(rec2, timeout, None, writes.2);
    && sent == (if first then {S.Signed(P.Precommit(me, h, precommit.round, db.tip), ep)} else {})
               + (if second then {S.Signed(P.Prevote(me, h, r, db.tip), 0)} else {})
               + (if third then {S.Signed(P.Timeout(me, h, r, timeout.hash), 0)} else {})
    && after.store.mem == (if third then Noted(rec2, timeout) else rec2)
    && after.precommits == hand.precommits + (if first then {(h, precommit.round)} else {})
    && after.prevotes == hand.prevotes + (if second then {(h, r)} else {})
    && after.timeouts == hand.timeouts + (if third then {(h, r)} else {})
    && after.refused == hand.refused
                        + (if precommits && !first then {(R.Precommit, h, precommit.round)} else {})
                        + (if prevotes && !second then {(R.Prevote, h, r)} else {})
                        + (if timesOut && !third then {(R.Timeout, h, r)} else {})
  }

  /** When a vote is tried, and what comes of it. */
  lemma TriedIs(hand: Hand, me: Address, e: R.Entry<Block>, pol: Option<nat>, ep: nat, write: R.Write)
    ensures var (after, sent) := Tried(hand, me, e, pol, ep, write);
            var taken := Untried(hand, e) && Takes(hand.store.mem, e, pol, write);
            var slots := if taken then {(e.height, e.round)} else {};
            && sent == (if taken then {S.Signed(S.VoteOf(me, e), ep)} else {})
            && after.store.mem == (if taken then Noted(hand.store.mem, e) else hand.store.mem)
            && after.precommits == hand.precommits + (if e.kind.Precommit? then slots else {})
            && after.prevotes == hand.prevotes + (if e.kind.Prevote? then slots else {})
            && after.timeouts == hand.timeouts + (if e.kind.Timeout? then slots else {})
            && after.refused == hand.refused +
                 if Untried(hand, e) && !taken then {(e.kind, e.height, e.round)} else {}
  {
    hide R.Check, R.LockAllows, S.VoteOf;
  }

  /** What the plan holds, from the database. */
  lemma PlanIs(db: Db)
    requires S.WellFormed(db)
    ensures PlanStep(db).Some? <==> Voting(db)
    ensures Voting(db) ==>
              var p, h := PlanStep(db).value, db.watermark + 1;
              && p.height == h && p.round == VotingRound(db) && p.parent == Ancestor(db.tip, h - 1)
              && p.pol == (if h in db.pols then Some(db.pols[h]) else None)
              && p.block == if Holds(db) && (h in db.pols ==> db.pols[h].block == db.tip) then Some(db.tip) else None
  {
    hide CurrentRound;
    assert Ancestor(db.tip, TipHeight(db)) == db.tip;
  }

  /** What each kind of vote is called for on. */
  lemma IntentIs(db: Db)
    requires S.WellFormed(db)
    ensures var h, r := db.watermark + 1, VotingRound(db);
            var lock := if h in db.pols then Some(db.pols[h].round) else None;
            && S.Intent(db, R.Precommit) ==
               (if HoldsLocked(db) then Some((R.Entry(R.Precommit, h, lock.value, db.tip), None)) else None)
            && S.Intent(db, R.Prevote) ==
               (if HoldsLocked(db) || (Holds(db) && lock.None? && Round(db.tip) == r)
                then Some((R.Entry(R.Prevote, h, r, db.tip), lock)) else None)
            && S.Intent(db, R.Timeout) ==
               if Voting(db) && (h, r) !in db.roundCerts
               then Some((R.Entry(R.Timeout, h, r, Ancestor(db.tip, h - 1)), None)) else None
  {
    hide PlanStep, CurrentRound, VotingRound;
    PlanIs(db);
  }

  /** The same for a vote that may not be called for. */
  lemma TurnIs(hand: Hand, me: Address, db: Db, kind: R.Kind, ep: nat, write: R.Write, due: bool, e: R.Entry<Block>,
               pol: Option<nat>)
    requires S.WellFormed(db) && e.kind == kind && S.Intent(db, kind) == if due then Some((e, pol)) else None
    ensures var (after, sent) := Turn(hand, me, db, kind, ep, write);
            var taken := due && Untried(hand, e) && Takes(hand.store.mem, e, pol, write);
            var slots := if taken then {(e.height, e.round)} else {};
            && sent == (if taken then {S.Signed(S.VoteOf(me, e), ep)} else {})
            && after.store.mem == (if taken then Noted(hand.store.mem, e) else hand.store.mem)
            && after.precommits == hand.precommits + (if kind.Precommit? then slots else {})
            && after.prevotes == hand.prevotes + (if kind.Prevote? then slots else {})
            && after.timeouts == hand.timeouts + (if kind.Timeout? then slots else {})
            && after.refused == hand.refused +
                 if due && Untried(hand, e) && !taken then {(e.kind, e.height, e.round)} else {}
  {
    hide S.Intent, Tried, Takes, Noted;
    TriedIs(hand, me, e, pol, ep, write);
  }

  /** Everything a step signs is due, and everything due that the record takes is signed. */
  lemma StepSigns(hand: Hand, me: Address, db: Db, elapsed: bool, ep: nat, writes: (R.Write, R.Write, R.Write))
    requires S.WellFormed(db)
    ensures var (after, sent) := Voted(hand, me, db, elapsed, ep, writes);
            SignsDue(hand, me, db, elapsed, ep, writes, after, sent)
  {
    hide S.Intent, Turn, Takes, Noted, VotingRound, Voting, Ancestor;
    IntentIs(db);
    var h, r := db.watermark + 1, VotingRound(db);
    var lock := if h in db.pols then Some(db.pols[h].round) else None;
    var (h1, _) := Turn(hand, me, db, R.Precommit, ep, writes.0);
    var (h2, _) := Turn(h1, me, db, R.Prevote, 0, writes.1);
    TurnIs(hand, me, db, R.Precommit, ep, writes.0, HoldsLocked(db),
           R.Entry(R.Precommit, h, if lock.Some? then lock.value else 0, db.tip), None);
    TurnIs(h1, me, db, R.Prevote, 0, writes.1, HoldsLocked(db) || (Holds(db) && lock.None? && Round(db.tip) == r),
           R.Entry(R.Prevote, h, r, db.tip), lock);
    TurnIs(h2, me, db, R.Timeout, 0, writes.2, Voting(db) && (h, r) !in db.roundCerts,
           R.Entry(R.Timeout, h, r, Ancestor(db.tip, h - 1)), None);
  }

  /** The round certificate of the plan's round kept, when the database lacks it. */
  function Adopted(db: Db, p: Plan): Db {
    if p.round > CurrentRound(db, p.height) then db.(roundCerts := db.roundCerts + {(p.height, p.round - 1)}) else db
  }

  /** What `try_step` does to the database: keep the round certificate the held block carries, and
      drop the held block when the height is locked on another. */
  function Tidied(db: Db): Db
    requires S.WellFormed(db)
  {
    match PlanStep(db)
    case None => db
    case Some(p) =>
      var kept := Adopted(db, p);
      if p.pol.Some? && TipHeight(db) == p.height && db.tip != p.pol.value.block then RevertTo(kept, p.height - 1)
        else kept
  }

  /** After the tidying the node holds the locked block at the voting height or none there, still has the lock
      and accepts no other block in its place, knows the round it votes in, and has given up nothing final. */
  lemma TidiedHoldsLock(db: Db)
    requires S.WellFormed(db) && PlanStep(db).Some?
    ensures var p, after := PlanStep(db).value, Tidied(db);
            && CurrentRound(after, p.height) == p.round
            && (p.pol.Some? ==> BlockAt(after, p.height).None? || BlockAt(after, p.height) == Some(p.pol.value.block))
            && (p.pol.Some? ==>
                  && PolAt(after, p.height) == p.pol
                  && (TipHeight(after) < p.height ==> forall b :: Acceptable(after, b) ==> b == p.pol.value.block))
            && after.tip == U.SwapLocked(db).tip && after.pols == U.SwapLocked(db).pols
            && U.KeepsFinal(db, after)
  {
    hide CurrentRound;
    var p := PlanStep(db).value;
    var kept := Adopted(db, p);
    RoundKept(db, kept, p);
    U.RevertKeepsFinal(kept, p.height - 1);
    U.KeepsFinalSelf(db);
    RoundReverted(kept, p.height);
    TidiedSwaps(db);
    hide RevertTo, U.SwapLocked, U.KeepsFinal, PlanStep;
  }

  /** What the tidying leaves of chain, locks and certificates is what the swap leaves. */
  lemma TidiedSwaps(db: Db)
    requires S.WellFormed(db) && PlanStep(db).Some?
    ensures var p, after := PlanStep(db).value, Tidied(db);
            && after.tip == U.SwapLocked(db).tip && after.pols == U.SwapLocked(db).pols
            && (p.pol.Some? ==> BlockAt(after, p.height).None? || BlockAt(after, p.height) == Some(p.pol.value.block))
            && (p.pol.Some? ==>
                  && PolAt(after, p.height) == p.pol
                  && (TipHeight(after) < p.height ==> forall b :: Acceptable(after, b) ==> b == p.pol.value.block))
  {
    hide CurrentRound;
  }

  lemma RoundKept(db: Db, kept: Db, p: Plan)
    requires S.WellFormed(db) && PlanStep(db) == Some(p)
    requires kept == Adopted(db, p)
    ensures CurrentRound(kept, p.height) == p.round
  {
    assert p.round >= CurrentRound(db, p.height);
    assert p.round > CurrentRound(db, p.height) ==> (p.height, p.round - 1) in kept.roundCerts;
  }

  lemma RoundReverted(db: Db, h: nat)
    requires h > 0
    ensures CurrentRound(RevertTo(db, h - 1), h) == CurrentRound(db, h)
  {
    assert CertifiedRounds(RevertTo(db, h - 1), h) == CertifiedRounds(db, h);
  }

  class Engine {
    const me: Address
    var db: Db
    var store: R.Store<Block>
    var myPrevotes: set<Slot>
    var myVotes: set<Slot>
    var myTimeouts: set<Slot>
    var refused: set<(R.Kind, nat, nat)>

    constructor (me: Address, db: Db, store: R.Store<Block>)
      ensures this.me == me && this.db == db && this.store == store
      ensures myPrevotes == myVotes == myTimeouts == {} && refused == {}
    {
      this.me, this.db, this.store := me, db, store;
      myPrevotes, myVotes, myTimeouts, refused := {}, {}, {}, {};
    }

    /** What this node is to the network while it acts on what it read as `view`. */
    ghost function Self(view: Db): S.Node
      reads this
    {
      S.Node(store, db, view)
    }

    /** `sys` after `evs` shows this node as it is now, everyone else unchanged, and `sent` on the
        wire besides what was there. */
    ghost predicate Mirrors(s: P.Setup, sys: S.Sys, evs: seq<S.Event>, view: Db, sent: set<S.Signed>)
      reads this
    {
      var now := S.Exec(s, sys, evs);
      now.nodes == sys.nodes[me := Self(view)] && now.wire == sys.wire + sent
    }

    function Holding(): Hand
      reads this
    {
      Hand(store, myPrevotes, myVotes, myTimeouts, refused)
    }

    /** `prevote`, `precommit` and `timeout`: skip what was signed or refused before, claim, and only
        then sign. */
    method Sign(e: R.Entry<Block>, pol: Option<nat>, ep: nat, write: R.Write, ghost view: Db, ghost s: P.Setup,
                ghost sys: S.Sys, ghost evs: seq<S.Event>, ghost sent: set<S.Signed>)
      returns (out: set<S.Signed>, ghost more: seq<S.Event>)
      requires S.WellFormed(view) && S.Intent(view, e.kind) == Some((e, pol))
      requires Mirrors(s, sys, evs, view, sent)
      modifies `store, `myPrevotes, `myVotes, `myTimeouts, `refused
      ensures Mirrors(s, sys, more, view, sent + out)
      ensures (Holding(), out) == Tried(old(Holding()), me, e, pol, ep, write)
    {
      hide S.Exec, S.Intent, S.WellFormed, V.Attempt, S.VoteOf;
      out, more := {}, evs;
      var slot := (e.height, e.round);
      if slot in Signed(Holding(), e.kind) || (e.kind, e.height, e.round) in refused {
        assert sent + {} == sent;
        return;
      }
      var outcome := V.Attempt(store, e, pol, write);
      Signing(s, sys, evs, me, Self(view), e, pol, write, ep, sent);
      more := evs + [S.Cast(me, e.kind, write, outcome.Granted?, ep)];
      store := outcome.store;
      if outcome.Refused? {
        refused := refused + {(e.kind, e.height, e.round)};
        return;
      }
      match e.kind {
        case Prevote => myPrevotes := myPrevotes + {slot};
        case Precommit => myVotes := myVotes + {slot};
        case Timeout => myTimeouts := myTimeouts + {slot};
      }
      out := {S.Signed(S.VoteOf(me, e), ep)};
    }

    /** The reading half of `try_step`: keep a later round's certificate the held block carries, and
        drop the held block when the height is locked on another. */
    method Read(ghost s: P.Setup, ghost sys: S.Sys) returns (plan: Option<Plan>, ghost evs: seq<S.Event>)
      requires S.WellFormed(db) && me in sys.nodes && sys.nodes[me].db == db && sys.nodes[me].store == store
      modifies `db
      ensures plan == PlanStep(old(db)) && db == Tidied(old(db))
      ensures Mirrors(s, sys, evs, old(db), {})
      ensures plan.Some? ==>
                ((plan.value.height, plan.value.round) in db.roundCerts <==>
                 (plan.value.height, plan.value.round) in old(db).roundCerts)
    {
      hide S.Exec, CurrentRound, Ancestor, RevertTo, S.Written;
      ghost var view := db;
      evs := [S.Observe(me)];
      Observing(s, sys, me);
      var h := db.watermark + 1;
      if TipHeight(db) > h || h in db.certs {
        return None, evs;
      }
      var parent := Ancestor(db.tip, h - 1);
      var round := CurrentRound(db, h);
      var block := BlockAt(db, h);
      WrittenIs(s, sys.wire, db, me);
      if block.Some? && Round(block.value) > round {
        Writing(s, sys, evs, me, Self(view), S.AdoptRoundCert(me));
        evs := evs + [S.AdoptRoundCert(me)];
        round := Round(block.value);
        db := db.(roundCerts := db.roundCerts + {(h, round - 1)});
      }
      var pol := PolAt(db, h);
      WrittenIs(s, sys.wire, db, me);
      if pol.Some? && block.Some? && block.value != pol.value.block {
        Writing(s, sys, evs, me, Self(view), S.Revert(me, h - 1));
        evs := evs + [S.Revert(me, h - 1)];
        db := RevertTo(db, h - 1);
        block := None;
      }
      plan := Some(Plan(h, round, parent, block, pol));
    }

    /** `try_step`: vote at the height after the watermark, on one reading of the database. */
    method TryStep(elapsed: bool, ep: nat, writes: (R.Write, R.Write, R.Write), ghost s: P.Setup, ghost sys: S.Sys)
      returns (signed: bool, sent: set<S.Signed>, ghost evs: seq<S.Event>)
      requires S.WellFormed(db) && me in sys.nodes && sys.nodes[me].db == db && sys.nodes[me].store == store
      modifies `db, `store, `myPrevotes, `myVotes, `myTimeouts, `refused
      ensures db == Tidied(old(db))
      ensures (Holding(), sent) == Voted(old(Holding()), me, old(db), elapsed, ep, writes)
      ensures SignsDue(old(Holding()), me, old(db), elapsed, ep, writes, Holding(), sent)
      ensures signed <==> sent != {}
      ensures Mirrors(s, sys, evs, old(db), sent)
    {
      hide S.Exec, Mirrors, PlanStep, Tried, Tidied, SignsDue;
      ghost var view := db;
      StepSigns(Holding(), me, db, elapsed, ep, writes);
      var plan;
      plan, evs := Read(s, sys);
      if plan.None? {
        return false, {}, evs;
      }
      var Plan(h, round, parent, block, pol) := plan.value;
      var precommitted, prevoted, timedOut := {}, {}, {};
      ghost var done: set<S.Signed> := {};
      if block.Some? && pol.Some? && pol.value.block == block.value {
        precommitted, evs := Sign(R.Entry(R.Precommit, h, pol.value.round, block.value), None, ep, writes.0,
                                  view, s, sys, evs, done);
        done := done + precommitted;
      }
      if block.Some? && (pol.Some? || Round(block.value) == round) {
        prevoted, evs := Sign(R.Entry(R.Prevote, h, round, block.value),
                              if pol.Some? then Some(pol.value.round) else None, 0, writes.1, view, s, sys, evs, done);
        done := done + prevoted;
      }
      if elapsed && (h, round) !in db.roundCerts {
        timedOut, evs := Sign(R.Entry(R.Timeout, h, round, parent), None, 0, writes.2, view, s, sys, evs, done);
        done := done + timedOut;
      }
      sent := precommitted + prevoted + timedOut;
      assert sent == done;
      signed := sent != {};
    }
  }

  lemma ExecMore(s: P.Setup, sys: S.Sys, evs: seq<S.Event>, ev: S.Event)
    ensures S.Exec(s, sys, evs + [ev]) == S.Step(s, S.Exec(s, sys, evs), ev)
  {
    assert (evs + [ev])[..|evs|] == evs;
  }

  lemma Observing(s: P.Setup, sys: S.Sys, me: Address)
    requires me in sys.nodes
    ensures var now := S.Exec(s, sys, [S.Observe(me)]);
            now.nodes == sys.nodes[me := sys.nodes[me].(view := sys.nodes[me].db)] && now.wire == sys.wire
  {
    ExecMore(s, sys, [], S.Observe(me));
    assert [] + [S.Observe(me)] == [S.Observe(me)];
  }

  /** One more vote. */
  lemma Signing(s: P.Setup, sys: S.Sys, evs: seq<S.Event>, me: Address, n: S.Node, e: R.Entry<Block>, pol: Option<nat>,
                write: R.Write, ep: nat, sent: set<S.Signed>)
    requires S.WellFormed(n.view) && S.Intent(n.view, e.kind) == Some((e, pol))
    requires var now := S.Exec(s, sys, evs); now.nodes == sys.nodes[me := n] && now.wire == sys.wire + sent
    ensures var outcome := V.Attempt(n.store, e, pol, write);
            var now := S.Exec(s, sys, evs + [S.Cast(me, e.kind, write, outcome.Granted?, ep)]);
            && now.nodes == sys.nodes[me := n.(store := outcome.store)]
            && now.wire == sys.wire + sent + if outcome.Granted? then {S.Signed(S.VoteOf(me, e), ep)} else {}
  {
    hide S.Intent, V.Attempt;
    ExecMore(s, sys, evs, S.Cast(me, e.kind, write, V.Attempt(n.store, e, pol, write).Granted?, ep));
  }

  /** One more database write. */
  lemma Writing(s: P.Setup, sys: S.Sys, evs: seq<S.Event>, me: Address, n: S.Node, ev: S.Event)
    requires S.WellFormed(n.db) && (ev == S.AdoptRoundCert(me) || (ev.Revert? && ev.v == me))
    requires var now := S.Exec(s, sys, evs); now.nodes == sys.nodes[me := n] && now.wire == sys.wire
    ensures var now := S.Exec(s, sys, evs + [ev]);
            && now.nodes == sys.nodes[me := n.(db := S.Written(s, sys.wire, n.db, ev))]
            && now.wire == sys.wire
  {
    hide S.Written;
    ExecMore(s, sys, evs, ev);
  }

  /** The two writes the reading half makes. */
  lemma WrittenIs(s: P.Setup, wire: set<S.Signed>, db: Db, me: Address)
    requires S.WellFormed(db)
    ensures var h := db.watermark + 1;
            && S.Written(s, wire, db, S.Revert(me, h - 1)) == RevertTo(db, h - 1)
            && (TipHeight(db) == h && Round(db.tip) > CurrentRound(db, h) ==>
                  S.Written(s, wire, db, S.AdoptRoundCert(me))
                  == db.(roundCerts := db.roundCerts + {(h, Round(db.tip) - 1)}))
            && (forall r: nat :: (h, r) in RevertTo(db, h - 1).roundCerts <==> (h, r) in db.roundCerts)
  {
    hide CurrentRound;
  }

  // ----- a step whose reads other threads interleave with

  /** The database at the moment of each read of `try_step`, in the order they are made. */
  datatype Reads = Reads(mark: Db, tip: Db, certs: Db, parent: Db, rounds: Db, held: Db, locks: Db)

  /** `try_step` up to the first vote, each value from its own moment. */
  function PlanFrom(r: Reads): Option<Plan> {
    var h := r.mark.watermark + 1;
    var parent, held, pol := BlockAt(r.parent, h - 1), BlockAt(r.held, h), PolAt(r.locks, h);
    if TipHeight(r.tip) > h || h in r.certs.certs || parent.None? then None
    else
      var known := CurrentRound(r.rounds, h);
      var round := if held.Some? && Round(held.value) > known then Round(held.value) else known;
      var block := if pol.Some? && held.Some? && held.value != pol.value.block then None else held;
      Some(Plan(h, round, parent.value, block, pol))
  }

  /** With nothing in between it is the plan of that one moment. */
  lemma PlanAtOnce(db: Db)
    requires S.WellFormed(db)
    ensures PlanFrom(Reads(db, db, db, db, db, db, db)) == PlanStep(db)
  {
    hide CurrentRound;
  }

  /** The network model's view after reading the parts one by one. */
  function ViewOf(r: Reads): Db {
    S.Refreshed(S.Refreshed(S.Refreshed(S.Refreshed(r.mark, r.certs, S.Certs), r.rounds, S.Rounds), r.held, S.Held),
                r.locks, S.Locks)
  }

  /** Whatever the database does between the reads, what the step decides on is what one reading of
      that view decides on: the parent is final from the first read on, and every other value is used
      only for the height above it. */
  lemma PlanOfView(r: Reads)
    requires S.WellFormed(r.mark) && S.Rooted(r.mark, r.parent) && S.Rooted(r.mark, r.held)
    requires PlanFrom(r).Some?
    ensures S.WellFormed(ViewOf(r)) && PlanStep(ViewOf(r)) == PlanFrom(r)
  {
    hide CurrentRound;
    var h, view := r.mark.watermark + 1, ViewOf(r);
    var top := if h < r.held.base then h - 1 else h;
    AncestorOfAncestor(r.held.tip, top, h - 1);
    assert view.tip == Ancestor(r.held.tip, top);
    SameRounds(view, r.rounds, h);
  }

  lemma SameRounds(a: Db, b: Db, h: nat)
    requires forall r: nat :: (h, r) in a.roundCerts <==> (h, r) in b.roundCerts
    ensures CurrentRound(a, h) == CurrentRound(b, h)
  {
    assert CertifiedRounds(a, h) == CertifiedRounds(b, h);
  }

  /** Other threads' work: nothing that starts, continues or replaces `v`'s reading. */
  predicate Elsewhere(evs: seq<S.Event>, v: Address) {
    forall i :: 0 <= i < |evs| ==>
      !((evs[i].Observe? || evs[i].Reread? || evs[i].Restart? || evs[i].RestoreDb?) && evs[i].v == v)
  }

  lemma {:induction false} ViewKept(s: P.Setup, sys: S.Sys, evs: seq<S.Event>, v: Address)
    requires v in sys.nodes && Elsewhere(evs, v)
    ensures v in S.Exec(s, sys, evs).nodes && S.Exec(s, sys, evs).nodes[v].view == sys.nodes[v].view
  {
    hide S.Written, S.Intent, S.Refreshed, V.Attempt;
    if evs != [] {
      ViewKept(s, sys, evs[..|evs| - 1], v);
    }
  }

  lemma {:induction false} ExecConcat(s: P.Setup, sys: S.Sys, a: seq<S.Event>, b: seq<S.Event>)
    ensures S.Exec(s, sys, a + b) == S.Exec(s, S.Exec(s, sys, a), b)
    decreases |b|
  {
    hide S.Step;
    if b == [] {
      assert a + b == a;
    } else {
      assert (a + b)[..|a + b| - 1] == a + b[..|b| - 1];
      ExecConcat(s, sys, a, b[..|b| - 1]);
    }
  }

  /** One more part read, after other threads worked for a while. */
  lemma ReadsOn(s: P.Setup, init: S.Sys, evs: seq<S.Event>, gap: seq<S.Event>, v: Address, part: S.Part)
    requires S.Initial(s, init) && v in S.Exec(s, init, evs).nodes && Elsewhere(gap, v)
    ensures v in S.Exec(s, init, evs + gap).nodes && v in S.Exec(s, init, evs + gap + [S.Reread(v, part)]).nodes
    ensures var view, db := S.Exec(s, init, evs).nodes[v].view, S.Exec(s, init, evs + gap).nodes[v].db;
            && S.Rooted(view, db)
            && S.Exec(s, init, evs + gap + [S.Reread(v, part)]).nodes[v].view == S.Refreshed(view, db, part)
  {
    hide S.Exec, S.Refreshed, S.Rooted;
    ExecConcat(s, init, evs, gap);
    ViewKept(s, S.Exec(s, init, evs), gap, v);
    U.ViewsRooted(s, init, evs + gap, v);
    ExecMore(s, init, evs + gap, S.Reread(v, part));
  }

  /** Every interleaving of a step's reads with other threads is a run of the network's events whose
      view is the one above: what is proved of every run holds of it. */
  lemma TornStep(s: P.Setup, init: S.Sys, evs: seq<S.Event>, v: Address, g1: seq<S.Event>, g2: seq<S.Event>,
                 g3: seq<S.Event>, g4: seq<S.Event>)
    requires S.Initial(s, init) && v in S.Exec(s, init, evs).nodes
    requires Elsewhere(g1, v) && Elsewhere(g2, v) && Elsewhere(g3, v) && Elsewhere(g4, v)
    ensures var e0 := evs + [S.Observe(v)];
            var e1 := e0 + g1 + [S.Reread(v, S.Certs)];
            var e2 := e1 + g2 + [S.Reread(v, S.Rounds)];
            var e3 := e2 + g3 + [S.Reread(v, S.Held)];
            var e4 := e3 + g4 + [S.Reread(v, S.Locks)];
            && v in S.Exec(s, init, e0 + g1).nodes && v in S.Exec(s, init, e1 + g2).nodes
            && v in S.Exec(s, init, e2 + g3).nodes && v in S.Exec(s, init, e3 + g4).nodes
            && v in S.Exec(s, init, e4).nodes
            && var r := Reads(S.Exec(s, init, evs).nodes[v].db, S.Exec(s, init, e0 + g1).nodes[v].db,
                              S.Exec(s, init, e0 + g1).nodes[v].db, S.Exec(s, init, e1 + g2).nodes[v].db,
                              S.Exec(s, init, e1 + g2).nodes[v].db, S.Exec(s, init, e2 + g3).nodes[v].db,
                              S.Exec(s, init, e3 + g4).nodes[v].db);
               S.Exec(s, init, e4).nodes[v].view == ViewOf(r)
  {
    hide S.Exec, S.Refreshed, S.Rooted, S.Step;
    var e0 := evs + [S.Observe(v)];
    Observes(s, init, evs, v);
    ReadsOn(s, init, e0, g1, v, S.Certs);
    var e1 := e0 + g1 + [S.Reread(v, S.Certs)];
    ReadsOn(s, init, e1, g2, v, S.Rounds);
    var e2 := e1 + g2 + [S.Reread(v, S.Rounds)];
    ReadsOn(s, init, e2, g3, v, S.Held);
    var e3 := e2 + g3 + [S.Reread(v, S.Held)];
    ReadsOn(s, init, e3, g4, v, S.Locks);
  }

  lemma Observes(s: P.Setup, init: S.Sys, evs: seq<S.Event>, v: Address)
    requires v in S.Exec(s, init, evs).nodes
    ensures v in S.Exec(s, init, evs + [S.Observe(v)]).nodes
    ensures S.Exec(s, init, evs + [S.Observe(v)]).nodes[v].view == S.Exec(s, init, evs).nodes[v].db
  {
    ExecMore(s, init, evs, S.Observe(v));
  }
}

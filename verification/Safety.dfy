/** Runs of `System` in which locks and records are formed only at settled heights keep the log lawful,
    so the guarantees of `Protocol` hold of the network: agreement, one finalized chain, no skipped
    rounds. That honest validators are never seen to equivocate holds of every run. */
module Safety {
  import opened TextFormat
  import opened VotingPower
  import opened Blocks
  import opened Chain
  import opened System
  import P = Protocol
  import R = VoteRecord
  import V = VoteRuns

  // ----- evidence accumulates, and the wire never outruns the log

  ghost predicate Logged(log: P.Log, wire: set<Signed>) {
    forall x :: x in wire ==> x.vote in log
  }

  lemma WPolGrows(s: P.Setup, small: set<Signed>, big: set<Signed>, h: nat, r: nat, b: Block)
    requires small <= big && WPol(s, small, h, r, b)
    ensures WPol(s, big, h, r, b)
  {
    PowerMonotone(s.powers(b.parent), Prevoters(small, h, r, b), Prevoters(big, h, r, b));
  }

  lemma WCertGrows(s: P.Setup, small: set<Signed>, big: set<Signed>, h: nat, r: nat, b: Block, ep: nat)
    requires small <= big && WCert(s, small, h, r, b, ep)
    ensures WCert(s, big, h, r, b, ep)
  {
    PowerMonotone(s.powers(b.parent), Precommitters(small, h, r, b, ep), Precommitters(big, h, r, b, ep));
  }

  lemma WCertifiedGrows(s: P.Setup, small: set<Signed>, big: set<Signed>, h: nat, b: Block)
    requires small <= big && WCertified(s, small, h, b)
    ensures WCertified(s, big, h, b)
  {
    var r, ep :| WCert(s, small, h, r, b, ep);
    WCertGrows(s, small, big, h, r, b, ep);
  }

  lemma {:induction false} WFinalGrows(s: P.Setup, small: set<Signed>, big: set<Signed>, b: Block)
    requires small <= big && WFinal(s, small, b)
    ensures WFinal(s, big, b)
  {
    if b.Child? {
      WCertifiedGrows(s, small, big, Height(b), b);
      WFinalGrows(s, small, big, b.parent);
    }
  }

  lemma WRoundGrows(s: P.Setup, small: set<Signed>, big: set<Signed>, h: nat, r: nat, parent: Block)
    requires small <= big && WRound(s, small, h, r, parent)
    ensures WRound(s, big, h, r, parent)
  {
    PowerMonotone(s.powers(parent), Timers(small, h, r, parent), Timers(big, h, r, parent));
  }

  lemma BoundedShrinks(s: P.Setup, small: set<Signed>, big: set<Signed>)
    requires small <= big && Bounded(s, big)
    ensures Bounded(s, small)
  {
    forall b | WFinal(s, small, b) ensures s.Bound(b) {
      WFinalGrows(s, small, big, b);
    }
  }

  lemma {:induction false} RoundsProvenGrows(s: P.Setup, small: set<Signed>, big: set<Signed>, b: Block)
    requires small <= big && RoundsProven(s, small, b)
    ensures RoundsProven(s, big, b)
  {
    if b.Child? {
      if b.round > 0 {
        WRoundGrows(s, small, big, Height(b), b.round - 1, b.parent);
      }
      RoundsProvenGrows(s, small, big, b.parent);
    }
  }

  lemma DbOkGrows(s: P.Setup, small: set<Signed>, big: set<Signed>, db: Db)
    requires small <= big && DbOk(s, small, db)
    ensures DbOk(s, big, db)
  {
    hide WFinal, WPol, WRound, RoundsProven;
    forall h | h in db.certs ensures WFinal(s, big, db.certs[h]) {
      WFinalGrows(s, small, big, db.certs[h]);
    }
    forall h | h in db.pols ensures LockOk(s, big, h, db.pols[h]) {
      WPolGrows(s, small, big, h, db.pols[h].round, db.pols[h].block);
      WFinalGrows(s, small, big, db.pols[h].block.parent);
    }
    forall c | c in db.roundCerts ensures WRound(s, big, c.0, c.1, Ancestor(db.tip, Below(c.0))) {
      WRoundGrows(s, small, big, c.0, c.1, Ancestor(db.tip, Below(c.0)));
    }
    RoundsProvenGrows(s, small, big, db.tip);
  }

  lemma PolLogged(s: P.Setup, log: P.Log, wire: set<Signed>, h: nat, r: nat, b: Block)
    requires Logged(log, wire) && WPol(s, wire, h, r, b)
    ensures P.Pol(s, log, h, r, b)
  {
    PowerMonotone(s.powers(b.parent), Prevoters(wire, h, r, b), P.PrevotersOf(log, h, r, b));
  }

  lemma CertLogged(s: P.Setup, log: P.Log, wire: set<Signed>, h: nat, r: nat, b: Block, ep: nat)
    requires Logged(log, wire) && WCert(s, wire, h, r, b, ep)
    ensures P.CertifiedAt(s, log, h, r, b)
  {
    PowerMonotone(s.powers(b.parent), Precommitters(wire, h, r, b, ep), P.PrecommittersOf(log, h, r, b));
  }

  lemma {:induction false} FinalLogged(s: P.Setup, log: P.Log, wire: set<Signed>, b: Block)
    requires Logged(log, wire) && WFinal(s, wire, b)
    ensures P.Final(s, log, b)
  {
    if b.Child? {
      var r, ep :| WCert(s, wire, Height(b), r, b, ep);
      CertLogged(s, log, wire, Height(b), r, b, ep);
      FinalLogged(s, log, wire, b.parent);
    }
  }

  /** The sets behind a final chain are within the bound. */
  lemma {:induction false} FinalTrusted(s: P.Setup, wire: set<Signed>, b: Block)
    requires Bounded(s, wire) && WFinal(s, wire, b)
    ensures s.Trusted(b) && s.Bound(b)
  {
    if b.Child? {
      FinalTrusted(s, wire, b.parent);
    }
  }

  lemma {:induction false} WFinalBelow(s: P.Setup, wire: set<Signed>, b: Block, k: nat)
    requires WFinal(s, wire, b)
    ensures WFinal(s, wire, Ancestor(b, k))
  {
    if Height(b) > k {
      WFinalBelow(s, wire, b.parent, k);
    }
  }

  lemma RoundLogged(s: P.Setup, log: P.Log, wire: set<Signed>, h: nat, r: nat, parent: Block)
    requires Logged(log, wire) && WRound(s, wire, h, r, parent)
    ensures P.RoundCertified(s, log, h, r, parent)
  {
    PowerMonotone(s.powers(parent), Timers(wire, h, r, parent), P.TimersOf(log, h, r, parent));
  }

  // ----- the database invariant

  lemma StoreCertOk(s: P.Setup, wire: set<Signed>, db: Db, h: nat, b: Block)
    requires DbOk(s, wire, db) && h >= 1 && Height(b) == h && WFinal(s, wire, b)
    requires h in db.certs ==> db.certs[h] == b
    ensures DbOk(s, wire, StoreCert(db, h, b))
  {
    hide WFinal, WRound, RoundsProven, LockOk;
  }

  lemma CommitBlockOk(s: P.Setup, wire: set<Signed>, db: Db, b: Block)
    requires DbOk(s, wire, db) && b.Child? && b.parent == db.tip
    requires b.round > 0 ==> WRound(s, wire, TipHeight(db) + 1, b.round - 1, db.tip)
    ensures DbOk(s, wire, CommitBlock(db, b))
  {
    hide WFinal, WRound, LockOk;
    assert forall k :: 0 <= k <= TipHeight(db) ==> Ancestor(b, k) == Ancestor(db.tip, k);
  }

  /** A round certificate a node verifies against the parent it holds is judged by that parent's
      own set, settled or not. */
  lemma AcceptOk(s: P.Setup, wire: set<Signed>, db: Db, b: Block)
    requires DbOk(s, wire, db)
    ensures DbOk(s, wire, Written(s, wire, db, AcceptBlock(0, b)))
  {
    hide DbOk, CommitBlock, CurrentRound;
    assert WellFormed(db) by { OkWellFormed(s, wire, db); }
    if Acceptable(db, b) && (b.round > 0 ==> SeesRound(s, wire, db, TipHeight(db) + 1, b.round - 1)) {
      CommitBlockOk(s, wire, db, b);
    }
  }

  lemma StorePolOk(s: P.Setup, wire: set<Signed>, db: Db, h: nat, row: PolRow)
    requires DbOk(s, wire, db) && LockOk(s, wire, h, row)
    ensures DbOk(s, wire, db.(pols := db.pols[h := row]))
  {
    hide WFinal, WRound, RoundsProven, LockOk;
  }

  lemma StoreRoundOk(s: P.Setup, wire: set<Signed>, db: Db, h: nat, r: nat)
    requires DbOk(s, wire, db) && Below(h) <= TipHeight(db)
    requires WRound(s, wire, h, r, Ancestor(db.tip, Below(h)))
    ensures DbOk(s, wire, db.(roundCerts := db.roundCerts + {(h, r)}))
  {
    hide WFinal, WRound, RoundsProven, LockOk;
  }

  lemma DropPolsOk(s: P.Setup, wire: set<Signed>, db: Db, through: nat)
    requires DbOk(s, wire, db)
    ensures DbOk(s, wire, db.(pols := map k | k in db.pols && k > through :: db.pols[k]))
  {
    hide WFinal, WRound, RoundsProven, LockOk;
  }

  lemma OkWellFormed(s: P.Setup, wire: set<Signed>, db: Db)
    requires DbOk(s, wire, db)
    ensures WellFormed(db)
  {
  }

  lemma {:induction false} RoundsProvenBelow(s: P.Setup, wire: set<Signed>, b: Block, h: nat)
    requires RoundsProven(s, wire, b)
    ensures RoundsProven(s, wire, Ancestor(b, h))
  {
    if Height(b) > h {
      RoundsProvenBelow(s, wire, b.parent, h);
    }
  }

  lemma RevertOk(s: P.Setup, wire: set<Signed>, db: Db, h: nat)
    requires DbOk(s, wire, db)
    ensures DbOk(s, wire, RevertTo(db, h))
  {
    hide WFinal, WRound, LockOk;
    if db.watermark <= h < TipHeight(db) {
      forall k | 0 <= k <= h ensures Ancestor(Ancestor(db.tip, h), k) == Ancestor(db.tip, k) {
        AncestorOfAncestor(db.tip, h, k);
      }
      RoundsProvenBelow(s, wire, db.tip, h);
    }
  }

  lemma RefreshedOk(s: P.Setup, wire: set<Signed>, view: Db, db: Db, part: Part)
    requires DbOk(s, wire, view) && DbOk(s, wire, db) && Rooted(view, db)
    ensures DbOk(s, wire, Refreshed(view, db, part))
  {
    hide WFinal, WRound, LockOk;
    var h := view.watermark + 1;
    forall k | 0 <= k <= view.watermark
      ensures Ancestor(view.tip, k) == Ancestor(db.tip, k) == Ancestor(Ancestor(db.tip, h), k)
    {
      AncestorOfAncestor(view.tip, view.watermark, k);
      AncestorOfAncestor(db.tip, view.watermark, k);
      AncestorOfAncestor(db.tip, h, k);
    }
    RoundsProvenBelow(s, wire, db.tip, h);
  }

  /** The finalized part of a node's chain. */
  function Final(db: Db): Block { Ancestor(db.tip, db.watermark) }

  lemma FinalCertified(s: P.Setup, wire: set<Signed>, db: Db)
    requires DbOk(s, wire, db)
    ensures Height(Final(db)) == db.watermark && WFinal(s, wire, Final(db))
  {
    AncestorZero(db.tip);
  }

  // ----- what an honest vote rests on

  /** `parent` is one below `h` and final. */
  ghost predicate WParent(s: P.Setup, wire: set<Signed>, h: nat, parent: Block) {
    h >= 1 && Height(parent) == h - 1 && WFinal(s, wire, parent)
  }

  /** The round before the block's own was certified timed out. */
  ghost predicate RoundProven(s: P.Setup, wire: set<Signed>, h: nat, b: Block) {
    Round(b) > 0 ==> b.Child? && WRound(s, wire, h, b.round - 1, b.parent)
  }

  /** The signatures behind an honest vote are on the wire by the time it is recorded. */
  ghost predicate Grounded(s: P.Setup, wire: set<Signed>, x: P.Vote) {
    match x
    case Prevote(_, h, _, b) => b.Child? && WParent(s, wire, h, b.parent) && RoundProven(s, wire, h, b)
    case Precommit(_, h, r, b) =>
      b.Child? && WParent(s, wire, h, b.parent) && RoundProven(s, wire, h, b) && WPol(s, wire, h, r, b)
    case Timeout(_, h, r, parent) => WParent(s, wire, h, parent) && (r > 0 ==> WRound(s, wire, h, r - 1, parent))
  }

  lemma GroundedGrows(s: P.Setup, small: set<Signed>, big: set<Signed>, x: P.Vote)
    requires small <= big && Grounded(s, small, x)
    ensures Grounded(s, big, x)
  {
    hide WFinal, WPol, WRound;
    var parent := if x.Timeout? then x.parent else x.block.parent;
    WFinalGrows(s, small, big, parent);
    if !x.Timeout? && x.block.round > 0 {
      WRoundGrows(s, small, big, x.height, x.block.round - 1, parent);
    }
    match x
    case Prevote(_, _, _, _) =>
    case Precommit(_, h, r, b) => WPolGrows(s, small, big, h, r, b);
    case Timeout(_, h, r, _) =>
      if r > 0 {
        WRoundGrows(s, small, big, h, r - 1, parent);
      }
  }

  // ----- the vote record invariant

  function EntryOf(x: P.Vote): R.Entry<Block> {
    match x
    case Prevote(_, h, r, b) => R.Entry(R.Prevote, h, r, b)
    case Precommit(_, h, r, b) => R.Entry(R.Precommit, h, r, b)
    case Timeout(_, h, r, parent) => R.Entry(R.Timeout, h, r, parent)
  }

  /** Every logged vote of `v` at an open height is on record. */
  ghost predicate Recorded(log: P.Log, v: Address, rec: R.Record<Block>) {
    forall x :: x in log && x.voter == v && x.height > rec.floor ==> EntryOf(x) in rec.entries
  }

  /** Everything on record is logged. */
  ghost predicate Backed(log: P.Log, v: Address, es: seq<R.Entry<Block>>) {
    forall e :: e in es ==> VoteOf(v, e) in log
  }

  ghost predicate Sound(s: P.Setup, log: P.Log, wire: set<Signed>, x: P.Vote) {
    P.Allowed(s, log, x) && Grounded(s, wire, x)
  }

  /** The last entry on disk may be a torn claim, still lawful to make binding. */
  ghost predicate DiskBacked(s: P.Setup, log: P.Log, wire: set<Signed>, v: Address, es: seq<R.Entry<Block>>) {
    es == [] ||
    (&& Backed(log, v, es[..|es| - 1])
     && (VoteOf(v, es[|es| - 1]) in log || Sound(s, log, wire, VoteOf(v, es[|es| - 1]))))
  }

  ghost predicate RecordOk(s: P.Setup, log: P.Log, wire: set<Signed>, v: Address, st: R.Store<Block>) {
    && Recorded(log, v, st.mem) && Backed(log, v, st.mem.entries)
    && Recorded(log, v, st.disk) && DiskBacked(s, log, wire, v, st.disk.entries)
  }

  /** Other validators' votes never make an allowed vote unlawful. */
  lemma AllowedGrows(s: P.Setup, log: P.Log, x: P.Vote, y: P.Vote)
    requires P.Allowed(s, log, x) && y.voter != x.voter
    ensures P.Allowed(s, log + [y], x)
  {
    hide P.Pol, P.FinalParent, P.RoundCertified, P.Released;
    var big := log + [y];
    assert P.Extends(log, big);
    assert forall z :: z in big ==> z == y || z in log;
    match x
    case Prevote(v, h, r, b) =>
      P.FinalParentGrows(s, log, big, h, b.parent);
      ReleasedGrows(s, log, big, v, h, r, b);
    case Precommit(v, h, r, b) =>
      P.FinalParentGrows(s, log, big, h, b.parent);
      P.PolGrows(s, log, big, h, r, b);
    case Timeout(v, h, r, parent) =>
      P.FinalParentGrows(s, log, big, h, parent);
      if r > 0 {
        P.RoundCertifiedGrows(s, log, big, h, r - 1, parent);
      }
  }

  lemma ReleasedGrows(s: P.Setup, log: P.Log, big: P.Log, v: Address, h: nat, r: nat, b: Block)
    requires P.Extends(log, big) && P.Released(s, log, v, h, r, b)
    requires forall z :: z in big && z.voter == v ==> z in log
    ensures P.Released(s, big, v, h, r, b)
  {
    forall x | x in big && x.voter == v && x.height == h && x.Precommit? && x.block != b
      ensures exists p :: x.round <= p <= r && P.Pol(s, big, h, p, b)
    {
      var p :| x.round <= p <= r && P.Pol(s, log, h, p, b);
      P.PolGrows(s, log, big, h, p, b);
    }
  }

  /** A vote by someone else leaves `v`'s record consistent, and so does any new signature. */
  lemma RecordOkGrows(s: P.Setup, log: P.Log, small: set<Signed>, big: set<Signed>, v: Address, st: R.Store<Block>,
                      y: P.Vote)
    requires RecordOk(s, log, small, v, st) && small <= big && y.voter != v
    ensures RecordOk(s, log + [y], big, v, st) && RecordOk(s, log, big, v, st)
  {
    var es := st.disk.entries;
    if es != [] && VoteOf(v, es[|es| - 1]) !in log {
      AllowedGrows(s, log, VoteOf(v, es[|es| - 1]), y);
      GroundedGrows(s, small, big, VoteOf(v, es[|es| - 1]));
    }
  }

  // ----- a fresh claim is a lawful vote

  lemma FreshStillIn(log: P.Log, v: Address, rec: R.Record<Block>, e: R.Entry<Block>)
    requires Recorded(log, v, rec) && R.Check(rec, e) == R.Fresh && !e.kind.Timeout?
    ensures P.StillIn(log, v, e.height, e.round)
  {
    forall x | x in log && x.voter == v && x.height == e.height
      ensures x.round <= e.round && (x.Timeout? ==> x.round < e.round)
    {
      assert EntryOf(x) in rec.entries;
    }
  }

  lemma FreshSlot(log: P.Log, v: Address, rec: R.Record<Block>, e: R.Entry<Block>, x: P.Vote)
    requires Recorded(log, v, rec) && R.Check(rec, e) == R.Fresh
    requires x in log && x.voter == v
    ensures EntryOf(x) != R.Entry(e.kind, e.height, e.round, EntryOf(x).hash)
  {
    if x.height == e.height {
      assert EntryOf(x) in rec.entries;
    }
  }

  /** Any precommit on record rests on a lock that is in the log. */
  lemma PrecommitHasPol(s: P.Setup, log: P.Log, v: Address, h: nat, r: nat, b: Block)
    requires P.Lawful(s, log) && s.Honest(v) && P.Precommit(v, h, r, b) in log
    ensures P.Pol(s, log, h, r, b)
  {
    var i :| 0 <= i < |log| && log[i] == P.Precommit(v, h, r, b);
    assert P.Allowed(s, log[..i], log[i]);
    P.PolGrows(s, log[..i], log, h, r, b);
  }

  /** V3 from the record: the lock is the latest precommit on record, torn ones included, and each
      of those rests on a quorum, so whatever released the lock released every precommit. */
  lemma LockReleases(s: P.Setup, log: P.Log, v: Address, rec: R.Record<Block>, e: R.Entry<Block>, pol: Option<nat>)
    requires P.Lawful(s, log) && s.Honest(v)
    requires Recorded(log, v, rec) && Backed(log, v, rec.entries)
    requires e.kind.Prevote? && R.Check(rec, e) == R.Fresh
    requires R.LockAllows(rec, e.height, e.round, e.hash, pol)
    requires pol.Some? ==> P.Pol(s, log, e.height, pol.value, e.hash)
    ensures P.Released(s, log, v, e.height, e.round, e.hash)
  {
    forall x | x in log && x.voter == v && x.height == e.height && x.Precommit? && x.block != e.hash
      ensures exists p :: x.round <= p <= e.round && P.Pol(s, log, e.height, p, e.hash)
    {
      assert EntryOf(x) in rec.entries;
      var lock := R.Lock(rec.entries, e.height).value;
      assert lock in rec.entries && x.round <= lock.round;
      if lock.hash == e.hash {
        assert VoteOf(v, lock) in log;
        PrecommitHasPol(s, log, v, e.height, lock.round, e.hash);
        assert lock.round <= e.round;
      }
    }
  }

  /** What a vote on the held block rests on, as read from a backed database. */
  lemma HeldGrounded(s: P.Setup, wire: set<Signed>, view: Db)
    requires DbOk(s, wire, view)
    ensures var h := view.watermark + 1;
            && WParent(s, wire, h, Ancestor(view.tip, h - 1))
            && (h == TipHeight(view) ==>
                  && view.tip.Child? && view.tip.parent == Ancestor(view.tip, h - 1)
                  && (view.tip.round > 0 ==> WRound(s, wire, h, view.tip.round - 1, view.tip.parent)))
  {
    var h := view.watermark + 1;
    FinalCertified(s, wire, view);
    if h == TipHeight(view) {
      AncestorParent(view.tip, h);
      assert RoundsProven(s, wire, view.tip);
    }
  }

  lemma PlanShape(view: Db)
    requires WellFormed(view) && PlanStep(view).Some?
    ensures var p := PlanStep(view).value;
            && p.height == view.watermark + 1 && p.parent == Ancestor(view.tip, view.watermark)
            && (p.pol.Some? ==> p.height in view.pols && p.pol.value == view.pols[p.height])
            && (p.block.Some? ==> p.height == TipHeight(view) && p.block.value == view.tip)
            && (p.block.Some? && p.pol.Some? ==> p.block.value == p.pol.value.block)
            && (p.round > 0 ==> || (p.height, p.round - 1) in view.roundCerts
                                || (p.height == TipHeight(view) && Round(view.tip) == p.round))
  {
    assert Ancestor(view.tip, TipHeight(view)) == view.tip;
  }

  /** What the plan itself rests on. */
  lemma PlanGrounded(s: P.Setup, wire: set<Signed>, view: Db)
    requires DbOk(s, wire, view) && PlanStep(view).Some?
    ensures var p := PlanStep(view).value;
            && WParent(s, wire, p.height, p.parent)
            && (p.round > 0 ==> WRound(s, wire, p.height, p.round - 1, p.parent))
            && (p.pol.Some? ==> WPol(s, wire, p.height, p.pol.value.round, p.pol.value.block))
            && (p.block.Some? ==> p.block.value.Child? && p.block.value.parent == p.parent)
            && (p.block.Some? ==> RoundProven(s, wire, p.height, p.block.value))
            && (p.block.Some? && p.pol.Some? ==> p.block.value == p.pol.value.block)
  {
    hide PlanStep, RoundsProven, WRound, WPol, WCertified, WParent, WFinal;
    HeldGrounded(s, wire, view);
    PlanShape(view);
  }

  /** What the plan's votes rest on. */
  lemma IntentGrounded(s: P.Setup, wire: set<Signed>, view: Db, kind: R.Kind, v: Address)
    requires DbOk(s, wire, view) && Intent(view, kind).Some?
    ensures var (e, pol) := Intent(view, kind).value;
            && e.kind == kind
            && Grounded(s, wire, VoteOf(v, e))
            && (pol.Some? ==> WPol(s, wire, e.height, pol.value, e.hash))
  {
    hide PlanStep, DbOk, WPol, WRound, WCertified, WParent;
    assert WellFormed(view) by { OkWellFormed(s, wire, view); }
    PlanGrounded(s, wire, view);
  }

  /** A fresh claim that the record accepts and that rests on signatures is a vote the protocol
      allows. */
  lemma FreshSound(s: P.Setup, log: P.Log, wire: set<Signed>, v: Address, rec: R.Record<Block>,
                   e: R.Entry<Block>, pol: Option<nat>)
    requires P.Lawful(s, log) && Logged(log, wire) && s.Honest(v)
    requires Recorded(log, v, rec) && Backed(log, v, rec.entries)
    requires R.Check(rec, e) == R.Fresh && Grounded(s, wire, VoteOf(v, e))
    requires e.kind.Prevote? ==> R.LockAllows(rec, e.height, e.round, e.hash, pol)
    requires pol.Some? ==> WPol(s, wire, e.height, pol.value, e.hash)
    ensures Sound(s, log, wire, VoteOf(v, e))
  {
    hide P.Lawful, Logged, Recorded, Backed, R.Check, R.LockAllows, WPol, WRound, WFinal, P.Pol, P.RoundCertified,
      P.Released, P.StillIn, P.Final;
    FinalLogged(s, log, wire, if e.kind.Timeout? then e.hash else e.hash.parent);
    forall x | x in log && x.voter == v ensures EntryOf(x) != R.Entry(e.kind, e.height, e.round, EntryOf(x).hash) {
      FreshSlot(log, v, rec, e, x);
    }
    match e.kind
    case Prevote =>
      FreshStillIn(log, v, rec, e);
      if pol.Some? {
        PolLogged(s, log, wire, e.height, pol.value, e.hash);
      }
      LockReleases(s, log, v, rec, e, pol);
    case Precommit =>
      FreshStillIn(log, v, rec, e);
      PolLogged(s, log, wire, e.height, e.round, e.hash);
    case Timeout =>
      if e.round > 0 {
        RoundLogged(s, log, wire, e.height, e.round - 1, e.hash);
      }
  }

  // ----- the system invariant

  ghost predicate NodeOk(s: P.Setup, log: P.Log, wire: set<Signed>, v: Address, n: Node) {
    && s.Honest(v)
    && RecordOk(s, log, wire, v, n.store)
    && DbOk(s, wire, n.db) && DbOk(s, wire, n.view)
  }

  ghost predicate Inv(s: P.Setup, sys: Sys) {
    && P.Lawful(s, sys.log)
    && Logged(sys.log, sys.wire)
    && (forall x :: x in sys.log && s.Honest(x.voter) ==> Grounded(s, sys.wire, x))
    && (forall v :: v in sys.nodes ==> NodeOk(s, sys.log, sys.wire, v, sys.nodes[v]))
  }

  lemma InitialInv(s: P.Setup, sys: Sys)
    requires Initial(s, sys)
    ensures Inv(s, sys)
  {
  }

  /** The vote `x` entering the log (if new) and possibly the wire, `v`'s node becoming `n`. */
  lemma VoteKeeps(s: P.Setup, sys: Sys, v: Address, n: Node, x: P.Vote, wire: set<Signed>)
    requires Inv(s, sys) && x.voter == v && sys.wire <= wire
    requires forall y :: y in wire && y !in sys.wire ==> y.vote == x
    requires s.Honest(v) ==> Sound(s, sys.log, sys.wire, x) && v in sys.nodes && NodeOk(s, sys.log + [x], wire, v, n)
    requires v in sys.nodes ==> s.Honest(v)
    ensures Inv(s, Sys(if v in sys.nodes then sys.nodes[v := n] else sys.nodes, sys.log + [x], wire))
  {
    hide P.Lawful, P.Allowed, DbOk, RecordOk, Grounded;
    P.LawfulAppend(s, sys.log, x);
    forall u | u in sys.nodes && u != v ensures NodeOk(s, sys.log + [x], wire, u, sys.nodes[u]) {
      RecordOkGrows(s, sys.log, sys.wire, wire, u, sys.nodes[u].store, x);
      DbOkGrows(s, sys.wire, wire, sys.nodes[u].db);
      DbOkGrows(s, sys.wire, wire, sys.nodes[u].view);
    }
    forall y | y in sys.log + [x] && s.Honest(y.voter) ensures Grounded(s, wire, y) {
      GroundedGrows(s, sys.wire, wire, y);
    }
  }

  /** A step that logs nothing and signs only what is logged, `v`'s node becoming `n`. */
  lemma QuietKeeps(s: P.Setup, sys: Sys, v: Address, n: Node, wire: set<Signed>)
    requires Inv(s, sys) && v in sys.nodes && sys.wire <= wire && Logged(sys.log, wire)
    requires NodeOk(s, sys.log, wire, v, n)
    ensures Inv(s, Sys(sys.nodes[v := n], sys.log, wire))
  {
    forall u | u in sys.nodes && u != v ensures NodeOk(s, sys.log, wire, u, sys.nodes[u]) {
      var other := P.Timeout(if u == 0 then 1 else 0, 0, 0, Genesis);
      RecordOkGrows(s, sys.log, sys.wire, wire, u, sys.nodes[u].store, other);
      DbOkGrows(s, sys.wire, wire, sys.nodes[u].db);
      DbOkGrows(s, sys.wire, wire, sys.nodes[u].view);
    }
    forall y | y in sys.log && s.Honest(y.voter) ensures Grounded(s, wire, y) {
      GroundedGrows(s, sys.wire, wire, y);
    }
  }

  // ----- each event keeps the invariant

  lemma FreshNotLogged(log: P.Log, v: Address, rec: R.Record<Block>, e: R.Entry<Block>)
    requires Recorded(log, v, rec) && R.Check(rec, e) == R.Fresh
    ensures VoteOf(v, e) !in log
  {
    assert EntryOf(VoteOf(v, e)) == e;
  }

  /** The record right after a durable claim. */
  lemma DurableOk(s: P.Setup, log: P.Log, wire: set<Signed>, v: Address, rec: R.Record<Block>, e: R.Entry<Block>)
    requires Recorded(log, v, rec) && Backed(log, v, rec.entries)
    ensures var after := R.Appended(rec, e);
            RecordOk(s, log + [VoteOf(v, e)], wire, v, R.Store(after, after))
  {
    hide Sound;
    var after := R.Appended(rec, e);
    assert after.entries[..|after.entries| - 1] == rec.entries;
    assert EntryOf(VoteOf(v, e)) == e;
  }

  /** The record right after a torn claim. */
  lemma TornOk(s: P.Setup, log: P.Log, wire: set<Signed>, v: Address, rec: R.Record<Block>, e: R.Entry<Block>)
    requires Recorded(log, v, rec) && Backed(log, v, rec.entries) && Sound(s, log, wire, VoteOf(v, e))
    ensures RecordOk(s, log, wire, v, R.Store(rec, R.Appended(rec, e)))
  {
    assert R.Appended(rec, e).entries[..|rec.entries|] == rec.entries;
  }

  /** A refused claim, or the same vote again: at most a repeated signature. */
  lemma RepeatKeeps(s: P.Setup, sys: Sys, v: Address, e: R.Entry<Block>, out: R.Outcome<Block>, sign: bool, ep: nat)
    requires Inv(s, sys) && v in sys.nodes && out.store == sys.nodes[v].store
    requires out.Granted? ==> e in out.store.mem.entries
    ensures Inv(s, Vote(sys, v, e, out, sign, ep))
  {
    var n := sys.nodes[v];
    var wire := if out.Granted? && sign then sys.wire + {Signed(VoteOf(v, e), ep)} else sys.wire;
    DbOkGrows(s, sys.wire, wire, n.db);
    DbOkGrows(s, sys.wire, wire, n.view);
    RecordOkGrows(s, sys.log, sys.wire, wire, v, n.store, P.Timeout(v + 1, 0, 0, Genesis));
    QuietKeeps(s, sys, v, n.(store := out.store), wire);
  }

  lemma DurableNode(s: P.Setup, log: P.Log, small: set<Signed>, big: set<Signed>, v: Address, n: Node,
                    e: R.Entry<Block>)
    requires NodeOk(s, log, small, v, n) && small <= big
    ensures var rec := R.Appended(n.store.mem, e);
            NodeOk(s, log + [VoteOf(v, e)], big, v, n.(store := R.Store(rec, rec)))
  {
    DbOkGrows(s, small, big, n.db);
    DbOkGrows(s, small, big, n.view);
    DurableOk(s, log, big, v, n.store.mem, e);
  }

  lemma DurableKeeps(s: P.Setup, sys: Sys, v: Address, e: R.Entry<Block>, sign: bool, ep: nat)
    requires Inv(s, sys) && v in sys.nodes && R.Check(sys.nodes[v].store.mem, e) == R.Fresh
    requires Sound(s, sys.log, sys.wire, VoteOf(v, e))
    ensures var rec := R.Appended(sys.nodes[v].store.mem, e);
            Inv(s, Vote(sys, v, e, R.Granted(R.Store(rec, rec)), sign, ep))
  {
    hide P.Lawful, P.Allowed, DbOk, DiskBacked, Grounded;
    var n := sys.nodes[v];
    var x := VoteOf(v, e);
    var rec := R.Appended(n.store.mem, e);
    var after := n.(store := R.Store(rec, rec));
    var wire := if sign then sys.wire + {Signed(x, ep)} else sys.wire;
    FreshNotLogged(sys.log, v, n.store.mem, e);
    assert Vote(sys, v, e, R.Granted(R.Store(rec, rec)), sign, ep) == Sys(sys.nodes[v := after], sys.log + [x], wire);
    DurableNode(s, sys.log, sys.wire, wire, v, n, e);
    VoteKeeps(s, sys, v, after, x, wire);
  }

  lemma TornKeeps(s: P.Setup, sys: Sys, v: Address, e: R.Entry<Block>, out: R.Outcome<Block>, sign: bool, ep: nat)
    requires Inv(s, sys) && v in sys.nodes && Sound(s, sys.log, sys.wire, VoteOf(v, e))
    requires out.Refused? && out.store == R.Store(sys.nodes[v].store.mem, R.Appended(sys.nodes[v].store.mem, e))
    ensures Inv(s, Vote(sys, v, e, out, sign, ep))
  {
    var n := sys.nodes[v];
    TornOk(s, sys.log, sys.wire, v, n.store.mem, e);
    QuietKeeps(s, sys, v, n.(store := out.store), sys.wire);
  }

  /** Whatever the record answers to a grounded claim, the invariant survives. */
  lemma ClaimKeeps(s: P.Setup, sys: Sys, v: Address, e: R.Entry<Block>, out: R.Outcome<Block>, sign: bool, ep: nat)
    requires Inv(s, sys) && v in sys.nodes && V.ClaimShape(sys.nodes[v].store, e, out)
    requires out.store != sys.nodes[v].store ==> Sound(s, sys.log, sys.wire, VoteOf(v, e))
    ensures Inv(s, Vote(sys, v, e, out, sign, ep))
  {
    if out.store == sys.nodes[v].store {
      RepeatKeeps(s, sys, v, e, out, sign, ep);
    } else if out.Granted? {
      DurableKeeps(s, sys, v, e, sign, ep);
    } else {
      TornKeeps(s, sys, v, e, out, sign, ep);
    }
  }

  lemma CastSound(s: P.Setup, sys: Sys, v: Address, kind: R.Kind, write: R.Write)
    requires Inv(s, sys) && v in sys.nodes && Intent(sys.nodes[v].view, kind).Some?
    ensures var (e, pol) := Intent(sys.nodes[v].view, kind).value;
            V.Attempt(sys.nodes[v].store, e, pol, write).store != sys.nodes[v].store ==>
              Sound(s, sys.log, sys.wire, VoteOf(v, e))
  {
    hide Intent, DbOk, P.Lawful, Logged, Grounded, Sound, R.LockAllows;
    var st := sys.nodes[v].store;
    OkWellFormed(s, sys.wire, sys.nodes[v].view);
    var (e, pol) := Intent(sys.nodes[v].view, kind).value;
    if V.Attempt(st, e, pol, write).store != st {
      IntentGrounded(s, sys.wire, sys.nodes[v].view, kind, v);
      FreshSound(s, sys.log, sys.wire, v, st.mem, e, pol);
    }
  }

  lemma CastKeeps(s: P.Setup, sys: Sys, v: Address, kind: R.Kind, write: R.Write, sign: bool, ep: nat)
    requires Inv(s, sys) && v in sys.nodes && Intent(sys.nodes[v].view, kind).Some?
    ensures Inv(s, Step(s, sys, Cast(v, kind, write, sign, ep)))
  {
    hide P.Lawful, RecordOk, Sound, V.ClaimShape, V.Attempt, Logged, Grounded, Vote, Intent, Written, Boot;
    var st := sys.nodes[v].store;
    var (e, pol) := Intent(sys.nodes[v].view, kind).value;
    CastSound(s, sys, v, kind, write);
    V.AttemptShape(st, e, pol, write);
    ClaimKeeps(s, sys, v, e, V.Attempt(st, e, pol, write), sign, ep);
  }

  lemma RestartKeeps(s: P.Setup, sys: Sys, v: Address)
    requires Inv(s, sys) && v in sys.nodes
    ensures Inv(s, Boot(sys, v))
  {
    hide P.Lawful, P.Allowed, DbOk, Grounded;
    var n := sys.nodes[v];
    var disk := n.store.disk;
    var after := Node(R.Reload(n.store), n.db, n.db);
    if disk.entries != [] && VoteOf(v, disk.entries[|disk.entries| - 1]) !in sys.log {
      var last := disk.entries[|disk.entries| - 1];
      var rec := disk.(entries := disk.entries[..|disk.entries| - 1]);
      assert R.Appended(rec, last) == disk;
      assert Recorded(sys.log, v, rec);
      DurableOk(s, sys.log, sys.wire, v, rec, last);
      VoteKeeps(s, sys, v, after, VoteOf(v, last), sys.wire);
    } else {
      assert Backed(sys.log, v, disk.entries);
      QuietKeeps(s, sys, v, after, sys.wire);
    }
  }

  lemma PruneOk(s: P.Setup, log: P.Log, wire: set<Signed>, v: Address, st: R.Store<Block>, cutoff: nat, write: R.Write)
    requires RecordOk(s, log, wire, v, st)
    ensures RecordOk(s, log, wire, v, R.Prune(st, cutoff, write))
  {
    var rec := R.Prune(st, cutoff, write).mem;
    assert Recorded(log, v, rec) && Backed(log, v, rec.entries);
  }

  // ----- a settled node reads the right set

  /** Without a boundary between `k` and its height, `b` is judged by the set its ancestor left. */
  lemma {:induction false} SameSet(s: P.Setup, b: Block, k: nat)
    requires s.Valid() && k <= Height(b)
    requires forall j: nat :: k < j <= Height(b) ==> !s.boundary(j)
    ensures s.powers(b) == s.powers(Ancestor(b, k))
  {
    if k < Height(b) {
      SameSet(s, b.parent, k);
    }
  }

  /** The set a settled node reads for `h` is the one its own final chain left in force. */
  lemma LocalIsFinal(s: P.Setup, wire: set<Signed>, db: Db, h: nat)
    requires s.Valid() && DbOk(s, wire, db) && Settled(s, db, h)
    ensures var f := Ancestor(Final(db), Below(h));
            && Height(f) == (if db.watermark <= Below(h) then db.watermark else Below(h))
            && WFinal(s, wire, f) && LocalSet(s, db, h) == s.powers(f)
  {
    hide WFinal, LockOk, RoundsProven;
    FinalCertified(s, wire, db);
    WFinalBelow(s, wire, Final(db), Below(h));
    var held := Ancestor(db.tip, Below(h));
    if db.watermark <= Below(h) {
      AncestorOfAncestor(db.tip, Below(h), db.watermark);
      SameSet(s, held, db.watermark);
    } else {
      AncestorOfAncestor(db.tip, db.watermark, Below(h));
    }
  }

  /** So every quorum it counts has an honest signer. */
  lemma HonestSigner(s: P.Setup, wire: set<Signed>, db: Db, h: nat, signers: set<Address>) returns (v: Address)
    requires s.Valid() && Bounded(s, wire) && DbOk(s, wire, db) && Settled(s, db, h)
    requires IsQuorum(LocalSet(s, db, h), signers)
    ensures v in signers && s.Honest(v)
  {
    LocalIsFinal(s, wire, db, h);
    assert s.Bound(Ancestor(Final(db), Below(h)));
    v := QuorumHasHonest(LocalSet(s, db, h), signers, s.faulty);
  }

  /** And it is the set of every final parent a block at `h` can have. */
  lemma SettledSet(s: P.Setup, log: P.Log, wire: set<Signed>, db: Db, h: nat, parent: Block)
    requires s.Valid() && P.Lawful(s, log) && Logged(log, wire) && Bounded(s, wire)
    requires DbOk(s, wire, db) && Settled(s, db, h) && WParent(s, wire, h, parent)
    ensures LocalSet(s, db, h) == s.powers(parent)
  {
    hide WFinal, DbOk, P.Lawful, P.Final, Logged;
    LocalIsFinal(s, wire, db, h);
    var f := Ancestor(Final(db), Below(h));
    var k := Height(f);
    WFinalBelow(s, wire, parent, k);
    FinalTrusted(s, wire, f);
    FinalLogged(s, log, wire, f);
    FinalLogged(s, log, wire, Ancestor(parent, k));
    P.Agreement(s, log, f, Ancestor(parent, k));
    SameSet(s, parent, k);
  }

  /** A lock tallied at a settled height is one the right set gave. */
  lemma SettledPol(s: P.Setup, sys: Sys, db: Db, h: nat, r: nat, b: Block)
    requires s.Valid() && Inv(s, sys) && Bounded(s, sys.wire)
    requires DbOk(s, sys.wire, db) && Settled(s, db, h) && SeesPol(s, sys.wire, db, h, r, b)
    ensures LockOk(s, sys.wire, h, PolRow(r, b))
  {
    hide WFinal, DbOk, P.Lawful, Settled, NodeOk, LocalSet;
    var v := HonestSigner(s, sys.wire, db, h, Prevoters(sys.wire, h, r, b));
    assert P.Prevote(v, h, r, b) in sys.log;
    assert Grounded(s, sys.wire, P.Prevote(v, h, r, b));
    SettledSet(s, sys.log, sys.wire, db, h, b.parent);
  }

  /** A certificate tallied or accepted at a settled height finalizes its block and every block
      below it, each by the set its own chain put in force. */
  lemma SettledCert(s: P.Setup, sys: Sys, db: Db, h: nat, r: nat, b: Block, ep: nat)
    requires s.Valid() && Inv(s, sys) && Bounded(s, sys.wire)
    requires DbOk(s, sys.wire, db) && Settled(s, db, h) && SeesCert(s, sys.wire, db, h, r, b, ep)
    ensures b.Child? && Height(b) == h && WCert(s, sys.wire, h, r, b, ep) && WFinal(s, sys.wire, b)
  {
    hide DbOk, P.Lawful, Settled, NodeOk, LocalSet;
    var v := HonestSigner(s, sys.wire, db, h, Precommitters(sys.wire, h, r, b, ep));
    assert Signed(P.Precommit(v, h, r, b), ep) in sys.wire;
    assert Grounded(s, sys.wire, P.Precommit(v, h, r, b));
    SettledSet(s, sys.log, sys.wire, db, h, b.parent);
    assert WCert(s, sys.wire, h, r, b, ep);
  }

  /** Every final block's round is proven: an honest voter saw to it. */
  lemma {:induction false} FinalProven(s: P.Setup, sys: Sys, b: Block)
    requires s.Valid() && Inv(s, sys) && Bounded(s, sys.wire) && WFinal(s, sys.wire, b)
    ensures RoundsProven(s, sys.wire, b)
  {
    hide P.Lawful, NodeOk, IsQuorum, WPol, WRound;
    if b.Child? {
      FinalProven(s, sys, b.parent);
      var h := Height(b);
      var r, ep :| WCert(s, sys.wire, h, r, b, ep);
      assert s.Bound(b.parent);
      var v := QuorumHasHonest(s.powers(b.parent), Precommitters(sys.wire, h, r, b, ep), s.faulty);
      assert Signed(P.Precommit(v, h, r, b), ep) in sys.wire;
      assert Grounded(s, sys.wire, P.Precommit(v, h, r, b));
    }
  }

  /** A database that starts at a final block holds nothing unearned. */
  lemma JoinedOk(s: P.Setup, sys: Sys, anchor: Block)
    requires s.Valid() && Inv(s, sys) && Bounded(s, sys.wire) && WFinal(s, sys.wire, anchor) && anchor.Child?
    ensures DbOk(s, sys.wire, Joined(anchor))
  {
    hide Inv, Bounded, WFinal, RoundsProven, WRound, LockOk;
    FinalProven(s, sys, anchor);
  }

  // ----- every careful step keeps the invariant

  lemma WrittenOk(s: P.Setup, sys: Sys, db: Db, ev: Event)
    requires s.Valid() && Inv(s, sys) && Bounded(s, sys.wire) && DbOk(s, sys.wire, db)
    requires ev.FormPol? || ev.TakeCert? ==> Settled(s, db, ev.height)
    requires ev.Join? ==> WFinal(s, sys.wire, ev.anchor)
    ensures DbOk(s, sys.wire, Written(s, sys.wire, db, ev))
  {
    hide DbOk, WFinal, Settled, Inv, IsQuorum, Bounded, RevertTo, CommitBlock, StoreCert, LockOk, SeesPol, SeesCert,
      Acceptable, CurrentRound;
    OkWellFormed(s, sys.wire, db);
    match ev
    case FormPol(_, h, r, b) =>
      if SeesPol(s, sys.wire, db, h, r, b) {
        SettledPol(s, sys, db, h, r, b);
        StorePolOk(s, sys.wire, db, h, PolRow(r, b));
      }
    case TakeCert(_, h, r, b, ep) =>
      if (h in db.certs ==> db.certs[h] == b) && SeesCert(s, sys.wire, db, h, r, b, ep) {
        SettledCert(s, sys, db, h, r, b, ep);
        StoreCertOk(s, sys.wire, db, h, b);
      }
    case FormRoundCert(_, h, r) =>
      if BlockAt(db, Below(h)).Some? && SeesRound(s, sys.wire, db, h, r) {
        StoreRoundOk(s, sys.wire, db, h, r);
      }
    case AdoptRoundCert(_) =>
      if TipHeight(db) == db.watermark + 1 && Round(db.tip) > 0 {
        AdoptOk(s, sys.wire, db);
        StoreRoundOk(s, sys.wire, db, db.watermark + 1, Round(db.tip) - 1);
      }
    case AcceptBlock(_, b) => AcceptOk(s, sys.wire, db, b);
    case Revert(_, h) => RevertOk(s, sys.wire, db, h);
    case DropPols(_, through) => DropPolsOk(s, sys.wire, db, through);
    case Join(_, anchor) =>
      if anchor.Child? {
        JoinedOk(s, sys, anchor);
      }
    case _ =>
  }

  /** The certificate a held block carries is one the database may file on its own. */
  lemma AdoptOk(s: P.Setup, wire: set<Signed>, db: Db)
    requires DbOk(s, wire, db) && TipHeight(db) == db.watermark + 1 && Round(db.tip) > 0
    ensures WRound(s, wire, TipHeight(db), Round(db.tip) - 1, Ancestor(db.tip, Below(TipHeight(db))))
  {
    HeldGrounded(s, wire, db);
  }

  /** No step by an honest node that reads the right validator set, and none by a Byzantine one,
      can produce an unlawful vote or an unfounded database row. */
  lemma StepKeeps(s: P.Setup, sys: Sys, ev: Event)
    requires s.Valid() && Inv(s, sys) && Bounded(s, sys.wire) && Careful(s, sys, ev)
    ensures Inv(s, Step(s, sys, ev))
  {
    hide WFinal, P.Lawful, RecordOk, Grounded, Bounded, Settled, Written;
    match ev
    case Forge(x) =>
      if x.vote.voter in s.faulty {
        var any := Node(R.Store(R.Empty(), R.Empty()), Fresh(), Fresh());
        VoteKeeps(s, sys, x.vote.voter, any, x.vote, sys.wire + {x});
      }
    case Cast(v, kind, write, sign, ep) =>
      if v in sys.nodes && Intent(sys.nodes[v].view, kind).Some? {
        CastKeeps(s, sys, v, kind, write, sign, ep);
      }
    case Restart(v) =>
      if v in sys.nodes {
        RestartKeeps(s, sys, v);
      }
    case _ => DatabaseKeeps(s, sys, ev);
  }

  lemma DatabaseKeeps(s: P.Setup, sys: Sys, ev: Event)
    requires s.Valid() && Inv(s, sys) && Bounded(s, sys.wire) && Careful(s, sys, ev)
    requires !ev.Forge? && !ev.Cast? && !ev.Restart?
    ensures Inv(s, Step(s, sys, ev))
  {
    hide P.Lawful, RecordOk, Grounded, Bounded, Settled, Written, DbOk;
    if ev.v in sys.nodes {
      var n := sys.nodes[ev.v];
      OkWellFormed(s, sys.wire, n.db);
      if ev.Observe? {
        QuietKeeps(s, sys, ev.v, n.(view := n.db), sys.wire);
      } else if ev.Reread? {
        if Rooted(n.view, n.db) {
          RefreshedOk(s, sys.wire, n.view, n.db, ev.part);
          QuietKeeps(s, sys, ev.v, n.(view := Refreshed(n.view, n.db, ev.part)), sys.wire);
        }
      } else if ev.PruneVotes? {
        PruneOk(s, sys.log, sys.wire, ev.v, n.store, ev.cutoff, ev.write);
        QuietKeeps(s, sys, ev.v, n.(store := R.Prune(n.store, ev.cutoff, ev.write)), sys.wire);
      } else if ev.RestoreDb? {
        QuietKeeps(s, sys, ev.v, n.(db := ev.backup, view := ev.backup), sys.wire);
      } else {
        WrittenOk(s, sys, n.db, ev);
        QuietKeeps(s, sys, ev.v, n.(db := Written(s, sys.wire, n.db, ev)), sys.wire);
      }
    }
  }

  lemma StepGrows(s: P.Setup, sys: Sys, ev: Event)
    ensures sys.wire <= Step(s, sys, ev).wire && Step(s, sys, ev).nodes.Keys == sys.nodes.Keys
  {
    hide Written;
  }

  lemma {:induction false} ExecGrows(s: P.Setup, init: Sys, evs: seq<Event>, k: nat)
    requires k <= |evs|
    ensures Exec(s, init, evs[..k]).wire <= Exec(s, init, evs).wire
    ensures Exec(s, init, evs[..k]).nodes.Keys == Exec(s, init, evs).nodes.Keys
    ensures CarefulRun(s, init, evs) ==> CarefulRun(s, init, evs[..k])
    decreases |evs|
  {
    hide Careful;
    if k == |evs| {
      assert evs[..k] == evs;
    } else {
      var front := evs[..|evs| - 1];
      ExecGrows(s, init, front, k);
      assert front[..k] == evs[..k];
      StepGrows(s, Exec(s, init, front), evs[|evs| - 1]);
    }
  }

  lemma RunMore(s: P.Setup, init: Sys, evs: seq<Event>, ev: Event)
    ensures Exec(s, init, evs + [ev]) == Step(s, Exec(s, init, evs), ev)
    ensures CarefulRun(s, init, evs + [ev]) <==> CarefulRun(s, init, evs) && Careful(s, Exec(s, init, evs), ev)
  {
    hide Careful, Step;
    assert (evs + [ev])[..|evs|] == evs;
  }

  /** The runs the guarantees are about: any events at all, as long as locks and records are formed
      at settled heights and the finalized chain keeps Byzantine power within its bound. */
  ghost predicate Guarded(s: P.Setup, init: Sys, evs: seq<Event>) {
    s.Valid() && Initial(s, init) && CarefulRun(s, init, evs) && Bounded(s, Exec(s, init, evs).wire)
  }

  lemma GuardedPrefix(s: P.Setup, init: Sys, evs: seq<Event>, k: nat)
    requires Guarded(s, init, evs) && k <= |evs|
    ensures Guarded(s, init, evs[..k])
  {
    ExecGrows(s, init, evs, k);
    BoundedShrinks(s, Exec(s, init, evs[..k]).wire, Exec(s, init, evs).wire);
  }

  lemma {:induction false} ExecKeeps(s: P.Setup, init: Sys, evs: seq<Event>)
    requires Guarded(s, init, evs)
    ensures Inv(s, Exec(s, init, evs))
  {
    hide Inv, Initial, Careful, Bounded;
    if evs == [] {
      InitialInv(s, init);
    } else {
      GuardedPrefix(s, init, evs, |evs| - 1);
      ExecKeeps(s, init, evs[..|evs| - 1]);
      StepKeeps(s, Exec(s, init, evs[..|evs| - 1]), evs[|evs| - 1]);
    }
  }

  // ----- what holds of every guarded run

  /** At moment `i`, `v` could tally or be handed this certificate, at a height it is settled for. */
  ghost predicate Accepts(s: P.Setup, init: Sys, evs: seq<Event>, i: nat, v: Address,
                          h: nat, r: nat, b: Block, ep: nat)
    requires i <= |evs|
  {
    var now := Exec(s, init, evs[..i]);
    v in now.nodes && Settled(s, now.nodes[v].db, h) && SeesCert(s, now.wire, now.nodes[v].db, h, r, b, ep)
  }

  /** At moment `i`, `v` could lock `b` at `(h, r)`, a height it is settled for. */
  ghost predicate Locks(s: P.Setup, init: Sys, evs: seq<Event>, i: nat, v: Address, h: nat, r: nat, b: Block)
    requires i <= |evs|
  {
    var now := Exec(s, init, evs[..i]);
    v in now.nodes && Settled(s, now.nodes[v].db, h) && SeesPol(s, now.wire, now.nodes[v].db, h, r, b)
  }

  /** No gaps: an accepted certificate is for a block at its height, and that block and every block
      below it is certified by the set its own chain put in force. */
  lemma NetworkChain(s: P.Setup, init: Sys, evs: seq<Event>, i: nat, v: Address, h: nat, r: nat, b: Block, ep: nat)
    requires Guarded(s, init, evs) && i <= |evs| && Accepts(s, init, evs, i, v, h, r, b, ep)
    ensures b.Child? && Height(b) == h
    ensures WCert(s, Exec(s, init, evs).wire, h, r, b, ep) && WFinal(s, Exec(s, init, evs).wire, b)
  {
    hide DbOk, P.Lawful, WFinal, WCert, SeesCert, Settled, Bounded, RecordOk, Careful;
    var now := Exec(s, init, evs[..i]);
    GuardedPrefix(s, init, evs, i);
    ExecKeeps(s, init, evs[..i]);
    SettledCert(s, now, now.nodes[v].db, h, r, b, ep);
    ExecGrows(s, init, evs, i);
    WFinalGrows(s, now.wire, Exec(s, init, evs).wire, b);
    WCertGrows(s, now.wire, Exec(s, init, evs).wire, h, r, b, ep);
  }

  /** Agreement on the network: any two certificates accepted at one height, by any two nodes at any
      two moments, whatever their rounds and execution proofs, name one block. */
  lemma NetworkAgreement(s: P.Setup, init: Sys, evs: seq<Event>, h: nat, i: nat, u: Address, r: nat, b: Block, ep: nat,
                         j: nat, v: Address, r': nat, c: Block, ep': nat)
    requires Guarded(s, init, evs) && i <= |evs| && j <= |evs|
    requires Accepts(s, init, evs, i, u, h, r, b, ep) && Accepts(s, init, evs, j, v, h, r', c, ep')
    ensures b == c
  {
    hide Accepts, WFinal, Bounded, P.Lawful;
    NetworkChain(s, init, evs, i, u, h, r, b, ep);
    NetworkChain(s, init, evs, j, v, h, r', c, ep');
    OneFinal(s, init, evs, b, c);
  }

  /** Final blocks at one height are one block. */
  lemma OneFinal(s: P.Setup, init: Sys, evs: seq<Event>, b: Block, c: Block)
    requires Guarded(s, init, evs) && Height(b) == Height(c)
    requires WFinal(s, Exec(s, init, evs).wire, b) && WFinal(s, Exec(s, init, evs).wire, c)
    ensures b == c
  {
    hide WFinal, NodeOk, P.Lawful, P.Final;
    var sys := Exec(s, init, evs);
    ExecKeeps(s, init, evs);
    FinalTrusted(s, sys.wire, b);
    FinalLogged(s, sys.log, sys.wire, b);
    FinalLogged(s, sys.log, sys.wire, c);
    P.Agreement(s, sys.log, b, c);
  }

  /** Lock lemma on the network: once a certificate for `b` at `(h, r)` is accepted anywhere, every
      lock formed at `h` from round `r` on, anywhere and at any moment, is on `b`. */
  lemma NetworkLock(s: P.Setup, init: Sys, evs: seq<Event>, h: nat, i: nat, u: Address, r: nat, b: Block, ep: nat,
                    j: nat, v: Address, r': nat, c: Block)
    requires Guarded(s, init, evs) && i <= |evs| && j <= |evs| && r <= r'
    requires Accepts(s, init, evs, i, u, h, r, b, ep) && Locks(s, init, evs, j, v, h, r', c)
    ensures b == c
  {
    hide Accepts, Locks, WFinal, WCert, WPol, Bounded, NodeOk, P.Lawful, P.CertifiedAt, P.Pol;
    var sys := Exec(s, init, evs);
    NetworkChain(s, init, evs, i, u, h, r, b, ep);
    LockedBySet(s, init, evs, j, v, h, r', c);
    FinalParentOf(s, sys.wire, b);
    OneFinal(s, init, evs, b.parent, c.parent);
    ExecKeeps(s, init, evs);
    CertLogged(s, sys.log, sys.wire, h, r, b, ep);
    PolLogged(s, sys.log, sys.wire, h, r', c);
    FinalTrusted(s, sys.wire, c.parent);
    P.Lock(s, sys.log, h, r, b, r', c);
  }

  lemma FinalParentOf(s: P.Setup, wire: set<Signed>, b: Block)
    requires WFinal(s, wire, b) && b.Child?
    ensures WFinal(s, wire, b.parent)
  {
  }

  lemma LockedBySet(s: P.Setup, init: Sys, evs: seq<Event>, i: nat, v: Address, h: nat, r: nat, b: Block)
    requires Guarded(s, init, evs) && i <= |evs| && Locks(s, init, evs, i, v, h, r, b)
    ensures b.Child? && Height(b) == h
    ensures WPol(s, Exec(s, init, evs).wire, h, r, b) && WFinal(s, Exec(s, init, evs).wire, b.parent)
  {
    hide DbOk, P.Lawful, WFinal, WPol, SeesPol, Settled, Bounded, RecordOk, Careful;
    var now := Exec(s, init, evs[..i]);
    GuardedPrefix(s, init, evs, i);
    ExecKeeps(s, init, evs[..i]);
    SettledPol(s, now, now.nodes[v].db, h, r, b);
    ExecGrows(s, init, evs, i);
    WFinalGrows(s, now.wire, Exec(s, init, evs).wire, b.parent);
    WPolGrows(s, now.wire, Exec(s, init, evs).wire, h, r, b);
  }

  lemma RoundBefore(s: P.Setup, sys: Sys, h: nat, r: nat, parent: Block)
    requires s.Valid() && Inv(s, sys) && s.Bound(parent) && r > 0 && WRound(s, sys.wire, h, r, parent)
    ensures WRound(s, sys.wire, h, r - 1, parent)
  {
    hide P.Lawful, NodeOk, WFinal, IsQuorum;
    var v := QuorumHasHonest(s.powers(parent), Timers(sys.wire, h, r, parent), s.faulty);
    assert P.Timeout(v, h, r, parent) in sys.log;
    assert Grounded(s, sys.wire, P.Timeout(v, h, r, parent));
  }

  /** No skipped rounds: at every moment of a run, a certificate that `(h, r)` timed out is
      accompanied by one for each earlier round, on the same parent. */
  lemma {:induction false} RoundsBefore(s: P.Setup, init: Sys, evs: seq<Event>, h: nat, r: nat, parent: Block, q: nat)
    requires Guarded(s, init, evs) && s.Bound(parent) && q <= r
    requires WRound(s, Exec(s, init, evs).wire, h, r, parent)
    ensures WRound(s, Exec(s, init, evs).wire, h, q, parent)
    decreases r
  {
    hide Step, Inv, WRound;
    if q < r {
      ExecKeeps(s, init, evs);
      RoundBefore(s, Exec(s, init, evs), h, r, parent);
      RoundsBefore(s, init, evs, h, r - 1, parent, q);
    }
  }

  /** The last moment of a run at which `(h, r)` was not yet certified timed out. */
  lemma {:induction false} LastMomentWithout(s: P.Setup, init: Sys, evs: seq<Event>, h: nat, r: nat, parent: Block)
      returns (i: nat)
    requires Initial(s, init) && WRound(s, Exec(s, init, evs).wire, h, r, parent)
    ensures i < |evs| && !WRound(s, Exec(s, init, evs[..i]).wire, h, r, parent)
    ensures WRound(s, Exec(s, init, evs[..i + 1]).wire, h, r, parent)
  {
    hide Step, WRound;
    assert evs != [] by { NothingTimedOut(s, init, h, r, parent); }
    var n := |evs| - 1;
    if WRound(s, Exec(s, init, evs[..n]).wire, h, r, parent) {
      i := LastMomentWithout(s, init, evs[..n], h, r, parent);
      assert evs[..n][..i] == evs[..i] && evs[..n][..i + 1] == evs[..i + 1];
    } else {
      i := n;
      assert evs[..i + 1] == evs;
    }
  }

  lemma NothingTimedOut(s: P.Setup, init: Sys, h: nat, r: nat, parent: Block)
    requires Initial(s, init)
    ensures !WRound(s, Exec(s, init, []).wire, h, r, parent)
  {
    assert Timers({}, h, r, parent) == {};
  }

  /** The signature that completes one round's certificate adds nothing to another's. */
  lemma OneRoundAtATime(s: P.Setup, sys: Sys, ev: Event, h: nat, r: nat, q: nat, parent: Block)
    requires q != r && !WRound(s, sys.wire, h, r, parent) && WRound(s, Step(s, sys, ev).wire, h, r, parent)
    ensures WRound(s, Step(s, sys, ev).wire, h, q, parent) ==> WRound(s, sys.wire, h, q, parent)
  {
    hide Written, Intent, V.Attempt;
    var was, now := sys.wire, Step(s, sys, ev).wire;
    var x := NewSignature(s, sys, ev);
    assert x.vote != P.Timeout(x.vote.voter, h, r, parent) ==> Timers(now, h, r, parent) == Timers(was, h, r, parent);
    assert x.vote != P.Timeout(x.vote.voter, h, q, parent) ==> Timers(now, h, q, parent) == Timers(was, h, q, parent);
  }

  /** One event puts at most one signature on the wire. */
  lemma NewSignature(s: P.Setup, sys: Sys, ev: Event) returns (x: Signed)
    ensures Step(s, sys, ev).wire <= sys.wire + {x}
    ensures sys.wire <= Step(s, sys, ev).wire
  {
    hide Written, Intent, V.Attempt;
    x := Signed(P.Timeout(0, 0, 0, Genesis), 0);
    if ev.Forge? {
      x := ev.x;
    } else if ev.Cast? && ev.v in sys.nodes && WellFormed(sys.nodes[ev.v].view)
              && Intent(sys.nodes[ev.v].view, ev.kind).Some? {
      x := Signed(VoteOf(ev.v, Intent(sys.nodes[ev.v].view, ev.kind).value.0), ev.ep);
    }
  }

  /** No skipped rounds, in order: when `(h, r)` is certified timed out, every earlier round is, and each
      was before the next one: there is a moment at which `(h, q)` was certified and `(h, q + 1)` not yet. */
  lemma NetworkRounds(s: P.Setup, init: Sys, evs: seq<Event>, h: nat, r: nat, parent: Block, q: nat) returns (i: nat)
    requires Guarded(s, init, evs) && s.Bound(parent) && q < r
    requires WRound(s, Exec(s, init, evs).wire, h, r, parent)
    ensures WRound(s, Exec(s, init, evs).wire, h, q, parent)
    ensures i < |evs| && WRound(s, Exec(s, init, evs[..i]).wire, h, q, parent)
    ensures !WRound(s, Exec(s, init, evs[..i]).wire, h, q + 1, parent)
  {
    hide Step, Inv, WRound;
    RoundsBefore(s, init, evs, h, r, parent, q);
    RoundsBefore(s, init, evs, h, r, parent, q + 1);
    i := LastMomentWithout(s, init, evs, h, q + 1, parent);
    GuardedPrefix(s, init, evs, i + 1);
    RoundsBefore(s, init, evs[..i + 1], h, q + 1, parent, q);
    RunMore(s, init, evs[..i], evs[i]);
    assert evs[..i] + [evs[i]] == evs[..i + 1];
    OneRoundAtATime(s, Exec(s, init, evs[..i]), evs[i], h, q + 1, q, parent);
  }

  /** One finalized chain: at any two moments of a run, the finalized chains of any two honest
      nodes - databases restored from backups included - are one a prefix of the other. */
  lemma NetworkPrefix(s: P.Setup, init: Sys, evs: seq<Event>, earlier: nat, u: Address, v: Address)
    requires Guarded(s, init, evs) && earlier <= |evs|
    requires u in Exec(s, init, evs[..earlier]).nodes && v in Exec(s, init, evs).nodes
    ensures var a := Final(Exec(s, init, evs[..earlier]).nodes[u].db);
            var b := Final(Exec(s, init, evs).nodes[v].db);
            IsPrefix(a, b) || IsPrefix(b, a)
  {
    hide DbOk, Bounded, P.Lawful, RecordOk, Careful, Settled;
    var before := Exec(s, init, evs[..earlier]);
    var now := Exec(s, init, evs);
    GuardedPrefix(s, init, evs, earlier);
    ExecKeeps(s, init, evs[..earlier]);
    ExecKeeps(s, init, evs);
    ExecGrows(s, init, evs, earlier);
    DbOkGrows(s, before.wire, now.wire, before.nodes[u].db);
    PrefixOf(s, now.log, now.wire, before.nodes[u].db, now.nodes[v].db);
  }

  lemma PrefixOf(s: P.Setup, log: P.Log, wire: set<Signed>, a: Db, b: Db)
    requires s.Valid() && P.Lawful(s, log) && Logged(log, wire) && Bounded(s, wire)
    requires DbOk(s, wire, a) && DbOk(s, wire, b)
    ensures IsPrefix(Final(a), Final(b)) || IsPrefix(Final(b), Final(a))
  {
    hide DbOk, P.Lawful, WFinal, P.Final;
    FinalCertified(s, wire, a);
    FinalCertified(s, wire, b);
    FinalTrusted(s, wire, Final(a));
    FinalTrusted(s, wire, Final(b));
    FinalLogged(s, log, wire, Final(a));
    FinalLogged(s, log, wire, Final(b));
    if a.watermark <= b.watermark {
      P.OneChain(s, log, Final(b), Final(a));
    } else {
      P.OneChain(s, log, Final(a), Final(b));
    }
  }

  /** Any database a node held at any moment is one a careful restore may bring back, on any node. */
  lemma BackupsQualify(s: P.Setup, init: Sys, evs: seq<Event>, earlier: nat, u: Address)
    requires Guarded(s, init, evs) && earlier <= |evs| && u in Exec(s, init, evs[..earlier]).nodes
    ensures DbOk(s, Exec(s, init, evs).wire, Exec(s, init, evs[..earlier]).nodes[u].db)
  {
    hide DbOk, Bounded, P.Lawful, RecordOk, Careful, Settled;
    GuardedPrefix(s, init, evs, earlier);
    ExecKeeps(s, init, evs[..earlier]);
    ExecGrows(s, init, evs, earlier);
    var before := Exec(s, init, evs[..earlier]);
    DbOkGrows(s, before.wire, Exec(s, init, evs).wire, before.nodes[u].db);
  }

  // ----- what holds of every run, guarded or not

  /** What one event does to `v`'s vote record. */
  function RecordEvents(sys: Sys, ev: Event, v: Address): seq<V.Event<Block>> {
    match ev
    case Cast(u, kind, write, _, _) =>
      if u == v && v in sys.nodes && WellFormed(sys.nodes[v].view) && Intent(sys.nodes[v].view, kind).Some? then
        var (e, pol) := Intent(sys.nodes[v].view, kind).value;
        [V.DoClaim(e, pol, write)]
      else []
    case PruneVotes(u, cutoff, write) => if u == v then [V.DoPrune(cutoff, write)] else []
    case Restart(u) => if u == v then [V.Restart] else []
    case _ => []
  }

  /** The run of `v`'s vote record inside a run of the network. */
  ghost function RecordRun(s: P.Setup, init: Sys, evs: seq<Event>, v: Address): seq<V.Event<Block>> {
    if evs == [] then []
    else
      var before := evs[..|evs| - 1];
      RecordRun(s, init, before, v) + RecordEvents(Exec(s, init, before), evs[|evs| - 1], v)
  }

  /** The node's record is where that run leaves it, and every signature of `v` was granted in it. */
  ghost predicate Follows(s: P.Setup, init: Sys, evs: seq<Event>, v: Address) {
    var now := Exec(s, init, evs);
    var run := V.Exec(V.Start<Block>(), RecordRun(s, init, evs, v));
    && v in now.nodes && now.nodes[v].store == run.store
    && forall x :: x in now.wire && x.vote.voter == v ==> EntryOf(x.vote) in run.granted
  }

  lemma RecordStep(s: P.Setup, sys: Sys, ev: Event, v: Address, run: V.Run<Block>)
    requires s.Honest(v) && v in sys.nodes && sys.nodes[v].store == run.store
    requires forall x :: x in sys.wire && x.vote.voter == v ==> EntryOf(x.vote) in run.granted
    ensures var next := V.Exec(run, RecordEvents(sys, ev, v));
            var now := Step(s, sys, ev);
            && v in now.nodes && now.nodes[v].store == next.store
            && forall x :: x in now.wire && x.vote.voter == v ==> EntryOf(x.vote) in next.granted
  {
    hide Written, Intent, R.ClaimPrevote, R.Claim, R.Prune;
    if RecordEvents(sys, ev, v) != [] {
      V.ExecOne(run, RecordEvents(sys, ev, v)[0]);
    }
  }

  lemma {:induction false} RecordFollows(s: P.Setup, init: Sys, evs: seq<Event>, v: Address)
    requires Initial(s, init) && v in init.nodes
    ensures Follows(s, init, evs, v)
  {
    if evs != [] {
      var before := evs[..|evs| - 1];
      var sys := Exec(s, init, before);
      RecordFollows(s, init, before, v);
      RecordStep(s, sys, evs[|evs| - 1], v, V.Exec(V.Start<Block>(), RecordRun(s, init, before, v)));
      V.ExecConcat(V.Start<Block>(), RecordRun(s, init, before, v), RecordEvents(sys, evs[|evs| - 1], v));
    }
  }

  /** Only a validator's own node, or a Byzantine validator, signs in its name. */
  lemma {:induction false} SignersRun(s: P.Setup, init: Sys, evs: seq<Event>, x: Signed)
    requires Initial(s, init) && x in Exec(s, init, evs).wire && s.Honest(x.vote.voter)
    ensures x.vote.voter in init.nodes
  {
    if evs != [] {
      var before := evs[..|evs| - 1];
      ExecGrows(s, init, before, 0);
      if x in Exec(s, init, before).wire {
        SignersRun(s, init, before, x);
      }
    }
  }

  /** An honest validator is never seen to equivocate, in any run at all - whatever validator sets
      its node read, whatever databases were restored: its signed votes of one kind at one `(h, r)`
      are one vote. */
  lemma HonestNeverEquivocates(s: P.Setup, init: Sys, evs: seq<Event>, x: Signed, y: Signed)
    requires Initial(s, init) && s.Honest(x.vote.voter)
    requires x in Exec(s, init, evs).wire && y in Exec(s, init, evs).wire
    requires x.vote.voter == y.vote.voter && V.SameSlot(EntryOf(x.vote), EntryOf(y.vote))
    ensures x.vote == y.vote
  {
    SignersRun(s, init, evs, x);
    RecordFollows(s, init, evs, x.vote.voter);
    V.OneHashPerSlot(RecordRun(s, init, evs, x.vote.voter), EntryOf(x.vote), EntryOf(y.vote));
  }
}

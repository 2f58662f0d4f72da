/** When a node counts votes against the right validator set. It reads the newest set its own
    database holds at or below the tallied height, and nothing makes it wait until the last epoch
    boundary below that height is final here. `SettledIff` says that waiting is exactly what would
    be needed; `StaleSetSplits` is a run in which not waiting finalizes two blocks at one height
    although no validator misbehaves. */
module StaleSets {
  import opened TextFormat
  import opened VotingPower
  import opened Blocks
  import opened Chain
  import opened System
  import opened Safety
  import P = Protocol
  import R = VoteRecord
  import V = VoteRuns

  // ----- exactly when the set read is the right one

  /** A parent for height `h` that the final chain here does not rule out. */
  predicate Possible(db: Db, h: nat, parent: Block) {
    Height(parent) + 1 == h && (IsPrefix(Final(db), parent) || IsPrefix(parent, Final(db)))
  }

  /** Under `s`, the node reads for `h` the set that judges a block on `parent`. */
  ghost predicate ReadsRight(s: P.Setup, db: Db, h: nat, parent: Block) {
    LocalSet(s, db, h) == s.powers(parent)
  }

  /** A node reads the right set for `h` - whatever the sets its chain and its rivals open, and
      whichever possible parent turns out final - if and only if `h` is settled. */
  lemma SettledIff(s: P.Setup, db: Db, h: nat)
    requires s.Valid() && WellFormed(db)
    ensures Settled(s, db, h) <==>
            forall t: P.Setup, parent: Block ::
              t.Valid() && t.boundary == s.boundary && Possible(db, h, parent) ==> ReadsRight(t, db, h, parent)
  {
    if Settled(s, db, h) {
      forall t: P.Setup, parent | t.Valid() && t.boundary == s.boundary && Possible(db, h, parent)
        ensures ReadsRight(t, db, h, parent)
      {
        SettledReads(t, db, h, parent);
      }
    } else {
      var k: nat :| db.watermark < k < h && s.boundary(k);
      var t, parent := Rival(s, db, h, k);
      assert !ReadsRight(t, db, h, parent);
    }
  }

  lemma SettledReads(s: P.Setup, db: Db, h: nat, parent: Block)
    requires s.Valid() && WellFormed(db) && Settled(s, db, h) && Possible(db, h, parent)
    ensures ReadsRight(s, db, h, parent)
  {
    var held := Ancestor(db.tip, h - 1);
    if db.watermark <= h - 1 {
      AncestorOfAncestor(db.tip, h - 1, db.watermark);
      SameSet(s, held, db.watermark);
      SameSet(s, parent, db.watermark);
    } else {
      AncestorOfAncestor(db.tip, db.watermark, h - 1);
    }
  }

  /** `n` more blocks on top of `b`. */
  function Extended(b: Block, n: nat): (e: Block)
    ensures Height(e) == Height(b) + n && Ancestor(e, Height(b)) == b
  {
    if n == 0 then b else Child(Extended(b, n - 1), 0, 0)
  }

  /** The chain through `mark` has validator 2 alone, every other chain validator 1. */
  function OpenedBy(mark: Block): Block -> PowerMap {
    b => if IsPrefix(mark, b) then map[2 := TOTAL_VOTING_POWER] else map[1 := TOTAL_VOTING_POWER]
  }

  lemma OpenedByValid(s: P.Setup, mark: Block)
    requires s.boundary(Height(mark)) && mark.Child?
    ensures P.Setup(OpenedBy(mark), s.boundary, s.faulty).Valid()
  {
    SoleValidator(1);
    SoleValidator(2);
    forall b: Block | b.Child? && !s.boundary(Height(b)) ensures IsPrefix(mark, b) == IsPrefix(mark, b.parent) {
    }
  }

  lemma SoleValidator(v: Address)
    ensures ValidPowers(map[v := TOTAL_VOTING_POWER])
  {
    var powers: PowerMap := map[v := TOTAL_VOTING_POWER];
    assert powers.Keys == {v};
    PowerRemove(powers, {v}, v);
    assert {v} - {v} == {};
  }

  /** A chain on the finalized block that parts from the held one right above it. */
  lemma RivalParent(db: Db, h: nat) returns (other: Block, parent: Block)
    requires WellFormed(db) && db.watermark + 1 < h
    ensures Possible(db, h, parent)
    ensures Ancestor(parent, db.watermark + 1) == other && other != Ancestor(db.tip, db.watermark + 1)
  {
    var wm := db.watermark;
    var held := Ancestor(db.tip, wm + 1);
    other := Child(Final(db), 0, if held.Child? then held.body + 1 else 0);
    parent := Extended(other, h - 2 - wm);
    AncestorOfAncestor(parent, wm + 1, wm);
  }

  /** With a boundary at `k`, a block other than the one held there may open another set. */
  lemma Rival(s: P.Setup, db: Db, h: nat, k: nat) returns (t: P.Setup, parent: Block)
    requires WellFormed(db) && db.watermark < k < h && s.boundary(k)
    ensures t.Valid() && t.boundary == s.boundary && Possible(db, h, parent) && !ReadsRight(t, db, h, parent)
  {
    var other;
    other, parent := RivalParent(db, h);
    var mark := Ancestor(parent, k);
    t := P.Setup(OpenedBy(mark), s.boundary, s.faulty);
    OpenedByValid(s, mark);
    NotHeld(db, h, k, mark, other, parent);
    hide IsPrefix, Ancestor;
    assert 2 in OpenedBy(mark)(parent) && 2 !in OpenedBy(mark)(Ancestor(db.tip, h - 1));
  }

  /** The rival's boundary block is not on the held chain. */
  lemma NotHeld(db: Db, h: nat, k: nat, mark: Block, other: Block, parent: Block)
    requires db.watermark < k < h && mark == Ancestor(parent, k) && Height(parent) == h - 1
    requires Ancestor(parent, db.watermark + 1) == other && other != Ancestor(db.tip, db.watermark + 1)
    ensures !IsPrefix(mark, Ancestor(db.tip, h - 1)) && IsPrefix(mark, parent)
  {
    var local := Ancestor(db.tip, h - 1);
    AncestorOfAncestor(parent, k, db.watermark + 1);
    AncestorOfAncestor(db.tip, h - 1, db.watermark + 1);
    AncestorOfAncestor(local, k, db.watermark + 1);
  }

  // ----- a run without misbehaviour that finalizes two blocks at one height

  /** The height-1 block hands over from validator 1 to validators 2 and 3. */
  function First(): Block { Child(Genesis, 0, 0) }

  /** The height-2 blocks of rounds 0 and 1. */
  function Earlier(): Block { Child(First(), 0, 1) }

  function Later(): Block { Child(First(), 1, 2) }

  function OldSet(): PowerMap { map[1 := 10_000] }

  function NewSet(): PowerMap { map[2 := 5_000, 3 := 5_000] }

  function InForce(b: Block): PowerMap { if IsPrefix(First(), b) then NewSet() else OldSet() }

  function Handover(): P.Setup { P.Setup(InForce, (h: nat) => h == 1, {}) }

  function Seeded(): Node { Node(R.Store(R.Empty(), R.Empty()), Fresh(), Fresh()) }

  /** Validators 1, 2 and 3, and node 4, which only follows. */
  function Init(): Sys { Sys(map[1 := Seeded(), 2 := Seeded(), 3 := Seeded(), 4 := Seeded()], [], {}) }

  lemma HandoverValid()
    ensures Handover().Valid() && Initial(Handover(), Init()) && (forall b :: Handover().Bound(b))
  {
    SoleValidator(1);
    PairPower();
    forall b: Block | b.Child? && Height(b) != 1 ensures InForce(b) == InForce(b.parent) {
    }
  }

  lemma SetsRead()
    ensures InForce(Genesis) == OldSet() && InForce(First()) == NewSet()
  {
  }

  lemma OldQuorum(signers: set<Address>)
    requires 1 in signers
    ensures IsQuorum(OldSet(), signers)
  {
    SoleValidator(1);
    PowerMonotone(OldSet(), OldSet().Keys, signers);
  }

  lemma NewQuorum(signers: set<Address>)
    requires 2 in signers && 3 in signers
    ensures IsQuorum(NewSet(), signers)
  {
    PairPower();
    PowerMonotone(NewSet(), NewSet().Keys, signers);
  }

  lemma PairPower()
    ensures ValidPowers(NewSet()) && NewSet().Keys == {2, 3}
  {
    var powers: PowerMap := NewSet();
    assert powers.Keys == {2, 3};
    PowerRemove(powers, {2, 3}, 2);
    assert {2, 3} - {2} == {3};
    PowerRemove(powers, {3}, 3);
    assert {3} - {3} == {};
  }

  function Votes(es: seq<R.Entry<Block>>): R.Store<Block> { R.Store(R.Record(0, es), R.Record(0, es)) }

  /** After `evs`, node `v` holds `db` and has recorded `es`. */
  ghost predicate At(evs: seq<Event>, v: Address, db: Db, es: seq<R.Entry<Block>>) {
    var sys := Exec(Handover(), Init(), evs);
    v in sys.nodes && sys.nodes[v].db == db && sys.nodes[v].store == Votes(es)
  }

  ghost predicate Sent(wire: set<Signed>, v: Address, e: R.Entry<Block>) {
    Signed(VoteOf(v, e), 0) in wire
  }

  ghost function Wire(evs: seq<Event>): set<Signed> {
    Exec(Handover(), Init(), evs).wire
  }

  ghost predicate On(evs: seq<Event>, v: Address, e: R.Entry<Block>) {
    Sent(Wire(evs), v, e)
  }

  /** Between the two runs only `v` moved, and nothing left the wire. */
  ghost predicate Moved(evs: seq<Event>, next: seq<Event>, v: Address) {
    && (forall u, db, es :: u != v && At(evs, u, db, es) ==> At(next, u, db, es))
    && (forall u, e :: On(evs, u, e) ==> On(next, u, e))
  }

  lemma OneMore(evs: seq<Event>, ev: Event)
    ensures Exec(Handover(), Init(), evs + [ev]) == Step(Handover(), Exec(Handover(), Init(), evs), ev)
    ensures CarefulRun(Handover(), Init(), evs) && Careful(Handover(), Exec(Handover(), Init(), evs), ev) ==>
              CarefulRun(Handover(), Init(), evs + [ev])
  {
    assert (evs + [ev])[..|evs|] == evs;
  }

  /** One database write. */
  lemma Writes(evs: seq<Event>, ev: Event, v: Address, db: Db, es: seq<R.Entry<Block>>, after: Db)
      returns (next: seq<Event>)
    requires ev.FormPol? || ev.TakeCert? || ev.FormRoundCert? || ev.AcceptBlock? || ev.Revert?
    requires ev.v == v && At(evs, v, db, es) && WellFormed(db)
    requires Written(Handover(), Wire(evs), db, ev) == after
    ensures next == evs + [ev] && At(next, v, after, es) && Moved(evs, next, v)
    ensures CarefulRun(Handover(), Init(), evs) && (ev.FormPol? || ev.TakeCert? ==> Settled(Handover(), db, ev.height))
            ==> CarefulRun(Handover(), Init(), next)
  {
    next := evs + [ev];
    OneMore(evs, ev);
  }

  /** The engine reads the database and signs a vote. */
  lemma Signs(evs: seq<Event>, v: Address, db: Db, es: seq<R.Entry<Block>>, kind: R.Kind, e: R.Entry<Block>,
              pol: Option<nat>)
      returns (next: seq<Event>)
    requires At(evs, v, db, es) && WellFormed(db) && Intent(db, kind) == Some((e, pol))
    requires V.Attempt(Votes(es), e, pol, R.Durable) == R.Granted(Votes(es + [e]))
    ensures next == evs + [Observe(v), Cast(v, kind, R.Durable, true, 0)]
    ensures At(next, v, db, es + [e]) && On(next, v, e) && Moved(evs, next, v)
    ensures CarefulRun(Handover(), Init(), evs) ==> CarefulRun(Handover(), Init(), next)
  {
    hide Intent, Written, V.Attempt, CarefulRun;
    OneMore(evs, Observe(v));
    OneMore(evs + [Observe(v)], Cast(v, kind, R.Durable, true, 0));
    next := evs + [Observe(v), Cast(v, kind, R.Durable, true, 0)];
    assert next == evs + [Observe(v)] + [Cast(v, kind, R.Durable, true, 0)];
  }

  // ----- what each node holds along the way

  /** `First` held, certified or not, by a node that never locked it. */
  function HeldFirst(): Db { Db(First(), 0, map[], map[], {}) }

  function FinalFirst(pols: map<nat, PolRow>): Db { Db(First(), 1, map[1 := First()], pols, {}) }

  function LockFirst(): map<nat, PolRow> { map[1 := PolRow(0, First())] }

  lemma AcceptsFirst(wire: set<Signed>, v: Address)
    ensures Written(Handover(), wire, Fresh(), AcceptBlock(v, First())) == HeldFirst()
  {
    assert CertifiedRounds(Fresh(), 1) == {};
  }

  lemma CertifiesFirst(wire: set<Signed>, v: Address, pols: map<nat, PolRow>)
    requires Sent(wire, 1, OldVotes()[1])
    ensures Written(Handover(), wire, HeldFirst().(pols := pols), TakeCert(v, 1, 0, First(), 0)) == FinalFirst(pols)
  {
    hide IsQuorum;
    SetsRead();
    OldQuorum(Precommitters(wire, 1, 0, First(), 0));
    assert AdvanceMark(First(), map[1 := First()], 1) == 1;
  }

  lemma LocksFirst(wire: set<Signed>)
    requires Sent(wire, 1, OldVotes()[0])
    ensures Written(Handover(), wire, HeldFirst(), FormPol(1, 1, 0, First())) == HeldFirst().(pols := LockFirst())
  {
    hide IsQuorum;
    SetsRead();
    OldQuorum(Prevoters(wire, 1, 0, First()));
  }

  lemma PlansFirst()
    ensures Intent(HeldFirst(), R.Prevote) == Some((OldVotes()[0], None))
    ensures Intent(HeldFirst().(pols := LockFirst()), R.Precommit) == Some((OldVotes()[1], None))
  {
    assert CertifiedRounds(HeldFirst(), 1) == {};
    assert CertifiedRounds(HeldFirst().(pols := LockFirst()), 1) == {};
  }

  /** The votes of validator 1, in order. */
  function OldVotes(): (es: seq<R.Entry<Block>>)
    ensures |es| == 3
  {
    [R.Entry(R.Prevote, 1, 0, First()), R.Entry(R.Precommit, 1, 0, First()), R.Entry(R.Precommit, 2, 0, Earlier())]
  }

  /** The votes of validators 2 and 3, in order. */
  function NewVotes(): (es: seq<R.Entry<Block>>)
    ensures |es| == 4
  {
    [R.Entry(R.Prevote, 2, 0, Earlier()), R.Entry(R.Timeout, 2, 0, First()),
     R.Entry(R.Prevote, 2, 1, Later()), R.Entry(R.Precommit, 2, 1, Later())]
  }

  lemma OldGranted(k: nat)
    requires k < 3
    ensures V.Attempt(Votes(OldVotes()[..k]), OldVotes()[k], None, R.Durable) == R.Granted(Votes(OldVotes()[..k + 1]))
    ensures OldVotes()[..k] + [OldVotes()[k]] == OldVotes()[..k + 1]
  {
    assert OldVotes()[..k] + [OldVotes()[k]] == OldVotes()[..k + 1];
    assert R.Lock(OldVotes()[..0], 1).None?;
  }

  lemma NewGranted(k: nat)
    requires k < 4
    ensures V.Attempt(Votes(NewVotes()[..k]), NewVotes()[k], None, R.Durable) == R.Granted(Votes(NewVotes()[..k + 1]))
    ensures NewVotes()[..k] + [NewVotes()[k]] == NewVotes()[..k + 1]
  {
    assert NewVotes()[..k] + [NewVotes()[k]] == NewVotes()[..k + 1];
    var es := NewVotes()[..k];
    assert k <= 2 ==> R.Lock(es, 2).None?;
  }

  /** Height 1 is certified by validator 1 and reaches 2 and 3, but not node 4. */
  lemma HandsOver() returns (evs: seq<Event>)
    ensures CarefulRun(Handover(), Init(), evs)
    ensures At(evs, 1, FinalFirst(LockFirst()), OldVotes()[..2]) && At(evs, 2, FinalFirst(map[]), NewVotes()[..0])
    ensures At(evs, 3, FinalFirst(map[]), NewVotes()[..0]) && At(evs, 4, Fresh(), []) && On(evs, 1, OldVotes()[1])
  {
    hide At, Sent, Wire, OldVotes, NewVotes, Exec, CarefulRun, Written, Intent, V.Attempt, First;
    OldGranted(0);
    OldGranted(1);
    PlansFirst();
    evs := [];
    Starts();
    AcceptsFirst(Wire(evs), 1);
    evs := Writes(evs, AcceptBlock(1, First()), 1, Fresh(), OldVotes()[..0], HeldFirst());
    evs := Signs(evs, 1, HeldFirst(), OldVotes()[..0], R.Prevote, OldVotes()[0], None);
    LocksFirst(Wire(evs));
    evs := Writes(evs, FormPol(1, 1, 0, First()), 1, HeldFirst(), OldVotes()[..1], HeldFirst().(pols := LockFirst()));
    evs := Signs(evs, 1, HeldFirst().(pols := LockFirst()), OldVotes()[..1], R.Precommit, OldVotes()[1], None);
    CertifiesFirst(Wire(evs), 1, LockFirst());
    evs := Writes(evs, TakeCert(1, 1, 0, First(), 0), 1, HeldFirst().(pols := LockFirst()), OldVotes()[..2],
                  FinalFirst(LockFirst()));
    assert On(evs, 1, OldVotes()[1]);
    evs := Follows1(evs, 2);
    evs := Follows1(evs, 3);
  }

  lemma Starts()
    ensures CarefulRun(Handover(), Init(), [])
    ensures At([], 1, Fresh(), OldVotes()[..0]) && At([], 2, Fresh(), NewVotes()[..0])
    ensures At([], 3, Fresh(), NewVotes()[..0]) && At([], 4, Fresh(), [])
  {
  }

  lemma Follows1(evs: seq<Event>, v: Address) returns (next: seq<Event>)
    requires At(evs, v, Fresh(), NewVotes()[..0]) && On(evs, 1, OldVotes()[1]) && CarefulRun(Handover(), Init(), evs)
    ensures At(next, v, FinalFirst(map[]), NewVotes()[..0]) && On(next, 1, OldVotes()[1]) && Moved(evs, next, v)
    ensures CarefulRun(Handover(), Init(), next)
  {
    hide At, Sent, Wire, OldVotes, NewVotes, Exec, CarefulRun, Written;
    AcceptsFirst(Wire(evs), v);
    next := Writes(evs, AcceptBlock(v, First()), v, Fresh(), NewVotes()[..0], HeldFirst());
    CertifiesFirst(Wire(next), v, map[]);
    next := Writes(next, TakeCert(v, 1, 0, First(), 0), v, HeldFirst(), NewVotes()[..0], FinalFirst(map[]));
  }

  /** Height 2: who holds what on top of `First`. */
  function HeldSecond(b: Block, pols: map<nat, PolRow>, rounds: set<(nat, nat)>): Db {
    Db(b, 1, map[1 := First()], pols, rounds)
  }

  lemma AcceptsEarlier(wire: set<Signed>, v: Address, pols: map<nat, PolRow>)
    requires 2 !in pols
    ensures WellFormed(FinalFirst(pols))
    ensures Written(Handover(), wire, FinalFirst(pols), AcceptBlock(v, Earlier())) == HeldSecond(Earlier(), pols, {})
  {
    assert CertifiedRounds(FinalFirst(pols), 2) == {};
  }

  lemma PlansEarlier(pols: map<nat, PolRow>)
    requires 2 in pols ==> pols[2] == PolRow(0, Earlier())
    ensures var db := HeldSecond(Earlier(), pols, {});
            && (2 !in pols ==> Intent(db, R.Prevote) == Some((NewVotes()[0], None)))
            && Intent(db, R.Timeout) == Some((NewVotes()[1], None))
            && (2 in pols ==> Intent(db, R.Precommit) == Some((OldVotes()[2], None)))
  {
    assert CertifiedRounds(HeldSecond(Earlier(), pols, {}), 2) == {};
  }

  lemma LocksEarlier(wire: set<Signed>)
    requires Sent(wire, 2, NewVotes()[0]) && Sent(wire, 3, NewVotes()[0])
    ensures Written(Handover(), wire, HeldSecond(Earlier(), LockFirst(), {}), FormPol(1, 2, 0, Earlier()))
            == HeldSecond(Earlier(), LockFirst()[2 := PolRow(0, Earlier())], {})
  {
    hide IsQuorum;
    SetsRead();
    NewQuorum(Prevoters(wire, 2, 0, Earlier()));
  }

  lemma TimesOut(wire: set<Signed>, v: Address)
    requires Sent(wire, 2, NewVotes()[1]) && Sent(wire, 3, NewVotes()[1])
    ensures Written(Handover(), wire, HeldSecond(Earlier(), map[], {}), FormRoundCert(v, 2, 0))
            == HeldSecond(Earlier(), map[], {(2, 0)})
    ensures SeesRound(Handover(), wire, HeldSecond(First(), map[], {(2, 0)}), 2, 0)
  {
    hide IsQuorum;
    SetsRead();
    NewQuorum(Timers(wire, 2, 0, First()));
  }

  lemma DropsEarlier(wire: set<Signed>, v: Address)
    ensures Written(Handover(), wire, HeldSecond(Earlier(), map[], {(2, 0)}), Revert(v, 1))
            == HeldSecond(First(), map[], {(2, 0)})
  {
    assert RevertTo(HeldSecond(Earlier(), map[], {(2, 0)}), 1) == HeldSecond(First(), map[], {(2, 0)});
  }

  lemma AcceptsLater(wire: set<Signed>, v: Address)
    requires SeesRound(Handover(), wire, HeldSecond(First(), map[], {(2, 0)}), 2, 0)
    ensures Written(Handover(), wire, HeldSecond(First(), map[], {(2, 0)}), AcceptBlock(v, Later()))
            == HeldSecond(Later(), map[], {(2, 0)})
  {
    hide SeesRound, CurrentRound;
    OneRound(First());
  }

  lemma OneRound(b: Block)
    ensures forall pols :: CurrentRound(HeldSecond(b, pols, {(2, 0)}), 2) == 1
  {
    forall pols ensures CurrentRound(HeldSecond(b, pols, {(2, 0)}), 2) == 1 {
      assert (2, 0) in HeldSecond(b, pols, {(2, 0)}).roundCerts;
    }
  }

  function LockLater(): map<nat, PolRow> { map[2 := PolRow(1, Later())] }

  lemma PlansLater()
    ensures Intent(HeldSecond(Later(), map[], {(2, 0)}), R.Prevote)
            == Some((NewVotes()[2], None))
    ensures Intent(HeldSecond(Later(), LockLater(), {(2, 0)}), R.Precommit)
            == Some((NewVotes()[3], None))
  {
    OneRound(Later());
  }

  lemma LocksLater(wire: set<Signed>, v: Address)
    requires Sent(wire, 2, NewVotes()[2]) && Sent(wire, 3, NewVotes()[2])
    ensures Written(Handover(), wire, HeldSecond(Later(), map[], {(2, 0)}), FormPol(v, 2, 1, Later()))
            == HeldSecond(Later(), LockLater(), {(2, 0)})
  {
    hide IsQuorum;
    SetsRead();
    NewQuorum(Prevoters(wire, 2, 1, Later()));
  }

  lemma CertifiesLater(wire: set<Signed>)
    requires Sent(wire, 2, NewVotes()[3]) && Sent(wire, 3, NewVotes()[3])
    ensures Written(Handover(), wire, HeldSecond(Later(), LockLater(), {(2, 0)}), TakeCert(2, 2, 1, Later(), 0))
            == FinalLater()
    ensures SeesCert(Handover(), wire, Forked(), 2, 1, Later(), 0)
  {
    hide StoreCert, SeesCert;
    LaterSeen(wire);
    LaterMark();
  }

  lemma LaterSeen(wire: set<Signed>)
    requires Sent(wire, 2, NewVotes()[3]) && Sent(wire, 3, NewVotes()[3])
    ensures SeesCert(Handover(), wire, HeldSecond(Later(), LockLater(), {(2, 0)}), 2, 1, Later(), 0)
    ensures SeesCert(Handover(), wire, Forked(), 2, 1, Later(), 0)
  {
    hide IsQuorum;
    SetsRead();
    NewQuorum(Precommitters(wire, 2, 1, Later(), 0));
  }

  lemma LaterMark()
    ensures StoreCert(HeldSecond(Later(), LockLater(), {(2, 0)}), 2, Later()) == FinalLater()
  {
    var certs := map[1 := First(), 2 := Later()];
    assert HeldSecond(Later(), LockLater(), {(2, 0)}).certs[2 := Later()] == certs;
    assert AdvanceMark(Later(), certs, 2) == 2;
  }

  /** Where validators 2 and 3 end up. */
  function FinalLater(): Db { Db(Later(), 2, map[1 := First(), 2 := Later()], LockLater(), {(2, 0)}) }

  /** Where node 4 ends up, one block further. */
  function Forked(): Db { Db(Child(Earlier(), 0, 0), 2, map[1 := First(), 2 := Earlier()], map[], {}) }

  /** Node 4 has not seen the handover, so for it validator 1 alone is a quorum at height 2. */
  lemma CertifiesEarlier(wire: set<Signed>)
    requires Sent(wire, 1, OldVotes()[2])
    ensures Written(Handover(), wire, Fresh(), TakeCert(4, 2, 0, Earlier(), 0)) == Misled(Genesis)
  {
    hide IsQuorum;
    SetsRead();
    OldQuorum(Precommitters(wire, 2, 0, Earlier(), 0));
  }

  /** Node 4 with a record for `Earlier` and nothing final. */
  function Misled(tip: Block): Db { Db(tip, 0, map[2 := Earlier()], map[], {}) }

  /** The prevotes for `Earlier` reach validator 1 only, which precommits it: it is not asked whether
      it is still in the set. */
  lemma OldPrecommits(start: seq<Event>) returns (evs: seq<Event>)
    requires CarefulRun(Handover(), Init(), start)
    requires At(start, 1, FinalFirst(LockFirst()), OldVotes()[..2]) && At(start, 2, FinalFirst(map[]), NewVotes()[..0])
    requires At(start, 3, FinalFirst(map[]), NewVotes()[..0]) && At(start, 4, Fresh(), [])
    requires On(start, 1, OldVotes()[1])
    ensures CarefulRun(Handover(), Init(), evs) && On(evs, 1, OldVotes()[1]) && On(evs, 1, OldVotes()[2])
    ensures At(evs, 2, HeldSecond(Earlier(), map[], {}), NewVotes()[..1])
    ensures At(evs, 3, HeldSecond(Earlier(), map[], {}), NewVotes()[..1]) && At(evs, 4, Fresh(), [])
  {
    hide At, Sent, Wire, OldVotes, NewVotes, Exec, CarefulRun, Written, Intent, V.Attempt, First;
    evs := PrevotesEarlier(start, 2);
    evs := PrevotesEarlier(evs, 3);
    var pols := LockFirst();
    var locked := LockFirst()[2 := PolRow(0, Earlier())];
    AcceptsEarlier(Wire(evs), 1, pols);
    evs := Writes(evs, AcceptBlock(1, Earlier()), 1, FinalFirst(pols), OldVotes()[..2],
                  HeldSecond(Earlier(), pols, {}));
    LocksEarlier(Wire(evs));
    evs := Writes(evs, FormPol(1, 2, 0, Earlier()), 1, HeldSecond(Earlier(), pols, {}), OldVotes()[..2],
                  HeldSecond(Earlier(), locked, {}));
    PlansEarlier(locked);
    OldGranted(2);
    evs := Signs(evs, 1, HeldSecond(Earlier(), locked, {}), OldVotes()[..2], R.Precommit, OldVotes()[2], None);
  }

  lemma PrevotesEarlier(evs: seq<Event>, v: Address) returns (next: seq<Event>)
    requires CarefulRun(Handover(), Init(), evs) && At(evs, v, FinalFirst(map[]), NewVotes()[..0])
    ensures CarefulRun(Handover(), Init(), next) && Moved(evs, next, v) && On(next, v, NewVotes()[0])
    ensures At(next, v, HeldSecond(Earlier(), map[], {}), NewVotes()[..1])
  {
    hide At, Sent, Wire, OldVotes, NewVotes, Exec, CarefulRun, Written, Intent, V.Attempt, First;
    AcceptsEarlier(Wire(evs), v, map[]);
    next := Writes(evs, AcceptBlock(v, Earlier()), v, FinalFirst(map[]), NewVotes()[..0],
                   HeldSecond(Earlier(), map[], {}));
    PlansEarlier(map[]);
    NewGranted(0);
    next := Signs(next, v, HeldSecond(Earlier(), map[], {}), NewVotes()[..0], R.Prevote, NewVotes()[0], None);
  }

  /** Validators 2 and 3 see no quorum in round 0 and time it out. */
  lemma NewMoveOn(start: seq<Event>) returns (evs: seq<Event>)
    requires CarefulRun(Handover(), Init(), start) && On(start, 1, OldVotes()[1]) && On(start, 1, OldVotes()[2])
    requires At(start, 2, HeldSecond(Earlier(), map[], {}), NewVotes()[..1])
    requires At(start, 3, HeldSecond(Earlier(), map[], {}), NewVotes()[..1]) && At(start, 4, Fresh(), [])
    ensures CarefulRun(Handover(), Init(), evs) && On(evs, 1, OldVotes()[1]) && On(evs, 1, OldVotes()[2])
    ensures On(evs, 2, NewVotes()[1]) && On(evs, 3, NewVotes()[1]) && At(evs, 4, Fresh(), [])
    ensures At(evs, 2, HeldSecond(First(), map[], {(2, 0)}), NewVotes()[..2])
    ensures At(evs, 3, HeldSecond(First(), map[], {(2, 0)}), NewVotes()[..2])
  {
    hide At, Sent, Wire, OldVotes, NewVotes, Exec, CarefulRun, Written, Intent, V.Attempt, First, HeldSecond;
    evs := SignsTimeout(start, 2);
    evs := SignsTimeout(evs, 3);
    evs := LeavesRound(evs, 2);
    evs := LeavesRound(evs, 3);
  }

  /** They certify `Later` in round 1. */
  lemma NewCertify(start: seq<Event>) returns (evs: seq<Event>)
    requires CarefulRun(Handover(), Init(), start) && On(start, 1, OldVotes()[1]) && On(start, 1, OldVotes()[2])
    requires On(start, 2, NewVotes()[1]) && On(start, 3, NewVotes()[1]) && At(start, 4, Fresh(), [])
    requires At(start, 2, HeldSecond(First(), map[], {(2, 0)}), NewVotes()[..2])
    requires At(start, 3, HeldSecond(First(), map[], {(2, 0)}), NewVotes()[..2])
    ensures CarefulRun(Handover(), Init(), evs) && On(evs, 1, OldVotes()[1]) && On(evs, 1, OldVotes()[2])
    ensures On(evs, 2, NewVotes()[3]) && On(evs, 3, NewVotes()[3])
    ensures At(evs, 2, FinalLater(), NewVotes()) && At(evs, 4, Fresh(), [])
  {
    hide At, Sent, Wire, OldVotes, NewVotes, Exec, CarefulRun, Written, Intent, V.Attempt, First, HeldSecond, Settled,
      SeesCert;
    evs := PrevotesLater(start, 2);
    evs := PrevotesLater(evs, 3);
    evs := LocksAndSigns(evs, 2);
    evs := LocksAndSigns(evs, 3);
    CertifiesLater(Wire(evs));
    SecondSettled(Later(), LockLater(), {(2, 0)});
    evs := Writes(evs, TakeCert(2, 2, 1, Later(), 0), 2, HeldSecond(Later(), LockLater(), {(2, 0)}), NewVotes(),
                  FinalLater());
  }

  lemma SecondSettled(b: Block, pols: map<nat, PolRow>, rounds: set<(nat, nat)>)
    requires Height(b) >= 1
    ensures var db := HeldSecond(b, pols, rounds); WellFormed(db) && Settled(Handover(), db, 2)
    ensures Height(First()) == 1 && Height(Earlier()) == 2 && Height(Later()) == 2
  {
  }

  lemma SignsTimeout(evs: seq<Event>, v: Address) returns (next: seq<Event>)
    requires CarefulRun(Handover(), Init(), evs) && At(evs, v, HeldSecond(Earlier(), map[], {}), NewVotes()[..1])
    ensures CarefulRun(Handover(), Init(), next) && Moved(evs, next, v) && On(next, v, NewVotes()[1])
    ensures At(next, v, HeldSecond(Earlier(), map[], {}), NewVotes()[..2])
  {
    hide At, Sent, Wire, OldVotes, NewVotes, Exec, CarefulRun, Written, Intent, V.Attempt, First;
    PlansEarlier(map[]);
    NewGranted(1);
    next := Signs(evs, v, HeldSecond(Earlier(), map[], {}), NewVotes()[..1], R.Timeout, NewVotes()[1], None);
  }

  lemma LeavesRound(evs: seq<Event>, v: Address) returns (next: seq<Event>)
    requires CarefulRun(Handover(), Init(), evs) && At(evs, v, HeldSecond(Earlier(), map[], {}), NewVotes()[..2])
    requires On(evs, 2, NewVotes()[1]) && On(evs, 3, NewVotes()[1])
    ensures CarefulRun(Handover(), Init(), next) && Moved(evs, next, v)
    ensures At(next, v, HeldSecond(First(), map[], {(2, 0)}), NewVotes()[..2])
  {
    hide At, Sent, Wire, OldVotes, NewVotes, Exec, CarefulRun, Written, Intent, V.Attempt, First, HeldSecond, Settled;
    SecondSettled(Earlier(), map[], {});
    TimesOut(Wire(evs), v);
    next := Writes(evs, FormRoundCert(v, 2, 0), v, HeldSecond(Earlier(), map[], {}), NewVotes()[..2],
                   HeldSecond(Earlier(), map[], {(2, 0)}));
    SecondSettled(Earlier(), map[], {(2, 0)});
    DropsEarlier(Wire(next), v);
    next := Writes(next, Revert(v, 1), v, HeldSecond(Earlier(), map[], {(2, 0)}), NewVotes()[..2],
                   HeldSecond(First(), map[], {(2, 0)}));
  }

  lemma PrevotesLater(evs: seq<Event>, v: Address) returns (next: seq<Event>)
    requires CarefulRun(Handover(), Init(), evs) && At(evs, v, HeldSecond(First(), map[], {(2, 0)}), NewVotes()[..2])
    requires On(evs, 2, NewVotes()[1]) && On(evs, 3, NewVotes()[1])
    ensures CarefulRun(Handover(), Init(), next) && Moved(evs, next, v) && On(next, v, NewVotes()[2])
    ensures At(next, v, HeldSecond(Later(), map[], {(2, 0)}), NewVotes()[..3])
  {
    hide At, Sent, Wire, OldVotes, NewVotes, Exec, CarefulRun, Written, Intent, V.Attempt, First, HeldSecond, Settled,
      SeesRound;
    SecondSettled(Later(), map[], {(2, 0)});
    SecondSettled(First(), map[], {(2, 0)});
    TimesOut(Wire(evs), v);
    AcceptsLater(Wire(evs), v);
    next := Writes(evs, AcceptBlock(v, Later()), v, HeldSecond(First(), map[], {(2, 0)}), NewVotes()[..2],
                   HeldSecond(Later(), map[], {(2, 0)}));
    PlansLater();
    NewGranted(2);
    next := Signs(next, v, HeldSecond(Later(), map[], {(2, 0)}), NewVotes()[..2], R.Prevote, NewVotes()[2], None);
  }

  lemma LocksAndSigns(evs: seq<Event>, v: Address) returns (next: seq<Event>)
    requires CarefulRun(Handover(), Init(), evs) && At(evs, v, HeldSecond(Later(), map[], {(2, 0)}), NewVotes()[..3])
    requires On(evs, 2, NewVotes()[2]) && On(evs, 3, NewVotes()[2])
    ensures CarefulRun(Handover(), Init(), next) && Moved(evs, next, v) && On(next, v, NewVotes()[3])
    ensures At(next, v, HeldSecond(Later(), LockLater(), {(2, 0)}), NewVotes())
  {
    hide At, Sent, Wire, OldVotes, NewVotes, Exec, CarefulRun, Written, Intent, V.Attempt, First, HeldSecond;
    SecondSettled(Later(), map[], {(2, 0)});
    LocksLater(Wire(evs), v);
    next := Writes(evs, FormPol(v, 2, 1, Later()), v, HeldSecond(Later(), map[], {(2, 0)}), NewVotes()[..3],
                   HeldSecond(Later(), LockLater(), {(2, 0)}));
    SecondSettled(Later(), LockLater(), {(2, 0)});
    PlansLater();
    NewGranted(3);
    assert NewVotes()[..4] == NewVotes();
    next := Signs(next, v, HeldSecond(Later(), LockLater(), {(2, 0)}), NewVotes()[..3],
                  R.Precommit, NewVotes()[3], None);
  }

  /** Agreement fails on the code's own guards: no validator is Byzantine, every event but the last
      happens at a settled height, and two honest nodes end up with finality records for different
      blocks at one height. The last event is a node that has not executed the handover counting a
      precommit of a validator that has left. */
  lemma StaleSetSplits() returns (evs: seq<Event>, last: Event)
    ensures var s := Handover();
            && s.Valid() && s.faulty == {} && Initial(s, Init())
            && CarefulRun(s, Init(), evs) && !Careful(s, Exec(s, Init(), evs), last)
    ensures var sys := Exec(Handover(), Init(), evs + [last]);
            && 2 in sys.nodes && 4 in sys.nodes
            && 2 in sys.nodes[2].db.certs && 2 in sys.nodes[4].db.certs
            && sys.nodes[2].db.certs[2] != sys.nodes[4].db.certs[2]
    ensures var all := evs + [last];
            && At(all, 2, FinalLater(), NewVotes()) && At(all, 4, Misled(Genesis), []) && On(all, 1, OldVotes()[1])
            && On(all, 2, NewVotes()[3]) && On(all, 3, NewVotes()[3])
  {
    hide At, Sent, Wire, OldVotes, NewVotes, Exec, CarefulRun, Written, HeldSecond;
    HandoverValid();
    evs := HandsOver();
    evs := OldPrecommits(evs);
    evs := NewMoveOn(evs);
    evs := NewCertify(evs);
    last := TakeCert(4, 2, 0, Earlier(), 0);
    CertifiesEarlier(Wire(evs));
    NotSettled(evs, last);
    var all := Writes(evs, last, 4, Fresh(), [], Misled(Genesis));
    Diverged(all);
  }

  lemma NotSettled(evs: seq<Event>, last: Event)
    requires At(evs, 4, Fresh(), []) && last == TakeCert(4, 2, 0, Earlier(), 0)
    ensures !Careful(Handover(), Exec(Handover(), Init(), evs), last)
  {
    hide Exec;
    assert Handover().boundary(1);
  }

  lemma Diverged(evs: seq<Event>)
    requires At(evs, 2, FinalLater(), NewVotes()) && At(evs, 4, Misled(Genesis), [])
    ensures var sys := Exec(Handover(), Init(), evs);
            && 2 in sys.nodes && 4 in sys.nodes
            && 2 in sys.nodes[2].db.certs && 2 in sys.nodes[4].db.certs
            && sys.nodes[2].db.certs[2] != sys.nodes[4].db.certs[2]
  {
    hide Exec;
  }

  lemma MisledAccepts(wire: set<Signed>)
    ensures Written(Handover(), wire, Misled(Genesis), AcceptBlock(4, First())) == Misled(First())
    ensures Written(Handover(), wire, MisledOn(First()), AcceptBlock(4, Earlier())) == MisledOn(Earlier())
  {
    hide SeesRound;
    assert CertifiedRounds(Misled(Genesis), 1) == {};
    assert AdvanceMark(First(), map[1 := First(), 2 := Earlier()], 1) == 1;
  }

  lemma MisledCertifies(wire: set<Signed>)
    requires Sent(wire, 1, OldVotes()[1])
    ensures Written(Handover(), wire, Misled(First()), TakeCert(4, 1, 0, First(), 0)) == MisledOn(First())
  {
    hide IsQuorum, StoreCert;
    assert SeesCert(Handover(), wire, Misled(First()), 1, 0, First(), 0) by {
      SetsRead();
      OldQuorum(Precommitters(wire, 1, 0, First(), 0));
    }
    MisledMark();
  }

  lemma MisledMark()
    ensures StoreCert(Misled(First()), 1, First()) == MisledOn(First())
  {
    var certs := map[1 := First(), 2 := Earlier()];
    assert Misled(First()).certs[1 := First()] == certs;
    assert AdvanceMark(First(), certs, 1) == 1;
  }

  function MisledOn(tip: Block): Db { Db(tip, 1, map[1 := First(), 2 := Earlier()], map[], {}) }

  lemma Finalizes(wire: set<Signed>)
    ensures Written(Handover(), wire, MisledOn(Earlier()), AcceptBlock(4, Child(Earlier(), 0, 0))) == Forked()
  {
    assert CertifiedRounds(MisledOn(Earlier()), 3) == {};
    assert AdvanceMark(Earlier(), map[1 := First(), 2 := Earlier()], 2) == 2;
  }

  lemma ForksApart()
    ensures !IsPrefix(Final(FinalLater()), Final(Forked())) && !IsPrefix(Final(Forked()), Final(FinalLater()))
    ensures WellFormed(Misled(Genesis)) && WellFormed(Misled(First())) && WellFormed(MisledOn(First()))
    ensures WellFormed(MisledOn(Earlier()))
  {
    assert Final(Forked()) == Earlier() && Final(FinalLater()) == Later();
  }

  /** The split reaches the finalized chains: once node 4 holds the blocks, its watermark passes
      `Earlier` while validator 2's passed `Later`. */
  lemma StaleSetForks() returns (evs: seq<Event>)
    ensures At(evs, 2, FinalLater(), NewVotes()) && At(evs, 4, Forked(), [])
    ensures !IsPrefix(Final(FinalLater()), Final(Forked())) && !IsPrefix(Final(Forked()), Final(FinalLater()))
    ensures SeesCert(Handover(), Wire(evs), Forked(), 2, 1, Later(), 0)
    ensures On(evs, 2, NewVotes()[3]) && On(evs, 3, NewVotes()[3])
  {
    ForksApart();
    hide At, Sent, Wire, OldVotes, NewVotes, Exec, CarefulRun, Written, SeesCert, IsPrefix, Ancestor, Height, Forked,
      FinalLater, WellFormed;
    var start, last := StaleSetSplits();
    evs := start + [last];
    MisledAccepts(Wire(evs));
    evs := Writes(evs, AcceptBlock(4, First()), 4, Misled(Genesis), [], Misled(First()));
    MisledCertifies(Wire(evs));
    evs := Writes(evs, TakeCert(4, 1, 0, First(), 0), 4, Misled(First()), [], MisledOn(First()));
    MisledAccepts(Wire(evs));
    evs := Writes(evs, AcceptBlock(4, Earlier()), 4, MisledOn(First()), [], MisledOn(Earlier()));
    Finalizes(Wire(evs));
    evs := Writes(evs, AcceptBlock(4, Child(Earlier(), 0, 0)), 4, MisledOn(Earlier()), [], Forked());
    CertifiesLater(Wire(evs));
  }
}

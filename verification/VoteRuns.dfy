/** The vote record over whole runs: any interleaving of claims, prunes, failed writes and restarts
    under one genesis. */
module VoteRuns {
  import opened TextFormat
  import opened VoteRecord

  datatype Event<H> =
    | DoClaim(entry: Entry<H>, pol: Option<nat>, write: Write)
    | DoPrune(cutoff: nat, write: Write)
    | Restart

  /** The record and every claim that ever returned `Ok`, oldest first. */
  datatype Run<H> = Run(store: Store<H>, granted: seq<Entry<H>>)

  /** `claim_prevote` for a prevote, `claim_precommit` or `claim_timeout` otherwise. */
  function Attempt<H(==,!new)>(st: Store<H>, e: Entry<H>, pol: Option<nat>, write: Write): Outcome<H> {
    if e.kind.Prevote? then ClaimPrevote(st, e.height, e.round, e.hash, pol, write) else Claim(st, e, write)
  }

  function After<H>(run: Run<H>, e: Entry<H>, out: Outcome<H>): Run<H> {
    Run(out.store, if out.Granted? then run.granted + [e] else run.granted)
  }

  function Next<H(==,!new)>(run: Run<H>, ev: Event<H>): Run<H> {
    match ev
    case DoClaim(e, pol, write) => After(run, e, Attempt(run.store, e, pol, write))
    case DoPrune(cutoff, write) => run.(store := Prune(run.store, cutoff, write))
    case Restart => run.(store := Reload(run.store))
  }

  function Exec<H(==,!new)>(run: Run<H>, evs: seq<Event<H>>): Run<H> {
    if evs == [] then run else Next(Exec(run, evs[..|evs| - 1]), evs[|evs| - 1])
  }

  function Start<H(!new)>(): Run<H> { Run(Store(Empty(), Empty()), []) }

  // ----- the invariant

  /** Every entry was a fresh claim against the entries before it. */
  ghost predicate Legal<H(!new)>(rec: Record<H>)
    decreases |rec.entries|
  {
    rec.entries == [] || (Legal(Front(rec)) && Check(Front(rec), rec.entries[|rec.entries| - 1]) == Fresh)
  }

  /** All entries but the last. */
  function Front<H(!new)>(rec: Record<H>): (front: Record<H>)
    requires rec.entries != []
    ensures |front.entries| == |rec.entries| - 1
  {
    rec.(entries := rec.entries[..|rec.entries| - 1])
  }

  /** A restart finds everything memory holds, plus at most one torn claim. */
  ghost predicate Matches<H(!new)>(st: Store<H>) {
    && st.disk.floor <= st.mem.floor
    && (|| Above(st.disk.entries, st.mem.floor) == st.mem.entries
        || exists e :: Above(st.disk.entries, st.mem.floor) == Appended(st.mem, e).entries)
  }

  /** `g` can no longer be contradicted: it is on record, or its height is closed. */
  ghost predicate Kept<H(!new)>(rec: Record<H>, g: Entry<H>) {
    g in rec.entries || g.height <= rec.floor
  }

  predicate SameSlot<H>(a: Entry<H>, b: Entry<H>) {
    a.kind == b.kind && a.height == b.height && a.round == b.round
  }

  ghost predicate StoreInv<H(!new)>(st: Store<H>) {
    Legal(st.mem) && Legal(st.disk) && Matches(st)
  }

  ghost predicate GrantInv<H(!new)>(run: Run<H>) {
    && (forall g :: g in run.granted ==> Kept(run.store.mem, g) && Kept(run.store.disk, g))
    && (forall a, b :: a in run.granted && b in run.granted && SameSlot(a, b) ==> a == b)
  }

  ghost predicate Inv<H(!new)>(run: Run<H>) {
    StoreInv(run.store) && GrantInv(run)
  }

  lemma {:induction false} AboveConcat<H(!new)>(a: seq<Entry<H>>, b: seq<Entry<H>>, floor: nat)
    ensures Above(a + b, floor) == Above(a, floor) + Above(b, floor)
  {
    if a == [] {
      assert a + b == b;
    } else {
      assert (a + b)[0] == a[0] && (a + b)[1..] == a[1..] + b;
      AboveConcat(a[1..], b, floor);
    }
  }

  lemma AboveLast<H(!new)>(es: seq<Entry<H>>, floor: nat)
    requires es != []
    ensures var n := |es| - 1;
            Above(es, floor) == Above(es[..n], floor) + (if es[n].height > floor then [es[n]] else [])
  {
    var n := |es| - 1;
    AboveConcat(es[..n], [es[n]], floor);
    assert es[..n] + [es[n]] == es;
  }

  lemma {:induction false} AboveTwice<H(!new)>(es: seq<Entry<H>>, low: nat, high: nat)
    requires low <= high
    ensures Above(Above(es, low), high) == Above(es, high)
  {
    if es != [] {
      AboveTwice(es[1..], low, high);
      AboveConcat(if es[0].height > low then [es[0]] else [], Above(es[1..], low), high);
    }
  }

  lemma {:induction false} AboveAll<H(!new)>(es: seq<Entry<H>>, floor: nat)
    requires forall e :: e in es ==> e.height > floor
    ensures Above(es, floor) == es
  {
    if es != [] {
      AboveAll(es[1..], floor);
    }
  }

  lemma AboveOne<H(!new)>(e: Entry<H>, floor: nat)
    ensures Above([e], floor) == if e.height > floor then [e] else []
  {
  }

  /** A claim is only ever judged against entries of its own height. */
  lemma FreshAbove<H(!new)>(rec: Record<H>, e: Entry<H>, floor: nat)
    requires Check(rec, e) == Fresh && rec.floor <= floor < e.height
    ensures Check(Record(floor, Above(rec.entries, floor)), e) == Fresh
  {
  }

  /** Raising the floor keeps the history legal. */
  lemma {:induction false} LegalAbove<H(!new)>(rec: Record<H>, floor: nat)
    requires Legal(rec) && rec.floor <= floor
    ensures Legal(Record(floor, Above(rec.entries, floor)))
    decreases |rec.entries|
  {
    if rec.entries != [] {
      var last := rec.entries[|rec.entries| - 1];
      LegalAbove(Front(rec), floor);
      AboveLast(rec.entries, floor);
      var kept := Record(floor, Above(Front(rec).entries, floor));
      if last.height > floor {
        FreshAbove(Front(rec), last, floor);
        LegalAppend(kept, last);
      } else {
        assert Above(rec.entries, floor) == kept.entries;
      }
    }
  }

  lemma LegalAppend<H(!new)>(rec: Record<H>, e: Entry<H>)
    requires Legal(rec) && Check(rec, e) == Fresh
    ensures Legal(Appended(rec, e))
  {
    assert Front(Appended(rec, e)).entries == rec.entries;
  }

  lemma InFront<H(!new)>(rec: Record<H>, e: Entry<H>)
    requires e in rec.entries
    ensures e == rec.entries[|rec.entries| - 1] || e in Front(rec).entries
  {
  }

  /** The last entry found its slot free, above the floor. */
  lemma LastAlone<H(!new)>(rec: Record<H>, e: Entry<H>)
    requires Legal(rec) && e in rec.entries
    ensures var last := rec.entries[|rec.entries| - 1];
            last.height > rec.floor && (SameSlot(e, last) ==> e == last)
  {
    InFront(rec, e);
  }

  /** A legal record holds one hash per slot, all above its floor. */
  lemma {:induction false} OnePerSlot<H(!new)>(rec: Record<H>, a: Entry<H>, b: Entry<H>)
    requires Legal(rec) && a in rec.entries && b in rec.entries
    requires SameSlot(a, b)
    ensures a == b && a.height > rec.floor
    decreases |rec.entries|
  {
    var last := rec.entries[|rec.entries| - 1];
    InFront(rec, a);
    InFront(rec, b);
    if a != last && b != last {
      OnePerSlot(Front(rec), a, b);
    } else {
      LastAlone(rec, a);
      LastAlone(rec, b);
    }
  }

  lemma AllAbove<H(!new)>(rec: Record<H>)
    requires Legal(rec)
    ensures Above(rec.entries, rec.floor) == rec.entries
  {
    forall e | e in rec.entries ensures e.height > rec.floor {
      OnePerSlot(rec, e, e);
    }
    AboveAll(rec.entries, rec.floor);
  }

  lemma FreshKeeps<H(!new)>(st: Store<H>, e: Entry<H>)
    requires StoreInv(st) && Check(st.mem, e) == Fresh
    ensures StoreInv(Store(Appended(st.mem, e), Appended(st.mem, e)))
    ensures StoreInv(Store(st.mem, Appended(st.mem, e)))
  {
    LegalAppend(st.mem, e);
    AllAbove(Appended(st.mem, e));
  }

  /** Whatever memory records, a restart finds too. */
  lemma MemOnDisk<H(!new)>(st: Store<H>, e: Entry<H>)
    requires Matches(st) && e in st.mem.entries
    ensures e in st.disk.entries
  {
    assert e in Above(st.disk.entries, st.mem.floor);
  }

  lemma RepeatKeeps<H(!new)>(run: Run<H>, e: Entry<H>)
    requires Inv(run) && Check(run.store.mem, e) == Repeat
    ensures GrantInv(Run(run.store, run.granted + [e]))
  {
    hide Legal, Matches;
    var mem := run.store.mem;
    RepeatHeld(mem, e);
    MemOnDisk(run.store, e);
    forall g | g in run.granted && SameSlot(g, e) ensures g == e {
      assert Kept(mem, g);
      OnePerSlot(mem, g, e);
    }
  }

  lemma RepeatHeld<H(!new)>(rec: Record<H>, e: Entry<H>)
    requires Check(rec, e) == Repeat
    ensures e in rec.entries && e.height > rec.floor
  {
  }

  lemma FreshGrant<H(!new)>(run: Run<H>, e: Entry<H>)
    requires Inv(run) && Check(run.store.mem, e) == Fresh
    ensures var rec := Appended(run.store.mem, e);
            GrantInv(Run(Store(rec, rec), run.granted + [e])) && GrantInv(Run(Store(run.store.mem, rec), run.granted))
  {
  }

  /** Every way a claim can end. */
  ghost predicate ClaimShape<H(!new)>(st: Store<H>, e: Entry<H>, out: Outcome<H>) {
    var rec := Appended(st.mem, e);
    || (out.Refused? && out.store == st)
    || (Check(st.mem, e) == Repeat && out == Granted(st))
    || (Check(st.mem, e) == Fresh && out == Granted(Store(rec, rec)))
    || (Check(st.mem, e) == Fresh && out.Refused? && out.store == Store(st.mem, rec))
  }

  lemma AttemptShape<H(!new)>(st: Store<H>, e: Entry<H>, pol: Option<nat>, write: Write)
    ensures ClaimShape(st, e, Attempt(st, e, pol, write))
  {
  }

  lemma ClaimKeeps<H(!new)>(run: Run<H>, e: Entry<H>, out: Outcome<H>)
    requires Inv(run) && ClaimShape(run.store, e, out)
    ensures Inv(After(run, e, out))
  {
    if Check(run.store.mem, e) == Repeat {
      RepeatKeeps(run, e);
    } else if Check(run.store.mem, e) == Fresh {
      FreshKeeps(run.store, e);
      FreshGrant(run, e);
    }
  }

  lemma PruneMatches<H(!new)>(st: Store<H>, floor: nat)
    requires Matches(st) && floor > st.mem.floor
    ensures Matches(Store(Record(floor, Above(st.mem.entries, floor)), st.disk))
  {
    AboveTwice(st.disk.entries, st.mem.floor, floor);
    if Above(st.disk.entries, st.mem.floor) != st.mem.entries {
      var e :| Above(st.disk.entries, st.mem.floor) == Appended(st.mem, e).entries;
      AboveConcat(st.mem.entries, [e], floor);
      AboveOne(e, floor);
      hide Above;
      if e.height > floor {
        assert Above(st.disk.entries, floor) == Appended(Record(floor, Above(st.mem.entries, floor)), e).entries;
      } else {
        assert Above(st.disk.entries, floor) == Above(st.mem.entries, floor);
      }
    }
  }

  lemma PruneKeeps<H(!new)>(run: Run<H>, cutoff: nat, write: Write)
    requires Inv(run)
    ensures Inv(Next(run, DoPrune(cutoff, write)))
  {
    hide Legal, Matches, Above, Kept;
    var floor := if cutoff == 0 then 0 else cutoff - 1;
    if floor > run.store.mem.floor {
      var rec := Record(floor, Above(run.store.mem.entries, floor));
      LegalAbove(run.store.mem, floor);
      PruneMatches(run.store, floor);
      SelfMatches(rec);
      forall g | g in run.granted ensures Kept(rec, g) {
        KeptAbove(run.store.mem, g, floor);
      }
    }
  }

  lemma KeptAbove<H(!new)>(rec: Record<H>, g: Entry<H>, floor: nat)
    requires Kept(rec, g) && rec.floor <= floor
    ensures Kept(Record(floor, Above(rec.entries, floor)), g)
  {
  }

  lemma SelfMatches<H(!new)>(rec: Record<H>)
    requires Legal(rec)
    ensures Matches(Store(rec, rec))
  {
    hide Legal;
    AllAbove(rec);
  }

  lemma RestartKeeps<H(!new)>(run: Run<H>)
    requires Inv(run)
    ensures Inv(Next(run, Restart))
  {
    hide Legal, Matches, Kept;
    SelfMatches(run.store.disk);
  }

  lemma {:induction false} ExecKeeps<H(!new)>(evs: seq<Event<H>>)
    ensures Inv(Exec(Start(), evs))
  {
    if evs != [] {
      var before := evs[..|evs| - 1];
      ExecKeeps(before);
      match evs[|evs| - 1]
      case DoClaim(e, pol, write) =>
        var st := Exec(Start(), before).store;
        AttemptShape(st, e, pol, write);
        ClaimKeeps(Exec(Start(), before), e, Attempt(st, e, pol, write));
      case DoPrune(cutoff, write) => PruneKeeps(Exec(Start(), before), cutoff, write);
      case Restart => RestartKeeps(Exec(Start(), before));
    }
  }

  lemma ExecOne<H(!new)>(run: Run<H>, ev: Event<H>)
    ensures Exec(run, [ev]) == Next(run, ev)
  {
    assert [ev][..0] == [];
  }

  lemma {:induction false} ExecConcat<H(!new)>(run: Run<H>, a: seq<Event<H>>, b: seq<Event<H>>)
    ensures Exec(run, a + b) == Exec(Exec(run, a), b)
    decreases |b|
  {
    if b == [] {
      assert a + b == a;
    } else {
      assert (a + b)[..|a + b| - 1] == a + b[..|b| - 1];
      ExecConcat(run, a, b[..|b| - 1]);
    }
  }

  // ----- what holds over every run

  /** V1 for good: no run ever grants two hashes for one `(kind, height, round)`. */
  lemma OneHashPerSlot<H(!new)>(evs: seq<Event<H>>, a: Entry<H>, b: Entry<H>)
    requires a in Exec(Start(), evs).granted && b in Exec(Start(), evs).granted && SameSlot(a, b)
    ensures a == b
  {
    ExecKeeps(evs);
  }

  /** V2, exactly: in a round already timed out or voted past, a prevote or precommit is granted
      if and only if that same vote is already on record (and, for a prevote, the lock allows it). */
  lemma GrantedAfterLeaving<H(!new)>(evs: seq<Event<H>>, e: Entry<H>, pol: Option<nat>, write: Write)
    requires !e.kind.Timeout? && LeftRound(Exec(Start(), evs).store.mem.entries, e.height, e.round)
    requires e.kind.Prevote? ==> LockAllows(Exec(Start(), evs).store.mem, e.height, e.round, e.hash, pol)
    ensures Attempt(Exec(Start(), evs).store, e, pol, write).Granted? <==> e in Exec(Start(), evs).store.mem.entries
  {
    ExecKeeps(evs);
    var rec := Exec(Start(), evs).store.mem;
    if e in rec.entries {
      OnePerSlot(rec, e, e);
      var first := AtSlot(rec.entries, e.kind, e.height, e.round).value;
      OnePerSlot(rec, first, e);
    }
  }

  // ----- exactly what is granted

  /** `x` is a precommit at `h` of the highest round on record there. */
  ghost predicate TopPrecommit<H(!new)>(es: seq<Entry<H>>, h: nat, x: Entry<H>) {
    && x in es && x.kind.Precommit? && x.height == h
    && forall y :: y in es && y.kind.Precommit? && y.height == h ==> y.round <= x.round
  }

  /** Whoever precommitted at `h` last did so for `hash`, or a quorum prevoted `hash` at a round between
      that one and `r`. */
  ghost predicate LetGo<H(!new)>(es: seq<Entry<H>>, h: nat, r: nat, hash: H, pol: Option<nat>) {
    forall x :: TopPrecommit(es, h, x) ==> x.hash == hash || (pol.Some? && x.round <= pol.value <= r)
  }

  /** Nothing on record at `e`'s slot, and for a prevote or precommit neither a vote of a later round of its
      height nor the timeout of its own. */
  ghost predicate SlotOpen<H(!new)>(es: seq<Entry<H>>, e: Entry<H>) {
    forall x :: x in es && x.height == e.height ==>
      && !SameSlot(x, e)
      && (e.kind.Timeout? || x.round < e.round || (x.round == e.round && !x.kind.Timeout?))
  }

  lemma LetGoIff<H(!new)>(rec: Record<H>, h: nat, r: nat, hash: H, pol: Option<nat>)
    requires Legal(rec)
    ensures LockAllows(rec, h, r, hash, pol) <==> LetGo(rec.entries, h, r, hash, pol)
  {
    hide Legal;
    var lock := Lock(rec.entries, h);
    if lock.Some? {
      assert TopPrecommit(rec.entries, h, lock.value);
      forall x | TopPrecommit(rec.entries, h, x) ensures x == lock.value {
        OnePerSlot(rec, x, lock.value);
      }
    }
  }

  /** What the checks of a claim say, from the entries. */
  lemma CheckIs<H(!new)>(rec: Record<H>, e: Entry<H>)
    requires Legal(rec)
    ensures Check(rec, e) == Repeat <==> e in rec.entries
    ensures Check(rec, e) == Fresh <==> e.height > rec.floor && SlotOpen(rec.entries, e)
    ensures Check(rec, e).Refuse? ==> Check(rec, e).reason in {BelowFloor, Conflict, RoundLeft}
    ensures Check(rec, e) == Refuse(BelowFloor) <==> e.height <= rec.floor
    ensures Check(rec, e) == Refuse(Conflict) <==>
            e.height > rec.floor && exists x :: x in rec.entries && SameSlot(x, e) && x.hash != e.hash
  {
    hide Legal;
    if e in rec.entries {
      OnePerSlot(rec, e, e);
    }
    forall x, y | x in rec.entries && y in rec.entries && SameSlot(x, y) ensures x == y {
      OnePerSlot(rec, x, y);
    }
  }

  /** V1 to V3 over every run, exactly: a claim is granted if and only if its height is open, the lock lets a
      prevote go, and the vote is on record already, or its slot is open and the write is durable. */
  lemma GrantedIff<H(!new)>(evs: seq<Event<H>>, e: Entry<H>, pol: Option<nat>, write: Write)
    ensures var st := Exec(Start(), evs).store;
            Attempt(st, e, pol, write).Granted? <==>
            && e.height > st.mem.floor
            && (e.kind.Prevote? ==> LetGo(st.mem.entries, e.height, e.round, e.hash, pol))
            && (e in st.mem.entries || (SlotOpen(st.mem.entries, e) && write.Durable?))
  {
    hide Legal, Check, LockAllows, LetGo, SlotOpen, Exec;
    ExecKeeps(evs);
    var rec := Exec(Start(), evs).store.mem;
    CheckIs(rec, e);
    LetGoIff(rec, e.height, e.round, e.hash, pol);
    if e in rec.entries {
      OnePerSlot(rec, e, e);
    }
  }

  /** And otherwise the reason given is the first of these that applies: the lock, a closed height, another
      hash at the slot, a round already left, a write that was not durable. */
  lemma RefusedFor<H(!new)>(evs: seq<Event<H>>, e: Entry<H>, pol: Option<nat>, write: Write)
    requires Attempt(Exec(Start(), evs).store, e, pol, write).Refused?
    ensures var st := Exec(Start(), evs).store;
            var why := Attempt(st, e, pol, write).reason;
            var held := e.kind.Prevote? && !LetGo(st.mem.entries, e.height, e.round, e.hash, pol);
            var clash := exists x :: x in st.mem.entries && SameSlot(x, e) && x.hash != e.hash;
            && (why == Locked <==> held)
            && (why == BelowFloor <==> !held && e.height <= st.mem.floor)
            && (why == Conflict <==> !held && e.height > st.mem.floor && clash)
            && (why == NotDurable <==> !held && e.height > st.mem.floor && SlotOpen(st.mem.entries, e))
  {
    hide Legal, LockAllows, LetGo, SlotOpen, Exec, Check;
    ExecKeeps(evs);
    var rec := Exec(Start(), evs).store.mem;
    CheckIs(rec, e);
    LetGoIff(rec, e.height, e.round, e.hash, pol);
  }

  /** What a prune does, in every run: the votes below the cutoff go and their heights are closed for good, everything
      else stays; and the file follows unless its write was lost, or the cutoff is not news. */
  lemma PruneExact<H(!new)>(evs: seq<Event<H>>, cutoff: nat, write: Write, h: nat)
    ensures var st := Exec(Start(), evs).store;
            var after := Prune(st, cutoff, write);
            && (forall e :: e in after.mem.entries <==> e in st.mem.entries && e.height >= cutoff)
            && (h <= after.mem.floor <==> h <= st.mem.floor || h < cutoff)
            && (cutoff <= st.mem.floor + 1 ==> after == st)
            && (cutoff > st.mem.floor + 1 ==> after.disk == if write.Lost? then st.disk else after.mem)
  {
    hide Legal, Exec, Matches;
    ExecKeeps(evs);
    var rec := Exec(Start(), evs).store.mem;
    forall e | e in rec.entries ensures e.height > rec.floor {
      OnePerSlot(rec, e, e);
    }
  }

  /** Event `i` recorded `e` on disk without granting it: its write tore. */
  ghost predicate TornAt<H(!new)>(evs: seq<Event<H>>, i: nat, e: Entry<H>) {
    && i < |evs| && evs[i].DoClaim? && evs[i].entry == e && evs[i].write == Torn
    && Check(Exec(Start(), evs[..i]).store.mem, e) == Fresh
  }

  /** `e` was recorded by a torn claim, and a later restart loaded it. */
  ghost predicate TornThenLoaded<H(!new)>(evs: seq<Event<H>>, e: Entry<H>) {
    exists i, j :: 0 <= i < j < |evs| && TornAt(evs, i, e) && evs[j].Restart?
  }

  /** Everything recorded was granted, or came from a torn claim. */
  ghost predicate Accounted<H(!new)>(evs: seq<Event<H>>, run: Run<H>) {
    && (forall e :: e in run.store.mem.entries ==> e in run.granted || TornThenLoaded(evs, e))
    && (forall e :: e in run.store.disk.entries ==> e in run.granted || exists i: nat :: TornAt(evs, i, e))
  }

  lemma TornLater<H(!new)>(evs: seq<Event<H>>, ev: Event<H>, i: nat, e: Entry<H>)
    requires TornAt(evs, i, e)
    ensures TornAt(evs + [ev], i, e)
  {
    assert (evs + [ev])[..i] == evs[..i];
  }

  lemma LoadedLater<H(!new)>(evs: seq<Event<H>>, ev: Event<H>, e: Entry<H>)
    requires TornThenLoaded(evs, e)
    ensures TornThenLoaded(evs + [ev], e)
  {
    hide TornAt;
    var i, j :| 0 <= i < j < |evs| && TornAt(evs, i, e) && evs[j].Restart?;
    TornLater(evs, ev, i, e);
    assert (evs + [ev])[j] == evs[j];
  }

  lemma AccountedLater<H(!new)>(evs: seq<Event<H>>, ev: Event<H>, run: Run<H>)
    requires Accounted(evs, run)
    ensures Accounted(evs + [ev], run)
  {
    hide TornAt, TornThenLoaded;
    forall e | e in run.store.mem.entries && e !in run.granted ensures TornThenLoaded(evs + [ev], e) {
      LoadedLater(evs, ev, e);
    }
    forall e | e in run.store.disk.entries && e !in run.granted ensures exists i: nat :: TornAt(evs + [ev], i, e) {
      var i: nat :| TornAt(evs, i, e);
      TornLater(evs, ev, i, e);
    }
  }

  lemma LoadedNow<H(!new)>(evs: seq<Event<H>>, e: Entry<H>, i: nat)
    requires TornAt(evs, i, e)
    ensures TornThenLoaded(evs + [Restart], e)
  {
    TornLater(evs, Restart, i, e);
    assert (evs + [Restart])[|evs|] == Restart;
  }

  lemma {:induction false} EveryRecordAccounted<H(!new)>(evs: seq<Event<H>>)
    ensures Accounted(evs, Exec(Start(), evs))
  {
    hide TornThenLoaded, Attempt, Above;
    if evs != [] {
      var n := |evs| - 1;
      var before, ev, run := evs[..n], evs[n], Exec(Start(), evs[..n]);
      assert evs == before + [ev];
      EveryRecordAccounted(before);
      AccountedLater(before, ev, run);
      match ev
      case DoClaim(e, pol, write) => ClaimAccounted(before, e, pol, write);
      case DoPrune(cutoff, write) => PruneAccounted(evs, run, cutoff, write);
      case Restart =>
        forall e | e in run.store.disk.entries && e !in run.granted ensures TornThenLoaded(evs, e) {
          var i: nat :| TornAt(before, i, e);
          LoadedNow(before, e, i);
        }
    }
  }

  lemma PruneAccounted<H(!new)>(evs: seq<Event<H>>, run: Run<H>, cutoff: nat, write: Write)
    requires Accounted(evs, run)
    ensures Accounted(evs, run.(store := Prune(run.store, cutoff, write)))
  {
    hide TornThenLoaded, TornAt;
    var after := Prune(run.store, cutoff, write);
    assert forall e :: e in after.mem.entries ==> e in run.store.mem.entries;
    assert forall e :: e in after.disk.entries ==> e in run.store.mem.entries || e in run.store.disk.entries;
    forall e | e in after.disk.entries && e !in run.granted ensures exists i: nat :: TornAt(evs, i, e) {
      if e in run.store.mem.entries {
        TornFrom(evs, e);
      }
    }
  }

  lemma TornFrom<H(!new)>(evs: seq<Event<H>>, e: Entry<H>)
    requires TornThenLoaded(evs, e)
    ensures exists i: nat :: TornAt(evs, i, e)
  {
    hide TornAt;
    var i, j :| 0 <= i < j < |evs| && TornAt(evs, i, e) && evs[j].Restart?;
    var k: nat := i;
    assert TornAt(evs, k, e);
  }

  lemma ClaimAccounted<H(!new)>(evs: seq<Event<H>>, e: Entry<H>, pol: Option<nat>, write: Write)
    requires Accounted(evs + [DoClaim(e, pol, write)], Exec(Start(), evs))
    ensures Accounted(evs + [DoClaim(e, pol, write)], Next(Exec(Start(), evs), DoClaim(e, pol, write)))
  {
    hide TornThenLoaded, Check, LockAllows, Exec;
    var more, run := evs + [DoClaim(e, pol, write)], Exec(Start(), evs);
    var after := Next(run, DoClaim(e, pol, write));
    AttemptShape(run.store, e, pol, write);
    if Check(run.store.mem, e) == Fresh && write == Torn {
      assert more[..|evs|] == evs;
      assert TornAt(more, |evs|, e);
    }
    forall x | x in after.store.disk.entries && x !in after.granted ensures exists i: nat :: TornAt(more, i, x) {
      if x in run.store.mem.entries && x !in run.granted {
        TornFrom(more, x);
      }
    }
  }

  /** V2 as promised, and exactly how far it holds: in a round already timed out or voted past, a
      prevote or precommit that is granted was granted before - or it was recorded by a claim whose
      write tore, and loaded by a restart since. */
  lemma LateGrantsAreRepeats<H(!new)>(evs: seq<Event<H>>, e: Entry<H>, pol: Option<nat>, write: Write)
    requires !e.kind.Timeout? && LeftRound(Exec(Start(), evs).store.mem.entries, e.height, e.round)
    requires Attempt(Exec(Start(), evs).store, e, pol, write).Granted?
    ensures e in Exec(Start(), evs).granted || TornThenLoaded(evs, e)
  {
    hide Exec, TornThenLoaded;
    EveryRecordAccounted(evs);
    AttemptShape(Exec(Start(), evs).store, e, pol, write);
    assert e in Exec(Start(), evs).store.mem.entries;
  }

  /** No claim of the run is caught between its rename and its success. */
  predicate NeverTorn<H(!new)>(evs: seq<Event<H>>) {
    forall i :: 0 <= i < |evs| && evs[i].DoClaim? ==> evs[i].write != Torn
  }

  /** Over runs without a torn write, a first grant never comes late: in a left round exactly the
      votes granted before, at heights still open, are granted again. */
  lemma FirstGrantsInTime<H(!new)>(evs: seq<Event<H>>, e: Entry<H>, pol: Option<nat>, write: Write)
    requires NeverTorn(evs) && !e.kind.Timeout?
    requires LeftRound(Exec(Start(), evs).store.mem.entries, e.height, e.round)
    requires e.kind.Prevote? ==> LockAllows(Exec(Start(), evs).store.mem, e.height, e.round, e.hash, pol)
    ensures var run := Exec(Start(), evs);
            Attempt(run.store, e, pol, write).Granted? <==> e in run.granted && e.height > run.store.mem.floor
  {
    hide Exec, LockAllows, Attempt, Legal, Matches;
    var run := Exec(Start(), evs);
    GrantedAfterLeaving(evs, e, pol, write);
    ExecKeeps(evs);
    if e in run.store.mem.entries {
      LateGrantsAreRepeats(evs, e, pol, write);
      OnePerSlot(run.store.mem, e, e);
    } else if e in run.granted {
      assert Kept(run.store.mem, e);
    }
  }

  /** A vote recorded but never returned - its write tore, or the process died before the caller
      heard - is granted later even though its round has been left since. The record, not the
      grant, is what orders votes. */
  lemma RecordedThenGrantedLate<H(!new)>(x: H)
    ensures var late := Entry(Prevote, 1, 0, x);
            var next := Entry(Prevote, 1, 1, x);
            var torn := Next(Start(), DoClaim(late, None, Torn));
            var voted := Next(Next(torn, Restart), DoClaim(next, None, Durable));
            Next(voted, DoClaim(late, None, Durable)).granted == [next, late]
  {
    hide Check, LockAllows;
    var late := Entry(Prevote, 1, 0, x);
    var next := Entry(Prevote, 1, 1, x);
    PrevotesChecked(x);
    var torn := Next(Start(), DoClaim(late, None, Torn));
    assert torn == Run(Store(Record(0, []), Record(0, [late])), []);
    var voted := Next(Next(torn, Restart), DoClaim(next, None, Durable));
    assert voted == Run(Store(Record(0, [late, next]), Record(0, [late, next])), [next]);
  }

  lemma PrevotesChecked<H(!new)>(x: H)
    ensures var late := Entry(Prevote, 1, 0, x);
            var next := Entry(Prevote, 1, 1, x);
            && Check(Record(0, []), late) == Fresh && Check(Record(0, [late]), next) == Fresh
            && Check(Record(0, [late, next]), late) == Repeat
            && LockAllows(Record(0, []), 1, 0, x, None) && LockAllows(Record(0, [late]), 1, 1, x, None)
            && LockAllows(Record(0, [late, next]), 1, 0, x, None)
  {
  }

  lemma {:induction false} LockAbove<H(!new)>(es: seq<Entry<H>>, floor: nat, h: nat)
    requires h > floor
    ensures Lock(Above(es, floor), h) == Lock(es, h)
  {
    if es != [] {
      var n := |es| - 1;
      LockAbove(es[..n], floor, h);
      AboveLast(es, floor);
      var kept := Above(es, floor);
      if es[n].height > floor {
        assert kept[..|kept| - 1] == Above(es[..n], floor);
      } else {
        assert kept == Above(es[..n], floor);
      }
    }
  }

  lemma LockAppend<H(!new)>(rec: Record<H>, e: Entry<H>, h: nat)
    requires Check(rec, e) == Fresh
    ensures LockMoves(Lock(rec.entries, h), Lock(Appended(rec, e).entries, h))
  {
    assert Appended(rec, e).entries[..|rec.entries|] == rec.entries;
  }

  /** The lock is unchanged, or moves to a strictly later round. */
  predicate LockMoves<H(==)>(before: Option<Entry<H>>, after: Option<Entry<H>>) {
    after == before || (after.Some? && (before.None? || before.value.round < after.value.round))
  }

  lemma LockAfterClaim<H(!new)>(st: Store<H>, e: Entry<H>, out: Outcome<H>, h: nat)
    requires ClaimShape(st, e, out)
    ensures LockMoves(Lock(st.mem.entries, h), Lock(out.store.mem.entries, h))
  {
    if Check(st.mem, e) == Fresh {
      LockAppend(st.mem, e, h);
    }
  }

  lemma LockAfterPrune<H(!new)>(st: Store<H>, cutoff: nat, write: Write, h: nat)
    requires h > Prune(st, cutoff, write).mem.floor
    ensures LockMoves(Lock(st.mem.entries, h), Lock(Prune(st, cutoff, write).mem.entries, h))
  {
    LockAbove(st.mem.entries, Prune(st, cutoff, write).mem.floor, h);
  }

  /** A restart moves the lock only by a torn claim it finds on disk. */
  lemma LockAfterRestart<H(!new)>(st: Store<H>, h: nat)
    requires StoreInv(st) && h > st.mem.floor
    ensures LockMoves(Lock(st.mem.entries, h), Lock(st.disk.entries, h))
  {
    LockAbove(st.disk.entries, st.mem.floor, h);
    if Above(st.disk.entries, st.mem.floor) != st.mem.entries {
      var e :| Above(st.disk.entries, st.mem.floor) == Appended(st.mem, e).entries;
      LegalAbove(st.disk, st.mem.floor);
      assert Front(Appended(st.mem, e)) == st.mem;
      LockAppend(st.mem, e, h);
    }
  }

  /** The lock round at an open height strictly increases each time it changes, in every step of
      every run. */
  lemma LockOnlyAdvances<H(!new)>(evs: seq<Event<H>>, ev: Event<H>, h: nat)
    requires h > Exec(Start(), evs).store.mem.floor
    requires h > Next(Exec(Start(), evs), ev).store.mem.floor
    ensures LockMoves(Lock(Exec(Start(), evs).store.mem.entries, h),
                      Lock(Next(Exec(Start(), evs), ev).store.mem.entries, h))
  {
    ExecKeeps(evs);
    var run := Exec(Start(), evs);
    if ev.DoClaim? {
      AttemptShape(run.store, ev.entry, ev.pol, ev.write);
    }
    match ev
    case DoClaim(e, pol, write) => LockAfterClaim(run.store, e, Attempt(run.store, e, pol, write), h);
    case DoPrune(cutoff, write) => LockAfterPrune(run.store, cutoff, write, h);
    case Restart => LockAfterRestart(run.store, h);
  }
}

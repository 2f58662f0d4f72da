/** The other two tallies (arxd/finality/src/lib.rs, `tally_prevote` and `tally_round_timeout`) across
    votes, pruning, reverts and restarts: the locks and round certificates they write carry the same
    quorum evidence as a finality record. Prevotes live in memory only; round-timeout votes are filed
    by slot and voter, without the parent they sign. */
module RoundDesk {
  import opened TextFormat
  import opened VotingPower
  import opened Blocks
  import opened Tally
  import D = VoteDesk

  // ----- prevotes and locks

  /** Prevote tallies, the highest-round lock of each height, and the heights with a finality record. */
  datatype Prevotes = Prevotes(tallies: map<Message, Bucket>, pols: map<nat, Certificate>, final: set<nat>)

  function Bucketed(tallies: map<Message, Bucket>, v: Vote): Bucket {
    (if v.msg in tallies then tallies[v.msg] else map[])[v.voter := v.sig]
  }

  predicate Admitted(w: World, d: Prevotes, v: Vote) {
    v.msg.slot.height !in d.final && Counts(w, v)
  }

  /** A lock at the vote's round or a later one is already stored. */
  predicate Outdone(d: Prevotes, v: Vote) {
    v.msg.slot.height in d.pols && d.pols[v.msg.slot.height].msg.slot.round >= v.msg.slot.round
  }

  /** `tally_prevote`, the bucket walked in `order`. */
  ghost function HeardPrevote(w: World, d: Prevotes, v: Vote, order: seq<Address>): Prevotes
    requires Enumerates(order, Bucketed(d.tallies, v).Keys)
  {
    if !Admitted(w, d, v) then d
    else
      var next := d.(tallies := d.tallies[v.msg := Bucketed(d.tallies, v)]);
      var c := Certify(w, v.msg, Bucketed(d.tallies, v), order);
      if c.None? || Outdone(d, v) then next else next.(pols := d.pols[v.msg.slot.height := c.value])
  }

  /** A prevote heard while the database reads `w`; a finality record arriving; `prune` with its cutoff
      and the final watermark; a revert, which drops the locks that bind parents it removes; a
      restart. */
  datatype PrevoteEvent =
    | Hear(w: World, vote: Vote, order: seq<Address>)
    | Finalize(height: nat)
    | Prune(cutoff: nat, watermark: nat)
    | Revert(height: nat)
    | Restart

  ghost function Step(d: Prevotes, ev: PrevoteEvent): Prevotes {
    match ev
    case Hear(w, v, order) => if Enumerates(order, Bucketed(d.tallies, v).Keys) then HeardPrevote(w, d, v, order) else d
    case Finalize(h) => d.(final := d.final + {h})
    case Prune(cutoff, watermark) =>
      d.(tallies := map m | m in d.tallies && m.slot.height >= cutoff && m.slot.height > watermark :: d.tallies[m],
         pols := map k | k in d.pols && k > watermark :: d.pols[k])
    case Revert(h) => d.(pols := map k | k in d.pols && k <= h + 1 :: d.pols[k])
    case Restart => d.(tallies := map[])
  }

  ghost function Exec(run: seq<PrevoteEvent>): Prevotes {
    if run == [] then Prevotes(map[], map[], {}) else Step(Exec(run[..|run| - 1]), run[|run| - 1])
  }

  /** The event's vote joins its tally. */
  ghost predicate Takes(d: Prevotes, ev: PrevoteEvent) {
    ev.Hear? && Enumerates(ev.order, Bucketed(d.tallies, ev.vote).Keys) && Admitted(ev.w, d, ev.vote)
  }

  /** What hearing a prevote does, in every run: one signed by a member, for a height without a finality record,
      joins its tally; any other changes nothing. */
  lemma HearingCounts(run: seq<PrevoteEvent>, w: World, v: Vote, order: seq<Address>)
    requires Enumerates(order, Bucketed(Exec(run).tallies, v).Keys)
    ensures var d, after := Exec(run), Exec(run + [Hear(w, v, order)]);
            if SignedByMember(w, v) && v.msg.slot.height !in d.final then
              v.msg in after.tallies && after.tallies[v.msg] == Bucketed(d.tallies, v)
            else after == d
    ensures Bucketed(Exec(run).tallies, v).Keys ==
            {v.voter} + if v.msg in Exec(run).tallies then Exec(run).tallies[v.msg].Keys else {}
  {
    hide Enumerates, Certify;
    assert (run + [Hear(w, v, order)])[..|run|] == run;
  }

  /** The heights taken for final are those whose record arrived. */
  lemma {:induction false} FinalIff(run: seq<PrevoteEvent>, h: nat)
    ensures h in Exec(run).final <==> exists i :: 0 <= i < |run| && run[i] == Finalize(h)
  {
    if run != [] {
      var n := |run| - 1;
      FinalIff(run[..n], h);
      FinalStep(Exec(run[..n]), run[n]);
      assert run[n] != Finalize(h) ==>
          forall i :: 0 <= i < |run| && run[i] == Finalize(h) ==> run[..n][i] == Finalize(h);
    }
  }

  lemma FinalStep(d: Prevotes, ev: PrevoteEvent)
    ensures Step(d, ev).final == d.final + if ev.Finalize? then {ev.height} else {}
  {
    hide Enumerates, Certify, Admitted;
  }

  /** A prune keeps exactly the locks above the watermark and the tallies above it and not below `cutoff`. */
  lemma PrunedLocks(d: Prevotes, cutoff: nat, watermark: nat)
    ensures var after := Step(d, Prune(cutoff, watermark));
            && (forall k :: k in after.pols <==> k in d.pols && watermark + 1 <= k)
            && (forall k :: k in after.pols ==> after.pols[k] == d.pols[k])
            && (forall m :: m in after.tallies <==>
                  m in d.tallies && cutoff <= m.slot.height && watermark + 1 <= m.slot.height)
            && (forall m :: m in after.tallies ==> after.tallies[m] == d.tallies[m])
  {
  }

  /** Whenever a vote was heard, the database read about `h` what `w` says. */
  ghost predicate Steady(w: World, run: seq<PrevoteEvent>, h: nat) {
    forall i :: 0 <= i < |run| && run[i].Hear? ==> SameAt(run[i].w, w, h)
  }

  ghost predicate SoundAt(w: World, d: Prevotes, h: nat) {
    && (forall m :: m in d.tallies && m.slot.height == h ==> Verified(w, m, d.tallies[m]))
    && (h in d.pols ==> d.pols[h].msg.slot.height == h && Holds(w, d.pols[h]))
  }

  lemma BucketVerified(w: World, tallies: map<Message, Bucket>, v: Vote)
    requires (v.msg in tallies ==> Verified(w, v.msg, tallies[v.msg])) && Counts(w, v)
    ensures Verified(w, v.msg, Bucketed(tallies, v))
  {
    hide Counts;
    forall a | a in Bucketed(tallies, v) ensures Counts(w, Vote(v.msg, a, Bucketed(tallies, v)[a])) {
      if a == v.voter {
        assert Vote(v.msg, a, Bucketed(tallies, v)[a]) == v;
      }
    }
  }

  lemma HeardSound(w: World, now: World, d: Prevotes, v: Vote, order: seq<Address>, h: nat)
    requires SoundAt(w, d, h) && SameAt(now, w, h) && Enumerates(order, Bucketed(d.tallies, v).Keys)
    ensures SoundAt(w, HeardPrevote(now, d, v, order), h)
  {
    hide Holds, Certify, IsQuorum, Enumerates, Bucketed, KnownKeys;
    if Admitted(now, d, v) && v.msg.slot.height == h {
      BucketVerified(w, d.tallies, v);
      if Certify(now, v.msg, Bucketed(d.tallies, v), order).Some? {
        D.CertifiesMessage(now, v.msg, Bucketed(d.tallies, v), order);
        D.VerifiedMembers(w, v.msg, Bucketed(d.tallies, v));
        SameWorldHoldsIff(now, w, v.msg, Bucketed(d.tallies, v), order);
      }
    }
  }

  /** In every run, while what the database reads about a height does not change, only verified
      prevotes of members are counted there and the lock stored there is a quorum for one block at
      one round. */
  lemma {:induction false} EveryLockHolds(w: World, run: seq<PrevoteEvent>, h: nat)
    requires Steady(w, run, h)
    ensures SoundAt(w, Exec(run), h)
  {
    hide Holds, Counts, HeardPrevote, Enumerates, SameAt;
    if run != [] {
      var n := |run| - 1;
      var d := Exec(run[..n]);
      EveryLockHolds(w, run[..n], h);
      if run[n].Hear? && Enumerates(run[n].order, Bucketed(d.tallies, run[n].vote).Keys) {
        assert SameAt(run[n].w, w, h);
        HeardSound(w, run[n].w, d, run[n].vote, run[n].order, h);
      }
    }
  }

  // ----- the lock is the highest quorum seen

  /** The certificate an event could write, had no lock outdone it. */
  ghost function FormedBy(d: Prevotes, ev: PrevoteEvent): Option<Certificate> {
    if Takes(d, ev) then Certify(ev.w, ev.vote.msg, Bucketed(d.tallies, ev.vote), ev.order) else None
  }

  /** `c` replaces the lock of `h`. */
  predicate Outranks(c: Option<Certificate>, pols: map<nat, Certificate>, h: nat) {
    && c.Some? && c.value.msg.slot.height == h
    && (h in pols ==> pols[h].msg.slot.round < c.value.msg.slot.round)
  }

  /** What event `i` of the run could write. */
  ghost function Formed(run: seq<PrevoteEvent>, i: nat): Option<Certificate>
    requires i < |run|
  {
    FormedBy(Exec(run[..i]), run[i])
  }

  /** No prune or revert of the run drops the lock of `h`. */
  predicate KeepsLock(run: seq<PrevoteEvent>, h: nat) {
    forall i :: 0 <= i < |run| ==>
      (run[i].Prune? ==> run[i].watermark < h) && (run[i].Revert? ==> h <= run[i].height + 1)
  }

  /** `lock` was formed at `h` in the run, at a round no lower than any other formed there. */
  ghost predicate Highest(run: seq<PrevoteEvent>, h: nat, lock: Certificate) {
    && lock.msg.slot.height == h
    && (exists i :: 0 <= i < |run| && Formed(run, i) == Some(lock))
    && (forall i :: 0 <= i < |run| && Formed(run, i).Some? && Formed(run, i).value.msg.slot.height == h ==>
          Formed(run, i).value.msg.slot.round <= lock.msg.slot.round)
  }

  lemma FormedBefore(run: seq<PrevoteEvent>, i: nat)
    requires i < |run| - 1
    ensures Formed(run[..|run| - 1], i) == Formed(run, i)
  {
    assert run[..|run| - 1][..i] == run[..i];
  }

  /** At a height whose lock is never dropped, the stored lock is the highest-round quorum of prevotes
      the node ever formed there; there is none exactly when it formed none. */
  lemma {:induction false} LockIsHighest(run: seq<PrevoteEvent>, h: nat)
    requires KeepsLock(run, h)
    ensures h in Exec(run).pols ==> Highest(run, h, Exec(run).pols[h])
    ensures h !in Exec(run).pols ==>
              forall i :: 0 <= i < |run| && Formed(run, i).Some? ==> Formed(run, i).value.msg.slot.height != h
  {
    hide Certify, Enumerates, Counts, Formed;
    if run != [] {
      var n := |run| - 1;
      var before, d := run[..n], Exec(run[..n]);
      LockIsHighest(before, h);
      forall i: nat | i < n ensures Formed(before, i) == Formed(run, i) {
        FormedBefore(run, i);
      }
      LockAfter(run, h);
      if h in d.pols {
        var i :| 0 <= i < n && Formed(before, i) == Some(d.pols[h]);
        assert Formed(run, i) == Some(d.pols[h]);
      }
    }
  }

  /** What one event does to the lock of `h`. */
  lemma StepLock(d: Prevotes, ev: PrevoteEvent, h: nat)
    requires (ev.Prune? ==> ev.watermark < h) && (ev.Revert? ==> h <= ev.height + 1)
    ensures var next, c := Step(d, ev).pols, FormedBy(d, ev);
            if Outranks(c, d.pols, h) then h in next && next[h] == c.value
            else (h in next <==> h in d.pols) && (h in next ==> next[h] == d.pols[h])
  {
    hide Certify, Enumerates, Counts, Bucketed;
    if Takes(d, ev) && FormedBy(d, ev).Some? {
      D.CertifiesMessage(ev.w, ev.vote.msg, Bucketed(d.tallies, ev.vote), ev.order);
    }
  }

  lemma LockAfter(run: seq<PrevoteEvent>, h: nat)
    requires run != [] && KeepsLock(run, h)
    ensures var n := |run| - 1;
            var pols, next, c := Exec(run[..n]).pols, Exec(run).pols, Formed(run, n);
            if Outranks(c, pols, h) then h in next && next[h] == c.value
            else (h in next <==> h in pols) && (h in next ==> next[h] == pols[h])
  {
    hide Step, FormedBy;
    StepLock(Exec(run[..|run| - 1]), run[|run| - 1], h);
  }

  /** A quorum of verified prevotes always forms a lock. */
  lemma QuorumForms(w: World, run: seq<PrevoteEvent>, i: nat)
    requires i < |run| && Takes(Exec(run[..i]), run[i]) && Steady(w, run, run[i].vote.msg.slot.height)
    ensures Formed(run, i).Some? <==>
            IsQuorum(run[i].w.members(run[i].vote.msg.slot.height), Bucketed(Exec(run[..i]).tallies, run[i].vote).Keys)
  {
    hide IsQuorum, Exec, Holds, Enumerates, Certify, Bucketed;
    var d, ev, h := Exec(run[..i]), run[i], run[i].vote.msg.slot.height;
    EveryLockHolds(w, run[..i], h);
    assert SameAt(ev.w, w, h);
    BucketVerified(w, d.tallies, ev.vote);
    SameVerified(w, ev.w, ev.vote.msg, Bucketed(d.tallies, ev.vote));
    QuorumCertifies(ev.w, ev.vote.msg, Bucketed(d.tallies, ev.vote), ev.order);
  }

  lemma SameVerified(w: World, other: World, msg: Message, bucket: Bucket)
    requires Verified(w, msg, bucket) && SameAt(other, w, msg.slot.height)
    ensures Verified(other, msg, bucket)
  {
    forall a | a in bucket ensures Counts(other, Vote(msg, a, bucket[a])) {
      assert Counts(w, Vote(msg, a, bucket[a]));
    }
  }

  // ----- double prevotes

  /** Whether `tally_prevote` reports an equivocation when it hears `v`. */
  ghost predicate Reports(w: World, d: Prevotes, v: Vote) {
    Admitted(w, d, v) && exists other :: D.Conflicts(d.tallies, v, other)
  }

  /** `voter`'s prevote for `msg` was counted, and neither a prune passed its height since nor a
      restart emptied the tallies. */
  ghost predicate StillCounted(run: seq<PrevoteEvent>, msg: Message, voter: Address) {
    run != [] &&
    var n := |run| - 1;
    match run[n]
    case Hear(_, v, _) =>
      || StillCounted(run[..n], msg, voter)
      || (v.msg == msg && v.voter == voter && Takes(Exec(run[..n]), run[n]))
    case Prune(cutoff, watermark) =>
      StillCounted(run[..n], msg, voter) && msg.slot.height >= cutoff && msg.slot.height > watermark
    case Restart => false
    case _ => StillCounted(run[..n], msg, voter)
  }

  lemma {:induction false} HoldsWhatItCounted(run: seq<PrevoteEvent>, msg: Message, voter: Address)
    ensures msg in Exec(run).tallies && voter in Exec(run).tallies[msg] <==> StillCounted(run, msg, voter)
  {
    hide Certify, Enumerates, Counts;
    if run != [] {
      HoldsWhatItCounted(run[..|run| - 1], msg, voter);
    }
  }

  /** A counted prevote is reported exactly when a prevote of the same validator at the same slot for
      another block was counted before and is still remembered, in every run. */
  lemma ReportsExactly(run: seq<PrevoteEvent>, w: World, v: Vote)
    requires Admitted(w, Exec(run), v)
    ensures Reports(w, Exec(run), v) <==>
            exists other ::
              StillCounted(run, other, v.voter) && other.slot == v.msg.slot && other.ballot != v.msg.ballot
  {
    hide Counts, Exec, StillCounted;
    forall other: Message | other.slot == v.msg.slot && other.ballot != v.msg.ballot
      ensures D.Conflicts(Exec(run).tallies, v, other) <==> StillCounted(run, other, v.voter)
    {
      HoldsWhatItCounted(run, other, v.voter);
    }
  }

  /** Some event of the run counted `voter`'s prevote for `msg`, with this signature. */
  ghost predicate Heeded(run: seq<PrevoteEvent>, msg: Message, voter: Address, sig: Signature) {
    exists i :: 0 <= i < |run| && Takes(Exec(run[..i]), run[i]) && run[i].vote == Vote(msg, voter, sig)
  }

  lemma HeededLater(run: seq<PrevoteEvent>, msg: Message, voter: Address, sig: Signature)
    requires run != [] && Heeded(run[..|run| - 1], msg, voter, sig)
    ensures Heeded(run, msg, voter, sig)
  {
    var before := run[..|run| - 1];
    var i :| 0 <= i < |before| && Takes(Exec(before[..i]), before[i]) && before[i].vote == Vote(msg, voter, sig);
    assert run[..i] == before[..i] && run[i] == before[i];
  }

  lemma {:induction false} OnlyHeeded(run: seq<PrevoteEvent>, msg: Message, voter: Address)
    requires msg in Exec(run).tallies && voter in Exec(run).tallies[msg]
    ensures Heeded(run, msg, voter, Exec(run).tallies[msg][voter])
  {
    hide Certify, Enumerates, Counts, Heeded;
    var n := |run| - 1;
    var d := Exec(run[..n]);
    var sig := Exec(run).tallies[msg][voter];
    if run[n].Hear? && Takes(d, run[n]) && run[n].vote == Vote(msg, voter, sig) {
      HeededNow(run, msg, voter, sig);
    } else {
      OnlyHeeded(run[..n], msg, voter);
      HeededLater(run, msg, voter, sig);
    }
  }

  lemma HeededNow(run: seq<PrevoteEvent>, msg: Message, voter: Address, sig: Signature)
    requires run != [] && Takes(Exec(run[..|run| - 1]), run[|run| - 1]) && run[|run| - 1].vote == Vote(msg, voter, sig)
    ensures Heeded(run, msg, voter, sig)
  {
  }

  /** A reported double prevote is two signatures of one validator on two blocks of one slot, each
      verified against the set and key in force when it was counted. */
  lemma ReportProves(run: seq<PrevoteEvent>, w: World, v: Vote, other: Message) returns (i: nat)
    requires Admitted(w, Exec(run), v) && D.Conflicts(Exec(run).tallies, v, other)
    ensures Counts(w, v) && other.slot == v.msg.slot && other.ballot != v.msg.ballot
    ensures i < |run| && run[i].Hear? && Counts(run[i].w, run[i].vote)
    ensures run[i].vote == Vote(other, v.voter, Exec(run).tallies[other][v.voter])
  {
    hide Exec;
    OnlyHeeded(run, other, v.voter);
    i :| 0 <= i < |run| && Takes(Exec(run[..i]), run[i])
         && run[i].vote == Vote(other, v.voter, Exec(run).tallies[other][v.voter]);
  }

  /** The prevote tallies as the engine keeps them; `final` is what the database says is certified. */
  class PrevoteDesk {
    var tallies: map<Message, Bucket>
    var pols: map<nat, Certificate>
    var final: set<nat>

    function Contents(): Prevotes
      reads this
    {
      Prevotes(tallies, pols, final)
    }

    constructor ()
      ensures Contents() == Prevotes(map[], map[], {})
    {
      tallies, pols, final := map[], map[], {};
    }

    /** `tally_prevote`. */
    method TallyPrevote(w: World, v: Vote) returns (report: Option<(Vote, Vote)>, ghost order: seq<Address>)
      modifies `tallies, `pols
      ensures Enumerates(order, Bucketed(old(tallies), v).Keys)
      ensures Contents() == HeardPrevote(w, old(Contents()), v, order)
      ensures report.Some? <==> Reports(w, old(Contents()), v)
      ensures report.Some? ==>
                && report.value.1 == v && D.Conflicts(old(tallies), v, report.value.0.msg)
                && report.value.0 == Vote(report.value.0.msg, v.voter, old(tallies)[report.value.0.msg][v.voter])
    {
      hide Enumerates, D.Conflicts, Counts, Certify;
      ghost var was := Contents();
      report := None;
      var bucket := Bucketed(tallies, v);
      var c: Option<Certificate>;
      c, order := D.CertifyBucket(w, v.msg, bucket);
      if v.msg.slot.height in final || !Counts(w, v) {
        return;
      }
      var prior := D.FindPrior(tallies, v);
      if prior.Some? {
        report := Some((Vote(prior.value, v.voter, tallies[prior.value][v.voter]), v));
      }
      assert Admitted(w, was, v) && (report.Some? <==> Reports(w, was, v));
      tallies := tallies[v.msg := bucket];
      var h := v.msg.slot.height;
      if c.Some? && !(h in pols && pols[h].msg.slot.round >= v.msg.slot.round) {
        pols := pols[h := c.value];
      }
    }

    /** `prune`, for prevotes and locks. */
    method Prune(cutoff: nat, watermark: nat)
      modifies `tallies, `pols
      ensures Contents() == Step(old(Contents()), PrevoteEvent.Prune(cutoff, watermark))
    {
      pols := map k | k in pols && k > watermark :: pols[k];
      tallies := map m | m in tallies && m.slot.height >= cutoff && m.slot.height > watermark :: tallies[m];
    }
  }

  // ----- round timeouts

  /** Timeout tallies by slot alone, persisted votes by slot and voter, the rounds this tally certified,
      and those whose certificate came with a held block. */
  datatype Timeouts = Timeouts(tallies: map<Slot, Bucket>, rows: map<(Slot, Address), Signature>,
                               certs: map<Slot, Certificate>, adopted: set<Slot>)

  function TimeoutMsg(slot: Slot, parent: Block): Message {
    Message(slot, Timeout(parent))
  }

  function SlotBucket(d: Timeouts, slot: Slot, voter: Address, sig: Signature): Bucket {
    (if slot in d.tallies then d.tallies[slot] else map[])[voter := sig]
  }

  /** A timeout vote heard while the database reads `w` and holds `parent`, if any, below its height;
      `prune`, which drops rows below `spent` and the slots in memory below `cutoff`; a revert, which
      drops the certificates and the persisted votes that bind parents it removes, and leaves memory; a
      certificate kept from a held block; a restart. */
  datatype TimeoutEvent =
    | HearTimeout(w: World, parent: Option<Block>, slot: Slot, voter: Address, sig: Signature, order: seq<Address>)
    | PruneTimeouts(cutoff: nat, spent: nat)
    | RevertTimeouts(height: nat)
    | AdoptTimeout(slot: Slot)
    | RestartTimeouts(cutoff: nat)

  ghost predicate CountsTimeout(d: Timeouts, ev: TimeoutEvent) {
    && ev.HearTimeout? && ev.slot !in d.certs && ev.slot !in d.adopted && ev.parent.Some?
    && Enumerates(ev.order, SlotBucket(d, ev.slot, ev.voter, ev.sig).Keys)
    && Counts(ev.w, Vote(TimeoutMsg(ev.slot, ev.parent.value), ev.voter, ev.sig))
  }

  /** `tally_round_timeout` on a vote that passes its checks: persisted, and the certificate written
      once the bucket yields one. The rows stay. */
  ghost function HeardTimeout(d: Timeouts, ev: TimeoutEvent): Timeouts
    requires CountsTimeout(d, ev)
  {
    var bucket := SlotBucket(d, ev.slot, ev.voter, ev.sig);
    var rows := d.rows[(ev.slot, ev.voter) := ev.sig];
    var c := Certify(ev.w, TimeoutMsg(ev.slot, ev.parent.value), bucket, ev.order);
    if c.None? then d.(tallies := d.tallies[ev.slot := bucket], rows := rows)
    else d.(tallies := d.tallies - {ev.slot}, rows := rows, certs := d.certs[ev.slot := c.value])
  }

  function SlotVoters(rows: map<(Slot, Address), Signature>, slot: Slot): set<Address> {
    set k | k in rows && k.0 == slot :: k.1
  }

  /** Memory rebuilt from the rows at or above `cutoff`, whatever parent they signed. */
  function FromRows(rows: map<(Slot, Address), Signature>, cutoff: nat): map<Slot, Bucket> {
    map slot | slot in (set k | k in rows && k.0.height >= cutoff :: k.0) ::
      map a | a in SlotVoters(rows, slot) :: rows[(slot, a)]
  }

  ghost function StepTimeouts(d: Timeouts, ev: TimeoutEvent): Timeouts {
    match ev
    case HearTimeout(_, _, _, _, _, _) => if CountsTimeout(d, ev) then HeardTimeout(d, ev) else d
    case PruneTimeouts(cutoff, spent) =>
      d.(tallies := map s | s in d.tallies && s.height >= cutoff :: d.tallies[s],
         rows := map k | k in d.rows && k.0.height >= spent && !(k.0 in d.tallies && k.0.height < cutoff) :: d.rows[k])
    case RevertTimeouts(h) =>
      d.(rows := map k | k in d.rows && k.0.height < h + 2 :: d.rows[k],
         certs := map s | s in d.certs && s.height < h + 2 :: d.certs[s],
         adopted := set s | s in d.adopted && s.height < h + 2)
    case AdoptTimeout(slot) => d.(adopted := d.adopted + {slot})
    case RestartTimeouts(cutoff) => d.(tallies := FromRows(d.rows, cutoff))
  }

  const NO_TIMEOUTS := Timeouts(map[], map[], map[], {})

  ghost function TimedOut(run: seq<TimeoutEvent>): Timeouts {
    if run == [] then NO_TIMEOUTS else StepTimeouts(TimedOut(run[..|run| - 1]), run[|run| - 1])
  }

  ghost predicate SteadyTimeouts(w: World, run: seq<TimeoutEvent>, h: nat) {
    forall i :: 0 <= i < |run| && run[i].HearTimeout? ==> SameAt(run[i].w, w, h)
  }

  ghost predicate SomeParent(w: World, slot: Slot, a: Address, sig: Signature) {
    exists p :: Counts(w, Vote(TimeoutMsg(slot, p), a, sig))
  }

  /** At height `h`, every vote counted or filed was a member's, signed over some parent of its slot;
      every certificate passes the check. */
  ghost predicate RoundsSoundAt(w: World, d: Timeouts, h: nat) {
    && (forall slot, a :: slot in d.tallies && slot.height == h && a in d.tallies[slot] ==>
          SomeParent(w, slot, a, d.tallies[slot][a]))
    && (forall k :: k in d.rows && k.0.height == h ==> SomeParent(w, k.0, k.1, d.rows[k]))
    && (forall slot :: slot in d.certs && slot.height == h ==>
          d.certs[slot].msg.slot == slot && d.certs[slot].msg.ballot.Timeout? && Holds(w, d.certs[slot]))
  }

  lemma SameParent(w: World, now: World, slot: Slot, p: Block, a: Address, sig: Signature)
    requires Counts(now, Vote(TimeoutMsg(slot, p), a, sig)) && SameAt(now, w, slot.height)
    ensures SomeParent(w, slot, a, sig)
  {
    assert Counts(w, Vote(TimeoutMsg(slot, p), a, sig));
  }

  lemma BucketParented(w: World, d: Timeouts, ev: TimeoutEvent)
    requires CountsTimeout(d, ev) && RoundsSoundAt(w, d, ev.slot.height) && SameAt(ev.w, w, ev.slot.height)
    ensures var bucket := SlotBucket(d, ev.slot, ev.voter, ev.sig);
            && (forall a :: a in bucket ==> SomeParent(w, ev.slot, a, bucket[a]))
            && bucket.Keys <= w.members(ev.slot.height).Keys
  {
    hide Holds, Enumerates;
    var bucket := SlotBucket(d, ev.slot, ev.voter, ev.sig);
    SameParent(w, ev.w, ev.slot, ev.parent.value, ev.voter, ev.sig);
    forall a | a in bucket ensures SomeParent(w, ev.slot, a, bucket[a]) && a in w.members(ev.slot.height) {
      assert a != ev.voter ==> SomeParent(w, ev.slot, a, d.tallies[ev.slot][a]);
    }
  }

  lemma TimeoutSound(w: World, d: Timeouts, ev: TimeoutEvent, h: nat)
    requires RoundsSoundAt(w, d, h) && CountsTimeout(d, ev) && SameAt(ev.w, w, h)
    ensures RoundsSoundAt(w, HeardTimeout(d, ev), h)
  {
    hide Holds, Certify, Enumerates, Counts, SomeParent, SlotBucket, KnownKeys, IsQuorum;
    if ev.slot.height == h {
      var msg, bucket := TimeoutMsg(ev.slot, ev.parent.value), SlotBucket(d, ev.slot, ev.voter, ev.sig);
      BucketParented(w, d, ev);
      SameParent(w, ev.w, ev.slot, ev.parent.value, ev.voter, ev.sig);
      if Certify(ev.w, msg, bucket, ev.order).Some? {
        D.CertifiesMessage(ev.w, msg, bucket, ev.order);
        SameWorldHoldsIff(ev.w, w, msg, bucket, ev.order);
      }
    }
  }

  lemma ReloadSound(w: World, d: Timeouts, cutoff: nat, h: nat)
    requires RoundsSoundAt(w, d, h)
    ensures RoundsSoundAt(w, StepTimeouts(d, RestartTimeouts(cutoff)), h)
  {
    hide Holds, SomeParent;
  }

  /** Whatever parents were held while the votes came in, and across prunes, reverts and restarts:
      while what the database reads about a height does not change, every round certificate written
      there is a verified quorum for one parent. */
  lemma {:induction false} EveryRoundHolds(w: World, run: seq<TimeoutEvent>, h: nat)
    requires SteadyTimeouts(w, run, h)
    ensures RoundsSoundAt(w, TimedOut(run), h)
  {
    hide Holds, SomeParent, HeardTimeout, CountsTimeout, SameAt;
    if run != [] {
      var n := |run| - 1;
      var d, ev := TimedOut(run[..n]), run[n];
      EveryRoundHolds(w, run[..n], h);
      match ev
      case HearTimeout(_, _, _, _, _, _) =>
        assert SameAt(run[n].w, w, h);
        if CountsTimeout(d, ev) {
          TimeoutSound(w, d, ev, h);
        }
      case RestartTimeouts(cutoff) => ReloadSound(w, d, cutoff, h);
      case _ =>
    }
  }

  /** A round certificate is for the parent held when it was written. */
  lemma {:induction false} RoundWritten(run: seq<TimeoutEvent>, slot: Slot) returns (i: nat)
    requires slot in TimedOut(run).certs
    ensures i < |run| && CountsTimeout(TimedOut(run[..i]), run[i]) && run[i].slot == slot
    ensures TimedOut(run).certs[slot].msg == TimeoutMsg(slot, run[i].parent.value)
    ensures var ev, d := run[i], TimedOut(run[..i]);
            Certify(ev.w, TimeoutMsg(slot, ev.parent.value), SlotBucket(d, slot, ev.voter, ev.sig), ev.order)
            == Some(TimedOut(run).certs[slot])
  {
    hide Certify, Enumerates, Counts, SlotBucket, FromRows;
    var n := |run| - 1;
    var d := TimedOut(run[..n]);
    if slot in d.certs && TimedOut(run).certs[slot] == d.certs[slot] {
      i := RoundWritten(run[..n], slot);
      assert run[..n][..i] == run[..i];
    } else {
      i := n;
      D.CertifiesMessage(run[n].w, TimeoutMsg(slot, run[n].parent.value),
                         SlotBucket(d, slot, run[n].voter, run[n].sig), run[n].order);
    }
  }

  /** What hearing a timeout vote does, in every run: one signed by a member over the parent held, for a round without
      a certificate, is persisted and stays in memory or completes the certificate; any other changes
      nothing. */
  lemma HearingTimesOut(run: seq<TimeoutEvent>, ev: TimeoutEvent)
    requires ev.HearTimeout?
    requires Enumerates(ev.order, SlotBucket(TimedOut(run), ev.slot, ev.voter, ev.sig).Keys)
    ensures var d, after := TimedOut(run), TimedOut(run + [ev]);
            if ev.parent.Some? && SignedByMember(ev.w, Vote(TimeoutMsg(ev.slot, ev.parent.value), ev.voter, ev.sig))
               && ev.slot !in d.certs && ev.slot !in d.adopted then
              && (ev.slot, ev.voter) in after.rows && after.rows[(ev.slot, ev.voter)] == ev.sig
              && (ev.slot !in after.certs ==> InMemory(after, ev.slot, ev.voter, ev.sig))
            else after == d
  {
    hide Enumerates, Certify;
    assert (run + [ev])[..|run|] == run;
  }

  /** A vote for a round certified here, or whose certificate came with a block, changes nothing. */
  lemma CertifiedClosed(run: seq<TimeoutEvent>, slot: Slot, ev: TimeoutEvent)
    requires ev.HearTimeout? && ev.slot == slot
    ensures slot in TimedOut(run).certs || slot in TimedOut(run).adopted ==> TimedOut(run + [ev]) == TimedOut(run)
    ensures TimedOut(run + [AdoptTimeout(slot), ev]) == TimedOut(run + [AdoptTimeout(slot)])
  {
    hide HeardTimeout;
    assert (run + [ev])[..|run|] == run;
    assert (run + [AdoptTimeout(slot), ev])[..|run| + 1] == run + [AdoptTimeout(slot)];
    assert (run + [AdoptTimeout(slot)])[..|run|] == run;
  }

  /** Until a revert removes its parent, a round certificate stays what it was when it was written. */
  lemma {:induction false} CertificateStays(run: seq<TimeoutEvent>, i: nat, slot: Slot)
    requires i <= |run| && slot in TimedOut(run[..i]).certs
    requires forall j :: i <= j < |run| && run[j].RevertTimeouts? ==> slot.height < run[j].height + 2
    ensures slot in TimedOut(run).certs && TimedOut(run).certs[slot] == TimedOut(run[..i]).certs[slot]
    decreases |run|
  {
    hide FromRows, Certify, Enumerates, Counts;
    if i == |run| {
      assert run[..i] == run;
    } else {
      var n := |run| - 1;
      assert run[..n][..i] == run[..i];
      CertificateStays(run[..n], i, slot);
    }
  }

  /** A prune forgets exactly the slots below `cutoff`, with the persisted votes of those it had in memory, and of
      the rest the persisted votes below `spent`. */
  lemma PrunedExactly(d: Timeouts, cutoff: nat, spent: nat)
    ensures var after := StepTimeouts(d, PruneTimeouts(cutoff, spent));
            && (forall s :: s in after.tallies <==> s in d.tallies && s.height >= cutoff)
            && (forall s :: s in after.tallies ==> after.tallies[s] == d.tallies[s])
            && (forall k :: k in after.rows ==> k in d.rows && after.rows[k] == d.rows[k] && k.0.height >= spent)
            && (forall k :: k in after.rows && k.0 in d.tallies ==> k.0 in after.tallies)
            && (forall k :: k in d.rows && k.0.height >= spent && (k.0 in d.tallies ==> k.0 in after.tallies) ==>
                  k in after.rows)
            && after.certs == d.certs && after.adopted == d.adopted
  {
  }

  /** Event `i` counted and filed a timeout vote of `a` at `slot`. */
  ghost predicate FilesTimeout(run: seq<TimeoutEvent>, i: int, slot: Slot, a: Address) {
    0 <= i < |run| && CountsTimeout(TimedOut(run[..i]), run[i]) && run[i].slot == slot && run[i].voter == a
  }

  /** And no later event did. */
  ghost predicate LastTimeout(run: seq<TimeoutEvent>, i: int, slot: Slot, a: Address) {
    FilesTimeout(run, i, slot, a) && forall j :: i < j < |run| ==> !FilesTimeout(run, j, slot, a)
  }

  /** The event deletes persisted votes of height `h` without touching those in memory. */
  predicate Unfiles(ev: TimeoutEvent, h: nat) {
    (ev.PruneTimeouts? && ev.spent > h) || (ev.RevertTimeouts? && ev.height + 2 <= h)
  }

  /** After event `i` the persisted votes of height `h` were spent or reverted away. */
  predicate UnfiledSince(run: seq<TimeoutEvent>, i: int, h: nat) {
    exists j :: i < j < |run| && 0 <= j && Unfiles(run[j], h)
  }

  /** A vote in memory is the last one filed by its voter at the slot, and it is still on file exactly when
      its height was neither spent nor reverted away since. */
  ghost predicate FiledAs(run: seq<TimeoutEvent>, i: int, slot: Slot, a: Address) {
    var d := TimedOut(run);
    && LastTimeout(run, i, slot, a) && 0 <= i < |run| && run[i].HearTimeout?
    && (slot in d.tallies && a in d.tallies[slot] ==>
          d.tallies[slot][a] == run[i].sig && ((slot, a) in d.rows <==> !UnfiledSince(run, i, slot.height)))
    && ((slot, a) in d.rows ==> d.rows[(slot, a)] == run[i].sig && !UnfiledSince(run, i, slot.height))
  }

  lemma {:induction false} MemoryFiled(run: seq<TimeoutEvent>, slot: Slot, a: Address) returns (i: int)
    requires var d := TimedOut(run); (slot in d.tallies && a in d.tallies[slot]) || (slot, a) in d.rows
    ensures FiledAs(run, i, slot, a)
  {
    hide Certify, Enumerates, Counts;
    var n := |run| - 1;
    var d, ev := TimedOut(run[..n]), run[n];
    if FilesTimeout(run, n, slot, a) {
      i := n;
      JustFiled(run, slot, a);
    } else {
      WasFiled(d, ev, slot, a) by { assert CountsTimeout(d, ev) ==> ev.slot != slot || ev.voter != a; }
      i := MemoryFiled(run[..n], slot, a);
      FiledOn(run, i, slot, a);
    }
  }

  lemma WasFiled(d: Timeouts, ev: TimeoutEvent, slot: Slot, a: Address)
    requires CountsTimeout(d, ev) ==> ev.slot != slot || ev.voter != a
    requires var e := StepTimeouts(d, ev); (slot in e.tallies && a in e.tallies[slot]) || (slot, a) in e.rows
    ensures (slot in d.tallies && a in d.tallies[slot]) || (slot, a) in d.rows
  {
    hide Certify, Enumerates, Counts;
  }

  lemma JustFiled(run: seq<TimeoutEvent>, slot: Slot, a: Address)
    requires run != [] && FilesTimeout(run, |run| - 1, slot, a)
    ensures FiledAs(run, |run| - 1, slot, a)
  {
    hide Certify, Enumerates, Counts;
  }

  /** An event that files nothing for the voter at the slot. */
  lemma StepFiled(d: Timeouts, ev: TimeoutEvent, slot: Slot, a: Address)
    requires CountsTimeout(d, ev) ==> ev.slot != slot || ev.voter != a
    ensures var e := StepTimeouts(d, ev);
            && ((slot, a) in e.rows ==>
                  (slot, a) in d.rows && e.rows[(slot, a)] == d.rows[(slot, a)] && !Unfiles(ev, slot.height))
            && (slot in e.tallies && a in e.tallies[slot] ==>
                  if ev.RestartTimeouts? then (slot, a) in d.rows && e.tallies[slot][a] == d.rows[(slot, a)]
                  else slot in d.tallies && a in d.tallies[slot] && e.tallies[slot][a] == d.tallies[slot][a])
            && (slot in e.tallies && (slot, a) in d.rows && !Unfiles(ev, slot.height) ==> (slot, a) in e.rows)
  {
    hide Certify, Enumerates, Counts;
  }

  lemma FiledOn(run: seq<TimeoutEvent>, i: int, slot: Slot, a: Address)
    requires run != [] && FiledAs(run[..|run| - 1], i, slot, a) && !FilesTimeout(run, |run| - 1, slot, a)
    ensures FiledAs(run, i, slot, a)
  {
    hide CountsTimeout, StepTimeouts, Unfiles;
    var n := |run| - 1;
    var d, ev := TimedOut(run[..n]), run[n];
    StepFiled(d, ev, slot, a);
    LastTimeoutOn(run, i, slot, a);
    UnfiledOn(run, i, slot.height);
  }

  lemma LastTimeoutOn(run: seq<TimeoutEvent>, i: int, slot: Slot, a: Address)
    requires run != [] && LastTimeout(run[..|run| - 1], i, slot, a) && !FilesTimeout(run, |run| - 1, slot, a)
    ensures LastTimeout(run, i, slot, a) && 0 <= i < |run| - 1
  {
    hide CountsTimeout, StepTimeouts;
    var n := |run| - 1;
    forall j | 0 <= j < n ensures FilesTimeout(run, j, slot, a) <==> FilesTimeout(run[..n], j, slot, a) {
      assert run[..n][..j] == run[..j];
    }
  }

  lemma UnfiledOn(run: seq<TimeoutEvent>, i: int, h: nat)
    requires run != [] && 0 <= i < |run| - 1
    ensures var n := |run| - 1;
            UnfiledSince(run, i, h) <==> Unfiles(run[n], h) || UnfiledSince(run[..n], i, h)
  {
    hide Unfiles;
    var n := |run| - 1;
    if UnfiledSince(run[..n], i, h) {
      var j :| i < j < n && 0 <= j && Unfiles(run[..n][j], h);
      assert Unfiles(run[j], h);
    }
    if UnfiledSince(run, i, h) && !Unfiles(run[n], h) {
      var j :| i < j < |run| && 0 <= j && Unfiles(run[j], h);
      assert Unfiles(run[..n][j], h);
    }
  }

  /** The voter's vote is in the tally of the slot, with this signature. */
  predicate InMemory(d: Timeouts, slot: Slot, a: Address, sig: Signature) {
    slot in d.tallies && a in d.tallies[slot] && d.tallies[slot][a] == sig
  }

  /** A vote in memory - one over a replaced parent too - comes back after a restart exactly when the cutoff
      keeps its height and, since its voter's last vote at the slot, its height was not spent and no revert
      went to two heights below it or lower. */
  lemma RestartKeepsVotes(run: seq<TimeoutEvent>, slot: Slot, a: Address, cutoff: nat) returns (i: int)
    requires slot in TimedOut(run).tallies && a in TimedOut(run).tallies[slot]
    ensures LastTimeout(run, i, slot, a) && 0 <= i < |run|
    ensures var d := TimedOut(run);
            InMemory(StepTimeouts(d, RestartTimeouts(cutoff)), slot, a, d.tallies[slot][a]) <==>
            slot.height >= cutoff && !UnfiledSince(run, i, slot.height)
    ensures var back := StepTimeouts(TimedOut(run), RestartTimeouts(cutoff)).tallies;
            slot in back && a in back[slot] ==> slot.height >= cutoff && !UnfiledSince(run, i, slot.height)
  {
    hide TimedOut, UnfiledSince, LastTimeout, StepTimeouts, FromRows;
    i := MemoryFiled(run, slot, a);
    RestartReads(TimedOut(run), cutoff);
    BackFromRows(TimedOut(run).rows, slot, a, cutoff);
  }

  lemma RestartReads(d: Timeouts, cutoff: nat)
    ensures StepTimeouts(d, RestartTimeouts(cutoff)).tallies == FromRows(d.rows, cutoff)
  {
    hide FromRows;
  }

  lemma BackFromRows(rows: map<(Slot, Address), Signature>, slot: Slot, a: Address, cutoff: nat)
    ensures var back := FromRows(rows, cutoff);
            && (slot in back && a in back[slot] <==> slot.height >= cutoff && (slot, a) in rows)
            && (slot in back && a in back[slot] ==> back[slot][a] == rows[(slot, a)])
  {
    if (slot, a) in rows {
      assert a in SlotVoters(rows, slot);
    }
  }

  /** What a revert and a restart lose: a timeout vote is counted and in memory, the provisional chain is
      unwound to two heights below it or lower, and a restart no longer finds it - although a restart
      alone would have. */
  lemma RevertThenRestartLoses(w: World, parent: Block, slot: Slot, a: Address, sig: Signature, height: nat)
    requires Counts(w, Vote(TimeoutMsg(slot, parent), a, sig)) && height + 2 <= slot.height
    requires !IsQuorum(w.members(slot.height), {a})
    ensures var heard := [HearTimeout(w, Some(parent), slot, a, sig, [a])];
            && InMemory(TimedOut(heard + [RevertTimeouts(height)]), slot, a, sig)
            && slot !in TimedOut(heard + [RevertTimeouts(height), RestartTimeouts(0)]).tallies
            && InMemory(TimedOut(heard + [RestartTimeouts(0)]), slot, a, sig)
  {
    hide Counts, IsQuorum, FromRows;
    var ev := HearTimeout(w, Some(parent), slot, a, sig, [a]);
    var heard := [ev];
    HeardAlone(w, parent, slot, a, sig);
    var d := TimedOut(heard);
    assert (heard + [RevertTimeouts(height)])[..1] == heard && (heard + [RestartTimeouts(0)])[..1] == heard;
    assert (heard + [RevertTimeouts(height), RestartTimeouts(0)])[..2] == heard + [RevertTimeouts(height)];
    BackFromRows(d.rows, slot, a, 0);
    assert TimedOut(heard + [RevertTimeouts(height)]).rows == map[];
    NothingBack();
  }

  lemma HeardAlone(w: World, parent: Block, slot: Slot, a: Address, sig: Signature)
    requires Counts(w, Vote(TimeoutMsg(slot, parent), a, sig)) && !IsQuorum(w.members(slot.height), {a})
    ensures TimedOut([HearTimeout(w, Some(parent), slot, a, sig, [a])])
            == Timeouts(map[slot := map[a := sig]], map[(slot, a) := sig], map[], {})
  {
    hide Counts, IsQuorum, FromRows;
    var ev := HearTimeout(w, Some(parent), slot, a, sig, [a]);
    assert [ev][..0] == [] && TimedOut([]) == NO_TIMEOUTS;
    assert Elements([a]) == {a} == SlotBucket(NO_TIMEOUTS, slot, a, sig).Keys;
    assert CountsTimeout(NO_TIMEOUTS, ev);
    assert TimedOut([ev]) == StepTimeouts(NO_TIMEOUTS, ev);
  }

  lemma NothingBack()
    ensures FromRows(map[], 0) == map[]
  {
  }

  /** The round-timeout tallies as the engine keeps them. */
  class TimeoutDesk {
    var tallies: map<Slot, Bucket>
    var rows: map<(Slot, Address), Signature>
    var certs: map<Slot, Certificate>
    var adopted: set<Slot>

    function Contents(): Timeouts
      reads this
    {
      Timeouts(tallies, rows, certs, adopted)
    }

    constructor ()
      ensures Contents() == NO_TIMEOUTS
    {
      tallies, rows, certs, adopted := map[], map[], map[], {};
    }

    /** `tally_round_timeout`. */
    method TallyTimeout(w: World, parent: Option<Block>, slot: Slot, voter: Address, sig: Signature)
        returns (ghost order: seq<Address>)
      modifies this
      ensures Enumerates(order, SlotBucket(old(Contents()), slot, voter, sig).Keys)
      ensures Contents() == StepTimeouts(old(Contents()), HearTimeout(w, parent, slot, voter, sig, order))
    {
      hide Enumerates, Counts, Certify, FromRows;
      var bucket := SlotBucket(Contents(), slot, voter, sig);
      var c: Option<Certificate>;
      c, order := D.CertifyBucket(w, TimeoutMsg(slot, if parent.Some? then parent.value else Genesis), bucket);
      if slot in certs || slot in adopted || parent.None? {
        return;
      }
      if !Counts(w, Vote(TimeoutMsg(slot, parent.value), voter, sig)) {
        return;
      }
      rows := rows[(slot, voter) := sig];
      if c.None? {
        tallies := tallies[slot := bucket];
        return;
      }
      certs := certs[slot := c.value];
      tallies := tallies - {slot};
    }

    /** What `revert_to` does to round certificates and persisted timeout votes. */
    method Revert(height: nat)
      modifies `rows, `certs, `adopted
      ensures Contents() == StepTimeouts(old(Contents()), RevertTimeouts(height))
    {
      rows := map k | k in rows && k.0.height < height + 2 :: rows[k];
      certs := map s | s in certs && s.height < height + 2 :: certs[s];
      adopted := set s | s in adopted && s.height < height + 2;
    }

    /** `prune`, for round timeouts. */
    method Prune(cutoff: nat, spent: nat)
      modifies `tallies, `rows
      ensures Contents() == StepTimeouts(old(Contents()), PruneTimeouts(cutoff, spent))
    {
      rows := map k | k in rows && k.0.height >= spent :: rows[k];
      var aged := set s | s in tallies && s.height < cutoff;
      rows := map k | k in rows && k.0 !in aged :: rows[k];
      tallies := map s | s in tallies && s.height >= cutoff :: tallies[s];
    }
  }
}

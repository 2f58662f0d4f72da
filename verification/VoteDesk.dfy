/** The precommit tally as a node keeps it across votes, pruning, reverts and restarts
    (arxd/finality/src/lib.rs, `tally_vote`, `prune`, `reload`; core/storage/src/lib.rs, `revert_to`). */
module VoteDesk {
  import opened TextFormat
  import opened VotingPower
  import opened Blocks
  import opened Tally

  /** A persisted vote is filed by slot, block and voter; the execution proof is not part of its key. */
  datatype RowKey = RowKey(slot: Slot, block: Block, voter: Address)

  /** Tallies in memory, persisted votes, the finality record this tally wrote for a height, and the
      heights whose record came from a peer. */
  datatype Desk = Desk(tallies: map<Message, Bucket>, rows: map<RowKey, Vote>, final: map<nat, Certificate>,
                       given: set<nat>)

  const EMPTY := Desk(map[], map[], map[], {})

  function KeyOf(v: Vote): RowKey {
    RowKey(v.msg.slot, v.msg.ballot.block, v.voter)
  }

  function BucketOf(d: Desk, msg: Message): Bucket {
    if msg in d.tallies then d.tallies[msg] else map[]
  }

  function Joined(d: Desk, v: Vote): Bucket {
    BucketOf(d, v.msg)[v.voter := v.sig]
  }

  predicate Admitted(w: World, d: Desk, v: Vote) {
    v.msg.slot.height !in d.final && v.msg.slot.height !in d.given && Counts(w, v)
  }

  /** The vote counted and persisted. */
  function Counted(d: Desk, v: Vote): Desk {
    d.(tallies := d.tallies[v.msg := Joined(d, v)], rows := d.rows[KeyOf(v) := v])
  }

  /** The height is settled: its votes are dropped. */
  function Settled(d: Desk, c: Certificate): Desk {
    var h := c.msg.slot.height;
    Desk(map m | m in d.tallies && m.slot.height != h :: d.tallies[m],
         map k | k in d.rows && k.slot.height != h :: d.rows[k],
         d.final[h := c], d.given)
  }

  /** `tally_vote`, the bucket walked in `order`. */
  ghost function Heard(w: World, d: Desk, v: Vote, order: seq<Address>): Desk
    requires Enumerates(order, Joined(d, v).Keys)
  {
    if !Admitted(w, d, v) then d
    else
      var c := Certify(w, v.msg, Joined(d, v), order);
      if c.None? then Counted(d, v) else Settled(Counted(d, v), c.value)
  }

  /** Some vote of the height is in memory. */
  predicate Known(d: Desk, h: nat) {
    exists m :: m in d.tallies && m.slot.height == h
  }

  /** `prune`, for precommits. */
  function Pruned(d: Desk, cutoff: nat): Desk {
    d.(tallies := map m | m in d.tallies && m.slot.height >= cutoff :: d.tallies[m],
       rows := map k | k in d.rows && (k.slot.height >= cutoff || !Known(d, k.slot.height)) :: d.rows[k])
  }

  /** `revert_to(height)`, for precommits: the rows of the blocks above the next height go, memory stays. */
  function Reverted(d: Desk, height: nat): Desk {
    d.(rows := map k | k in d.rows && k.slot.height < height + 2 :: d.rows[k])
  }

  /** The voters with a row for `msg`. */
  function Filed(rows: map<RowKey, Vote>, msg: Message): set<Address> {
    set k | k in rows && rows[k].msg == msg :: rows[k].voter
  }

  ghost predicate RowsKeyed(rows: map<RowKey, Vote>) {
    forall k :: k in rows ==> k == KeyOf(rows[k])
  }

  /** The buckets the rows at or above `cutoff` make. */
  ghost function TalliesFrom(rows: map<RowKey, Vote>, cutoff: nat): map<Message, Bucket>
    requires RowsKeyed(rows)
  {
    map m | m in (set k | k in rows && k.slot.height >= cutoff :: rows[k].msg) ::
      map a | a in Filed(rows, m) :: rows[RowKey(m.slot, m.ballot.block, a)].sig
  }

  /** `reload`: memory rebuilt from the rows at or above `cutoff`. */
  ghost function Reloaded(d: Desk, cutoff: nat): Desk
    requires RowsKeyed(d.rows)
  {
    d.(tallies := TalliesFrom(d.rows, cutoff))
  }

  // ----- every run

  /** A vote heard while the database reads `w`; a prune; a revert carried out; a finality record from a
      peer; a restart. What the database reads about a height may change from one vote to the next. */
  datatype Event =
    | Hear(w: World, vote: Vote, order: seq<Address>)
    | Prune(cutoff: nat)
    | Revert(height: nat)
    | Given(height: nat)
    | Restart(cutoff: nat)

  ghost function Step(d: Desk, ev: Event): Desk {
    match ev
    case Hear(w, v, order) => if Enumerates(order, Joined(d, v).Keys) then Heard(w, d, v, order) else d
    case Prune(cutoff) => Pruned(d, cutoff)
    case Revert(height) => Reverted(d, height)
    case Given(height) => d.(given := d.given + {height})
    case Restart(cutoff) => if RowsKeyed(d.rows) then Reloaded(d, cutoff) else d
  }

  ghost function Exec(run: seq<Event>): Desk {
    if run == [] then EMPTY else Step(Exec(run[..|run| - 1]), run[|run| - 1])
  }

  /** The event's vote joins its tally. */
  ghost predicate Takes(d: Desk, ev: Event) {
    ev.Hear? && Enumerates(ev.order, Joined(d, ev.vote).Keys) && Admitted(ev.w, d, ev.vote)
  }

  lemma {:induction false} AlwaysKeyed(run: seq<Event>)
    ensures RowsKeyed(Exec(run).rows)
  {
    hide Certify, Enumerates, Counts, TalliesFrom;
    if run != [] {
      AlwaysKeyed(run[..|run| - 1]);
    }
  }

  lemma CertifiesMessage(w: World, msg: Message, bucket: Bucket, order: seq<Address>)
    requires Enumerates(order, bucket.Keys) && Certify(w, msg, bucket, order).Some?
    ensures Certify(w, msg, bucket, order).value.msg == msg
  {
  }

  /** What hearing a vote does, in every run: one signed by a member, for a height without a record, is counted and
      persisted, or completes the record of its height; any other changes nothing. */
  lemma HearingCounts(run: seq<Event>, w: World, v: Vote, order: seq<Address>)
    requires Enumerates(order, Joined(Exec(run), v).Keys)
    ensures var d, after, h := Exec(run), Exec(run + [Hear(w, v, order)]), v.msg.slot.height;
            if SignedByMember(w, v) && h !in d.final && h !in d.given then
              && (h !in after.final ==>
                    && BucketOf(after, v.msg) == BucketOf(d, v.msg)[v.voter := v.sig]
                    && KeyOf(v) in after.rows && after.rows[KeyOf(v)] == v)
              && (h in after.final ==>
                    && after.final[h].msg == v.msg && Elements(after.final[h].signers) == Joined(d, v).Keys
                    && forall m :: m in after.tallies ==> m.slot.height != h)
            else after == d
  {
    hide Enumerates, IsQuorum, VerifyAggregate;
    assert (run + [Hear(w, v, order)])[..|run|] == run;
    if Certify(w, v.msg, Joined(Exec(run), v), order).Some? {
      CertifiesBucket(w, v.msg, Joined(Exec(run), v), order);
    }
  }

  lemma CertifiesBucket(w: World, msg: Message, bucket: Bucket, order: seq<Address>)
    requires Enumerates(order, bucket.Keys) && Certify(w, msg, bucket, order).Some?
    ensures Elements(Certify(w, msg, bucket, order).value.signers) == bucket.Keys
  {
  }

  /** A record from a peer is what `given` holds. */
  lemma {:induction false} GivenIff(run: seq<Event>, h: nat)
    ensures h in Exec(run).given <==> exists i :: 0 <= i < |run| && run[i] == Given(h)
  {
    hide Heard, Enumerates, TalliesFrom, Known;
    if run != [] {
      var n := |run| - 1;
      GivenIff(run[..n], h);
      assert run[n] == Given(h) || forall i :: 0 <= i < |run| && run[i] == Given(h) ==> run[..n][i] == Given(h);
      HeardGiven(Exec(run[..n]), run[n]);
    }
  }

  lemma HeardGiven(d: Desk, ev: Event)
    ensures Step(d, ev).given == d.given + if ev.Given? then {ev.height} else {}
  {
    hide Enumerates, Certify, TalliesFrom, Known;
  }

  // ----- every record, under the worlds it was written in

  /** Every record was written by one vote of the run: a certificate of the bucket that vote joined,
      under what the database read then. */
  lemma {:induction false} RecordWritten(run: seq<Event>, h: nat) returns (i: nat)
    requires h in Exec(run).final
    ensures i < |run| && Takes(Exec(run[..i]), run[i]) && run[i].vote.msg.slot.height == h
    ensures var ev, bucket := run[i], Joined(Exec(run[..i]), run[i].vote);
            Certify(ev.w, ev.vote.msg, bucket, ev.order) == Some(Exec(run).final[h])
  {
    hide Certify, Enumerates, Counts, Joined, TalliesFrom;
    var n := |run| - 1;
    var d := Exec(run[..n]);
    if h in d.final && Exec(run).final[h] == d.final[h] {
      i := RecordWritten(run[..n], h);
      assert run[..n][..i] == run[..i];
    } else {
      i := n;
      CertifiesMessage(run[n].w, run[n].vote.msg, Joined(d, run[n].vote), run[n].order);
    }
  }

  /** Exactly when a record passes the check of a node that reads `other`. */
  lemma RecordHoldsIff(run: seq<Event>, h: nat, other: World) returns (i: nat)
    requires h in Exec(run).final
    ensures i < |run| && run[i].Hear?
    ensures var w, c := run[i].w, Exec(run).final[h];
            Holds(other, c) <==>
              && Elements(c.signers) <= other.members(h).Keys && IsQuorum(other.members(h), Elements(c.signers))
              && AllKnown(other, h, c.signers)
              && multiset(KnownKeys(other, h, c.signers)) == multiset(KnownKeys(w, h, c.signers))
  {
    hide Holds, KnownKeys, IsQuorum, Exec;
    i := RecordWritten(run, h);
    WrittenHoldsIff(run[i].w, other, run[i].vote.msg, Joined(Exec(run[..i]), run[i].vote), run[i].order);
  }

  /** The record of `h` was written while the database read about `h` what `w` says, whatever it read when
      the votes before that came in. */
  ghost predicate WrittenUnder(run: seq<Event>, h: nat, w: World) {
    h in Exec(run).final &&
    exists i :: 0 <= i < |run| && Writes(run, i, h) && SameAt(run[i].w, w, h)
  }

  /** Event `i` wrote the record of `h`. */
  ghost predicate Writes(run: seq<Event>, i: nat, h: nat)
    requires i < |run| && h in Exec(run).final
  {
    var ev := run[i];
    && Takes(Exec(run[..i]), ev) && ev.vote.msg.slot.height == h
    && Certify(ev.w, ev.vote.msg, Joined(Exec(run[..i]), ev.vote), ev.order) == Some(Exec(run).final[h])
  }

  /** Such a record passes the check of a node that reads `w` exactly when its signers are members there. */
  lemma MembersOnlyHolds(run: seq<Event>, h: nat, w: World)
    requires WrittenUnder(run, h, w)
    ensures var c := Exec(run).final[h];
            && c.msg.slot.height == h && (Holds(w, c) <==> Elements(c.signers) <= w.members(h).Keys)
  {
    hide Exec, Holds, SameAt, Joined, KnownKeys;
    var i :| 0 <= i < |run| && Writes(run, i, h) && SameAt(run[i].w, w, h);
    var ev := run[i];
    SameWorldHoldsIff(ev.w, w, ev.vote.msg, Joined(Exec(run[..i]), ev.vote), ev.order);
    assert ev.w.members(h) == w.members(h) by { SameMembers(ev.w, w, h); }
  }

  lemma SameMembers(w: World, other: World, h: nat)
    requires SameAt(w, other, h)
    ensures w.members(h) == other.members(h)
  {
  }

  /** Whenever a vote of the run was heard, the database read about `h` what `w` says. */
  ghost predicate Steady(w: World, run: seq<Event>, h: nat) {
    forall i :: 0 <= i < |run| && run[i].Hear? ==> SameAt(run[i].w, w, h)
  }

  /** At height `h`, everything counted or persisted is a verified vote of a member, and the record
      passes the check. */
  ghost predicate SoundAt(w: World, d: Desk, h: nat) {
    && RowsKeyed(d.rows)
    && (forall m :: m in d.tallies && m.slot.height == h ==> Verified(w, m, d.tallies[m]))
    && (forall k :: k in d.rows && k.slot.height == h ==> Counts(w, d.rows[k]))
    && (h in d.final ==> d.final[h].msg.slot.height == h && Holds(w, d.final[h]))
  }

  lemma CountedSound(w: World, d: Desk, v: Vote, h: nat)
    requires SoundAt(w, d, h) && (v.msg.slot.height == h ==> Counts(w, v))
    ensures SoundAt(w, Counted(d, v), h) && (v.msg.slot.height == h ==> Verified(w, v.msg, Joined(d, v)))
  {
    hide Holds, Counts;
    if v.msg.slot.height == h {
      forall a | a in Joined(d, v) ensures Counts(w, Vote(v.msg, a, Joined(d, v)[a])) {
        if a == v.voter {
          assert Vote(v.msg, a, Joined(d, v)[a]) == v;
        } else {
          assert Verified(w, v.msg, d.tallies[v.msg]);
        }
      }
    }
  }

  lemma VerifiedMembers(w: World, msg: Message, bucket: Bucket)
    requires Verified(w, msg, bucket)
    ensures bucket.Keys <= w.members(msg.slot.height).Keys
  {
    forall a | a in bucket ensures a in w.members(msg.slot.height) {
      assert Counts(w, Vote(msg, a, bucket[a]));
    }
  }

  lemma HeardSound(w: World, now: World, d: Desk, v: Vote, order: seq<Address>, h: nat)
    requires SoundAt(w, d, h) && SameAt(now, w, h) && Enumerates(order, Joined(d, v).Keys)
    ensures SoundAt(w, Heard(now, d, v, order), h)
  {
    hide Holds, Certify, IsQuorum, Enumerates, Joined, Counted, KnownKeys;
    if Admitted(now, d, v) {
      CountedSound(w, d, v, h);
      if Certify(now, v.msg, Joined(d, v), order).Some? {
        CertifiesMessage(now, v.msg, Joined(d, v), order);
        if v.msg.slot.height == h {
          VerifiedMembers(w, v.msg, Joined(d, v));
          SameWorldHoldsIff(now, w, v.msg, Joined(d, v), order);
        }
      }
    }
  }

  lemma ReloadedSound(w: World, d: Desk, cutoff: nat, h: nat)
    requires SoundAt(w, d, h)
    ensures SoundAt(w, Reloaded(d, cutoff), h)
  {
    hide Holds, Counts;
    var r := Reloaded(d, cutoff);
    forall m, a | m in r.tallies && m.slot.height == h && a in r.tallies[m]
      ensures Counts(w, Vote(m, a, r.tallies[m][a]))
    {
      var k := RowKey(m.slot, m.ballot.block, a);
      assert Vote(m, a, r.tallies[m][a]) == d.rows[k];
    }
  }

  /** However votes arrive, and across any pruning and restarts: while what the database reads about a
      height does not change, only verified votes of distinct members are counted there, and the
      record written there passes the check of every node that reads the same. */
  lemma {:induction false} EveryRecordHolds(w: World, run: seq<Event>, h: nat)
    requires Steady(w, run, h)
    ensures SoundAt(w, Exec(run), h)
  {
    hide Holds, Counts, Heard, Reloaded, Enumerates, SameAt;
    if run != [] {
      var n := |run| - 1;
      var d := Exec(run[..n]);
      EveryRecordHolds(w, run[..n], h);
      match run[n]
      case Hear(now, v, order) =>
        assert SameAt(run[n].w, w, h);
        if Enumerates(order, Joined(d, v).Keys) {
          HeardSound(w, now, d, v, order, h);
        }
      case Restart(cutoff) => ReloadedSound(w, d, cutoff, h);
      case _ =>
    }
  }

  // ----- equivocation

  /** The tallies already hold another ballot of the voter at the slot. */
  predicate Conflicts(tallies: map<Message, Bucket>, v: Vote, other: Message) {
    other in tallies && other.slot == v.msg.slot && other.ballot != v.msg.ballot && v.voter in tallies[other]
  }

  /** Whether `tally_vote` reports an equivocation when it hears `v`. */
  ghost predicate Reports(w: World, d: Desk, v: Vote) {
    Admitted(w, d, v) && exists other :: Conflicts(d.tallies, v, other)
  }

  /** Some event of the run counted `voter`'s vote for `msg`, with this signature. */
  ghost predicate Heeded(run: seq<Event>, msg: Message, voter: Address, sig: Signature) {
    exists i :: 0 <= i < |run| && Takes(Exec(run[..i]), run[i]) && run[i].vote == Vote(msg, voter, sig)
  }

  /** Nothing is in the tallies or on file that was not counted. */
  ghost predicate AllHeeded(run: seq<Event>, d: Desk) {
    && (forall m, a :: m in d.tallies && a in d.tallies[m] ==> Heeded(run, m, a, d.tallies[m][a]))
    && (forall k :: k in d.rows ==> Heeded(run, d.rows[k].msg, d.rows[k].voter, d.rows[k].sig))
  }

  lemma HeededLater(run: seq<Event>, ev: Event, msg: Message, voter: Address, sig: Signature)
    requires Heeded(run, msg, voter, sig)
    ensures Heeded(run + [ev], msg, voter, sig)
  {
    var i :| 0 <= i < |run| && Takes(Exec(run[..i]), run[i]) && run[i].vote == Vote(msg, voter, sig);
    assert (run + [ev])[..i] == run[..i] && (run + [ev])[i] == run[i];
  }

  lemma AllHeededLater(run: seq<Event>, ev: Event, d: Desk)
    requires AllHeeded(run, d)
    ensures AllHeeded(run + [ev], d)
  {
    hide Heeded;
    forall m, a | m in d.tallies && a in d.tallies[m] ensures Heeded(run + [ev], m, a, d.tallies[m][a]) {
      HeededLater(run, ev, m, a, d.tallies[m][a]);
    }
    forall k | k in d.rows ensures Heeded(run + [ev], d.rows[k].msg, d.rows[k].voter, d.rows[k].sig) {
      HeededLater(run, ev, d.rows[k].msg, d.rows[k].voter, d.rows[k].sig);
    }
  }

  lemma HeededNow(run: seq<Event>, ev: Event)
    requires Takes(Exec(run), ev)
    ensures Heeded(run + [ev], ev.vote.msg, ev.vote.voter, ev.vote.sig)
  {
    assert (run + [ev])[..|run|] == run && (run + [ev])[|run|] == ev;
  }

  lemma StepHeeded(run: seq<Event>, d: Desk, ev: Event)
    requires AllHeeded(run, d) && RowsKeyed(d.rows)
    requires Takes(d, ev) ==> Heeded(run, ev.vote.msg, ev.vote.voter, ev.vote.sig)
    ensures AllHeeded(run, Step(d, ev))
  {
    hide Heeded, Certify, Enumerates, Counts;
    if ev.Restart? {
      var r := Reloaded(d, ev.cutoff);
      forall m, a | m in r.tallies && a in r.tallies[m] ensures Heeded(run, m, a, r.tallies[m][a]) {
        var k := RowKey(m.slot, m.ballot.block, a);
        assert Vote(m, a, r.tallies[m][a]) == d.rows[k];
      }
    }
  }

  lemma {:induction false} OnlyHeeded(run: seq<Event>)
    ensures AllHeeded(run, Exec(run))
  {
    hide Heeded, Step, Takes;
    if run != [] {
      var n := |run| - 1;
      var before, ev := run[..n], run[n];
      assert run == before + [ev];
      OnlyHeeded(before);
      AlwaysKeyed(before);
      AllHeededLater(before, ev, Exec(before));
      if Takes(Exec(before), ev) {
        HeededNow(before, ev);
      }
      StepHeeded(run, Exec(before), ev);
    }
  }

  /** A report is proof, in every run: two signatures of one validator on two ballots of one slot, the
      earlier one verified against the set and key in force when it was counted, the later one now. */
  lemma ReportProves(run: seq<Event>, w: World, v: Vote, other: Message) returns (i: nat)
    requires Admitted(w, Exec(run), v) && Conflicts(Exec(run).tallies, v, other)
    ensures Counts(w, v) && other.slot == v.msg.slot && other.ballot != v.msg.ballot
    ensures i < |run| && run[i].Hear? && Counts(run[i].w, run[i].vote)
    ensures run[i].vote == Vote(other, v.voter, Exec(run).tallies[other][v.voter])
  {
    hide Exec;
    OnlyHeeded(run);
    assert Heeded(run, other, v.voter, Exec(run).tallies[other][v.voter]);
    i :| 0 <= i < |run| && Takes(Exec(run[..i]), run[i])
         && run[i].vote == Vote(other, v.voter, Exec(run).tallies[other][v.voter]);
  }

  // What a run remembers, told from its events alone.

  /** `voter`'s vote for `msg` was counted and is still remembered: no prune passed its height since,
      and at each restart since it was the vote on file. A revert alone forgets nothing. */
  ghost predicate StillCounted(run: seq<Event>, msg: Message, voter: Address)
    decreases |run|, 0
  {
    run != [] &&
    var n := |run| - 1;
    match run[n]
    case Hear(_, v, _) =>
      || StillCounted(run[..n], msg, voter)
      || (v.msg == msg && v.voter == voter && Takes(Exec(run[..n]), run[n]))
    case Prune(cutoff) => StillCounted(run[..n], msg, voter) && msg.slot.height >= cutoff
    case Restart(cutoff) =>
      msg.slot.height >= cutoff && msg in OnFile(run[..n], RowKey(msg.slot, msg.ballot.block, voter))
    case _ => StillCounted(run[..n], msg, voter)
  }

  /** The message of the last vote counted under `key`, unless since then a prune dropped its height while
      some vote of that height was remembered, or a revert went to two heights below it or lower. */
  ghost function OnFile(run: seq<Event>, key: RowKey): (file: set<Message>)
    ensures forall m, o :: m in file && o in file ==> m == o
    decreases |run|, 1
  {
    if run == [] then {}
    else
      var n := |run| - 1;
      match run[n]
      case Hear(_, v, _) => if Takes(Exec(run[..n]), run[n]) && KeyOf(v) == key then {v.msg} else OnFile(run[..n], key)
      case Prune(cutoff) =>
        if key.slot.height < cutoff && Remembers(run[..n], key.slot.height) then {} else OnFile(run[..n], key)
      case Revert(height) => if key.slot.height >= height + 2 then {} else OnFile(run[..n], key)
      case _ => OnFile(run[..n], key)
  }

  ghost predicate Remembers(run: seq<Event>, h: nat)
    decreases |run|, 2
  {
    exists m: Message, a :: m.slot.height == h && StillCounted(run, m, a)
  }

  /** At an open height the desk holds exactly what the run's events say. */
  ghost predicate Tells(run: seq<Event>, d: Desk, h: nat) {
    && (forall msg: Message, voter ::
          msg.slot.height == h ==> (voter in BucketOf(d, msg) <==> StillCounted(run, msg, voter)))
    && (forall key: RowKey ::
          key.slot.height == h ==> OnFile(run, key) == if key in d.rows then {d.rows[key].msg} else {})
  }

  lemma {:induction false} NoEmptyBucket(run: seq<Event>, m: Message)
    requires m in Exec(run).tallies
    ensures Exec(run).tallies[m] != map[]
  {
    hide Certify, Enumerates, Counts;
    var n := |run| - 1;
    var d := Exec(run[..n]);
    if run[n].Restart? {
      AlwaysKeyed(run[..n]);
      var k :| k in d.rows && k.slot.height >= run[n].cutoff && d.rows[k].msg == m;
      assert d.rows[k].voter in Exec(run).tallies[m];
    } else {
      if m in d.tallies {
        NoEmptyBucket(run[..n], m);
      }
      assert run[n].Hear? ==> run[n].vote.voter in Joined(d, run[n].vote);
    }
  }

  lemma StillOpen(w: World, d: Desk, v: Vote, order: seq<Address>, h: nat)
    requires Enumerates(order, Joined(d, v).Keys) && h !in Heard(w, d, v, order).final
    ensures h !in d.final
  {
    hide Certify;
  }

  lemma BucketAfter(w: World, d: Desk, v: Vote, order: seq<Address>, msg: Message, voter: Address)
    requires Enumerates(order, Joined(d, v).Keys) && msg.slot.height !in Heard(w, d, v, order).final
    ensures voter in BucketOf(Heard(w, d, v, order), msg) <==>
            voter in BucketOf(d, msg) || (Admitted(w, d, v) && v.msg == msg && v.voter == voter)
  {
    hide Certify, Counts, Enumerates;
    if Admitted(w, d, v) && Certify(w, v.msg, Joined(d, v), order).Some? {
      CertifiesMessage(w, v.msg, Joined(d, v), order);
    }
  }

  lemma RowsAfter(w: World, d: Desk, v: Vote, order: seq<Address>, key: RowKey)
    requires Enumerates(order, Joined(d, v).Keys) && key.slot.height !in Heard(w, d, v, order).final
    ensures var rows := Heard(w, d, v, order).rows;
            if Admitted(w, d, v) && KeyOf(v) == key then key in rows && rows[key] == v
            else (key in rows <==> key in d.rows) && (key in rows ==> rows[key] == d.rows[key])
  {
    hide Certify, Counts, Enumerates;
    if Admitted(w, d, v) && Certify(w, v.msg, Joined(d, v), order).Some? {
      CertifiesMessage(w, v.msg, Joined(d, v), order);
    }
  }

  lemma TellsHear(run: seq<Event>, h: nat)
    requires run != [] && run[|run| - 1].Hear? && h !in Exec(run).final
    requires Tells(run[..|run| - 1], Exec(run[..|run| - 1]), h)
    ensures Tells(run, Exec(run), h)
  {
    hide Heard, Admitted, Enumerates, Joined, BucketOf, Exec;
    var n := |run| - 1;
    var d, ev := Exec(run[..n]), run[n];
    assert Exec(run) == Step(d, ev) by { LastStep(run); }
    forall msg: Message, voter | msg.slot.height == h
      ensures voter in BucketOf(Exec(run), msg) <==> StillCounted(run, msg, voter)
    {
      if Enumerates(ev.order, Joined(d, ev.vote).Keys) {
        BucketAfter(ev.w, d, ev.vote, ev.order, msg, voter);
      }
    }
    forall key: RowKey | key.slot.height == h
      ensures OnFile(run, key) == if key in Exec(run).rows then {Exec(run).rows[key].msg} else {}
    {
      if Enumerates(ev.order, Joined(d, ev.vote).Keys) {
        RowsAfter(ev.w, d, ev.vote, ev.order, key);
      }
    }
  }

  lemma LastStep(run: seq<Event>)
    requires run != []
    ensures Exec(run) == Step(Exec(run[..|run| - 1]), run[|run| - 1])
  {
  }

  lemma RemembersIff(run: seq<Event>, h: nat)
    requires Tells(run, Exec(run), h)
    ensures Remembers(run, h) <==> Known(Exec(run), h)
  {
    hide StillCounted, Exec;
    if m: Message :| m in Exec(run).tallies && m.slot.height == h {
      NoEmptyBucket(run, m);
      var a :| a in Exec(run).tallies[m];
      assert a in BucketOf(Exec(run), m);
    }
  }

  lemma TellsPrune(run: seq<Event>, h: nat)
    requires run != [] && run[|run| - 1].Prune?
    requires Tells(run[..|run| - 1], Exec(run[..|run| - 1]), h)
    ensures Tells(run, Exec(run), h)
  {
    hide Exec, Remembers, Pruned, BucketOf;
    var n := |run| - 1;
    var d, cutoff := Exec(run[..n]), run[n].cutoff;
    LastStep(run);
    RemembersIff(run[..n], h);
    forall msg: Message, voter | msg.slot.height == h
      ensures voter in BucketOf(Exec(run), msg) <==> StillCounted(run, msg, voter)
    {
      BucketPruned(d, cutoff, msg);
    }
    forall key: RowKey | key.slot.height == h
      ensures OnFile(run, key) == if key in Exec(run).rows then {Exec(run).rows[key].msg} else {}
    {
      RowsPruned(d, cutoff, key);
    }
  }

  lemma BucketPruned(d: Desk, cutoff: nat, msg: Message)
    ensures BucketOf(Pruned(d, cutoff), msg) == if msg.slot.height >= cutoff then BucketOf(d, msg) else map[]
  {
  }

  lemma RowsPruned(d: Desk, cutoff: nat, key: RowKey)
    ensures var rows := Pruned(d, cutoff).rows;
            && (key in rows <==> key in d.rows && (key.slot.height >= cutoff || !Known(d, key.slot.height)))
            && (key in rows ==> rows[key] == d.rows[key])
  {
  }

  lemma TellsQuiet(run: seq<Event>, h: nat)
    requires run != [] && (run[|run| - 1].Revert? || run[|run| - 1].Given?)
    requires Tells(run[..|run| - 1], Exec(run[..|run| - 1]), h)
    ensures Tells(run, Exec(run), h)
  {
    hide Exec, Remembers;
    var n := |run| - 1;
    var d := Exec(run[..n]);
    LastStep(run);
    assert Exec(run).tallies == d.tallies;
    forall msg: Message, voter | msg.slot.height == h
      ensures voter in BucketOf(Exec(run), msg) <==> StillCounted(run, msg, voter)
    {
      assert BucketOf(Exec(run), msg) == BucketOf(d, msg);
    }
    forall key: RowKey | key.slot.height == h
      ensures OnFile(run, key) == if key in Exec(run).rows then {Exec(run).rows[key].msg} else {}
    {
      assert OnFile(run[..n], key) == if key in d.rows then {d.rows[key].msg} else {};
    }
  }

  lemma TellsRestart(run: seq<Event>, h: nat)
    requires run != [] && run[|run| - 1].Restart?
    requires Tells(run[..|run| - 1], Exec(run[..|run| - 1]), h)
    ensures Tells(run, Exec(run), h)
  {
    hide Exec, Remembers;
    var n := |run| - 1;
    LastStep(run);
    AlwaysKeyed(run[..n]);
    forall msg: Message, voter | msg.slot.height == h
      ensures voter in BucketOf(Exec(run), msg) <==> StillCounted(run, msg, voter)
    {
      BucketReloaded(Exec(run[..n]), run[n].cutoff, msg, voter);
    }
  }

  lemma BucketReloaded(d: Desk, cutoff: nat, msg: Message, voter: Address)
    requires RowsKeyed(d.rows)
    ensures var key := RowKey(msg.slot, msg.ballot.block, voter);
            voter in BucketOf(Reloaded(d, cutoff), msg) <==>
            msg.slot.height >= cutoff && key in d.rows && d.rows[key].msg == msg
  {
    var key := RowKey(msg.slot, msg.ballot.block, voter);
    if msg.slot.height >= cutoff && key in d.rows && d.rows[key].msg == msg {
      assert voter in Filed(d.rows, msg);
      assert msg in Reloaded(d, cutoff).tallies;
    }
  }

  /** While a height is open, the desk holds exactly the votes it counted there and still remembers,
      across any pruning, reverts and restarts. */
  lemma {:induction false} HoldsWhatItCounted(run: seq<Event>, h: nat)
    requires h !in Exec(run).final
    ensures Tells(run, Exec(run), h)
  {
    hide Tells, Heard, Enumerates;
    if run == [] {
      assert Tells(run, EMPTY, h) by { NothingTold(h); }
    } else {
      var n := |run| - 1;
      var d := Exec(run[..n]);
      if run[n].Hear? && Enumerates(run[n].order, Joined(d, run[n].vote).Keys) {
        StillOpen(run[n].w, d, run[n].vote, run[n].order, h);
      }
      HoldsWhatItCounted(run[..n], h);
      match run[n]
      case Hear(_, _, _) => TellsHear(run, h);
      case Prune(_) => TellsPrune(run, h);
      case Restart(_) => TellsRestart(run, h);
      case _ => TellsQuiet(run, h);
    }
  }

  lemma NothingTold(h: nat)
    ensures Tells([], EMPTY, h)
  {
  }

  /** A counted vote is reported exactly when a vote of the same validator at the same slot for
      another ballot was counted before and is still remembered - in every run, reverts and restarts
      included. */
  lemma ReportsExactly(run: seq<Event>, w: World, v: Vote)
    requires Admitted(w, Exec(run), v)
    ensures Reports(w, Exec(run), v) <==>
            exists other ::
              StillCounted(run, other, v.voter) && other.slot == v.msg.slot && other.ballot != v.msg.ballot
  {
    hide Counts, Exec, StillCounted;
    var d := Exec(run);
    HoldsWhatItCounted(run, v.msg.slot.height);
    forall other: Message | other.slot == v.msg.slot && other.ballot != v.msg.ballot
      ensures Conflicts(d.tallies, v, other) <==> StillCounted(run, other, v.voter)
    {
    }
  }

  // ----- when a second ballot is reported

  /** No prune or restart of the run passes height `h`. */
  predicate Retains(run: seq<Event>, h: nat) {
    forall i :: 0 <= i < |run| ==>
      (run[i].Prune? ==> run[i].cutoff <= h) && (run[i].Restart? ==> run[i].cutoff <= h)
  }

  /** Event `i` counted a vote under `key`. */
  ghost predicate Files(run: seq<Event>, i: int, key: RowKey) {
    0 <= i < |run| && Takes(Exec(run[..i]), run[i]) && KeyOf(run[i].vote) == key
  }

  /** And no later event did. */
  ghost predicate LastFiles(run: seq<Event>, i: int, key: RowKey) {
    Files(run, i, key) && forall j :: i < j < |run| ==> !Files(run, j, key)
  }

  /** After event `i` the rows of height `h` were reverted away. */
  predicate RevertedSince(run: seq<Event>, i: int, h: nat) {
    exists j :: i < j < |run| && 0 <= j && Drops(run[j], h)
  }

  predicate Drops(ev: Event, h: nat) {
    ev.Revert? && ev.height + 2 <= h
  }

  /** And then the process restarted without them. */
  predicate LostSince(run: seq<Event>, i: int, h: nat) {
    exists k :: i < k < |run| && 0 <= k && run[k].Restart? && RevertedSince(run[..k], i, h)
  }

  lemma FilesBefore(run: seq<Event>, i: int, key: RowKey)
    requires run != [] && i < |run| - 1
    ensures Files(run[..|run| - 1], i, key) <==> Files(run, i, key)
  {
    if 0 <= i {
      assert run[..|run| - 1][..i] == run[..i];
    }
  }

  /** The last filing of a run is its last event, or that of the run before it. */
  lemma LastBefore(run: seq<Event>, i: int, key: RowKey)
    requires run != []
    ensures var n := |run| - 1;
            LastFiles(run, i, key) <==>
            if Files(run, n, key) then i == n else LastFiles(run[..n], i, key)
  {
    hide Files;
    var n := |run| - 1;
    forall j | j < n ensures Files(run[..n], j, key) <==> Files(run, j, key) {
      FilesBefore(run, j, key);
    }
    NothingBeyond(run, key);
    if LastFiles(run, i, key) && !Files(run, n, key) {
      assert Files(run[..n], i, key);
    }
    if !Files(run, n, key) && LastFiles(run[..n], i, key) {
      assert Files(run[..n], i, key) && i < n;
      assert Files(run, i, key);
    }
  }

  lemma NothingBeyond(run: seq<Event>, key: RowKey)
    requires run != []
    ensures var n := |run| - 1; !Files(run, n + 1, key) && !Files(run[..n], n, key)
    ensures forall i :: Files(run, i, key) ==> 0 <= i < |run|
    ensures var before := run[..|run| - 1]; forall i :: Files(before, i, key) ==> 0 <= i < |before|
  {
  }

  lemma RevertedBefore(run: seq<Event>, i: int, h: nat)
    requires run != [] && -1 <= i < |run|
    ensures var n := |run| - 1;
            RevertedSince(run, i, h) <==> (i < n && Drops(run[n], h)) || RevertedSince(run[..n], i, h)
  {
    hide Drops;
    var n := |run| - 1;
    if i < n && RevertedSince(run[..n], i, h) {
      var j :| i < j < n && 0 <= j && Drops(run[..n][j], h);
      assert Drops(run[j], h);
    }
    if RevertedSince(run, i, h) && !(i < n && Drops(run[n], h)) {
      var j :| i < j < |run| && 0 <= j && Drops(run[j], h);
      assert Drops(run[..n][j], h);
    }
  }

  lemma LostBefore(run: seq<Event>, i: int, h: nat)
    requires run != [] && -1 <= i < |run|
    ensures var n := |run| - 1;
            LostSince(run, i, h) <==>
            (i < n && run[n].Restart? && RevertedSince(run[..n], i, h)) || LostSince(run[..n], i, h)
  {
    hide RevertedSince;
    var n := |run| - 1;
    if LostSince(run[..n], i, h) {
      var k :| i < k < n && 0 <= k && run[..n][k].Restart? && RevertedSince(run[..n][..k], i, h);
      assert run[..n][..k] == run[..k] && run[k].Restart?;
    }
    if LostSince(run, i, h) && !(i < n && run[n].Restart? && RevertedSince(run[..n], i, h)) {
      var k :| i < k < |run| && 0 <= k && run[k].Restart? && RevertedSince(run[..k], i, h);
      assert k < n && run[..n][..k] == run[..k] && run[..n][k].Restart?;
    }
  }

  /** At a retained height a vote is on file exactly when one was filed under its key and not reverted
      away since, and it is the last one filed. */
  lemma {:induction false} OnFileIff(run: seq<Event>, key: RowKey, i: int)
    requires Retains(run, key.slot.height) && LastFiles(run, i, key)
    ensures 0 <= i < |run| && run[i].Hear?
    ensures OnFile(run, key) == if RevertedSince(run, i, key.slot.height) then {} else {run[i].vote.msg}
    decreases |run|
  {
    hide Takes, Exec, RevertedSince;
    var n := |run| - 1;
    LastBefore(run, i, key);
    FiledFor(run, i, key);
    RevertedBefore(run, i, key.slot.height);
    if i < n {
      OnFileIff(run[..n], key, i);
    } else {
      assert !RevertedSince(run[..n], i, key.slot.height) by { NotYet(run[..n], i, key.slot.height); }
    }
  }

  lemma NotYet(run: seq<Event>, i: int, h: nat)
    requires i >= |run|
    ensures !RevertedSince(run, i, h) && !LostSince(run, i, h)
  {
  }

  lemma {:induction false} NeverFiled(run: seq<Event>, key: RowKey)
    requires forall i :: !Files(run, i, key)
    ensures OnFile(run, key) == {}
  {
    hide Takes, Exec;
    if run != [] {
      var n := |run| - 1;
      assert !Files(run, n, key);
      forall i ensures !Files(run[..n], i, key) {
        if i < n {
          FilesBefore(run, i, key);
        }
      }
      NeverFiled(run[..n], key);
    }
  }

  lemma {:induction false} NeverCounted(run: seq<Event>, msg: Message, voter: Address)
    requires forall i :: !Files(run, i, RowKey(msg.slot, msg.ballot.block, voter))
    ensures !StillCounted(run, msg, voter)
  {
    hide Takes, Exec;
    var key := RowKey(msg.slot, msg.ballot.block, voter);
    if run != [] {
      var n := |run| - 1;
      assert !Files(run, n, key);
      forall i ensures !Files(run[..n], i, key) {
        if i < n {
          FilesBefore(run, i, key);
        }
      }
      NeverFiled(run[..n], key);
      NeverCounted(run[..n], msg, voter);
    }
  }

  /** At a retained height, whatever was last filed under a key is remembered unless a restart followed a
      revert that followed it, and then nothing filed under that key is. */
  lemma {:induction false} RememberedIff(run: seq<Event>, key: RowKey, i: int)
    requires Retains(run, key.slot.height) && LastFiles(run, i, key)
    ensures 0 <= i < |run| && run[i].Hear?
    ensures if LostSince(run, i, key.slot.height)
            then NoneKept(run, key)
            else StillCounted(run, run[i].vote.msg, key.voter)
    decreases |run|
  {
    hide Takes, Exec, RevertedSince, LostSince, OnFile;
    var n, h := |run| - 1, key.slot.height;
    LastBefore(run, i, key);
    FiledFor(run, i, key);
    LostBefore(run, i, h);
    if i == n {
      NotYet(run[..n], i, h);
    } else {
      RememberedIff(run[..n], key, i);
      OnFileIff(run[..n], key, i);
      assert !Files(run, n, key);
      if LostSince(run[..n], i, h) {
        LostReverted(run[..n], i, h);
      }
      if LostSince(run, i, h) {
        NoneKeptOn(run, key);
      }
    }
  }

  /** No ballot filed under the key is remembered. */
  ghost predicate NoneKept(run: seq<Event>, key: RowKey) {
    forall m: Message :: RowKey(m.slot, m.ballot.block, key.voter) == key ==> !StillCounted(run, m, key.voter)
  }

  lemma NoneKeptOn(run: seq<Event>, key: RowKey)
    requires run != [] && !Files(run, |run| - 1, key) && OnFile(run[..|run| - 1], key) == {}
    requires run[|run| - 1].Restart? || NoneKept(run[..|run| - 1], key)
    ensures NoneKept(run, key)
  {
    hide Exec, OnFile, Takes;
    var n := |run| - 1;
    forall m: Message | RowKey(m.slot, m.ballot.block, key.voter) == key ensures !StillCounted(run, m, key.voter) {
      assert run[n].Hear? && run[n].vote.msg == m && run[n].vote.voter == key.voter ==> KeyOf(run[n].vote) == key;
    }
  }

  lemma LostReverted(run: seq<Event>, i: int, h: nat)
    requires LostSince(run, i, h)
    ensures RevertedSince(run, i, h)
  {
    var k :| i < k < |run| && 0 <= k && run[k].Restart? && RevertedSince(run[..k], i, h);
    var j :| i < j < k && 0 <= j && Drops(run[..k][j], h);
    assert Drops(run[j], h);
  }

  /** Some key of the validator at the slot has its last ballot still remembered. */
  ghost predicate BallotKept(run: seq<Event>, slot: Slot, voter: Address) {
    exists i, key: RowKey ::
      key.slot == slot && key.voter == voter && LastFiles(run, i, key) && !LostSince(run, i, slot.height)
  }

  /** The message was never counted for the voter. */
  ghost predicate Unheard(run: seq<Event>, msg: Message, voter: Address) {
    forall i :: Files(run, i, RowKey(msg.slot, msg.ballot.block, voter)) ==> run[i].vote.msg != msg
  }

  /** The first time a ballot is counted at a retained height, it is reported exactly when, for some
      block, the validator's last ballot for it at that slot was not followed by a revert to two heights
      below or lower and then a restart. */
  lemma FirstHearingReports(run: seq<Event>, w: World, v: Vote)
    requires Admitted(w, Exec(run), v) && Retains(run, v.msg.slot.height) && Unheard(run, v.msg, v.voter)
    ensures Reports(w, Exec(run), v) <==> BallotKept(run, v.msg.slot, v.voter)
  {
    hide Counts, Exec, StillCounted, OnFile, Takes, LostSince, Reports, Admitted, Files;
    ReportsExactly(run, w, v);
    if BallotKept(run, v.msg.slot, v.voter) {
      var i, key: RowKey :| key.slot == v.msg.slot && key.voter == v.voter && LastFiles(run, i, key)
                            && !LostSince(run, i, v.msg.slot.height);
      RememberedIff(run, key, i);
      FiledFor(run, i, key);
      assert run[i].vote.msg != v.msg;
    }
    if other: Message :| StillCounted(run, other, v.voter) && other.slot == v.msg.slot && other.ballot != v.msg.ballot {
      KeptSomewhere(run, other, v.voter);
    }
  }

  lemma FiledFor(run: seq<Event>, i: int, key: RowKey)
    requires Files(run, i, key)
    ensures 0 <= i < |run| && run[i].Hear? && run[i].vote.msg.slot == key.slot && run[i].vote.voter == key.voter
    ensures run[i].vote.msg.ballot.block == key.block
  {
  }

  lemma KeptSomewhere(run: seq<Event>, msg: Message, voter: Address)
    requires StillCounted(run, msg, voter) && Retains(run, msg.slot.height)
    ensures BallotKept(run, msg.slot, voter)
  {
    hide StillCounted, OnFile, Files, LostSince, Retains;
    var key := RowKey(msg.slot, msg.ballot.block, voter);
    if forall i :: !Files(run, i, key) {
      NeverCounted(run, msg, voter);
    } else {
      var i :| Files(run, i, key);
      var last := LastOf(run, i, key);
      RememberedIff(run, key, last);
    }
  }

  lemma LastOf(run: seq<Event>, i: int, key: RowKey) returns (last: int)
    requires Files(run, i, key)
    ensures LastFiles(run, last, key)
    decreases |run| - i
  {
    hide Files;
    last := i;
    if j :| i < j < |run| && Files(run, j, key) {
      last := LastOf(run, j, key);
    }
  }

  /** What a restart forgets: of two votes that differ only in the execution proof it keeps the later
      one, so hearing that one again no longer reports what it reported before. */
  lemma RestartForgets(w: World, first: Vote, second: Vote)
    requires first.msg.ballot.Precommit? && second.msg.ballot.Precommit? && first.msg != second.msg
    requires KeyOf(first) == KeyOf(second) && Counts(w, first) && Counts(w, second)
    requires !IsQuorum(w.members(first.msg.slot.height), {first.voter})
    ensures var run := [Hear(w, first, [first.voter]), Hear(w, second, [second.voter])];
            && Reports(w, Exec(run), second)
            && !Reports(w, Exec(run + [Restart(0)]), second)
  {
    hide Counts, IsQuorum, Heard, Reloaded, Enumerates;
    var two := [Hear(w, first, [first.voter]), Hear(w, second, [second.voter])];
    BothCounted(w, first, second);
    assert Conflicts(Exec(two).tallies, second, first.msg);
    assert (two + [Restart(0)])[..2] == two;
    AlwaysKeyed(two);
    var d := Exec(two + [Restart(0)]);
    assert d == Reloaded(Exec(two), 0);
    assert Exec(two).rows == map[KeyOf(second) := second];
    forall other ensures !Conflicts(d.tallies, second, other) {
      BucketReloaded(Exec(two), 0, other, second.voter);
    }
  }

  /** What a revert and a restart lose together: a validator's first ballot is counted, the provisional
      chain is unwound to two heights below it or lower, the process restarts, and its second ballot is
      counted without a report - although a restart alone, or a revert alone, would not have hidden it. */
  lemma RevertThenRestartMisses(w: World, first: Vote, second: Vote, height: nat)
    requires first.msg != second.msg && first.msg.slot == second.msg.slot && first.voter == second.voter
    requires first.msg.ballot.Precommit? && second.msg.ballot.Precommit? && height + 2 <= first.msg.slot.height
    requires Counts(w, first) && Counts(w, second) && !IsQuorum(w.members(first.msg.slot.height), {first.voter})
    ensures var one := [Hear(w, first, [first.voter])];
            && Admitted(w, Exec(one + [Revert(height), Restart(0)]), second)
            && !Reports(w, Exec(one + [Revert(height), Restart(0)]), second)
            && Reports(w, Exec(one + [Restart(0)]), second) && Reports(w, Exec(one + [Revert(height)]), second)
  {
    hide Counts, IsQuorum, Heard, Reloaded, Enumerates;
    var one := [Hear(w, first, [first.voter])];
    assert one[..0] == [] && Exec([]) == EMPTY;
    OneHeard(w, first);
    LastStep(one);
    var d := Exec(one);
    assert d == Counted(EMPTY, first);
    assert (one + [Restart(0)])[..1] == one && (one + [Revert(height)])[..1] == one;
    assert (one + [Revert(height), Restart(0)])[..2] == one + [Revert(height)];
    assert Exec(one + [Restart(0)]) == Reloaded(d, 0);
    BucketReloaded(d, 0, first.msg, first.voter);
    assert Conflicts(Exec(one + [Restart(0)]).tallies, second, first.msg) by { InReloaded(d, first, second); }
    assert Conflicts(Exec(one + [Revert(height)]).tallies, second, first.msg);
    var r := Reverted(d, height);
    assert r.rows == map[];
    assert Exec(one + [Revert(height), Restart(0)]) == Reloaded(r, 0);
    forall other ensures !Conflicts(Reloaded(r, 0).tallies, second, other) {
      BucketReloaded(r, 0, other, second.voter);
    }
    StillAdmits(w, r, second);
    StillAdmits(w, d, second);
  }

  lemma InReloaded(d: Desk, first: Vote, second: Vote)
    requires d == Counted(EMPTY, first) && RowsKeyed(d.rows)
    requires first.msg != second.msg && first.msg.slot == second.msg.slot && first.voter == second.voter
    ensures Conflicts(Reloaded(d, 0).tallies, second, first.msg)
  {
    BucketReloaded(d, 0, first.msg, first.voter);
  }

  lemma StillAdmits(w: World, d: Desk, v: Vote)
    requires RowsKeyed(d.rows)
    ensures Admitted(w, Reloaded(d, 0), v) <==> Admitted(w, d, v)
  {
  }

  lemma BothCounted(w: World, first: Vote, second: Vote)
    requires first.msg != second.msg && first.msg.slot == second.msg.slot && first.voter == second.voter
    requires Counts(w, first) && Counts(w, second) && !IsQuorum(w.members(first.msg.slot.height), {first.voter})
    ensures Exec([Hear(w, first, [first.voter]), Hear(w, second, [second.voter])])
            == Counted(Counted(EMPTY, first), second)
  {
    hide Counts, IsQuorum, Heard, Enumerates;
    var one := [Hear(w, first, [first.voter])];
    var two := [Hear(w, first, [first.voter]), Hear(w, second, [second.voter])];
    assert two[..1] == one && one[..0] == [];
    OneHeard(w, first);
    assert Exec(one) == Counted(EMPTY, first);
    TwoHeard(w, first, second);
  }

  lemma OneHeard(w: World, v: Vote)
    requires Counts(w, v) && !IsQuorum(w.members(v.msg.slot.height), {v.voter})
    ensures Enumerates([v.voter], Joined(EMPTY, v).Keys)
    ensures Heard(w, EMPTY, v, [v.voter]) == Counted(EMPTY, v)
  {
    hide Counts, IsQuorum;
    assert Elements([v.voter]) == {v.voter} == Joined(EMPTY, v).Keys;
  }

  lemma TwoHeard(w: World, first: Vote, second: Vote)
    requires first.msg != second.msg && first.msg.slot == second.msg.slot && first.voter == second.voter
    requires Counts(w, second) && !IsQuorum(w.members(second.msg.slot.height), {second.voter})
    ensures var d := Counted(EMPTY, first);
            && Enumerates([second.voter], Joined(d, second).Keys)
            && Heard(w, d, second, [second.voter]) == Counted(d, second)
  {
    hide Counts, IsQuorum;
    assert Elements([second.voter]) == {second.voter} == Joined(Counted(EMPTY, first), second).Keys;
  }

  // ----- the object

  /** The bucket's voters, in whatever order the map yields them. */
  method Walk(bucket: Bucket) returns (order: seq<Address>)
    ensures Enumerates(order, bucket.Keys)
  {
    order := [];
    var left := bucket.Keys;
    while left != {}
      invariant NoRepeats(order) && Elements(order) + left == bucket.Keys && Elements(order) !! left
      decreases left
    {
      var a :| a in left;
      assert Elements(order + [a]) == Elements(order) + {a};
      assert a !in Elements(order);
      order, left := order + [a], left - {a};
    }
  }

  /** Quorum, aggregate, and the check on the aggregate. */
  method CertifyBucket(w: World, msg: Message, bucket: Bucket) returns (c: Option<Certificate>, order: seq<Address>)
    ensures Enumerates(order, bucket.Keys) && c == Certify(w, msg, bucket, order)
  {
    hide PowerOf, KnownKeys, VerifyAggregate, NoRepeats;
    order := Walk(bucket);
    var power := SignedPower(w.members(msg.slot.height), order);
    if power < QUORUM_POWER {
      return None, order;
    }
    var aggregate := Aggregate(Sigs(bucket, order));
    if aggregate.None? || !VerifyAggregate(msg, KnownKeys(w, msg.slot.height, order), aggregate.value) {
      return None, order;
    }
    c := Some(Certificate(msg, order, aggregate.value));
  }

  lemma RowAdded(rows: map<RowKey, Vote>, v: Vote, cutoff: nat)
    requires RowsKeyed(rows) && KeyOf(v) !in rows && v.msg.slot.height >= cutoff
    ensures RowsKeyed(rows[KeyOf(v) := v])
    ensures var was := TalliesFrom(rows, cutoff);
            TalliesFrom(rows[KeyOf(v) := v], cutoff) == was[v.msg := (if v.msg in was then was[v.msg]
              else map[])[v.voter := v.sig]]
  {
    hide TalliesFrom, Filed;
    var more := rows[KeyOf(v) := v];
    var was, now := TalliesFrom(rows, cutoff), TalliesFrom(more, cutoff);
    var prior := if v.msg in was then was[v.msg] else map[];
    forall m: Message ensures m in now <==> m in was || m == v.msg {
      MessagesAdded(rows, v, m, cutoff);
    }
    forall m | m in now ensures now[m] == if m == v.msg then prior[v.voter := v.sig] else was[m] {
      if m == v.msg {
        BucketJoined(rows, v, cutoff);
      } else {
        BucketKept(rows, v, m, cutoff);
      }
    }
  }

  lemma BucketJoined(rows: map<RowKey, Vote>, v: Vote, cutoff: nat)
    requires RowsKeyed(rows) && KeyOf(v) !in rows && v.msg.slot.height >= cutoff && RowsKeyed(rows[KeyOf(v) := v])
    requires v.msg in TalliesFrom(rows[KeyOf(v) := v], cutoff)
    ensures var was, now := TalliesFrom(rows, cutoff), TalliesFrom(rows[KeyOf(v) := v], cutoff);
            now[v.msg] == (if v.msg in was then was[v.msg] else map[])[v.voter := v.sig]
  {
    hide Filed;
    FiledAbove(rows, v.msg, cutoff);
    FiledAdded(rows, v, v.msg);
    FiledRows(rows, v.msg);
  }

  lemma BucketKept(rows: map<RowKey, Vote>, v: Vote, m: Message, cutoff: nat)
    requires RowsKeyed(rows) && KeyOf(v) !in rows && m != v.msg && RowsKeyed(rows[KeyOf(v) := v])
    requires m in TalliesFrom(rows[KeyOf(v) := v], cutoff) && m in TalliesFrom(rows, cutoff)
    ensures TalliesFrom(rows[KeyOf(v) := v], cutoff)[m] == TalliesFrom(rows, cutoff)[m]
  {
    hide Filed;
    FiledAdded(rows, v, m);
    FiledRows(rows, m);
  }

  lemma FiledRows(rows: map<RowKey, Vote>, m: Message)
    requires RowsKeyed(rows)
    ensures forall a :: a in Filed(rows, m) ==> RowKey(m.slot, m.ballot.block, a) in rows
  {
  }

  lemma FiledAdded(rows: map<RowKey, Vote>, v: Vote, m: Message)
    requires RowsKeyed(rows) && KeyOf(v) !in rows
    ensures Filed(rows[KeyOf(v) := v], m) == Filed(rows, m) + (if m == v.msg then {v.voter} else {})
  {
    var more := rows[KeyOf(v) := v];
    assert forall k :: k in rows ==> k in more && more[k] == rows[k];
    assert KeyOf(v) in more && more[KeyOf(v)] == v;
  }

  lemma FiledAbove(rows: map<RowKey, Vote>, m: Message, cutoff: nat)
    requires RowsKeyed(rows) && m.slot.height >= cutoff
    ensures m !in TalliesFrom(rows, cutoff) ==> Filed(rows, m) == {}
  {
    assert forall k :: k in rows && rows[k].msg == m ==> k.slot == m.slot;
  }

  lemma NoRows(cutoff: nat)
    ensures TalliesFrom(map[], cutoff) == map[]
  {
  }

  lemma MessagesAdded(rows: map<RowKey, Vote>, v: Vote, m: Message, cutoff: nat)
    requires RowsKeyed(rows) && KeyOf(v) !in rows && v.msg.slot.height >= cutoff && RowsKeyed(rows[KeyOf(v) := v])
    ensures m in TalliesFrom(rows[KeyOf(v) := v], cutoff) <==> m in TalliesFrom(rows, cutoff) || m == v.msg
  {
    var more := rows[KeyOf(v) := v];
    assert KeyOf(v) in more && more[KeyOf(v)] == v;
    assert forall k :: k in rows ==> k in more && more[k] == rows[k];
  }

  /** Another ballot of the voter at the vote's slot, if the tallies hold one. */
  method FindPrior(tallies: map<Message, Bucket>, v: Vote) returns (prior: Option<Message>)
    ensures prior.Some? ==> Conflicts(tallies, v, prior.value)
    ensures prior.Some? <==> exists other :: Conflicts(tallies, v, other)
  {
    var left := tallies.Keys;
    while left != {}
      invariant left <= tallies.Keys
      invariant forall other :: Conflicts(tallies, v, other) ==> other in left
      decreases left
    {
      var m :| m in left;
      if m.slot == v.msg.slot && m.ballot != v.msg.ballot && v.voter in tallies[m] {
        assert Conflicts(tallies, v, m);
        return Some(m);
      }
      left := left - {m};
    }
    prior := None;
  }

  class PrecommitDesk {
    var tallies: map<Message, Bucket>
    var rows: map<RowKey, Vote>
    var final: map<nat, Certificate>
    var given: set<nat>

    function Contents(): Desk
      reads this
    {
      Desk(tallies, rows, final, given)
    }

    constructor ()
      ensures Contents() == EMPTY
    {
      tallies, rows, final, given := map[], map[], map[], {};
    }

    /** `tally_vote`. */
    method TallyVote(w: World, v: Vote) returns (report: Option<(Vote, Vote)>, ghost order: seq<Address>)
      modifies this
      ensures Enumerates(order, Joined(old(Contents()), v).Keys)
      ensures Contents() == Heard(w, old(Contents()), v, order)
      ensures report.Some? <==> Reports(w, old(Contents()), v)
      ensures report.Some? ==>
                && report.value.1 == v && Conflicts(old(tallies), v, report.value.0.msg)
                && report.value.0 == Vote(report.value.0.msg, v.voter, old(tallies)[report.value.0.msg][v.voter])
    {
      hide Enumerates, Conflicts, Counts, Certify, Settled;
      ghost var was := Contents();
      report := None;
      var bucket: Bucket := (if v.msg in tallies then tallies[v.msg] else map[])[v.voter := v.sig];
      var c: Option<Certificate>;
      c, order := CertifyBucket(w, v.msg, bucket);
      if v.msg.slot.height in final || v.msg.slot.height in given || !Counts(w, v) {
        return;
      }
      var prior := FindPrior(tallies, v);
      assert Contents() == was && Admitted(w, was, v);
      if prior.Some? {
        report := Some((Vote(prior.value, v.voter, tallies[prior.value][v.voter]), v));
      }
      assert report.Some? <==> Reports(w, was, v);
      tallies := tallies[v.msg := bucket];
      rows := rows[KeyOf(v) := v];
      if c.None? {
        return;
      }
      Settle(c.value);
    }

    /** The record is written and the votes of its height are dropped. */
    method Settle(c: Certificate)
      modifies `final, `tallies, `rows
      ensures Contents() == Settled(old(Contents()), c)
    {
      var h := c.msg.slot.height;
      final := final[h := c];
      tallies := map m | m in tallies && m.slot.height != h :: tallies[m];
      rows := map k | k in rows && k.slot.height != h :: rows[k];
    }

    /** `prune`: rows of the aged heights the tallies know, then the tallies. */
    method Prune(cutoff: nat)
      modifies `tallies, `rows
      ensures Contents() == Pruned(old(Contents()), cutoff)
    {
      var aged := set m | m in tallies && m.slot.height < cutoff :: m.slot.height;
      rows := map k | k in rows && k.slot.height !in aged :: rows[k];
      tallies := map m | m in tallies && m.slot.height >= cutoff :: tallies[m];
    }

    /** What `revert_to` does to the persisted votes. */
    method Revert(height: nat)
      modifies `rows
      ensures Contents() == Reverted(old(Contents()), height)
    {
      rows := map k | k in rows && k.slot.height < height + 2 :: rows[k];
    }

    /** `reload`: one persisted vote at a time. */
    method Reload(cutoff: nat)
      requires RowsKeyed(rows)
      modifies `tallies
      ensures Contents() == Reloaded(old(Contents()), cutoff)
    {
      hide TalliesFrom;
      tallies := map[];
      var left := rows.Keys;
      ghost var done: map<RowKey, Vote> := map[];
      NoRows(cutoff);
      while left != {}
        invariant left <= rows.Keys && RowsKeyed(done)
        invariant forall k :: k in done <==> k in rows && k !in left && k.slot.height >= cutoff
        invariant forall k :: k in done ==> done[k] == rows[k]
        invariant tallies == TalliesFrom(done, cutoff)
        decreases left
      {
        var k :| k in left;
        var v := rows[k];
        if k.slot.height >= cutoff {
          RowAdded(done, v, cutoff);
          tallies := tallies[v.msg := (if v.msg in tallies then tallies[v.msg] else map[])[v.voter := v.sig]];
          done := done[k := v];
        }
        left := left - {k};
      }
      OnlyAbove(rows, done, cutoff);
    }
  }

  lemma OnlyAbove(rows: map<RowKey, Vote>, kept: map<RowKey, Vote>, cutoff: nat)
    requires RowsKeyed(rows) && RowsKeyed(kept)
    requires forall k :: k in kept <==> k in rows && k.slot.height >= cutoff
    requires forall k :: k in kept ==> kept[k] == rows[k]
    ensures TalliesFrom(kept, cutoff) == TalliesFrom(rows, cutoff)
  {
    var a, b := TalliesFrom(kept, cutoff), TalliesFrom(rows, cutoff);
    assert a.Keys == b.Keys;
    forall m | m in a ensures a[m] == b[m] {
      assert m.slot.height >= cutoff;
      assert Filed(kept, m) == Filed(rows, m);
    }
  }
}

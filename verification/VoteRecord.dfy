/** The slashing-protection record of one validator's own votes
    (arxd/finality/src/signed_votes.rs), as values: what a claim checks, what it writes, and what
    holds across claims, failed writes, pruning and reloads. Generic in what an entry names, so the
    protocol model and the text file share one definition. */
module VoteRecord {
  import opened TextFormat

  datatype Kind = Prevote | Precommit | Timeout

  datatype Entry<H> = Entry(kind: Kind, height: nat, round: nat, hash: H)

  /** Votes at or below `floor` are refused outright; entries there were pruned. */
  datatype Record<H> = Record(floor: nat, entries: seq<Entry<H>>)

  function Empty<H(!new)>(): Record<H> { Record(0, []) }

  // ----- queries

  /** The first entry at the slot `(kind, h, r)`, what `Iterator::find` returns. */
  function AtSlot<H(!new)>(es: seq<Entry<H>>, kind: Kind, h: nat, r: nat): (e: Option<Entry<H>>)
    ensures e.Some? ==> e.value in es && e.value == Entry(kind, h, r, e.value.hash)
    ensures e.None? ==> forall x :: x in es ==> x != Entry(kind, h, r, x.hash)
  {
    if es == [] then None
    else if es[0].kind == kind && es[0].height == h && es[0].round == r then Some(es[0])
    else AtSlot(es[1..], kind, h, r)
  }

  /** The lock at `h`: the precommit there with the highest round, the last of them on a tie, as
      `max_by_key` picks it. */
  function Lock<H(!new)>(es: seq<Entry<H>>, h: nat): (e: Option<Entry<H>>)
    ensures e.Some? ==> e.value in es && e.value.kind.Precommit? && e.value.height == h
    ensures forall x :: x in es && x.kind.Precommit? && x.height == h ==> e.Some? && x.round <= e.value.round
  {
    if es == [] then None
    else
      var last := es[|es| - 1];
      var before := Lock(es[..|es| - 1], h);
      if last.kind.Precommit? && last.height == h && (before.None? || before.value.round <= last.round)
      then Some(last) else before
  }

  /** V2: a vote at a later round of `h`, or a timeout of `r` itself. */
  predicate LeftRound<H(==,!new)>(es: seq<Entry<H>>, h: nat, r: nat) {
    exists e :: e in es && e.height == h && (e.round > r || (e.round == r && e.kind.Timeout?))
  }

  // ----- claims

  datatype Refusal = Locked | BelowFloor | Conflict | RoundLeft | NotDurable

  /** What the checks of `claim` say before anything is written. */
  datatype Verdict = Refuse(reason: Refusal) | Repeat | Fresh

  function Check<H(==,!new)>(rec: Record<H>, e: Entry<H>): Verdict {
    var slot := AtSlot(rec.entries, e.kind, e.height, e.round);
    if e.height <= rec.floor then Refuse(BelowFloor)
    else if slot.Some? then if slot.value.hash != e.hash then Refuse(Conflict) else Repeat
    else if !e.kind.Timeout? && LeftRound(rec.entries, e.height, e.round) then Refuse(RoundLeft)
    else Fresh
  }

  /** V3: whether the lock lets `hash` be prevoted at `(h, r)` given a quorum of prevotes for
      `hash` at round `pol`. */
  predicate LockAllows<H(==,!new)>(rec: Record<H>, h: nat, r: nat, hash: H, pol: Option<nat>) {
    var lock := Lock(rec.entries, h);
    lock.None? || lock.value.hash == hash || (pol.Some? && lock.value.round <= pol.value <= r)
  }

  // ----- memory and file together

  /** What the running process holds and what a restart would load. */
  datatype Store<H> = Store(mem: Record<H>, disk: Record<H>)

  /** How a whole-file replacement ends: durable; failed with the old file in place; or failed (or
      the process died) after the rename, with the new file in place and no success reported. */
  datatype Write = Durable | Lost | Torn

  datatype Outcome<H> = Granted(store: Store<H>) | Refused(store: Store<H>, reason: Refusal)

  function Appended<H(!new)>(rec: Record<H>, e: Entry<H>): Record<H> {
    rec.(entries := rec.entries + [e])
  }

  /** `claim`: check, append, persist; an entry that is not durable is dropped again. */
  function Claim<H(==,!new)>(st: Store<H>, e: Entry<H>, write: Write): Outcome<H> {
    match Check(st.mem, e)
    case Refuse(reason) => Refused(st, reason)
    case Repeat => Granted(st)
    case Fresh =>
      var rec := Appended(st.mem, e);
      match write
      case Durable => Granted(Store(rec, rec))
      case Lost => Refused(st, NotDurable)
      case Torn => Refused(Store(st.mem, rec), NotDurable)
  }

  function ClaimPrevote<H(==,!new)>(st: Store<H>, h: nat, r: nat, hash: H, pol: Option<nat>, write: Write): Outcome<H> {
    if !LockAllows(st.mem, h, r, hash, pol) then Refused(st, Locked)
    else Claim(st, Entry(Prevote, h, r, hash), write)
  }

  /** Entries above `floor`, in order (`Vec::retain`). */
  function Above<H(!new)>(es: seq<Entry<H>>, floor: nat): (kept: seq<Entry<H>>)
    ensures forall e :: e in kept ==> e in es && e.height > floor
    ensures forall e :: e in es && e.height > floor ==> e in kept
  {
    if es == [] then []
    else (if es[0].height > floor then [es[0]] else []) + Above(es[1..], floor)
  }

  /** `prune_below`: memory is cut even when the write fails. */
  function Prune<H(!new)>(st: Store<H>, cutoff: nat, write: Write): Store<H> {
    var floor := if cutoff == 0 then 0 else cutoff - 1;
    if floor <= st.mem.floor then st
    else
      var rec := Record(floor, Above(st.mem.entries, floor));
      Store(rec, if write.Lost? then st.disk else rec)
  }

  /** A restart: whatever the file holds. */
  function Reload<H(!new)>(st: Store<H>): Store<H> { Store(st.disk, st.disk) }
}

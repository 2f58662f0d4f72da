/** A backfill that an honest peer on the same chain cannot complete: its finality record carries the vote of
    a validator that left at the epoch boundary below (arxd/network/src/lib.rs, `Certificates`). */
module BackfillExample {
  import opened TextFormat
  import opened VotingPower
  import opened Blocks
  import opened Chain
  import opened Tally
  import P = Protocol
  import S = System
  import D = VoteDesk
  import E = Evidence
  import Y = Recovery

  /** The height-1 block takes validator 1 out of the set. */
  function First(): Block { Child(Genesis, 0, 0) }

  function Second(): Block { Child(First(), 0, 1) }

  function Before(): PowerMap { map[1 := 5_000, 2 := 5_000] }

  function After(): PowerMap { map[2 := 10_000] }

  function InForce(b: Block): PowerMap { if IsPrefix(First(), b) then After() else Before() }

  function Leaving(): P.Setup { P.Setup(InForce, (h: nat) => h == 1, {}) }

  /** What a node holding the chain to `tip` reads. */
  function Reading(tip: Block): World {
    E.NodeWorld(Leaving(), Db(tip, 0, map[], map[], {}), Y.OwnKey())
  }

  /** The node that backfills: both blocks held, the first certified. */
  function Behind(): Db { Db(Second(), 1, map[1 := First()], map[], {}) }

  function Ballot(): Message { Message(Slot(2, 0), Precommit(Second(), 0)) }

  function Cast(voter: Address): Vote { Vote(Ballot(), voter, Signature(voter, Ballot())) }

  /** The peer hears validator 1 before it executes the boundary and validator 2 after. */
  function Late(): seq<D.Event> {
    [D.Hear(Reading(Genesis), Cast(1), [1]), D.Hear(Reading(First()), Cast(2), [1, 2])]
  }

  /** Another peer hears validator 2 only. */
  function Prompt(): seq<D.Event> {
    [D.Hear(Reading(First()), Cast(2), [2])]
  }

  lemma Powers()
    ensures !IsQuorum(Before(), {1}) && IsQuorum(After(), {2}) && IsQuorum(After(), {1, 2})
    ensures ValidPowers(After()) && ValidPowers(Before())
  {
    var before: PowerMap, after: PowerMap := Before(), After();
    assert before.Keys == {1, 2} && after.Keys == {2};
    PowerRemove(before, {1}, 1);
    PowerRemove(before, {2}, 2);
    PowerRemove(before, {1, 2}, 1);
    PowerRemove(after, {2}, 2);
    PowerRemove(after, {1, 2}, 1);
    assert {1} - {1} == {} && {2} - {2} == {} && {1, 2} - {1} == {2};
  }

  lemma LeavingValid()
    ensures Leaving().Valid() && Leaving().faulty == {}
  {
    hide ValidPowers;
    Powers();
    forall b: Block | b.Child? && Height(b) != 1 ensures InForce(b) == InForce(b.parent) {
      SamePrefix(b);
    }
  }

  lemma SamePrefix(b: Block)
    requires b.Child? && Height(b) != 1
    ensures IsPrefix(First(), b) == IsPrefix(First(), b.parent)
  {
  }

  lemma Readings()
    ensures Reading(Genesis).members(2) == Before() && Reading(First()).members(2) == After()
    ensures E.NodeWorld(Leaving(), Behind(), Y.OwnKey()).members(2) == After()
    ensures forall a: Address, tip :: Reading(tip).key(a, 2) == Some(a)
    ensures forall a: Address :: E.NodeWorld(Leaving(), Behind(), Y.OwnKey()).key(a, 2) == Some(a)
  {
  }

  lemma TheirKeys(w: World, order: seq<Address>)
    requires forall a: Address :: w.key(a, 2) == Some(a)
    ensures KnownKeys(w, 2, order) == order
  {
    KnownKeysCount(w, 2, order);
    assert AllKnown(w, 2, order);
  }

  lemma BothSign()
    ensures var bucket: Bucket := map[1 := Cast(1).sig, 2 := Cast(2).sig];
            && Enumerates([1, 2], bucket.Keys)
            && Certify(Reading(First()), Ballot(), bucket, [1, 2])
               == Some(Certificate(Ballot(), [1, 2], multiset(Sigs(bucket, [1, 2]))))
  {
    hide IsQuorum, Reading, KnownKeys;
    var w, bucket: Bucket := Reading(First()), map[1 := Cast(1).sig, 2 := Cast(2).sig];
    Powers();
    Readings();
    assert Elements([1, 2]) == {1, 2} == bucket.Keys;
    TheirKeys(w, [1, 2]);
    assert Sigs(bucket, [1, 2]) == Each(Ballot(), KnownKeys(w, 2, [1, 2]));
    SignedCertifies(w, Ballot(), bucket, [1, 2]);
  }

  lemma OneSigns()
    ensures var bucket: Bucket := map[2 := Cast(2).sig];
            && Enumerates([2], bucket.Keys)
            && Certify(Reading(First()), Ballot(), bucket, [2])
               == Some(Certificate(Ballot(), [2], multiset(Sigs(bucket, [2]))))
  {
    hide IsQuorum, Reading, KnownKeys;
    var w, bucket: Bucket := Reading(First()), map[2 := Cast(2).sig];
    Powers();
    Readings();
    assert Elements([2]) == {2} == bucket.Keys;
    TheirKeys(w, [2]);
    assert Sigs(bucket, [2]) == Each(Ballot(), KnownKeys(w, 2, [2]));
    SignedCertifies(w, Ballot(), bucket, [2]);
  }

  lemma LateRun()
    ensures D.Exec(Late()[..1]) == D.Counted(D.EMPTY, Cast(1))
    ensures D.Takes(D.Exec(Late()[..1]), Late()[1])
    ensures var c := Certificate(Ballot(), [1, 2], multiset(Sigs(map[1 := Cast(1).sig, 2 := Cast(2).sig], [1, 2])));
            && Certify(Reading(First()), Ballot(), D.Joined(D.Exec(Late()[..1]), Cast(2)), [1, 2]) == Some(c)
            && D.Exec(Late()).final == map[2 := c]
  {
    hide IsQuorum, Certify, Enumerates, Sigs;
    var one := Late()[..1];
    assert one == [D.Hear(Reading(Genesis), Cast(1), [1])] && one[..0] == [] && D.Exec([]) == D.EMPTY;
    Powers();
    Readings();
    D.OneHeard(Reading(Genesis), Cast(1));
    D.LastStep(one);
    assert D.Exec(one) == D.Counted(D.EMPTY, Cast(1));
    assert D.Joined(D.Exec(one), Cast(2)) == map[1 := Cast(1).sig, 2 := Cast(2).sig];
    BothSign();
    D.LastStep(Late());
  }

  lemma PromptRun()
    ensures D.Exec(Prompt()[..0]) == D.EMPTY && D.Takes(D.EMPTY, Prompt()[0])
    ensures var c := Certificate(Ballot(), [2], multiset(Sigs(map[2 := Cast(2).sig], [2])));
            && Certify(Reading(First()), Ballot(), D.Joined(D.EMPTY, Cast(2)), [2]) == Some(c)
            && D.Exec(Prompt()).final == map[2 := c]
  {
    hide IsQuorum, Certify, Enumerates, Sigs;
    assert Prompt()[..0] == [] && D.Exec([]) == D.EMPTY;
    Readings();
    assert D.Joined(D.EMPTY, Cast(2)) == map[2 := Cast(2).sig];
    OneSigns();
    D.LastStep(Prompt());
  }

  /** Both peers are on the node's chain and wrote their records under the set the node reads. */
  lemma BothWrote(run: seq<D.Event>)
    requires run == Late() || run == Prompt()
    ensures var w := E.NodeWorld(Leaving(), Behind(), Y.OwnKey());
            && Y.WroteHeld(w, Behind(), run, 2) && Y.Consistent(w, Behind(), D.Exec(run).final)
  {
    hide D.Exec, D.Takes, Certify, Holds, Reading, E.NodeWorld, Leaving;
    var w := E.NodeWorld(Leaving(), Behind(), Y.OwnKey());
    Readings();
    var i := |run| - 1;
    if run == Late() {
      LateRun();
    } else {
      PromptRun();
    }
    assert D.Writes(run, i, 2);
    assert SameAt(run[i].w, w, 2);
  }

  /** The record with the leaving validator's vote names a non-member; the other one does not. */
  lemma WhoSigned()
    ensures var w := E.NodeWorld(Leaving(), Behind(), Y.OwnKey());
            !Y.MembersOnly(w, Late(), 2) && Y.MembersOnly(w, Prompt(), 2)
  {
    hide D.Exec, Sigs, Certify, D.Takes, D.Joined, D.Counted, E.NodeWorld, Reading;
    LateRun();
    PromptRun();
    Readings();
    assert 1 in Elements([1, 2]) && 1 !in After() && Elements([2]) == {2};
  }

  lemma Reaches(run: seq<D.Event>)
    requires run == Late() || run == Prompt()
    ensures var w := E.NodeWorld(Leaving(), Behind(), Y.OwnKey());
            Y.Conversation(w, Behind(), D.Exec(run).final).watermark >= 2 <==> Y.MembersOnly(w, run, 2)
  {
    hide D.Exec, Y.WroteHeld, Y.Consistent, Y.Conversation, Y.MembersOnly, Late, Prompt;
    var w := E.NodeWorld(Leaving(), Behind(), Y.OwnKey());
    BothWrote(run);
    Y.PeerCatchesUpIff(w, Behind(), run, 2);
    assert !Y.Own(Behind(), 2);
  }

  /** No validator misbehaves, the peer is on the same chain and has certified it, and the block's precommits
      include a quorum of the set in force - yet page after page the node keeps nothing. From the peer that
      never heard the leaving validator it catches up at once. */
  lemma StuckBackfill()
    ensures Leaving().Valid() && Leaving().faulty == {}
    ensures var w := E.NodeWorld(Leaving(), Behind(), Y.OwnKey());
            && Y.WroteHeld(w, Behind(), Late(), 2) && IsQuorum(w.members(2), {2})
            && Y.Conversation(w, Behind(), D.Exec(Late()).final) == Behind()
            && Y.WroteHeld(w, Behind(), Prompt(), 2)
            && Y.Conversation(w, Behind(), D.Exec(Prompt()).final).watermark >= 2
  {
    hide D.Exec, Y.WroteHeld, Y.Consistent, IsQuorum, Y.Conversation, Y.MembersOnly, Late, Prompt, E.NodeWorld, Leaving;
    LeavingValid();
    Powers();
    Readings();
    BothWrote(Late());
    BothWrote(Prompt());
    WhoSigned();
    Reaches(Late());
    Reaches(Prompt());
    Stays(E.NodeWorld(Leaving(), Behind(), Y.OwnKey()));
  }

  /** Nothing is kept, so nothing changes. */
  lemma Stays(w: World)
    requires Y.Conversation(w, Behind(), D.Exec(Late()).final).watermark < 2
    ensures Y.Conversation(w, Behind(), D.Exec(Late()).final) == Behind()
  {
    hide D.Exec, Y.Usable, Y.Agrees, Y.Stored, Y.PeerPage;
    var certs := D.Exec(Late()).final;
    var page := Y.PeerPage(certs, 2, Y.MAX_PAGE_SIZE);
    var n := Y.Page(w, Behind(), 2, page).0;
    if n > 0 {
      Y.KeepsSome(w, Behind(), certs);
    }
  }
}

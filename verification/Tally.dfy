/** Tallying votes into certificates, and checking certificates (arxd/finality/src/lib.rs,
    `tally_vote`, `tally_prevote`, `tally_round_timeout`, `verify_finality_record`). Signatures are
    ideal: one verifies under the key and message it was made with, an aggregate exactly under the
    keys and message of its parts. */
module Tally {
  import opened TextFormat
  import opened VotingPower
  import opened Blocks

  datatype Slot = Slot(height: nat, round: nat)
  datatype Ballot = Prevote(block: Block) | Precommit(block: Block, ep: nat) | Timeout(block: Block)

  /** What a vote signs. */
  datatype Message = Message(slot: Slot, ballot: Ballot)

  datatype Signature = Signature(key: nat, msg: Message) | Malformed

  /** What this node's database says about a height's validators: their powers, and the BLS key of an
      address. For a height past the epoch it has executed this can still change. */
  datatype World = World(members: nat -> PowerMap, key: (Address, nat) -> Option<nat>)

  type Bucket = map<Address, Signature>

  datatype Vote = Vote(msg: Message, voter: Address, sig: Signature)

  /** A `FinalityRecord`, `PolRecord` or `RoundCertificate`, by what it says was signed. */
  datatype Certificate = Certificate(msg: Message, signers: seq<Address>, aggregate: multiset<Signature>)

  // ----- signatures

  predicate Verify(msg: Message, key: nat, sig: Signature) {
    sig == Signature(key, msg)
  }

  function Aggregate(sigs: seq<Signature>): Option<multiset<Signature>> {
    if sigs == [] || Malformed in sigs then None else Some(multiset(sigs))
  }

  function Each(msg: Message, keys: seq<nat>): seq<Signature> {
    seq(|keys|, i requires 0 <= i < |keys| => Signature(keys[i], msg))
  }

  predicate VerifyAggregate(msg: Message, keys: seq<nat>, aggregate: multiset<Signature>) {
    keys != [] && aggregate == multiset(Each(msg, keys))
  }

  // ----- checking a certificate

  predicate NoRepeats(s: seq<Address>) {
    forall i, j :: 0 <= i < j < |s| ==> s[i] != s[j]
  }

  /** The keys of `signers` at `h`, those without one skipped. */
  function KnownKeys(w: World, h: nat, signers: seq<Address>): seq<nat> {
    if signers == [] then []
    else
      var before, last := KnownKeys(w, h, signers[..|signers| - 1]), w.key(signers[|signers| - 1], h);
      if last.None? then before else before + [last.value]
  }

  ghost predicate AllKnown(w: World, h: nat, signers: seq<Address>) {
    forall i :: 0 <= i < |signers| ==> w.key(signers[i], h).Some?
  }

  /** `verify_finality_record`: distinct members of the height's set, a quorum of its power, every
      key known, and the aggregate signed by exactly those keys over exactly this message. */
  ghost predicate Holds(w: World, c: Certificate) {
    var h := c.msg.slot.height;
    && NoRepeats(c.signers)
    && Elements(c.signers) <= w.members(h).Keys
    && IsQuorum(w.members(h), Elements(c.signers))
    && AllKnown(w, h, c.signers)
    && VerifyAggregate(c.msg, KnownKeys(w, h, c.signers), c.aggregate)
  }

  lemma RepeatsLast(s: seq<Address>)
    requires s != []
    ensures var front, last := s[..|s| - 1], s[|s| - 1];
            && Elements(s) == Elements(front) + {last}
            && (NoRepeats(s) <==> NoRepeats(front) && last !in Elements(front))
  {
    var n := |s| - 1;
    assert s == s[..n] + [s[n]];
    assert forall i :: 0 <= i < n ==> s[i] == s[..n][i];
  }

  lemma {:induction false} RepeatsCount(s: seq<Address>)
    ensures |Elements(s)| <= |s| && (NoRepeats(s) <==> |Elements(s)| == |s|)
  {
    if s != [] {
      hide NoRepeats, Elements;
      var front, last := s[..|s| - 1], s[|s| - 1];
      RepeatsCount(front);
      RepeatsLast(s);
      assert last in Elements(front) ==> Elements(front) + {last} == Elements(front);
    }
  }

  /** What the check means: as many members of the height's set as are listed, with a quorum of its power between them,
      each with a known key, and the aggregate is one signature of each over this message and nothing else. */
  lemma HoldsIff(w: World, c: Certificate)
    ensures var h := c.msg.slot.height;
            Holds(w, c) <==>
            && |Elements(c.signers)| == |c.signers| > 0 && Elements(c.signers) <= w.members(h).Keys
            && PowerOf(w.members(h), Elements(c.signers)) >= QUORUM_POWER
            && (forall i :: 0 <= i < |c.signers| ==> w.key(c.signers[i], h).Some?)
            && c.aggregate == multiset(Each(c.msg, KnownKeys(w, h, c.signers)))
            && |c.aggregate| == |c.signers|
  {
    hide PowerOf, NoRepeats;
    RepeatsCount(c.signers);
    KnownKeysCount(w, c.msg.slot.height, c.signers);
  }

  method VerifyRecord(w: World, c: Certificate) returns (ok: bool)
    ensures ok == Holds(w, c)
  {
    hide PowerOf;
    var h := c.msg.slot.height;
    var unique: set<Address> := {};
    for i := 0 to |c.signers|
      invariant unique == Elements(c.signers[..i]) && NoRepeats(c.signers[..i])
    {
      assert c.signers[..i + 1] == c.signers[..i] + [c.signers[i]];
      if c.signers[i] in unique {
        return false;
      }
      unique := unique + {c.signers[i]};
    }
    assert c.signers[..|c.signers|] == c.signers;
    if !(unique <= w.members(h).Keys) {
      return false;
    }
    var power := SignedPower(w.members(h), c.signers);
    if power < QUORUM_POWER {
      return false;
    }
    var keys := [];
    for i := 0 to |c.signers|
      invariant keys == KnownKeys(w, h, c.signers[..i])
      invariant forall j :: 0 <= j < i ==> w.key(c.signers[j], h).Some?
    {
      assert c.signers[..i + 1][..i] == c.signers[..i];
      var key := w.key(c.signers[i], h);
      if key.None? {
        return false;
      }
      keys := keys + [key.value];
    }
    assert c.signers[..|c.signers|] == c.signers;
    ok := VerifyAggregate(c.msg, keys, c.aggregate);
  }

  // ----- making a certificate

  ghost predicate Enumerates(order: seq<Address>, who: set<Address>) {
    NoRepeats(order) && Elements(order) == who
  }

  function Sigs(bucket: Bucket, order: seq<Address>): seq<Signature>
    requires Elements(order) <= bucket.Keys
  {
    assert forall i :: 0 <= i < |order| ==> order[i] in Elements(order);
    seq(|order|, i requires 0 <= i < |order| => bucket[order[i]])
  }

  /** The end of a tally: quorum, aggregate, check the aggregate, write. `order` is the order the
      bucket is walked in. */
  ghost function Certify(w: World, msg: Message, bucket: Bucket, order: seq<Address>): Option<Certificate>
    requires Enumerates(order, bucket.Keys)
  {
    var h := msg.slot.height;
    if !IsQuorum(w.members(h), bucket.Keys) then None
    else
      var aggregate := Aggregate(Sigs(bucket, order));
      if aggregate.None? || !VerifyAggregate(msg, KnownKeys(w, h, order), aggregate.value) then None
      else Some(Certificate(msg, order, aggregate.value))
  }

  lemma {:induction false} KnownKeysCount(w: World, h: nat, signers: seq<Address>)
    ensures |KnownKeys(w, h, signers)| <= |signers|
    ensures |KnownKeys(w, h, signers)| == |signers| <==> AllKnown(w, h, signers)
    ensures AllKnown(w, h, signers) ==>
              forall i :: 0 <= i < |signers| ==> KnownKeys(w, h, signers)[i] == w.key(signers[i], h).value
  {
    if signers != [] {
      var n := |signers| - 1;
      KnownKeysCount(w, h, signers[..n]);
      assert AllKnown(w, h, signers) <==> AllKnown(w, h, signers[..n]) && w.key(signers[n], h).Some?;
    }
  }

  lemma {:induction false} EachCount(msg: Message, keys: seq<nat>, k: nat)
    ensures multiset(Each(msg, keys))[Signature(k, msg)] == multiset(keys)[k]
  {
    if keys != [] {
      var n := |keys| - 1;
      EachCount(msg, keys[..n], k);
      assert keys == keys[..n] + [keys[n]];
      assert Each(msg, keys) == Each(msg, keys[..n]) + [Signature(keys[n], msg)];
    }
  }

  /** Aggregates over one message are equal exactly when their keys are, in whatever order. */
  lemma SameAggregate(msg: Message, keys: seq<nat>, others: seq<nat>)
    ensures multiset(Each(msg, keys)) == multiset(Each(msg, others)) <==> multiset(keys) == multiset(others)
  {
    var a, b := multiset(Each(msg, keys)), multiset(Each(msg, others));
    forall k ensures a[Signature(k, msg)] == multiset(keys)[k] && b[Signature(k, msg)] == multiset(others)[k] {
      EachCount(msg, keys, k);
      EachCount(msg, others, k);
    }
    if multiset(keys) == multiset(others) {
      forall x: Signature ensures a[x] == b[x] {
        if x.Signature? && x.msg == msg {
          assert a[x] == a[Signature(x.key, msg)] == b[x];
        }
      }
    } else {
      var k :| multiset(keys)[k] != multiset(others)[k];
      assert a[Signature(k, msg)] != b[Signature(k, msg)];
    }
  }

  /** A certificate written by a node that reads `w` passes the check of a node that reads `other`
      exactly when, there, everyone in the bucket is a member, together they are a quorum, and their
      keys are known and are those the writer knew. */
  lemma WrittenHoldsIff(w: World, other: World, msg: Message, bucket: Bucket, order: seq<Address>)
    requires Enumerates(order, bucket.Keys) && Certify(w, msg, bucket, order).Some?
    ensures var h := msg.slot.height;
            Holds(other, Certify(w, msg, bucket, order).value) <==>
              && bucket.Keys <= other.members(h).Keys && IsQuorum(other.members(h), bucket.Keys)
              && AllKnown(other, h, order)
              && multiset(KnownKeys(other, h, order)) == multiset(KnownKeys(w, h, order))
  {
    hide IsQuorum, KnownKeys, Each;
    var h := msg.slot.height;
    SameAggregate(msg, KnownKeys(other, h, order), KnownKeys(w, h, order));
    KeptKeys(w, other, msg, order);
  }

  /** If the keys are the same, none has gone missing. */
  lemma KeptKeys(w: World, other: World, msg: Message, order: seq<Address>)
    requires KnownKeys(w, msg.slot.height, order) != []
    ensures var h := msg.slot.height;
            multiset(KnownKeys(other, h, order)) == multiset(KnownKeys(w, h, order)) ==>
              KnownKeys(other, h, order) != []
  {
    var keys := KnownKeys(w, msg.slot.height, order);
    assert keys[0] in multiset(keys);
  }

  /** The two nodes read the same about height `h`: the same powers, and the same keys. */
  ghost predicate SameAt(w: World, other: World, h: nat) {
    w.members(h) == other.members(h) && forall a :: w.key(a, h) == other.key(a, h)
  }

  /** For a node that reads the same, membership alone decides. */
  lemma SameWorldHoldsIff(w: World, other: World, msg: Message, bucket: Bucket, order: seq<Address>)
    requires Enumerates(order, bucket.Keys) && Certify(w, msg, bucket, order).Some? && SameAt(w, other, msg.slot.height)
    ensures Holds(other, Certify(w, msg, bucket, order).value) <==> bucket.Keys <= w.members(msg.slot.height).Keys
  {
    hide IsQuorum, KnownKeys;
    var h := msg.slot.height;
    WrittenHoldsIff(w, other, msg, bucket, order);
    SameKnownKeys(w, other, h, order);
    KnownKeysCount(w, h, order);
    assert |multiset(Sigs(bucket, order))| == |order|;
    assert |multiset(Each(msg, KnownKeys(w, h, order)))| == |KnownKeys(w, h, order)|;
  }

  lemma {:induction false} SameKnownKeys(w: World, other: World, h: nat, signers: seq<Address>)
    requires SameAt(w, other, h)
    ensures KnownKeys(other, h, signers) == KnownKeys(w, h, signers)
    ensures AllKnown(other, h, signers) <==> AllKnown(w, h, signers)
  {
    if signers != [] {
      SameKnownKeys(w, other, h, signers[..|signers| - 1]);
    }
  }

  /** Every vote in the bucket verifies under its voter's key, and its voter is a member. */
  ghost predicate Verified(w: World, msg: Message, bucket: Bucket) {
    forall a :: a in bucket ==> Counts(w, Vote(msg, a, bucket[a]))
  }

  /** The checks a vote passes before it is counted. */
  predicate Counts(w: World, v: Vote) {
    var key := w.key(v.voter, v.msg.slot.height);
    key.Some? && Verify(v.msg, key.value, v.sig) && v.voter in w.members(v.msg.slot.height)
  }

  /** A member of the height's set signed this very message, with the key known for it there. */
  predicate SignedByMember(w: World, v: Vote) {
    var h := v.msg.slot.height;
    && v.voter in w.members(h)
    && w.key(v.voter, h).Some? && v.sig == Signature(w.key(v.voter, h).value, v.msg)
  }

  /** A quorum whose signatures are over the message under the keys known now becomes a certificate. */
  lemma SignedCertifies(w: World, msg: Message, bucket: Bucket, order: seq<Address>)
    requires Enumerates(order, bucket.Keys) && order != [] && IsQuorum(w.members(msg.slot.height), bucket.Keys)
    requires Sigs(bucket, order) == Each(msg, KnownKeys(w, msg.slot.height, order))
    ensures Certify(w, msg, bucket, order) == Some(Certificate(msg, order, multiset(Sigs(bucket, order))))
  {
    hide IsQuorum, KnownKeys;
    var sigs := Sigs(bucket, order);
    assert |sigs| == |order|;
    assert forall x :: x in sigs ==> x.Signature?;
  }

  /** A quorum of verified votes always becomes a certificate, and it passes the check. */
  lemma QuorumCertifies(w: World, msg: Message, bucket: Bucket, order: seq<Address>)
    requires Enumerates(order, bucket.Keys) && Verified(w, msg, bucket)
    ensures Certify(w, msg, bucket, order).Some? <==> IsQuorum(w.members(msg.slot.height), bucket.Keys)
    ensures Certify(w, msg, bucket, order).Some? ==> Holds(w, Certify(w, msg, bucket, order).value)
  {
    var h := msg.slot.height;
    if IsQuorum(w.members(h), bucket.Keys) {
      assert forall i :: 0 <= i < |order| ==> order[i] in Elements(order);
      assert forall i :: 0 <= i < |order| ==> Counts(w, Vote(msg, order[i], bucket[order[i]]));
      KnownKeysCount(w, h, order);
      assert Sigs(bucket, order) == Each(msg, KnownKeys(w, h, order));
      assert order == [] ==> Elements(order) == {};
      SameWorldHoldsIff(w, w, msg, bucket, order);
    }
  }
}

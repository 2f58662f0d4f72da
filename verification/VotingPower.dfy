/** Stake-weighted voting power (core/primitives/src/validator_set.rs): what a group of
    validators weighs, when it is a quorum, and why two quorums share an honest member. */
module VotingPower {

  type Address = nat

  /** One height's validator set: member -> power. */
  type PowerMap = map<Address, nat>

  const TOTAL_VOTING_POWER: nat := 10_000
  const QUORUM_POWER: nat := 6_667
  const MAX_FAULTY_POWER: nat := 3_333

  /** Combined power of the members of `group`; outsiders weigh nothing. */
  ghost function PowerOf(powers: PowerMap, group: set<Address>): (p: nat)
    ensures group == {} ==> p == 0
  {
    if group == {} then 0
    else
      var a :| a in group;
      (if a in powers then powers[a] else 0) + PowerOf(powers, group - {a})
  }

  ghost predicate IsQuorum(powers: PowerMap, group: set<Address>) {
    PowerOf(powers, group) >= QUORUM_POWER
  }

  /** A set the chain writes: its powers sum to exactly the total. */
  ghost predicate ValidPowers(powers: PowerMap) {
    PowerOf(powers, powers.Keys) == TOTAL_VOTING_POWER
  }

  lemma {:induction false} PowerRemove(powers: PowerMap, group: set<Address>, a: Address)
    requires a in group
    ensures PowerOf(powers, group) == (if a in powers then powers[a] else 0) + PowerOf(powers, group - {a})
    decreases |group|
  {
    var b :| b in group && PowerOf(powers, group) ==
      (if b in powers then powers[b] else 0) + PowerOf(powers, group - {b});
    if a != b {
      PowerRemove(powers, group - {b}, a);
      PowerRemove(powers, group - {a}, b);
      assert group - {b} - {a} == group - {a} - {b};
    }
  }

  lemma {:induction false} PowerUnion(powers: PowerMap, g: set<Address>, k: set<Address>)
    requires g !! k
    ensures PowerOf(powers, g + k) == PowerOf(powers, g) + PowerOf(powers, k)
    decreases |g|
  {
    if g == {} {
      assert g + k == k;
    } else {
      var a :| a in g;
      PowerUnion(powers, g - {a}, k);
      PowerRemove(powers, g, a);
      PowerRemove(powers, g + k, a);
      assert g + k - {a} == (g - {a}) + k;
    }
  }

  lemma PowerMonotone(powers: PowerMap, g: set<Address>, k: set<Address>)
    requires g <= k
    ensures PowerOf(powers, g) <= PowerOf(powers, k)
  {
    PowerUnion(powers, g, k - g);
    assert g + (k - g) == k;
  }

  /** Outsiders weigh nothing, so any group weighs at most the whole set. */
  lemma {:induction false} PowerOutsiders(powers: PowerMap, g: set<Address>)
    requires g !! powers.Keys
    ensures PowerOf(powers, g) == 0
    decreases |g|
  {
    if g != {} {
      var a :| a in g;
      PowerRemove(powers, g, a);
      PowerOutsiders(powers, g - {a});
    }
  }

  lemma PowerBounded(powers: PowerMap, g: set<Address>)
    requires ValidPowers(powers)
    ensures PowerOf(powers, g) <= TOTAL_VOTING_POWER
  {
    var outside := g - powers.Keys;
    PowerOutsiders(powers, outside);
    PowerUnion(powers, g - outside, outside);
    assert g - outside + outside == g;
    PowerMonotone(powers, g - outside, powers.Keys);
  }

  /** A group and the members outside it weigh the total between them. */
  lemma PowerSplits(powers: PowerMap, g: set<Address>)
    requires ValidPowers(powers)
    ensures PowerOf(powers, g) + PowerOf(powers, powers.Keys - g) == TOTAL_VOTING_POWER
  {
    var inside, outside := g * powers.Keys, g - powers.Keys;
    PowerOutsiders(powers, outside);
    PowerUnion(powers, inside, outside);
    assert inside + outside == g;
    PowerUnion(powers, inside, powers.Keys - g);
    assert inside + (powers.Keys - g) == powers.Keys;
  }

  /** A quorum is exactly what is left when at most 3,333 of the power stays away. */
  lemma QuorumIff(powers: PowerMap, g: set<Address>)
    requires ValidPowers(powers)
    ensures IsQuorum(powers, g) <==> PowerOf(powers, powers.Keys - g) <= MAX_FAULTY_POWER
  {
    PowerSplits(powers, g);
  }

  /** Two quorums of one set share a member outside any group of at most
      3,333 power: 6,667 + 6,667 exceeds 10,000 by one more than 3,333. */
  lemma QuorumsShareHonest(powers: PowerMap, g: set<Address>, k: set<Address>, faulty: set<Address>)
    returns (a: Address)
    requires ValidPowers(powers) && IsQuorum(powers, g) && IsQuorum(powers, k)
    requires PowerOf(powers, faulty) <= MAX_FAULTY_POWER
    ensures a in g && a in k && a !in faulty
  {
    var both := g * k;
    PowerUnion(powers, g - both, k);
    PowerUnion(powers, g - both, both);
    assert g - both + both == g;
    PowerBounded(powers, g - both + k);
    if both <= faulty {
      PowerMonotone(powers, both, faulty);
      assert false;
    }
    a :| a in both && a !in faulty;
  }

  /** A quorum has a member outside any group of at most 3,333 power. */
  lemma QuorumHasHonest(powers: PowerMap, g: set<Address>, faulty: set<Address>)
    returns (a: Address)
    requires ValidPowers(powers) && IsQuorum(powers, g)
    requires PowerOf(powers, faulty) <= MAX_FAULTY_POWER
    ensures a in g && a !in faulty
  {
    a := QuorumsShareHonest(powers, g, g, faulty);
  }

  function Elements(s: seq<Address>): set<Address> {
    set a | a in s
  }

  /** `signed_power`: repeats and outsiders add nothing. */
  method SignedPower(powers: PowerMap, signers: seq<Address>) returns (p: nat)
    ensures p == PowerOf(powers, Elements(signers))
  {
    p := 0;
    var seen: set<Address> := {};
    for i := 0 to |signers|
      invariant seen == Elements(signers[..i])
      invariant p == PowerOf(powers, seen)
    {
      var a := signers[i];
      if a !in seen {
        PowerRemove(powers, seen + {a}, a);
        assert seen + {a} - {a} == seen;
        p := p + if a in powers then powers[a] else 0;
        seen := seen + {a};
      }
      assert signers[..i + 1] == signers[..i] + [a];
    }
    assert signers[..|signers|] == signers;
  }
}

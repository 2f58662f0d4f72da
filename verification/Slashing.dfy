/** Fault submissions and the slash they cause (arxd/runtime/src/consensus.rs, `apply_slash` of
    circuits/staking/src/lib.rs): value only moves, and a validator is slashed once. */
module Slashing {
  import opened TextFormat
  import opened VotingPower

  const U128_MAX: nat := 0xFFFF_FFFF_FFFF_FFFF_FFFF_FFFF_FFFF_FFFF
  const BPS: nat := 10_000

  /** Rates in force; governance caps them at all of the stake and a tenth of the slash. */
  datatype Params = Params(slashBps: nat, rewardBps: nat) {
    predicate Valid() { slashBps <= BPS && rewardBps <= 1_000 }
  }

  /** What is bonded, and what is still slashable on its way out. */
  datatype Allocation = Allocation(active: nat, unbonding: Option<nat>)

  datatype Books = Books(
    accounts: map<Address, nat>,
    masters: map<Address, seq<Address>>,
    stakes: map<(Address, Address), Allocation>,
    tombstoned: set<Address>,
    markers: set<(nat, Address)>)

  /** The keyless accounts: the reward pool, and each validator's stake sub-account. */
  datatype Places = Places(pool: Address, sub: Address -> Address) {
    ghost predicate Valid() { forall v :: sub(v) != pool }
  }

  function Balance(accounts: map<Address, nat>, a: Address): nat {
    if a in accounts then accounts[a] else 0
  }

  function Min(a: nat, b: nat): nat {
    if a <= b then a else b
  }

  /** `slash_amount`. */
  function Share(amount: nat, bps: nat): nat {
    amount * bps / BPS
  }

  function Total(s: Allocation): nat {
    s.active + if s.unbonding.Some? then s.unbonding.value else 0
  }

  /** `amount` taken from what is bonded first and from what is unbonding after. */
  function Cut(s: Allocation, amount: nat): (after: Allocation)
    requires amount <= Total(s)
    ensures Total(after) == Total(s) - amount
  {
    var fromActive := Min(amount, s.active);
    var rest := amount - fromActive;
    Allocation(s.active - fromActive,
               if rest > 0 && s.unbonding.value == rest then None
               else if rest > 0 then Some(s.unbonding.value - rest)
               else s.unbonding)
  }

  /** The stake row a slash of `v` hits: its first master's. */
  function Row(b: Books, v: Address): Option<(Address, Address)> {
    if v !in b.masters || b.masters[v] == [] || (b.masters[v][0], v) !in b.stakes then None
      else Some((b.masters[v][0], v))
  }

  /** `apply_slash`: what left the sub-account is what the pool receives. */
  function ApplySlash(at: Places, b: Books, v: Address, amount: nat): Option<Books> {
    var row := Row(b, v);
    if row.None? then None
    else
      var stake := b.stakes[row.value];
      var slash := Min(amount, Total(stake));
      var debited := Min(Balance(b.accounts, at.sub(v)), slash);
      if Balance(b.accounts, at.pool) + debited > U128_MAX then None
      else
        var accounts := b.accounts[at.sub(v) := Balance(b.accounts, at.sub(v)) - debited]
                                  [at.pool := Balance(b.accounts, at.pool) + debited];
        var left := Cut(stake, slash);
        if left.active == 0 && left.unbonding.None?
        then Some(b.(accounts := accounts, stakes := b.stakes - {row.value}, masters := b.masters[v := []]))
        else Some(b.(accounts := accounts, stakes := b.stakes[row.value := left]))
  }

  /** The challenger's share of what the pool just received, moved out of the pool. */
  function Rewarded(at: Places, accounts: map<Address, nat>, challenger: Address, reward: nat)
    : Option<map<Address, nat>>
    requires reward <= Balance(accounts, at.pool)
  {
    if reward == 0 then Some(accounts)
    else
      var paid := accounts[at.pool := Balance(accounts, at.pool) - reward];
      if Balance(paid, challenger) + reward > U128_MAX then None
        else Some(paid[challenger := Balance(paid, challenger) + reward])
  }

  function Received(at: Places, before: Books, after: Books): int {
    Balance(after.accounts, at.pool) - Balance(before.accounts, at.pool)
  }

  /** `fault_slash`: nothing more for a tombstoned validator; otherwise slash, reward, tombstone. */
  function FaultSlash(at: Places, p: Params, b: Books, v: Address, challenger: Address): Option<Books>
    requires p.Valid()
  {
    if v in b.tombstoned then Some(b)
    else if Row(b, v).None? then None
    else
      var slashed := ApplySlash(at, b, v, Share(Total(b.stakes[Row(b, v).value]), p.slashBps));
      if slashed.None? then None
      else
        PoolReceives(at, b, v, Share(Total(b.stakes[Row(b, v).value]), p.slashBps));
        var received: nat := Received(at, b, slashed.value);
        ShareBounded(received, p.rewardBps);
        var accounts := Rewarded(at, slashed.value.accounts, challenger, Share(received, p.rewardBps));
        if accounts.None? then None
        else Some(slashed.value.(accounts := accounts.value, tombstoned := b.tombstoned + {v}))
  }

  /** One submission: whom the evidence names, if anyone, and whether it is a dispute that only marks
      the block. */
  datatype Submission = Submission(culprit: Option<Address>, disputed: bool, height: nat, challenger: Address)

  /** `submit_equivocation_evidence` and `submit_execution_fault`; a refused action changes nothing. */
  function Submit(at: Places, p: Params, b: Books, s: Submission): Books
    requires p.Valid()
  {
    if s.culprit.None? || (s.height, s.culprit.value) in b.markers then b
    else
      var after := if s.disputed then Some(b) else FaultSlash(at, p, b, s.culprit.value, s.challenger);
      if after.None? then b else after.value.(markers := b.markers + {(s.height, s.culprit.value)})
  }

  function SubmitAll(at: Places, p: Params, b: Books, ss: seq<Submission>): Books
    requires p.Valid()
  {
    if ss == [] then b else Submit(at, p, SubmitAll(at, p, b, ss[..|ss| - 1]), ss[|ss| - 1])
  }

  // ----- value is conserved

  ghost function Supply(accounts: map<Address, nat>): nat {
    if accounts == map[] then 0
    else
      var a :| a in accounts;
      accounts[a] + Supply(accounts - {a})
  }

  lemma {:induction false} SupplyWithout(accounts: map<Address, nat>, a: Address)
    ensures Supply(accounts) == Balance(accounts, a) + Supply(accounts - {a})
    decreases |accounts|
  {
    if a !in accounts {
      assert accounts - {a} == accounts;
    } else {
      var c :| c in accounts && Supply(accounts) == accounts[c] + Supply(accounts - {c});
      if a != c {
        SupplyWithout(accounts - {c}, a);
        SupplyWithout(accounts - {a}, c);
        assert accounts - {c} - {a} == accounts - {a} - {c};
      }
    }
  }

  lemma SupplySet(accounts: map<Address, nat>, a: Address, value: nat)
    ensures Supply(accounts[a := value]) == Supply(accounts) - Balance(accounts, a) + value
  {
    SupplyWithout(accounts, a);
    SupplyWithout(accounts[a := value], a);
    assert accounts[a := value] - {a} == accounts - {a};
  }

  lemma PoolReceives(at: Places, b: Books, v: Address, amount: nat)
    requires ApplySlash(at, b, v, amount).Some?
    ensures var after := ApplySlash(at, b, v, amount).value;
            0 <= Received(at, b, after) <= Balance(after.accounts, at.pool)
  {
  }

  /** The share is the exact fraction, rounded down. */
  lemma ShareExact(amount: nat, bps: nat)
    ensures BPS * Share(amount, bps) <= amount * bps < BPS * (Share(amount, bps) + 1)
  {
    var n := amount * bps;
    assert n == BPS * (n / BPS) + n % BPS;
  }

  lemma ShareBounded(amount: nat, bps: nat)
    requires bps <= BPS
    ensures Share(amount, bps) <= amount
  {
    assert amount * bps <= amount * BPS;
  }

  lemma ApplyConserves(at: Places, b: Books, v: Address, amount: nat)
    requires at.Valid() && ApplySlash(at, b, v, amount).Some?
    ensures Supply(ApplySlash(at, b, v, amount).value.accounts) == Supply(b.accounts)
  {
    hide Supply;
    var sub := at.sub(v);
    var debited := Min(Balance(b.accounts, sub), Min(amount, Total(b.stakes[Row(b, v).value])));
    var one := b.accounts[sub := Balance(b.accounts, sub) - debited];
    SupplySet(b.accounts, sub, Balance(b.accounts, sub) - debited);
    SupplySet(one, at.pool, Balance(b.accounts, at.pool) + debited);
  }

  /** Also when the challenger is the pool itself, or the sub-account just slashed. */
  lemma RewardConserves(at: Places, accounts: map<Address, nat>, challenger: Address, reward: nat)
    requires reward <= Balance(accounts, at.pool) && Rewarded(at, accounts, challenger, reward).Some?
    ensures Supply(Rewarded(at, accounts, challenger, reward).value) == Supply(accounts)
  {
    hide Supply;
    var paid := accounts[at.pool := Balance(accounts, at.pool) - reward];
    SupplySet(accounts, at.pool, Balance(accounts, at.pool) - reward);
    SupplySet(paid, challenger, Balance(paid, challenger) + reward);
  }

  lemma SubmitConserves(at: Places, p: Params, b: Books, s: Submission)
    requires at.Valid() && p.Valid()
    ensures Supply(Submit(at, p, b, s).accounts) == Supply(b.accounts)
  {
    hide Supply, ApplySlash, Rewarded, Share;
    if s.culprit.Some? && s.culprit.value !in b.tombstoned && Row(b, s.culprit.value).Some? {
      var v := s.culprit.value;
      var amount := Share(Total(b.stakes[Row(b, v).value]), p.slashBps);
      var slashed := ApplySlash(at, b, v, amount);
      if slashed.Some? {
        ApplyConserves(at, b, v, amount);
        PoolReceives(at, b, v, amount);
        var received: nat := Received(at, b, slashed.value);
        ShareBounded(received, p.rewardBps);
        if Rewarded(at, slashed.value.accounts, s.challenger, Share(received, p.rewardBps)).Some? {
          RewardConserves(at, slashed.value.accounts, s.challenger, Share(received, p.rewardBps));
        }
      }
    }
  }

  /** Over any sequence of fault submissions nothing is minted and nothing is burned. */
  lemma {:induction false} SlashingConserves(at: Places, p: Params, b: Books, ss: seq<Submission>)
    requires at.Valid() && p.Valid()
    ensures Supply(SubmitAll(at, p, b, ss).accounts) == Supply(b.accounts)
  {
    hide Supply, Submit;
    if ss != [] {
      SlashingConserves(at, p, b, ss[..|ss| - 1]);
      SubmitConserves(at, p, SubmitAll(at, p, b, ss[..|ss| - 1]), ss[|ss| - 1]);
    }
  }

  // ----- once

  /** Everything staked behind `v`, row by row. */
  ghost predicate SameStake(a: Books, b: Books, v: Address) {
    forall m :: ((m, v) in a.stakes <==> (m, v) in b.stakes) && ((m, v) in a.stakes ==>
      a.stakes[(m, v)] == b.stakes[(m, v)])
  }

  lemma SubmitOnce(at: Places, p: Params, b: Books, s: Submission, v: Address)
    requires p.Valid()
    ensures var after := Submit(at, p, b, s);
            && b.tombstoned <= after.tombstoned
            && (v in b.tombstoned || s.culprit != Some(v) ==> SameStake(b, after, v))
            && (!SameStake(b, after, v) ==> v in after.tombstoned)
  {
    hide Share, Rewarded;
  }

  /** Once a validator is tombstoned no further submission touches its stake, and any submission that
      does touch a validator's stake tombstones it: each is slashed at most once. */
  lemma {:induction false} SlashedOnce(at: Places, p: Params, b: Books, ss: seq<Submission>, i: nat, v: Address)
    requires p.Valid() && i <= |ss| && !SameStake(b, SubmitAll(at, p, b, ss[..i]), v)
    ensures SameStake(SubmitAll(at, p, b, ss[..i]), SubmitAll(at, p, b, ss), v)
    decreases |ss|
  {
    hide Submit, SameStake;
    Tombstones(at, p, b, ss[..i], v);
    TombstonedStays(at, p, b, ss, i, v);
  }

  lemma {:induction false} Tombstones(at: Places, p: Params, b: Books, ss: seq<Submission>, v: Address)
    requires p.Valid() && !SameStake(b, SubmitAll(at, p, b, ss), v)
    ensures v in SubmitAll(at, p, b, ss).tombstoned
    decreases |ss|
  {
    hide Submit;
    if ss != [] {
      var mid := SubmitAll(at, p, b, ss[..|ss| - 1]);
      SubmitOnce(at, p, mid, ss[|ss| - 1], v);
      if !SameStake(b, mid, v) {
        Tombstones(at, p, b, ss[..|ss| - 1], v);
      }
    }
  }

  lemma {:induction false} TombstonedStays(at: Places, p: Params, b: Books, ss: seq<Submission>, i: nat, v: Address)
    requires p.Valid() && i <= |ss| && v in SubmitAll(at, p, b, ss[..i]).tombstoned
    ensures v in SubmitAll(at, p, b, ss).tombstoned
    ensures SameStake(SubmitAll(at, p, b, ss[..i]), SubmitAll(at, p, b, ss), v)
    decreases |ss|
  {
    hide Submit;
    if i == |ss| {
      assert ss[..i] == ss;
    } else {
      var n := |ss| - 1;
      assert ss[..n][..i] == ss[..i];
      TombstonedStays(at, p, b, ss[..n], i, v);
      SubmitOnce(at, p, SubmitAll(at, p, b, ss[..n]), ss[n], v);
    }
  }

  // ----- when a submission succeeds

  lemma TwoBalances(accounts: map<Address, nat>, a: Address, c: Address)
    ensures Balance(accounts, a) <= Supply(accounts)
    ensures a != c ==> Balance(accounts, a) + Balance(accounts, c) <= Supply(accounts)
  {
    SupplyWithout(accounts, a);
    SupplyWithout(accounts - {a}, c);
  }

  lemma SlashFits(at: Places, b: Books, v: Address, amount: nat)
    requires at.Valid() && Supply(b.accounts) <= U128_MAX
    ensures ApplySlash(at, b, v, amount).Some? <==> Row(b, v).Some?
  {
    hide Supply;
    TwoBalances(b.accounts, at.pool, at.sub(v));
  }

  lemma RewardFits(at: Places, accounts: map<Address, nat>, challenger: Address, reward: nat)
    requires reward <= Balance(accounts, at.pool) && Supply(accounts) <= U128_MAX
    ensures Rewarded(at, accounts, challenger, reward).Some?
  {
    hide Supply;
    SupplySet(accounts, at.pool, Balance(accounts, at.pool) - reward);
    TwoBalances(accounts[at.pool := Balance(accounts, at.pool) - reward], challenger, challenger);
  }

  /** While all the money there is fits 128 bits no slash fails for an overflow: it succeeds exactly when there is
      nothing left to do, or the validator's first master has a stake behind it. */
  lemma SlashSucceedsIff(at: Places, p: Params, b: Books, v: Address, challenger: Address)
    requires at.Valid() && p.Valid() && Supply(b.accounts) <= U128_MAX
    ensures FaultSlash(at, p, b, v, challenger).Some? <==>
            v in b.tombstoned || (v in b.masters && b.masters[v] != [] && (b.masters[v][0], v) in b.stakes)
  {
    hide Supply, Share, Rewarded, ApplySlash;
    if Row(b, v).Some? {
      var amount := Share(Total(b.stakes[Row(b, v).value]), p.slashBps);
      SlashFits(at, b, v, amount);
      var slashed := ApplySlash(at, b, v, amount).value;
      ApplyConserves(at, b, v, amount);
      PoolReceives(at, b, v, amount);
      var received: nat := Received(at, b, slashed);
      ShareBounded(received, p.rewardBps);
      RewardFits(at, slashed.accounts, challenger, Share(received, p.rewardBps));
    }
  }

  /** Every balance fits the 128 bits it is stored in. */
  ghost predicate InRange(accounts: map<Address, nat>) {
    forall a :: a in accounts ==> accounts[a] <= U128_MAX
  }

  /** And in any case no slash writes a balance that does not fit. */
  lemma {:induction false} StaysInRange(at: Places, p: Params, b: Books, ss: seq<Submission>)
    requires p.Valid() && InRange(b.accounts)
    ensures InRange(SubmitAll(at, p, b, ss).accounts)
  {
    hide Submit, InRange;
    if ss != [] {
      StaysInRange(at, p, b, ss[..|ss| - 1]);
      SubmitInRange(at, p, SubmitAll(at, p, b, ss[..|ss| - 1]), ss[|ss| - 1]);
    }
  }

  lemma SubmitInRange(at: Places, p: Params, b: Books, s: Submission)
    requires p.Valid() && InRange(b.accounts)
    ensures InRange(Submit(at, p, b, s).accounts)
  {
    hide Share;
  }

  /** The second time a submission changes nothing: it left its marker, or it could not be carried out and still
      cannot. */
  lemma SubmitTwice(at: Places, p: Params, b: Books, s: Submission)
    requires p.Valid()
    ensures Submit(at, p, Submit(at, p, b, s), s) == Submit(at, p, b, s)
  {
    hide FaultSlash;
  }

  /** A dispute leaves its marker and nothing else; evidence against a validator with a stake, not yet marked at the
      height, tombstones it; and a marker is only ever left for the culprit named, at its height. */
  lemma SubmitPunishes(at: Places, p: Params, b: Books, s: Submission)
    requires at.Valid() && p.Valid() && Supply(b.accounts) <= U128_MAX
    ensures var after := Submit(at, p, b, s);
            && (s.disputed ==> after.(markers := b.markers) == b)
            && (s.disputed && s.culprit.Some? ==> (s.height, s.culprit.value) in after.markers)
            && (!s.disputed && s.culprit.Some? && (s.height, s.culprit.value) !in b.markers
                && Row(b, s.culprit.value).Some? ==>
                  s.culprit.value in after.tombstoned && (s.height, s.culprit.value) in after.markers)
            && (forall m :: m in after.markers ==> m in b.markers || (s.culprit == Some(m.1) && s.height == m.0))
            && b.markers <= after.markers
  {
    hide Supply, Share, Rewarded, ApplySlash;
    if s.culprit.Some? {
      SlashSucceedsIff(at, p, b, s.culprit.value, s.challenger);
    }
  }

  /** What is left of a stake: what is bonded pays first, and an unbonding that is used up is gone. */
  lemma CutExact(s: Allocation, amount: nat)
    requires amount <= Total(s)
    ensures var after := Cut(s, amount);
            if amount <= s.active then after == Allocation(s.active - amount, s.unbonding)
            else
              && after.active == 0
              && (after.unbonding.None? <==> amount == Total(s))
              && (after.unbonding.Some? ==> after.unbonding.value == Total(s) - amount)
  {
  }

  // ----- the method, editing the account map in place

  /** `fault_slash`. */
  method RunFaultSlash(at: Places, p: Params, b: Books, v: Address, challenger: Address) returns (r: Option<Books>)
    requires p.Valid()
    ensures r == FaultSlash(at, p, b, v, challenger)
  {
    hide Share, Cut;
    if v in b.tombstoned {
      return Some(b);
    }
    var row := Row(b, v);
    if row.None? {
      return None;
    }
    var amount := Share(Total(b.stakes[row.value]), p.slashBps);
    var slashed := ApplySlash(at, b, v, amount);
    if slashed.None? {
      return None;
    }
    PoolReceives(at, b, v, amount);
    var accounts := slashed.value.accounts;
    var poolBefore := Balance(b.accounts, at.pool);
    var received: nat := Balance(accounts, at.pool) - poolBefore;
    ShareBounded(received, p.rewardBps);
    var reward := Share(received, p.rewardBps);
    if reward > 0 {
      accounts := accounts[at.pool := Balance(accounts, at.pool) - reward];
      var entry := Balance(accounts, challenger);
      if entry + reward > U128_MAX {
        return None;
      }
      accounts := accounts[challenger := entry + reward];
    }
    r := Some(slashed.value.(accounts := accounts, tombstoned := b.tombstoned + {v}));
  }

  /** What leaves the sub-account: the given share of the stake, or all there is of it. */
  function Taken(at: Places, p: Params, b: Books, v: Address): nat {
    if Row(b, v).None? then 0
    else Min(Balance(b.accounts, at.sub(v)), Share(Total(b.stakes[Row(b, v).value]), p.slashBps))
  }

  /** What a slash does, whoever the challenger is - the pool and the slashed sub-account included: the
      share leaves the stake, what was taken leaves the sub-account, and the reward is the challenger's
      part of that, the rest of it the pool's. */
  lemma SlashTakes(at: Places, p: Params, b: Books, v: Address, challenger: Address)
    requires at.Valid() && p.Valid()
    ensures v !in b.tombstoned && FaultSlash(at, p, b, v, challenger).Some? ==>
              var after, row := FaultSlash(at, p, b, v, challenger).value, Row(b, v).value;
              && (if row in after.stakes then Total(after.stakes[row]) else 0)
                 == Total(b.stakes[row]) - Share(Total(b.stakes[row]), p.slashBps)
              && v in after.tombstoned
              && forall a :: Balance(after.accounts, a) == Balance(b.accounts, a) + Moved(at, p, b, v, challenger, a)
  {
    hide Share;
    if v !in b.tombstoned && FaultSlash(at, p, b, v, challenger).Some? {
      var total := Total(b.stakes[Row(b, v).value]);
      ShareBounded(total, p.slashBps);
      PoolReceives(at, b, v, Share(total, p.slashBps));
      var received: nat := Received(at, b, ApplySlash(at, b, v, Share(total, p.slashBps)).value);
      assert received == Taken(at, p, b, v);
      ShareBounded(received, p.rewardBps);
    }
  }

  /** And it touches no other stake: the row slashed is the first master's, it is gone exactly when the validator's
      masters are cleared, and everyone else's masters stay. */
  lemma SlashOnlyRow(at: Places, p: Params, b: Books, v: Address, challenger: Address)
    requires p.Valid() && v !in b.tombstoned && FaultSlash(at, p, b, v, challenger).Some?
    ensures v in b.masters && b.masters[v] != []
    ensures var after, row := FaultSlash(at, p, b, v, challenger).value, (b.masters[v][0], v);
            && row in b.stakes && v in after.masters
            && (forall k :: k != row ==> (k in after.stakes <==> k in b.stakes))
            && (forall k :: k != row && k in b.stakes && k in after.stakes ==> after.stakes[k] == b.stakes[k])
            && (row !in after.stakes <==> after.masters[v] == [])
            && (forall u :: u in b.masters && u != v ==> u in after.masters && after.masters[u] == b.masters[u])
  {
    hide Share, Rewarded, Cut;
  }

  /** The change of `a`'s balance. */
  function Moved(at: Places, p: Params, b: Books, v: Address, challenger: Address, a: Address): int {
    var taken: int := Taken(at, p, b, v);
    var reward: int := Share(taken, p.rewardBps);
    (if a == at.sub(v) then -taken else 0) + (if a == at.pool then taken - reward else 0)
    + if a == challenger then reward else 0
  }

  /** The reward is never more than what the pool received from this slash, and for a challenger other
      than the pool and the sub-account it is exactly what it gains. */
  lemma RewardBounded(at: Places, p: Params, b: Books, v: Address, challenger: Address)
    requires at.Valid() && p.Valid()
    ensures v !in b.tombstoned && FaultSlash(at, p, b, v, challenger).Some? ==>
              var slashed := ApplySlash(at, b, v, Share(Total(b.stakes[Row(b, v).value]), p.slashBps));
              var after := FaultSlash(at, p, b, v, challenger).value;
              var gain := Balance(after.accounts, challenger) - Balance(b.accounts, challenger);
              && slashed.Some? && Received(at, b, slashed.value) == Taken(at, p, b, v)
              && Share(Taken(at, p, b, v), p.rewardBps) <= Received(at, b, slashed.value)
              && gain <= Received(at, b, slashed.value)
              && (challenger != at.pool && challenger != at.sub(v) ==> gain == Share(Taken(at, p, b, v), p.rewardBps))
  {
    hide Share;
    if v !in b.tombstoned && FaultSlash(at, p, b, v, challenger).Some? {
      SlashTakes(at, p, b, v, challenger);
      ShareBounded(Total(b.stakes[Row(b, v).value]), p.slashBps);
      ShareBounded(Taken(at, p, b, v), p.rewardBps);
    }
  }
}

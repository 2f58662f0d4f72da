/** Turning stakes into voting power (core/primitives/src/validator_set.rs, `assign_voting_power`):
    the powers of a non-empty set sum to exactly the total and nobody exceeds the cap, which is what
    quorum intersection rests on. */
module PowerAssignment {
  import opened VotingPower

  function Max(a: nat, b: nat): nat { if a >= b then a else b }

  function Min(a: nat, b: nat): nat { if a <= b then a else b }

  /** `power_cap`: twice the equal share, within 10% and 3,333, but never below the equal share. */
  function PowerCap(n: nat): nat {
    var m := Max(n, 1);
    Max(Max(TOTAL_VOTING_POWER / 10, Min(2 * TOTAL_VOTING_POWER / m, MAX_FAULTY_POWER)),
        (TOTAL_VOTING_POWER + m - 1) / m)
  }

  // ----- arithmetic

  lemma MulMonotone(a: nat, b: nat, c: nat)
    requires a <= b
    ensures a * c <= b * c
  {
  }

  lemma MulCancel(a: nat, b: nat, c: nat)
    requires c > 0
    ensures a * c <= b * c ==> a <= b
    ensures a * c < b * c ==> a < b
  {
    if a > b {
      MulMonotone(b + 1, a, c);
      assert (b + 1) * c == b * c + c;
    }
    if a == b {
      assert a * c == b * c;
    }
  }

  lemma FloorBounds(a: nat, b: nat)
    requires b > 0
    ensures b * (a / b) <= a < b * (a / b + 1)
  {
    assert a == b * (a / b) + a % b;
    assert b * (a / b + 1) == b * (a / b) + b;
  }

  // ----- the cap

  lemma EvenShare(n: nat)
    requires n > 0
    ensures var even := (TOTAL_VOTING_POWER + n - 1) / n;
            TOTAL_VOTING_POWER <= n * even && (n >= 4 ==> even <= 2_500) && (n < 4 ==> even > MAX_FAULTY_POWER)
  {
    var even := (TOTAL_VOTING_POWER + n - 1) / n;
    FloorBounds(TOTAL_VOTING_POWER + n - 1, n);
    assert n * (even + 1) == n * even + n;
    if n >= 4 {
      if even >= 2_501 {
        MulMonotone(2_501, even, n);
      }
    } else {
      assert n == 1 || n == 2 || n == 3;
    }
  }

  /** The cap can be met, and from four validators on it keeps any single one within the fault bound. */
  lemma CapFits(n: nat)
    requires n > 0
    ensures TOTAL_VOTING_POWER <= n * PowerCap(n)
    ensures PowerCap(n) <= MAX_FAULTY_POWER <==> n >= 4
  {
    var even := (TOTAL_VOTING_POWER + n - 1) / n;
    EvenShare(n);
    assert even <= PowerCap(n);
    MulMonotone(even, PowerCap(n), n);
  }

  /** The double share, and where it lies. */
  lemma DoubleShare(n: nat)
    requires n > 0
    ensures var twice := 2 * TOTAL_VOTING_POWER / n;
            && n * twice <= 2 * TOTAL_VOTING_POWER < n * (twice + 1)
            && (n <= 6 ==> twice >= MAX_FAULTY_POWER) && (n >= 6 ==> twice <= MAX_FAULTY_POWER)
            && (n <= 20 ==> twice >= 1_000) && (n >= 20 ==> twice <= 1_000)
  {
    var twice := 2 * TOTAL_VOTING_POWER / n;
    FloorBounds(2 * TOTAL_VOTING_POWER, n);
    assert twice * n == n * twice && (twice + 1) * n == n * (twice + 1);
    if n <= 6 {
      MulMonotone(n, 6, MAX_FAULTY_POWER);
      MulCancel(MAX_FAULTY_POWER, twice + 1, n);
    } else {
      MulMonotone(6, n, MAX_FAULTY_POWER + 1);
      MulCancel(twice, MAX_FAULTY_POWER + 1, n);
    }
    if n <= 20 {
      MulMonotone(n, 20, 1_000);
      MulCancel(1_000, twice + 1, n);
    } else {
      MulMonotone(20, n, 1_001);
      MulCancel(twice, 1_001, n);
    }
  }

  /** The equal share is at most the double one, or at most a tenth. */
  lemma EvenBelow(n: nat)
    requires n >= 4
    ensures var even := (TOTAL_VOTING_POWER + n - 1) / n;
            even <= MAX_FAULTY_POWER && (n <= 20 ==> even <= 2 * TOTAL_VOTING_POWER / n) && (n >= 20 ==> even <= 1_000)
  {
    var even := (TOTAL_VOTING_POWER + n - 1) / n;
    EvenShare(n);
    FloorBounds(TOTAL_VOTING_POWER + n - 1, n);
    DoubleShare(n);
    if n <= 20 {
      MulCancel(even, 2 * TOTAL_VOTING_POWER / n + 1, n);
      assert even * n == n * even;
    } else {
      MulCancel(even, 1_001, n);
      assert even * n == n * even;
    }
  }

  /** The cap exactly: up to three validators the equal share rounded up, up to six a third of the power, up to
      twenty twice the equal share rounded down, and a tenth of the power from there on. */
  lemma CapExact(n: nat)
    requires n > 0
    ensures n <= 3 ==> n * (PowerCap(n) - 1) < TOTAL_VOTING_POWER <= n * PowerCap(n)
    ensures 4 <= n <= 6 ==> PowerCap(n) == MAX_FAULTY_POWER
    ensures 6 <= n <= 20 ==> n * PowerCap(n) <= 2 * TOTAL_VOTING_POWER < n * (PowerCap(n) + 1)
    ensures n >= 20 ==> 10 * PowerCap(n) == TOTAL_VOTING_POWER
  {
    DoubleShare(n);
    if n >= 4 {
      EvenBelow(n);
    } else {
      assert n == 1 || n == 2 || n == 3;
    }
  }

  // ----- shares

  function Sum(s: seq<nat>): nat {
    if s == [] then 0 else Sum(s[..|s| - 1]) + s[|s| - 1]
  }

  /** One member's proportional share, rounded down; an equal one when nobody has stake. */
  function Share(stake: nat, total: nat, power: nat, members: nat): nat
    requires members > 0
  {
    if total == 0 then power / members else power * stake / total
  }

  function Shares(stakes: seq<nat>, total: nat, power: nat, members: nat): seq<nat>
    requires members > 0
  {
    seq(|stakes|, i requires 0 <= i < |stakes| => Share(stakes[i], total, power, members))
  }

  lemma {:induction false} ProportionalSum(stakes: seq<nat>, total: nat, power: nat, members: nat)
    requires total > 0 && members > 0
    ensures total * Sum(Shares(stakes, total, power, members)) <= power * Sum(stakes)
    ensures stakes != [] ==> power * Sum(stakes) < total * (Sum(Shares(stakes, total, power, members)) + |stakes|)
    decreases |stakes|
  {
    if stakes != [] {
      var n := |stakes| - 1;
      var shares := Shares(stakes, total, power, members);
      ProportionalSum(stakes[..n], total, power, members);
      assert shares[..n] == Shares(stakes[..n], total, power, members);
      FloorBounds(power * stakes[n], total);
      OneMore(total, power, Sum(shares[..n]), shares[n], Sum(stakes[..n]), stakes[n], n);
    }
  }

  /** The bounds with one member more. */
  lemma OneMore(total: nat, power: nat, before: nat, q: nat, sum: nat, stake: nat, n: nat)
    requires total > 0 && total * before <= power * sum && total * q <= power * stake < total * (q + 1)
    requires if n == 0 then sum == 0 && before == 0 else power * sum < total * (before + n)
    ensures total * (before + q) <= power * (sum + stake) < total * (before + q + (n + 1))
  {
    Distribute(total, before, q);
    Distribute(power, sum, stake);
    Distribute(total, before + n, q + 1);
    assert n == 0 ==> power * sum == 0;
  }

  lemma Distribute(a: nat, b: nat, c: nat)
    ensures a * (b + c) == a * b + a * c
  {
  }

  lemma {:induction false} EqualSum(stakes: seq<nat>, power: nat, members: nat)
    requires members > 0
    ensures Sum(Shares(stakes, 0, power, members)) == |stakes| * (power / members)
    decreases |stakes|
  {
    if stakes != [] {
      var n := |stakes| - 1;
      assert Shares(stakes, 0, power, members)[..n] == Shares(stakes[..n], 0, power, members);
      EqualSum(stakes[..n], power, members);
      assert (n + 1) * (power / members) == n * (power / members) + power / members;
    }
  }

  /** Rounding down leaves less than one unit per member over. */
  lemma SharesAlmost(stakes: seq<nat>, power: nat)
    requires stakes != []
    ensures var shares := Shares(stakes, Sum(stakes), power, |stakes|);
            Sum(shares) <= power < Sum(shares) + |stakes|
  {
    hide Shares, Sum;
    var total, n := Sum(stakes), |stakes|;
    var got := Sum(Shares(stakes, total, power, n));
    if total == 0 {
      EqualSum(stakes, power, n);
      FloorBounds(power, n);
      assert n * (power / n + 1) == n * (power / n) + n;
    } else {
      ProportionalSum(stakes, total, power, n);
      MulCancel(got, power, total);
      MulCancel(power, got + n, total);
    }
  }

  /** One unit more for each of the first `leftover`. */
  function Topped(shares: seq<nat>, leftover: nat): seq<nat> {
    seq(|shares|, i requires 0 <= i < |shares| => shares[i] + if i < leftover then 1 else 0)
  }

  lemma {:induction false} ToppedSum(shares: seq<nat>, leftover: nat)
    ensures Sum(Topped(shares, leftover)) == Sum(shares) + Min(leftover, |shares|)
    decreases |shares|
  {
    if shares != [] {
      var n := |shares| - 1;
      assert Topped(shares, leftover)[..n] == Topped(shares[..n], leftover);
      ToppedSum(shares[..n], leftover);
    }
  }

  /** One proportional pass: shares rounded down, and what is left one unit each in address order. */
  function Divide(stakes: seq<nat>, power: nat): seq<nat>
    requires stakes != []
  {
    var shares := Shares(stakes, Sum(stakes), power, |stakes|);
    SharesAlmost(stakes, power);
    Topped(shares, power - Sum(shares))
  }

  lemma DivideAll(stakes: seq<nat>, power: nat)
    requires stakes != []
    ensures Sum(Divide(stakes, power)) == power
  {
    SharesAlmost(stakes, power);
    var shares := Shares(stakes, Sum(stakes), power, |stakes|);
    ToppedSum(shares, power - Sum(shares));
  }

  /** More stake never gets a whole unit less. */
  lemma DivideFair(stakes: seq<nat>, power: nat, i: nat, j: nat)
    requires i < |stakes| && j < |stakes| && stakes[i] >= stakes[j]
    ensures Divide(stakes, power)[i] + 1 >= Divide(stakes, power)[j]
  {
    hide Sum;
    SharesAlmost(stakes, power);
    var total := Sum(stakes);
    if total > 0 {
      MulMonotone(stakes[j], stakes[i], power);
      DivMonotone(power * stakes[j], power * stakes[i], total);
    }
  }

  lemma DivMonotone(a: nat, b: nat, c: nat)
    requires a <= b && c > 0
    ensures a / c <= b / c
  {
    FloorBounds(a, c);
    FloorBounds(b, c);
    if a / c > b / c {
      MulMonotone(b / c + 1, a / c, c);
    }
  }

  /** At the pool's rate this stake earns at least the cap. */
  predicate EarnsCap(cap: nat, power: nat, total: nat, stake: nat) {
    stake > 0 && cap * total <= power * stake
  }

  lemma FloorEarns(cap: nat, power: nat, total: nat, stake: nat)
    requires total > 0 && 0 < cap <= power * stake / total
    ensures EarnsCap(cap, power, total, stake)
  {
    FloorBounds(power * stake, total);
    MulMonotone(cap, power * stake / total, total);
    assert stake == 0 ==> power * stake == 0;
  }

  /** Only a stake that earns the cap at the pool's rate is ever given more than the cap. */
  lemma DivideOver(stakes: seq<nat>, power: nat, cap: nat, i: nat)
    requires 0 < cap && i < |stakes| && power <= |stakes| * cap && Divide(stakes, power)[i] > cap
    ensures EarnsCap(cap, power, Sum(stakes), stakes[i])
  {
    hide Sum, EarnsCap;
    SharesAlmost(stakes, power);
    var total := Sum(stakes);
    if total == 0 {
      EqualFits(stakes, power, cap, i);
    } else {
      assert cap <= power * stakes[i] / total;
      FloorEarns(cap, power, total, stakes[i]);
    }
  }

  lemma EqualFits(stakes: seq<nat>, power: nat, cap: nat, i: nat)
    requires i < |stakes| && power <= |stakes| * cap && Sum(stakes) == 0
    ensures Divide(stakes, power)[i] <= cap
  {
    hide Sum;
    SharesAlmost(stakes, power);
    EqualSum(stakes, power, |stakes|);
    FloorBounds(power, |stakes|);
    MulCancel(power / |stakes|, cap, |stakes|);
    if power / |stakes| == cap {
      assert power == |stakes| * cap;
    }
  }

  lemma DivideEarned(stakes: seq<nat>, power: nat, cap: nat, i: nat)
    requires i < |stakes| && Sum(stakes) > 0 && EarnsCap(cap, power, Sum(stakes), stakes[i])
    ensures Divide(stakes, power)[i] >= cap
  {
    hide Sum;
    SharesAlmost(stakes, power);
    var total := Sum(stakes);
    FloorBounds(power * stakes[i], total);
    MulCancel(cap, power * stakes[i] / total + 1, total);
  }

  /** Taking out a stake that earns the cap, with the cap, never lowers the rate for the others. */
  lemma RateRises(cap: nat, power: nat, total: nat, out: nat, stake: nat)
    requires EarnsCap(cap, power, total, out) && EarnsCap(cap, power, total, stake) && out <= total && cap <= power
    ensures EarnsCap(cap, power - cap, total - out, stake)
  {
    var left, rest := power - cap, total - out;
    assert left * total == power * total - cap * total;
    assert power * rest == power * total - power * out;
    assert power * rest <= left * total;
    MulMonotone(power * rest, left * total, stake);
    MulMonotone(cap * total, power * stake, rest);
    assert power * rest * stake == power * stake * rest;
    assert cap * total * rest == cap * rest * total;
    assert left * total * stake == left * stake * total;
    MulCancel(cap * rest, left * stake, total);
  }

  // ----- the assignment

  /** Giving an address outside a group some power does not change the group's. */
  lemma {:induction false} PowerElsewhere(m: PowerMap, a: Address, p: nat, group: set<Address>)
    requires a !in group
    ensures PowerOf(m[a := p], group) == PowerOf(m, group)
    decreases |group|
  {
    if group != {} {
      var b :| b in group;
      PowerRemove(m, group, b);
      PowerRemove(m[a := p], group, b);
      PowerElsewhere(m, a, p, group - {b});
    }
  }

  lemma PowerAdded(m: PowerMap, a: Address, p: nat)
    requires a !in m
    ensures PowerOf(m[a := p], m[a := p].Keys) == PowerOf(m, m.Keys) + p
  {
    PowerRemove(m[a := p], m[a := p].Keys, a);
    assert m[a := p].Keys - {a} == m.Keys;
    PowerElsewhere(m, a, p, m.Keys);
  }

  predicate Distinct(s: seq<Address>) {
    forall i, j :: 0 <= i < j < |s| ==> s[i] != s[j]
  }

  function StakesOf(stakes: map<Address, nat>, members: seq<Address>): seq<nat>
    requires Elements(members) <= stakes.Keys
  {
    assert forall i :: 0 <= i < |members| ==> members[i] in Elements(members);
    seq(|members|, i requires 0 <= i < |members| => stakes[members[i]])
  }

  /** Those in `powers` hold the cap and earn it at the rate of the pool `members`; together they are
      everyone, and what is left can be placed below the cap. */
  ghost predicate Progress(stakes: map<Address, nat>, cap: nat, powers: PowerMap, members: seq<Address>,
                           remaining: nat) {
    && Distinct(members) && powers.Keys !! Elements(members) && powers.Keys + Elements(members) == stakes.Keys
    && (forall a :: a in powers ==>
          powers[a] == cap && EarnsCap(cap, remaining, Sum(StakesOf(stakes, members)), stakes[a]))
    && PowerOf(powers, powers.Keys) + remaining == TOTAL_VOTING_POWER
  }

  /** Whoever staked at least as much holds at least as much, up to the one unit of rounding. */
  ghost predicate Fair(stakes: map<Address, nat>, powers: PowerMap) {
    forall a, b :: a in stakes && b in stakes && a in powers && b in powers && stakes[a] >= stakes[b] ==>
      powers[a] + 1 >= powers[b]
  }

  predicate Ascending(s: seq<Address>) {
    forall i, j :: 0 <= i < j < |s| ==> s[i] < s[j]
  }

  /** `share`, less the unit it is topped up by, is `power` times the stake's part of `total` rounded down; an equal
      part when nobody has stake. */
  predicate Rounded(share: nat, topped: bool, power: nat, stake: nat, total: nat, members: nat) {
    var q: int := if topped then share - 1 else share;
    if total == 0 then members * q <= power < members * (q + 1) else total * q <= power * stake < total * (q + 1)
  }

  /** The members of `pool` hold `remaining` between them, each in proportion to its stake, rounded down, with what is
      over going one unit each to the first `leftover`; everyone else holds the cap, and earns it at that rate. */
  ghost predicate Apportioned(stakes: map<Address, nat>, cap: nat, powers: PowerMap, pool: seq<Address>,
                              remaining: nat, leftover: nat)
  {
    && powers.Keys == stakes.Keys && Elements(pool) <= stakes.Keys && Distinct(pool) && leftover < |pool|
    && PowerOf(powers, Elements(pool)) == remaining
    && var total := Sum(StakesOf(stakes, pool));
       && (forall a :: a in stakes && a !in Elements(pool) ==>
             powers[a] == cap && EarnsCap(cap, remaining, total, stakes[a]))
       && (forall i :: 0 <= i < |pool| ==>
             && pool[i] in stakes
             && Rounded(powers[pool[i]], i < leftover, remaining, stakes[pool[i]], total, |pool|))
  }

  lemma {:induction false} PowerSame(a: PowerMap, b: PowerMap, group: set<Address>)
    requires forall x :: x in group ==> x in a && x in b && a[x] == b[x]
    ensures PowerOf(a, group) == PowerOf(b, group)
    decreases |group|
  {
    if group != {} {
      var x :| x in group;
      PowerRemove(a, group, x);
      PowerRemove(b, group, x);
      PowerSame(a, b, group - {x});
    }
  }

  /** The units rounding down leaves over. */
  function Leftover(stakes: seq<nat>, power: nat): nat
    requires stakes != []
  {
    SharesAlmost(stakes, power);
    power - Sum(Shares(stakes, Sum(stakes), power, |stakes|))
  }

  lemma ShareRounds(stake: nat, total: nat, power: nat, members: nat, topped: bool)
    requires members > 0
    ensures Rounded(Share(stake, total, power, members) + if topped then 1 else 0, topped, power, stake, total, members)
  {
    if total == 0 {
      FloorBounds(power, members);
    } else {
      FloorBounds(power * stake, total);
    }
  }

  /** What a pass gives a member, from its stake. */
  lemma DivideRounds(stakes: seq<nat>, power: nat, i: nat)
    requires i < |stakes|
    ensures Leftover(stakes, power) < |stakes| == |Divide(stakes, power)|
    ensures Rounded(Divide(stakes, power)[i], i < Leftover(stakes, power), power, stakes[i], Sum(stakes), |stakes|)
  {
    hide Sum, Share, Rounded;
    SharesAlmost(stakes, power);
    ShareRounds(stakes[i], Sum(stakes), power, |stakes|, i < Leftover(stakes, power));
  }

  lemma SettledApportioned(stakes: map<Address, nat>, cap: nat, before: PowerMap, members: seq<Address>, remaining: nat,
                           powers: PowerMap)
    requires Progress(stakes, cap, before, members, remaining) && members != [] && powers.Keys == stakes.Keys
    requires PowerOf(powers, powers.Keys) == TOTAL_VOTING_POWER
    requires var shares := Divide(StakesOf(stakes, members), remaining);
             && |shares| == |members|
             && (forall a :: a in before ==> powers[a] == before[a])
             && (forall i :: 0 <= i < |members| ==> members[i] in powers && powers[members[i]] == shares[i])
    ensures Apportioned(stakes, cap, powers, members, remaining, Leftover(StakesOf(stakes, members), remaining))
  {
    hide PowerOf, Divide, Sum, EarnsCap, Rounded, Leftover;
    PowerSame(powers, before, before.Keys);
    PowerUnion(powers, before.Keys, Elements(members));
    DivideRounds(StakesOf(stakes, members), remaining, 0);
    forall i | 0 <= i < |members|
      ensures members[i] in stakes
              && Rounded(powers[members[i]], i < Leftover(StakesOf(stakes, members), remaining), remaining,
                         stakes[members[i]], Sum(StakesOf(stakes, members)), |members|)
    {
      DivideRounds(StakesOf(stakes, members), remaining, i);
    }
  }

  // ----- the last pass

  /** Nobody over the cap: the pass stands. */
  method Settle(stakes: map<Address, nat>, cap: nat, before: PowerMap, members: seq<Address>, remaining: nat)
    returns (powers: PowerMap)
    requires Progress(stakes, cap, before, members, remaining) && members != []
    requires var shares := Divide(StakesOf(stakes, members), remaining); forall i :: 0 <= i < |shares| ==>
      shares[i] <= cap
    ensures powers.Keys == stakes.Keys && ValidPowers(powers) && Fair(stakes, powers)
    ensures forall a :: a in powers ==> powers[a] <= cap
    ensures Apportioned(stakes, cap, powers, members, remaining, Leftover(StakesOf(stakes, members), remaining))
  {
    hide PowerOf, Divide, Sum, EarnsCap, Fair, Apportioned, Leftover;
    var shares := Divide(StakesOf(stakes, members), remaining);
    DivideLength(StakesOf(stakes, members), remaining);
    DivideAll(StakesOf(stakes, members), remaining);
    powers := before;
    SumNone(shares);
    assert members[..0] == [];
    for i := 0 to |shares|
      invariant powers.Keys == before.Keys + Elements(members[..i])
      invariant forall a :: a in before ==> powers[a] == before[a]
      invariant forall j :: 0 <= j < i ==> members[j] in powers && powers[members[j]] == shares[j]
      invariant PowerOf(powers, powers.Keys) == PowerOf(before, before.Keys) + Sum(shares[..i])
    {
      NextMember(before, members, i);
      SumNext(shares, i);
      PowerAdded(powers, members[i], shares[i]);
      powers := powers[members[i] := shares[i]];
    }
    assert shares[..|shares|] == shares && members[..|shares|] == members;
    SettledFair(stakes, cap, before, members, remaining, powers);
    SettledApportioned(stakes, cap, before, members, remaining, powers);
  }

  lemma DivideLength(stakes: seq<nat>, power: nat)
    requires stakes != []
    ensures |Divide(stakes, power)| == |stakes|
  {
  }

  lemma SumNone(s: seq<nat>)
    ensures Sum(s[..0]) == 0
  {
  }

  lemma SumNext(s: seq<nat>, i: nat)
    requires i < |s|
    ensures Sum(s[..i + 1]) == Sum(s[..i]) + s[i]
  {
    assert s[..i + 1][..i] == s[..i];
  }

  lemma {:induction false} SumPrefix(s: seq<nat>, i: nat)
    requires i <= |s|
    ensures Sum(s[..i]) <= Sum(s)
    decreases |s| - i
  {
    if i < |s| {
      SumNext(s, i);
      SumPrefix(s, i + 1);
    } else {
      assert s[..i] == s;
    }
  }

  lemma SumMember(s: seq<nat>, i: nat)
    requires i < |s|
    ensures s[i] <= Sum(s)
  {
    SumNext(s, i);
    SumPrefix(s, i + 1);
  }

  lemma NextMember(before: PowerMap, members: seq<Address>, i: nat)
    requires i < |members| && Distinct(members) && before.Keys !! Elements(members)
    ensures members[i] !in before && members[i] !in Elements(members[..i])
    ensures Elements(members[..i + 1]) == Elements(members[..i]) + {members[i]}
  {
    assert members[i] in Elements(members);
    assert members[..i + 1] == members[..i] + [members[i]];
  }

  lemma SettledFair(stakes: map<Address, nat>, cap: nat, before: PowerMap, members: seq<Address>, remaining: nat,
                    powers: PowerMap)
    requires Progress(stakes, cap, before, members, remaining) && members != [] && powers.Keys == stakes.Keys
    requires var shares := Divide(StakesOf(stakes, members), remaining);
             && |shares| == |members| && (forall i :: 0 <= i < |shares| ==> shares[i] <= cap)
             && (forall a :: a in before ==> powers[a] == before[a])
             && (forall i :: 0 <= i < |members| ==> members[i] in powers && powers[members[i]] == shares[i])
    ensures Fair(stakes, powers)
  {
    hide PowerOf, Divide, Sum;
    forall a, b | a in stakes && b in stakes && stakes[a] >= stakes[b] ensures powers[a] + 1 >= powers[b] {
      assert a in before || a in Elements(members);
      assert b in before || b in Elements(members);
      if a !in before {
        var i :| 0 <= i < |members| && members[i] == a;
        if b !in before {
          var j :| 0 <= j < |members| && members[j] == b;
          DivideFair(StakesOf(stakes, members), remaining, i, j);
        } else {
          CappedAbove(stakes, cap, before, members, remaining, i, b);
        }
      }
    }
  }

  lemma CappedAbove(stakes: map<Address, nat>, cap: nat, before: PowerMap, members: seq<Address>, remaining: nat,
                    i: nat, b: Address)
    requires Progress(stakes, cap, before, members, remaining) && i < |members| && b in before
    requires members[i] in stakes && stakes[members[i]] >= stakes[b]
    ensures Divide(StakesOf(stakes, members), remaining)[i] >= cap
  {
    hide PowerOf, Divide, Sum;
    var pool := StakesOf(stakes, members);
    MulMonotone(stakes[b], stakes[members[i]], remaining);
    SumMember(pool, i);
    DivideLength(pool, remaining);
    DivideEarned(pool, remaining, cap, i);
  }

  // ----- a pass with someone over the cap

  /** The first `i` members went either way: fixed at the cap in `powers`, or on into `rest`. */
  ghost predicate Sorted(before: PowerMap, members: seq<Address>, i: nat, cap: nat, powers: PowerMap,
                         rest: seq<Address>, gone: nat) {
    && i <= |members| && gone <= i && |rest| == i - gone && Distinct(rest)
    && powers.Keys !! Elements(rest) && powers.Keys + Elements(rest) == before.Keys + Elements(members[..i])
    && (forall a :: a in powers ==> powers[a] == cap)
    && PowerOf(powers, powers.Keys) == PowerOf(before, before.Keys) + gone * cap
  }

  lemma SortFixed(before: PowerMap, members: seq<Address>, i: nat, cap: nat, powers: PowerMap, rest: seq<Address>,
                  gone: nat)
    requires Sorted(before, members, i, cap, powers, rest, gone) && i < |members| && Distinct(members)
    requires before.Keys !! Elements(members)
    ensures Sorted(before, members, i + 1, cap, powers[members[i] := cap], rest, gone + 1)
  {
    hide PowerOf, Elements;
    NextMember(before, members, i);
    PowerAdded(powers, members[i], cap);
    assert (gone + 1) * cap == gone * cap + cap;
  }

  lemma SortKept(before: PowerMap, members: seq<Address>, i: nat, cap: nat, powers: PowerMap, rest: seq<Address>,
                 gone: nat)
    requires Sorted(before, members, i, cap, powers, rest, gone) && i < |members| && Distinct(members)
    requires before.Keys !! Elements(members)
    ensures Sorted(before, members, i + 1, cap, powers, rest + [members[i]], gone)
  {
    hide PowerOf;
    NextMember(before, members, i);
    assert members[i] !in Elements(rest);
    assert Elements(rest + [members[i]]) == Elements(rest) + {members[i]};
  }

  /** Everyone fixed so far, and everyone still to be fixed, earns the cap at the current rate. */
  ghost predicate Rates(stakes: map<Address, nat>, cap: nat, powers: PowerMap, members: seq<Address>, shares: seq<nat>,
                        i: nat, remaining: nat, total: nat)
    requires |shares| == |members|
  {
    && (forall a :: a in powers ==> a in stakes && EarnsCap(cap, remaining, total, stakes[a]))
    && (forall j :: i <= j < |members| && shares[j] > cap ==>
          members[j] in stakes && EarnsCap(cap, remaining, total, stakes[members[j]]))
  }

  lemma RatesFixed(stakes: map<Address, nat>, cap: nat, powers: PowerMap, members: seq<Address>, shares: seq<nat>,
                   i: nat, remaining: nat, total: nat)
    requires |shares| == |members| && i < |members| && shares[i] > cap
    requires Rates(stakes, cap, powers, members, shares, i, remaining, total)
    requires members[i] in stakes && stakes[members[i]] <= total && cap <= remaining
    ensures Rates(stakes, cap, powers[members[i] := cap], members, shares, i + 1, remaining - cap,
                  total - stakes[members[i]])
  {
    hide EarnsCap;
    var out := stakes[members[i]];
    forall a | a in powers[members[i] := cap]
      ensures a in stakes && EarnsCap(cap, remaining - cap, total - out, stakes[a])
    {
      RateRises(cap, remaining, total, out, stakes[a]);
    }
    forall j | i + 1 <= j < |members| && shares[j] > cap
      ensures members[j] in stakes && EarnsCap(cap, remaining - cap, total - out, stakes[members[j]])
    {
      RateRises(cap, remaining, total, out, stakes[members[j]]);
    }
  }

  /** Everyone over the cap is fixed at it and leaves the pool with that much power. */
  method Clamp(stakes: map<Address, nat>, cap: nat, before: PowerMap, members: seq<Address>, power: nat)
    returns (powers: PowerMap, rest: seq<Address>, remaining: nat)
    requires Progress(stakes, cap, before, members, power) && members != [] && 0 < cap && power <= |members| * cap
    requires exists i :: 0 <= i < |members| && Divide(StakesOf(stakes, members), power)[i] > cap
    ensures Progress(stakes, cap, powers, rest, remaining)
    ensures rest != [] && |rest| < |members| && remaining <= |rest| * cap
    ensures Ascending(members) ==> Ascending(rest)
  {
    hide PowerOf, Sum, Sorted, Divide, EarnsCap, Rates;
    var pool := StakesOf(stakes, members);
    var shares := Divide(pool, power);
    DivideLength(pool, power);
    DivideAll(pool, power);
    powers, remaining, rest := before, power, [];
    ghost var gone: nat, total: nat := 0, Sum(pool);
    ClampStart(stakes, cap, before, members, power);
    for i := 0 to |shares|
      invariant Sorted(before, members, i, cap, powers, rest, gone) && gone <= i && Elements(rest) <= stakes.Keys
      invariant gone == 0 <==> forall j :: 0 <= j < i ==> shares[j] <= cap
      invariant gone * cap + gone <= Sum(shares[..i]) && remaining == power - gone * cap
      invariant total == Sum(StakesOf(stakes, rest)) + (Sum(pool) - Sum(pool[..i]))
      invariant Rates(stakes, cap, powers, members, shares, i, remaining, total)
      invariant forall a :: a in rest ==> a in members[..i]
      invariant Ascending(members) ==> Ascending(rest)
    {
      AscendingOn(members, rest, i);
      SumNext(shares, i);
      SumPrefix(shares, i + 1);
      SumNext(pool, i);
      SumPrefix(pool, i + 1);
      assert (gone + 1) * cap == gone * cap + cap;
      assert members[i] in Elements(members);
      if shares[i] > cap {
        SortFixed(before, members, i, cap, powers, rest, gone);
        RatesFixed(stakes, cap, powers, members, shares, i, remaining, total);
        powers, remaining := powers[members[i] := cap], remaining - cap;
        gone, total := gone + 1, total - stakes[members[i]];
      } else {
        SortKept(before, members, i, cap, powers, rest, gone);
        RatesKept(stakes, cap, powers, members, shares, i, remaining, total);
        StakesMore(stakes, rest, members[i]);
        rest := rest + [members[i]];
      }
    }
    assert shares[..|shares|] == shares && pool[..|shares|] == pool;
    ClampEnd(stakes, cap, before, members, power, powers, rest, gone, shares, total);
  }

  lemma AscendingOn(members: seq<Address>, rest: seq<Address>, i: nat)
    requires i < |members| && forall a :: a in rest ==> a in members[..i]
    ensures Ascending(members) && Ascending(rest) ==> Ascending(rest + [members[i]])
    ensures forall a :: a in rest || a == members[i] ==> a in members[..i + 1]
  {
    assert members[..i + 1] == members[..i] + [members[i]];
    if Ascending(members) {
      forall j | 0 <= j < |rest| ensures rest[j] < members[i] {
        assert rest[j] in members[..i];
      }
    }
  }

  lemma RatesKept(stakes: map<Address, nat>, cap: nat, powers: PowerMap, members: seq<Address>, shares: seq<nat>,
                  i: nat, remaining: nat, total: nat)
    requires |shares| == |members| && i < |members| && Rates(stakes, cap, powers, members, shares, i, remaining, total)
    ensures Rates(stakes, cap, powers, members, shares, i + 1, remaining, total)
  {
  }

  lemma StakesMore(stakes: map<Address, nat>, members: seq<Address>, a: Address)
    requires Elements(members) <= stakes.Keys && a in stakes
    ensures Elements(members + [a]) <= stakes.Keys
    ensures Sum(StakesOf(stakes, members + [a])) == Sum(StakesOf(stakes, members)) + stakes[a]
  {
    assert Elements(members + [a]) == Elements(members) + {a};
    assert StakesOf(stakes, members + [a])[..|members|] == StakesOf(stakes, members);
  }

  lemma ClampStart(stakes: map<Address, nat>, cap: nat, before: PowerMap, members: seq<Address>, power: nat)
    requires Progress(stakes, cap, before, members, power) && members != [] && 0 < cap && power <= |members| * cap
    ensures var pool := StakesOf(stakes, members);
            var shares := Divide(pool, power);
            && Sorted(before, members, 0, cap, before, [], 0) && Sum(shares[..0]) == 0 && Sum(pool[..0]) == 0
            && Sum(StakesOf(stakes, [])) == 0 && |shares| == |members|
            && Rates(stakes, cap, before, members, shares, 0, power, Sum(pool))
  {
    hide PowerOf, Divide, EarnsCap, Sum;
    var pool := StakesOf(stakes, members);
    var shares := Divide(pool, power);
    DivideLength(pool, power);
    assert members[..0] == [] && Elements([]) == {};
    SumNone(shares);
    SumNone(pool);
    SumNone([]);
    assert StakesOf(stakes, []) == [];
    forall j | 0 <= j < |members| && shares[j] > cap
      ensures members[j] in stakes && EarnsCap(cap, power, Sum(pool), stakes[members[j]])
    {
      assert members[j] in Elements(members);
      DivideOver(pool, power, cap, j);
    }
  }

  lemma ClampEnd(stakes: map<Address, nat>, cap: nat, before: PowerMap, members: seq<Address>, power: nat,
                 powers: PowerMap, rest: seq<Address>, gone: nat, shares: seq<nat>, total: nat)
    requires Progress(stakes, cap, before, members, power) && power <= |members| * cap && |shares| == |members|
    requires 0 < gone && gone * cap + gone <= power && Elements(rest) <= stakes.Keys
    requires Sorted(before, members, |members|, cap, powers, rest, gone)
    requires total == Sum(StakesOf(stakes, rest))
    requires Rates(stakes, cap, powers, members, shares, |members|, power - gone * cap, total)
    ensures Progress(stakes, cap, powers, rest, power - gone * cap)
    ensures rest != [] && |rest| < |members| && power - gone * cap <= |rest| * cap
  {
    hide PowerOf, Sum, EarnsCap;
    assert members[..|members|] == members;
    Room(|members|, gone, cap, power);
  }

  /** Fixing members at the cap leaves room for the rest below it, and someone to take it. */
  lemma Room(n: nat, gone: nat, cap: nat, sum: nat)
    requires sum <= n * cap && 0 < gone <= n && gone * cap + gone <= sum
    ensures gone < n && sum - gone * cap <= (n - gone) * cap
  {
    assert n * cap == (n - gone) * cap + gone * cap;
  }

  // ----- the whole assignment

  /** `assign_voting_power`; `members` is the set in address order, and `pool` are those left below the cap. */
  method AssignVotingPower(stakes: map<Address, nat>, members: seq<Address>)
    returns (powers: PowerMap, ghost pool: seq<Address>, ghost remaining: nat, ghost leftover: nat)
    requires Distinct(members) && Elements(members) == stakes.Keys
    ensures powers.Keys == stakes.Keys
    ensures stakes != map[] ==> ValidPowers(powers)
    ensures forall a :: a in powers ==> powers[a] <= PowerCap(|members|)
    ensures Fair(stakes, powers)
    ensures stakes != map[] ==> Apportioned(stakes, PowerCap(|members|), powers, pool, remaining, leftover)
    ensures Ascending(members) ==> Ascending(pool)
  {
    hide PowerOf, PowerCap, Divide, Sum, EarnsCap, Apportioned, Leftover;
    powers, pool, remaining, leftover := map[], members, TOTAL_VOTING_POWER, 0;
    if members == [] {
      return;
    }
    var cap, left := PowerCap(|members|), members;
    var power: nat := TOTAL_VOTING_POWER;
    CapFits(|members|);
    CapPositive(|members|);
    assert PowerOf(powers, powers.Keys) == 0 by { assert powers.Keys == {}; }
    while true
      invariant Progress(stakes, cap, powers, left, power)
      invariant left != [] && power <= |left| * cap && (Ascending(members) ==> Ascending(left))
      decreases |left|
    {
      var shares := Divide(StakesOf(stakes, left), power);
      DivideLength(StakesOf(stakes, left), power);
      if forall i :: 0 <= i < |shares| ==> shares[i] <= cap {
        powers := Settle(stakes, cap, powers, left, power);
        pool, remaining, leftover := left, power, Leftover(StakesOf(stakes, left), power);
        return;
      }
      powers, left, power := Clamp(stakes, cap, powers, left, power);
    }
  }

  lemma CapPositive(n: nat)
    ensures PowerCap(n) > 0
  {
  }
}

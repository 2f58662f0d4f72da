/** The voting rules as a property of one log, and what they guarantee.

    The log lists every vote in the order it became binding: for an honest validator the moment the
    vote is in its durable record, for a Byzantine one the moment it is signed. Signatures on the
    wire are always a subset of the log, in any order, so nothing here depends on delivery. The
    protocol is Tendermint's with the differences of arxd/finality (docs/consensus-safety.md,
    section 2, rules V1 to V6). */
module Protocol {
  import opened VotingPower
  import opened Blocks

  datatype Vote =
    | Prevote(voter: Address, height: nat, round: nat, block: Block)
    | Precommit(voter: Address, height: nat, round: nat, block: Block)
    | Timeout(voter: Address, height: nat, round: nat, parent: Block)

  /** The validator set the chain ending in a block puts in force for the next height, the heights at
      which a block may change it, and who is Byzantine. */
  datatype Setup = Setup(powers: Block -> PowerMap, boundary: nat -> bool, faulty: set<Address>) {
    /** Every set is well formed, and only a boundary block opens another one. */
    ghost predicate Valid() {
      && (forall b :: ValidPowers(powers(b)))
      && (forall b: Block :: b.Child? && !boundary(Height(b)) ==> powers(b) == powers(b.parent))
    }

    /** The Byzantine members of the set after `b` hold at most 3,333. */
    ghost predicate Bound(b: Block) { PowerOf(powers(b), faulty) <= MAX_FAULTY_POWER }

    /** So it is for every set that decided on `b` or a block below it. */
    ghost predicate Trusted(b: Block) { b.Genesis? || (Bound(b.parent) && Trusted(b.parent)) }

    predicate Honest(v: Address) { v !in faulty }
  }

  type Log = seq<Vote>

  function PrevotersOf(log: Log, h: nat, r: nat, b: Block): set<Address> {
    set x | x in log && x == Prevote(x.voter, h, r, b) :: x.voter
  }

  function PrecommittersOf(log: Log, h: nat, r: nat, b: Block): set<Address> {
    set x | x in log && x == Precommit(x.voter, h, r, b) :: x.voter
  }

  function TimersOf(log: Log, h: nat, r: nat, parent: Block): set<Address> {
    set x | x in log && x == Timeout(x.voter, h, r, parent) :: x.voter
  }

  /** A quorum prevoted `b` at `(h, r)`: the lock, a `PolRecord`. */
  ghost predicate Pol(s: Setup, log: Log, h: nat, r: nat, b: Block) {
    b.Child? && IsQuorum(s.powers(b.parent), PrevotersOf(log, h, r, b))
  }

  /** A quorum precommitted `b` at `(h, r)`. */
  ghost predicate CertifiedAt(s: Setup, log: Log, h: nat, r: nat, b: Block) {
    b.Child? && IsQuorum(s.powers(b.parent), PrecommittersOf(log, h, r, b))
  }

  /** Some round of `h` certified `b`: a `FinalityRecord`. */
  ghost predicate Certified(s: Setup, log: Log, h: nat, b: Block) {
    exists r :: CertifiedAt(s, log, h, r, b)
  }

  /** A quorum timed `(h, r)` out on top of `parent`: a `RoundCertificate`. */
  ghost predicate RoundCertified(s: Setup, log: Log, h: nat, r: nat, parent: Block) {
    IsQuorum(s.powers(parent), TimersOf(log, h, r, parent))
  }

  /** `b` and every block below it is certified by the set its own chain put in force. */
  ghost predicate Final(s: Setup, log: Log, b: Block) {
    b.Genesis? || (Certified(s, log, Height(b), b) && Final(s, log, b.parent))
  }

  /** What an honest vote at `h` rests on: `parent` is final and one below. */
  ghost predicate FinalParent(s: Setup, log: Log, h: nat, parent: Block) {
    h >= 1 && Height(parent) == h - 1 && Final(s, log, parent)
  }

  /** `b` may be voted on at `h`. */
  ghost predicate Votable(s: Setup, log: Log, h: nat, b: Block) {
    b.Child? && FinalParent(s, log, h, b.parent)
  }

  /** V2: `v` has not left round `r` of `h` - no vote at a later round, no timeout at `r`. */
  ghost predicate StillIn(log: Log, v: Address, h: nat, r: nat) {
    forall x :: x in log && x.voter == v && x.height == h ==>
      x.round <= r && (x.Timeout? ==> x.round < r)
  }

  /** V3: each precommit `v` made at `h` either names `b`, or a quorum prevoted `b` at a round
      from that precommit's up to `r`, the round being voted in included. */
  ghost predicate Released(s: Setup, log: Log, v: Address, h: nat, r: nat, b: Block) {
    forall x :: x in log && x.voter == v && x.height == h && x.Precommit? && x.block != b ==>
      exists p :: x.round <= p <= r && Pol(s, log, h, p, b)
  }

  /** The rules an honest validator's next vote obeys, given what came before it. */
  ghost predicate Allowed(s: Setup, log: Log, x: Vote) {
    match x
    case Prevote(v, h, r, b) =>
      && StillIn(log, v, h, r)
      && (forall y :: y in log && y.Prevote? && y.voter == v && y.height == h && y.round == r ==> y.block == b)
      && Released(s, log, v, h, r, b)
      && Votable(s, log, h, b)
    case Precommit(v, h, r, b) =>
      && StillIn(log, v, h, r)
      && (forall y :: y in log && y.Precommit? && y.voter == v && y.height == h && y.round == r ==> y.block == b)
      && Pol(s, log, h, r, b)
      && Votable(s, log, h, b)
    case Timeout(v, h, r, parent) =>
      && (forall y :: y in log && y.Timeout? && y.voter == v && y.height == h && y.round == r ==> y.parent == parent)
      && FinalParent(s, log, h, parent)
      && (r > 0 ==> RoundCertified(s, log, h, r - 1, parent))
  }

  /** Every vote obeyed the rules when it was made, unless a Byzantine validator made it. */
  ghost predicate Lawful(s: Setup, log: Log) {
    forall i :: 0 <= i < |log| && s.Honest(log[i].voter) ==> Allowed(s, log[..i], log[i])
  }

  // ----- evidence only accumulates

  ghost predicate Extends(small: Log, big: Log) {
    forall x :: x in small ==> x in big
  }

  lemma PolGrows(s: Setup, small: Log, big: Log, h: nat, r: nat, b: Block)
    requires Extends(small, big) && Pol(s, small, h, r, b)
    ensures Pol(s, big, h, r, b)
  {
    PowerMonotone(s.powers(b.parent), PrevotersOf(small, h, r, b), PrevotersOf(big, h, r, b));
  }

  lemma CertifiedGrows(s: Setup, small: Log, big: Log, h: nat, b: Block)
    requires Extends(small, big) && Certified(s, small, h, b)
    ensures Certified(s, big, h, b)
  {
    var r :| CertifiedAt(s, small, h, r, b);
    PowerMonotone(s.powers(b.parent), PrecommittersOf(small, h, r, b), PrecommittersOf(big, h, r, b));
    assert CertifiedAt(s, big, h, r, b);
  }

  lemma RoundCertifiedGrows(s: Setup, small: Log, big: Log, h: nat, r: nat, parent: Block)
    requires Extends(small, big) && RoundCertified(s, small, h, r, parent)
    ensures RoundCertified(s, big, h, r, parent)
  {
    PowerMonotone(s.powers(parent), TimersOf(small, h, r, parent), TimersOf(big, h, r, parent));
  }

  lemma {:induction false} FinalGrows(s: Setup, small: Log, big: Log, b: Block)
    requires Extends(small, big) && Final(s, small, b)
    ensures Final(s, big, b)
  {
    if b.Child? {
      CertifiedGrows(s, small, big, Height(b), b);
      FinalGrows(s, small, big, b.parent);
    }
  }

  lemma FinalParentGrows(s: Setup, small: Log, big: Log, h: nat, parent: Block)
    requires Extends(small, big) && FinalParent(s, small, h, parent)
    ensures FinalParent(s, big, h, parent)
  {
    FinalGrows(s, small, big, parent);
  }

  // ----- the order of one validator's votes

  /** An honest validator's prevotes at one `(h, r)` all name one block. */
  lemma OnePrevote(s: Setup, log: Log, v: Address, h: nat, r: nat, b: Block, c: Block)
    requires Lawful(s, log) && s.Honest(v)
    requires Prevote(v, h, r, b) in log && Prevote(v, h, r, c) in log
    ensures b == c
  {
    var i :| 0 <= i < |log| && log[i] == Prevote(v, h, r, b);
    var j :| 0 <= j < |log| && log[j] == Prevote(v, h, r, c);
    if i < j {
      assert Allowed(s, log[..j], log[j]) && log[..j][i] == log[i];
    } else if j < i {
      assert Allowed(s, log[..i], log[i]) && log[..i][j] == log[j];
    }
  }

  /** A precommit at `r` comes before any vote at a later round. */
  lemma PrecommitBeforeLaterRounds(s: Setup, log: Log, i: nat, j: nat)
    requires Lawful(s, log) && i < |log| && j < |log|
    requires log[i].Precommit? && s.Honest(log[i].voter)
    requires log[j].voter == log[i].voter && log[j].height == log[i].height
    requires log[i].round < log[j].round
    ensures i < j
  {
    assert forall k :: 0 <= k < i ==> log[k] in log[..i];
    assert Allowed(s, log[..i], log[i]);
  }

  // ----- the first moment a quorum exists

  /** The shortest prefix of the log holding a quorum of prevotes for `b` at `(h, r)`. */
  lemma {:induction false} FirstPol(s: Setup, log: Log, h: nat, r: nat, b: Block) returns (k: nat)
    requires Pol(s, log, h, r, b)
    ensures k <= |log| && Pol(s, log[..k], h, r, b)
    ensures forall j :: 0 <= j < k ==> !Pol(s, log[..j], h, r, b)
    decreases |log|
  {
    if j :| 0 <= j < |log| && Pol(s, log[..j], h, r, b) {
      k := FirstPol(s, log[..j], h, r, b);
      assert forall i :: 0 <= i <= j ==> log[..j][..i] == log[..i];
    } else {
      k := |log|;
      assert log[..k] == log;
    }
  }

  // ----- the lock lemma

  /** Same round: the precommit quorum rests on a quorum of prevotes for `b` at `r`, and two
      quorums of prevotes at one round share an honest voter. */
  lemma LockSameRound(s: Setup, log: Log, h: nat, r: nat, b: Block, c: Block)
    requires s.Valid() && Lawful(s, log)
    requires CertifiedAt(s, log, h, r, b) && Pol(s, log, h, r, c) && b.parent == c.parent && s.Bound(b.parent)
    ensures b == c
  {
    var v := QuorumHasHonest(s.powers(b.parent), PrecommittersOf(log, h, r, b), s.faulty);
    var i :| 0 <= i < |log| && log[i] == Precommit(v, h, r, b);
    assert Allowed(s, log[..i], log[i]);
    PolGrows(s, log[..i], log, h, r, b);
    var w := QuorumsShareHonest(s.powers(b.parent), PrevotersOf(log, h, r, b), PrevotersOf(log, h, r, c), s.faulty);
    OnePrevote(s, log, w, h, r, b, c);
  }

  /** Lock lemma: once precommits for `b` reach a quorum at `(h, r)`, every quorum of prevotes at
      `h` on the same parent, from round `r` on, names `b`. By strong induction on the later round, looking at the first
      moment a quorum for another block exists: the voter both quorums share cannot have been
      released by that same quorum, nor by an earlier one. */
  lemma {:induction false} Lock(s: Setup, log: Log, h: nat, r: nat, b: Block, r': nat, c: Block)
    requires s.Valid() && Lawful(s, log)
    requires CertifiedAt(s, log, h, r, b) && Pol(s, log, h, r', c) && r <= r'
    requires b.parent == c.parent && s.Bound(b.parent)
    ensures b == c
    decreases r'
  {
    if r == r' {
      LockSameRound(s, log, h, r, b, c);
    } else if b != c {
      var k := FirstPol(s, log, h, r', c);
      var v := QuorumsShareHonest(s.powers(b.parent), PrecommittersOf(log, h, r, b),
                                  PrevotersOf(log[..k], h, r', c), s.faulty);
      var i :| 0 <= i < |log| && log[i] == Precommit(v, h, r, b);
      var j :| 0 <= j < k && log[..k][j] == Prevote(v, h, r', c);
      var p := ReleasedBy(s, log, i, j);
      assert p < r';
      PolGrows(s, log[..j], log, h, p, c);
      Lock(s, log, h, r, b, p, c);
    }
  }

  /** A locked validator that prevotes another block later saw a quorum for it first. */
  lemma ReleasedBy(s: Setup, log: Log, i: nat, j: nat) returns (p: nat)
    requires Lawful(s, log) && i < |log| && j < |log|
    requires log[i].Precommit? && log[j].Prevote? && log[i].voter == log[j].voter && s.Honest(log[i].voter)
    requires log[i].height == log[j].height && log[i].round < log[j].round && log[i].block != log[j].block
    ensures log[i].round <= p <= log[j].round && Pol(s, log[..j], log[j].height, p, log[j].block)
  {
    hide Pol, Votable;
    PrecommitBeforeLaterRounds(s, log, i, j);
    assert Allowed(s, log[..j], log[j]) && log[..j][i] == log[i];
    assert log[i] in log[..j];
    p :| log[i].round <= p <= log[j].round && Pol(s, log[..j], log[j].height, p, log[j].block);
  }

  /** A certificate rests on a lock for the same block at the same round. */
  lemma CertifiedHasPol(s: Setup, log: Log, h: nat, r: nat, b: Block)
    requires s.Valid() && Lawful(s, log) && CertifiedAt(s, log, h, r, b) && s.Bound(b.parent)
    ensures Pol(s, log, h, r, b)
  {
    var v := QuorumHasHonest(s.powers(b.parent), PrecommittersOf(log, h, r, b), s.faulty);
    var i :| 0 <= i < |log| && log[i] == Precommit(v, h, r, b);
    assert Allowed(s, log[..i], log[i]);
    PolGrows(s, log[..i], log, h, r, b);
  }

  // ----- agreement, one chain, no skipped rounds

  /** Two certificates of one set, at one height on one parent, name one block. */
  lemma OneCertified(s: Setup, log: Log, h: nat, b: Block, c: Block)
    requires s.Valid() && Lawful(s, log)
    requires Certified(s, log, h, b) && Certified(s, log, h, c)
    requires b.Child? && c.Child? && b.parent == c.parent && s.Bound(b.parent)
    ensures b == c
  {
    var r :| CertifiedAt(s, log, h, r, b);
    var q :| CertifiedAt(s, log, h, q, c);
    CertifiedHasPol(s, log, h, r, b);
    CertifiedHasPol(s, log, h, q, c);
    if r <= q {
      Lock(s, log, h, r, b, q, c);
    } else {
      Lock(s, log, h, q, c, r, b);
    }
  }

  /** Agreement: two final blocks of one height are one block, whatever rounds and validator sets
      certified their chains. By induction on the height: below it the chains agree, so the sets that
      certified the two blocks are one set. */
  lemma {:induction false} Agreement(s: Setup, log: Log, b: Block, c: Block)
    requires s.Valid() && Lawful(s, log) && s.Trusted(b)
    requires Final(s, log, b) && Final(s, log, c) && Height(b) == Height(c)
    ensures b == c
    decreases Height(b)
  {
    hide Lawful, Certified;
    if b.Child? {
      Agreement(s, log, b.parent, c.parent);
      OneCertified(s, log, Height(b), b, c);
    }
  }

  /** Every block below a final one is final, and the sets behind it are within the bound. */
  lemma {:induction false} FinalBelow(s: Setup, log: Log, b: Block, k: nat)
    requires Final(s, log, b)
    ensures Final(s, log, Ancestor(b, k)) && (s.Trusted(b) ==> s.Trusted(Ancestor(b, k)))
  {
    if Height(b) > k {
      FinalBelow(s, log, b.parent, k);
    }
  }

  /** One finalized chain: of any two final blocks, the lower is an ancestor of the higher. */
  lemma OneChain(s: Setup, log: Log, b: Block, c: Block)
    requires s.Valid() && Lawful(s, log) && s.Trusted(b)
    requires Final(s, log, b) && Final(s, log, c) && Height(c) <= Height(b)
    ensures IsPrefix(c, b)
  {
    FinalBelow(s, log, b, Height(c));
    Agreement(s, log, Ancestor(b, Height(c)), c);
  }

  /** A round certificate needs an honest timeout, and that one waited for the round before. */
  lemma RoundCertificateBase(s: Setup, log: Log, h: nat, r: nat, parent: Block) returns (i: nat)
    requires s.Valid() && Lawful(s, log) && s.Bound(parent)
    requires RoundCertified(s, log, h, r, parent) && r > 0
    ensures i < |log| && log[i] == Timeout(log[i].voter, h, r, parent) && s.Honest(log[i].voter)
    ensures RoundCertified(s, log[..i], h, r - 1, parent)
  {
    var v := QuorumHasHonest(s.powers(parent), TimersOf(log, h, r, parent), s.faulty);
    i :| 0 <= i < |log| && log[i] == Timeout(v, h, r, parent);
    assert Allowed(s, log[..i], log[i]);
  }

  /** No skipped rounds: a certificate that `(h, r)` timed out implies one for every earlier round
      `q` of `h`, on the same parent, complete before the first honest timeout at `q + 1`. */
  lemma {:induction false} NoSkippedRound(s: Setup, log: Log, h: nat, r: nat, parent: Block, q: nat)
    returns (before: nat)
    requires s.Valid() && Lawful(s, log) && s.Bound(parent)
    requires RoundCertified(s, log, h, r, parent) && q < r
    ensures before < |log| && RoundCertified(s, log[..before], h, q, parent)
    ensures log[before] == Timeout(log[before].voter, h, q + 1, parent)
    decreases r
  {
    hide Lawful, RoundCertified;
    var i := RoundCertificateBase(s, log, h, r, parent);
    if q + 1 == r {
      before := i;
    } else {
      LawfulPrefix(s, log, i);
      before := NoSkippedRound(s, log[..i], h, r - 1, parent, q);
      assert log[..i][..before] == log[..before];
    }
  }

  lemma LawfulPrefix(s: Setup, log: Log, k: nat)
    requires Lawful(s, log) && k <= |log|
    ensures Lawful(s, log[..k])
  {
    forall i | 0 <= i < k && s.Honest(log[..k][i].voter)
      ensures Allowed(s, log[..k][..i], log[..k][i])
    {
      assert log[..k][..i] == log[..i] && log[..k][i] == log[i];
    }
  }

  /** Appending an allowed vote, or anything Byzantine, keeps the log lawful. */
  lemma LawfulAppend(s: Setup, log: Log, x: Vote)
    requires Lawful(s, log)
    requires s.Honest(x.voter) ==> Allowed(s, log, x)
    ensures Lawful(s, log + [x])
  {
    var big := log + [x];
    forall i | 0 <= i < |big| && s.Honest(big[i].voter)
      ensures Allowed(s, big[..i], big[i])
    {
      if i < |log| {
        assert big[..i] == log[..i] && big[i] == log[i];
      } else {
        assert big[..i] == log;
      }
    }
  }
}

/** One node's chain database, as far as consensus reads and writes it (core/storage/src/lib.rs,
    core/executor/src/lib.rs): the held chain, the finalized watermark, stored certificates, the
    highest lock per height and the certified round timeouts. */
module Chain {
  import opened TextFormat
  import opened Blocks

  /** The highest-round `PolRecord` of a height. */
  datatype PolRow = PolRow(round: nat, block: Block)

  /** The block at height `k` is `Ancestor(tip, k)`; `tip` carries its whole chain. A node that joined from a
      snapshot at height `base` holds genesis and what came from there on. */
  datatype Db = Db(
    tip: Block,
    watermark: nat,
    certs: map<nat, Block>,
    pols: map<nat, PolRow>,
    roundCerts: set<(nat, nat)>,
    base: nat := 0)

  /** A freshly seeded database. */
  function Fresh(): Db { Db(Genesis, 0, map[], map[], {}) }

  /** `import_snapshot`: the block, its certificate and the watermark at its height; every other row consensus
      kept is wiped. */
  function Joined(anchor: Block): Db {
    var h := Height(anchor);
    Db(anchor, h, map[h := anchor], map[], {}, h)
  }

  function TipHeight(db: Db): nat { Height(db.tip) }

  /** `get_block(h)`. */
  function BlockAt(db: Db, h: nat): Option<Block> {
    if h <= TipHeight(db) && (h == 0 || db.base <= h) then Some(Ancestor(db.tip, h)) else None
  }

  /** `saturating_sub(1)`. */
  function Below(h: nat): nat { if h == 0 then 0 else h - 1 }

  function PolAt(db: Db, h: nat): Option<PolRow> {
    if h in db.pols then Some(db.pols[h]) else None
  }

  /** The rounds of `h` with a stored `RoundCertificate`. */
  function CertifiedRounds(db: Db, h: nat): set<nat> {
    set c | c in db.roundCerts && c.0 == h :: c.1
  }

  /** `current_round`: one past the highest certified round, 0 when there is none. */
  function CurrentRound(db: Db, h: nat): (r: nat)
    ensures r > 0 ==> (h, r - 1) in db.roundCerts
    ensures forall c :: c in db.roundCerts && c.0 == h ==> c.1 < r
  {
    assert forall c :: c in db.roundCerts && c.0 == h ==> c.1 in CertifiedRounds(db, h);
    NextAfter(CertifiedRounds(db, h))
  }

  function NextAfter(rounds: set<nat>): (r: nat)
    ensures r > 0 ==> r - 1 in rounds
    ensures forall x :: x in rounds ==> x < r
  {
    if rounds == {} then 0
    else
      HasMax(rounds);
      var m :| m in rounds && forall x :: x in rounds ==> x <= m;
      m + 1
  }

  lemma HasMax(rounds: set<nat>)
    requires rounds != {}
    ensures exists m :: m in rounds && forall x :: x in rounds ==> x <= m
  {
    var m := Highest(rounds);
  }

  lemma {:induction false} Highest(rounds: set<nat>) returns (m: nat)
    requires rounds != {}
    ensures m in rounds && forall x :: x in rounds ==> x <= m
    decreases rounds
  {
    var a :| a in rounds;
    var rest := rounds - {a};
    assert forall x :: x in rounds <==> x == a || x in rest;
    m := a;
    if rest != {} {
      var top := Highest(rest);
      m := if a < top then top else a;
    }
  }

  // ----- the watermark

  /** How far the watermark moves: through every next height whose certificate names the block held
      there, and no further. */
  function AdvanceMark(tip: Block, certs: map<nat, Block>, mark: nat): (m: nat)
    requires mark <= Height(tip)
    ensures mark <= m <= Height(tip)
    ensures forall k :: mark < k <= m ==> k in certs && certs[k] == Ancestor(tip, k)
    ensures m < Height(tip) && m + 1 in certs ==> certs[m + 1] != Ancestor(tip, m + 1)
    decreases Height(tip) - mark
  {
    if mark < Height(tip) && mark + 1 in certs && certs[mark + 1] == Ancestor(tip, mark + 1)
    then AdvanceMark(tip, certs, mark + 1)
    else mark
  }

  /** `stage_watermark_advance`: the loop over what is committed plus the batch's certificates. */
  method StageWatermark(db: Db, incoming: map<nat, Block>) returns (mark: nat)
    requires db.watermark <= TipHeight(db)
    ensures mark == AdvanceMark(db.tip, db.certs + incoming, db.watermark)
  {
    mark := db.watermark;
    var certs := db.certs + incoming;
    while mark < TipHeight(db) && mark + 1 in certs && certs[mark + 1] == Ancestor(db.tip, mark + 1)
      invariant db.watermark <= mark <= TipHeight(db)
      invariant AdvanceMark(db.tip, certs, mark) == AdvanceMark(db.tip, certs, db.watermark)
      decreases TipHeight(db) - mark
    {
      mark := mark + 1;
    }
  }

  // ----- writes

  /** Storing one verified certificate, the watermark moving in the same batch. */
  function StoreCert(db: Db, h: nat, b: Block): Db
    requires db.watermark <= TipHeight(db)
  {
    var certs := db.certs[h := b];
    db.(certs := certs, watermark := AdvanceMark(db.tip, certs, db.watermark))
  }

  /** Committing the next block. The advance in that batch reads what is already committed, so it
      cannot yet see the block itself. */
  function CommitBlock(db: Db, b: Block): Db
    requires db.watermark <= TipHeight(db)
  {
    db.(tip := b, watermark := AdvanceMark(db.tip, db.certs, db.watermark))
  }

  /** `revert_to`: refused below the watermark, a no-op at or above the tip. Locks and round
      certificates from `h + 2` up bind parents that are gone; those at `h + 1` and every
      finality certificate stay. */
  function RevertTo(db: Db, h: nat): Db {
    if h >= TipHeight(db) || h < db.watermark then db
    else db.(tip := Ancestor(db.tip, h),
             pols := map k | k in db.pols && k <= h + 1 :: db.pols[k],
             roundCerts := set c | c in db.roundCerts && c.0 <= h + 1)
  }

  /** What `accept_block` demands of `b` besides its signatures, its execution and its round
      certificate: it extends the tip; a stored certificate names it; failing that the lock does;
      failing that its round is not one the height already left. */
  predicate Acceptable(db: Db, b: Block) {
    var h := TipHeight(db) + 1;
    && b.Child? && b.parent == db.tip
    && (if h in db.certs then db.certs[h] == b
        else if h in db.pols then db.pols[h].block == b
        else b.round >= CurrentRound(db, h))
  }

  // ----- what a validator signs next

  /** Everything `try_step` decides on, read from one database state. */
  datatype Plan = Plan(
    height: nat,
    round: nat,
    parent: Block,
    block: Option<Block>,
    pol: Option<PolRow>)

  /** `try_step` up to the first vote; `None` is its early return. */
  function PlanStep(db: Db): Option<Plan>
    requires db.watermark <= TipHeight(db)
  {
    var h := db.watermark + 1;
    if TipHeight(db) > h || h in db.certs then None
    else
      var held := BlockAt(db, h);
      var known := CurrentRound(db, h);
      var round := if held.Some? && Round(held.value) > known then Round(held.value) else known;
      var pol := PolAt(db, h);
      var block := if pol.Some? && held.Some? && held.value != pol.value.block then None else held;
      Some(Plan(h, round, Ancestor(db.tip, h - 1), block, pol))
  }

  /** V4: precommit the held block when it is the locked one, at the lock's round. */
  predicate WantsPrecommit(p: Plan) {
    p.block.Some? && p.pol.Some? && p.pol.value.block == p.block.value
  }

  /** V5: prevote the held block when it is locked, or is the current round's own. */
  predicate WantsPrevote(p: Plan) {
    p.block.Some? && (p.pol.Some? || Round(p.block.value) == p.round)
  }

  function PolRound(p: Plan): Option<nat> {
    if p.pol.Some? then Some(p.pol.value.round) else None
  }

  /** V6: the round may be timed out while it is not certified. */
  predicate WantsTimeout(db: Db, p: Plan) {
    (p.height, p.round) !in db.roundCerts
  }
}

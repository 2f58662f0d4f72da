/** The whole network as a state machine, and what every run keeps. Honest nodes run the finality
    engine on their own database and durable vote record; Byzantine validators sign anything in
    their own names; signatures on the wire may reach any node at any time, in any order, any
    number of times, or never. Nodes crash, lose writes, restart, have their databases replaced
    by older ones and join from snapshots; round timeouts fire whenever they like. */
module System {
  import opened TextFormat
  import opened VotingPower
  import opened Blocks
  import opened Chain
  import P = Protocol
  import R = VoteRecord
  import V = VoteRuns

  /** A signature: a precommit also signs the execution proof `ep`. */
  datatype Signed = Signed(vote: P.Vote, ep: nat)

  /** `view` is the database as the engine last read it, row by row if need be: other threads move `db`
      on while a step is still reading it, or voting on what it saw. */
  datatype Node = Node(store: R.Store<Block>, db: Db, view: Db)

  datatype Sys = Sys(nodes: map<Address, Node>, log: P.Log, wire: set<Signed>)

  /** What a step reads after the watermark, each in a read of its own. */
  datatype Part = Certs | Rounds | Held | Locks

  datatype Event =
    | Forge(x: Signed)
    | Observe(v: Address)
    | Reread(v: Address, part: Part)
    | Cast(v: Address, kind: R.Kind, write: R.Write, sign: bool, ep: nat)
    | PruneVotes(v: Address, cutoff: nat, write: R.Write)
    | Restart(v: Address)
    | RestoreDb(v: Address, backup: Db)
    | FormPol(v: Address, height: nat, round: nat, block: Block)
    | TakeCert(v: Address, height: nat, round: nat, block: Block, ep: nat)
    | FormRoundCert(v: Address, height: nat, round: nat)
    | AdoptRoundCert(v: Address)
    | AcceptBlock(v: Address, block: Block)
    | Revert(v: Address, height: nat)
    | DropPols(v: Address, through: nat)
    | Join(v: Address, anchor: Block)

  // ----- signatures on the wire

  function Prevoters(wire: set<Signed>, h: nat, r: nat, b: Block): set<Address> {
    set x | x in wire && x.vote == P.Prevote(x.vote.voter, h, r, b) :: x.vote.voter
  }

  function Precommitters(wire: set<Signed>, h: nat, r: nat, b: Block, ep: nat): set<Address> {
    set x | x in wire && x == Signed(P.Precommit(x.vote.voter, h, r, b), ep) :: x.vote.voter
  }

  function Timers(wire: set<Signed>, h: nat, r: nat, parent: Block): set<Address> {
    set x | x in wire && x.vote == P.Timeout(x.vote.voter, h, r, parent) :: x.vote.voter
  }

  /** `get_validator_set_at`: the newest set in the node's own database at or below `h`, which is the
      one its newest held block below `h` left in force. */
  function LocalSet(s: P.Setup, db: Db, h: nat): PowerMap {
    s.powers(Ancestor(db.tip, Below(h)))
  }

  /** What a node with database `db` tallies into a lock. */
  ghost predicate SeesPol(s: P.Setup, wire: set<Signed>, db: Db, h: nat, r: nat, b: Block) {
    IsQuorum(LocalSet(s, db, h), Prevoters(wire, h, r, b))
  }

  /** What it tallies into, or accepts from a peer as, a finality record. */
  ghost predicate SeesCert(s: P.Setup, wire: set<Signed>, db: Db, h: nat, r: nat, b: Block, ep: nat) {
    IsQuorum(LocalSet(s, db, h), Precommitters(wire, h, r, b, ep))
  }

  /** What it tallies into, or accepts in a block as, a round certificate on the parent it holds. */
  ghost predicate SeesRound(s: P.Setup, wire: set<Signed>, db: Db, h: nat, r: nat) {
    IsQuorum(LocalSet(s, db, h), Timers(wire, h, r, Ancestor(db.tip, Below(h))))
  }

  // ----- evidence by the set that should judge it

  /** A quorum of the set `b`'s own chain puts in force prevoted `b`. */
  ghost predicate WPol(s: P.Setup, wire: set<Signed>, h: nat, r: nat, b: Block) {
    b.Child? && IsQuorum(s.powers(b.parent), Prevoters(wire, h, r, b))
  }

  ghost predicate WCert(s: P.Setup, wire: set<Signed>, h: nat, r: nat, b: Block, ep: nat) {
    b.Child? && IsQuorum(s.powers(b.parent), Precommitters(wire, h, r, b, ep))
  }

  ghost predicate WCertified(s: P.Setup, wire: set<Signed>, h: nat, b: Block) {
    exists r, ep :: WCert(s, wire, h, r, b, ep)
  }

  ghost predicate WRound(s: P.Setup, wire: set<Signed>, h: nat, r: nat, parent: Block) {
    IsQuorum(s.powers(parent), Timers(wire, h, r, parent))
  }

  /** `b` and every block below it is certified by the set its own chain put in force. */
  ghost predicate WFinal(s: P.Setup, wire: set<Signed>, b: Block) {
    b.Genesis? || (WCertified(s, wire, Height(b), b) && WFinal(s, wire, b.parent))
  }

  /** Byzantine power is within the bound in every set the finalized chain puts in force. */
  ghost predicate Bounded(s: P.Setup, wire: set<Signed>) {
    forall b :: WFinal(s, wire, b) ==> s.Bound(b)
  }

  // ----- one step

  function VoteOf(v: Address, e: R.Entry<Block>): P.Vote {
    match e.kind
    case Prevote => P.Prevote(v, e.height, e.round, e.hash)
    case Precommit => P.Precommit(v, e.height, e.round, e.hash)
    case Timeout => P.Timeout(v, e.height, e.round, e.hash)
  }

  predicate WellFormed(db: Db) { db.base <= db.watermark <= TipHeight(db) }

  /** Every held height the watermark passed has its certificate stored, naming the block held there. */
  ghost predicate CertsCover(db: Db) {
    forall k :: 1 <= k <= db.watermark && db.base <= k ==> k in db.certs && db.certs[k] == Ancestor(db.tip, k)
  }

  /** What the view took for final is still held. */
  predicate Rooted(view: Db, db: Db) {
    && WellFormed(view) && view.watermark <= db.watermark <= TipHeight(db)
    && Ancestor(view.tip, view.watermark) == Ancestor(db.tip, view.watermark)
    && (view.watermark > 0 ==> db.base <= view.base)
  }

  /** The view with one part read anew, as far as the height after its watermark needs it. */
  function Refreshed(view: Db, db: Db, part: Part): Db {
    var h := view.watermark + 1;
    match part
    case Certs => view.(certs := db.certs)
    case Rounds => view.(roundCerts := set c | c in db.roundCerts && c.0 == h)
    case Held =>
      var top := if h < db.base then view.watermark else h;
      view.(tip := Ancestor(db.tip, top), roundCerts := set c | c in view.roundCerts && c.0 <= h)
    case Locks => view.(pols := db.pols)
  }

  /** The claim `try_step` makes for `kind` on what it read, with the lock round it holds. */
  function Intent(view: Db, kind: R.Kind): Option<(R.Entry<Block>, Option<nat>)>
    requires WellFormed(view)
  {
    var plan := PlanStep(view);
    if plan.None? then None
    else
      var p := plan.value;
      match kind
      case Prevote =>
        if WantsPrevote(p) then Some((R.Entry(R.Prevote, p.height, p.round, p.block.value), PolRound(p))) else None
      case Precommit =>
        if WantsPrecommit(p) then Some((R.Entry(R.Precommit, p.height, p.pol.value.round, p.block.value), None))
          else None
      case Timeout =>
        if WantsTimeout(view, p) then Some((R.Entry(R.Timeout, p.height, p.round, p.parent), None)) else None
  }

  /** The vote enters the log with its durable record, and the wire when it is signed. */
  function Vote(sys: Sys, v: Address, e: R.Entry<Block>, out: R.Outcome<Block>, sign: bool, ep: nat): Sys
    requires v in sys.nodes
  {
    var x := VoteOf(v, e);
    Sys(sys.nodes[v := sys.nodes[v].(store := out.store)],
        if out.Granted? && x !in sys.log then sys.log + [x] else sys.log,
        if out.Granted? && sign then sys.wire + {Signed(x, ep)} else sys.wire)
  }

  /** A restart makes a torn claim it finds on disk binding. */
  function Boot(sys: Sys, v: Address): Sys
    requires v in sys.nodes
  {
    var n := sys.nodes[v];
    var es := n.store.disk.entries;
    var log := if es != [] && VoteOf(v, es[|es| - 1]) !in sys.log then sys.log + [VoteOf(v, es[|es| - 1])] else sys.log;
    Sys(sys.nodes[v := Node(R.Reload(n.store), n.db, n.db)], log, sys.wire)
  }

  /** Database writes, with the guard each one checks first. */
  ghost function Written(s: P.Setup, wire: set<Signed>, db: Db, ev: Event): Db
    requires WellFormed(db)
  {
    match ev
    case FormPol(_, h, r, b) =>
      if h !in db.certs && SeesPol(s, wire, db, h, r, b) && (h in db.pols ==> db.pols[h].round < r)
      then db.(pols := db.pols[h := PolRow(r, b)]) else db
    case TakeCert(_, h, r, b, ep) =>
      if (h in db.certs ==> db.certs[h] == b) && SeesCert(s, wire, db, h, r, b, ep) then StoreCert(db, h, b) else db
    case FormRoundCert(_, h, r) =>
      if BlockAt(db, Below(h)).Some? && SeesRound(s, wire, db, h, r)
      then db.(roundCerts := db.roundCerts + {(h, r)}) else db
    case AdoptRoundCert(_) =>
      var h := db.watermark + 1;
      if TipHeight(db) == h && Round(db.tip) > CurrentRound(db, h)
      then db.(roundCerts := db.roundCerts + {(h, Round(db.tip) - 1)}) else db
    case AcceptBlock(_, b) =>
      if Acceptable(db, b) && (b.round > 0 ==> SeesRound(s, wire, db, TipHeight(db) + 1, b.round - 1))
      then CommitBlock(db, b) else db
    case Revert(_, h) => RevertTo(db, h)
    case DropPols(_, through) => db.(pols := map k | k in db.pols && k > through :: db.pols[k])
    case Join(_, anchor) => if db.tip.Genesis? && anchor.Child? then Joined(anchor) else db
    case _ => db
  }

  ghost function Step(s: P.Setup, sys: Sys, ev: Event): Sys {
    match ev
    case Forge(x) =>
      if x.vote.voter in s.faulty then sys.(log := sys.log + [x.vote], wire := sys.wire + {x}) else sys
    case Observe(v) =>
      if v in sys.nodes then sys.(nodes := sys.nodes[v := sys.nodes[v].(view := sys.nodes[v].db)]) else sys
    case Reread(v, part) =>
      if v in sys.nodes && Rooted(sys.nodes[v].view, sys.nodes[v].db)
      then sys.(nodes := sys.nodes[v := sys.nodes[v].(view := Refreshed(sys.nodes[v].view, sys.nodes[v].db, part))])
      else sys
    case Cast(v, kind, write, sign, ep) =>
      if v in sys.nodes && WellFormed(sys.nodes[v].view) && Intent(sys.nodes[v].view, kind).Some? then
        var (e, pol) := Intent(sys.nodes[v].view, kind).value;
        Vote(sys, v, e, V.Attempt(sys.nodes[v].store, e, pol, write), sign, ep)
      else sys
    case PruneVotes(v, cutoff, write) =>
      if v in sys.nodes
      then sys.(nodes := sys.nodes[v := sys.nodes[v].(store := R.Prune(sys.nodes[v].store, cutoff, write))]) else sys
    case Restart(v) => if v in sys.nodes then Boot(sys, v) else sys
    case RestoreDb(v, backup) =>
      if v in sys.nodes && WellFormed(backup) && CertsCover(backup)
      then sys.(nodes := sys.nodes[v := sys.nodes[v].(db := backup, view := backup)]) else sys
    case _ =>
      if ev.v in sys.nodes && WellFormed(sys.nodes[ev.v].db)
      then sys.(nodes := sys.nodes[ev.v := sys.nodes[ev.v].(db := Written(s, sys.wire, sys.nodes[ev.v].db, ev))])
        else sys
  }

  ghost function Exec(s: P.Setup, sys: Sys, evs: seq<Event>): Sys {
    if evs == [] then sys else Step(s, Exec(s, sys, evs[..|evs| - 1]), evs[|evs| - 1])
  }

  /** Every honest node freshly seeded, nothing signed. */
  ghost predicate Initial(s: P.Setup, sys: Sys) {
    && sys.log == [] && sys.wire == {}
    && forall v :: v in sys.nodes ==>
         s.Honest(v) && sys.nodes[v] == Node(R.Store(R.Empty(), R.Empty()), Fresh(), Fresh())
  }

  // ----- what a database may hold

  /** Each block above genesis carries the certificate its round needs. */
  ghost predicate RoundsProven(s: P.Setup, wire: set<Signed>, b: Block) {
    b.Genesis? ||
    (&& (b.round > 0 ==> WRound(s, wire, Height(b), b.round - 1, b.parent))
     && RoundsProven(s, wire, b.parent))
  }

  /** Everything the database asserts is backed by signatures of the sets that should judge it. */
  ghost predicate DbOk(s: P.Setup, wire: set<Signed>, db: Db) {
    && WellFormed(db) && CertsCover(db)
    && (forall h :: h in db.certs ==> h >= 1 && Height(db.certs[h]) == h && WFinal(s, wire, db.certs[h]))
    && (forall h :: h in db.pols ==> LockOk(s, wire, h, db.pols[h]))
    && (forall c :: c in db.roundCerts ==>
          Below(c.0) <= TipHeight(db) && WRound(s, wire, c.0, c.1, Ancestor(db.tip, Below(c.0))))
    && RoundsProven(s, wire, db.tip)
  }

  ghost predicate LockOk(s: P.Setup, wire: set<Signed>, h: nat, row: PolRow) {
    && row.block.Child? && Height(row.block) == h
    && WPol(s, wire, h, row.round, row.block) && WFinal(s, wire, row.block.parent)
  }

  // ----- when a node reads the right set

  /** No block between the watermark and `h` may change the validator set: the last epoch boundary
      below `h` is final here. */
  ghost predicate Settled(s: P.Setup, db: Db, h: nat) {
    forall k: nat :: db.watermark < k < h ==> !s.boundary(k)
  }

  /** What the code does not check: prevotes and precommits are only turned into locks and records at
      settled heights, a restored database is one whose contents were earned, and a node joins at a block
      that is final. */
  ghost predicate Careful(s: P.Setup, sys: Sys, ev: Event) {
    match ev
    case FormPol(v, h, _, _) => v in sys.nodes ==> Settled(s, sys.nodes[v].db, h)
    case TakeCert(v, h, _, _, _) => v in sys.nodes ==> Settled(s, sys.nodes[v].db, h)
    case RestoreDb(_, backup) => DbOk(s, sys.wire, backup)
    case Join(_, anchor) => WFinal(s, sys.wire, anchor)
    case _ => true
  }

  ghost predicate CarefulRun(s: P.Setup, init: Sys, evs: seq<Event>) {
    evs == [] ||
    var n := |evs| - 1;
    CarefulRun(s, init, evs[..n]) && Careful(s, Exec(s, init, evs[..n]), evs[n])
  }
}

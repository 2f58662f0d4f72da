/** Certificate backfill and divergence recovery (arxd/network/src/recovery.rs, the certificate
    handlers of arxd/network/src/lib.rs, the certificate pages of arxd/network/src/sync.rs). */
module Recovery {
  import opened TextFormat
  import opened VotingPower
  import opened Blocks
  import opened Chain
  import P = Protocol
  import S = System
  import F = Safety
  import U = Unwind
  import T = Tally
  import D = VoteDesk
  import E = Evidence
  import Z = StaleSets

  const MAX_PAGE_SIZE: nat := 100

  /** A finality record as a peer sends it. */
  type Rec = T.Certificate

  function Named(r: Rec): Block { r.msg.ballot.block }

  /** The reply answers for height `k` and passes `verify_finality_record` under what this node reads. */
  ghost predicate Usable(w: T.World, k: nat, r: Option<Rec>) {
    r.Some? && r.value.msg.slot.height == k && r.value.msg.ballot.Precommit? && T.Holds(w, r.value)
  }

  method CheckRecord(w: T.World, k: nat, r: Option<Rec>) returns (ok: bool)
    ensures ok == Usable(w, k, r)
  {
    if r.None? || r.value.msg.slot.height != k || !r.value.msg.ballot.Precommit? {
      return false;
    }
    ok := T.VerifyRecord(w, r.value);
  }

  /** The record names the held block, and no stored certificate says otherwise. */
  predicate Agrees(db: Db, r: Rec) {
    var k := r.msg.slot.height;
    BlockAt(db, k) == Some(Named(r)) && (k in db.certs ==> db.certs[k] == Named(r))
  }

  /** No signature in the reply is forged. */
  ghost predicate Genuine(s: P.Setup, wire: set<S.Signed>, db: Db, key: (Address, nat) -> Option<nat>, r: Option<Rec>) {
    r.Some? ==> E.Unforged(E.NodeWorld(s, db, key), wire, r.value)
  }

  /** So a usable one is a certificate the network model lets the node take. */
  lemma UsableSeen(s: P.Setup, wire: set<S.Signed>, db: Db, key: (Address, nat) -> Option<nat>, k: nat, r: Option<Rec>)
    requires Usable(E.NodeWorld(s, db, key), k, r) && Genuine(s, wire, db, key, r)
    ensures S.SeesCert(s, wire, db, k, r.value.msg.slot.round, Named(r.value), r.value.msg.ballot.ep)
  {
    hide T.Holds, E.Unforged, E.NodeWorld;
    E.RecordIsQuorum(s, db, key, wire, r.value);
  }

  // ----- one page of certificates

  /** How many records of the page are kept, and the height handed to the single-certificate path. */
  ghost function Page(w: T.World, db: Db, from: nat, records: seq<Option<Rec>>): (nat, Option<nat>)
    decreases |records|
  {
    if records == [] || from > TipHeight(db) || !Usable(w, from, records[0]) then (0, None)
    else if !Agrees(db, records[0].value) then (0, Some(from))
    else
      var (n, handoff) := Page(w, db, from + 1, records[1..]);
      (n + 1, handoff)
  }

  /** The `i`-th record verifies at its height and names the block held there. */
  ghost predicate Good(w: T.World, db: Db, from: nat, records: seq<Option<Rec>>, i: nat) {
    && i < |records| && from + i <= TipHeight(db)
    && Usable(w, from + i, records[i]) && Agrees(db, records[i].value)
  }

  lemma GoodShift(w: T.World, db: Db, from: nat, records: seq<Option<Rec>>, i: nat)
    requires records != []
    ensures Good(w, db, from, records, i + 1) <==> Good(w, db, from + 1, records[1..], i)
  {
    hide Usable, Agrees;
  }

  /** The page is kept up to the first record that is missing, unverified, past the tip or names
      another block, and only the last of these is handed on. */
  lemma {:induction false} PageExact(w: T.World, db: Db, from: nat, records: seq<Option<Rec>>)
    ensures var (n, handoff) := Page(w, db, from, records);
            && n <= |records|
            && (forall i: nat :: i < n ==> Good(w, db, from, records, i))
            && !Good(w, db, from, records, n)
            && (handoff.None? <==> n == |records| || from + n > TipHeight(db) || !Usable(w, from + n, records[n]))
            && (handoff.Some? ==> handoff.value == from + n)
    decreases |records|
  {
    hide Usable, Agrees;
    if records != [] && Good(w, db, from, records, 0) {
      var (n, _) := Page(w, db, from + 1, records[1..]);
      PageExact(w, db, from + 1, records[1..]);
      GoodShift(w, db, from, records, n);
      forall i: nat | i < n + 1 ensures Good(w, db, from, records, i) {
        if i > 0 {
          GoodShift(w, db, from, records, i - 1);
        }
      }
    }
  }

  /** The held blocks at heights `from` to `from + n - 1`. */
  function HeldRange(db: Db, from: nat, n: nat): map<nat, Block> {
    map k | from <= k < from + n :: Ancestor(db.tip, k)
  }

  /** The page's certificates stored in one batch, the watermark advancing inside it. */
  function Stored(db: Db, from: nat, n: nat): Db
    requires S.WellFormed(db)
  {
    var certs := db.certs + HeldRange(db, from, n);
    db.(certs := certs, watermark := AdvanceMark(db.tip, certs, db.watermark))
  }

  /** A record for a held block is judged by the set that block's own chain put in force. */
  lemma HeldCertified(s: P.Setup, wire: set<S.Signed>, db: Db, key: (Address, nat) -> Option<nat>, k: nat,
                      r: Option<Rec>)
    requires Usable(E.NodeWorld(s, db, key), k, r) && Genuine(s, wire, db, key, r)
    requires k >= 1 && BlockAt(db, k) == Some(Named(r.value))
    ensures S.WCertified(s, wire, k, Named(r.value))
  {
    hide Usable, Genuine;
    assert r.Some? && r.value.msg.ballot.Precommit? by { UsableIs(E.NodeWorld(s, db, key), k, r); }
    UsableSeen(s, wire, db, key, k, r);
    AncestorParent(db.tip, k);
    assert S.WCert(s, wire, k, r.value.msg.slot.round, Named(r.value), r.value.msg.ballot.ep);
  }

  lemma UsableIs(w: T.World, k: nat, r: Option<Rec>)
    requires Usable(w, k, r)
    ensures r.Some? && r.value.msg.slot.height == k && r.value.msg.ballot.Precommit?
  {
  }

  /** Certificates without a gap above the finalized chain finalize what they certify. */
  lemma {:induction false} RangeFinal(s: P.Setup, wire: set<S.Signed>, db: Db, from: nat, k: nat)
    requires S.DbOk(s, wire, db) && 1 <= from <= db.watermark + 1 && k <= TipHeight(db)
    requires forall j :: from <= j <= k ==> S.WCertified(s, wire, j, Ancestor(db.tip, j))
    ensures S.WFinal(s, wire, Ancestor(db.tip, k))
    decreases k
  {
    hide S.WCertified;
    if k < from {
      F.FinalCertified(s, wire, db);
      AncestorOfAncestor(db.tip, db.watermark, k);
      F.WFinalBelow(s, wire, F.Final(db), k);
    } else {
      RangeFinal(s, wire, db, from, k - 1);
      AncestorParent(db.tip, k);
    }
  }

  /** Storing a page of verified certificates keeps the database honest: it is what storing them one
      by one would keep. */
  lemma StoredOk(s: P.Setup, wire: set<S.Signed>, db: Db, from: nat, n: nat)
    requires S.DbOk(s, wire, db) && 1 <= from <= db.watermark + 1 && from + n <= TipHeight(db) + 1
    requires forall k :: from <= k < from + n ==> S.WFinal(s, wire, Ancestor(db.tip, k))
    ensures S.DbOk(s, wire, Stored(db, from, n))
  {
    hide S.WPol, S.WRound, S.WFinal, S.RoundsProven, S.LockOk;
  }

  /** Whatever a peer puts in a page, the database stays backed by certificates - settled or not,
      because a page starts right above the watermark and is only kept for held blocks. */
  lemma PageOk(s: P.Setup, wire: set<S.Signed>, db: Db, key: (Address, nat) -> Option<nat>, from: nat,
               records: seq<Option<Rec>>)
    requires S.DbOk(s, wire, db) && 1 <= from <= db.watermark + 1
    requires forall i :: 0 <= i < |records| ==> Genuine(s, wire, db, key, records[i])
    ensures S.DbOk(s, wire, Stored(db, from, Page(E.NodeWorld(s, db, key), db, from, records).0))
  {
    hide Page, Stored, S.DbOk, S.WCertified, S.WFinal, Genuine, E.NodeWorld, T.Holds;
    var w := E.NodeWorld(s, db, key);
    var n := Page(w, db, from, records).0;
    PageExact(w, db, from, records);
    assert n > 0 ==> Good(w, db, from, records, n - 1);
    forall k | from <= k < from + n ensures S.WCertified(s, wire, k, Ancestor(db.tip, k)) {
      assert Good(w, db, from, records, k - from);
      HeldCertified(s, wire, db, key, k, records[k - from]);
    }
    if n > 0 {
      forall k | from <= k < from + n ensures S.WFinal(s, wire, Ancestor(db.tip, k)) {
        RangeFinal(s, wire, db, from, k);
      }
      StoredOk(s, wire, db, from, n);
    } else {
      NothingStored(s, wire, db, from);
    }
  }

  lemma NothingStored(s: P.Setup, wire: set<S.Signed>, db: Db, from: nat)
    requires S.DbOk(s, wire, db)
    ensures S.DbOk(s, wire, Stored(db, from, 0))
  {
    hide S.LockOk, S.WRound, S.WFinal, S.RoundsProven;
    assert db.certs + HeldRange(db, from, 0) == db.certs;
  }

  /** Every stored certificate stays what it was. */
  lemma StoredKeepsCerts(w: T.World, db: Db, from: nat, records: seq<Option<Rec>>, k: nat)
    requires S.WellFormed(db) && k in db.certs
    ensures Stored(db, from, Page(w, db, from, records).0).certs[k] == db.certs[k]
  {
    hide Page, T.Holds;
    var n := Page(w, db, from, records).0;
    PageExact(w, db, from, records);
    if from <= k < from + n {
      assert Good(w, db, from, records, k - from);
    }
  }

  // ----- a page as events of the network

  /** The advance never stops short of heights certified for the held blocks. */
  lemma {:induction false} AdvanceReaches(tip: Block, certs: map<nat, Block>, mark: nat, goal: nat)
    requires mark <= goal <= Height(tip)
    requires forall k :: mark < k <= goal ==> k in certs && certs[k] == Ancestor(tip, k)
    ensures goal <= AdvanceMark(tip, certs, mark)
    decreases goal - mark
  {
    if mark < goal {
      AdvanceReaches(tip, certs, mark + 1, goal);
    }
  }

  /** As far as `certs` certifies the blocks held above `mark`. */
  lemma {:induction false} AdvanceFrom(tip: Block, certs: map<nat, Block>, mark: nat, later: nat)
    requires mark <= Height(tip) && mark <= later <= AdvanceMark(tip, certs, mark)
    ensures AdvanceMark(tip, certs, later) == AdvanceMark(tip, certs, mark)
    decreases later - mark
  {
    if mark < later {
      AdvanceFrom(tip, certs, mark + 1, later);
    }
  }

  /** Storing one more certificate of the page afterwards is storing a page longer by one. */
  lemma StoreOneMore(db: Db, from: nat, n: nat)
    requires S.WellFormed(db) && from + n <= TipHeight(db)
    ensures S.WellFormed(Stored(db, from, n))
    ensures StoreCert(Stored(db, from, n), from + n, Ancestor(db.tip, from + n)) == Stored(db, from, n + 1)
  {
    hide AdvanceMark, Ancestor, HeldRange;
    var some, all := db.certs + HeldRange(db, from, n), db.certs + HeldRange(db, from, n + 1);
    RangeOneMore(db, from, n);
    var mid := AdvanceMark(db.tip, some, db.watermark);
    SomeInAll(db, from, n);
    AdvanceReaches(db.tip, all, db.watermark, mid);
    AdvanceFrom(db.tip, all, db.watermark, mid);
  }

  lemma StoreFirst(db: Db, from: nat)
    requires S.WellFormed(db) && from <= TipHeight(db)
    ensures StoreCert(db, from, Ancestor(db.tip, from)) == Stored(db, from, 1)
  {
    hide AdvanceMark, Ancestor, HeldRange;
    RangeNone(db, from);
    RangeOneMore(db, from, 0);
  }

  lemma RangeNone(db: Db, from: nat)
    ensures db.certs + HeldRange(db, from, 0) == db.certs
  {
    hide Ancestor;
    assert HeldRange(db, from, 0) == map[];
  }

  lemma RangeOneMore(db: Db, from: nat, n: nat)
    ensures (db.certs + HeldRange(db, from, n))[from + n := Ancestor(db.tip, from + n)]
            == db.certs + HeldRange(db, from, n + 1)
  {
    hide Ancestor;
  }

  lemma SomeInAll(db: Db, from: nat, n: nat)
    requires S.WellFormed(db) && from + n <= TipHeight(db)
    ensures var some, all := db.certs + HeldRange(db, from, n), db.certs + HeldRange(db, from, n + 1);
            forall k :: db.watermark < k <= AdvanceMark(db.tip, some, db.watermark) ==>
              k in all && all[k] == Ancestor(db.tip, k)
  {
  }

  /** The page's first `n` records taken one by one. */
  function Takings(v: Address, records: seq<Option<Rec>>, n: nat): seq<S.Event>
    requires n <= |records| && forall i :: 0 <= i < n ==> records[i].Some? && records[i].value.msg.ballot.Precommit?
  {
    if n == 0 then []
    else
      var m := records[n - 1].value.msg;
      Takings(v, records, n - 1) + [S.TakeCert(v, m.slot.height, m.slot.round, m.ballot.block, m.ballot.ep)]
  }

  /** The database after keeping `n` records: nothing is written for an empty page. */
  function Kept(db: Db, from: nat, n: nat): Db
    requires S.WellFormed(db)
  {
    if n == 0 then db else Stored(db, from, n)
  }

  /** The watermark has caught up with the page, so the next height is settled. */
  lemma KeptSettled(s: P.Setup, db: Db, from: nat, n: nat)
    requires S.WellFormed(db) && 1 <= from <= db.watermark + 1 && from + n <= TipHeight(db) + 1
    ensures S.WellFormed(Kept(db, from, n)) && S.Settled(s, Kept(db, from, n), from + n)
    ensures Kept(db, from, n).tip == db.tip && db.watermark <= Kept(db, from, n).watermark
  {
    if n > 0 && db.watermark < from + n - 1 {
      AdvanceReaches(db.tip, db.certs + HeldRange(db, from, n), db.watermark, from + n - 1);
    }
  }

  /** Taking one more certificate of the page is one careful event. */
  lemma TakesOne(s: P.Setup, sys: S.Sys, v: Address, key: (Address, nat) -> Option<nat>, db: Db, from: nat, n: nat,
                 records: seq<Option<Rec>>)
    requires v in sys.nodes && S.WellFormed(db) && sys.nodes[v].db == Kept(db, from, n)
    requires 1 <= from <= db.watermark + 1 && Good(E.NodeWorld(s, db, key), db, from, records, n)
    requires Genuine(s, sys.wire, db, key, records[n])
    ensures var m := records[n].value.msg;
            var ev := S.TakeCert(v, m.slot.height, m.slot.round, m.ballot.block, m.ballot.ep);
            && S.Careful(s, sys, ev)
            && S.Step(s, sys, ev) == sys.(nodes := sys.nodes[v := sys.nodes[v].(db := Kept(db, from, n + 1))])
  {
    hide Usable, Genuine, S.SeesCert, AdvanceMark, StoreCert, Stored;
    var w, k := E.NodeWorld(s, db, key), from + n;
    UsableIs(w, k, records[n]);
    UsableSeen(s, sys.wire, db, key, k, records[n]);
    KeptSettled(s, db, from, n);
    SameSeen(s, sys.wire, db, Kept(db, from, n), k, records[n].value.msg.slot.round, Named(records[n].value),
             records[n].value.msg.ballot.ep);
    StoreFirst(db, from);
    StoreOneMore(db, from, n);
    KeptCert(db, from, n);
  }

  lemma SameSeen(s: P.Setup, wire: set<S.Signed>, db: Db, other: Db, h: nat, r: nat, b: Block, ep: nat)
    requires db.tip == other.tip && S.SeesCert(s, wire, db, h, r, b, ep)
    ensures S.SeesCert(s, wire, other, h, r, b, ep)
  {
  }

  lemma KeptCert(db: Db, from: nat, n: nat)
    requires S.WellFormed(db)
    ensures var k := from + n;
            (k in Kept(db, from, n).certs <==> k in db.certs)
            && (k in db.certs ==> Kept(db, from, n).certs[k] == db.certs[k])
  {
  }

  /** What a node keeps of a page is a run of careful events: whatever is proved of guarded runs holds of a
      node that backfills. */
  lemma {:induction false} PageIsRun(s: P.Setup, init: S.Sys, evs: seq<S.Event>, v: Address,
                                     key: (Address, nat) -> Option<nat>, from: nat, records: seq<Option<Rec>>, n: nat)
    requires v in S.Exec(s, init, evs).nodes && S.WellFormed(S.Exec(s, init, evs).nodes[v].db)
    requires 1 <= from <= S.Exec(s, init, evs).nodes[v].db.watermark + 1 && n <= |records|
    requires var sys := S.Exec(s, init, evs);
             var db := sys.nodes[v].db;
             && (forall i :: 0 <= i < n ==> Good(E.NodeWorld(s, db, key), db, from, records, i))
             && (forall i :: 0 <= i < n ==> Genuine(s, sys.wire, db, key, records[i]))
    ensures forall i :: 0 <= i < n ==> records[i].Some? && records[i].value.msg.ballot.Precommit?
    ensures var sys := S.Exec(s, init, evs);
            S.Exec(s, init, evs + Takings(v, records, n))
            == sys.(nodes := sys.nodes[v := sys.nodes[v].(db := Kept(sys.nodes[v].db, from, n))])
    ensures S.CarefulRun(s, init, evs) ==> S.CarefulRun(s, init, evs + Takings(v, records, n))
    ensures F.Guarded(s, init, evs) ==> F.Guarded(s, init, evs + Takings(v, records, n))
    decreases n
  {
    hide S.Exec, S.Step, S.CarefulRun, S.Careful, Genuine, Kept, T.Holds, S.Bounded;
    var sys := S.Exec(s, init, evs);
    var db := sys.nodes[v].db;
    forall i | 0 <= i < n ensures records[i].Some? && records[i].value.msg.ballot.Precommit? {
      assert Good(E.NodeWorld(s, db, key), db, from, records, i);
    }
    if n == 0 {
      assert evs + [] == evs;
      assert Kept(db, from, 0) == db by { KeptNothing(db, from); }
      assert sys.nodes[v := sys.nodes[v]] == sys.nodes;
    } else {
      PageIsRun(s, init, evs, v, key, from, records, n - 1);
      var before := evs + Takings(v, records, n - 1);
      var mid := S.Exec(s, init, before);
      var m := records[n - 1].value.msg;
      var ev := S.TakeCert(v, m.slot.height, m.slot.round, m.ballot.block, m.ballot.ep);
      assert evs + Takings(v, records, n) == before + [ev];
      F.RunMore(s, init, before, ev);
      assert Good(E.NodeWorld(s, db, key), db, from, records, n - 1);
      TakesOne(s, mid, v, key, db, from, n - 1, records);
    }
  }

  lemma KeptNothing(db: Db, from: nat)
    requires S.WellFormed(db)
    ensures Kept(db, from, 0) == db
  {
  }

  // ----- a whole conversation

  /** What a peer holding `certs` answers: records from `from` on, without gaps, one page at most. */
  function PeerPage(certs: map<nat, Rec>, from: nat, room: nat): seq<Option<Rec>>
    decreases room
  {
    if room == 0 || from !in certs then [] else [Some(certs[from])] + PeerPage(certs, from + 1, room - 1)
  }

  /** Asking one peer page after page until nothing more is kept. The certificates stored on the way do not
      change which sets and keys the node reads. */
  ghost function Conversation(w: T.World, db: Db, certs: map<nat, Rec>): Db
    requires S.WellFormed(db)
    decreases TipHeight(db) - db.watermark
  {
    if db.watermark >= TipHeight(db) then db
    else
      var from := db.watermark + 1;
      var (n, handoff) := Page(w, db, from, PeerPage(certs, from, MAX_PAGE_SIZE));
      if n == 0 then db
      else
        StoredMoves(w, db, PeerPage(certs, from, MAX_PAGE_SIZE));
        if handoff.Some? then Stored(db, from, n) else Conversation(w, Stored(db, from, n), certs)
  }

  /** A page that keeps `n` certificates from the watermark on moves the watermark by at least `n`. */
  lemma StoredMoves(w: T.World, db: Db, records: seq<Option<Rec>>)
    requires S.WellFormed(db) && db.watermark < TipHeight(db)
    ensures var n := Page(w, db, db.watermark + 1, records).0;
            && S.WellFormed(Stored(db, db.watermark + 1, n)) && Stored(db, db.watermark + 1, n).tip == db.tip
            && db.watermark + n <= Stored(db, db.watermark + 1, n).watermark
  {
    hide Page, Usable, Stored, Own;
    var from := db.watermark + 1;
    PageExact(w, db, from, records);
    var n := Page(w, db, from, records).0;
    assert n > 0 ==> Good(w, db, from, records, n - 1);
    StoredRange(db, n);
  }

  lemma {:induction false} PeerPageAt(certs: map<nat, Rec>, from: nat, room: nat, i: nat)
    ensures i < |PeerPage(certs, from, room)| ==>
              from + i in certs && PeerPage(certs, from, room)[i] == Some(certs[from + i])
    ensures i == |PeerPage(certs, from, room)| ==> i == room || from + i !in certs
    decreases room
  {
    if i > 0 && room > 0 && from in certs {
      PeerPageAt(certs, from + 1, room - 1, i - 1);
    }
  }

  /** The peer has a record for `k` that verifies here and names the block held here. */
  ghost predicate Passes(w: T.World, db: Db, certs: map<nat, Rec>, k: nat) {
    k <= TipHeight(db) && k in certs && Usable(w, k, Some(certs[k])) && Agrees(db, certs[k])
  }

  /** This node already stores a certificate for the block it holds at `k`. */
  predicate Own(db: Db, k: nat) {
    k in db.certs && db.certs[k] == Ancestor(db.tip, k)
  }

  /** The first height from `m` on above which the peer has no record that passes and this node no
      certificate of its own. */
  ghost function Reach(w: T.World, db: Db, certs: map<nat, Rec>, m: nat): (r: nat)
    requires m <= TipHeight(db)
    ensures m <= r <= TipHeight(db)
    ensures forall k :: m < k <= r ==> Passes(w, db, certs, k) || Own(db, k)
    ensures r < TipHeight(db) ==> !Passes(w, db, certs, r + 1) && !Own(db, r + 1)
    decreases TipHeight(db) - m
  {
    if m < TipHeight(db) && (Passes(w, db, certs, m + 1) || Own(db, m + 1)) then Reach(w, db, certs, m + 1) else m
  }

  /** No record of the peer that verifies here contradicts a certificate stored here. */
  ghost predicate Consistent(w: T.World, db: Db, certs: map<nat, Rec>) {
    forall k :: k in certs && k in db.certs && Usable(w, k, Some(certs[k])) ==> Named(certs[k]) == db.certs[k]
  }

  /** Where the backfill from this peer ends. */
  ghost function BackfillEnd(w: T.World, db: Db, certs: map<nat, Rec>): nat
    requires S.WellFormed(db)
  {
    if db.watermark < TipHeight(db) && Passes(w, db, certs, db.watermark + 1) then Reach(w, db, certs, db.watermark)
    else db.watermark
  }

  lemma {:induction false} ReachIs(w: T.World, db: Db, certs: map<nat, Rec>, m: nat, r: nat)
    requires m <= r <= TipHeight(db)
    requires forall k :: m < k <= r ==> Passes(w, db, certs, k) || Own(db, k)
    requires r < TipHeight(db) ==> !Passes(w, db, certs, r + 1) && !Own(db, r + 1)
    ensures Reach(w, db, certs, m) == r
    decreases r - m
  {
    hide Passes, Own;
    if m < r {
      assert Passes(w, db, certs, m + 1) || Own(db, m + 1);
      ReachIs(w, db, certs, m + 1, r);
    }
  }

  /** The kept part of an honest page: every record of it passes, and the one after it does not. */
  lemma PageOfPeer(w: T.World, db: Db, certs: map<nat, Rec>)
    requires S.WellFormed(db) && db.watermark < TipHeight(db)
    ensures var from := db.watermark + 1;
            var (n, handoff) := Page(w, db, from, PeerPage(certs, from, MAX_PAGE_SIZE));
            && from + n <= TipHeight(db) + 1
            && (forall k :: from <= k < from + n ==> Passes(w, db, certs, k))
            && (n < MAX_PAGE_SIZE ==> !Passes(w, db, certs, from + n))
            && (handoff.Some? ==>
                  && from + n <= TipHeight(db) && from + n in certs && Usable(w, from + n, Some(certs[from + n]))
                  && !Agrees(db, certs[from + n]))
  {
    hide Page, Usable, Agrees, PeerPage;
    var from := db.watermark + 1;
    var page := PeerPage(certs, from, MAX_PAGE_SIZE);
    var (n, handoff) := Page(w, db, from, page);
    PageExact(w, db, from, page);
    assert n > 0 ==> Good(w, db, from, page, n - 1);
    forall k | from <= k < from + n ensures Passes(w, db, certs, k) {
      assert Good(w, db, from, page, k - from);
      PeerPageAt(certs, from, MAX_PAGE_SIZE, k - from);
    }
    PeerPageAt(certs, from, MAX_PAGE_SIZE, n);
    GoodIffPasses(w, db, certs, from, n);
  }

  lemma GoodIffPasses(w: T.World, db: Db, certs: map<nat, Rec>, from: nat, i: nat)
    ensures var page := PeerPage(certs, from, MAX_PAGE_SIZE);
            i < |page| ==> (Good(w, db, from, page, i) <==> Passes(w, db, certs, from + i))
  {
    hide Usable, Agrees, PeerPage;
    PeerPageAt(certs, from, MAX_PAGE_SIZE, i);
  }

  /** Storing part of what passes changes neither what passes nor where the backfill can get to. */
  lemma StoredPasses(w: T.World, db: Db, certs: map<nat, Rec>, from: nat, n: nat, k: nat)
    requires S.WellFormed(db) && forall j :: from <= j < from + n ==> Passes(w, db, certs, j)
    ensures var next := Stored(db, from, n);
            && (Passes(w, next, certs, k) <==> Passes(w, db, certs, k))
            && (Own(next, k) <==> Own(db, k) || from <= k < from + n)
  {
    hide Usable, AdvanceMark;
    assert from <= k < from + n ==> Passes(w, db, certs, k);
    if k in certs && Usable(w, k, Some(certs[k])) {
      UsableIs(w, k, Some(certs[k]));
    }
  }

  lemma StoredConsistent(w: T.World, db: Db, certs: map<nat, Rec>, from: nat, n: nat)
    requires S.WellFormed(db) && Consistent(w, db, certs)
    requires forall j :: from <= j < from + n ==> Passes(w, db, certs, j)
    ensures Consistent(w, Stored(db, from, n), certs)
  {
    hide Usable, AdvanceMark;
    var next := Stored(db, from, n);
    forall k | k in certs && k in next.certs && Usable(w, k, Some(certs[k])) ensures Named(certs[k]) == next.certs[k] {
      UsableIs(w, k, Some(certs[k]));
      assert from <= k < from + n ==> Passes(w, db, certs, k);
    }
  }

  /** The watermark `n` certificates leave is as far as what is then stored goes, and no further. */
  lemma StoredRange(db: Db, n: nat)
    requires S.WellFormed(db) && db.watermark + n <= TipHeight(db)
    ensures var next := Stored(db, db.watermark + 1, n);
            && db.watermark + n <= next.watermark <= TipHeight(db) && next.tip == db.tip && next.base == db.base
            && (forall k :: db.watermark + n < k <= next.watermark ==> Own(db, k))
            && (next.watermark < TipHeight(db) ==> !Own(db, next.watermark + 1))
  {
    hide AdvanceMark, Ancestor;
    var next := Stored(db, db.watermark + 1, n);
    MarkMatches(db.tip, next.certs, db.watermark);
    AdvanceReaches(db.tip, next.certs, db.watermark, db.watermark + n);
    forall k | db.watermark + n < k <= next.watermark ensures Own(db, k) {
      assert k in next.certs && next.certs[k] == Ancestor(db.tip, k);
    }
  }

  lemma StoredMark(w: T.World, db: Db, certs: map<nat, Rec>, n: nat)
    requires S.WellFormed(db) && 0 < n && db.watermark + n <= TipHeight(db)
    requires forall j :: db.watermark < j <= db.watermark + n ==> Passes(w, db, certs, j)
    ensures var next := Stored(db, db.watermark + 1, n);
            && db.watermark + n <= next.watermark <= TipHeight(db) && next.tip == db.tip && next.base == db.base
            && (forall k :: db.watermark < k <= next.watermark ==> Passes(w, db, certs, k) || Own(db, k))
            && (next.watermark < TipHeight(db) ==> !Own(db, next.watermark + 1))
  {
    hide Passes, Own, Stored;
    StoredRange(db, n);
  }

  /** What the advance passed, and where it stopped. */
  lemma MarkMatches(tip: Block, certs: map<nat, Block>, mark: nat)
    requires mark <= Height(tip)
    ensures var m := AdvanceMark(tip, certs, mark);
            && mark <= m <= Height(tip)
            && (forall k :: mark < k <= m ==> k in certs && certs[k] == Ancestor(tip, k))
            && (m < Height(tip) && m + 1 in certs ==> certs[m + 1] != Ancestor(tip, m + 1))
  {
    hide Ancestor;
  }

  /** A peer's records carry the watermark exactly to the first height whose record is missing, names
      another block or does not pass the check here, heights this node has certified itself aside. */
  lemma {:induction false} BackfillExact(w: T.World, db: Db, certs: map<nat, Rec>)
    requires S.WellFormed(db) && Consistent(w, db, certs)
    ensures S.WellFormed(Conversation(w, db, certs)) && Conversation(w, db, certs).tip == db.tip
    ensures Conversation(w, db, certs).watermark == BackfillEnd(w, db, certs)
    decreases TipHeight(db) - db.watermark
  {
    hide Page, PeerPage, Stored, Passes, Own, Usable, Agrees, Consistent, Reach;
    if db.watermark < TipHeight(db) {
      var from := db.watermark + 1;
      var (n, handoff) := Page(w, db, from, PeerPage(certs, from, MAX_PAGE_SIZE));
      PageOfPeer(w, db, certs);
      if n > 0 {
        var next := Stored(db, from, n);
        assert Passes(w, db, certs, from);
        StoredMoves(w, db, PeerPage(certs, from, MAX_PAGE_SIZE));
        StoredMark(w, db, certs, n);
        if handoff.Some? {
          HandoffStops(w, db, certs, n);
          ReachIs(w, db, certs, db.watermark, next.watermark);
        } else {
          StoredConsistent(w, db, certs, from, n);
          BackfillExact(w, next, certs);
          NextEnd(w, db, certs, n);
        }
      }
    }
  }

  /** A page of which something is kept moves the watermark for good. */
  lemma KeepsSome(w: T.World, db: Db, certs: map<nat, Rec>)
    requires S.WellFormed(db) && db.watermark < TipHeight(db)
    requires Page(w, db, db.watermark + 1, PeerPage(certs, db.watermark + 1, MAX_PAGE_SIZE)).0 > 0
    ensures Conversation(w, db, certs).watermark > db.watermark
  {
    hide Page, PeerPage, Stored;
    var records := PeerPage(certs, db.watermark + 1, MAX_PAGE_SIZE);
    StoredMoves(w, db, records);
    NeverBack(w, Stored(db, db.watermark + 1, Page(w, db, db.watermark + 1, records).0), certs);
  }

  lemma {:induction false} NeverBack(w: T.World, db: Db, certs: map<nat, Rec>)
    requires S.WellFormed(db)
    ensures Conversation(w, db, certs).watermark >= db.watermark
    decreases TipHeight(db) - db.watermark
  {
    hide Page, PeerPage, Stored;
    if db.watermark < TipHeight(db) {
      var (n, handoff) := Page(w, db, db.watermark + 1, PeerPage(certs, db.watermark + 1, MAX_PAGE_SIZE));
      if n > 0 {
        StoredMoves(w, db, PeerPage(certs, db.watermark + 1, MAX_PAGE_SIZE));
        if handoff.None? {
          NeverBack(w, Stored(db, db.watermark + 1, n), certs);
        }
      }
    }
  }

  /** A record that verifies here but names another block stops the watermark right below it. */
  lemma HandoffStops(w: T.World, db: Db, certs: map<nat, Rec>, n: nat)
    requires S.WellFormed(db) && Consistent(w, db, certs) && 0 < n && db.watermark + n < TipHeight(db)
    requires forall j :: db.watermark < j <= db.watermark + n ==> Passes(w, db, certs, j)
    requires var k := db.watermark + 1 + n; k in certs && Usable(w, k, Some(certs[k])) && !Agrees(db, certs[k])
    ensures Stored(db, db.watermark + 1, n).watermark == db.watermark + n
    ensures !Passes(w, db, certs, db.watermark + n + 1) && !Own(db, db.watermark + n + 1)
  {
    hide AdvanceMark;
    var k := db.watermark + 1 + n;
    var next := Stored(db, db.watermark + 1, n);
    assert certs[k].msg.slot.height == k;
    assert !Own(db, k) && !Passes(w, db, certs, k);
    StoredMark(w, db, certs, n);
  }

  lemma NextEnd(w: T.World, db: Db, certs: map<nat, Rec>, n: nat)
    requires S.WellFormed(db) && 0 < n && db.watermark + n <= TipHeight(db)
    requires forall j :: db.watermark < j <= db.watermark + n ==> Passes(w, db, certs, j)
    ensures var next := Stored(db, db.watermark + 1, n);
            S.WellFormed(next) && BackfillEnd(w, next, certs) == BackfillEnd(w, db, certs)
  {
    hide Passes, Own, Stored;
    var next := Stored(db, db.watermark + 1, n);
    StoredMark(w, db, certs, n);
    forall k ensures (Passes(w, next, certs, k) <==> Passes(w, db, certs, k)) {
      if k >= 0 {
        StoredPasses(w, db, certs, db.watermark + 1, n, k);
      }
    }
    forall k: nat ensures Own(next, k) <==> Own(db, k) || db.watermark < k <= db.watermark + n {
      StoredPasses(w, db, certs, db.watermark + 1, n, k);
    }
    assert Passes(w, db, certs, db.watermark + 1);
    var end := BackfillEnd(w, next, certs);
    ReachIs(w, db, certs, db.watermark, end);
  }

  /** Against a peer on the same chain whose records through `k` all pass the check here, the pages end with
      the watermark at least at the lower of the tip and `k`. */
  lemma HonestPeerCatchesUp(w: T.World, db: Db, certs: map<nat, Rec>, k: nat)
    requires S.WellFormed(db) && Consistent(w, db, certs)
    requires forall j :: db.watermark < j <= k && j <= TipHeight(db) ==>
               j in certs && Usable(w, j, Some(certs[j])) && Named(certs[j]) == Ancestor(db.tip, j)
    ensures Conversation(w, db, certs).watermark >= if k <= TipHeight(db) then k else TipHeight(db)
  {
    hide Usable, Conversation, T.Holds;
    BackfillExact(w, db, certs);
    var goal := if k <= TipHeight(db) then k else TipHeight(db);
    forall j | db.watermark < j <= goal ensures Passes(w, db, certs, j) {
      assert certs[j].msg.slot.height == j by { UsableIs(w, j, Some(certs[j])); }
    }
  }

  /** The peer's record of `j`, and whether all its signers are in the set this node reads for `j`. */
  ghost predicate MembersOnly(w: T.World, run: seq<D.Event>, j: nat) {
    j in D.Exec(run).final && Elements(D.Exec(run).final[j].signers) <= w.members(j).Keys
  }

  /** The peer's tally wrote a record for the block held here at `j`, under the set and keys this node reads
      for `j`. */
  ghost predicate WroteHeld(w: T.World, db: Db, run: seq<D.Event>, j: nat) {
    && D.WrittenUnder(run, j, w) && D.Exec(run).final[j].msg.ballot.Precommit?
    && Some(Named(D.Exec(run).final[j])) == BlockAt(db, j)
  }

  /** Against an honest peer on the same chain that certified through `k` itself, the watermark reaches `k`
      exactly when every record on the way - other than where this node has its own certificate - was signed
      by members of the set in force only. A record with the vote of a member that has since left stops it. */
  lemma PeerCatchesUpIff(w: T.World, db: Db, run: seq<D.Event>, k: nat)
    requires S.WellFormed(db) && Consistent(w, db, D.Exec(run).final) && db.watermark < k <= TipHeight(db)
    requires forall j :: db.watermark < j <= k ==> WroteHeld(w, db, run, j)
    ensures Conversation(w, db, D.Exec(run).final).watermark >= k <==>
            && MembersOnly(w, run, db.watermark + 1)
            && forall j :: db.watermark < j <= k ==> MembersOnly(w, run, j) || Own(db, j)
  {
    hide Conversation, D.Exec, T.Holds, D.WrittenUnder;
    var certs := D.Exec(run).final;
    BackfillExact(w, db, certs);
    forall j | db.watermark < j <= k ensures Passes(w, db, certs, j) <==> MembersOnly(w, run, j) {
      assert WroteHeld(w, db, run, j);
      RecordPasses(w, db, run, j);
    }
    var end := BackfillEnd(w, db, certs);
    assert end < k ==> end + 1 <= k;
    assert Passes(w, db, certs, db.watermark + 1) <==> MembersOnly(w, run, db.watermark + 1);
  }

  lemma RecordPasses(w: T.World, db: Db, run: seq<D.Event>, j: nat)
    requires S.WellFormed(db) && Consistent(w, db, D.Exec(run).final) && WroteHeld(w, db, run, j)
    ensures Passes(w, db, D.Exec(run).final, j) <==> MembersOnly(w, run, j)
  {
    hide D.Exec, T.Holds;
    D.MembersOnlyHolds(run, j, w);
  }

  /** In a guarded run, at the heights a node is settled for, a peer's records are consistent with its own. */
  lemma PeersConsistent(s: P.Setup, init: S.Sys, evs: seq<S.Event>, v: Address, key: (Address, nat) -> Option<nat>,
                        certs: map<nat, Rec>)
    requires F.Guarded(s, init, evs) && v in S.Exec(s, init, evs).nodes
    requires var sys := S.Exec(s, init, evs);
             forall k :: k in certs && k in sys.nodes[v].db.certs ==>
               S.Settled(s, sys.nodes[v].db, k) && Genuine(s, sys.wire, sys.nodes[v].db, key, Some(certs[k]))
    ensures var db := S.Exec(s, init, evs).nodes[v].db; Consistent(E.NodeWorld(s, db, key), db, certs)
  {
    hide S.Exec, S.SeesCert, S.WFinal, S.Bounded, P.Lawful, F.RecordOk, F.Guarded, S.LockOk, S.RoundsProven, Usable,
      Genuine, S.Settled;
    var sys := S.Exec(s, init, evs);
    var db := sys.nodes[v].db;
    var w := E.NodeWorld(s, db, key);
    F.ExecKeeps(s, init, evs);
    assert S.DbOk(s, sys.wire, db);
    forall k | k in certs && k in db.certs && Usable(w, k, Some(certs[k])) ensures Named(certs[k]) == db.certs[k] {
      UsableIs(w, k, Some(certs[k]));
      UsableSeen(s, sys.wire, db, key, k, Some(certs[k]));
      assert evs[..|evs|] == evs;
      F.NetworkChain(s, init, evs, |evs|, v, k, certs[k].msg.slot.round, Named(certs[k]), certs[k].msg.ballot.ep);
      F.OneFinal(s, init, evs, Named(certs[k]), db.certs[k]);
    }
  }

  // ----- a single certificate

  datatype Answer = Ignored | Held(db: Db) | HaltConflict | HaltBelow | Back(target: nat)

  /** The `Certificate` response to a question about `height`. */
  ghost function AnswerTo(w: T.World, db: Db, height: nat, r: Option<Rec>): Answer
    requires S.WellFormed(db)
  {
    if !Usable(w, height, r) then Ignored
    else if BlockAt(db, height) == Some(Named(r.value)) then
      if height !in db.certs then Held(StoreCert(db, height, Named(r.value)))
      else if db.certs[height] != Named(r.value) then HaltConflict
      else Held(db)
    else
      match U.RecoveryPlan(height, db.watermark)
      case HaltBelowWatermark => HaltBelow
      case RevertBack(target) => Back(target)
  }

  /** In no guarded run does a verified certificate at a settled height make an honest node halt; it
      is kept, or it unwinds the node to the parent of the certified height, at or above the
      watermark. The one exception is a height below the snapshot the node has joined from, where it holds
      no block to compare. */
  lemma NeverHalts(s: P.Setup, init: S.Sys, evs: seq<S.Event>, v: Address, key: (Address, nat) -> Option<nat>,
                   height: nat, r: Option<Rec>)
    requires F.Guarded(s, init, evs) && v in S.Exec(s, init, evs).nodes
    requires S.Settled(s, S.Exec(s, init, evs).nodes[v].db, height)
    requires Genuine(s, S.Exec(s, init, evs).wire, S.Exec(s, init, evs).nodes[v].db, key, r)
    ensures S.WellFormed(S.Exec(s, init, evs).nodes[v].db)
    ensures var db := S.Exec(s, init, evs).nodes[v].db;
            var w := E.NodeWorld(s, db, key);
            match AnswerTo(w, db, height, r)
            case Ignored => !Usable(w, height, r)
            case Held(after) =>
              && Usable(w, height, r) && db.base <= height && U.KeepsFinal(db, after)
              && height in after.certs && after.certs[height] == Named(r.value)
            case Back(target) => Usable(w, height, r) && target == height - 1 && target >= db.watermark
            case HaltConflict => false
            case HaltBelow => Usable(w, height, r) && height < db.base
  {
    hide S.Exec, S.SeesCert, S.WFinal, S.Bounded, P.Lawful, F.RecordOk, F.Guarded, S.LockOk, S.RoundsProven, Usable,
      Genuine, E.NodeWorld;
    var sys := S.Exec(s, init, evs);
    var db := sys.nodes[v].db;
    var w := E.NodeWorld(s, db, key);
    F.ExecKeeps(s, init, evs);
    assert S.DbOk(s, sys.wire, db);
    if Usable(w, height, r) {
      UsableIs(w, height, r);
      UsableSeen(s, sys.wire, db, key, height, r);
      var round, b, ep := r.value.msg.slot.round, Named(r.value), r.value.msg.ballot.ep;
      assert evs[..|evs|] == evs;
      F.NetworkChain(s, init, evs, |evs|, v, height, round, b, ep);
      if height in db.certs {
        F.OneFinal(s, init, evs, b, db.certs[height]);
      }
      if height <= TipHeight(db) && Ancestor(db.tip, height) != b {
        U.ConflictIsAboveMark(s, init, evs, v, height, round, b, ep);
      }
    }
  }

  /** Carrying out the answer is an event of the network too. */
  lemma AnswerIsEvent(s: P.Setup, wire: set<S.Signed>, db: Db, key: (Address, nat) -> Option<nat>, v: Address,
                      height: nat, r: Option<Rec>)
    requires S.WellFormed(db) && Genuine(s, wire, db, key, r)
    ensures match AnswerTo(E.NodeWorld(s, db, key), db, height, r)
            case Held(after) =>
              && r.Some? && r.value.msg.ballot.Precommit?
              && var m := r.value.msg;
                 var taking := S.TakeCert(v, height, m.slot.round, Named(r.value), m.ballot.ep);
                 after == db || after == S.Written(s, wire, db, taking)
            case Back(target) => RevertTo(db, target) == S.Written(s, wire, db, S.Revert(v, target))
            case _ => true
  {
    hide T.Holds, E.Unforged, E.NodeWorld, S.SeesCert, StoreCert, RevertTo, BlockAt;
    if Usable(E.NodeWorld(s, db, key), height, r) {
      UsableSeen(s, wire, db, key, height, r);
    }
  }

  /** The record validators 2 and 3 made for the later block. */
  function LaterRecord(): Rec {
    var msg := T.Message(T.Slot(2, 1), T.Precommit(Z.Later(), 0));
    T.Certificate(msg, [2, 3], multiset{T.Signature(2, msg), T.Signature(3, msg)})
  }

  function OwnKey(): (Address, nat) -> Option<nat> { (a, _) => Some(a) }

  /** The guard is needed: after a record formed at an unsettled height, a genuine certificate halts
      the node, although no validator misbehaved. */
  lemma HaltsOnStaleSet() returns (evs: seq<S.Event>, db: Db)
    ensures Z.Handover().Valid() && Z.Handover().faulty == {} && S.Initial(Z.Handover(), Z.Init())
    ensures var sys := S.Exec(Z.Handover(), Z.Init(), evs);
            && 4 in sys.nodes && sys.nodes[4].db == db && S.WellFormed(db)
            && Genuine(Z.Handover(), sys.wire, db, OwnKey(), Some(LaterRecord()))
            && AnswerTo(E.NodeWorld(Z.Handover(), db, OwnKey()), db, 2, Some(LaterRecord())) == HaltBelow
  {
    hide S.Exec, AnswerTo, Z.Handover, Z.Init, Z.Forked, S.Initial, Ancestor, Genuine, Z.Sent, Z.NewVotes;
    Z.HandoverValid();
    evs := Z.StaleSetForks();
    db := Z.Forked();
    HaltsBelow();
    LaterGenuine(S.Exec(Z.Handover(), Z.Init(), evs).wire);
  }

  lemma LaterGenuine(wire: set<S.Signed>)
    requires Z.Sent(wire, 2, Z.NewVotes()[3]) && Z.Sent(wire, 3, Z.NewVotes()[3])
    ensures Genuine(Z.Handover(), wire, Z.Forked(), OwnKey(), Some(LaterRecord()))
  {
    hide Z.Handover, Z.Forked, S.LocalSet;
    var msg := LaterRecord().msg;
    forall a: Address | a == 2 || a == 3 ensures E.HasSigned(wire, a, msg) {
      var x := S.Signed(S.VoteOf(a, Z.NewVotes()[3]), 0);
      assert x in wire && x.vote.voter == a && E.SignedMessage(x) == msg;
    }
  }

  lemma LaterHolds()
    ensures T.Holds(E.NodeWorld(Z.Handover(), Z.Forked(), OwnKey()), LaterRecord())
  {
    hide T.Holds, Z.Handover, Z.Forked, S.LocalSet, Z.NewSet;
    LaterMembers();
    PairHolds(E.NodeWorld(Z.Handover(), Z.Forked(), OwnKey()));
  }

  lemma PairHolds(w: T.World)
    requires w.members(2) == Z.NewSet() && forall a: Address :: w.key(a, 2) == Some(a)
    ensures T.Holds(w, LaterRecord())
  {
    hide PowerOf, T.KnownKeys;
    var msg := LaterRecord().msg;
    Z.PairPower();
    assert Elements([2, 3]) == {2, 3} == Z.NewSet().Keys;
    T.KnownKeysCount(w, 2, [2, 3]);
    assert T.AllKnown(w, 2, [2, 3]);
    assert T.KnownKeys(w, 2, [2, 3]) == [2, 3];
    assert T.Each(msg, [2, 3]) == [T.Signature(2, msg), T.Signature(3, msg)];
  }

  lemma LaterMembers()
    ensures S.LocalSet(Z.Handover(), Z.Forked(), 2) == Z.NewSet()
  {
    Z.SetsRead();
  }

  lemma HaltsBelow()
    ensures S.WellFormed(Z.Forked()) && Z.Handover().faulty == {}
    ensures AnswerTo(E.NodeWorld(Z.Handover(), Z.Forked(), OwnKey()), Z.Forked(), 2, Some(LaterRecord())) == HaltBelow
  {
    hide T.Holds, E.NodeWorld;
    LaterHolds();
    assert Ancestor(Z.Forked().tip, 2) == Z.Earlier();
  }

  // ----- where two chains part

  /** `first_divergent_height`. */
  function FirstDivergent(db: Db, remote: seq<(nat, Block)>): Option<nat>
    decreases |remote|
  {
    if remote == [] then None
    else if BlockAt(db, remote[0].0).Some? && BlockAt(db, remote[0].0).value != remote[0].1 then Some(remote[0].0)
    else FirstDivergent(db, remote[1..])
  }

  /** A peer's hash page over its own chain. */
  function HashPage(peer: Block, from: nat, n: nat): seq<(nat, Block)>
    decreases n
  {
    if n == 0 then [] else [(from, Ancestor(peer, from))] + HashPage(peer, from + 1, n - 1)
  }

  /** Once two chains differ they differ at every later height both hold. */
  lemma DifferFrom(a: Block, b: Block, k: nat, j: nat)
    requires k <= j && j <= Height(a) && j <= Height(b) && Ancestor(a, k) != Ancestor(b, k)
    ensures Ancestor(a, j) != Ancestor(b, j)
  {
    AncestorOfAncestor(a, j, k);
    AncestorOfAncestor(b, j, k);
  }

  lemma HeldDiffer(db: Db, peer: Block, k: nat, j: nat)
    requires k <= j <= Height(peer) && BlockAt(db, k).Some? && BlockAt(db, j).Some?
    requires BlockAt(db, k).value != Ancestor(peer, k)
    ensures BlockAt(db, j).value != Ancestor(peer, j)
  {
    DifferFrom(db.tip, peer, k, j);
  }

  /** On a page of the peer's chain the first divergent height is the fork: held heights below it agree,
      held heights from it on do not, and there is none exactly when every held height agrees. */
  lemma {:induction false} FindsTheFork(db: Db, peer: Block, from: nat, n: nat)
    requires from + n <= Height(peer) + 1
    ensures var d := FirstDivergent(db, HashPage(peer, from, n));
            && (d.Some? ==> from <= d.value < from + n && BlockAt(db, d.value).Some?)
            && (forall k :: from <= k < from + n && BlockAt(db, k).Some? ==>
                  (BlockAt(db, k).value == Ancestor(peer, k) <==> d.None? || k < d.value))
    decreases n
  {
    hide BlockAt, Ancestor;
    if n > 0 {
      assert HashPage(peer, from, n)[0] == (from, Ancestor(peer, from));
      assert HashPage(peer, from, n)[1..] == HashPage(peer, from + 1, n - 1);
      FindsTheFork(db, peer, from + 1, n - 1);
      if BlockAt(db, from).Some? && BlockAt(db, from).value != Ancestor(peer, from) {
        forall k | from <= k < from + n && BlockAt(db, k).Some? ensures BlockAt(db, k).value != Ancestor(peer, k) {
          HeldDiffer(db, peer, from, k);
        }
      }
    }
  }

  // ----- the revert cooldown

  const REVERT_COOLDOWN: nat := 60

  /** `allow_revert`. */
  function AllowRevert(last: Option<nat>, now: nat): (bool, Option<nat>) {
    if last.Some? && (if now < last.value then 0 else now - last.value) < REVERT_COOLDOWN then (false, last)
    else (true, Some(now))
  }

  /** The times at which reverts went through, for requests at `times`. */
  function Reverts(times: seq<nat>): (seq<nat>, Option<nat>) {
    if times == [] then ([], None)
    else
      var n := |times| - 1;
      var (done, last) := Reverts(times[..n]);
      var (ok, next) := AllowRevert(last, times[n]);
      (if ok then done + [times[n]] else done, next)
  }

  /** However often peers trigger one, any two reverts are a cooldown apart, and a request a cooldown
      after the last one is never suppressed. */
  lemma {:induction false} RevertsSpaced(times: seq<nat>)
    ensures var (done, last) := Reverts(times);
            && (forall i, j :: 0 <= i < j < |done| ==> done[i] + REVERT_COOLDOWN <= done[j])
            && (last.Some? <==> done != []) && (done != [] ==> last == Some(done[|done| - 1]))
            && (forall now: nat ::
                  AllowRevert(last, now).0 <==> done == [] || now >= done[|done| - 1] + REVERT_COOLDOWN)
  {
    if times != [] {
      RevertsSpaced(times[..|times| - 1]);
    }
  }

  // ----- the handlers

  type Peer = nat

  /** Which reply this node is waiting for from a peer. */
  datatype Step =
    | AwaitingHashes
    | AwaitingCertificate(height: nat)
    | BackfillingCertificate(height: nat)
    | BackfillingCertificates(from: nat)

  datatype Request = AskCertificate(height: nat) | AskCertificates(from: nat) | AskBlocks(from: nat)

  /** The height a `Certificate` reply must answer for. */
  function Awaited(step: Option<Step>): Option<nat> {
    match step
    case Some(AwaitingCertificate(h)) => Some(h)
    case Some(BackfillingCertificate(h)) => Some(h)
    case _ => None
  }

  lemma PageHead(w: T.World, db: Db, from: nat, records: seq<Option<Rec>>)
    ensures records == [] || from > TipHeight(db) ==> Page(w, db, from, records) == (0, None)
    ensures records != [] && from <= TipHeight(db) && !Usable(w, from, records[0]) ==>
              Page(w, db, from, records) == (0, None)
    ensures records != [] && from <= TipHeight(db) && Usable(w, from, records[0]) ==>
              && records[0].Some?
              && Page(w, db, from, records) ==
                 if !Agrees(db, records[0].value) then (0, Some(from))
                 else (Page(w, db, from + 1, records[1..]).0 + 1, Page(w, db, from + 1, records[1..]).1)
  {
    hide T.Holds, Agrees;
  }

  /** What is left of the page after its first `n` records were kept. */
  ghost function Rest(w: T.World, db: Db, from: nat, records: seq<Option<Rec>>, n: nat): (nat, Option<nat>)
    requires n <= |records|
  {
    var (m, handoff) := Page(w, db, from + n, records[n..]);
    (n + m, handoff)
  }

  lemma RestStep(w: T.World, db: Db, from: nat, records: seq<Option<Rec>>, n: nat)
    requires n <= |records|
    ensures n == |records| || from + n > TipHeight(db) ==> Rest(w, db, from, records, n) == (n, None)
    ensures n < |records| && from + n <= TipHeight(db) && !Usable(w, from + n, records[n]) ==>
              Rest(w, db, from, records, n) == (n, None)
    ensures n < |records| && from + n <= TipHeight(db) && Usable(w, from + n, records[n]) ==>
              && records[n].Some?
              && Rest(w, db, from, records, n) ==
                 if !Agrees(db, records[n].value) then (n, Some(from + n)) else Rest(w, db, from, records, n + 1)
  {
    hide Usable, Agrees, Page;
    PageHead(w, db, from + n, records[n..]);
    if n < |records| {
      assert records[n..][0] == records[n] && records[n..][1..] == records[n + 1..];
    }
  }

  /** The page walked record by record, as the handler does. */
  method WalkPage(w: T.World, db: Db, from: nat, records: seq<Option<Rec>>) returns (n: nat, handoff: Option<nat>)
    ensures (n, handoff) == Page(w, db, from, records)
  {
    hide Usable, Agrees, Page, Rest;
    n, handoff := 0, None;
    assert Rest(w, db, from, records, 0) == Page(w, db, from, records) by { RestAll(w, db, from, records); }
    while n < |records| && from + n <= TipHeight(db)
      invariant n <= |records| && Rest(w, db, from, records, n) == Page(w, db, from, records)
    {
      RestStep(w, db, from, records, n);
      var ok := CheckRecord(w, from + n, records[n]);
      if !ok {
        return;
      }
      if !Agrees(db, records[n].value) {
        return n, Some(from + n);
      }
      n := n + 1;
    }
    RestStep(w, db, from, records, n);
  }

  lemma RestAll(w: T.World, db: Db, from: nat, records: seq<Option<Rec>>)
    ensures Rest(w, db, from, records, 0) == Page(w, db, from, records)
  {
    assert records[0..] == records;
  }

  class Recoverer {
    var db: Db
    var recovering: map<Peer, Step>
    var halted: bool
    var lastRevert: Option<nat>

    constructor (db: Db)
      ensures S.WellFormed(db) ==> Valid()
      ensures this.db == db && recovering == map[] && !halted && lastRevert == None
    {
      this.db, recovering, halted, lastRevert := db, map[], false, None;
    }

    /** A page is only ever awaited from right above the watermark, which never moves back. */
    ghost predicate Valid()
      reads this
    {
      && S.WellFormed(db)
      && forall p :: p in recovering && recovering[p].BackfillingCertificates? ==>
           1 <= recovering[p].from <= db.watermark + 1
    }

    /** The certificates right above the watermark are asked for, and awaited, from `peer`. */
    twostate predicate Asks(new ask: Option<Request>, peer: Peer)
      reads this
    {
      ask == Some(AskCertificates(db.watermark + 1)) && Now(peer, Some(BackfillingCertificates(db.watermark + 1)))
    }

    /** The status tick: with no conversation open, ask for the certificates above the watermark. */
    method OnTick(peer: Peer) returns (ask: Option<Request>)
      requires Valid()
      modifies `recovering
      ensures Valid()
      ensures if old(StepOf(peer)).None? && !halted && db.watermark < TipHeight(db)
              then Asks(ask, peer)
              else ask.None? && recovering == old(recovering)
    {
      ask := None;
      if peer !in recovering && !halted && db.watermark < TipHeight(db) {
        recovering := recovering[peer := BackfillingCertificates(db.watermark + 1)];
        ask := Some(AskCertificates(db.watermark + 1));
      }
    }

    function StepOf(peer: Peer): Option<Step>
      reads this
    {
      if peer in recovering then Some(recovering[peer]) else None
    }

    /** The open conversation with `peer` becomes `step`, every other stays. */
    twostate predicate Now(peer: Peer, step: Option<Step>)
      reads this
    {
      recovering == if step.Some? then old(recovering)[peer := step.value] else old(recovering) - {peer}
    }

    /** The peer's hashes over the disputed range: they only say which certificate to ask for. */
    method OnHashes(peer: Peer, remote: seq<(nat, Block)>) returns (ask: Option<Request>)
      requires Valid()
      modifies `recovering
      ensures Valid()
      ensures var d := FirstDivergent(db, remote);
              if old(StepOf(peer)) == Some(AwaitingHashes) && d.Some?
              then ask == Some(AskCertificate(d.value)) && Now(peer, Some(AwaitingCertificate(d.value)))
              else ask.None? && Now(peer, None)
    {
      ask := None;
      var step := StepOf(peer);
      recovering := recovering - {peer};
      if step != Some(AwaitingHashes) {
        return;
      }
      assert remote[0..] == remote;
      for i := 0 to |remote|
        invariant FirstDivergent(db, remote[i..]) == FirstDivergent(db, remote)
      {
        assert remote[i..][0] == remote[i] && remote[i..][1..] == remote[i + 1..];
        var held := BlockAt(db, remote[i].0);
        if held.Some? && held.value != remote[i].1 {
          recovering := recovering[peer := AwaitingCertificate(remote[i].0)];
          ask := Some(AskCertificate(remote[i].0));
          return;
        }
      }
    }

    /** A page of certificates: unsolicited pages change nothing. */
    method OnCertificates(w: T.World, peer: Peer, from: nat, records: seq<Option<Rec>>) returns (ask: Option<Request>)
      requires Valid()
      modifies `db, `recovering
      ensures Valid()
      ensures old(StepOf(peer)) != Some(BackfillingCertificates(from)) ==>
        ask.None? && db == old(db) && recovering == old(recovering)
      ensures old(StepOf(peer)) == Some(BackfillingCertificates(from)) ==>
                var (n, handoff) := Page(w, old(db), from, records);
                && db == (if n == 0 then old(db) else Stored(old(db), from, n))
                && (if handoff.Some?
                    then
                      && ask == Some(AskCertificate(handoff.value))
                      && Now(peer, Some(BackfillingCertificate(handoff.value)))
                    else if n > 0 && db.watermark < TipHeight(db)
                    then Asks(ask, peer)
                    else ask.None? && Now(peer, None))
    {
      hide Page, Stored;
      ask := None;
      if peer !in recovering || recovering[peer] != BackfillingCertificates(from) {
        return;
      }
      recovering := recovering - {peer};
      var n, handoff := WalkPage(w, db, from, records);
      StoredTip(db, from, n);
      if n > 0 {
        db := Stored(db, from, n);
      }
      if handoff.Some? {
        recovering := recovering[peer := BackfillingCertificate(handoff.value)];
        ask := Some(AskCertificate(handoff.value));
      } else if n > 0 && db.watermark < TipHeight(db) {
        recovering := recovering[peer := BackfillingCertificates(db.watermark + 1)];
        ask := Some(AskCertificates(db.watermark + 1));
      }
    }

    /** A single certificate. Any such reply ends the conversation it arrives in; only the one asked
        for, verified, moves local state. */
    method OnCertificate(w: T.World, peer: Peer, height: nat, r: Option<Rec>, now: nat) returns (ask: Option<Request>)
      requires Valid()
      modifies this
      ensures Valid()
      ensures Awaited(old(StepOf(peer))) != Some(height) ==>
                ask.None? && db == old(db) && halted == old(halted) && lastRevert == old(lastRevert) && Now(peer, None)
      ensures Awaited(old(StepOf(peer))) == Some(height) ==>
                match AnswerTo(w, old(db), height, r)
                case Ignored =>
                  && ask.None? && db == old(db) && halted == old(halted) && lastRevert == old(lastRevert)
                  && Now(peer, None)
                case Held(after) =>
                  && db == after && halted == old(halted) && lastRevert == old(lastRevert)
                  && (if db.watermark < TipHeight(db)
                      then Asks(ask, peer)
                      else ask.None? && Now(peer, None))
                case Back(target) =>
                  && (AllowRevert(old(lastRevert), now) == (ask.Some?, lastRevert))
                  && db == (if ask.Some? then RevertTo(old(db), target) else old(db))
                  && (ask.Some? ==> ask == Some(AskBlocks(target + 1))) && halted == old(halted) && Now(peer, None)
                case _ => ask.None? && db == old(db) && halted && lastRevert == old(lastRevert) && Now(peer, None)
    {
      hide AdvanceMark, Ancestor, Usable, StoreCert, RevertTo, BlockAt;
      ask := None;
      var expected := Awaited(StepOf(peer));
      WritesMove(db, height);
      recovering := recovering - {peer};
      var ok := CheckRecord(w, height, r);
      if expected.None? || expected.value != height || !ok {
        return;
      }
      assert r.Some? by { UsableIs(w, height, r); }
      var block := Named(r.value);
      if BlockAt(db, height) == Some(block) {
        if height in db.certs && db.certs[height] != block {
          halted := true;
          return;
        }
        if height !in db.certs {
          db := StoreCert(db, height, block);
        }
        if db.watermark < TipHeight(db) {
          recovering := recovering[peer := BackfillingCertificates(db.watermark + 1)];
          ask := Some(AskCertificates(db.watermark + 1));
        }
        return;
      }
      match U.RecoveryPlan(height, db.watermark) {
        case HaltBelowWatermark => halted := true;
        case RevertBack(target) =>
          var (ok, last) := AllowRevert(lastRevert, now);
          lastRevert := last;
          if ok {
            db := RevertTo(db, target);
            ask := Some(AskBlocks(target + 1));
          }
      }
    }
  }

  /** The watermark survives whatever a single certificate leads to. */
  lemma WritesMove(db: Db, height: nat)
    requires S.WellFormed(db)
    ensures forall b :: S.WellFormed(StoreCert(db, height, b)) && db.watermark <= StoreCert(db, height, b).watermark
    ensures forall h: nat :: S.WellFormed(RevertTo(db, h)) && RevertTo(db, h).watermark == db.watermark
  {
    hide Ancestor;
    forall h: nat ensures S.WellFormed(RevertTo(db, h)) && RevertTo(db, h).watermark == db.watermark {
      U.RevertKeepsFinal(db, h);
    }
  }

  lemma StoredTip(db: Db, from: nat, n: nat)
    requires S.WellFormed(db)
    ensures Stored(db, from, n).tip == db.tip && S.WellFormed(Stored(db, from, n))
    ensures db.watermark <= Stored(db, from, n).watermark
  {
  }
}

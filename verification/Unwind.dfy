/** Every way a node gives up blocks, and why none reaches finalized history
    (arxd/finality/src/lib.rs, core/executor/src/lib.rs, core/storage/src/lib.rs). */
module Unwind {
  import opened TextFormat
  import opened VotingPower
  import opened Blocks
  import opened Chain
  import P = Protocol
  import S = System
  import F = Safety

  // ----- what every write keeps

  /** `after` has everything `before` finalized, in place. */
  predicate KeepsFinal(before: Db, after: Db) {
    && before.watermark <= after.watermark
    && before.watermark <= TipHeight(after)
    && F.Final(before) == Ancestor(after.tip, before.watermark)
    && (before.watermark > 0 ==> after.base <= before.base)
  }

  lemma KeepsFinalBelow(before: Db, after: Db, k: nat)
    requires KeepsFinal(before, after) && k <= before.watermark
    ensures Ancestor(after.tip, k) == Ancestor(before.tip, k)
  {
    AncestorOfAncestor(before.tip, before.watermark, k);
    AncestorOfAncestor(after.tip, before.watermark, k);
  }

  lemma RevertKeepsFinal(db: Db, h: nat)
    requires S.WellFormed(db)
    ensures KeepsFinal(db, RevertTo(db, h)) && RevertTo(db, h).watermark == db.watermark
    ensures S.WellFormed(RevertTo(db, h))
  {
    if db.watermark <= h < TipHeight(db) {
      AncestorOfAncestor(db.tip, h, db.watermark);
    }
  }

  /** The parent of height `k` is held, or `k` lies at or below what the node joined at. */
  predicate ParentHeld(db: Db, k: nat) {
    k <= db.base || BlockAt(db, Below(k)).Some?
  }

  /** What a revert keeps, exactly: the blocks up to its target; every certificate and the watermark; and the
      locks and certified rounds of the heights whose parent is still held. One that is not allowed, or asks
      for nothing, changes nothing. */
  lemma RevertExact(db: Db, h: nat)
    requires S.WellFormed(db)
    ensures !(db.watermark <= h < TipHeight(db)) ==> RevertTo(db, h) == db
    ensures db.watermark <= h < TipHeight(db) ==>
              var after := RevertTo(db, h);
              && TipHeight(after) == h && (forall k :: 0 <= k <= h ==> BlockAt(after, k) == BlockAt(db, k))
              && after.certs == db.certs && after.watermark == db.watermark && after.base == db.base
              && (forall k :: k in after.pols <==> k in db.pols && ParentHeld(after, k))
              && (forall k :: k in after.pols ==> after.pols[k] == db.pols[k])
              && (forall c :: c in after.roundCerts <==> c in db.roundCerts && ParentHeld(after, c.0))
  {
    if db.watermark <= h < TipHeight(db) {
      forall k | 0 <= k <= h ensures Ancestor(Ancestor(db.tip, h), k) == Ancestor(db.tip, k) {
        AncestorOfAncestor(db.tip, h, k);
      }
    }
  }

  lemma CommitKeepsFinal(db: Db, b: Block)
    requires S.WellFormed(db) && b.Child? && b.parent == db.tip
    ensures KeepsFinal(db, CommitBlock(db, b)) && S.WellFormed(CommitBlock(db, b))
  {
    AncestorOfAncestor(b, TipHeight(db), db.watermark);
  }

  lemma CommitCovers(db: Db, b: Block)
    requires S.WellFormed(db) && b.Child? && b.parent == db.tip && S.CertsCover(db)
    ensures S.CertsCover(CommitBlock(db, b))
  {
    assert forall k :: 0 <= k <= TipHeight(db) ==> Ancestor(b, k) == Ancestor(db.tip, k);
  }

  lemma RevertCovers(db: Db, h: nat)
    requires S.WellFormed(db) && S.CertsCover(db)
    ensures S.CertsCover(RevertTo(db, h))
  {
    forall k | 1 <= k <= db.watermark && db.watermark <= h < TipHeight(db)
      ensures Ancestor(Ancestor(db.tip, h), k) == Ancestor(db.tip, k)
    {
      AncestorOfAncestor(db.tip, h, k);
    }
  }

  lemma StoreKeepsFinal(db: Db, h: nat, b: Block)
    requires S.WellFormed(db) && (h in db.certs ==> db.certs[h] == b)
    ensures var after := StoreCert(db, h, b);
            KeepsFinal(db, after) && S.WellFormed(after) && (S.CertsCover(db) ==> S.CertsCover(after))
  {
  }

  lemma JoinKeepsFinal(db: Db, anchor: Block)
    requires S.WellFormed(db) && db.tip.Genesis? && anchor.Child?
    ensures KeepsFinal(db, Joined(anchor)) && S.WellFormed(Joined(anchor)) && S.CertsCover(Joined(anchor))
  {
    AncestorZero(anchor);
  }

  /** No database write a node performs moves the watermark back, replaces a finalized block, or
      forgets or changes a certificate behind the watermark - whatever set it counted votes under. */
  lemma WriteKeepsFinal(s: P.Setup, wire: set<S.Signed>, db: Db, ev: S.Event)
    requires S.WellFormed(db)
    ensures var after := S.Written(s, wire, db, ev);
            KeepsFinal(db, after) && S.WellFormed(after) && (S.CertsCover(db) ==> S.CertsCover(after))
  {
    hide S.SeesPol, S.SeesCert, S.SeesRound, RevertTo, CommitBlock, CurrentRound, Joined, StoreCert;
    match ev
    case TakeCert(_, h, _, b, _) =>
      if h in db.certs ==> db.certs[h] == b {
        StoreKeepsFinal(db, h, b);
      }
    case Join(_, anchor) =>
      if db.tip.Genesis? && anchor.Child? {
        JoinKeepsFinal(db, anchor);
      }
    case AcceptBlock(_, b) =>
      if b.Child? && b.parent == db.tip {
        CommitKeepsFinal(db, b);
        if S.CertsCover(db) {
          CommitCovers(db, b);
        }
      }
    case Revert(_, h) =>
      RevertKeepsFinal(db, h);
      if S.CertsCover(db) {
        RevertCovers(db, h);
      }
    case _ =>
  }

  /** No write replaces a lock but by one of a later round; it may be dropped with its parent, once its height is
      final, or by joining. */
  lemma LocksOnlyRise(s: P.Setup, wire: set<S.Signed>, db: Db, ev: S.Event, h: nat)
    requires S.WellFormed(db) && h in db.pols && h in S.Written(s, wire, db, ev).pols
    ensures var after := S.Written(s, wire, db, ev).pols[h];
            after == db.pols[h] || (after.round > db.pols[h].round && ev.FormPol? && h !in db.certs)
  {
    hide S.SeesPol, S.SeesCert, S.SeesRound, CurrentRound, Acceptable, AdvanceMark;
  }

  /** `v`'s database is not replaced in `evs`. */
  predicate NoRestore(evs: seq<S.Event>, v: Address) {
    forall i :: 0 <= i < |evs| ==> !(evs[i].RestoreDb? && evs[i].v == v)
  }

  lemma StepKeepsFinal(s: P.Setup, sys: S.Sys, ev: S.Event, v: Address)
    requires v in sys.nodes && S.WellFormed(sys.nodes[v].db) && !(ev.RestoreDb? && ev.v == v)
    ensures var after := S.Step(s, sys, ev).nodes;
            && v in after && KeepsFinal(sys.nodes[v].db, after[v].db) && S.WellFormed(after[v].db)
            && (S.CertsCover(sys.nodes[v].db) ==> S.CertsCover(after[v].db))
  {
    hide S.Written, S.Intent, S.Vote, S.DbOk, S.Boot, S.CertsCover;
    assert KeepsFinal(sys.nodes[v].db, sys.nodes[v].db);
    if ev.Restart? || ev.Cast? {
      DbUntouched(s, sys, ev, v);
    } else if !ev.Forge? && !ev.Observe? && !ev.Reread? && !ev.PruneVotes? && !ev.RestoreDb? && ev.v == v {
      WriteKeepsFinal(s, sys.wire, sys.nodes[v].db, ev);
    }
  }

  lemma DbUntouched(s: P.Setup, sys: S.Sys, ev: S.Event, v: Address)
    requires v in sys.nodes && (ev.Restart? || ev.Cast?)
    ensures v in S.Step(s, sys, ev).nodes && S.Step(s, sys, ev).nodes[v].db == sys.nodes[v].db
  {
    hide S.Intent;
  }

  lemma KeepsFinalTrans(a: Db, b: Db, c: Db)
    requires KeepsFinal(a, b) && KeepsFinal(b, c)
    ensures KeepsFinal(a, c)
  {
    KeepsFinalBelow(b, c, a.watermark);
  }

  /** Over any run in which a node's database is not swapped for another, nothing the node finalized
      is ever unwound: its watermark only rises and every height at or below it keeps its block. */
  lemma {:induction false} FinalizedStays(s: P.Setup, sys: S.Sys, evs: seq<S.Event>, v: Address)
    requires v in sys.nodes && S.WellFormed(sys.nodes[v].db) && NoRestore(evs, v)
    ensures var after := S.Exec(s, sys, evs).nodes;
            && v in after && KeepsFinal(sys.nodes[v].db, after[v].db) && S.WellFormed(after[v].db)
            && (S.CertsCover(sys.nodes[v].db) ==> S.CertsCover(after[v].db))
    decreases |evs|
  {
    hide S.Step, S.CertsCover, KeepsFinal;
    if evs == [] {
      assert KeepsFinal(sys.nodes[v].db, sys.nodes[v].db) by { KeepsFinalSelf(sys.nodes[v].db); }
    } else {
      var n := |evs| - 1;
      FinalizedStays(s, sys, evs[..n], v);
      var mid := S.Exec(s, sys, evs[..n]);
      StepKeepsFinal(s, mid, evs[n], v);
      KeepsFinalTrans(sys.nodes[v].db, mid.nodes[v].db, S.Exec(s, sys, evs).nodes[v].db);
    }
  }

  lemma KeepsFinalSelf(db: Db)
    requires S.WellFormed(db)
    ensures KeepsFinal(db, db)
  {
  }

  // ----- the paths that unwind

  /** `enforce_certificate`: the certified block at `h` is not the one held. */
  function EnforceTarget(db: Db, h: nat, certified: Block): Option<nat> {
    var held := BlockAt(db, h);
    if held.Some? && held.value != certified then Some(Below(h)) else None
  }

  /** A held tip that is not final and not locked. */
  predicate UnlockedTip(db: Db, h: nat) {
    TipHeight(db) == h && h !in db.certs && (h in db.pols ==> db.pols[h].block != db.tip)
  }

  /** `unwind_dead_tip`: the tip's own round is certified timed out. */
  function DeadTipTarget(db: Db, h: nat, r: nat): Option<nat> {
    if UnlockedTip(db, h) && Round(db.tip) == r then Some(Below(h)) else None
  }

  /** `supersede_dead_tip`: a block at the tip's height from a later, certified round. */
  function SupersedeTarget(db: Db, h: nat, r: nat, certified: bool): Option<nat> {
    if h > 0 && UnlockedTip(db, h) && r > Round(db.tip) && certified then Some(h - 1) else None
  }

  /** `try_step`: the height after the watermark is locked on another block. */
  function LockSwapTarget(db: Db): Option<nat> {
    var h := db.watermark + 1;
    if TipHeight(db) == h && h !in db.certs && h in db.pols && db.pols[h].block != db.tip then Some(h - 1) else None
  }

  /** `plan` in divergence recovery. */
  datatype Recovery = RevertBack(target: nat) | HaltBelowWatermark

  function RecoveryPlan(divergent: nat, watermark: nat): Recovery {
    if divergent > 0 && divergent - 1 >= watermark then RevertBack(divergent - 1) else HaltBelowWatermark
  }

  /** A certificate the node accepts against a block it holds is against one above the watermark. */
  lemma ConflictIsAboveMark(s: P.Setup, init: S.Sys, evs: seq<S.Event>, v: Address, h: nat, r: nat, b: Block, ep: nat)
    requires F.Guarded(s, init, evs) && v in S.Exec(s, init, evs).nodes
    requires S.SeesCert(s, S.Exec(s, init, evs).wire, S.Exec(s, init, evs).nodes[v].db, h, r, b, ep)
    requires var db := S.Exec(s, init, evs).nodes[v].db; h <= TipHeight(db) && Ancestor(db.tip, h) != b
    ensures h > S.Exec(s, init, evs).nodes[v].db.watermark
  {
    hide S.Exec, S.SeesCert, S.WFinal, S.Bounded, P.Lawful, F.RecordOk, F.Guarded;
    var sys := S.Exec(s, init, evs);
    var db := sys.nodes[v].db;
    if h <= db.watermark {
      assert evs[..|evs|] == evs;
      F.NetworkChain(s, init, evs, |evs|, v, h, r, b, ep);
      F.ExecKeeps(s, init, evs);
      assert S.DbOk(s, sys.wire, db);
      F.FinalCertified(s, sys.wire, db);
      F.WFinalBelow(s, sys.wire, F.Final(db), h);
      AncestorOfAncestor(db.tip, db.watermark, h);
      F.OneFinal(s, init, evs, b, Ancestor(db.tip, h));
    }
  }

  /** Carrying out a revert, when one is asked for. */
  function Unwound(db: Db, target: Option<nat>): Db {
    if target.Some? then RevertTo(db, target.value) else db
  }

  /** The revert is allowed by the watermark and carried out: the block at `h` is dropped, its parent is
      the tip, and what was final stays. */
  predicate DropsTo(db: Db, h: nat, target: Option<nat>) {
    target.Some? ==>
      && db.watermark <= Below(h) <= TipHeight(db)
      && Unwound(db, target).tip == Ancestor(db.tip, Below(h)) && KeepsFinal(db, Unwound(db, target))
  }

  /** In every run - whatever sets were read, whatever databases restored - every path asks for a
      height the watermark allows, so `revert_to` never has to refuse it, and afterwards the node
      stands on the parent of the block it gave up. Enforcement acts on the certificate just stored. */
  lemma UnwindsAboveMark(s: P.Setup, init: S.Sys, evs: seq<S.Event>, v: Address, h: nat, r: nat)
    requires S.Initial(s, init) && v in S.Exec(s, init, evs).nodes
    ensures var db := S.Exec(s, init, evs).nodes[v].db;
            && (1 <= h && h in db.certs ==> DropsTo(db, h, EnforceTarget(db, h, db.certs[h])))
            && DropsTo(db, h, DeadTipTarget(db, h, r))
            && DropsTo(db, h, SupersedeTarget(db, h, r, true))
            && DropsTo(db, db.watermark + 1, LockSwapTarget(db))
  {
    hide S.Exec, KeepsFinal;
    var db := S.Exec(s, init, evs).nodes[v].db;
    Covered(s, init, evs, v);
    RevertKeepsFinal(db, Below(h));
    RevertKeepsFinal(db, db.watermark);
  }

  /** After certificate enforcement nothing held contradicts the certificate, a chain that agrees with it is
      left alone, and no stored certificate is ever for the genesis height. */
  lemma EnforcedAgrees(s: P.Setup, init: S.Sys, evs: seq<S.Event>, v: Address, h: nat)
    requires F.Guarded(s, init, evs) && v in S.Exec(s, init, evs).nodes
    requires h in S.Exec(s, init, evs).nodes[v].db.certs
    ensures var db := S.Exec(s, init, evs).nodes[v].db;
            var after := Unwound(db, EnforceTarget(db, h, db.certs[h]));
            && h >= 1 && (BlockAt(after, h).None? || BlockAt(after, h).value == db.certs[h])
            && (BlockAt(db, h).None? || BlockAt(db, h).value == db.certs[h] ==> after == db)
  {
    hide S.Exec, S.WFinal, P.Lawful, F.RecordOk, S.Bounded;
    F.ExecKeeps(s, init, evs);
    assert S.DbOk(s, S.Exec(s, init, evs).wire, S.Exec(s, init, evs).nodes[v].db);
    UnwindsAboveMark(s, init, evs, v, h, 0);
  }

  /** An uncertified tip is above the watermark. */
  lemma UncertifiedAbove(db: Db)
    requires S.WellFormed(db) && S.CertsCover(db) && TipHeight(db) >= 1 && TipHeight(db) !in db.certs
    ensures db.watermark <= TipHeight(db) - 1
  {
  }

  predicate LockedOn(db: Db, h: nat, b: Block) {
    h in db.pols && db.pols[h].block == b
  }

  /** `tally_round_timeout` once the round is certified: the certificate is filed and a dead tip unwound. */
  function CertifyRound(db: Db, h: nat, r: nat): Db {
    var filed := db.(roundCerts := db.roundCerts + {(h, r)});
    Unwound(filed, DeadTipTarget(filed, h, r))
  }

  /** In every run, when a round certificate for `(h, r)` has been filed: no tip at `h` is of round `r` unless it
      is certified or locked; a tip that is, or is of another round or height, is still held; and a height
      without certificate and lock then takes the blocks on its parent of a round not left yet, and no other,
      so what was given up is not taken back. */
  lemma DeadTipsGo(s: P.Setup, init: S.Sys, evs: seq<S.Event>, v: Address, h: nat, r: nat)
    requires S.Initial(s, init) && v in S.Exec(s, init, evs).nodes && h >= 1
    ensures var db := S.Exec(s, init, evs).nodes[v].db;
            var after := CertifyRound(db, h, r);
            && (TipHeight(after) == h && Round(after.tip) == r ==> h in after.certs || LockedOn(after, h, after.tip))
            && (TipHeight(db) != h || Round(db.tip) != r || h in db.certs || LockedOn(db, h, db.tip) ==>
                  after.tip == db.tip)
            && (h, r) in after.roundCerts && after.certs == db.certs
            && (forall b :: LockedOn(db, h, b) <==> LockedOn(after, h, b))
            && (TipHeight(after) == h - 1 && h !in db.certs && h !in db.pols ==>
                  forall b :: Acceptable(after, b) <==>
                    b.Child? && b.parent == after.tip && b.round > r && b.round >= CurrentRound(db, h))
  {
    hide S.Exec, CurrentRound;
    var db := S.Exec(s, init, evs).nodes[v].db;
    Covered(s, init, evs, v);
    if TipHeight(db) == h && h !in db.certs {
      UncertifiedAbove(db);
      RevertExact(db.(roundCerts := db.roundCerts + {(h, r)}), h - 1);
    }
    NextRound(db, CertifyRound(db, h, r), h, r);
  }

  /** `supersede_dead_tip`, for a block of height `h` and round `r` that carries the certificate of the round
      before, or does not. */
  function Supersede(db: Db, h: nat, r: nat, certified: bool): Db {
    Unwound(db, SupersedeTarget(db, h, r, certified))
  }

  /** In every run, once a block of a later, certified round has arrived: no tip at its height is of an earlier
      round unless it is certified or locked; any other tip is still held; and where no lock says otherwise
      the newcomer lands, if it builds on the parent held and no later round is certified. */
  lemma DeadTipsYield(s: P.Setup, init: S.Sys, evs: seq<S.Event>, v: Address, b: Block, certified: bool)
    requires S.Initial(s, init) && v in S.Exec(s, init, evs).nodes && b.Child?
    ensures var db, h := S.Exec(s, init, evs).nodes[v].db, Height(b);
            var after := Supersede(db, h, b.round, certified);
            && (certified && TipHeight(after) == h && Round(after.tip) < b.round ==>
                  h in after.certs || LockedOn(after, h, after.tip))
            && (!certified || TipHeight(db) != h || Round(db.tip) >= b.round ==> after == db)
            && (h in db.certs || LockedOn(db, h, db.tip) ==> after == db)
            && after.certs == db.certs && (forall x :: LockedOn(db, h, x) <==> LockedOn(after, h, x))
            && (after != db && b.parent == after.tip && h !in db.pols && b.round >= CurrentRound(db, h) ==>
                  Acceptable(after, b) && CommitBlock(after, b).tip == b)
  {
    hide S.Exec, CurrentRound;
    var db, h := S.Exec(s, init, evs).nodes[v].db, Height(b);
    Covered(s, init, evs, v);
    if TipHeight(db) == h && h !in db.certs {
      UncertifiedAbove(db);
      RevertExact(db, h - 1);
      SameRound(db, RevertTo(db, h - 1), h);
    }
  }

  /** `try_step`'s swap. */
  function SwapLocked(db: Db): Db { Unwound(db, LockSwapTarget(db)) }

  /** In every run, after the swap: a block held at the height after the watermark is the locked one, if the
      height is locked and not certified; any other tip is still held; and while the locked block is
      missing nothing else is accepted in its place. */
  lemma LockedHeld(s: P.Setup, init: S.Sys, evs: seq<S.Event>, v: Address)
    requires S.Initial(s, init) && v in S.Exec(s, init, evs).nodes
    ensures var db := S.Exec(s, init, evs).nodes[v].db;
            var h, after := db.watermark + 1, SwapLocked(db);
            && (TipHeight(after) == h && h in after.pols ==> h in after.certs || LockedOn(after, h, after.tip))
            && (TipHeight(db) != h || h in db.certs || h !in db.pols || LockedOn(db, h, db.tip) ==> after == db)
            && after.certs == db.certs && (forall x :: LockedOn(db, h, x) <==> LockedOn(after, h, x))
            && (forall x :: after != db && Acceptable(after, x) ==> LockedOn(db, h, x))
  {
    hide S.Exec, CurrentRound;
    var db := S.Exec(s, init, evs).nodes[v].db;
    Covered(s, init, evs, v);
    RevertExact(db, db.watermark);
  }

  lemma SameRound(a: Db, b: Db, h: nat)
    requires forall q: nat :: (h, q) in a.roundCerts <==> (h, q) in b.roundCerts
    ensures CurrentRound(a, h) == CurrentRound(b, h)
  {
  }

  /** The round a height is in once one more is certified. */
  lemma NextRound(db: Db, after: Db, h: nat, r: nat)
    requires forall q: nat :: (h, q) in after.roundCerts <==> (h, q) in db.roundCerts || q == r
    ensures CurrentRound(after, h) == if CurrentRound(db, h) > r then CurrentRound(db, h) else r + 1
  {
    assert (h, r) in after.roundCerts;
    if CurrentRound(db, h) > 0 {
      assert (h, CurrentRound(db, h) - 1) in after.roundCerts;
    }
  }

  /** In every run the certificates behind a node's watermark name the blocks it holds. */
  lemma {:induction false} Covered(s: P.Setup, init: S.Sys, evs: seq<S.Event>, v: Address)
    requires S.Initial(s, init) && v in S.Exec(s, init, evs).nodes
    ensures var db := S.Exec(s, init, evs).nodes[v].db; S.WellFormed(db) && S.CertsCover(db)
  {
    hide S.Written, S.Intent, S.Vote, S.Boot, KeepsFinal;
    if evs != [] {
      var n := |evs| - 1;
      var sys := S.Exec(s, init, evs[..n]);
      F.StepGrows(s, sys, evs[n]);
      Covered(s, init, evs[..n], v);
      if !(evs[n].RestoreDb? && evs[n].v == v) {
        StepKeepsFinal(s, sys, evs[n], v);
      }
    }
  }

  lemma RootedLater(view: Db, before: Db, after: Db)
    requires S.Rooted(view, before) && KeepsFinal(before, after) && S.WellFormed(after)
    ensures S.Rooted(view, after)
  {
    KeepsFinalBelow(before, after, view.watermark);
  }

  lemma RefreshedRooted(view: Db, db: Db, part: S.Part)
    requires S.Rooted(view, db)
    ensures S.Rooted(S.Refreshed(view, db, part), db)
  {
    AncestorOfAncestor(db.tip, view.watermark + 1, view.watermark);
  }

  /** In every run a step's reading, however its parts were read, rests on what is still final: parts
      read later never contradict the watermark read first. */
  lemma {:induction false} ViewsRooted(s: P.Setup, init: S.Sys, evs: seq<S.Event>, v: Address)
    requires S.Initial(s, init) && v in S.Exec(s, init, evs).nodes
    ensures S.Rooted(S.Exec(s, init, evs).nodes[v].view, S.Exec(s, init, evs).nodes[v].db)
  {
    hide S.Written, S.Intent, S.Refreshed, KeepsFinal;
    if evs != [] {
      var n := |evs| - 1;
      var sys, ev := S.Exec(s, init, evs[..n]), evs[n];
      F.StepGrows(s, sys, ev);
      ViewsRooted(s, init, evs[..n], v);
      Covered(s, init, evs[..n], v);
      if ev.Reread? && ev.v == v {
        RefreshedRooted(sys.nodes[v].view, sys.nodes[v].db, ev.part);
      } else if !(ev.RestoreDb? && ev.v == v) {
        StepKeepsFinal(s, sys, ev, v);
        RootedLater(sys.nodes[v].view, sys.nodes[v].db, S.Step(s, sys, ev).nodes[v].db);
      }
    }
  }
}

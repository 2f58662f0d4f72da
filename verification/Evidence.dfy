/** The tallies and the network: what a certificate proves about who signed what, that every write of
    a tally is an event of the network model, that honest validators are never reported, and the two
    ways a tally can hold votes its certificate cannot use (arxd/finality/src/lib.rs). */
module Evidence {
  import opened TextFormat
  import opened VotingPower
  import opened Blocks
  import opened Tally
  import C = Chain
  import P = Protocol
  import S = System
  import D = VoteDesk
  import R = RoundDesk
  import F = Safety
  import U = Unwind

  // ----- signatures and the wire

  /** What a signature on the wire signs. */
  function SignedMessage(x: S.Signed): Message {
    var slot := Slot(x.vote.height, x.vote.round);
    match x.vote
    case Prevote(_, _, _, b) => Message(slot, Prevote(b))
    case Precommit(_, _, _, b) => Message(slot, Precommit(b, x.ep))
    case Timeout(_, _, _, parent) => Message(slot, Timeout(parent))
  }

  ghost predicate HasSigned(wire: set<S.Signed>, a: Address, msg: Message) {
    exists x :: x in wire && x.vote.voter == a && SignedMessage(x) == msg
  }

  /** What a node with database `db` reads: the sets its own chain left, and the keys it knows. */
  function NodeWorld(s: P.Setup, db: C.Db, key: (Address, nat) -> Option<nat>): World {
    World(h => S.LocalSet(s, db, h), key)
  }

  /** The guard of the network event that files a certificate of this message. */
  ghost predicate Sees(s: P.Setup, wire: set<S.Signed>, db: C.Db, msg: Message) {
    var h, r := msg.slot.height, msg.slot.round;
    match msg.ballot
    case Precommit(b, ep) => S.SeesCert(s, wire, db, h, r, b, ep)
    case Prevote(b) => S.SeesPol(s, wire, db, h, r, b)
    case Timeout(b) => IsQuorum(S.LocalSet(s, db, h), S.Timers(wire, h, r, b))
  }

  lemma SignedQuorum(s: P.Setup, wire: set<S.Signed>, db: C.Db, msg: Message, signers: set<Address>)
    requires forall a :: a in signers ==> HasSigned(wire, a, msg)
    requires IsQuorum(S.LocalSet(s, db, msg.slot.height), signers)
    ensures Sees(s, wire, db, msg)
  {
    var h, r := msg.slot.height, msg.slot.round;
    var signed := match msg.ballot
      case Precommit(b, ep) => S.Precommitters(wire, h, r, b, ep)
      case Prevote(b) => S.Prevoters(wire, h, r, b)
      case Timeout(b) => S.Timers(wire, h, r, b);
    forall a | a in signers ensures a in signed {
      var x :| x in wire && x.vote.voter == a && SignedMessage(x) == msg;
    }
    PowerMonotone(S.LocalSet(s, db, h), signers, signed);
  }

  // ----- certificates from peers

  /** Signatures cannot be forged: a part that verifies under a validator's key was made by it. */
  ghost predicate Unforged(w: World, wire: set<S.Signed>, c: Certificate) {
    forall a, key :: w.key(a, c.msg.slot.height) == Some(key) && Signature(key, c.msg) in c.aggregate ==>
      HasSigned(wire, a, c.msg)
  }

  lemma SignersSigned(w: World, wire: set<S.Signed>, c: Certificate, a: Address)
    requires Holds(w, c) && Unforged(w, wire, c) && a in c.signers
    ensures HasSigned(wire, a, c.msg)
  {
    hide HasSigned, IsQuorum;
    var i :| 0 <= i < |c.signers| && c.signers[i] == a;
    var keys := KnownKeys(w, c.msg.slot.height, c.signers);
    KnownKeysCount(w, c.msg.slot.height, c.signers);
    assert w.key(a, c.msg.slot.height) == Some(keys[i]);
    assert Each(c.msg, keys)[i] == Signature(keys[i], c.msg);
  }

  /** A record that passes a node's own check is what the network model lets that node file: a quorum,
      in the set it reads, of signatures on the wire. */
  lemma RecordIsQuorum(s: P.Setup, db: C.Db, key: (Address, nat) -> Option<nat>, wire: set<S.Signed>, c: Certificate)
    requires Holds(NodeWorld(s, db, key), c) && Unforged(NodeWorld(s, db, key), wire, c)
    ensures Sees(s, wire, db, c.msg)
  {
    hide AllKnown, VerifyAggregate, Unforged, HasSigned, S.LocalSet, Sees;
    forall a | a in Elements(c.signers) ensures HasSigned(wire, a, c.msg) {
      SignersSigned(NodeWorld(s, db, key), wire, c, a);
    }
    SignedQuorum(s, wire, db, c.msg, Elements(c.signers));
  }

  // ----- tallies hold what was signed

  /** A vote that passes the checks was made by its voter. */
  ghost predicate Authored(wire: set<S.Signed>, w: World, v: Vote) {
    Counts(w, v) ==> HasSigned(wire, v.voter, v.msg)
  }

  ghost predicate AllAuthored(wire: set<S.Signed>, run: seq<D.Event>) {
    forall i :: 0 <= i < |run| && run[i].Hear? ==> Authored(wire, run[i].w, run[i].vote)
  }

  ghost predicate PrevotesAuthored(wire: set<S.Signed>, run: seq<R.PrevoteEvent>) {
    forall i :: 0 <= i < |run| && run[i].Hear? ==> Authored(wire, run[i].w, run[i].vote)
  }

  ghost predicate TimeoutsAuthored(wire: set<S.Signed>, run: seq<R.TimeoutEvent>) {
    forall i :: 0 <= i < |run| && run[i].HearTimeout? && run[i].parent.Some? ==>
      Authored(wire, run[i].w, Vote(R.TimeoutMsg(run[i].slot, run[i].parent.value), run[i].voter, run[i].sig))
  }

  /** Every entry of the tallies was really signed. */
  ghost predicate Authentic(wire: set<S.Signed>, tallies: map<Message, Bucket>) {
    forall m, a :: m in tallies && a in tallies[m] ==> HasSigned(wire, a, m)
  }

  /** In every run of the precommit tally, restarts and changing sets included, whatever it counts was
      signed. */
  lemma PrecommitsAuthentic(wire: set<S.Signed>, run: seq<D.Event>)
    requires AllAuthored(wire, run)
    ensures Authentic(wire, D.Exec(run).tallies)
  {
    hide D.Exec, HasSigned, Counts;
    D.OnlyHeeded(run);
    var tallies := D.Exec(run).tallies;
    forall m, a | m in tallies && a in tallies[m] ensures HasSigned(wire, a, m) {
      assert D.Heeded(run, m, a, tallies[m][a]);
      var i :| 0 <= i < |run| && D.Takes(D.Exec(run[..i]), run[i]) && run[i].vote == Vote(m, a, tallies[m][a]);
      assert Authored(wire, run[i].w, run[i].vote);
    }
  }

  lemma PrevotesAuthentic(wire: set<S.Signed>, run: seq<R.PrevoteEvent>)
    requires PrevotesAuthored(wire, run)
    ensures Authentic(wire, R.Exec(run).tallies)
  {
    hide R.Exec, HasSigned, Counts;
    var tallies := R.Exec(run).tallies;
    forall m, a | m in tallies && a in tallies[m] ensures HasSigned(wire, a, m) {
      R.OnlyHeeded(run, m, a);
      var i :| 0 <= i < |run| && R.Takes(R.Exec(run[..i]), run[i]) && run[i].vote == Vote(m, a, tallies[m][a]);
      assert Authored(wire, run[i].w, run[i].vote);
    }
  }

  /** The timeout vote was signed, over whatever parent its signature names. */
  ghost predicate SignedTimeout(wire: set<S.Signed>, slot: Slot, a: Address, sig: Signature) {
    sig.Signature? && sig.msg.slot == slot && sig.msg.ballot.Timeout? && HasSigned(wire, a, sig.msg)
  }

  /** Every timeout vote counted or on file was really signed. */
  ghost predicate TimeoutsSigned(wire: set<S.Signed>, d: R.Timeouts) {
    && (forall slot, a :: slot in d.tallies && a in d.tallies[slot] ==>
          SignedTimeout(wire, slot, a, d.tallies[slot][a]))
    && (forall k :: k in d.rows ==> SignedTimeout(wire, k.0, k.1, d.rows[k]))
  }

  lemma HeardSigned(wire: set<S.Signed>, d: R.Timeouts, ev: R.TimeoutEvent)
    requires TimeoutsSigned(wire, d) && R.CountsTimeout(d, ev) && SignedTimeout(wire, ev.slot, ev.voter, ev.sig)
    ensures TimeoutsSigned(wire, R.HeardTimeout(d, ev))
  {
    hide SignedTimeout, Certify, Enumerates, Counts;
    var after := R.HeardTimeout(d, ev);
    forall slot, a | slot in after.tallies && a in after.tallies[slot]
      ensures SignedTimeout(wire, slot, a, after.tallies[slot][a])
    {
      assert slot in d.tallies && a in d.tallies[slot] ==> SignedTimeout(wire, slot, a, d.tallies[slot][a]);
    }
  }

  lemma ReloadSigned(wire: set<S.Signed>, d: R.Timeouts, cutoff: nat)
    requires TimeoutsSigned(wire, d)
    ensures TimeoutsSigned(wire, R.StepTimeouts(d, R.RestartTimeouts(cutoff)))
  {
    hide SignedTimeout;
  }

  lemma {:induction false} TimeoutsAuthentic(wire: set<S.Signed>, run: seq<R.TimeoutEvent>)
    requires TimeoutsAuthored(wire, run)
    ensures TimeoutsSigned(wire, R.TimedOut(run))
  {
    hide HasSigned, Certify, Enumerates, R.HeardTimeout, R.FromRows;
    if run != [] {
      var n := |run| - 1;
      var d := R.TimedOut(run[..n]);
      TimeoutsAuthentic(wire, run[..n]);
      match run[n]
      case HearTimeout(w, parent, slot, voter, sig, _) =>
        if R.CountsTimeout(d, run[n]) {
          assert Authored(wire, run[n].w, Vote(R.TimeoutMsg(slot, parent.value), voter, sig));
          HeardSigned(wire, d, run[n]);
        }
      case RestartTimeouts(cutoff) => ReloadSigned(wire, d, cutoff);
      case _ =>
    }
  }

  // ----- every write of a tally is an event of the network

  lemma BucketSigned(wire: set<S.Signed>, tallies: map<Message, Bucket>, bucket: Bucket, v: Vote, w: World)
    requires Authentic(wire, tallies) && Authored(wire, w, v) && Counts(w, v)
    requires bucket == (if v.msg in tallies then tallies[v.msg] else map[])[v.voter := v.sig]
    ensures forall a :: a in bucket ==> HasSigned(wire, a, v.msg)
  {
    hide HasSigned, Counts;
  }

  /** When the precommit tally of a node writes a finality record, the network model lets that node
      take that certificate, and both file it for the same block. */
  lemma RecordIsTakeCert(s: P.Setup, db: C.Db, key: (Address, nat) -> Option<nat>, wire: set<S.Signed>,
                         run: seq<D.Event>, v: Vote, order: seq<Address>, me: Address)
    requires AllAuthored(wire, run) && Authored(wire, NodeWorld(s, db, key), v) && v.msg.ballot.Precommit?
    requires S.WellFormed(db) && v.msg.slot.height !in db.certs
    requires var d, ev := D.Exec(run), D.Hear(NodeWorld(s, db, key), v, order);
             D.Takes(d, ev) && Certify(ev.w, v.msg, D.Joined(d, v), order).Some?
    ensures var h, b := v.msg.slot.height, v.msg.ballot.block;
            && S.Written(s, wire, db, S.TakeCert(me, h, v.msg.slot.round, b, v.msg.ballot.ep)) == C.StoreCert(db, h, b)
            && h in D.Exec(run + [D.Hear(NodeWorld(s, db, key), v, order)]).final
            && D.Exec(run + [D.Hear(NodeWorld(s, db, key), v, order)]).final[h].msg == v.msg
  {
    hide HasSigned, Enumerates, S.LocalSet, Counts, C.StoreCert, D.TalliesFrom;
    var w, d := NodeWorld(s, db, key), D.Exec(run);
    PrecommitsAuthentic(wire, run);
    BucketSigned(wire, d.tallies, D.Joined(d, v), v, w);
    SignedQuorum(s, wire, db, v.msg, D.Joined(d, v).Keys);
    assert (run + [D.Hear(w, v, order)])[..|run|] == run;
    D.CertifiesMessage(w, v.msg, D.Joined(d, v), order);
  }

  /** When the prevote tally forms a lock, the network model lets the node lock that block. */
  lemma LockIsFormPol(s: P.Setup, db: C.Db, key: (Address, nat) -> Option<nat>, wire: set<S.Signed>,
                      run: seq<R.PrevoteEvent>, v: Vote, order: seq<Address>, me: Address)
    requires PrevotesAuthored(wire, run) && Authored(wire, NodeWorld(s, db, key), v) && v.msg.ballot.Prevote?
    requires S.WellFormed(db) && v.msg.slot.height !in db.certs
    requires v.msg.slot.height in db.pols ==> db.pols[v.msg.slot.height].round < v.msg.slot.round
    requires var d, ev := R.Exec(run), R.Hear(NodeWorld(s, db, key), v, order);
             R.Takes(d, ev) && Certify(ev.w, v.msg, R.Bucketed(d.tallies, v), order).Some?
    ensures var h, r, b := v.msg.slot.height, v.msg.slot.round, v.msg.ballot.block;
            S.Written(s, wire, db, S.FormPol(me, h, r, b)) == db.(pols := db.pols[h := C.PolRow(r, b)])
  {
    hide HasSigned, Enumerates, S.LocalSet, Counts;
    var d := R.Exec(run);
    PrevotesAuthentic(wire, run);
    BucketSigned(wire, d.tallies, R.Bucketed(d.tallies, v), v, NodeWorld(s, db, key));
    SignedQuorum(s, wire, db, v.msg, R.Bucketed(d.tallies, v).Keys);
  }

  /** An aggregate that verifies has only parts that sign its message. */
  lemma PartsSign(w: World, msg: Message, bucket: Bucket, order: seq<Address>, a: Address)
    requires Enumerates(order, bucket.Keys) && Certify(w, msg, bucket, order).Some? && a in bucket
    ensures bucket[a].Signature? && bucket[a].msg == msg
  {
    hide IsQuorum;
    var sigs, each := Sigs(bucket, order), Each(msg, KnownKeys(w, msg.slot.height, order));
    assert a in Elements(order);
    var i :| 0 <= i < |order| && order[i] == a;
    assert sigs[i] in multiset(sigs);
    assert bucket[a] in multiset(each);
    assert forall x :: x in each ==> x.Signature? && x.msg == msg;
  }

  /** When the timeout tally certifies a round on the parent the node holds, the network model lets the
      node file that round certificate: votes over other parents would have spoiled the aggregate. */
  lemma RoundIsFormRoundCert(s: P.Setup, db: C.Db, key: (Address, nat) -> Option<nat>, wire: set<S.Signed>,
                             run: seq<R.TimeoutEvent>, ev: R.TimeoutEvent, me: Address)
    requires TimeoutsAuthored(wire, run + [ev]) && S.WellFormed(db) && ev.HearTimeout?
    requires ev.w == NodeWorld(s, db, key) && ev.parent == C.BlockAt(db, C.Below(ev.slot.height))
    requires R.CountsTimeout(R.TimedOut(run), ev)
    requires Certify(ev.w, R.TimeoutMsg(ev.slot, ev.parent.value),
                     R.SlotBucket(R.TimedOut(run), ev.slot, ev.voter, ev.sig), ev.order).Some?
    ensures S.Written(s, wire, db, S.FormRoundCert(me, ev.slot.height, ev.slot.round))
            == db.(roundCerts := db.roundCerts + {(ev.slot.height, ev.slot.round)})
  {
    hide HasSigned, Enumerates, S.LocalSet, Certify, C.StoreCert;
    var d, msg := R.TimedOut(run), R.TimeoutMsg(ev.slot, ev.parent.value);
    var bucket := R.SlotBucket(d, ev.slot, ev.voter, ev.sig);
    assert (run + [ev])[..|run|] == run && (run + [ev])[|run|] == ev;
    TimeoutsBefore(wire, run, ev);
    TimeoutsAuthentic(wire, run);
    forall a | a in bucket ensures HasSigned(wire, a, msg) {
      PartsSign(ev.w, msg, bucket, ev.order, a);
      if a != ev.voter {
        assert SignedTimeout(wire, ev.slot, a, d.tallies[ev.slot][a]);
      } else {
        assert Authored(wire, ev.w, Vote(msg, ev.voter, ev.sig));
      }
    }
    CertifyQuorum(ev.w, msg, bucket, ev.order);
    SignedQuorum(s, wire, db, msg, bucket.Keys);
  }

  lemma TimeoutsBefore(wire: set<S.Signed>, run: seq<R.TimeoutEvent>, ev: R.TimeoutEvent)
    requires TimeoutsAuthored(wire, run + [ev])
    ensures TimeoutsAuthored(wire, run)
    ensures ev.HearTimeout? && ev.parent.Some? ==>
              Authored(wire, ev.w, Vote(R.TimeoutMsg(ev.slot, ev.parent.value), ev.voter, ev.sig))
  {
    hide Authored;
    assert forall i :: 0 <= i < |run| ==> (run + [ev])[i] == run[i];
    assert (run + [ev])[|run|] == ev;
  }

  lemma CertifyQuorum(w: World, msg: Message, bucket: Bucket, order: seq<Address>)
    requires Enumerates(order, bucket.Keys) && Certify(w, msg, bucket, order).Some?
    ensures IsQuorum(w.members(msg.slot.height), bucket.Keys)
  {
  }

  // ----- reverts

  /** The locks and certified rounds the tallies know are the database's. */
  ghost predicate SameRows(db: C.Db, d: R.Prevotes, t: R.Timeouts) {
    && (forall k :: k in db.pols <==> k in d.pols)
    && (forall k :: k in db.pols && k in d.pols ==> db.pols[k].round == d.pols[k].msg.slot.round)
    && (forall slot: Slot :: (slot.height, slot.round) in db.roundCerts <==> slot in t.certs || slot in t.adopted)
  }

  /** One revert of the database is one revert of every tally: they go on agreeing on locks and certified
      rounds, and of the persisted precommits and timeout votes too exactly those survive whose height
      still has its parent. */
  lemma RevertsTogether(db: C.Db, c: D.Desk, d: R.Prevotes, t: R.Timeouts, h: nat)
    requires S.WellFormed(db) && db.watermark <= h < C.TipHeight(db) && SameRows(db, d, t)
    ensures var after := C.RevertTo(db, h);
            var c', d', t' := D.Reverted(c, h), R.Step(d, R.Revert(h)), R.StepTimeouts(t, R.RevertTimeouts(h));
            && SameRows(after, d', t')
            && (forall k :: k in c'.rows <==> k in c.rows && U.ParentHeld(after, k.slot.height))
            && (forall k :: k in t'.rows <==> k in t.rows && U.ParentHeld(after, k.0.height))
            && (forall k :: k in c'.rows ==> c'.rows[k] == c.rows[k])
            && (forall k :: k in t'.rows ==> t'.rows[k] == t.rows[k])
            && c'.tallies == c.tallies && d'.tallies == d.tallies && t'.tallies == t.tallies
  {
    U.RevertExact(db, h);
  }

  // ----- settled nodes read one set

  /** In a guarded run, whatever a node settled for `h` reads as the validators of `h`, every other node
      settled for `h` reads too, at any moment: between them votes and records carry over. */
  lemma SettledNodesAgree(s: P.Setup, init: S.Sys, evs: seq<S.Event>, h: nat, i: nat, u: Address, j: nat, v: Address)
    requires F.Guarded(s, init, evs) && i <= j <= |evs|
    requires u in S.Exec(s, init, evs[..i]).nodes && v in S.Exec(s, init, evs[..j]).nodes
    requires S.Settled(s, S.Exec(s, init, evs[..i]).nodes[u].db, h)
    requires S.Settled(s, S.Exec(s, init, evs[..j]).nodes[v].db, h)
    ensures S.LocalSet(s, S.Exec(s, init, evs[..i]).nodes[u].db, h)
            == S.LocalSet(s, S.Exec(s, init, evs[..j]).nodes[v].db, h)
  {
    hide S.Exec, S.DbOk, F.Guarded, S.Settled, S.LocalSet, P.Lawful, F.RecordOk;
    var before, now := S.Exec(s, init, evs[..i]), S.Exec(s, init, evs[..j]);
    assert evs[..j][..i] == evs[..i];
    F.GuardedPrefix(s, init, evs, i);
    F.GuardedPrefix(s, init, evs, j);
    F.ExecKeeps(s, init, evs[..i]);
    F.ExecKeeps(s, init, evs[..j]);
    F.ExecGrows(s, init, evs[..j], i);
    F.DbOkGrows(s, before.wire, now.wire, before.nodes[u].db);
    assert s.Valid() && S.Bounded(s, now.wire) by { GuardedGives(s, init, evs[..j]); }
    SettledPair(s, now, before.nodes[u].db, now.nodes[v].db, h);
  }

  lemma GuardedGives(s: P.Setup, init: S.Sys, evs: seq<S.Event>)
    requires F.Guarded(s, init, evs)
    ensures s.Valid() && S.Bounded(s, S.Exec(s, init, evs).wire)
  {
  }

  lemma SettledPair(s: P.Setup, sys: S.Sys, a: C.Db, b: C.Db, h: nat)
    requires s.Valid() && F.Inv(s, sys) && S.Bounded(s, sys.wire)
    requires S.DbOk(s, sys.wire, a) && S.DbOk(s, sys.wire, b) && S.Settled(s, a, h) && S.Settled(s, b, h)
    ensures S.LocalSet(s, a, h) == S.LocalSet(s, b, h)
  {
    hide S.DbOk, P.Lawful, F.RecordOk, S.WFinal;
    F.LocalIsFinal(s, sys.wire, a, h);
    F.LocalIsFinal(s, sys.wire, b, h);
    var f, g := Ancestor(F.Final(a), C.Below(h)), Ancestor(F.Final(b), C.Below(h));
    if Height(f) <= Height(g) {
      SettledFrom(s, sys, f, g);
    } else {
      SettledFrom(s, sys, g, f);
    }
  }

  lemma SettledFrom(s: P.Setup, sys: S.Sys, f: Block, g: Block)
    requires s.Valid() && F.Inv(s, sys) && S.Bounded(s, sys.wire)
    requires S.WFinal(s, sys.wire, f) && S.WFinal(s, sys.wire, g) && Height(f) <= Height(g)
    requires forall k: nat :: Height(f) < k <= Height(g) ==> !s.boundary(k)
    ensures s.powers(f) == s.powers(g)
  {
    hide P.Lawful, F.NodeOk, S.WFinal;
    F.FinalTrusted(s, sys.wire, g);
    F.FinalLogged(s, sys.log, sys.wire, f);
    F.FinalLogged(s, sys.log, sys.wire, g);
    P.OneChain(s, sys.log, g, f);
    F.SameSet(s, g, Height(f));
  }

  // ----- who is reported

  /** The execution proof an honest validator signs is a function of the block. */
  ghost predicate ProofOfBlock(wire: set<S.Signed>, v: Address, ep: Block -> nat) {
    forall x :: x in wire && x.vote.voter == v && x.vote.Precommit? ==> x.ep == ep(x.vote.block)
  }

  /** What an honest validator signed at one slot, of one kind, is one message. */
  lemma OneMessage(s: P.Setup, init: S.Sys, evs: seq<S.Event>, a: Address, m: Message, o: Message, ep: Block -> nat)
    requires S.Initial(s, init) && s.Honest(a) && m.slot == o.slot
    requires HasSigned(S.Exec(s, init, evs).wire, a, m) && HasSigned(S.Exec(s, init, evs).wire, a, o)
    requires || (m.ballot.Prevote? && o.ballot.Prevote?)
             || (m.ballot.Precommit? && o.ballot.Precommit? && ProofOfBlock(S.Exec(s, init, evs).wire, a, ep))
    ensures m == o
  {
    hide S.Exec, S.Initial;
    var wire := S.Exec(s, init, evs).wire;
    var x :| x in wire && x.vote.voter == a && SignedMessage(x) == m;
    var y :| y in wire && y.vote.voter == a && SignedMessage(y) == o;
    F.HonestNeverEquivocates(s, init, evs, x, y);
  }

  ghost predicate OnlyPrecommits(run: seq<D.Event>) {
    forall i :: 0 <= i < |run| && run[i].Hear? ==> run[i].vote.msg.ballot.Precommit?
  }

  ghost predicate OnlyPrevotes(run: seq<R.PrevoteEvent>) {
    forall i :: 0 <= i < |run| && run[i].Hear? ==> run[i].vote.msg.ballot.Prevote?
  }

  /** In no run of the network, and no run of any node's tally over it - pruned, restarted, under any
      validator sets - is a precommit of an honest validator reported as equivocation. */
  lemma HonestNeverReported(s: P.Setup, init: S.Sys, evs: seq<S.Event>, run: seq<D.Event>, w: World, v: Vote,
                            ep: Block -> nat)
    requires S.Initial(s, init) && s.Honest(v.voter) && OnlyPrecommits(run) && v.msg.ballot.Precommit?
    requires var wire := S.Exec(s, init, evs).wire;
             AllAuthored(wire, run) && Authored(wire, w, v) && ProofOfBlock(wire, v.voter, ep)
    ensures !D.Reports(w, D.Exec(run), v)
  {
    hide S.Exec, S.Initial, D.Exec, HasSigned, ProofOfBlock, Counts;
    var wire, tallies := S.Exec(s, init, evs).wire, D.Exec(run).tallies;
    if D.Reports(w, D.Exec(run), v) {
      var other :| D.Conflicts(tallies, v, other);
      PrecommitsAuthentic(wire, run);
      var i := D.ReportProves(run, w, v, other);
      OneMessage(s, init, evs, v.voter, v.msg, other, ep);
    }
  }

  /** Nor is a prevote. */
  lemma HonestPrevotesNeverReported(s: P.Setup, init: S.Sys, evs: seq<S.Event>, run: seq<R.PrevoteEvent>, w: World,
                                    v: Vote)
    requires S.Initial(s, init) && s.Honest(v.voter) && OnlyPrevotes(run) && v.msg.ballot.Prevote?
    requires var wire := S.Exec(s, init, evs).wire; PrevotesAuthored(wire, run) && Authored(wire, w, v)
    ensures !R.Reports(w, R.Exec(run), v)
  {
    hide S.Exec, S.Initial, R.Exec, HasSigned, Counts;
    var wire, tallies := S.Exec(s, init, evs).wire, R.Exec(run).tallies;
    if R.Reports(w, R.Exec(run), v) {
      var other :| D.Conflicts(tallies, v, other);
      PrevotesAuthentic(wire, run);
      var i := R.ReportProves(run, w, v, other);
      OneMessage(s, init, evs, v.voter, v.msg, other, _ => 0);
    }
  }

  // ----- round timeouts whose parent was replaced

  /** The bucket of a round-timeout tally, filed by slot alone: each vote verified when it came,
      against the parent held then. */
  ghost predicate TimeoutBucket(w: World, slot: Slot, bucket: Bucket, parents: map<Address, Block>) {
    && parents.Keys == bucket.Keys
    && forall a :: a in bucket ==> Counts(w, Vote(Message(slot, Timeout(parents[a])), a, bucket[a]))
  }

  /** A certified round needs a quorum of votes that all name the parent held now: one vote left over
      from a replaced parent blocks it until that voter votes again. */
  lemma StaleParentBlocks(w: World, slot: Slot, parent: Block, bucket: Bucket, parents: map<Address, Block>,
                          order: seq<Address>)
    requires TimeoutBucket(w, slot, bucket, parents) && Enumerates(order, bucket.Keys)
    ensures Certify(w, Message(slot, Timeout(parent)), bucket, order).Some? <==>
            IsQuorum(w.members(slot.height), bucket.Keys) && forall a :: a in bucket ==> parents[a] == parent
  {
    hide IsQuorum, KnownKeys;
    var msg := Message(slot, Timeout(parent));
    var keys := KnownKeys(w, slot.height, order);
    KnownKeysCount(w, slot.height, order);
    assert forall i :: 0 <= i < |order| ==> order[i] in Elements(order);
    if forall a :: a in bucket ==> parents[a] == parent {
      QuorumCertifies(w, msg, bucket, order);
    } else {
      var a :| a in bucket && parents[a] != parent;
      StaleVoteSpoils(msg, bucket, order, keys, a);
    }
  }

  /** An aggregate with a part that signs something else does not verify. */
  lemma StaleVoteSpoils(msg: Message, bucket: Bucket, order: seq<Address>, keys: seq<nat>, a: Address)
    requires Elements(order) == bucket.Keys && a in bucket && bucket[a].Signature? && bucket[a].msg != msg
    ensures !VerifyAggregate(msg, keys, multiset(Sigs(bucket, order)))
  {
    assert a in Elements(order);
    var i :| 0 <= i < |order| && order[i] == a;
    assert Sigs(bucket, order)[i] == bucket[a];
    assert forall x :: x in Each(msg, keys) ==> x.Signature? && x.msg == msg;
    assert bucket[a] !in multiset(Each(msg, keys));
  }

  /** The votes of a slot in any run of the timeout tally, restarts included, each with the parent it
      signs. */
  lemma BucketOfRun(w: World, run: seq<R.TimeoutEvent>, slot: Slot) returns (parents: map<Address, Block>)
    requires R.SteadyTimeouts(w, run, slot.height) && slot in R.TimedOut(run).tallies
    ensures TimeoutBucket(w, slot, R.TimedOut(run).tallies[slot], parents)
  {
    hide R.TimedOut, Holds;
    R.EveryRoundHolds(w, run, slot.height);
    var bucket := R.TimedOut(run).tallies[slot];
    forall a | a in bucket ensures bucket[a].Signature? && bucket[a].msg.ballot.Timeout? {
      assert R.SomeParent(w, slot, a, bucket[a]);
    }
    parents := map a | a in bucket :: bucket[a].msg.ballot.block;
    forall a | a in bucket ensures Counts(w, Vote(Message(slot, Timeout(parents[a])), a, bucket[a])) {
      assert R.SomeParent(w, slot, a, bucket[a]);
    }
  }

  // ----- a member that left before its vote was used

  /** Until a node has executed the epoch boundary below a height it reads the old set there. */
  function OldSet(): World {
    World(_ => map[1 := 3_333, 2 := 6_667], (a, _) => Some(a))
  }

  function NewSet(): World {
    World(_ => map[2 := 10_000], (a, _) => Some(a))
  }

  function Cast(voter: Address): Vote {
    var msg := Message(Slot(5, 0), Precommit(Genesis, 0));
    Vote(msg, voter, Signature(voter, msg))
  }

  /** Validator 1 heard under the old set, validator 2 under `w`. */
  ghost function TwoVotes(w: World): seq<D.Event> {
    [D.Hear(OldSet(), Cast(1), [1]), D.Hear(w, Cast(2), [1, 2])]
  }

  /** A leaving validator's vote, counted before the boundary is executed, ends up in a finality
      record that the node itself and every other node that has executed it refuse. */
  lemma StaleMemberRefused()
    ensures var d := D.Exec(TwoVotes(NewSet())); 5 in d.final && !Holds(NewSet(), d.final[5])
  {
    PowerRemove(NewSet().members(5), {1, 2}, 2);
    BothHeard(NewSet());
  }

  /** And a record the writer itself accepts, the boundary not yet executed, is refused by every node
      that has executed it. */
  lemma StaleWriterRefused()
    ensures var d := D.Exec(TwoVotes(OldSet()));
            5 in d.final && Holds(OldSet(), d.final[5]) && !Holds(NewSet(), d.final[5])
  {
    var members := OldSet().members(5);
    PowerRemove(members, {1, 2}, 2);
    BothHeard(OldSet());
  }

  /** Both votes counted, whichever set the second is heard under, as long as it makes a quorum. */
  lemma BothHeard(w: World)
    requires w == OldSet() || w == NewSet()
    requires IsQuorum(w.members(5), {1, 2})
    ensures var d := D.Exec(TwoVotes(w));
            5 in d.final && !Holds(NewSet(), d.final[5]) && (w == OldSet() ==> Holds(OldSet(), d.final[5]))
  {
    hide Holds, IsQuorum;
    EarlyVote();
    var first, msg, order := D.Counted(D.EMPTY, Cast(1)), Cast(1).msg, [1, 2];
    var bucket := D.Joined(first, Cast(2));
    assert TwoVotes(w)[..1] == [D.Hear(OldSet(), Cast(1), [1])] && TwoVotes(w)[..1][..0] == [];
    assert Elements(order) == bucket.Keys == {1, 2};
    KnownKeysCount(w, 5, order);
    assert Sigs(bucket, order) == Each(msg, KnownKeys(w, 5, order));
    WrittenHoldsIff(w, NewSet(), msg, bucket, order);
    assert 1 in bucket && 1 !in NewSet().members(5);
    if w == OldSet() {
      SameWorldHoldsIff(w, OldSet(), msg, bucket, order);
    }
  }

  lemma EarlyVote()
    ensures Enumerates([1], D.Joined(D.EMPTY, Cast(1)).Keys)
    ensures D.Counted(D.EMPTY, Cast(1)) == D.Heard(OldSet(), D.EMPTY, Cast(1), [1])
  {
    var members := OldSet().members(5);
    assert Elements([1]) == {1} == D.Joined(D.EMPTY, Cast(1)).Keys;
    PowerRemove(members, {1}, 1);
    assert {1} - {1} == {};
  }
}

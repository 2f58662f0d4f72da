/** Joining from a snapshot (arxd/network/src/snapshot_sync.rs, core/storage/src/snapshot.rs): the
    server's chunking, and the client that imports only what its operator's anchor covers. Hashes are
    modelled by what they name. */
module SnapshotSync {
  import opened TextFormat
  import opened Blocks
  import opened Tally
  import opened SnapshotCertificate
  import opened SnapshotImport
  import T = StateTrie

  // ----- the server: chunks

  const SNAPSHOT_CHUNK_BYTES: nat := 524_288

  function Size(r: Row): nat {
    |r.cf| + |r.key| + |r.value| + 27
  }

  function Bytes(rows: seq<Row>): nat {
    if rows == [] then 0 else Bytes(rows[..|rows| - 1]) + Size(rows[|rows| - 1])
  }

  /** Rows `ranges[i].0` up to `ranges[i].1`, for each range, laid end to end from `from` to `to`. */
  predicate Tiles(ranges: seq<(nat, nat)>, from: nat, to: nat) {
    if ranges == [] then from == to
    else
      var n := |ranges| - 1;
      Tiles(ranges[..n], from, ranges[n].0) && ranges[n].0 < ranges[n].1 == to
  }

  /** No range is over the limit unless it is a single row. */
  predicate Fit(rows: seq<Row>, ranges: seq<(nat, nat)>) {
    forall i :: 0 <= i < |ranges| ==>
      ranges[i].0 <= ranges[i].1 <= |rows| &&
      (ranges[i].0 + 1 == ranges[i].1 || Bytes(rows[ranges[i].0..ranges[i].1]) <= SNAPSHOT_CHUNK_BYTES)
  }

  /** No range but the last could have taken the row after it as well. */
  predicate Full(rows: seq<Row>, ranges: seq<(nat, nat)>) {
    forall i :: 0 <= i < |ranges| - 1 ==>
      ranges[i].0 <= ranges[i].1 < |rows| && Bytes(rows[ranges[i].0..ranges[i].1 + 1]) > SNAPSHOT_CHUNK_BYTES
  }

  /** Every range so far could not, the one before `to` included. */
  predicate FullTo(rows: seq<Row>, ranges: seq<(nat, nat)>, to: nat) {
    forall i :: 0 <= i < |ranges| ==>
      ranges[i].0 <= ranges[i].1 <= to && ranges[i].1 < |rows|
      && Bytes(rows[ranges[i].0..ranges[i].1 + 1]) > SNAPSHOT_CHUNK_BYTES
  }

  lemma FullOn(rows: seq<Row>, ranges: seq<(nat, nat)>, from: nat, to: nat)
    requires FullTo(rows, ranges, from) && from < to < |rows|
    requires Bytes(rows[from..to + 1]) > SNAPSHOT_CHUNK_BYTES
    ensures FullTo(rows, ranges + [(from, to)], to)
  {
  }

  lemma FullLast(rows: seq<Row>, ranges: seq<(nat, nat)>, from: nat)
    requires FullTo(rows, ranges, from) && from <= |rows|
    ensures Full(rows, ranges) && Full(rows, ranges + [(from, |rows|)])
  {
  }

  lemma TilesOn(ranges: seq<(nat, nat)>, from: nat, mid: nat, to: nat)
    requires Tiles(ranges, from, mid) && mid < to
    ensures Tiles(ranges + [(mid, to)], from, to)
  {
    assert (ranges + [(mid, to)])[..|ranges|] == ranges;
  }

  lemma FitOn(rows: seq<Row>, ranges: seq<(nat, nat)>, from: nat, to: nat)
    requires Fit(rows, ranges) && from < to <= |rows|
    requires from + 1 == to || Bytes(rows[from..to]) <= SNAPSHOT_CHUNK_BYTES
    ensures Fit(rows, ranges + [(from, to)])
  {
  }

  lemma BytesOn(rows: seq<Row>, from: nat, to: nat)
    requires from <= to < |rows|
    ensures Bytes(rows[from..to + 1]) == Bytes(rows[from..to]) + Size(rows[to])
  {
    assert rows[from..to + 1][..to - from] == rows[from..to];
  }

  lemma NoBytes(rows: seq<Row>, i: nat)
    requires i <= |rows|
    ensures Bytes(rows[i..i]) == 0
  {
  }

  /** `snapshot_chunks`: consecutive ranges that cover every row once, fit the message limit, and are filled as
      far as it allows. */
  method SnapshotChunks(rows: seq<Row>) returns (ranges: seq<(nat, nat)>)
    ensures Tiles(ranges, 0, |rows|) && Fit(rows, ranges) && Full(rows, ranges)
    ensures rows != [] ==> ranges != []
  {
    hide Tiles, Fit, Bytes, Size, Full, FullTo;
    ranges := [];
    var start, bytes := 0, 0;
    NoChunks(rows);
    NoBytes(rows, 0);
    for i := 0 to |rows|
      invariant start <= i && (start == i ==> i == 0)
      invariant Tiles(ranges, 0, start) && Fit(rows, ranges) && FullTo(rows, ranges, start)
      invariant bytes == Bytes(rows[start..i])
      invariant start + 1 < i ==> bytes <= SNAPSHOT_CHUNK_BYTES
    {
      var size := Size(rows[i]);
      if bytes + size > SNAPSHOT_CHUNK_BYTES && i > start {
        TilesOn(ranges, 0, start, i);
        FitOn(rows, ranges, start, i);
        BytesOn(rows, start, i);
        FullOn(rows, ranges, start, i);
        ranges := ranges + [(start, i)];
        start, bytes := i, 0;
        NoBytes(rows, i);
      }
      BytesOn(rows, start, i);
      bytes := bytes + size;
    }
    FullLast(rows, ranges, start);
    if start < |rows| {
      TilesOn(ranges, 0, start, |rows|);
      FitOn(rows, ranges, start, |rows|);
      ranges := ranges + [(start, |rows|)];
    }
  }

  lemma NoChunks(rows: seq<Row>)
    ensures Tiles([], 0, 0) && Fit(rows, []) && FullTo(rows, [], 0)
  {
  }

  /** The tiles one by one. */
  lemma {:induction false} TileAt(ranges: seq<(nat, nat)>, to: nat, k: nat)
    requires Tiles(ranges, 0, to) && k < |ranges|
    ensures ranges[k].0 == (if k == 0 then 0 else ranges[k - 1].1) && ranges[k].0 < ranges[k].1 <= to
    ensures k == |ranges| - 1 <==> ranges[k].1 == to
    decreases |ranges|
  {
    var n := |ranges| - 1;
    if k < n {
      TileAt(ranges[..n], ranges[n].0, k);
    } else if n > 0 {
      TileAt(ranges[..n], ranges[n].0, n - 1);
    } else {
      assert ranges[..n] == [];
    }
  }

  lemma {:induction false} BytesGrow(rows: seq<Row>, from: nat, mid: nat, end: nat)
    requires from <= mid <= end <= |rows|
    ensures Bytes(rows[from..mid]) <= Bytes(rows[from..end])
    decreases end
  {
    if mid < end {
      BytesGrow(rows, from, mid, end - 1);
      BytesOn(rows, from, end - 1);
    }
  }

  /** One range ends where the other does: the shorter one could have taken the next row. */
  lemma SameEnd(rows: seq<Row>, a: seq<(nat, nat)>, b: seq<(nat, nat)>, k: nat)
    requires Tiles(a, 0, |rows|) && Full(rows, a) && Tiles(b, 0, |rows|) && Fit(rows, b)
    requires k < |a| && k < |b| && a[k].0 == b[k].0
    ensures a[k].1 >= b[k].1
  {
    hide Tiles, Bytes;
    TileAt(a, |rows|, k);
    TileAt(b, |rows|, k);
    if a[k].1 < b[k].1 {
      BytesGrow(rows, a[k].0, a[k].1 + 1, b[k].1);
    }
  }

  /** Ranges that agree so far go on together. */
  lemma CutsOn(rows: seq<Row>, a: seq<(nat, nat)>, b: seq<(nat, nat)>, k: nat)
    requires Tiles(a, 0, |rows|) && Tiles(b, 0, |rows|) && k < |a| && k <= |b| && a[..k] == b[..k]
    ensures k < |b| && a[k].0 == b[k].0
  {
    TileAt(a, |rows|, k);
    assert k > 0 ==> a[..k][k - 1] == b[..k][k - 1];
    if k > 0 {
      TileAt(b, |rows|, k - 1);
    }
    if k < |b| {
      TileAt(b, |rows|, k);
    }
  }

  /** Every server of one state cuts it the same way: the chunk count and hashes of a manifest mean the same to all
      of them. */
  lemma {:induction false} OneCut(rows: seq<Row>, a: seq<(nat, nat)>, b: seq<(nat, nat)>, k: nat)
    requires Tiles(a, 0, |rows|) && Fit(rows, a) && Full(rows, a)
    requires Tiles(b, 0, |rows|) && Fit(rows, b) && Full(rows, b)
    requires k <= |a|
    ensures k <= |b| && a[..k] == b[..k] && (k == |a| ==> a == b)
    decreases k
  {
    hide Tiles, Fit, Full;
    if k > 0 {
      OneCut(rows, a, b, k - 1);
      CutsOn(rows, a, b, k - 1);
      SameEnd(rows, a, b, k - 1);
      SameEnd(rows, b, a, k - 1);
      assert a[..k] == a[..k - 1] + [a[k - 1]] && b[..k] == b[..k - 1] + [b[k - 1]];
    }
    if k == |a| {
      if k < |b| {
        CutsOn(rows, b, a, k);
      }
      assert a[..k] == a && b[..k] == b;
    }
  }

  /** The rows of each range. */
  function Cut(rows: seq<Row>, ranges: seq<(nat, nat)>): seq<seq<Row>>
    requires Fit(rows, ranges)
  {
    seq(|ranges|, i requires 0 <= i < |ranges| => rows[ranges[i].0..ranges[i].1])
  }

  function Concat(chunks: seq<seq<Row>>): seq<Row> {
    if chunks == [] then [] else Concat(chunks[..|chunks| - 1]) + chunks[|chunks| - 1]
  }

  /** Put back in order, the chunks are the state they were cut from. */
  lemma {:induction false} ChunksWhole(rows: seq<Row>, ranges: seq<(nat, nat)>, to: nat)
    requires Tiles(ranges, 0, to) && Fit(rows, ranges) && to <= |rows|
    ensures Concat(Cut(rows, ranges)) == rows[..to]
    decreases |ranges|
  {
    if ranges != [] {
      var n := |ranges| - 1;
      assert Cut(rows, ranges)[..n] == Cut(rows, ranges[..n]);
      ChunksWhole(rows, ranges[..n], ranges[n].0);
      assert rows[..ranges[n].0] + rows[ranges[n].0..to] == rows[..to];
    }
  }

  // ----- the client

  type Peer = nat

  /** The state root in a block's header, the path of a key, how stored values decode, the genesis hash votes
      are signed under, and the genesis row of the database the node starts with. */
  datatype Rules = Rules(root: Block -> T.Hash, hash: string -> T.KeyHash, codec: Codec, home: seq<nat>,
                         genesis: Option<string>)

  /** `verify_certificate_against`. */
  ghost predicate Certifies(rules: Rules, rows: seq<Row>, certificate: Certificate, block: Block) {
    Fits(rules.home, ReadRows(rules.codec, rows), certificate, block)
  }

  /** The operator's anchor. */
  datatype Trust = Trust(height: nat, block: Block)

  /** `block` and `certificate` are absent when their bytes do not decode. */
  datatype Manifest = Manifest(height: nat, blockHash: Block, stateRoot: T.Hash, chunks: nat,
                               chunkHashes: seq<seq<Row>>,
                               block: Option<Block>, certificate: Option<Certificate>)

  /** The client, and the genesis row of the database it imports into. */
  datatype Client = Client(
    manifest: Option<Manifest>, block: Option<Block>, certificate: Option<Certificate>,
    chunks: seq<Option<seq<Row>>>, peer: Option<Peer>, tried: set<Peer>, genesis: Option<string>)

  function Start(rules: Rules): Client {
    Client(None, None, None, [], None, {}, rules.genesis)
  }

  /** `Crash` is an index outside `chunks`. */
  datatype Step = AskManifest | AskChunk(index: nat) | Done | Retry | Idle | Crash

  /** One `import_snapshot` call. */
  datatype Import = Import(rows: seq<Row>, block: Block, certificate: Certificate)

  /** How the import ended: written, refused, or a storage error. */
  datatype Imported = Written | Refused | Broken

  /** The database behind the import: working, failing when read, failing at the first write, which wipes it,
      failing at the second, which fills it, or one that already holds a chain. */
  datatype Storage = Working | Unreadable | Unwipable | Unwritable | Occupied

  predicate Admissible(rules: Rules, genesis: Option<string>, rows: seq<Row>, certificate: Certificate, block: Block) {
    Admits(rules.hash, rules.root(block), genesis, rows, certificate, block)
  }

  /** `import_snapshot` into a database whose genesis row is `genesis`. */
  function Outcome(rules: Rules, genesis: Option<string>, call: Import, disk: Storage): Imported {
    if disk.Unreadable? then Broken
    else if disk.Occupied? || !Admissible(rules, genesis, call.rows, call.certificate, call.block) then Refused
    else if disk.Unwipable? || disk.Unwritable? then Broken
    else Written
  }

  /** The genesis row it leaves: the wipe takes it, and only the second write brings it back. */
  function GenesisAfter(rules: Rules, genesis: Option<string>, call: Import, disk: Storage): Option<string> {
    if disk.Unwritable? && Admissible(rules, genesis, call.rows, call.certificate, call.block) then None else genesis
  }

  datatype Reply = Reply(client: Client, step: Step, called: Option<Import>)

  /** `retry`. */
  function GivenUp(c: Client): Reply {
    Reply(Client(None, None, None, [], None, c.tried, c.genesis), Retry, None)
  }

  /** `on_peer_tip`. */
  function OnPeerTip(trust: Trust, c: Client, peer: Peer, tip: nat): Reply {
    if c.peer.Some? || tip < trust.height || peer in c.tried then Reply(c, Idle, None)
    else Reply(c.(tried := c.tried + {peer}, peer := Some(peer)), AskManifest, None)
  }

  /** Everything the manifest says is checked against the block the operator trusts. */
  predicate Anchored(trust: Trust, rules: Rules, m: Manifest) {
    && m.height == trust.height && m.blockHash == trust.block
    && m.block == Some(trust.block) && m.certificate.Some? && rules.root(trust.block) == m.stateRoot
    && |m.chunkHashes| == m.chunks && m.chunks != 0
  }

  /** `on_manifest`. */
  function OnManifest(trust: Trust, rules: Rules, c: Client, peer: Peer, m: Option<Manifest>): Reply {
    if c.peer != Some(peer) then Reply(c, Idle, None)
    else if m.None? || !Anchored(trust, rules, m.value) then GivenUp(c)
    else
      Reply(c.(chunks := seq(m.value.chunks, _ => None), manifest := m, block := m.value.block,
               certificate := m.value.certificate),
            AskChunk(0), None)
  }

  function FirstMissing(chunks: seq<Option<seq<Row>>>, i: nat): (f: Option<nat>)
    requires i <= |chunks|
    ensures f.Some? ==> i <= f.value < |chunks| && chunks[f.value].None?
    ensures f.None? ==> forall j :: i <= j < |chunks| ==> chunks[j].Some?
    decreases |chunks| - i
  {
    if i == |chunks| then None else if chunks[i].None? then Some(i) else FirstMissing(chunks, i + 1)
  }

  /** The chunks there are, in index order. */
  function Flat(chunks: seq<Option<seq<Row>>>): seq<Row> {
    if chunks == [] then []
    else
      var last := chunks[|chunks| - 1];
      Flat(chunks[..|chunks| - 1]) + if last.Some? then last.value else []
  }

  /** `on_chunk`. */
  ghost function OnChunk(trust: Trust, rules: Rules, c: Client, peer: Peer, height: nat, index: nat,
                         rows: Option<seq<Row>>, disk: Storage): Reply
  {
    if c.peer != Some(peer) || height != trust.height || c.manifest.None? then Reply(c, Idle, None)
    else if rows.None? then GivenUp(c)
    else if index >= |c.manifest.value.chunkHashes| then Reply(c, Idle, None)
    else if rows.value != c.manifest.value.chunkHashes[index] then GivenUp(c)
    else if index >= |c.chunks| then Reply(c, Crash, None)
    else
      var chunks := c.chunks[index := rows];
      var next := FirstMissing(chunks, 0);
      if next.Some? then Reply(c.(chunks := chunks), AskChunk(next.value), None)
      else
        var spent := c.(chunks := [], block := None, certificate := None);
        if c.block.None? || c.certificate.None? then Reply(spent, Idle, None)
        else if !Certifies(rules, Flat(chunks), c.certificate.value, c.block.value) then GivenUp(c)
        else
          var call := Import(Flat(chunks), c.block.value, c.certificate.value);
          match Outcome(rules, c.genesis, call, disk)
          case Written => Reply(spent, Done, Some(call))
          case Refused => GivenUp(c).(called := Some(call))
          case Broken => Reply(spent.(genesis := GenesisAfter(rules, c.genesis, call, disk)), Retry, Some(call))
  }

  // ----- every run

  datatype Event =
    | Tip(peer: Peer, tip: nat)
    | Offer(peer: Peer, manifest: Option<Manifest>)
    | Chunk(peer: Peer, height: nat, index: nat, rows: Option<seq<Row>>, disk: Storage)

  ghost function Next(trust: Trust, rules: Rules, c: Client, ev: Event): Reply {
    match ev
    case Tip(peer, tip) => OnPeerTip(trust, c, peer, tip)
    case Offer(peer, m) => OnManifest(trust, rules, c, peer, m)
    case Chunk(peer, height, index, rows, disk) => OnChunk(trust, rules, c, peer, height, index, rows, disk)
  }

  /** The client after `run`. */
  ghost function After(trust: Trust, rules: Rules, run: seq<Event>): Client {
    if run == [] then Start(rules)
    else Next(trust, rules, After(trust, rules, run[..|run| - 1]), run[|run| - 1]).client
  }

  /** A chunk held is the manifest's chunk of its index; block and certificate are the manifest's;
      once they are used up no chunk is held. */
  ghost predicate Sound(trust: Trust, rules: Rules, c: Client) {
    && (c.manifest.Some? ==> Anchored(trust, rules, c.manifest.value) && c.peer.Some?)
    && (c.manifest.None? ==> c.block.None? && c.chunks == [])
    && (c.block.Some? <==> c.certificate.Some?)
    && (c.block.Some? ==> && c.block == c.manifest.value.block && c.certificate == c.manifest.value.certificate
                          && |c.chunks| == |c.manifest.value.chunkHashes|)
    && (c.block.None? ==> c.chunks == [])
    && forall i :: 0 <= i < |c.chunks| && c.chunks[i].Some? ==> c.chunks[i].value == c.manifest.value.chunkHashes[i]
  }

  lemma NextSound(trust: Trust, rules: Rules, c: Client, ev: Event)
    requires Sound(trust, rules, c)
    ensures Sound(trust, rules, Next(trust, rules, c, ev).client)
  {
    hide Flat, Certifies, Anchored, Admissible;
    if ev.Offer? {
      OfferSound(trust, rules, c, ev.peer, ev.manifest);
    }
  }

  lemma OfferSound(trust: Trust, rules: Rules, c: Client, peer: Peer, m: Option<Manifest>)
    requires Sound(trust, rules, c)
    ensures Sound(trust, rules, OnManifest(trust, rules, c, peer, m).client)
  {
  }

  lemma {:induction false} AfterSound(trust: Trust, rules: Rules, run: seq<Event>)
    ensures Sound(trust, rules, After(trust, rules, run))
  {
    hide Next;
    if run != [] {
      AfterSound(trust, rules, run[..|run| - 1]);
      NextSound(trust, rules, After(trust, rules, run[..|run| - 1]), run[|run| - 1]);
    }
  }

  lemma {:induction false} FlatConcat(chunks: seq<Option<seq<Row>>>, hashes: seq<seq<Row>>)
    requires |chunks| == |hashes| && forall i :: 0 <= i < |chunks| ==> chunks[i] == Some(hashes[i])
    ensures Flat(chunks) == Concat(hashes)
  {
    if chunks != [] {
      FlatConcat(chunks[..|chunks| - 1], hashes[..|hashes| - 1]);
    }
  }

  /** A peer is asked for the manifest only if no earlier peer tip of the run made the client ask it. */
  lemma AskedOnce(trust: Trust, rules: Rules, run: seq<Event>, i: nat, ev: Event)
    requires i < |run| && ev.Tip? && run[i].Tip? && run[i].peer == ev.peer
    requires Next(trust, rules, After(trust, rules, run[..i]), run[i]).step.AskManifest?
    ensures !Next(trust, rules, After(trust, rules, run), ev).step.AskManifest?
  {
    assert run[..i + 1][..i] == run[..i];
    assert ev.peer in After(trust, rules, run[..i + 1]).tried;
    TriedKept(trust, rules, run, i + 1);
  }

  lemma NextTried(trust: Trust, rules: Rules, c: Client, ev: Event)
    ensures c.tried <= Next(trust, rules, c, ev).client.tried
  {
    hide Flat, Certifies, Anchored, Admissible;
  }

  lemma {:induction false} TriedKept(trust: Trust, rules: Rules, run: seq<Event>, i: nat)
    requires i <= |run|
    ensures After(trust, rules, run[..i]).tried <= After(trust, rules, run).tried
    decreases |run|
  {
    hide Next;
    if i == |run| {
      assert run[..i] == run;
    } else {
      var n := |run| - 1;
      assert run[..n][..i] == run[..i];
      TriedKept(trust, rules, run[..n], i);
      NextTried(trust, rules, After(trust, rules, run[..n]), run[n]);
    }
  }

  /** Every import, in every run, is of the trusted block, with a certificate checked against the very
      rows imported, and those rows are all the chunks of one anchored manifest in index order, from
      the peer that offered it. */
  lemma ImportsAnchored(trust: Trust, rules: Rules, run: seq<Event>, ev: Event)
    requires Next(trust, rules, After(trust, rules, run), ev).called.Some?
    ensures var c := After(trust, rules, run);
            var call := Next(trust, rules, c, ev).called.value;
            && call.block == trust.block && Certifies(rules, call.rows, call.certificate, call.block)
            && c.manifest.Some? && c.manifest.value.height == trust.height && c.manifest.value.blockHash == trust.block
            && c.manifest.value.block == Some(trust.block) && c.manifest.value.stateRoot == rules.root(trust.block)
            && |c.manifest.value.chunkHashes| == c.manifest.value.chunks > 0
            && call.rows == Concat(c.manifest.value.chunkHashes)
            && Some(call.certificate) == c.manifest.value.certificate
            && ev.Chunk? && c.peer == Some(ev.peer)
            && (Next(trust, rules, c, ev).step.Done? ==>
                  Admissible(rules, c.genesis, call.rows, call.certificate, call.block))
  {
    hide After, Certifies, Admissible;
    var c := After(trust, rules, run);
    AfterSound(trust, rules, run);
    FlatConcat(c.chunks[ev.index := ev.rows], c.manifest.value.chunkHashes);
  }

  /** What the client asks for, in every run: a manifest exactly from a peer not asked before that has reached the
      trusted height, while it follows nobody; the chunks of a manifest exactly when the peer it follows offers
      one that names the trusted block in every field; and always the first chunk it lacks. */
  lemma AsksExactly(trust: Trust, rules: Rules, run: seq<Event>, ev: Event)
    ensures var c := After(trust, rules, run);
            var r := Next(trust, rules, c, ev);
            && (r.step.AskManifest? <==>
                  ev.Tip? && c.peer.None? && ev.tip >= trust.height && ev.peer !in c.tried)
            && (r.step.AskManifest? || r.step.AskChunk? ==> r.client.peer == Some(ev.peer))
            && (ev.Offer? ==>
                  (r.step.AskChunk? <==>
                     && c.peer == Some(ev.peer) && ev.manifest.Some? && ev.manifest.value.height == trust.height
                     && ev.manifest.value.blockHash == trust.block && ev.manifest.value.block == Some(trust.block)
                     && ev.manifest.value.stateRoot == rules.root(trust.block) && ev.manifest.value.certificate.Some?
                     && |ev.manifest.value.chunkHashes| == ev.manifest.value.chunks > 0))
            && (r.step.AskChunk? ==>
                  && r.step.index < |r.client.chunks| && r.client.chunks[r.step.index].None?
                  && forall j :: 0 <= j < r.step.index ==> r.client.chunks[j].Some?)
  {
    hide After, Flat, Certifies, Admissible;
    var c := After(trust, rules, run);
    if ev.Chunk? && ev.index < |c.chunks| {
      FirstIsFirst(c.chunks[ev.index := ev.rows], 0);
    }
  }

  lemma {:induction false} FirstIsFirst(chunks: seq<Option<seq<Row>>>, i: nat)
    requires i <= |chunks|
    ensures FirstMissing(chunks, i).Some? ==> forall j :: i <= j < FirstMissing(chunks, i).value ==> chunks[j].Some?
    decreases |chunks| - i
  {
    if i < |chunks| && chunks[i].Some? {
      FirstIsFirst(chunks, i + 1);
    }
  }

  /** When it imports, in every run: exactly when the peer it follows sends the one chunk still missing and the
      certificate passes against all the manifest's rows; and the import is done exactly when the rows are
      admitted and the database works. */
  lemma ImportsIff(trust: Trust, rules: Rules, run: seq<Event>, ev: Event)
    ensures var c := After(trust, rules, run);
            var r := Next(trust, rules, c, ev);
            && (r.called.Some? <==>
                  && ev.Chunk? && c.peer == Some(ev.peer) && ev.height == trust.height
                  && c.manifest.Some? && c.block.Some? && c.certificate.Some? && ev.index < |c.chunks|
                  && ev.index < |c.manifest.value.chunkHashes|
                  && ev.rows == Some(c.manifest.value.chunkHashes[ev.index])
                  && (forall j :: 0 <= j < |c.chunks| && j != ev.index ==> c.chunks[j].Some?)
                  && Certifies(rules, Concat(c.manifest.value.chunkHashes), c.certificate.value, trust.block))
            && (r.step.Done? <==>
                  && r.called.Some? && ev.disk.Working?
                  && Admissible(rules, c.genesis, r.called.value.rows, r.called.value.certificate, trust.block))
  {
    hide After, Certifies, Admissible, Flat;
    var c := After(trust, rules, run);
    AfterSound(trust, rules, run);
    if ev.Chunk? && c.block.Some? && ev.index < |c.chunks| && ev.rows == Some(c.manifest.value.chunkHashes[ev.index]) {
      var chunks := c.chunks[ev.index := ev.rows];
      assert chunks[ev.index].Some? && forall j :: 0 <= j < |chunks| && j != ev.index ==> chunks[j] == c.chunks[j];
      if FirstMissing(chunks, 0).None? {
        FlatConcat(chunks, c.manifest.value.chunkHashes);
      }
    }
  }

  /** After a finished download the database reads, for a state key, what the trusted block's header commits to
      exactly when the key's last row and its last row in its own column carry one value - always so for rows
      that list every key once, in its own column. */
  lemma DoneIsState(trust: Trust, rules: Rules, run: seq<Event>, ev: Event, m: T.State, key: string)
    requires Next(trust, rules, After(trust, rules, run), ev).step.Done? && rules.root(trust.block) == T.RootOf(m)
    requires Next(trust, rules, After(trust, rules, run), ev).called.Some?
    requires var call := Next(trust, rules, After(trust, rules, run), ev).called.value;
             IsStateKey(key) && Alone(rules.hash, call.rows, key)
    ensures var rows := Next(trust, rules, After(trust, rules, run), ev).called.value.rows;
            && (T.Lookup(m, rules.hash(key)) == Encoded(Readable(rows, key)) <==> WellFiled(rows, key))
            && (Listed(rows) ==> T.Lookup(m, rules.hash(key)) == Encoded(Readable(rows, key)))
  {
    hide After, Next, Alone, IsStateKey, Readable, WellFiled, Listed;
    ImportsAnchored(trust, rules, run, ev);
    var c, call := After(trust, rules, run), Next(trust, rules, After(trust, rules, run), ev).called.value;
    ImportIsState(rules.hash, c.genesis, call.rows, call.certificate, call.block, m, key);
    if Listed(call.rows) {
      ListedAgrees(call.rows, key);
    }
  }

  /** The client reads outside its chunk list exactly when a storage error has used up the download
      and the same peer re-sends a chunk that checks out. */
  lemma CrashesIff(trust: Trust, rules: Rules, run: seq<Event>, ev: Event)
    ensures var c := After(trust, rules, run);
            Next(trust, rules, c, ev).step.Crash? <==>
            && ev.Chunk? && c.manifest.Some? && c.block.None? && c.peer == Some(ev.peer) && ev.height == trust.height
            && ev.index < |c.manifest.value.chunkHashes| && ev.rows == Some(c.manifest.value.chunkHashes[ev.index])
  {
    hide After, Flat;
    AfterSound(trust, rules, run);
  }

  /** What an honest peer offers for the chunks `cut`. */
  function Offered(trust: Trust, rules: Rules, cut: seq<seq<Row>>, certificate: Certificate): Manifest {
    Manifest(trust.height, trust.block, rules.root(trust.block), |cut|, cut, Some(trust.block), Some(certificate))
  }

  /** Any honest snapshot does it: the download completes, the import fails on a storage error, and the
      peer's only chunk arrives once more. */
  lemma RepeatedChunkCrashes(trust: Trust, rules: Rules, rows: seq<Row>, certificate: Certificate, peer: Peer)
    requires Certifies(rules, rows, certificate, trust.block)
    requires Admissible(rules, rules.genesis, rows, certificate, trust.block)
    ensures var offer := Offered(trust, rules, [rows], certificate);
            var chunk := Chunk(peer, trust.height, 0, Some(rows), Unwritable);
            var run := [Tip(peer, trust.height), Offer(peer, Some(offer)), chunk];
            Next(trust, rules, After(trust, rules, run), chunk).step.Crash?
  {
    hide Certifies, Admissible;
    var offer := Offered(trust, rules, [rows], certificate);
    var chunk := Chunk(peer, trust.height, 0, Some(rows), Unwritable);
    FailedWrite(trust, rules, rows, certificate, peer);
    CrashesIff(trust, rules, [Tip(peer, trust.height), Offer(peer, Some(offer)), chunk], chunk);
  }

  /** Where a download of one chunk stands after the import's second write failed. */
  lemma FailedWrite(trust: Trust, rules: Rules, rows: seq<Row>, certificate: Certificate, peer: Peer)
    requires Certifies(rules, rows, certificate, trust.block)
    requires Admissible(rules, rules.genesis, rows, certificate, trust.block)
    ensures var offer := Offered(trust, rules, [rows], certificate);
            var chunk := Chunk(peer, trust.height, 0, Some(rows), Unwritable);
            After(trust, rules, [Tip(peer, trust.height), Offer(peer, Some(offer)), chunk])
            == Client(Some(offer), None, None, [], Some(peer), {peer}, None)
  {
    hide Certifies, Admissible;
    var offer := Offered(trust, rules, [rows], certificate);
    var chunk := Chunk(peer, trust.height, 0, Some(rows), Unwritable);
    var one, two := [Tip(peer, trust.height)], [Tip(peer, trust.height), Offer(peer, Some(offer))];
    var three := [Tip(peer, trust.height), Offer(peer, Some(offer)), chunk];
    assert one[..0] == [] && two[..1] == one && three[..2] == two;
    assert After(trust, rules, one) == Start(rules).(peer := Some(peer), tried := {peer});
    assert Anchored(trust, rules, offer);
    var c := After(trust, rules, two);
    assert c.chunks == [None];
    assert c == Client(Some(offer), Some(trust.block), Some(certificate), [None], Some(peer), {peer}, rules.genesis);
    assert c.chunks[0 := Some(rows)] == [Some(rows)];
    FlatOne(rows);
  }

  lemma FlatOne(rows: seq<Row>)
    ensures Flat([Some(rows)]) == rows
  {
    assert Flat([]) == [];
  }

  /** The state `CrashesIff` speaks of is entered only by an import that ended in a storage error, or
      one that succeeded, after which the client is dropped. */
  lemma SpentOnlyByImport(trust: Trust, rules: Rules, run: seq<Event>, ev: Event)
    requires var c := After(trust, rules, run); c.block.Some? || c.manifest.None?
    requires var c := Next(trust, rules, After(trust, rules, run), ev).client; c.manifest.Some? && c.block.None?
    ensures ev.Chunk? && Next(trust, rules, After(trust, rules, run), ev).called.Some?
    ensures var call := Next(trust, rules, After(trust, rules, run), ev).called.value;
            !Outcome(rules, After(trust, rules, run).genesis, call, ev.disk).Refused?
  {
    hide After, Flat, Certifies, Admissible;
    AfterSound(trust, rules, run);
  }

  // ----- after a storage error

  /** The import of this event failed on a storage error. */
  ghost predicate Fails(trust: Trust, rules: Rules, c: Client, ev: Event) {
    && Next(trust, rules, c, ev).called.Some? && ev.Chunk?
    && Outcome(rules, c.genesis, Next(trust, rules, c, ev).called.value, ev.disk).Broken?
  }

  /** A peer not asked yet whose tip is high enough is asked after a retry exactly when the retry was not for a
      storage error: then the client goes on following the peer it had. */
  lemma RetryAsksIff(trust: Trust, rules: Rules, run: seq<Event>, ev: Event, peer: Peer, tip: nat)
    requires Next(trust, rules, After(trust, rules, run), ev).step.Retry? && tip >= trust.height
    requires peer !in Next(trust, rules, After(trust, rules, run), ev).client.tried
    ensures OnPeerTip(trust, Next(trust, rules, After(trust, rules, run), ev).client, peer, tip).step.AskManifest? <==>
            !Fails(trust, rules, After(trust, rules, run), ev)
  {
    hide After, Flat, Certifies, Admissible, Anchored;
    AfterSound(trust, rules, run);
  }

  /** No manifest and no chunk of the run comes from `peer`. */
  predicate SilentIn(run: seq<Event>, peer: Peer) {
    forall i :: 0 <= i < |run| && !run[i].Tip? ==> run[i].peer != peer
  }

  lemma AfterMore(trust: Trust, rules: Rules, run: seq<Event>, ev: Event)
    ensures After(trust, rules, run + [ev]) == Next(trust, rules, After(trust, rules, run), ev).client
  {
    hide Next;
    assert (run + [ev])[..|run|] == run;
  }

  /** While the peer it follows says nothing, nothing anyone else sends moves the client, and nobody else is
      asked - which is how a storage error leaves it. */
  lemma {:induction false} OnlyFollowedMoves(trust: Trust, rules: Rules, run: seq<Event>, more: seq<Event>, ev: Event)
    requires After(trust, rules, run).peer.Some? && SilentIn(more + [ev], After(trust, rules, run).peer.value)
    ensures After(trust, rules, run + more) == After(trust, rules, run)
    ensures Next(trust, rules, After(trust, rules, run + more), ev).step.Idle?
    decreases |more|
  {
    hide After, Flat, Certifies, Admissible, Anchored;
    assert ev == (more + [ev])[|more|];
    if more == [] {
      assert run + more == run;
    } else {
      var n := |more| - 1;
      assert forall i :: 0 <= i < |more| ==> (more + [ev])[i] == more[i];
      assert more[..n] + [more[n]] == more;
      OnlyFollowedMoves(trust, rules, run, more[..n], more[n]);
      assert run + more == (run + more[..n]) + [more[n]];
      AfterMore(trust, rules, run + more[..n], more[n]);
    }
  }

  lemma WipedStep(trust: Trust, rules: Rules, c: Client, ev: Event)
    requires c.genesis.None?
    ensures Next(trust, rules, c, ev).client.genesis.None? && !Next(trust, rules, c, ev).step.Done?
  {
    hide Flat, FirstMissing, Certifies, Anchored, Leaves;
  }

  /** Once the genesis row is gone it stays gone, and no import is ever written. */
  lemma {:induction false} WipedForever(trust: Trust, rules: Rules, run: seq<Event>, i: nat, ev: Event)
    requires i <= |run| && After(trust, rules, run[..i]).genesis.None?
    ensures After(trust, rules, run).genesis.None? && !Next(trust, rules, After(trust, rules, run), ev).step.Done?
    decreases |run|
  {
    hide Next;
    if i == |run| {
      assert run[..i] == run;
    } else {
      var n := |run| - 1;
      assert run[..n][..i] == run[..i];
      WipedForever(trust, rules, run[..n], i, run[n]);
      WipedStep(trust, rules, After(trust, rules, run[..n]), run[n]);
    }
    WipedStep(trust, rules, After(trust, rules, run), ev);
  }

  /** It goes exactly when an admitted import's second write fails. */
  lemma GenesisGoneIff(trust: Trust, rules: Rules, run: seq<Event>, ev: Event)
    requires After(trust, rules, run).genesis.Some?
    ensures var c := After(trust, rules, run);
            var reply := Next(trust, rules, c, ev);
            && (reply.client.genesis.None? <==> Fails(trust, rules, c, ev) && ev.disk.Unwritable?)
            && (reply.client.genesis.Some? ==> reply.client.genesis == c.genesis)
  {
    hide After, Flat, Certifies, Anchored, Admissible;
  }

  /** A failed second write ends the joining for as long as the process runs, whatever peers and disk do
      afterwards: for every snapshot that checks out there is such a run. */
  lemma FailedWriteEndsJoining(trust: Trust, rules: Rules, rows: seq<Row>, certificate: Certificate, peer: Peer,
                               more: seq<Event>, ev: Event)
    requires Certifies(rules, rows, certificate, trust.block)
    requires Admissible(rules, rules.genesis, rows, certificate, trust.block)
    ensures var offer := Offered(trust, rules, [rows], certificate);
            var chunk := Chunk(peer, trust.height, 0, Some(rows), Unwritable);
            var run := [Tip(peer, trust.height), Offer(peer, Some(offer)), chunk];
            !Next(trust, rules, After(trust, rules, run + more), ev).step.Done?
  {
    hide After, Next, Certifies, Admissible;
    var offer := Offered(trust, rules, [rows], certificate);
    var chunk := Chunk(peer, trust.height, 0, Some(rows), Unwritable);
    var run := [Tip(peer, trust.height), Offer(peer, Some(offer)), chunk];
    FailedWrite(trust, rules, rows, certificate, peer);
    assert (run + more)[..3] == run;
    WipedForever(trust, rules, run + more, 3, ev);
  }

  // ----- an honest server

  function MissingCount(chunks: seq<Option<seq<Row>>>): nat {
    if chunks == [] then 0
    else MissingCount(chunks[..|chunks| - 1]) + if chunks[|chunks| - 1].None? then 1 else 0
  }

  lemma {:induction false} FillOne(chunks: seq<Option<seq<Row>>>, i: nat, rows: seq<Row>)
    requires i < |chunks| && chunks[i].None?
    ensures MissingCount(chunks[i := Some(rows)]) == MissingCount(chunks) - 1
  {
    var n := |chunks| - 1;
    if i < n {
      assert chunks[i := Some(rows)][..n] == chunks[..n][i := Some(rows)];
      FillOne(chunks[..n], i, rows);
    } else {
      assert chunks[i := Some(rows)][..n] == chunks[..n];
    }
  }

  /** The client as an object. */
  class SnapshotClient {
    const trust: Trust
    const rules: Rules
    var manifest: Option<Manifest>
    var block: Option<Block>
    var certificate: Option<Certificate>
    var chunks: seq<Option<seq<Row>>>
    var peer: Option<Peer>
    var tried: set<Peer>
    var genesis: Option<string>

    function Contents(): Client
      reads this
    {
      Client(manifest, block, certificate, chunks, peer, tried, genesis)
    }

    constructor (trust: Trust, rules: Rules)
      ensures this.trust == trust && this.rules == rules && Contents() == Start(rules)
    {
      this.trust, this.rules := trust, rules;
      manifest, block, certificate, chunks, peer, tried := None, None, None, [], None, {};
      genesis := rules.genesis;
    }

    method GiveUp() returns (step: Step)
      modifies this
      ensures Reply(Contents(), step, None) == GivenUp(old(Contents()))
    {
      peer, manifest, block, certificate, chunks := None, None, None, None, [];
      step := Retry;
    }

    method PeerTip(from: Peer, tip: nat) returns (step: Step)
      modifies this
      ensures Reply(Contents(), step, None) == OnPeerTip(trust, old(Contents()), from, tip)
    {
      if peer.Some? || tip < trust.height || from in tried {
        return Idle;
      }
      tried, peer := tried + {from}, Some(from);
      step := AskManifest;
    }

    method TakeManifest(from: Peer, m: Option<Manifest>) returns (step: Step)
      modifies this
      ensures Reply(Contents(), step, None) == OnManifest(trust, rules, old(Contents()), from, m)
    {
      if peer != Some(from) {
        return Idle;
      }
      if m.None? || m.value.height != trust.height || m.value.blockHash != trust.block {
        step := GiveUp();
        return;
      }
      if m.value.block.None? || m.value.certificate.None?
        || m.value.block.value != trust.block || rules.root(m.value.block.value) != m.value.stateRoot {
        step := GiveUp();
        return;
      }
      if |m.value.chunkHashes| != m.value.chunks || m.value.chunks == 0 {
        step := GiveUp();
        return;
      }
      chunks := seq(m.value.chunks, _ => None);
      manifest, block, certificate := m, m.value.block, m.value.certificate;
      step := AskChunk(0);
    }

    /** `on_chunk`. */
    method TakeChunk(from: Peer, height: nat, index: nat, rows: Option<seq<Row>>, disk: Storage)
      returns (step: Step, called: Option<Import>)
      modifies this
      ensures Reply(Contents(), step, called)
              == OnChunk(trust, rules, old(Contents()), from, height, index, rows, disk)
    {
      hide Flat, Fits, Admissible;
      called := None;
      if peer != Some(from) || height != trust.height || manifest.None? {
        return Idle, called;
      }
      if rows.None? {
        step := GiveUp();
        return;
      }
      if index >= |manifest.value.chunkHashes| {
        return Idle, called;
      }
      if rows.value != manifest.value.chunkHashes[index] {
        step := GiveUp();
        return;
      }
      if index >= |chunks| {
        return Crash, called;
      }
      chunks := chunks[index := rows];
      var next := FirstMissing(chunks, 0);
      if next.Some? {
        return AskChunk(next.value), called;
      }
      var all := Flat(chunks);
      chunks := [];
      var b, cert := block, certificate;
      block, certificate := None, None;
      if b.None? || cert.None? {
        return Idle, called;
      }
      var certified := VerifyCertificateAgainst(rules.home, rules.codec, all, cert.value, b.value);
      if !certified {
        step := GiveUp();
        return;
      }
      var call := Import(all, b.value, cert.value);
      called := Some(call);
      var imported := Outcome(rules, genesis, call, disk);
      if imported.Refused? {
        step := GiveUp();
        return;
      }
      step := if imported.Written? then Done else Retry;
      if imported.Broken? {
        genesis := GenesisAfter(rules, genesis, call, disk);
      }
    }
  }

  /** From a fresh client and a peer that serves `rows` at the anchor, every reply fills one missing
      chunk, and the client ends by importing exactly `rows`. */
  method Download(trust: Trust, rules: Rules, rows: seq<Row>, certificate: Certificate, server: Peer)
    returns (call: Import)
    requires rows != [] && Certifies(rules, rows, certificate, trust.block)
    requires Admissible(rules, rules.genesis, rows, certificate, trust.block)
    ensures call == Import(rows, trust.block, certificate)
  {
    hide Flat, Concat, MissingCount, Anchored, Certifies, Admissible;
    var client := new SnapshotClient(trust, rules);
    var ranges := SnapshotChunks(rows);
    var cut := Cut(rows, ranges);
    ChunksWhole(rows, ranges, |rows|);
    assert rows[..|rows|] == rows;
    var offer := Offered(trust, rules, cut, certificate);
    assert Anchored(trust, rules, offer) by { OfferAnchored(trust, rules, cut, certificate); }
    var step := client.PeerTip(server, trust.height);
    step := client.TakeManifest(server, Some(offer));
    var called := None;
    while step.AskChunk?
      invariant client.trust == trust && client.rules == rules
      invariant step.AskChunk? ==>
        && client.peer == Some(server) && client.manifest == Some(offer) && client.block == Some(trust.block)
        && client.certificate == Some(certificate) && |client.chunks| == |cut| && client.genesis == rules.genesis
        && step.index < |cut| && client.chunks[step.index].None?
        && forall i :: 0 <= i < |cut| && client.chunks[i].Some? ==> client.chunks[i].value == cut[i]
      invariant !step.AskChunk? ==> called == Some(Import(rows, trust.block, certificate))
      decreases step.AskChunk?, MissingCount(client.chunks)
    {
      var i := step.index;
      var filled := client.chunks[i := Some(cut[i])];
      FillOne(client.chunks, i, cut[i]);
      if FirstMissing(filled, 0).None? {
        FlatConcat(filled, cut);
      }
      step, called := client.TakeChunk(server, trust.height, i, Some(cut[i]), Working);
    }
    call := called.value;
  }

  lemma OfferAnchored(trust: Trust, rules: Rules, cut: seq<seq<Row>>, certificate: Certificate)
    requires cut != []
    ensures Anchored(trust, rules, Offered(trust, rules, cut, certificate))
  {
  }
}

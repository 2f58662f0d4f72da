/** What `import_snapshot` checks and writes (core/storage/src/snapshot.rs), and when what the node then reads
    is what was checked and what the block committed to: the certificate check reads the first row of a key,
    the root commits to the last, and the database reads the last one in the key's own column. */
module SnapshotImport {
  import opened TextFormat
  import opened Blocks
  import opened Tally
  import opened SnapshotCertificate
  import opened StateTrie

  // ----- where a key belongs

  predicate StartsWith(s: string, prefix: string) {
    prefix <= s
  }

  /** `cf_for_key`. */
  function HomeOf(key: string): string {
    if StartsWith(key, "account:") then "accounts"
    else if StartsWith(key, "block:") || StartsWith(key, "block_hash:") || StartsWith(key, "action:") then "blocks"
    else if StartsWith(key, "validator") || StartsWith(key, "stake") then "validators"
    else if StartsWith(key, "asset_balance:") || StartsWith(key, "asset_record:") || StartsWith(key, "asset_holder:")
    then "assets"
    else if StartsWith(key, "attestor_record:") || StartsWith(key, "attestor_name:") then "attestors"
    else if StartsWith(key, "evidence:") then "evidence"
    else if StartsWith(key, "operator:") || StartsWith(key, "operator_index:") || key == "chain_params"
         || StartsWith(key, "proposal") || StartsWith(key, "blskey:") || StartsWith(key, "blskey_owner:")
    then "governance"
    else if |key| == 32 then "merkle"
    else "meta"
  }

  /** `is_state_key`: the key is in the trie. */
  predicate IsStateKey(key: string) {
    HomeOf(key) in {"accounts", "validators", "assets", "attestors", "evidence", "governance"}
  }

  lemma Letters(key: string, prefix: string)
    requires |prefix| >= 3
    ensures StartsWith(key, prefix) ==>
              |key| >= 3 && key[0] == prefix[0] && key[1] == prefix[1] && key[2] == prefix[2]
  {
  }

  lemma LettersOfA(key: string)
    ensures StartsWith(key, "account:") ==> |key| >= 3 && key[0] == 'a' && key[1] == 'c' && key[2] == 'c'
    ensures StartsWith(key, "action:") ==> |key| >= 3 && key[0] == 'a' && key[1] == 'c' && key[2] == 't'
    ensures StartsWith(key, "asset_balance:") ==> |key| >= 3 && key[0] == 'a' && key[1] == 's'
    ensures StartsWith(key, "asset_record:") ==> |key| >= 3 && key[0] == 'a' && key[1] == 's'
    ensures StartsWith(key, "asset_holder:") ==> |key| >= 3 && key[0] == 'a' && key[1] == 's'
    ensures StartsWith(key, "attestor_record:") ==> |key| >= 3 && key[0] == 'a' && key[1] == 't'
    ensures StartsWith(key, "attestor_name:") ==> |key| >= 3 && key[0] == 'a' && key[1] == 't'
  {
    hide StartsWith;
    Letters(key, "account:");
    Letters(key, "action:");
    Letters(key, "asset_balance:");
    Letters(key, "asset_record:");
    Letters(key, "asset_holder:");
    Letters(key, "attestor_record:");
    Letters(key, "attestor_name:");
  }

  lemma LettersOfB(key: string)
    ensures StartsWith(key, "block:") ==> |key| >= 3 && key[0] == 'b' && key[1] == 'l' && key[2] == 'o'
    ensures StartsWith(key, "block_hash:") ==> |key| >= 3 && key[0] == 'b' && key[1] == 'l' && key[2] == 'o'
    ensures StartsWith(key, "blskey:") ==> |key| >= 3 && key[0] == 'b' && key[1] == 'l' && key[2] == 's'
    ensures StartsWith(key, "blskey_owner:") ==> |key| >= 3 && key[0] == 'b' && key[1] == 'l' && key[2] == 's'
  {
    hide StartsWith;
    Letters(key, "block:");
    Letters(key, "block_hash:");
    Letters(key, "blskey:");
    Letters(key, "blskey_owner:");
  }

  lemma LettersOfOthers(key: string)
    ensures StartsWith(key, "validator") ==> |key| >= 3 && key[0] == 'v'
    ensures StartsWith(key, "stake") ==> |key| >= 3 && key[0] == 's'
    ensures StartsWith(key, "evidence:") ==> |key| >= 3 && key[0] == 'e'
    ensures StartsWith(key, "operator:") || StartsWith(key, "operator_index:") ==> |key| >= 3 && key[0] == 'o'
    ensures key == "chain_params" ==> |key| >= 3 && key[0] == 'c'
    ensures StartsWith(key, "proposal") ==> |key| >= 3 && key[0] == 'p'
    ensures StartsWith(key, "meta:") ==> |key| >= 3 && key[0] == 'm'
  {
    hide StartsWith;
    Letters(key, "validator");
    Letters(key, "stake");
    Letters(key, "evidence:");
    Letters(key, "operator:");
    Letters(key, "operator_index:");
    Letters(key, "proposal");
    Letters(key, "meta:");
  }

  /** No kind of key is shadowed by another: whatever follows its prefix, each has its own column - but for a
      `meta:` key of 32 characters, which is taken for a trie node. */
  lemma HomesApart(key: string)
    ensures StartsWith(key, "account:") ==> HomeOf(key) == "accounts"
    ensures StartsWith(key, "block:") || StartsWith(key, "block_hash:") || StartsWith(key, "action:") ==>
              HomeOf(key) == "blocks"
    ensures StartsWith(key, "validator") || StartsWith(key, "stake") ==> HomeOf(key) == "validators"
    ensures StartsWith(key, "asset_balance:") || StartsWith(key, "asset_record:") ==> HomeOf(key) == "assets"
    ensures StartsWith(key, "asset_holder:") ==> HomeOf(key) == "assets"
    ensures StartsWith(key, "attestor_record:") || StartsWith(key, "attestor_name:") ==> HomeOf(key) == "attestors"
    ensures StartsWith(key, "evidence:") ==> HomeOf(key) == "evidence"
    ensures StartsWith(key, "operator:") || StartsWith(key, "operator_index:") || StartsWith(key, "proposal") ==>
              HomeOf(key) == "governance"
    ensures StartsWith(key, "blskey:") || StartsWith(key, "blskey_owner:") || key == "chain_params" ==>
              HomeOf(key) == "governance"
    ensures StartsWith(key, "meta:") ==> HomeOf(key) == if |key| == 32 then "merkle" else "meta"
  {
    hide StartsWith;
    LettersOfA(key);
    LettersOfB(key);
    LettersOfOthers(key);
  }

  // ----- the check

  function AsBytes(s: string): Bytes {
    seq(|s|, i requires 0 <= i < |s| => s[i] as nat)
  }

  /** The leaves the rows make, the last row of a key winning, whatever column it names. */
  function Leaves(hash: string -> KeyHash, rows: seq<Row>): State {
    if rows == [] then map[]
    else
      var n := |rows| - 1;
      var before := Leaves(hash, rows[..n]);
      if IsStateKey(rows[n].key) then before[hash(rows[n].key) := AsBytes(rows[n].value)] else before
  }

  /** The certificate names the block, the rows hash to the root in its header, and they carry this chain's
      genesis hash. */
  predicate Admits(hash: string -> KeyHash, root: Hash, genesis: Option<string>, rows: seq<Row>,
                   certificate: Certificate, block: Block)
  {
    && certificate.msg.slot.height == Height(block) && certificate.msg.ballot.block == block
    && RootOf(Leaves(hash, rows)) == root
    && RowAt(rows, "meta:genesis_hash").Some? && RowAt(rows, "meta:genesis_hash") == genesis
  }

  /** Exactly what a snapshot has to bring: the certificate is for this very block, the state hashes to the
      root, and the first genesis row is this node's own, which it must have. */
  lemma AdmitsIff(hash: string -> KeyHash, root: Hash, genesis: Option<string>, rows: seq<Row>,
                  certificate: Certificate, block: Block)
    ensures Admits(hash, root, genesis, rows, certificate, block) <==>
            && certificate.msg.slot.height == Height(block) && certificate.msg.ballot.block == block
            && RootOf(Leaves(hash, rows)) == root
            && genesis.Some? && exists i :: FirstAt(rows, "meta:genesis_hash", i) && rows[i].value == genesis.value
  {
    hide Leaves, RootOf;
    FirstIs(rows, "meta:genesis_hash");
  }

  // ----- what is imported

  /** The value of the last row with this key. */
  function LastRow(rows: seq<Row>, key: string): Option<string> {
    if rows == [] then None
    else
      var n := |rows| - 1;
      if rows[n].key == key then Some(rows[n].value) else LastRow(rows[..n], key)
  }

  /** What the database reads for the key afterwards: the last row written to the key's own column. */
  function Readable(rows: seq<Row>, key: string): Option<string> {
    if rows == [] then None
    else
      var n := |rows| - 1;
      if rows[n].key == key && rows[n].cf == HomeOf(key) then Some(rows[n].value) else Readable(rows[..n], key)
  }

  /** A row's value as the trie holds it. */
  function Encoded(value: Option<string>): Option<Bytes> {
    if value.Some? then Some(AsBytes(value.value)) else None
  }

  lemma EncodedOnce(a: Option<string>, b: Option<string>)
    requires Encoded(a) == Encoded(b)
    ensures a == b
  {
    if a.Some? {
      assert |AsBytes(a.value)| == |AsBytes(b.value)|;
      forall i | 0 <= i < |a.value| ensures a.value[i] == b.value[i] {
        assert AsBytes(a.value)[i] == AsBytes(b.value)[i];
      }
      assert a.value == b.value;
    }
  }

  /** No other state key of the rows hashes to the path of `key`. */
  ghost predicate Alone(hash: string -> KeyHash, rows: seq<Row>, key: string) {
    forall i :: 0 <= i < |rows| && IsStateKey(rows[i].key) && hash(rows[i].key) == hash(key) ==> rows[i].key == key
  }

  lemma {:induction false} LeafIsLast(hash: string -> KeyHash, rows: seq<Row>, key: string)
    requires IsStateKey(key) && Alone(hash, rows, key)
    ensures Lookup(Leaves(hash, rows), hash(key)) == Encoded(LastRow(rows, key))
  {
    hide IsStateKey, AsBytes;
    if rows != [] {
      LeafIsLast(hash, rows[..|rows| - 1], key);
    }
  }

  /** An admitted snapshot of a block that committed to state `m` holds `m` in its last rows, whatever columns
      they name. */
  lemma RootIsLastRows(hash: string -> KeyHash, genesis: Option<string>, rows: seq<Row>, certificate: Certificate,
                       block: Block, m: State, key: string)
    requires Admits(hash, RootOf(m), genesis, rows, certificate, block)
    requires IsStateKey(key) && Alone(hash, rows, key)
    ensures Lookup(m, hash(key)) == Encoded(LastRow(rows, key))
  {
    hide Subtree, IsStateKey, AsBytes, Leaves, LastRow, Alone;
    LeafIsLast(hash, rows, key);
    SubtreeCommits(Leaves(hash, rows), m, [], hash(key));
  }

  // ----- checked and imported

  predicate FirstAt(rows: seq<Row>, key: string, i: int) {
    0 <= i < |rows| && rows[i].key == key && forall j :: 0 <= j < i ==> rows[j].key != key
  }

  predicate LastHomeAt(rows: seq<Row>, key: string, i: int) {
    && 0 <= i < |rows| && rows[i].key == key && rows[i].cf == HomeOf(key)
    && forall j :: i < j < |rows| ==> !(rows[j].key == key && rows[j].cf == HomeOf(key))
  }

  lemma {:induction false} ReadableIs(rows: seq<Row>, key: string)
    ensures Readable(rows, key).None? <==>
            forall i :: 0 <= i < |rows| && rows[i].key == key ==> rows[i].cf != HomeOf(key)
    ensures Readable(rows, key).Some? ==>
              exists i :: LastHomeAt(rows, key, i) && rows[i].value == Readable(rows, key).value
    ensures forall i :: LastHomeAt(rows, key, i) ==> Readable(rows, key) == Some(rows[i].value)
  {
    hide HomeOf;
    if rows != [] {
      var n := |rows| - 1;
      ReadableIs(rows[..n], key);
      if rows[n].key == key && rows[n].cf == HomeOf(key) {
        assert LastHomeAt(rows, key, n);
      } else {
        forall i ensures LastHomeAt(rows, key, i) <==> LastHomeAt(rows[..n], key, i) {
          LastHomeBefore(rows, key, i);
        }
        hide LastHomeAt;
      }
    }
  }

  lemma LastHomeBefore(rows: seq<Row>, key: string, i: int)
    requires rows != []
    requires var last := rows[|rows| - 1]; !(last.key == key && last.cf == HomeOf(key))
    ensures LastHomeAt(rows, key, i) <==> LastHomeAt(rows[..|rows| - 1], key, i)
  {
    hide HomeOf;
  }

  lemma FirstIs(rows: seq<Row>, key: string)
    ensures RowAt(rows, key).None? <==> forall i :: 0 <= i < |rows| ==> rows[i].key != key
    ensures forall i :: FirstAt(rows, key, i) ==> RowAt(rows, key) == Some(rows[i].value)
    ensures RowAt(rows, key).Some? ==> exists i :: FirstAt(rows, key, i)
  {
    RowAtFirst(rows, key);
    if RowAt(rows, key).Some? {
      var i :| 0 <= i < |rows| && rows[i].key == key && rows[i].value == RowAt(rows, key).value
               && forall j :: 0 <= j < i ==> rows[j].key != key;
      assert FirstAt(rows, key, i);
    }
  }

  /** The row the certificate check reads for a key says what the database reads after the import exactly
      when no row has the key, or some row of it is in the key's own column and the last such row carries
      the value of the very first row of the key. */
  lemma CheckedIsImportedIff(rows: seq<Row>, key: string)
    ensures RowAt(rows, key) == Readable(rows, key) <==>
            || (forall i :: 0 <= i < |rows| ==> rows[i].key != key)
            || (exists i, j :: FirstAt(rows, key, i) && LastHomeAt(rows, key, j) && rows[i].value == rows[j].value)
  {
    hide RowAt, Readable, HomeOf;
    FirstIs(rows, key);
    ReadableIs(rows, key);
    if RowAt(rows, key) == Readable(rows, key) && RowAt(rows, key).Some? {
      var i :| FirstAt(rows, key, i);
      var j :| LastHomeAt(rows, key, j) && rows[j].value == Readable(rows, key).value;
      assert rows[i].value == rows[j].value;
    }
  }

  // ----- committed and imported

  predicate LastAt(rows: seq<Row>, key: string, i: int) {
    0 <= i < |rows| && rows[i].key == key && forall j :: i < j < |rows| ==> rows[j].key != key
  }

  lemma {:induction false} LastRowIs(rows: seq<Row>, key: string)
    ensures LastRow(rows, key).None? <==> forall i :: 0 <= i < |rows| ==> rows[i].key != key
    ensures LastRow(rows, key).Some? ==> exists i :: LastAt(rows, key, i) && rows[i].value == LastRow(rows, key).value
    ensures forall i :: LastAt(rows, key, i) ==> LastRow(rows, key) == Some(rows[i].value)
  {
    if rows != [] {
      var n := |rows| - 1;
      LastRowIs(rows[..n], key);
      if rows[n].key == key {
        assert LastAt(rows, key, n);
      } else {
        forall i ensures LastAt(rows, key, i) <==> LastAt(rows[..n], key, i) {
          LastAtBefore(rows, key, i);
        }
        hide LastAt;
      }
    }
  }

  lemma LastAtBefore(rows: seq<Row>, key: string, i: int)
    requires rows != [] && rows[|rows| - 1].key != key
    ensures LastAt(rows, key, i) <==> LastAt(rows[..|rows| - 1], key, i)
  {
  }

  /** The last row of the key, and its last row in its own column, carry one value. */
  ghost predicate WellFiled(rows: seq<Row>, key: string) {
    || (forall i :: 0 <= i < |rows| ==> rows[i].key != key)
    || (exists i, j :: LastAt(rows, key, i) && LastHomeAt(rows, key, j) && rows[i].value == rows[j].value)
  }

  lemma WellFiledIff(rows: seq<Row>, key: string)
    ensures WellFiled(rows, key) <==> LastRow(rows, key) == Readable(rows, key)
  {
    hide LastRow, Readable, HomeOf;
    LastRowIs(rows, key);
    ReadableIs(rows, key);
    if LastRow(rows, key) == Readable(rows, key) && LastRow(rows, key).Some? {
      var i :| LastAt(rows, key, i);
      var j :| LastHomeAt(rows, key, j) && rows[j].value == Readable(rows, key).value;
      assert rows[i].value == rows[j].value;
    }
  }

  /** After an admitted import the database reads, for a state key, what the block committed to exactly when
      no row has the key, or its last row and its last row in its own column carry one value: the root is
      computed without looking at the columns, and reads look at one column only. */
  lemma ImportIsState(hash: string -> KeyHash, genesis: Option<string>, rows: seq<Row>, certificate: Certificate,
                      block: Block, m: State, key: string)
    requires Admits(hash, RootOf(m), genesis, rows, certificate, block)
    requires IsStateKey(key) && Alone(hash, rows, key)
    ensures Lookup(m, hash(key)) == Encoded(Readable(rows, key)) <==> WellFiled(rows, key)
  {
    hide RootOf, IsStateKey, AsBytes, Leaves, LastRow, Readable, Alone, WellFiled, Encoded;
    RootIsLastRows(hash, genesis, rows, certificate, block, m, key);
    WellFiledIff(rows, key);
    if Encoded(LastRow(rows, key)) == Encoded(Readable(rows, key)) {
      EncodedOnce(LastRow(rows, key), Readable(rows, key));
    }
  }

  /** Rows as a server lists its state: every key once, in its own column. */
  ghost predicate Listed(rows: seq<Row>) {
    && (forall i :: 0 <= i < |rows| ==> rows[i].cf == HomeOf(rows[i].key))
    && (forall i, j :: 0 <= i < j < |rows| ==> rows[i].key != rows[j].key)
  }

  /** For such rows what is checked, what is committed to and what is imported are one. */
  lemma ListedAgrees(rows: seq<Row>, key: string)
    requires Listed(rows)
    ensures RowAt(rows, key) == LastRow(rows, key) == Readable(rows, key) && WellFiled(rows, key)
  {
    hide RowAt, HomeOf, WellFiled;
    FirstIs(rows, key);
    LastIsOnly(rows, key);
    WellFiledIff(rows, key);
  }

  lemma {:induction false} LastIsOnly(rows: seq<Row>, key: string)
    requires Listed(rows)
    ensures forall i :: 0 <= i < |rows| && rows[i].key == key ==>
              FirstAt(rows, key, i) && LastRow(rows, key) == Readable(rows, key) == Some(rows[i].value)
    ensures (forall i :: 0 <= i < |rows| ==> rows[i].key != key) ==>
              LastRow(rows, key).None? && Readable(rows, key).None?
  {
    hide HomeOf;
    if rows != [] {
      LastIsOnly(rows[..|rows| - 1], key);
    }
  }

  /** What the check would read from the imported database. */
  function ReadImported(codec: Codec, rows: seq<Row>): Carried {
    var epochLength: Option<nat> := Decoded<nat>(Readable(rows, "chain_params"), codec.epochLength);
    Carried(
      if epochLength.Some? then epochLength.value else DEFAULT_EPOCH_LENGTH,
      h => Decoded(Readable(rows, "validator_set:" + Padded(h)), codec.powers),
      a => Decoded(Readable(rows, "blskey:" + codec.address(a)), codec.blsKey),
      GenesisBytes(Decoded(Readable(rows, "meta:genesis_hash"), codec.text)))
  }

  function Decoded<T>(value: Option<string>, decode: string -> Option<T>): Option<T> {
    if value.None? then None else decode(value.value)
  }

  /** So from an honest server the certificate is checked in the very network that is imported. */
  lemma ListedChecksImported(home: seq<nat>, codec: Codec, rows: seq<Row>, certificate: Certificate, block: Block)
    requires Listed(rows)
    ensures Fits(home, ReadRows(codec, rows), certificate, block)
            <==> Fits(home, ReadImported(codec, rows), certificate, block)
  {
    hide RowAt, Readable, Listed, GenesisBytes, Padded, Holds;
    var c, d := ReadRows(codec, rows), ReadImported(codec, rows);
    ListedAgrees(rows, "chain_params");
    ListedAgrees(rows, "meta:genesis_hash");
    forall h ensures c.sets(h) == d.sets(h) {
      ListedAgrees(rows, "validator_set:" + Padded(h));
    }
    forall a ensures c.keys(a) == d.keys(a) {
      ListedAgrees(rows, "blskey:" + codec.address(a));
    }
    if certificate.msg.slot.height == Height(block) {
      SameCarried(c, d, Height(block), certificate);
    }
  }

  lemma SameCarried(c: Carried, d: Carried, height: nat, certificate: Certificate)
    requires c.epochLength == d.epochLength && (forall h :: c.sets(h) == d.sets(h))
    requires (forall a :: c.keys(a) == d.keys(a)) && certificate.msg.slot.height == height
    ensures Holds(Described(c, height), certificate) <==> Holds(Described(d, height), certificate)
  {
    var w, other := Described(c, height), Described(d, height);
    SameKnownKeys(w, other, height, certificate.signers);
  }
}

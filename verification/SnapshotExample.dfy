/** Two snapshots down to their rows: one that leads the client into the crash of `SnapshotSync.CrashesIff`,
    and one whose certificate is checked against a validator set that is not the one imported. */
module SnapshotExample {
  import opened TextFormat
  import opened VotingPower
  import opened Blocks
  import opened Tally
  import opened StateTrie
  import opened SnapshotCertificate
  import opened SnapshotImport
  import opened SnapshotSync

  // ----- validator 1 alone, at height 1

  function Nulls(n: nat): seq<nat> { seq(n, _ => 0) }

  function Lone(): Block { Child(Genesis, 0, 0) }

  function LoneMessage(): Message { Message(Slot(1, 0), Precommit(Lone(), 0)) }

  function LoneRecord(): Certificate { Certificate(LoneMessage(), [1], multiset{Signature(1, LoneMessage())}) }

  /** The two state keys of the example lie in different halves of the trie. */
  function Path(key: string): KeyHash {
    if key == "blskey:one" then seq(DEPTH, _ => false) else seq(DEPTH, _ => true)
  }

  function SetKey(): string { "validator_set:" + Padded(0) }

  function Powers(value: string): Option<PowerMap> {
    if value == "stray" then Some(map[9 := 10_000]) else Some(map[1 := 10_000])
  }

  function LoneRules(): Rules {
    Rules(_ => RootOf(Leaves(Path, LoneRows())), Path,
          Codec(_ => "one", _ => None, Powers, _ => Some(1), _ => Some(Zeros(64))),
          Nulls(32), Some(""))
  }

  function LoneRows(): seq<Row> {
    [Row("validators", SetKey(), ""), Row("governance", "blskey:one", ""), Row("meta", "meta:genesis_hash", "")]
  }

  lemma {:induction false} ZeroBytes(n: nat)
    ensures HexBytes(Zeros(2 * n)) == Some(Nulls(n))
  {
    if n == 0 {
      assert Zeros(0) == [] && Nulls(0) == [];
    } else {
      ZeroBytes(n - 1);
      var s := Zeros(2 * n);
      assert s[2..] == Zeros(2 * (n - 1));
      assert |s| == 2 * n && s[0] == '0' && s[1] == '0' && HexDigit('0') == Some(0);
      assert Nulls(n) == [0] + Nulls(n - 1);
    }
  }

  lemma LoneFound()
    ensures var rows := LoneRows();
            && RowAt(rows, SetKey()) == Some("") && RowAt(rows, "blskey:" + "one") == Some("")
            && RowAt(rows, "meta:genesis_hash") == Some("") && RowAt(rows, "chain_params").None?
  {
    hide Padded;
    var rows := LoneRows();
    var set0, bls, gen, params := SetKey(), "blskey:one", "meta:genesis_hash", "chain_params";
    assert "blskey:" + "one" == bls;
    assert set0[0] == 'v' && bls[0] == 'b' && gen[0] == 'm' && params[0] == 'c';
    SkipRow(rows, bls);
    SkipRow(rows, gen);
    SkipRow(rows[1..], gen);
    SkipRow(rows, params);
    SkipRow(rows[1..], params);
    SkipRow(rows[1..][1..], params);
    assert rows[1..][1..][1..] == [];
  }

  lemma SkipRow(rows: seq<Row>, key: string)
    requires rows != [] && rows[0].key != key
    ensures RowAt(rows, key) == RowAt(rows[1..], key)
  {
  }

  lemma LoneRead()
    ensures var c := ReadRows(LoneRules().codec, LoneRows());
            && c.epochLength == DEFAULT_EPOCH_LENGTH && c.sets(0) == Some(map[1 := 10_000])
            && c.keys(1) == Some(1) && c.genesis == Some(LoneRules().home)
  {
    hide RowAt, Padded, HexBytes, StripPrefix, RootOf, Leaves;
    LoneFound();
    LoneGenesis();
    var codec, rows := LoneRules().codec, LoneRows();
    assert codec.address(1) == "one";
    assert Entry<nat>(rows, "chain_params", codec.epochLength) == None;
    assert Entry<PowerMap>(rows, SetKey(), codec.powers) == codec.powers("");
    assert Entry<nat>(rows, "blskey:" + codec.address(1), codec.blsKey) == codec.blsKey("");
    assert Entry<string>(rows, "meta:genesis_hash", codec.text) == codec.text("") == Some(Zeros(64));
    assert GenesisBytes(Some(Zeros(64))) == Some(LoneRules().home);
  }

  lemma LoneGenesis()
    ensures HexBytes(StripPrefix(Zeros(64))) == Some(Nulls(32)) && |Nulls(32)| == 32
  {
    hide HexBytes;
    ZeroBytes(32);
    var s := Zeros(64);
    assert s[..2][1] == '0' && "0x"[1] == 'x';
    assert StripPrefix(s) == s;
  }

  /** In a world where validator 1 is all there is, its signature alone is a record. */
  lemma LoneHolds(w: World)
    requires w.members(1) == map[1 := 10_000] && w.key(1, 1) == Some(1)
    ensures Holds(w, LoneRecord())
  {
    var members: PowerMap := map[1 := 10_000];
    assert Elements([1]) == {1} == members.Keys;
    PowerRemove(members, {1}, 1);
    assert {1} - {1} == {};
    assert [1][..0] == [];
    assert KnownKeys(w, 1, [1]) == [1];
    assert Each(LoneMessage(), [1]) == [Signature(1, LoneMessage())];
  }

  lemma LoneCertifies()
    ensures Certifies(LoneRules(), LoneRows(), LoneRecord(), Lone())
  {
    hide ReadRows, Holds, LoneRows, RootOf, Leaves;
    LoneRead();
    var c := ReadRows(LoneRules().codec, LoneRows());
    assert EffectiveHeight(1, DEFAULT_EPOCH_LENGTH) == 0;
    LoneHolds(Described(c, 1));
  }

  lemma LoneAdmissible()
    ensures Admissible(LoneRules(), LoneRules().genesis, LoneRows(), LoneRecord(), Lone())
  {
    hide RootOf, Leaves, Padded;
    LoneFound();
  }

  /** A run into the crash, down to the snapshot's rows. */
  lemma CrashExample()
    ensures var trust, rules := Trust(1, Lone()), LoneRules();
            var offer := Offered(trust, rules, [LoneRows()], LoneRecord());
            var chunk := Chunk(7, 1, 0, Some(LoneRows()), Unwritable);
            Next(trust, rules, After(trust, rules, [Tip(7, 1), Offer(7, Some(offer)), chunk]), chunk).step == Crash
  {
    hide Certifies, Admissible;
    LoneCertifies();
    LoneAdmissible();
    RepeatedChunkCrashes(Trust(1, Lone()), LoneRules(), LoneRows(), LoneRecord(), 7);
  }

  // ----- a certificate checked against a set that is not imported

  /** The snapshot with another validator set in front. */
  function TwoRows(): seq<Row> {
    [Row("validators", SetKey(), "stray")] + LoneRows()
  }

  /** Signed by validator 9 alone. */
  function StrayRecord(): Certificate {
    Certificate(LoneMessage(), [9], multiset{Signature(1, LoneMessage())})
  }

  lemma NotPrefix(s: string, prefix: string, i: nat)
    requires i < |s| && i < |prefix| && s[i] != prefix[i]
    ensures !StartsWith(s, prefix)
  {
  }

  lemma SetHome()
    ensures HomeOf(SetKey()) == "validators"
  {
    hide Padded, StartsWith;
    var key := SetKey();
    NotPrefix(key, "account:", 0);
    NotPrefix(key, "block:", 0);
    NotPrefix(key, "block_hash:", 0);
    NotPrefix(key, "action:", 0);
    IsPrefixOf(key, "validator");
  }

  lemma IsPrefixOf(s: string, prefix: string)
    requires |prefix| <= |s| && s[..|prefix|] == prefix
    ensures StartsWith(s, prefix)
  {
  }

  lemma KeyHome()
    ensures HomeOf("blskey:one") == "governance"
  {
    hide StartsWith;
    var key := "blskey:one";
    NotPrefix(key, "account:", 0);
    NotPrefix(key, "block:", 2);
    NotPrefix(key, "block_hash:", 2);
    NotPrefix(key, "action:", 0);
    NotPrefix(key, "validator", 0);
    NotPrefix(key, "stake", 0);
    NotPrefix(key, "asset_balance:", 0);
    NotPrefix(key, "asset_record:", 0);
    NotPrefix(key, "asset_holder:", 0);
    NotPrefix(key, "attestor_record:", 0);
    NotPrefix(key, "attestor_name:", 0);
    NotPrefix(key, "evidence:", 0);
    IsPrefixOf(key, "blskey:");
  }

  lemma GenesisHome()
    ensures HomeOf("meta:genesis_hash") == "meta"
  {
    hide StartsWith;
    var key := "meta:genesis_hash";
    NotPrefix(key, "account:", 0);
    NotPrefix(key, "block:", 0);
    NotPrefix(key, "block_hash:", 0);
    NotPrefix(key, "action:", 0);
    NotPrefix(key, "validator", 0);
    NotPrefix(key, "stake", 0);
    NotPrefix(key, "asset_balance:", 0);
    NotPrefix(key, "asset_record:", 0);
    NotPrefix(key, "asset_holder:", 0);
    NotPrefix(key, "attestor_record:", 0);
    NotPrefix(key, "attestor_name:", 0);
    NotPrefix(key, "evidence:", 0);
    NotPrefix(key, "operator:", 0);
    NotPrefix(key, "operator_index:", 0);
    NotPrefix(key, "proposal", 0);
    NotPrefix(key, "blskey:", 0);
    NotPrefix(key, "blskey_owner:", 0);
    assert "chain_params"[0] == 'c' && key[0] == 'm';
  }

  lemma Homes()
    ensures HomeOf(SetKey()) == "validators" && HomeOf("blskey:one") == "governance"
    ensures HomeOf("meta:genesis_hash") == "meta"
  {
    hide HomeOf, SetKey;
    SetHome();
    KeyHome();
    GenesisHome();
  }

  /** The row in front leaves no trace in the trie: the last row of the key wins. */
  lemma SameLeaves()
    ensures Leaves(Path, TwoRows()) == Leaves(Path, LoneRows())
  {
    hide Padded, HomeOf;
    Homes();
    var two, one := TwoRows(), LoneRows();
    assert two[..3] == two[..4][..3] && two[..2] == two[..3][..2] && two[..1] == two[..2][..1] && two[..1][..0] == [];
    assert one[..2] == one[..3][..2] && one[..1] == one[..2][..1] && one[..1][..0] == [];
    var k, b := Path(SetKey()), Path("blskey:one");
    OnePair(k, b, one);
    assert Leaves(Path, two[..1]) == map[k := AsBytes("stray")];
    assert Leaves(Path, two[..2]) == map[k := AsBytes("")];
    assert Leaves(Path, two[..3]) == map[k := AsBytes(""), b := AsBytes("")];
    assert two[..4] == two;
  }

  lemma OnePair(k: KeyHash, b: KeyHash, rows: seq<Row>)
    requires k == Path(SetKey()) && b == Path("blskey:one") && rows == LoneRows()
    ensures Leaves(Path, rows) == map[k := AsBytes(""), b := AsBytes("")]
  {
    hide Padded, HomeOf;
    Homes();
    assert rows[..2] == rows[..3][..2] && rows[..1] == rows[..2][..1] && rows[..1][..0] == [] && rows[..3] == rows;
    assert Leaves(Path, rows[..1]) == map[k := AsBytes("")];
    assert Leaves(Path, rows[..2]) == map[k := AsBytes(""), b := AsBytes("")];
  }

  lemma TwoFound()
    ensures var rows := TwoRows();
            && RowAt(rows, SetKey()) == Some("stray") && RowAt(rows, "blskey:" + "one") == Some("")
            && RowAt(rows, "meta:genesis_hash") == Some("") && RowAt(rows, "chain_params").None?
            && Readable(rows, SetKey()) == Some("")
  {
    hide Padded, HomeOf;
    Homes();
    LoneFound();
    var rows := TwoRows();
    assert rows[1..] == LoneRows();
    assert "blskey:" + "one" == "blskey:one";
    assert SetKey()[0] == 'v' && "blskey:one"[0] == 'b' && "meta:genesis_hash"[0] == 'm' && "chain_params"[0] == 'c';
    SkipRow(rows, "blskey:" + "one");
    SkipRow(rows, "meta:genesis_hash");
    SkipRow(rows, "chain_params");
    assert rows[..3] == rows[..4][..3] && rows[..2] == rows[..3][..2] && rows[..4] == rows;
  }

  lemma TwoRead()
    ensures var c := ReadRows(LoneRules().codec, TwoRows());
            && c.epochLength == DEFAULT_EPOCH_LENGTH && c.sets(0) == Some(map[9 := 10_000])
            && c.keys(9) == Some(1) && c.genesis == Some(LoneRules().home)
    ensures ReadImported(LoneRules().codec, TwoRows()).sets(0) == Some(map[1 := 10_000])
  {
    hide RowAt, Readable, Padded, HexBytes, StripPrefix, RootOf, Leaves, HomeOf;
    TwoFound();
    LoneGenesis();
    var codec, rows := LoneRules().codec, TwoRows();
    assert codec.address(9) == "one";
    assert Entry<nat>(rows, "chain_params", codec.epochLength) == None;
    assert Entry<PowerMap>(rows, SetKey(), codec.powers) == codec.powers("stray");
    assert Entry<nat>(rows, "blskey:" + codec.address(9), codec.blsKey) == codec.blsKey("");
    assert Entry<string>(rows, "meta:genesis_hash", codec.text) == codec.text("") == Some(Zeros(64));
    assert GenesisBytes(Some(Zeros(64))) == Some(LoneRules().home);
    assert Decoded(Readable(rows, SetKey()), codec.powers) == codec.powers("");
  }

  lemma StrayHolds(w: World)
    requires w.members(1) == map[9 := 10_000] && w.key(9, 1) == Some(1)
    ensures Holds(w, StrayRecord())
  {
    var members: PowerMap := map[9 := 10_000];
    assert Elements([9]) == {9} == members.Keys;
    PowerRemove(members, {9}, 9);
    assert {9} - {9} == {};
    assert [9][..0] == [];
    assert KnownKeys(w, 1, [9]) == [1];
    assert Each(LoneMessage(), [1]) == [Signature(1, LoneMessage())];
  }

  lemma StrayCertifies()
    ensures Certifies(LoneRules(), TwoRows(), StrayRecord(), Lone())
  {
    hide ReadRows, ReadImported, Holds, TwoRows, RootOf, Leaves;
    TwoRead();
    var c := ReadRows(LoneRules().codec, TwoRows());
    assert EffectiveHeight(1, DEFAULT_EPOCH_LENGTH) == 0;
    StrayHolds(Described(c, 1));
  }

  /** With two rows for one validator-set key the certificate is checked against one set and another is
      imported: validator 9's signature alone passes, the rows hash to the block's root, and what the node
      holds afterwards is validator 1. The block is still the one the operator trusts. */
  lemma TwoRowsSplit()
    ensures Certifies(LoneRules(), TwoRows(), StrayRecord(), Lone())
    ensures Outcome(LoneRules(), LoneRules().genesis, Import(TwoRows(), Lone(), StrayRecord()), Working) == Written
    ensures ReadRows(LoneRules().codec, TwoRows()).sets(0) == Some(map[9 := 10_000])
    ensures ReadImported(LoneRules().codec, TwoRows()).sets(0) == Some(map[1 := 10_000])
    ensures !Certifies(LoneRules(), LoneRows(), StrayRecord(), Lone())
  {
    hide ReadRows, ReadImported, RootOf, Leaves, RowAt, Padded, HomeOf;
    StrayCertifies();
    TwoRead();
    TwoFound();
    SameLeaves();
    LoneRead();
    assert EffectiveHeight(1, DEFAULT_EPOCH_LENGTH) == 0;
    assert 9 in Elements([9]);
  }

  // ----- a validator set imported that the block did not commit to

  /** The block's own validator-set row, filed under another column, behind a stray one in its place. */
  function Misfiled(): seq<Row> {
    [Row("validators", SetKey(), "stray"), Row("meta", SetKey(), ""), Row("governance", "blskey:one", ""),
     Row("meta", "meta:genesis_hash", "")]
  }

  /** Only the columns differ from `TwoRows`, and neither the trie nor the certificate check looks at them. */
  lemma {:induction false} ColumnsIgnored(rows: seq<Row>, other: seq<Row>, key: string)
    requires |rows| == |other|
    requires forall i :: 0 <= i < |rows| ==> rows[i].key == other[i].key && rows[i].value == other[i].value
    ensures RowAt(rows, key) == RowAt(other, key)
  {
    if rows != [] {
      ColumnsIgnored(rows[1..], other[1..], key);
    }
  }

  lemma {:induction false} ColumnsUnhashed(rows: seq<Row>, other: seq<Row>)
    requires |rows| == |other|
    requires forall i :: 0 <= i < |rows| ==> rows[i].key == other[i].key && rows[i].value == other[i].value
    ensures Leaves(Path, rows) == Leaves(Path, other)
  {
    hide IsStateKey, AsBytes, Path;
    if rows != [] {
      ColumnsUnhashed(rows[..|rows| - 1], other[..|other| - 1]);
    }
  }

  lemma MisfiledReadable()
    ensures Readable(Misfiled(), SetKey()) == Some("stray")
  {
    hide Padded, HomeOf;
    Homes();
    var rows, key := Misfiled(), SetKey();
    assert key[0] == 'v' && "blskey:one"[0] == 'b' && "meta:genesis_hash"[0] == 'm';
    assert rows[..4] == rows && rows[..3] == rows[..4][..3];
    assert rows[..2] == rows[..3][..2] && rows[..1] == rows[..2][..1];
    assert Readable(rows[..1], key) == Some("stray");
    assert Readable(rows[..2], key) == Some("stray");
    assert Readable(rows[..3], key) == Some("stray");
  }

  lemma MisfiledChecked()
    ensures Certifies(LoneRules(), Misfiled(), StrayRecord(), Lone())
  {
    hide RowAt, Padded, HexBytes, StripPrefix, RootOf, Leaves, Holds, HomeOf, Certifies;
    StrayCertifies();
    forall key ensures RowAt(Misfiled(), key) == RowAt(TwoRows(), key) {
      ColumnsIgnored(Misfiled(), TwoRows(), key);
    }
    SameRows(LoneRules(), Misfiled(), TwoRows(), StrayRecord(), Lone());
  }

  lemma SameRows(rules: Rules, rows: seq<Row>, other: seq<Row>, certificate: Certificate, block: Block)
    requires forall key :: RowAt(rows, key) == RowAt(other, key)
    ensures Certifies(rules, rows, certificate, block) <==> Certifies(rules, other, certificate, block)
  {
    hide RowAt, Padded, GenesisBytes, Holds;
    var c, d := ReadRows(rules.codec, rows), ReadRows(rules.codec, other);
    forall h ensures c.sets(h) == d.sets(h) {
      assert RowAt(rows, "validator_set:" + Padded(h)) == RowAt(other, "validator_set:" + Padded(h));
    }
    forall a ensures c.keys(a) == d.keys(a) {
      assert RowAt(rows, "blskey:" + rules.codec.address(a)) == RowAt(other, "blskey:" + rules.codec.address(a));
    }
    if certificate.msg.slot.height == Height(block) {
      SameCarried(c, d, Height(block), certificate);
    }
  }

  /** The certificate passes, the rows hash to the block's root and the import is written; the block committed
      to validator 1, and the node reads validator 9: the set of the very certificate it checked. */
  lemma MisfiledImported()
    ensures Certifies(LoneRules(), Misfiled(), StrayRecord(), Lone())
    ensures Outcome(LoneRules(), LoneRules().genesis, Import(Misfiled(), Lone(), StrayRecord()), Working) == Written
    ensures Lookup(Leaves(Path, LoneRows()), Path(SetKey())) == Some(AsBytes(""))
    ensures LoneRules().root(Lone()) == RootOf(Leaves(Path, LoneRows()))
    ensures Readable(Misfiled(), SetKey()) == Some("stray")
    ensures ReadImported(LoneRules().codec, Misfiled()).sets(0) == Some(map[9 := 10_000])
  {
    hide ReadRows, RootOf, Leaves, RowAt, Padded, HomeOf, Certifies, Readable, AsBytes;
    MisfiledChecked();
    MisfiledReadable();
    ColumnsUnhashed(Misfiled(), TwoRows());
    SameLeaves();
    ColumnsIgnored(Misfiled(), TwoRows(), "meta:genesis_hash");
    TwoFound();
    OnePair(Path(SetKey()), Path("blskey:one"), LoneRows());
    PathsApart();
  }

  lemma PathsApart()
    ensures Path(SetKey()) != Path("blskey:one")
  {
    hide Padded;
    assert SetKey()[0] == 'v' && "blskey:one"[0] == 'b';
    assert Path(SetKey())[0] && !Path("blskey:one")[0];
  }
}

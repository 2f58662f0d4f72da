/** Checking a snapshot's finality record against the validator set and keys the snapshot itself
    carries (arxd/network/src/snapshot_sync.rs, `verify_certificate_against`): the same check any node
    makes, in the world the snapshot describes. */
module SnapshotCertificate {
  import opened TextFormat
  import opened VotingPower
  import opened Blocks
  import opened Tally

  datatype Row = Row(cf: string, key: string, value: string)

  // ----- what the downloaded rows say

  /** How stored values decode, and how an address is written; a value that does not decode is as good
      as missing. */
  datatype Codec = Codec(
    address: Address -> string,
    epochLength: string -> Option<nat>,
    powers: string -> Option<PowerMap>,
    blsKey: string -> Option<nat>,
    text: string -> Option<string>)

  const DEFAULT_EPOCH_LENGTH: nat := 1_800

  /** The value of the first row with this key, whatever its column family. */
  function RowAt(rows: seq<Row>, key: string): Option<string> {
    if rows == [] then None else if rows[0].key == key then Some(rows[0].value) else RowAt(rows[1..], key)
  }

  lemma {:induction false} RowAtFirst(rows: seq<Row>, key: string)
    ensures match RowAt(rows, key)
            case None => forall i :: 0 <= i < |rows| ==> rows[i].key != key
            case Some(value) =>
              exists i :: 0 <= i < |rows| && rows[i].key == key && rows[i].value == value
                          && forall j :: 0 <= j < i ==> rows[j].key != key
  {
    if rows != [] && rows[0].key != key {
      RowAtFirst(rows[1..], key);
      if RowAt(rows, key).Some? {
        var i :| 0 <= i < |rows[1..]| && rows[1..][i].key == key && rows[1..][i].value == RowAt(rows, key).value
                 && forall j :: 0 <= j < i ==> rows[1..][j].key != key;
        assert rows[i + 1] == rows[1..][i];
        assert forall j :: 1 <= j < i + 1 ==> rows[j] == rows[1..][j - 1];
      }
    }
  }

  /** `entry`. */
  function Entry<T>(rows: seq<Row>, key: string, decode: string -> Option<T>): Option<T> {
    var value := RowAt(rows, key);
    if value.None? then None else decode(value.value)
  }

  function Zeros(n: nat): string { seq(n, _ => '0') }

  /** A height as `{:020}` prints it. */
  function Padded(n: nat): string {
    var digits := PrintNat(n);
    if |digits| < 20 then Zeros(20 - |digits|) + digits else digits
  }

  function HexDigit(c: char): Option<nat> {
    if '0' <= c <= '9' then Some((c - '0') as nat)
    else if 'a' <= c <= 'f' then Some((c - 'a') as nat + 10)
    else if 'A' <= c <= 'F' then Some((c - 'A') as nat + 10)
    else None
  }

  /** `hex::decode`. */
  function HexBytes(s: string): Option<seq<nat>> {
    if s == [] then Some([])
    else if |s| == 1 || HexDigit(s[0]).None? || HexDigit(s[1]).None? then None
    else
      var rest := HexBytes(s[2..]);
      if rest.None? then None else Some([16 * HexDigit(s[0]).value + HexDigit(s[1]).value] + rest.value)
  }

  function StripPrefix(s: string): string {
    if |s| >= 2 && s[..2] == "0x" then s[2..] else s
  }

  /** The 32 bytes of a stored genesis hash. */
  function GenesisBytes(text: Option<string>): Option<seq<nat>> {
    if text.None? then None
    else
      var bytes := HexBytes(StripPrefix(text.value));
      if bytes.Some? && |bytes.value| == 32 then bytes else None
  }

  /** The epoch length in force, the validator-set rows by height, the registered keys, and the genesis
      hash the votes are signed under. */
  datatype Carried = Carried(epochLength: nat, sets: nat -> Option<PowerMap>, keys: Address -> Option<nat>,
                             genesis: Option<seq<nat>>)

  function ReadRows(codec: Codec, rows: seq<Row>): Carried {
    var epochLength: Option<nat> := Entry<nat>(rows, "chain_params", codec.epochLength);
    Carried(
      if epochLength.Some? then epochLength.value else DEFAULT_EPOCH_LENGTH,
      h => Entry(rows, "validator_set:" + Padded(h), codec.powers),
      a => Entry(rows, "blskey:" + codec.address(a), codec.blsKey),
      GenesisBytes(Entry(rows, "meta:genesis_hash", codec.text)))
  }

  /** `validator_set_effective_height`: the first height of the epoch. */
  function EffectiveHeight(height: nat, epochLength: nat): nat {
    var n := if epochLength == 0 then 1 else epochLength;
    height / n * n
  }

  // ----- what the texts mean

  function Power10(k: nat): nat {
    if k == 0 then 1 else 10 * Power10(k - 1)
  }

  lemma {:induction false} PrintedShort(n: nat, k: nat)
    requires n < Power10(k) && k > 0
    ensures |PrintNat(n)| <= k
    decreases k
  {
    if k > 1 && n >= 10 {
      PrintedShort(n / 10, k - 1);
    }
  }

  lemma {:induction false} ZerosAhead(k: nat, s: string)
    requires forall i :: 0 <= i < |s| ==> IsDigit(s[i])
    ensures forall i :: 0 <= i < k + |s| ==> IsDigit((Zeros(k) + s)[i])
    ensures DigitsValue(Zeros(k) + s) == DigitsValue(s)
    decreases |s|, k
  {
    var all := Zeros(k) + s;
    if s != [] {
      ZerosAhead(k, s[..|s| - 1]);
      assert all[..|all| - 1] == Zeros(k) + s[..|s| - 1];
    } else if k > 0 {
      ZerosAhead(k - 1, s);
      assert all[..k - 1] == Zeros(k - 1) + s;
    }
  }

  lemma TwentyDigits()
    ensures Power10(20) > U64_MAX
  {
    assert Power10(5) == 100_000;
    assert Power10(10) == 100_000 * Power10(5);
    assert Power10(15) == 100_000 * Power10(10);
    assert Power10(20) == 100_000 * Power10(15);
  }

  lemma DigitsParse(s: string, max: nat)
    requires s != [] && forall i :: 0 <= i < |s| ==> IsDigit(s[i])
    ensures DigitsValue(s) <= max ==> ParseNat(s, max) == Some(DigitsValue(s))
  {
    assert IsDigit(s[0]);
  }

  /** Heights are written twenty digits wide and read back as themselves: no two share a key. */
  lemma PaddedRead(h: U64)
    ensures |Padded(h)| == 20 && ParseNat(Padded(h), U64_MAX) == Some(h)
  {
    hide Power10, PrintNat, DigitsValue, ParseNat, IsDigit;
    var digits := PrintNat(h);
    TwentyDigits();
    PrintedShort(h, 20);
    PrintedValue(h);
    ZerosAhead(20 - |digits|, digits);
    assert Zeros(20 - |digits|) + digits == Padded(h) by { assert |digits| == 20 ==> Zeros(0) + digits == digits; }
    DigitsParse(Padded(h), U64_MAX);
  }

  const LOWER := "0123456789abcdef"
  const UPPER := "0123456789ABCDEF"

  lemma HexDigitIs(c: char, d: nat)
    ensures HexDigit(c) == Some(d) <==> d < 16 && (c == LOWER[d] || c == UPPER[d])
  {
  }

  function Nibble(d: nat): char
    requires d < 16
  {
    LOWER[d]
  }

  lemma NibbleRead(d: nat)
    requires d < 16
    ensures HexDigit(Nibble(d)) == Some(d)
  {
    HexDigitIs(Nibble(d), d);
  }

  /** `hex::encode`. */
  function HexText(bytes: seq<nat>): string
    requires forall i :: 0 <= i < |bytes| ==> bytes[i] < 256
  {
    if bytes == [] then [] else [Nibble(bytes[0] / 16), Nibble(bytes[0] % 16)] + HexText(bytes[1..])
  }

  lemma {:induction false} HexRead(bytes: seq<nat>)
    requires forall i :: 0 <= i < |bytes| ==> bytes[i] < 256
    ensures HexBytes(HexText(bytes)) == Some(bytes) && |HexText(bytes)| == 2 * |bytes|
    ensures forall i :: 0 <= i < |HexText(bytes)| ==> HexDigit(HexText(bytes)[i]).Some?
    decreases |bytes|
  {
    hide Nibble, HexDigit;
    if bytes != [] {
      HexRead(bytes[1..]);
      NibbleRead(bytes[0] / 16);
      NibbleRead(bytes[0] % 16);
      assert HexText(bytes)[2..] == HexText(bytes[1..]);
      assert [bytes[0]] + bytes[1..] == bytes;
    }
  }

  lemma PrefixStripped(s: string)
    ensures StripPrefix("0x" + s) == s
    ensures (|s| >= 2 ==> HexDigit(s[1]).Some?) ==> StripPrefix(s) == s
  {
    assert ("0x" + s)[2..] == s && ("0x" + s)[..2] == "0x";
    assert |s| >= 2 && s[..2] == "0x" ==> s[1] == s[..2][1] == 'x';
    assert HexDigit('x').None?;
  }

  /** A genesis hash is read back from its hex text, with the prefix or without; a text of another length is
      none. */
  lemma GenesisRead(bytes: seq<nat>)
    requires forall i :: 0 <= i < |bytes| ==> bytes[i] < 256
    ensures GenesisBytes(Some(HexText(bytes))) == GenesisBytes(Some("0x" + HexText(bytes)))
            == if |bytes| == 32 then Some(bytes) else None
  {
    hide HexText, HexBytes, HexDigit, StripPrefix, Nibble;
    HexRead(bytes);
    PrefixStripped(HexText(bytes));
  }

  /** The effective height is the first of its epoch, number `k`; without an epoch length each height is one. */
  lemma EpochStart(height: nat, epochLength: nat) returns (k: nat)
    ensures epochLength == 0 ==> EffectiveHeight(height, epochLength) == height
    ensures epochLength > 0 ==>
              && EffectiveHeight(height, epochLength) == k * epochLength
              && k * epochLength <= height < k * epochLength + epochLength
  {
    var n := if epochLength == 0 then 1 else epochLength;
    k := height / n;
    assert height == k * n + height % n;
  }

  // ----- the check

  /** The network as the snapshot describes it at its own height. */
  function Described(c: Carried, height: nat): World {
    var validators := c.sets(EffectiveHeight(height, c.epochLength));
    World(_ => if validators.Some? then validators.value else map[], (a, _) => c.keys(a))
  }

  /** The record names the block, the snapshot carries a set for its epoch and the genesis hash `home`
      that votes are signed under, and in the world it describes the record passes the check of
      `verify_finality_record`. */
  ghost predicate Fits(home: seq<nat>, c: Carried, record: Certificate, block: Block) {
    && record.msg.slot.height == Height(block) && record.msg.ballot.Precommit? && record.msg.ballot.block == block
    && c.sets(EffectiveHeight(Height(block), c.epochLength)).Some? && c.genesis == Some(home)
    && Holds(Described(c, Height(block)), record)
  }

  /** What the check means, row by row: the record is a precommit certificate of this very block; the first genesis row
      is the hash `home`; the first row of the epoch's validator set decodes; and the signers are as many of its
      members, with a quorum of its power and a key row each, whose signatures over the record's message are
      exactly the aggregate. */
  lemma FitsIff(home: seq<nat>, codec: Codec, rows: seq<Row>, record: Certificate, block: Block)
    ensures var c, h := ReadRows(codec, rows), Height(block);
            var members := Entry(rows, "validator_set:" + Padded(EffectiveHeight(h, c.epochLength)), codec.powers);
            Fits(home, c, record, block) <==>
            && record.msg.slot.height == h && record.msg.ballot.Precommit? && record.msg.ballot.block == block
            && GenesisBytes(Entry(rows, "meta:genesis_hash", codec.text)) == Some(home)
            && members.Some? && |Elements(record.signers)| == |record.signers| > 0
            && Elements(record.signers) <= members.value.Keys
            && PowerOf(members.value, Elements(record.signers)) >= QUORUM_POWER
            && (forall i :: 0 <= i < |record.signers| ==>
                  Entry(rows, "blskey:" + codec.address(record.signers[i]), codec.blsKey).Some?)
            && record.aggregate == multiset(Each(record.msg, KnownKeys(Described(c, h), h, record.signers)))
  {
    hide Padded, GenesisBytes, RowAt, PowerOf, KnownKeys, Holds, EffectiveHeight;
    var c, h := ReadRows(codec, rows), Height(block);
    HoldsIff(Described(c, h), record);
    KnownKeysCount(Described(c, h), h, record.signers);
  }

  /** The keys gathered so far are those the described world knows. */
  ghost predicate Gathered(c: Carried, height: nat, signers: seq<Address>, keys: seq<nat>) {
    keys == KnownKeys(Described(c, height), height, signers) && AllKnown(Described(c, height), height, signers)
  }

  lemma GatherOne(c: Carried, height: nat, signers: seq<Address>, i: nat, keys: seq<nat>)
    requires i < |signers| && Gathered(c, height, signers[..i], keys)
    ensures c.keys(signers[i]).Some? ==> Gathered(c, height, signers[..i + 1], keys + [c.keys(signers[i]).value])
    ensures c.keys(signers[i]).None? ==> !AllKnown(Described(c, height), height, signers)
  {
    assert signers[..i + 1][..i] == signers[..i];
    assert forall j :: 0 <= j < i ==> Described(c, height).key(signers[..i][j], height).Some?;
    assert Described(c, height).key(signers[i], height) == c.keys(signers[i]);
  }

  method VerifyCertificateAgainst(home: seq<nat>, codec: Codec, rows: seq<Row>, record: Certificate, block: Block)
      returns (ok: bool)
    ensures ok == Fits(home, ReadRows(codec, rows), record, block)
  {
    hide PowerOf, KnownKeys, AllKnown, VerifyAggregate, Gathered, ReadRows;
    var c := ReadRows(codec, rows);
    var height := Height(block);
    if record.msg.slot.height != height || !record.msg.ballot.Precommit? || record.msg.ballot.block != block {
      return false;
    }
    var effective := EffectiveHeight(height, c.epochLength);
    var found := c.sets(effective);
    if found.None? {
      return false;
    }
    var validators := found.value;
    assert Described(c, height).members(height) == validators;
    var unique: set<Address> := {};
    for i := 0 to |record.signers|
      invariant unique == Elements(record.signers[..i]) && NoRepeats(record.signers[..i])
    {
      assert record.signers[..i + 1] == record.signers[..i] + [record.signers[i]];
      if record.signers[i] in unique {
        return false;
      }
      unique := unique + {record.signers[i]};
    }
    assert record.signers[..|record.signers|] == record.signers;
    if !(unique <= validators.Keys) {
      return false;
    }
    var power := SignedPower(validators, record.signers);
    if power < QUORUM_POWER {
      return false;
    }
    var keys := [];
    NothingGathered(c, height, record.signers);
    for i := 0 to |record.signers|
      invariant Gathered(c, height, record.signers[..i], keys)
    {
      GatherOne(c, height, record.signers, i, keys);
      var key := c.keys(record.signers[i]);
      if key.None? {
        return false;
      }
      keys := keys + [key.value];
    }
    AllGathered(c, height, record.signers, keys);
    ok := c.genesis == Some(home) && VerifyAggregate(record.msg, keys, record.aggregate);
  }

  lemma NothingGathered(c: Carried, height: nat, signers: seq<Address>)
    ensures Gathered(c, height, signers[..0], [])
  {
  }

  lemma AllGathered(c: Carried, height: nat, signers: seq<Address>, keys: seq<nat>)
    requires Gathered(c, height, signers[..|signers|], keys)
    ensures keys == KnownKeys(Described(c, height), height, signers) && AllKnown(Described(c, height), height, signers)
  {
    assert signers[..|signers|] == signers;
  }
}

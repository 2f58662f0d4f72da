/** Proofs on the wire: siblings of empty subtrees are left out and a 256-bit map says which
    (core/poe/src/lib.rs `compress`, arxd/runtime/src/adjudicate.rs `decode_proofs`). */
module ProofCodec {
  import opened TextFormat
  import opened StateTrie

  const BITMAP_BYTES: nat := 32

  datatype WireProof = WireProof(key: KeyHash, value: Option<Bytes>, bitmap: seq<bv8>, siblings: seq<Hash>)

  // ----- the bitmap

  /** Bit `level` counts from the top bit of the first byte. */
  predicate Bit(bitmap: seq<bv8>, level: nat)
    requires level / 8 < |bitmap|
  {
    (bitmap[level / 8] >> (7 - level % 8)) & 1 == 1
  }

  lemma BitOfByte(b: bv8, i: nat, j: nat)
    requires i < 8 && j < 8
    ensures ((b | (1 << (7 - i))) >> (7 - j)) & 1 == 1 <==> i == j || (b >> (7 - j)) & 1 == 1
  {
  }

  /** Setting one bit leaves every other bit as it was. */
  lemma SetBit(bitmap: seq<bv8>, level: nat, other: nat)
    requires level / 8 < |bitmap| && other / 8 < |bitmap|
    ensures Bit(bitmap[level / 8 := bitmap[level / 8] | (1 << (7 - level % 8))], other) <==>
            other == level || Bit(bitmap, other)
  {
    BitOfByte(bitmap[level / 8], level % 8, other % 8);
    assert other / 8 == level / 8 && other % 8 == level % 8 ==> other == level;
  }

  /** The first `DEPTH` bits. */
  function BitsOf(bitmap: seq<bv8>): seq<bool>
    requires |bitmap| == BITMAP_BYTES
  {
    seq(DEPTH, i requires 0 <= i < DEPTH => Bit(bitmap, i))
  }

  // ----- leaving siblings out and putting them back

  /** Which siblings are carried. */
  function Marks(siblings: seq<Hash>): (marks: seq<bool>)
    requires |siblings| == DEPTH
    ensures |marks| == DEPTH
  {
    seq(DEPTH, i requires 0 <= i < DEPTH => siblings[i] != Default(DEPTH - 1 - i))
  }

  /** The carried siblings from `level` down, in order. */
  function Kept(siblings: seq<Hash>, level: nat): seq<Hash>
    requires |siblings| == DEPTH && level <= DEPTH
    decreases DEPTH - level
  {
    if level == DEPTH then []
    else (if siblings[level] != Default(DEPTH - 1 - level) then [siblings[level]] else []) + Kept(siblings, level + 1)
  }

  /** The siblings from `level` down that `bits` and the carried hashes `ss` stand for. */
  function Fill(bits: seq<bool>, ss: seq<Hash>, level: nat): Option<seq<Hash>>
    requires |bits| == DEPTH && level <= DEPTH
    decreases DEPTH - level
  {
    if level == DEPTH then (if ss == [] then Some([]) else None)
    else if bits[level] && ss == [] then None
    else
      var head := if bits[level] then ss[0] else Default(DEPTH - 1 - level);
      var rest := Fill(bits, if bits[level] then ss[1..] else ss, level + 1);
      if rest.None? then None else Some([head] + rest.value)
  }

  function Ones(bits: seq<bool>, level: nat): nat
    requires |bits| == DEPTH && level <= DEPTH
    decreases DEPTH - level
  {
    if level == DEPTH then 0 else (if bits[level] then 1 else 0) + Ones(bits, level + 1)
  }

  /** Expansion succeeds exactly when there is one hash per set bit, and gives every level a sibling. */
  lemma {:induction false} FillExact(bits: seq<bool>, ss: seq<Hash>, level: nat)
    requires |bits| == DEPTH && level <= DEPTH
    ensures Fill(bits, ss, level).Some? <==> |ss| == Ones(bits, level)
    ensures Fill(bits, ss, level).Some? ==> |Fill(bits, ss, level).value| == DEPTH - level
    decreases DEPTH - level
  {
    if level < DEPTH && (bits[level] ==> ss != []) {
      FillExact(bits, if bits[level] then ss[1..] else ss, level + 1);
    }
  }

  /** Expanding what was left out gives the siblings back. */
  lemma {:induction false} ExpandCompressed(siblings: seq<Hash>, level: nat)
    requires |siblings| == DEPTH && level <= DEPTH
    ensures Fill(Marks(siblings), Kept(siblings, level), level) == Some(siblings[level..])
    decreases DEPTH - level
  {
    hide Default;
    if level == DEPTH {
      assert siblings[level..] == [];
    } else {
      ExpandCompressed(siblings, level + 1);
      assert siblings[level..] == [siblings[level]] + siblings[level + 1..];
      if siblings[level] != Default(DEPTH - 1 - level) {
        assert Kept(siblings, level)[1..] == Kept(siblings, level + 1);
      } else {
        assert Kept(siblings, level) == Kept(siblings, level + 1);
      }
    }
  }

  /** No carried hash, taken at its level from `level` down, is one the wire form leaves out. */
  predicate Canonical(bits: seq<bool>, ss: seq<Hash>, level: nat)
    requires |bits| == DEPTH && level <= DEPTH && |ss| == Ones(bits, level)
    decreases DEPTH - level
  {
    if level == DEPTH then true
    else if bits[level] then ss[0] != Default(DEPTH - 1 - level) && Canonical(bits, ss[1..], level + 1)
    else Canonical(bits, ss, level + 1)
  }

  /** One level of an expansion. */
  lemma FillStep(bits: seq<bool>, ss: seq<Hash>, siblings: seq<Hash>, level: nat)
    requires |bits| == DEPTH && |siblings| == DEPTH && level < DEPTH
    requires Fill(bits, ss, level) == Some(siblings[level..])
    ensures bits[level] ==> ss != [] && siblings[level] == ss[0]
    ensures !bits[level] ==> siblings[level] == Default(DEPTH - 1 - level)
    ensures Fill(bits, if bits[level] then ss[1..] else ss, level + 1) == Some(siblings[level + 1..])
  {
    hide Default;
    assert siblings[level..][0] == siblings[level] && siblings[level..][1..] == siblings[level + 1..];
  }

  /** Two lists of bits agree from `level` on when they agree there and after. */
  lemma SuffixStep(a: seq<bool>, b: seq<bool>, level: nat)
    requires |a| == |b| && level < |a|
    ensures a[level..] == b[level..] <==> a[level] == b[level] && a[level + 1..] == b[level + 1..]
  {
    assert a[level..] == [a[level]] + a[level + 1..] && b[level..] == [b[level]] + b[level + 1..];
  }

  /** One level of what is carried. */
  lemma KeptStep(siblings: seq<Hash>, level: nat)
    requires |siblings| == DEPTH && level < DEPTH
    ensures var kept := siblings[level] != Default(DEPTH - 1 - level);
            && Marks(siblings)[level] == kept
            && Kept(siblings, level) == (if kept then [siblings[level]] else []) + Kept(siblings, level + 1)
  {
    hide Default;
  }

  lemma ConsEqual(x: Hash, rest: seq<Hash>, ss: seq<Hash>)
    requires ss != [] && ss[0] == x
    ensures [x] + rest == ss <==> rest == ss[1..]
  {
    assert ss == [x] + ss[1..];
    assert ([x] + rest)[1..] == rest;
  }

  lemma CanonicalStep(bits: seq<bool>, ss: seq<Hash>, level: nat)
    requires |bits| == DEPTH && level < DEPTH && |ss| == Ones(bits, level)
    ensures bits[level] ==> |ss[1..]| == Ones(bits, level + 1)
    ensures !bits[level] ==> |ss| == Ones(bits, level + 1)
    ensures Canonical(bits, ss, level) <==>
            if bits[level] then ss[0] != Default(DEPTH - 1 - level) && Canonical(bits, ss[1..], level + 1)
            else Canonical(bits, ss, level + 1)
  {
    hide Default;
  }

  /** A wire form is the one `compress` produces exactly when it carries no default. */
  lemma {:induction false} CompressExpanded(bits: seq<bool>, ss: seq<Hash>, siblings: seq<Hash>, level: nat)
    requires |bits| == DEPTH && |siblings| == DEPTH && level <= DEPTH
    requires Fill(bits, ss, level) == Some(siblings[level..])
    ensures |ss| == Ones(bits, level)
    ensures Canonical(bits, ss, level) <==> Kept(siblings, level) == ss && Marks(siblings)[level..] == bits[level..]
    decreases DEPTH - level
  {
    FillExact(bits, ss, level);
    if level == DEPTH {
      assert Marks(siblings)[level..] == bits[level..];
    } else {
      hide Default, Fill, Kept, Canonical, Marks, Ones;
      FillStep(bits, ss, siblings, level);
      var rest := if bits[level] then ss[1..] else ss;
      CompressExpanded(bits, rest, siblings, level + 1);
      CanonicalStep(bits, ss, level);
      KeptStep(siblings, level);
      SuffixStep(Marks(siblings), bits, level);
      if bits[level] {
        ConsEqual(siblings[level], Kept(siblings, level + 1), ss);
      } else {
        assert [] + Kept(siblings, level + 1) == Kept(siblings, level + 1);
      }
    }
  }

  // ----- whole proofs

  /** The proof a wire proof stands for. */
  ghost function Decoded(w: WireProof): Option<Proof> {
    if |w.bitmap| != BITMAP_BYTES then None
    else
      var filled := Fill(BitsOf(w.bitmap), w.siblings, 0);
      if filled.None? then None else Some(Proof(w.key, w.value, filled.value))
  }

  /** Expanding `ss` from `level` on, after `done`, gives `whole`. */
  ghost predicate Expanding(bits: seq<bool>, ss: seq<Hash>, level: nat, done: seq<Hash>, whole: Option<seq<Hash>>)
    requires |bits| == DEPTH && level <= DEPTH
  {
    var rest := Fill(bits, ss, level);
    whole == if rest.None? then None else Some(done + rest.value)
  }

  lemma ExpandStart(bits: seq<bool>, ss: seq<Hash>)
    requires |bits| == DEPTH
    ensures Expanding(bits, ss, 0, [], Fill(bits, ss, 0))
  {
    hide Fill;
    assert forall s: seq<Hash> :: [] + s == s;
  }

  lemma ExpandOne(bits: seq<bool>, ss: seq<Hash>, level: nat, done: seq<Hash>, whole: Option<seq<Hash>>)
    requires |bits| == DEPTH && level < DEPTH && Expanding(bits, ss, level, done, whole)
    ensures bits[level] && ss == [] ==> whole.None?
    ensures bits[level] && ss != [] ==> Expanding(bits, ss[1..], level + 1, done + [ss[0]], whole)
    ensures !bits[level] ==> Expanding(bits, ss, level + 1, done + [Default(DEPTH - 1 - level)], whole)
  {
    hide Default;
    if bits[level] ==> ss != [] {
      var head := if bits[level] then ss[0] else Default(DEPTH - 1 - level);
      var rest := Fill(bits, if bits[level] then ss[1..] else ss, level + 1);
      if rest.Some? {
        assert done + ([head] + rest.value) == done + [head] + rest.value;
      }
    }
  }

  lemma ExpandEnd(bits: seq<bool>, ss: seq<Hash>, done: seq<Hash>, whole: Option<seq<Hash>>)
    requires |bits| == DEPTH && Expanding(bits, ss, DEPTH, done, whole)
    ensures whole == if ss == [] then Some(done) else None
  {
    assert done + [] == done;
  }

  /** One element of `decode_proofs`. */
  method DecodeProof(w: WireProof) returns (r: Option<Proof>)
    ensures r == Decoded(w)
  {
    hide Fill, Default, Bit, Expanding;
    if |w.bitmap| != BITMAP_BYTES {
      return None;
    }
    ghost var bits := BitsOf(w.bitmap);
    ghost var whole := Fill(bits, w.siblings, 0);
    var siblings, used := [], 0;
    assert w.siblings[0..] == w.siblings;
    ExpandStart(bits, w.siblings);
    for level := 0 to DEPTH
      invariant used <= |w.siblings|
      invariant Expanding(bits, w.siblings[used..], level, siblings, whole)
    {
      ExpandOne(bits, w.siblings[used..], level, siblings, whole);
      if Bit(w.bitmap, level) {
        if used == |w.siblings| {
          return None;
        }
        assert w.siblings[used..][1..] == w.siblings[used + 1..];
        siblings, used := siblings + [w.siblings[used]], used + 1;
      } else {
        siblings := siblings + [Default(DEPTH - 1 - level)];
      }
    }
    ExpandEnd(bits, w.siblings[used..], siblings, whole);
    if used < |w.siblings| {
      return None;
    }
    r := Some(Proof(w.key, w.value, siblings));
  }

  /** The marks of the levels above `level` are set, and nothing else is. */
  ghost predicate MarkedTo(bitmap: seq<bv8>, marks: seq<bool>, level: nat) {
    && |bitmap| == BITMAP_BYTES && |marks| == DEPTH
    && forall i :: 0 <= i < DEPTH ==> BitsOf(bitmap)[i] == (i < level && marks[i])
  }

  function WithBit(bitmap: seq<bv8>, level: nat): (more: seq<bv8>)
    requires level / 8 < |bitmap|
    ensures |more| == |bitmap|
  {
    bitmap[level / 8 := bitmap[level / 8] | (1 << (7 - level % 8))]
  }

  lemma MarkOne(bitmap: seq<bv8>, marks: seq<bool>, level: nat)
    requires level < DEPTH && MarkedTo(bitmap, marks, level)
    ensures MarkedTo(if marks[level] then WithBit(bitmap, level) else bitmap, marks, level + 1)
  {
    hide Bit;
    if marks[level] {
      forall i | 0 <= i < DEPTH ensures BitsOf(WithBit(bitmap, level))[i] == (i < level + 1 && marks[i]) {
        SetBit(bitmap, level, i);
        assert BitsOf(bitmap)[i] == (i < level && marks[i]);
      }
    } else {
      assert forall i :: 0 <= i < DEPTH ==> (i < level && marks[i] <==> i < level + 1 && marks[i]);
    }
  }

  /** `compress`. */
  method Compress(p: Proof) returns (w: WireProof)
    requires |p.siblings| == DEPTH
    ensures w.key == p.key && w.value == p.value
    ensures |w.bitmap| == BITMAP_BYTES && BitsOf(w.bitmap) == Marks(p.siblings)
    ensures w.siblings == Kept(p.siblings, 0)
  {
    hide Default, Bit, MarkedTo, BitsOf, Marks, Kept, WithBit;
    var bitmap: seq<bv8> := seq(BITMAP_BYTES, _ => 0);
    var kept: seq<Hash> := [];
    ClearBitmap(bitmap, Marks(p.siblings));
    assert [] + Kept(p.siblings, 0) == Kept(p.siblings, 0);
    for level := 0 to DEPTH
      invariant |bitmap| == BITMAP_BYTES && MarkedTo(bitmap, Marks(p.siblings), level)
      invariant kept + Kept(p.siblings, level) == Kept(p.siblings, 0)
    {
      MarkOne(bitmap, Marks(p.siblings), level);
      KeepOne(p.siblings, level, kept);
      if p.siblings[level] != Default(DEPTH - 1 - level) {
        bitmap := WithBit(bitmap, level);
        kept := kept + [p.siblings[level]];
      }
    }
    KeepEnd(p.siblings, kept);
    AllMarked(bitmap, Marks(p.siblings));
    w := WireProof(p.key, p.value, bitmap, kept);
  }

  lemma KeepOne(siblings: seq<Hash>, level: nat, kept: seq<Hash>)
    requires |siblings| == DEPTH && level < DEPTH
    ensures Marks(siblings)[level] == (siblings[level] != Default(DEPTH - 1 - level))
    ensures kept + Kept(siblings, level) ==
            (if Marks(siblings)[level] then kept + [siblings[level]] else kept) + Kept(siblings, level + 1)
  {
    hide Default;
  }

  lemma KeepEnd(siblings: seq<Hash>, kept: seq<Hash>)
    requires |siblings| == DEPTH
    ensures kept + Kept(siblings, DEPTH) == kept
  {
  }

  lemma ClearBitmap(bitmap: seq<bv8>, marks: seq<bool>)
    requires |bitmap| == BITMAP_BYTES && |marks| == DEPTH && forall i :: 0 <= i < BITMAP_BYTES ==> bitmap[i] == 0
    ensures MarkedTo(bitmap, marks, 0)
  {
  }

  lemma AllMarked(bitmap: seq<bv8>, marks: seq<bool>)
    requires MarkedTo(bitmap, marks, DEPTH)
    ensures BitsOf(bitmap) == marks
  {
    hide Bit;
  }

  /** Whatever `compress` sends, `decode_proofs` reads back as the proof it came from. */
  lemma WireRoundTrip(p: Proof, w: WireProof)
    requires |p.siblings| == DEPTH && w.key == p.key && w.value == p.value
    requires |w.bitmap| == BITMAP_BYTES && BitsOf(w.bitmap) == Marks(p.siblings) && w.siblings == Kept(p.siblings, 0)
    ensures Decoded(w) == Some(p)
  {
    hide Marks, Kept, Fill, BitsOf;
    ExpandCompressed(p.siblings, 0);
    assert p.siblings[0..] == p.siblings;
  }

  /** A wire proof is accepted against the root of `m` exactly when it states the value `m` has and
      expands to the siblings `m` has: no other wire proof of that key verifies. */
  lemma WireProofExact(m: State, w: WireProof)
    ensures Decoded(w).Some? && Verifies(RootOf(m), Decoded(w).value) <==>
            Decoded(w) == Some(Proof(w.key, Lookup(m, w.key), SiblingsOf(m, w.key)))
  {
    hide Verifies, RootOf, SiblingsOf, Fill;
    if Decoded(w).Some? {
      ProofExact(m, Decoded(w).value);
    }
  }
}

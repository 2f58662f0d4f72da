/** Running the chain's own code on proofs instead of a database (arxd/runtime/src/adjudicate.rs).
    A phase of block execution is an arbitrary deterministic program over key reads; this module
    runs one on the full ledger and on a proof-backed trie and shows the two stay in lockstep up to
    the first access the proofs do not cover. */
module Replay {
  import opened TextFormat
  import opened StateTrie
  import opened ProofTrie
  import opened ProofCoverage

  /** A raw key: in the Merkleized column families (`is_state_key`), or outside them. */
  datatype Key = InTrie(hash: KeyHash) | OffTrie(id: nat)

  /** A full node's state. */
  datatype Ledger = Ledger(state: State, meta: map<nat, Bytes>)

  function Fetch(l: Ledger, key: Key): Option<Bytes> {
    match key
    case InTrie(k) => Lookup(l.state, k)
    case OffTrie(id) => if id in l.meta then Some(l.meta[id]) else None
  }

  datatype Update = Update(key: Key, value: Option<Bytes>)

  /** A committed write. */
  function Store(l: Ledger, u: Update): Ledger {
    match u.key
    case InTrie(k) => l.(state := Put(l.state, k, u.value))
    case OffTrie(id) => l.(meta := if u.value.Some? then l.meta[id := u.value.value] else l.meta - {id})
  }

  function StoreAll(l: Ledger, us: seq<Update>): Ledger
    decreases |us|
  {
    if us == [] then l else StoreAll(Store(l, us[0]), us[1..])
  }

  // ----- programs

  /** What a program does next. `wrapped` says how a failed read surfaces: bare, as the storage
      error itself, or wrapped in a circuit's own error type. */
  datatype Request = Read(key: Key, wrapped: bool) | Stop

  /** Any deterministic program making at most `limit` reads, each chosen from the answers so far. */
  datatype Program<R> = Program(limit: nat, ask: seq<Option<Bytes>> -> Request, finish: seq<Option<Bytes>> -> R)

  function Ask<R>(p: Program<R>, answers: seq<Option<Bytes>>): Request {
    if |answers| >= p.limit then Stop else p.ask(answers)
  }

  function RunFull<R>(p: Program<R>, answers: seq<Option<Bytes>>, l: Ledger): R
    decreases p.limit - |answers|
  {
    match Ask(p, answers)
    case Stop => p.finish(answers)
    case Read(key, _) => RunFull(p, answers + [Fetch(l, key)], l)
  }

  datatype Ran<R> = Done(value: R) | Blocked(wrapped: bool)

  /** `ProofBackedView::get`: anything outside the trie is unproven before the trie is asked. */
  function FetchProven(t: Partial, key: Key): Answer {
    if key.OffTrie? then Unproven else Get(t, key.hash)
  }

  function RunProof<R>(p: Program<R>, answers: seq<Option<Bytes>>, t: Partial): Ran<R>
    decreases p.limit - |answers|
  {
    match Ask(p, answers)
    case Stop => Done(p.finish(answers))
    case Read(key, wrapped) =>
      match FetchProven(t, key)
      case Unproven => Blocked(wrapped)
      case Known(value) => RunProof(p, answers + [value], t)
  }

  /** `apply_entries(state_entries(..))`: only Merkleized keys are written, in order, and the first
      one the trie cannot place stops the rest. */
  function ApplyAll(t: Partial, us: seq<Update>): Option<Partial>
    decreases |us|
  {
    if us == [] then Some(t)
    else if us[0].key.OffTrie? then ApplyAll(t, us[1..])
    else
      var next := Apply(t, us[0].key.hash, us[0].value);
      if next.None? then None else ApplyAll(next.value, us[1..])
  }

  // ----- what a run touches

  /** One access, and whether the adjudicator blames the proposer when the proofs do not cover it. */
  datatype Access = ReadOf(key: Key, blames: bool) | WriteOf(hash: KeyHash)

  /** The reads a program makes on the full ledger. */
  function Reads<R>(p: Program<R>, answers: seq<Option<Bytes>>, l: Ledger, dispatching: bool): seq<Access>
    decreases p.limit - |answers|
  {
    match Ask(p, answers)
    case Stop => []
    case Read(key, wrapped) =>
      [ReadOf(key, dispatching && wrapped)] + Reads(p, answers + [Fetch(l, key)], l, dispatching)
  }

  function Writes(us: seq<Update>): seq<Access> {
    if us == [] then []
    else (if us[0].key.InTrie? then [WriteOf(us[0].key.hash)] else []) + Writes(us[1..])
  }

  /** `a` can be answered from the proofs, given the accesses before it: a read needs its value
      proven or written earlier in the block, a write needs its path proven. */
  predicate Covered(t: Partial, before: seq<Access>, a: Access) {
    match a
    case ReadOf(key, _) => key.InTrie? && (KnowsValue(t, key.hash) || WriteOf(key.hash) in before)
    case WriteOf(k) => KnowsPath(t, k)
  }

  /** The first access of `trace`, run after `before`, that the proofs do not cover. */
  function FirstGap(t: Partial, before: seq<Access>, trace: seq<Access>): Option<Access>
    decreases |trace|
  {
    if trace == [] then None
    else if !Covered(t, before, trace[0]) then Some(trace[0])
    else FirstGap(t, before + [trace[0]], trace[1..])
  }

  lemma {:induction false} GapConcat(t: Partial, before: seq<Access>, a: seq<Access>, b: seq<Access>)
    ensures FirstGap(t, before, a + b) ==
            if FirstGap(t, before, a).Some? then FirstGap(t, before, a) else FirstGap(t, before + a, b)
    decreases |a|
  {
    if a == [] {
      assert a + b == b && before + a == before;
    } else {
      assert (a + b)[0] == a[0] && (a + b)[1..] == a[1..] + b;
      GapConcat(t, before + [a[0]], a[1..], b);
      assert before + [a[0]] + a[1..] == before + a;
    }
  }

  // ----- lockstep

  /** `t`, started as `t0` and written as `before` says, is a partial view of `l` and can answer
      exactly what `Covered` predicts. */
  ghost predicate InStep(t: Partial, l: Ledger, t0: Partial, before: seq<Access>) {
    && Views(t, l.state)
    && (forall k :: KnowsPath(t, k) <==> KnowsPath(t0, k))
    && (forall k :: KnowsValue(t, k) <==> KnowsValue(t0, k) || WriteOf(k) in before)
  }

  /** Reading changes nothing that matters. */
  lemma ReadsStayInStep<R>(t: Partial, l: Ledger, t0: Partial, before: seq<Access>, p: Program<R>,
                           answers: seq<Option<Bytes>>, dispatching: bool)
    requires InStep(t, l, t0, before)
    ensures InStep(t, l, t0, before + Reads(p, answers, l, dispatching))
  {
    NoWrites(p, answers, l, dispatching);
  }

  lemma {:induction false} NoWrites<R>(p: Program<R>, answers: seq<Option<Bytes>>, l: Ledger, dispatching: bool)
    ensures forall k :: WriteOf(k) !in Reads(p, answers, l, dispatching)
    decreases p.limit - |answers|
  {
    match Ask(p, answers)
    case Stop =>
    case Read(key, _) => NoWrites(p, answers + [Fetch(l, key)], l, dispatching);
  }

  /** A program run on proofs computes what it computes on the full ledger, or stops at its first
      uncovered read and reports how that read fails. */
  lemma {:induction false} RunInStep<R>(p: Program<R>, answers: seq<Option<Bytes>>, t: Partial, l: Ledger,
                                        t0: Partial, before: seq<Access>, dispatching: bool)
    requires InStep(t, l, t0, before)
    ensures var gap := FirstGap(t0, before, Reads(p, answers, l, dispatching));
            && (gap.None? ==> RunProof(p, answers, t) == Done(RunFull(p, answers, l)))
            && (gap.Some? ==> RunProof(p, answers, t).Blocked? && gap.value.ReadOf?
                              && gap.value.blames == (dispatching && RunProof(p, answers, t).wrapped))
    decreases p.limit - |answers|
  {
    match Ask(p, answers)
    case Stop =>
    case Read(key, wrapped) =>
      if key.InTrie? && KnowsValue(t, key.hash) {
        GetTrue(t, l.state, key.hash);
        var a := ReadOf(key, dispatching && wrapped);
        var rest := Reads(p, answers + [Fetch(l, key)], l, dispatching);
        assert Reads(p, answers, l, dispatching)[1..] == rest;
        assert forall k :: WriteOf(k) in before + [a] <==> WriteOf(k) in before;
        RunInStep(p, answers + [Fetch(l, key)], t, l, t0, before + [a], dispatching);
      }
  }

  /** One write. */
  lemma StoreInStep(u: Update, t: Partial, l: Ledger, t0: Partial, before: seq<Access>)
    requires InStep(t, l, t0, before) && u.key.InTrie? && KnowsPath(t, u.key.hash)
    ensures Apply(t, u.key.hash, u.value).Some?
    ensures InStep(Apply(t, u.key.hash, u.value).value, Store(l, u), t0, before + [WriteOf(u.key.hash)])
  {
    var k := u.key.hash;
    ApplyTrue(t, l.state, k, u.value);
    forall j ensures KnowsPath(Apply(t, k, u.value).value, j) <==> KnowsPath(t, j) {
      ApplyKeepsPaths(t, l.state, k, u.value, j);
    }
    forall j ensures KnowsValue(Apply(t, k, u.value).value, j) <==> j == k || KnowsValue(t, j) {
      ApplyKeepsValues(t, l.state, k, u.value, j);
    }
  }

  lemma NothingWritten(t: Partial, l: Ledger, t0: Partial, before: seq<Access>)
    ensures Writes([]) == [] && ApplyAll(t, []) == Some(t) && StoreAll(l, []) == l
    ensures FirstGap(t0, before, []).None? && before + [] == before
  {
  }

  lemma OneWritten(us: seq<Update>, t: Partial, l: Ledger)
    requires us != []
    ensures StoreAll(l, us) == StoreAll(Store(l, us[0]), us[1..])
    ensures us[0].key.OffTrie? ==> Writes(us) == Writes(us[1..]) && ApplyAll(t, us) == ApplyAll(t, us[1..])
    ensures us[0].key.InTrie? ==>
              var next := Apply(t, us[0].key.hash, us[0].value);
              && Writes(us) == [WriteOf(us[0].key.hash)] + Writes(us[1..])
              && ApplyAll(t, us) == if next.None? then None else ApplyAll(next.value, us[1..])
  {
    hide Apply;
  }

  lemma GapFirst(t: Partial, before: seq<Access>, a: Access, rest: seq<Access>)
    ensures FirstGap(t, before, [a] + rest) == if !Covered(t, before, a) then Some(a)
      else FirstGap(t, before + [a], rest)
  {
    hide Covered;
    assert ([a] + rest)[1..] == rest;
  }

  lemma WriteCovered(t: Partial, l: Ledger, t0: Partial, before: seq<Access>, k: KeyHash)
    requires InStep(t, l, t0, before)
    ensures Covered(t0, before, WriteOf(k)) <==> KnowsPath(t, k)
  {
  }

  lemma OffTrieInStep(u: Update, t: Partial, l: Ledger, t0: Partial, before: seq<Access>)
    requires InStep(t, l, t0, before) && u.key.OffTrie?
    ensures InStep(t, Store(l, u), t0, before)
  {
  }

  lemma ApplyNeedsPath(t: Partial, k: KeyHash, v: Option<Bytes>)
    ensures Apply(t, k, v).Some? <==> KnowsPath(t, k)
  {
  }

  /** Writing a batch of updates on proofs stays in step with the full ledger, or stops at the first
      uncovered write. */
  lemma {:induction false} WritesInStep(us: seq<Update>, t: Partial, l: Ledger, t0: Partial, before: seq<Access>)
    requires InStep(t, l, t0, before)
    ensures var gap := FirstGap(t0, before, Writes(us));
            && (gap.Some? ==> ApplyAll(t, us).None? && gap.value.WriteOf?)
            && (gap.None? ==> && ApplyAll(t, us).Some?
                              && InStep(ApplyAll(t, us).value, StoreAll(l, us), t0, before + Writes(us)))
    decreases |us|
  {
    hide Apply, Put, InStep, Covered, KnowsPath, FirstGap, ApplyAll, StoreAll, Writes;
    if us == [] {
      NothingWritten(t, l, t0, before);
    } else if us[0].key.OffTrie? {
      OneWritten(us, t, l);
      OffTrieInStep(us[0], t, l, t0, before);
      WritesInStep(us[1..], t, Store(l, us[0]), t0, before);
    } else {
      var a := WriteOf(us[0].key.hash);
      OneWritten(us, t, l);
      GapFirst(t0, before, a, Writes(us[1..]));
      ApplyNeedsPath(t, us[0].key.hash, us[0].value);
      WriteCovered(t, l, t0, before, us[0].key.hash);
      if KnowsPath(t, us[0].key.hash) {
        StoreInStep(us[0], t, l, t0, before);
        WritesInStep(us[1..], Apply(t, us[0].key.hash, us[0].value).value, Store(l, us[0]), t0, before + [a]);
        assert before + [a] + Writes(us[1..]) == before + ([a] + Writes(us[1..]));
      }
    }
  }
}

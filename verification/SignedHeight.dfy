/** The proposal record: the highest (height, round) this validator signed a block for
    (arxd/node/src/validator.rs, `SignedHeight`), its text, and that no run signs a round twice. */
module SignedHeightFile {
  import opened TextFormat
  import VoteRecord

  type Write = VoteRecord.Write

  datatype Mark = Mark(height: nat, round: nat)

  predicate Fits(m: Mark) {
    m.height <= U64_MAX && m.round <= U32_MAX
  }

  /** Tuples compare height first. */
  predicate Before(a: Mark, b: Mark) {
    a.height < b.height || (a.height == b.height && a.round < b.round)
  }

  const NOTHING := Mark(0, 0)

  // ----- the text

  function Print(genesis: Token, m: Mark): string {
    genesis + " " + (PrintNat(m.height) + " " + PrintNat(m.round))
  }

  /** A file without a round predates rounds: every round of its height stays refused. */
  function Parse(genesis: Token, text: string): Option<Mark> {
    var ws := Words(text);
    if |ws| == 3 && ws[0] == genesis then
      var h, r := ParseNat(ws[1], U64_MAX), ParseNat(ws[2], U32_MAX);
      if h.None? || r.None? then None else Some(Mark(h.value, r.value))
    else if |ws| == 2 && ws[0] == genesis then
      var h := ParseNat(ws[1], U64_MAX);
      if h.None? then None else Some(Mark(h.value, U32_MAX))
    else if |ws| == 2 || |ws| == 3 then Some(NOTHING)
    else None
  }

  function Loaded(genesis: Token, file: Option<string>): (m: Option<Mark>)
    ensures m.Some? ==> Fits(m.value)
  {
    if file.None? then Some(NOTHING) else Parse(genesis, file.value)
  }

  lemma LoadPersisted(genesis: Token, m: Mark)
    requires Fits(m)
    ensures Parse(genesis, Print(genesis, m)) == Some(m)
  {
    hide Words, PrintNat, ParseNat, IsToken;
    WordThenSpace(genesis, PrintNat(m.height) + " " + PrintNat(m.round));
    WordThenSpace(PrintNat(m.height), PrintNat(m.round));
    WordAlone(PrintNat(m.round));
    ParsePrinted(m.height, U64_MAX);
    ParsePrinted(m.round, U32_MAX);
  }

  /** After a file from before rounds were tracked, no round of that height is signed again. */
  lemma LegacyRefusesHeight(genesis: Token, h: U64, r: U32)
    ensures var kept := Parse(genesis, genesis + " " + PrintNat(h));
            kept.Some? && !Before(kept.value, Mark(h, r)) && Before(kept.value, Mark(h + 1, 0))
  {
    hide Words, PrintNat, ParseNat, IsToken;
    WordThenSpace(genesis, PrintNat(h));
    WordAlone(PrintNat(h));
    ParsePrinted(h, U64_MAX);
  }

  /** No file, or another chain's, holds nothing yet; a text of another length is refused. */
  lemma LoadOther(genesis: Token, other: Token, m: Mark, text: string)
    requires other != genesis && Fits(m) && |Words(text)| != 2 && |Words(text)| != 3
    ensures Loaded(genesis, None) == Some(Mark(0, 0))
    ensures Loaded(genesis, Some(Print(other, m))) == Some(Mark(0, 0))
    ensures Loaded(genesis, Some(other + " " + PrintNat(m.height))) == Some(Mark(0, 0))
    ensures Loaded(genesis, Some(text)).None?
  {
    hide Words, PrintNat, ParseNat, IsToken;
    WordThenSpace(other, PrintNat(m.height) + " " + PrintNat(m.round));
    WordThenSpace(PrintNat(m.height), PrintNat(m.round));
    WordAlone(PrintNat(m.round));
    WordThenSpace(other, PrintNat(m.height));
    WordAlone(PrintNat(m.height));
  }

  // ----- the object

  class SignedHeight {
    const genesis: Token
    var last: Mark
    var file: Option<string>

    ghost predicate Valid()
      reads this
    {
      Fits(last) && Loaded(genesis, file).Some?
    }

    ghost function Contents(): Keeper
      reads this
      requires Valid()
    {
      Keeper(last, Loaded(genesis, file).value)
    }

    constructor (genesis: Token, file: Option<string>)
      requires Loaded(genesis, file).Some?
      ensures Valid() && this.genesis == genesis && this.file == file
      ensures Contents() == Keeper(Loaded(genesis, file).value, Loaded(genesis, file).value)
    {
      this.genesis, this.file := genesis, file;
      this.last := Loaded(genesis, file).value;
    }

    /** `claim`. */
    method Claim(height: U64, round: U32, write: Write) returns (ok: bool)
      requires Valid()
      modifies this
      ensures Valid()
      ensures (Contents(), ok) == Step(old(Contents()), Mark(height, round), write)
    {
      var m := Mark(height, round);
      if !Before(last, m) {
        return false;
      }
      if !write.Lost? {
        LoadPersisted(genesis, m);
        file := Some(Print(genesis, m));
      }
      if !write.Durable? {
        return false;
      }
      last := m;
      ok := true;
    }
  }

  /** `load`. */
  method Load(genesis: Token, file: Option<string>) returns (signed: SignedHeight?)
    ensures signed == null <==> Loaded(genesis, file).None?
    ensures signed != null ==> && fresh(signed) && signed.Valid() && signed.genesis == genesis && signed.file == file
                               && signed.Contents() == Keeper(Loaded(genesis, file).value, Loaded(genesis, file).value)
  {
    if Loaded(genesis, file).None? {
      return null;
    }
    signed := new SignedHeight(genesis, file);
  }

  // ----- whole runs

  /** What the process holds and what a restart would load. */
  datatype Keeper = Keeper(mem: Mark, disk: Mark)

  /** One claim: granted only past everything held, and only once the file has it. */
  function Step(k: Keeper, m: Mark, write: Write): (Keeper, bool) {
    if !Before(k.mem, m) || write.Lost? then (k, false)
    else if write.Torn? then (k.(disk := m), false)
    else (Keeper(m, m), true)
  }

  datatype Event = Claim(mark: Mark, write: Write) | Restart

  /** The keeper after `run`, and everything granted, in order. */
  function Exec(start: Keeper, run: seq<Event>): (Keeper, seq<Mark>) {
    if run == [] then (start, [])
    else
      var (k, signed) := Exec(start, run[..|run| - 1]);
      match run[|run| - 1]
      case Restart => (Keeper(k.disk, k.disk), signed)
      case Claim(m, write) =>
        var (k', ok) := Step(k, m, write);
        (k', if ok then signed + [m] else signed)
  }

  predicate NotAfter(a: Mark, b: Mark) {
    a == b || Before(a, b)
  }

  /** Over every run of claims, failed and half-done writes and restarts, each granted mark is past
      every earlier one, and both the process and the file stay at or past the last. */
  lemma {:induction false} OnlyForward(start: Mark, run: seq<Event>)
    ensures var (k, signed) := Exec(Keeper(start, start), run);
            && (forall i, j :: 0 <= i < j < |signed| ==> Before(signed[i], signed[j]))
            && (forall i :: 0 <= i < |signed| ==>
                  Before(start, signed[i]) && NotAfter(signed[i], k.mem) && NotAfter(signed[i], k.disk))
            && NotAfter(start, k.mem) && NotAfter(start, k.disk)
  {
    if run != [] {
      OnlyForward(start, run[..|run| - 1]);
    }
  }

  /** Exactly when a claim is granted, and what a failed one leaves: it must be of a later height than anything
      held, or of a later round of the same, with a durable write; a write that tore refuses the mark from the
      next restart on, and a lost one leaves nothing. */
  lemma GrantedIff(start: Mark, run: seq<Event>, m: Mark, write: Write)
    ensures var k := Exec(Keeper(start, start), run).0;
            var (after, ok) := Step(k, m, write);
            var past := m.height > k.mem.height || (m.height == k.mem.height && m.round > k.mem.round);
            && (ok <==> past && write.Durable?)
            && (ok ==> after == Keeper(m, m)) && (!ok ==> after.mem == k.mem)
            && (past && write.Torn? ==> !Step(Keeper(after.disk, after.disk), m, VoteRecord.Durable).1)
            && (!past || write.Lost? ==> after == k)
  {
  }

  /** While no write tears, what is held is the last mark granted: the next one is granted exactly when it is past
      that. */
  lemma {:induction false} HeldIsLast(start: Mark, run: seq<Event>)
    requires forall i :: 0 <= i < |run| && run[i].Claim? ==> !run[i].write.Torn?
    ensures var (k, signed) := Exec(Keeper(start, start), run);
            k == if signed == [] then Keeper(start, start) else Keeper(signed[|signed| - 1], signed[|signed| - 1])
  {
    if run != [] {
      HeldIsLast(start, run[..|run| - 1]);
    }
  }

  /** No (height, round) is granted twice, whatever happens in between. */
  lemma NoRoundTwice(start: Mark, run: seq<Event>, i: nat, j: nat)
    requires i < j < |Exec(Keeper(start, start), run).1|
    ensures var signed := Exec(Keeper(start, start), run).1; signed[i] != signed[j]
  {
    OnlyForward(start, run);
  }
}

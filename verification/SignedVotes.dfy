/** The slashing-protection file and the object that keeps it (arxd/finality/src/signed_votes.rs):
    its text form loses nothing, and every operation is the one `VoteRecord` describes. */
module SignedVotesFile {
  import opened TextFormat
  import opened VoteRecord

  // ----- one line per vote

  function Letter(k: Kind): Token {
    match k
    case Prevote => "v"
    case Precommit => "p"
    case Timeout => "t"
  }

  function PrintEntry(e: Entry<Token>): string {
    Letter(e.kind) + " " + (PrintNat(e.height) + " " + (PrintNat(e.round) + " " + e.hash))
  }

  function ParseEntry(line: string): Option<Entry<Token>> {
    var ws := Words(line);
    if |ws| != 4 || (ws[0] != "v" && ws[0] != "p" && ws[0] != "t") then None
    else
      var kind := if ws[0] == "v" then Prevote else if ws[0] == "p" then Precommit else Timeout;
      var height, round := ParseNat(ws[1], U64_MAX), ParseNat(ws[2], U32_MAX);
      if height.None? || round.None? then None else Some(Entry(kind, height.value, round.value, ws[3]))
  }

  predicate Fits(e: Entry<Token>) {
    e.height <= U64_MAX && e.round <= U32_MAX
  }

  lemma EntryRoundTrip(e: Entry<Token>)
    requires Fits(e)
    ensures ParseEntry(PrintEntry(e)) == Some(e)
  {
    hide Words, PrintNat, ParseNat, IsToken;
    var tail := PrintNat(e.round) + " " + e.hash;
    WordThenSpace(Letter(e.kind), PrintNat(e.height) + " " + tail);
    WordThenSpace(PrintNat(e.height), tail);
    WordThenSpace(PrintNat(e.round), e.hash);
    WordAlone(e.hash);
    ParsePrinted(e.height, U64_MAX);
    ParsePrinted(e.round, U32_MAX);
  }

  // ----- the whole file

  /** One line per entry, each ended by a newline. */
  function PrintEntries(es: seq<Entry<Token>>): string {
    if es == [] then [] else PrintEntries(es[..|es| - 1]) + (PrintEntry(es[|es| - 1]) + "\n")
  }

  /** What `persist` writes. */
  function Print(genesis: Token, rec: Record<Token>): string {
    genesis + " " + PrintNat(rec.floor) + "\n" + PrintEntries(rec.entries)
  }

  /** Every line an entry, or `None`. */
  function ParseEntries(lines: seq<string>): Option<seq<Entry<Token>>> {
    if lines == [] then Some([])
    else
      var before, last := ParseEntries(lines[..|lines| - 1]), ParseEntry(lines[|lines| - 1]);
      if before.None? || last.None? then None else Some(before.value + [last.value])
  }

  /** What `load` makes of the file's text: `None` is the malformed error. */
  function Parse(genesis: Token, text: string): Option<Record<Token>> {
    var lines := Lines(text);
    var header := Words(if lines == [] then "" else lines[0]);
    if |header| != 2 then None
    else if header[0] != genesis then Some(Empty())
    else
      var floor, entries := ParseNat(header[1], U64_MAX), ParseEntries(lines[1..]);
      if floor.None? || entries.None? then None else Some(Record(floor.value, entries.value))
  }

  /** `load`: no file is an empty record. */
  function Loaded(genesis: Token, file: Option<string>): Option<Record<Token>> {
    if file.None? then Some(Empty()) else Parse(genesis, file.value)
  }

  predicate Sized(rec: Record<Token>) {
    rec.floor <= U64_MAX && forall i :: 0 <= i < |rec.entries| ==> Fits(rec.entries[i])
  }

  /** A token, spaces and more tokens make one clean line. */
  lemma OneLine(e: Entry<Token>)
    ensures '\n' !in PrintEntry(e) && PrintEntry(e) != [] && PrintEntry(e)[|PrintEntry(e)| - 1] != '\r'
  {
    assert forall t: Token :: NoSpace(t) ==> '\n' !in t;
    assert IsToken(e.hash) && !IsSpace(e.hash[|e.hash| - 1]);
    assert PrintEntry(e)[|PrintEntry(e)| - 1] == e.hash[|e.hash| - 1];
  }

  /** Printed entries followed by `rest` read back as those entries' lines. */
  lemma {:induction false} EntriesThenRest(es: seq<Entry<Token>>, rest: string)
    ensures Lines(PrintEntries(es) + rest) == EntryLines(es) + Lines(rest)
    decreases |es|
  {
    hide Lines, PrintEntry;
    if es == [] {
      assert PrintEntries(es) + rest == rest;
    } else {
      var n := |es| - 1;
      var line := PrintEntry(es[n]);
      OneLine(es[n]);
      assert PrintEntries(es) + rest == PrintEntries(es[..n]) + (line + "\n" + rest);
      EntriesThenRest(es[..n], line + "\n" + rest);
      LineThenRest(line, rest);
      assert EntryLines(es[..n]) + ([line] + Lines(rest)) == EntryLines(es[..n]) + [line] + Lines(rest);
    }
  }

  function EntryLines(es: seq<Entry<Token>>): seq<string> {
    if es == [] then [] else EntryLines(es[..|es| - 1]) + [PrintEntry(es[|es| - 1])]
  }

  lemma {:induction false} EntriesRoundTrip(es: seq<Entry<Token>>)
    requires forall i :: 0 <= i < |es| ==> Fits(es[i])
    ensures ParseEntries(EntryLines(es)) == Some(es)
  {
    hide PrintEntry, ParseEntry;
    if es != [] {
      var n := |es| - 1;
      EntriesRoundTrip(es[..n]);
      EntryRoundTrip(es[n]);
      assert EntryLines(es)[..|EntryLines(es)| - 1] == EntryLines(es[..n]);
      assert es[..n] + [es[n]] == es;
    }
  }

  /** The header reads back, whatever follows it. */
  lemma HeaderLine(genesis: Token, floor: nat, rest: string)
    requires floor <= U64_MAX
    ensures var header := genesis + " " + PrintNat(floor);
            && Lines(header + "\n" + rest) == [header] + Lines(rest)
            && Words(header) == [genesis, PrintNat(floor)]
            && ParseNat(PrintNat(floor), U64_MAX) == Some(floor)
  {
    var digits := PrintNat(floor);
    var header := genesis + " " + digits;
    assert IsToken(genesis) && IsToken(digits);
    assert '\n' !in header;
    assert IsDigit(digits[|digits| - 1]) && header[|header| - 1] == digits[|digits| - 1];
    LineThenRest(header, rest);
    WordThenSpace(genesis, digits);
    WordAlone(digits);
    ParsePrinted(floor, U64_MAX);
  }

  /** What was persisted is what a restart loads: every entry, in order, and the floor. */
  lemma LoadPersisted(genesis: Token, rec: Record<Token>)
    requires Sized(rec)
    ensures Parse(genesis, Print(genesis, rec)) == Some(rec)
  {
    hide Lines, Words, PrintNat, ParseNat, PrintEntry, ParseEntry;
    var text := PrintEntries(rec.entries);
    HeaderLine(genesis, rec.floor, text);
    assert text + [] == text;
    EntriesThenRest(rec.entries, []);
    assert Lines([]) == [] by { NoLines(); }
    EntriesRoundTrip(rec.entries);
    assert EntryLines(rec.entries) + [] == EntryLines(rec.entries);
  }

  lemma NoLines()
    ensures Lines([]) == [] && Words([]) == []
  {
  }

  /** Another chain's file is no record at all. */
  lemma LoadOtherChain(genesis: Token, other: Token, rec: Record<Token>)
    requires Sized(rec) && genesis != other
    ensures Parse(genesis, Print(other, rec)) == Some(Empty())
  {
    hide Lines, Words, PrintNat, ParseNat, PrintEntries, ParseEntries;
    HeaderLine(other, rec.floor, PrintEntries(rec.entries));
  }

  lemma {:induction false} ParsedFit(lines: seq<string>)
    ensures ParseEntries(lines).Some? ==> forall i :: 0 <= i < |ParseEntries(lines).value| ==>
      Fits(ParseEntries(lines).value[i])
  {
    if lines != [] {
      ParsedFit(lines[..|lines| - 1]);
    }
  }

  /** Anything that loads can be persisted and loaded again unchanged, whoever wrote the file. */
  lemma LoadedIsSized(genesis: Token, text: string)
    requires Parse(genesis, text).Some?
    ensures Sized(Parse(genesis, text).value)
  {
    hide ParseEntries;
    ParsedFit(Lines(text)[1..]);
  }

  // ----- the object

  /** `SignedVotes`, with the text of the file it owns. */
  class SignedVotes {
    const genesis: Token
    var floor: nat
    var entries: seq<Entry<Token>>
    var file: Option<string>

    /** The file holds a record of this chain's votes (or none), and the fields fit their types. */
    ghost predicate Valid()
      reads this
    {
      Sized(Record(floor, entries)) && Loaded(genesis, file).Some?
    }

    /** What is in memory, and what a restart would load. */
    ghost function Contents(): Store<Token>
      requires Valid()
      reads this
    {
      Store(Record(floor, entries), Loaded(genesis, file).value)
    }

    constructor (genesis: Token, file: Option<string>, rec: Record<Token>)
      requires Loaded(genesis, file) == Some(rec) && Sized(rec)
      ensures Valid() && Contents() == Store(rec, rec)
      ensures this.genesis == genesis && this.file == file
    {
      this.genesis, this.file := genesis, file;
      this.floor, this.entries := rec.floor, rec.entries;
    }

    /** `persist`: the whole text, then a replacement that ends as `write` says. */
    method Persist(write: Write) returns (ok: bool)
      requires Valid()
      modifies `file
      ensures Valid() && ok == write.Durable?
      ensures var rec := Record(floor, entries);
              Contents() == Store(rec, if write.Lost? then old(Contents()).disk else rec)
    {
      hide PrintEntry;
      var text := genesis + " " + PrintNat(floor) + "\n";
      ghost var header := text;
      for i := 0 to |entries|
        invariant text == header + PrintEntries(entries[..i])
      {
        assert entries[..i + 1][..i] == entries[..i];
        text := text + (PrintEntry(entries[i]) + "\n");
      }
      assert entries[..|entries|] == entries;
      if !write.Lost? {
        LoadPersisted(genesis, Record(floor, entries));
        file := Some(text);
      }
      ok := write.Durable?;
    }

    /** `claim`. */
    method Claim(e: Entry<Token>, write: Write) returns (refused: Option<Refusal>)
      requires Valid() && Fits(e)
      modifies this
      ensures Valid()
      ensures VoteRecord.Claim(old(Contents()), e, write) ==
              if refused.None? then Granted(Contents()) else Refused(Contents(), refused.value)
    {
      hide Loaded, AtSlot, LeftRound;
      var rec := Record(floor, entries);
      var slot := AtSlot(entries, e.kind, e.height, e.round);
      if e.height <= floor {
        return Some(BelowFloor);
      }
      if slot.Some? {
        return if slot.value.hash != e.hash then Some(Conflict) else None;
      }
      if !e.kind.Timeout? && LeftRound(entries, e.height, e.round) {
        return Some(RoundLeft);
      }
      entries := entries + [e];
      var ok := Persist(write);
      if !ok {
        entries := entries[..|entries| - 1];
        return Some(NotDurable);
      }
      refused := None;
    }

    /** `claim_prevote`. */
    method ClaimPrevote(h: U64, r: U32, hash: Token, pol: Option<U32>, write: Write) returns (refused: Option<Refusal>)
      requires Valid()
      modifies this
      ensures Valid()
      ensures VoteRecord.ClaimPrevote(old(Contents()), h, r, hash, pol, write) ==
              if refused.None? then Granted(Contents()) else Refused(Contents(), refused.value)
    {
      hide Lock, Loaded, VoteRecord.Claim;
      var lock := Lock(entries, h);
      if lock.Some? && lock.value.hash != hash && !(pol.Some? && lock.value.round <= pol.value <= r) {
        return Some(Locked);
      }
      refused := Claim(Entry(Prevote, h, r, hash), write);
    }

    /** `prune_below`. */
    method PruneBelow(cutoff: U64, write: Write) returns (ok: bool)
      requires Valid()
      modifies this
      ensures Valid()
      ensures Contents() == Prune(old(Contents()), cutoff, write)
    {
      hide Loaded;
      var mark := if cutoff == 0 then 0 else cutoff - 1;
      if mark <= floor {
        return true;
      }
      floor := mark;
      entries := Above(entries, mark);
      assert forall i :: 0 <= i < |entries| ==> entries[i] in old(entries);
      ok := Persist(write);
    }
  }

  /** `load`. */
  method Load(genesis: Token, file: Option<string>) returns (votes: SignedVotes?)
    ensures votes == null <==> Loaded(genesis, file).None?
    ensures votes != null ==> && fresh(votes) && votes.Valid() && votes.genesis == genesis && votes.file == file
                              && votes.Contents() == Store(Loaded(genesis, file).value, Loaded(genesis, file).value)
  {
    hide ParseEntry, Words, Lines, ParseNat;
    if file.None? {
      votes := new SignedVotes(genesis, file, Empty());
      return;
    }
    NoLines();
    var lines := Lines(file.value);
    var header := Words(if lines == [] then "" else lines[0]);
    if |header| != 2 {
      return null;
    }
    if header[0] != genesis {
      votes := new SignedVotes(genesis, file, Empty());
      return;
    }
    var floor := ParseNat(header[1], U64_MAX);
    if floor.None? {
      return null;
    }
    var body := lines[1..];
    var entries: seq<Entry<Token>> := [];
    for i := 0 to |body|
      invariant ParseEntries(body[..i]) == Some(entries)
    {
      var e := ParseEntry(body[i]);
      assert body[..i + 1][..i] == body[..i];
      if e.None? {
        MalformedLine(body, i);
        return null;
      }
      entries := entries + [e.value];
    }
    assert body[..|body|] == body;
    LoadedIsSized(genesis, file.value);
    votes := new SignedVotes(genesis, file, Record(floor.value, entries));
  }

  lemma {:induction false} MalformedLine(lines: seq<string>, i: nat)
    requires i < |lines| && ParseEntry(lines[i]).None?
    ensures ParseEntries(lines).None?
  {
    hide ParseEntry;
    if i < |lines| - 1 {
      MalformedLine(lines[..|lines| - 1], i);
    }
  }
}

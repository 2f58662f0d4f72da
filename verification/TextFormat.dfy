/** The text the durable records are written in: decimal numbers, whitespace-separated words,
    newline-terminated lines - Rust's `format!`, `parse`, `split_whitespace` and `lines`. */
module TextFormat {

  datatype Option<+T> = None | Some(value: T)

  const U64_MAX: nat := 0xFFFF_FFFF_FFFF_FFFF
  const U32_MAX: nat := 0xFFFF_FFFF

  type U64 = n: nat | n <= U64_MAX
  type U32 = n: nat | n <= U32_MAX

  /** Unicode White_Space, what `char::is_whitespace` tests. */
  predicate IsSpace(c: char) {
    var n := c as int;
    || 9 <= n <= 13 || n == 0x20 || n == 0x85 || n == 0xA0 || n == 0x1680
    || 0x2000 <= n <= 0x200A || n == 0x2028 || n == 0x2029 || n == 0x202F || n == 0x205F || n == 0x3000
  }

  predicate NoSpace(s: string) {
    forall i :: 0 <= i < |s| ==> !IsSpace(s[i])
  }

  predicate IsToken(s: string) {
    s != [] && NoSpace(s)
  }

  /** A hash or genesis string: non-empty and free of whitespace. */
  type Token = s: string | IsToken(s) witness "0"

  // ----- decimal numbers

  predicate IsDigit(c: char) { '0' <= c <= '9' }

  function Digit(d: nat): char
    requires d < 10
  {
    '0' + d as char
  }

  /** `format!("{n}")`. */
  function PrintNat(n: nat): (s: string)
    ensures IsToken(s)
    ensures forall i :: 0 <= i < |s| ==> IsDigit(s[i])
  {
    if n < 10 then [Digit(n)] else PrintNat(n / 10) + [Digit(n % 10)]
  }

  function DigitsValue(s: string): nat
    requires forall i :: 0 <= i < |s| ==> IsDigit(s[i])
  {
    if s == [] then 0
    else
      var last := s[|s| - 1];
      assert IsDigit(last);
      10 * DigitsValue(s[..|s| - 1]) + (last as int - '0' as int)
  }

  /** `str::parse` of an unsigned integer type with maximum `max`: an optional leading `+`, then at
      least one digit and nothing else, and no overflow. */
  function ParseNat(s: string, max: nat): Option<nat> {
    var digits := if s != [] && s[0] == '+' then s[1..] else s;
    if digits == [] || exists i :: 0 <= i < |digits| && !IsDigit(digits[i]) then None
    else if DigitsValue(digits) > max then None
    else Some(DigitsValue(digits))
  }

  lemma {:induction false} PrintedValue(n: nat)
    ensures DigitsValue(PrintNat(n)) == n
  {
    var s := PrintNat(n);
    if n < 10 {
      assert s[..0] == [];
    } else {
      PrintedValue(n / 10);
      assert s[..|s| - 1] == PrintNat(n / 10);
    }
  }

  lemma ParsePrinted(n: nat, max: nat)
    requires n <= max
    ensures ParseNat(PrintNat(n), max) == Some(n)
  {
    PrintedValue(n);
    assert IsDigit(PrintNat(n)[0]);
  }

  // ----- words

  /** The words of `s`, given the characters `word` already read of the current one. */
  function WordsFrom(word: string, s: string): (ws: seq<Token>)
    requires NoSpace(word)
    decreases |s|
  {
    var done: seq<Token> := if word == [] then [] else [word];
    if s == [] then done
    else if IsSpace(s[0]) then done + WordsFrom([], s[1..])
    else WordsFrom(word + [s[0]], s[1..])
  }

  /** `split_whitespace`. */
  function Words(s: string): seq<Token> { WordsFrom([], s) }

  lemma {:induction false} ReadToken(word: string, t: string, rest: string)
    requires NoSpace(word) && NoSpace(t)
    ensures WordsFrom(word, t + rest) == WordsFrom(word + t, rest)
    decreases |t|
  {
    if t == [] {
      assert t + rest == rest && word + t == word;
    } else {
      assert (t + rest)[0] == t[0] && (t + rest)[1..] == t[1..] + rest;
      ReadToken(word + [t[0]], t[1..], rest);
      assert word + [t[0]] + t[1..] == word + t;
    }
  }

  lemma WordThenSpace(t: Token, rest: string)
    ensures Words(t + " " + rest) == [t] + Words(rest)
  {
    assert t + " " + rest == t + (" " + rest);
    ReadToken([], t, " " + rest);
    assert [] + t == t && (" " + rest)[1..] == rest;
  }

  lemma WordAlone(t: Token)
    ensures Words(t) == [t]
  {
    ReadToken([], t, []);
    assert t + [] == t && [] + t == t;
  }

  // ----- lines

  function DropReturn(s: string): string {
    if s != [] && s[|s| - 1] == '\r' then s[..|s| - 1] else s
  }

  function LinesFrom(line: string, s: string): seq<string>
    decreases |s|
  {
    if s == [] then if line == [] then [] else [line]
    else if s[0] == '\n' then [DropReturn(line)] + LinesFrom([], s[1..])
    else LinesFrom(line + [s[0]], s[1..])
  }

  /** `str::lines`. */
  function Lines(s: string): seq<string> { LinesFrom([], s) }

  lemma {:induction false} ReadLine(line: string, t: string, rest: string)
    requires '\n' !in t
    ensures LinesFrom(line, t + rest) == LinesFrom(line + t, rest)
    decreases |t|
  {
    if t == [] {
      assert t + rest == rest && line + t == line;
    } else {
      assert (t + rest)[0] == t[0] && (t + rest)[1..] == t[1..] + rest;
      ReadLine(line + [t[0]], t[1..], rest);
      assert line + [t[0]] + t[1..] == line + t;
    }
  }

  lemma LineThenRest(line: string, rest: string)
    requires '\n' !in line && (line == [] || line[|line| - 1] != '\r')
    ensures Lines(line + "\n" + rest) == [line] + Lines(rest)
  {
    assert line + "\n" + rest == line + ("\n" + rest);
    ReadLine([], line, "\n" + rest);
    assert [] + line == line && ("\n" + rest)[1..] == rest;
  }

  /** A line ended the other way reads the same. */
  lemma LineThenReturn(line: string, rest: string)
    requires '\n' !in line
    ensures Lines(line + "\r\n" + rest) == [line] + Lines(rest)
  {
    var ended := line + "\r";
    assert line + "\r\n" + rest == ended + ("\n" + rest);
    ReadLine([], ended, "\n" + rest);
    assert [] + ended == ended && ("\n" + rest)[1..] == rest && ended[..|ended| - 1] == line;
  }
}

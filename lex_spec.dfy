/** Reference semantics of the FML lexer (src/fml/parser.py).

    Every token builder of the lexer is described here by a pure function over
    the whole input `s` and the index `i` of the pending character.  Such a
    function returns a `Run`: how the builder ended, the index just past the
    last character it took, the characters it added to the `value` buffer, and
    the unknown escape characters it warned about.  The characters it added to
    the `chars` buffer are always exactly `s[i..end]`: every `take` appends the
    character it consumes, whatever the builder does with it afterwards.
 */
module LexSpec {

  datatype Option<T> = None | Some(value: T)

  /** The four token classes, in place of the source's method-name strings. */
  datatype Kind = Newline | Space | Quoted | Unquoted

  /** `value` is the decoded text, `chars` the raw text consumed. */
  datatype Token = Token(kind: Kind, value: string, chars: string)

  /** The failures `reject` raises; their message wording is not modelled. */
  datatype LexError =
    | UnterminatedQuote(chars: string)     // carries the raw chars of the token so far
    | BareQuote                            // a quote in the middle of a bare word
    | InvalidDigit(digit: char, base: nat) // a numeric escape digit outside the base

  /** How a builder ended: normally, by `take` finding no pending character
      (Python's StopIteration), or by `reject`. */
  datatype Outcome = Done | Stopped | Failed(error: LexError)

  datatype Run = Run(outcome: Outcome, end: nat, value: string, warnings: seq<char>)

  /** What one call of `__next__` produces. */
  datatype Step = Emit(token: Token) | End | Fail(error: LexError)

  /** A step and the index of the pending character after it. */
  datatype Advance = Advance(step: Step, end: nat)

  /** The pending character at index `i`, or None at end of input. */
  function Peek(s: string, i: nat): (r: Option<char>)
    ensures r.Some? <==> i < |s|
    ensures r.Some? ==> r.value == s[i]
  {
    if i < |s| then Some(s[i]) else None
  }

  /** Prepends what an earlier part of a builder produced to the rest of its run. */
  function Prefixed(value: string, warnings: seq<char>, r: Run): Run
  {
    Run(r.outcome, r.end, value + r.value, warnings + r.warnings)
  }

  lemma AppendAssoc<T>(a: seq<T>, b: seq<T>, c: seq<T>)
    ensures (a + b) + c == a + (b + c)
  {
  }

  /** Taking `s[i..j]` and then `s[j..k]` after `raw` takes `s[i..k]`. */
  lemma TakeMore(raw: string, s: string, i: nat, j: nat, k: nat)
    requires i <= j <= k <= |s|
    ensures (raw + s[i..j]) + s[j..k] == raw + s[i..k]
  {
    assert s[i..k] == s[i..j] + s[j..k];
    AppendAssoc(raw, s[i..j], s[j..k]);
  }

  /** `run` is what remains of a builder's run once it has produced `value`
      and `warnings`: it has the same outcome and end, minus that prefix. */
  predicate Continues(run: Run, value: string, warnings: seq<char>, rest: Run)
  {
    && run.outcome == rest.outcome
    && run.end == rest.end
    && run.value == value + rest.value
    && run.warnings == warnings + rest.warnings
  }

  lemma ContinuesStart(run: Run)
    ensures Continues(run, [], [], run)
  {
    assert [] + run.value == run.value && [] + run.warnings == run.warnings;
  }

  lemma ContinuesStep(run: Run, value: string, warnings: seq<char>, v: string, w: seq<char>, rest: Run)
    requires Continues(run, value, warnings, Prefixed(v, w, rest))
    ensures Continues(run, value + v, warnings + w, rest)
  {
    AppendAssoc(value, v, rest.value);
    AppendAssoc(warnings, w, rest.warnings);
  }

  lemma ContinuesStop(run: Run, value: string, warnings: seq<char>, o: Outcome, end: nat)
    requires Continues(run, value, warnings, Run(o, end, [], []))
    ensures run == Run(o, end, value, warnings)
  {
    assert value + [] == value && warnings + [] == warnings;
  }

  // ---------------------------------------------------------------------
  // Character classes and position counters

  predicate IsBlank(c: char) { c == ' ' || c == '\t' }

  /** The characters that end a bare word: newline, space and tab. */
  predicate IsSeparator(c: char) { c == '\n' || IsBlank(c) }

  /** The dispatch of `__next__` on the pending character. */
  function Classify(c: char): (k: Kind)
    ensures k == Newline <==> c == '\n'
    ensures k == Space <==> IsBlank(c)
    ensures k == Quoted <==> c == '"'
    ensures k == Unquoted <==> !IsSeparator(c) && c != '"'
  {
    if c == '\n' then Newline
    else if IsBlank(c) then Space
    else if c == '"' then Quoted
    else Unquoted
  }

  /** Line breaks among the first `n` characters of `s`, counted as `take`
      counts them (one per character). */
  function Newlines(s: string, n: nat): nat
    requires n <= |s|
  {
    if n == 0 then 0
    else Newlines(s, n - 1) + (if s[n - 1] == '\n' then 1 else 0)
  }

  /** The column counter after taking the first `n` characters of `s`: reset
      by a line break, one more after any other character. */
  function Column(s: string, n: nat): nat
    requires n <= |s|
  {
    if n == 0 then 0
    else if s[n - 1] == '\n' then 0
    else Column(s, n - 1) + 1
  }

  // ---------------------------------------------------------------------
  // Escape tables

  /** The table of one-character escapes after a backslash. */
  const SimpleEscapes: map<char, char> := map[
    '\\' := '\\',
    '"' := '"',
    'a' := 7 as char,
    'b' := 8 as char,
    'f' := 12 as char,
    'n' := 10 as char,
    'r' := 13 as char,
    't' := 9 as char,
    'v' := 11 as char
  ]

  /** The digits a numeric escape accepts, as the source's table lists them
      for the two bases the escapes use. */
  function ValidDigits(base: nat): string
    requires base == 8 || base == 16
  {
    if base == 8 then "01234567" else "0123456789abcdefABCDEF"
  }

  /** Membership in `ValidDigits(base)`, by character ranges (the lemma
      IsDigitMatchesTable shows the two agree). */
  predicate IsDigit(c: char, base: nat)
  {
    if base == 8 then '0' <= c <= '7'
    else '0' <= c <= '9' || 'a' <= c <= 'f' || 'A' <= c <= 'F'
  }

  /** The number a digit character stands for, as `int(_, base)` reads it. */
  function DigitValue(c: char): nat
  {
    if '0' <= c <= '9' then c as nat - '0' as nat
    else if 'a' <= c <= 'f' then c as nat - 'a' as nat + 10
    else if 'A' <= c <= 'F' then c as nat - 'A' as nat + 10
    else 0
  }

  predicate AllDigits(d: string, base: nat)
    requires base == 8 || base == 16
  {
    forall k :: 0 <= k < |d| ==> IsDigit(d[k], base)
  }

  function Pow(b: nat, n: nat): nat
  {
    if n == 0 then 1 else b * Pow(b, n - 1)
  }

  /** `int(d, base)` for a string of valid digits, most significant first. */
  function ParseInt(d: string, base: nat): nat
  {
    if d == [] then 0
    else ParseInt(d[..|d| - 1], base) * base + DigitValue(d[|d| - 1])
  }

  lemma DigitBelowBase(c: char, base: nat)
    requires base == 8 || base == 16
    requires IsDigit(c, base)
    ensures DigitValue(c) < base
  {
  }

  lemma {:induction false} ParseIntBelowPow(d: string, base: nat)
    requires base == 8 || base == 16
    requires AllDigits(d, base)
    ensures ParseInt(d, base) < Pow(base, |d|)
  {
    if d != [] {
      var init := d[..|d| - 1];
      assert AllDigits(init, base) by {
        forall k | 0 <= k < |init| ensures IsDigit(init[k], base) {
          assert init[k] == d[k];
        }
      }
      ParseIntBelowPow(init, base);
      DigitBelowBase(d[|d| - 1], base);
      var p := ParseInt(init, base);
      var q := Pow(base, |init|);
      assert p + 1 <= q;
      assert (p + 1) * base <= q * base;
    }
  }

  /** The code point a numeric escape of at most two digits decodes to. */
  function DecodeDigits(d: string, base: nat): (c: char)
    requires base == 8 || base == 16
    requires |d| <= 2 && AllDigits(d, base)
    ensures c as int == ParseInt(d, base) < 256
  {
    ParseIntBelowPow(d, base);
    assert Pow(base, |d|) <= 256;
    ParseInt(d, base) as char
  }

  // ---------------------------------------------------------------------
  // The builders

  /** `newline`: accepts the one line break. */
  function NewlineRun(s: string, i: nat): (r: Run)
    requires i < |s| && s[i] == '\n'
    ensures r.outcome == Done && r.end == i + 1
    ensures r.value == s[i..r.end] == "\n" && r.warnings == []
  {
    Run(Done, i + 1, [s[i]], [])
  }

  /** The index just past the run of spaces and tabs that starts at `i`. */
  function SpaceEnd(s: string, i: nat): (j: nat)
    requires i <= |s|
    decreases |s| - i
    ensures i <= j <= |s|
  {
    if i < |s| && IsBlank(s[i]) then SpaceEnd(s, i + 1) else i
  }

  /** `space`: accepts a maximal run of spaces and tabs. */
  function SpaceRun(s: string, i: nat): (r: Run)
    requires i < |s| && IsBlank(s[i])
    ensures i < r.end <= |s|
  {
    var j := SpaceEnd(s, i);
    Run(Done, j, s[i..j], [])
  }

  /** `unquoted`: accepts characters up to a separator or the end of input,
      and rejects a quote met on the way. */
  function UnquotedRun(s: string, i: nat): (r: Run)
    requires i <= |s|
    decreases |s| - i
    ensures i <= r.end <= |s|
  {
    if i == |s| then Run(Done, i, [], [])
    else if s[i] == '"' then Run(Failed(BareQuote), i, [], [])
    else if IsSeparator(s[i]) then Run(Done, i, [], [])
    else Prefixed([s[i]], [], UnquotedRun(s, i + 1))
  }

  /** One character of a bare word, accepted into both buffers. */
  lemma UnquotedAfterChar(s: string, i: nat, run: Run, v: string, w: seq<char>)
    requires i < |s| && s[i] != '"' && !IsSeparator(s[i])
    requires Continues(run, v, w, UnquotedRun(s, i))
    ensures Continues(run, v + [s[i]], w, UnquotedRun(s, i + 1))
  {
    ContinuesStep(run, v, w, [s[i]], [], UnquotedRun(s, i + 1));
    assert w + [] == w;
  }

  /** `number`: takes `digits` characters, each of which must be a digit of
      `base`; yields how the taking ended and the index past what it took. */
  function TakeDigits(s: string, k: nat, base: nat, digits: nat): (r: (Outcome, nat))
    requires k <= |s| && (base == 8 || base == 16)
    decreases digits
    ensures k <= r.1 <= |s| && r.1 <= k + digits
    ensures r.0 == Done ==> r.1 == k + digits && AllDigits(s[k..r.1], base)
  {
    if digits == 0 then (Done, k)
    else if k == |s| then (Stopped, k)
    else if !IsDigit(s[k], base) then (Failed(InvalidDigit(s[k], base)), k + 1)
    else
      var r := TakeDigits(s, k + 1, base, digits - 1);
      assert r.0 == Done ==> s[k..r.1] == [s[k]] + s[k + 1..r.1];
      r
  }

  /** `number`: decodes the digits to the one character with that code. */
  function NumberRun(s: string, k: nat, base: nat, digits: nat): (r: Run)
    requires k <= |s| && (base == 8 || base == 16) && 1 <= digits <= 2
    ensures k <= r.end <= |s| && r.end <= k + digits
  {
    var (o, j) := TakeDigits(s, k, base, digits);
    if o == Done then Run(Done, j, [DecodeDigits(s[k..j], base)], [])
    else Run(o, j, [], [])
  }

  /** `quoted_escaped`: the backslash at `j` and what follows it. */
  function EscapeRun(s: string, j: nat): (r: Run)
    requires j < |s| && s[j] == '\\'
    ensures j < r.end <= |s|
  {
    if j + 1 == |s| then Run(Stopped, j + 1, [], [])
    else
      var c := s[j + 1];
      if c in SimpleEscapes then Run(Done, j + 2, [SimpleEscapes[c]], [])
      else if c == 'o' then NumberRun(s, j + 2, 8, 2)
      else if c == 'x' then NumberRun(s, j + 2, 16, 2)
      // An unknown escape: warn, then accept the character after it.
      else if j + 2 == |s| then Run(Stopped, j + 2, [], [c])
      else Run(Done, j + 3, [s[j + 2]], [c])
  }

  /** The loop of `quoted` at index `j`, for the quoted token that starts at
      `start` after `raw` was already in the chars buffer. */
  function QuotedLoop(s: string, raw: string, start: nat, j: nat): (r: Run)
    requires start <= j <= |s|
    decreases |s| - j
    ensures j <= r.end <= |s|
  {
    if j == |s| then Run(Failed(UnterminatedQuote(raw + s[start..j])), j, [], [])
    else if s[j] == '"' then Run(Done, j + 1, [], [])
    else if s[j] == '\\' then
      var e := EscapeRun(s, j);
      if e.outcome == Done then Prefixed(e.value, e.warnings, QuotedLoop(s, raw, start, e.end))
      else e
    else Prefixed([s[j]], [], QuotedLoop(s, raw, start, j + 1))
  }

  /** `quoted`: the opening quote at `i`, then the loop; `raw` is the chars
      buffer before the opening quote. */
  function QuotedRun(s: string, i: nat, raw: string): (r: Run)
    requires i < |s| && s[i] == '"'
    ensures i < r.end <= |s|
  {
    QuotedLoop(s, raw, i, i + 1)
  }

  /** One plain character of the quoted loop, accepted into both buffers. */
  lemma QuotedLoopAfterChar(s: string, raw: string, start: nat, j: nat, run: Run, v: string, w: seq<char>)
    requires start <= j < |s| && s[j] != '"' && s[j] != '\\'
    requires Continues(run, v, w, QuotedLoop(s, raw, start, j))
    ensures Continues(run, v + [s[j]], w, QuotedLoop(s, raw, start, j + 1))
  {
    ContinuesStep(run, v, w, [s[j]], [], QuotedLoop(s, raw, start, j + 1));
    assert w + [] == w;
  }

  /** One completed escape of the quoted loop. */
  lemma QuotedLoopAfterEscape(s: string, raw: string, start: nat, j: nat, run: Run, v: string, w: seq<char>)
    requires start <= j < |s| && s[j] == '\\' && EscapeRun(s, j).outcome == Done
    requires Continues(run, v, w, QuotedLoop(s, raw, start, j))
    ensures var e := EscapeRun(s, j);
            Continues(run, v + e.value, w + e.warnings, QuotedLoop(s, raw, start, e.end))
  {
    var e := EscapeRun(s, j);
    ContinuesStep(run, v, w, e.value, e.warnings, QuotedLoop(s, raw, start, e.end));
  }

  /** The builder `__next__` dispatches to for kind `k`, with fresh buffers. */
  function BuildRun(s: string, i: nat, k: Kind): (r: Run)
    requires i < |s| && k == Classify(s[i])
    ensures i < r.end <= |s|
  {
    match k
    case Newline => NewlineRun(s, i)
    case Space => SpaceRun(s, i)
    case Quoted => QuotedRun(s, i, [])
    case Unquoted => UnquotedRun(s, i)
  }

  /** One call of `__next__` with the pending character at index `i`. */
  function StepAt(s: string, i: nat): (a: Advance)
    requires i <= |s|
    ensures i <= a.end <= |s|
    ensures a.end == i <==> i == |s|
  {
    if i == |s| then Advance(End, i)
    else
      var k := Classify(s[i]);
      var r := BuildRun(s, i, k);
      match r.outcome
      case Done => Advance(Emit(Token(k, r.value, s[i..r.end])), r.end)
      case Stopped => Advance(End, r.end)
      case Failed(e) => Advance(Fail(e), r.end)
  }

  /** How iterating over a lexer ends: with no pending character between two
      tokens, with StopIteration inside a token, or with an error. */
  datatype Stop = Finished | Truncated | Error(error: LexError)

  datatype Lexed = Lexed(tokens: seq<Token>, stop: Stop)

  /** Every token iteration yields from index `i` on, and how it ends. */
  function LexFrom(s: string, i: nat): Lexed
    requires i <= |s|
    decreases |s| - i
  {
    if i == |s| then Lexed([], Finished)
    else
      var a := StepAt(s, i);
      match a.step
      case Emit(t) =>
        var rest := LexFrom(s, a.end);
        Lexed([t] + rest.tokens, rest.stop)
      case End => Lexed([], Truncated)
      case Fail(e) => Lexed([], Error(e))
  }

  /** `list(Lexer(s))`, with the way the iteration ended. */
  function Lex(s: string): Lexed
  {
    LexFrom(s, 0)
  }
}

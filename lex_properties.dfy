/** Properties of the reference semantics of the FML lexer: what each builder
    consumes and produces, the well-formedness of every token, the round trip
    from tokens back to the input, the escape decoders, and the documented
    examples of the Lexer class.
 */
module LexProperties {
  import opened LexSpec

  // ---------------------------------------------------------------------
  // Position counters

  /** `line - 1` counts the line breaks taken so far. */
  lemma {:induction false} NewlinesCounts(s: string, n: nat)
    requires n <= |s|
    ensures Newlines(s, n) == multiset(s[..n])['\n']
  {
    if n > 0 {
      NewlinesCounts(s, n - 1);
      assert s[..n] == s[..n - 1] + [s[n - 1]];
    }
  }

  /** `column` is the number of characters taken since the last line break
      (or since the start, when there is none). */
  lemma {:induction false} ColumnSinceNewline(s: string, n: nat)
    requires n <= |s|
    ensures Column(s, n) <= n
    ensures forall k :: n - Column(s, n) <= k < n ==> s[k] != '\n'
    ensures Column(s, n) == n || s[n - Column(s, n) - 1] == '\n'
  {
    if n > 0 && s[n - 1] != '\n' {
      ColumnSinceNewline(s, n - 1);
    }
  }

  // ---------------------------------------------------------------------
  // Digits

  /** The character ranges of IsDigit are exactly the source's digit table. */
  lemma IsDigitMatchesTable(c: char, base: nat)
    requires base == 8 || base == 16
    ensures IsDigit(c, base) <==> c in ValidDigits(base)
  {
    if base == 8 {
      assert IsDigit(c, 8) ==> c in "01234567" by {
        if '0' <= c <= '7' {
          assert "01234567"[c as int - '0' as int] == c;
        }
      }
    } else {
      var t := "0123456789abcdefABCDEF";
      assert IsDigit(c, 16) ==> c in t by {
        if '0' <= c <= '9' {
          assert t[c as int - '0' as int] == c;
        } else if 'a' <= c <= 'f' {
          assert t[c as int - 'a' as int + 10] == c;
        } else if 'A' <= c <= 'F' {
          assert t[c as int - 'A' as int + 16] == c;
        }
      }
    }
  }

  // ---------------------------------------------------------------------
  // The builders

  /** `space` stops at the first character that is not a space or a tab. */
  lemma {:induction false} SpaceEndMaximal(s: string, i: nat)
    requires i <= |s|
    decreases |s| - i
    ensures forall k :: i <= k < SpaceEnd(s, i) ==> IsBlank(s[k])
    ensures SpaceEnd(s, i) == |s| || !IsBlank(s[SpaceEnd(s, i)])
  {
    if i < |s| && IsBlank(s[i]) {
      SpaceEndMaximal(s, i + 1);
    }
  }

  lemma SpaceRunShape(s: string, i: nat)
    requires i < |s| && IsBlank(s[i])
    ensures var r := SpaceRun(s, i);
            && r.outcome == Done && r.warnings == [] && r.value == s[i..r.end]
            && (forall k :: i <= k < r.end ==> IsBlank(s[k]))
            && (r.end == |s| || !IsBlank(s[r.end]))
  {
    SpaceEndMaximal(s, i);
  }

  /** `unquoted` yields the characters it met verbatim, stops only at a
      separator or the end of input, and fails exactly at a quote. */
  lemma {:induction false} UnquotedRunShape(s: string, i: nat)
    requires i <= |s|
    decreases |s| - i
    ensures var r := UnquotedRun(s, i);
            && r.value == s[i..r.end] && r.warnings == []
            && (forall k :: i <= k < r.end ==> !IsSeparator(s[k]) && s[k] != '"')
            && (r.outcome == Done ==> r.end == |s| || IsSeparator(s[r.end]))
            && (r.outcome != Done ==> r.outcome == Failed(BareQuote) && r.end < |s| && s[r.end] == '"')
  {
    if i < |s| && s[i] != '"' && !IsSeparator(s[i]) {
      UnquotedRunShape(s, i + 1);
      var r := UnquotedRun(s, i + 1);
      assert s[i..r.end] == [s[i]] + s[i + 1..r.end];
    }
  }

  /** `number` takes exactly `digits` digits of `base`, or stops at end of
      input, or rejects the first character that is not such a digit. */
  lemma {:induction false} TakeDigitsShape(s: string, k: nat, base: nat, digits: nat)
    requires k <= |s| && (base == 8 || base == 16)
    decreases digits
    ensures var (o, j) := TakeDigits(s, k, base, digits);
            && (o == Done <==> j == k + digits && forall q :: k <= q < j ==> IsDigit(s[q], base))
            && (o == Stopped ==> j == |s| < k + digits && forall q :: k <= q < j ==> IsDigit(s[q], base))
            && (o.Failed? ==>
                  && k < j <= k + digits && o.error == InvalidDigit(s[j - 1], base) && !IsDigit(s[j - 1], base)
                  && forall q :: k <= q < j - 1 ==> IsDigit(s[q], base))
  {
    if digits > 0 && k < |s| && IsDigit(s[k], base) {
      TakeDigitsShape(s, k + 1, base, digits - 1);
    }
  }

  lemma NumberRunShape(s: string, k: nat, base: nat, digits: nat)
    requires k <= |s| && (base == 8 || base == 16) && 1 <= digits <= 2
    ensures var r := NumberRun(s, k, base, digits);
            && r.warnings == []
            && (r.outcome == Done <==> r.end == k + digits && AllDigits(s[k..r.end], base))
            && (r.outcome == Done <==> k + digits <= |s| && AllDigits(s[k..k + digits], base))
            && (r.outcome == Done ==> |r.value| == 1 && r.value[0] as int == ParseInt(s[k..r.end], base))
            && (r.outcome != Done ==> r.value == [])
            && (r.outcome == Stopped ==> r.end == |s|)
            && (r.outcome.Failed? ==> r.outcome.error == InvalidDigit(s[r.end - 1], base) && !IsDigit(s[r.end - 1], base))
  {
    TakeDigitsShape(s, k, base, digits);
    var r := NumberRun(s, k, base, digits);
    if r.end == k + digits && AllDigits(s[k..r.end], base) {
      assert forall q :: k <= q < r.end ==> s[q] == s[k..r.end][q - k];
    }
  }

  /** An escape decodes to at most one character, warns exactly about an
      unknown escape letter, and can fail only inside a numeric escape. */
  lemma EscapeRunShape(s: string, j: nat)
    requires j < |s| && s[j] == '\\'
    ensures var r := EscapeRun(s, j);
            && |r.value| <= 1
            && (r.outcome == Done ==> |r.value| == 1 && j + 2 <= r.end <= j + 4)
            && (r.outcome == Stopped ==> r.end == |s|)
            && (j + 1 < |s| && s[j + 1] in SimpleEscapes ==> r == Run(Done, j + 2, [SimpleEscapes[s[j + 1]]], []))
            && (r.warnings != [] <==> j + 1 < |s| && s[j + 1] !in SimpleEscapes && s[j + 1] != 'o' && s[j + 1] != 'x')
            && (r.warnings != [] ==> r.warnings == [s[j + 1]])
            && (r.outcome.Failed? ==>
                  (&& j + 1 < |s| && (s[j + 1] == 'o' || s[j + 1] == 'x')
                   && r.outcome.error.InvalidDigit?
                   && r.outcome.error.base == (if s[j + 1] == 'o' then 8 else 16)))
  {
    if j + 1 < |s| {
      var c := s[j + 1];
      if c !in SimpleEscapes && c == 'o' {
        NumberRunShape(s, j + 2, 8, 2);
      } else if c !in SimpleEscapes && c == 'x' {
        NumberRunShape(s, j + 2, 16, 2);
      }
    }
  }

  /** The quoted loop ends at a closing quote having decoded at most one
      character per character it took, or reports the unterminated text at
      the end of input, or stops inside an escape. */
  lemma {:induction false} QuotedLoopShape(s: string, raw: string, start: nat, j: nat)
    requires start <= j <= |s|
    decreases |s| - j
    ensures var r := QuotedLoop(s, raw, start, j);
            && (r.outcome == Done ==> j < r.end && s[r.end - 1] == '"' && |r.value| < r.end - j)
            && (r.outcome == Stopped ==> r.end == |s|)
            && (r.outcome.Failed? ==> r.outcome.error.InvalidDigit? || r.outcome.error.UnterminatedQuote?)
            && (r.outcome.Failed? && r.outcome.error.UnterminatedQuote? ==>
                  r.end == |s| && r.outcome.error.chars == raw + s[start..|s|])
  {
    if j < |s| && s[j] != '"' {
      if s[j] == '\\' {
        EscapeRunShape(s, j);
        var e := EscapeRun(s, j);
        if e.outcome == Done {
          QuotedLoopShape(s, raw, start, e.end);
        }
      } else {
        QuotedLoopShape(s, raw, start, j + 1);
      }
    }
  }

  // ---------------------------------------------------------------------
  // Tokens

  /** What every token of each kind looks like. */
  predicate WellFormed(t: Token)
  {
    match t.kind
    case Newline => t.value == "\n" && t.chars == "\n"
    case Space =>
      && t.value == t.chars && |t.chars| > 0
      && forall k :: 0 <= k < |t.chars| ==> IsBlank(t.chars[k])
    case Unquoted =>
      && t.value == t.chars && |t.chars| > 0
      && forall k :: 0 <= k < |t.chars| ==> !IsSeparator(t.chars[k]) && t.chars[k] != '"'
    case Quoted =>
      && |t.chars| >= 2 && t.chars[0] == '"' && t.chars[|t.chars| - 1] == '"'
      && |t.value| <= |t.chars| - 2
  }

  /** What one call of `__next__` at `i` may yield: a token of the kind of
      the pending character, whose chars are exactly the input it consumed,
      well formed and (for spaces and bare words) maximal; or the end of
      iteration, which consumes the rest of the input; or one of the errors
      its kind can raise. */
  predicate Shaped(s: string, i: nat, a: Advance)
    requires i < |s|
  {
    && i <= a.end <= |s|
    && (a.step.Emit? ==>
          && a.step.token.kind == Classify(s[i])
          && a.step.token.chars == s[i..a.end]
          && WellFormed(a.step.token)
          && (a.step.token.kind == Space ==> a.end == |s| || !IsBlank(s[a.end]))
          && (a.step.token.kind == Unquoted ==> a.end == |s| || IsSeparator(s[a.end])))
    && (a.step.End? ==> a.end == |s| && Classify(s[i]) == Quoted)
    && (a.step.Fail? && a.step.error == BareQuote ==> Classify(s[i]) == Unquoted && a.end < |s| && s[a.end] == '"')
    && (a.step.Fail? && a.step.error.UnterminatedQuote? ==>
          Classify(s[i]) == Quoted && a.end == |s| && a.step.error.chars == s[i..])
    && (a.step.Fail? && a.step.error.InvalidDigit? ==> Classify(s[i]) == Quoted)
  }

  lemma StepAtNewline(s: string, i: nat)
    requires i < |s| && Classify(s[i]) == Newline
    ensures Shaped(s, i, StepAt(s, i))
  {
  }

  lemma StepAtSpace(s: string, i: nat)
    requires i < |s| && Classify(s[i]) == Space
    ensures Shaped(s, i, StepAt(s, i))
  {
    SpaceRunShape(s, i);
  }

  lemma StepAtQuoted(s: string, i: nat)
    requires i < |s| && Classify(s[i]) == Quoted
    ensures Shaped(s, i, StepAt(s, i))
  {
    QuotedLoopShape(s, [], i, i + 1);
    assert [] + s[i..|s|] == s[i..];
  }

  lemma StepAtUnquoted(s: string, i: nat)
    requires i < |s| && Classify(s[i]) == Unquoted
    ensures Shaped(s, i, StepAt(s, i))
  {
    UnquotedRunShape(s, i);
  }

  /** Every call of `__next__` yields what `Shaped` allows. */
  lemma StepAtShape(s: string, i: nat)
    requires i < |s|
    ensures Shaped(s, i, StepAt(s, i))
  {
    match Classify(s[i])
    case Newline => StepAtNewline(s, i);
    case Space => StepAtSpace(s, i);
    case Quoted => StepAtQuoted(s, i);
    case Unquoted => StepAtUnquoted(s, i);
  }

  // ---------------------------------------------------------------------
  // Whole iterations

  /** The raw texts of `tokens`, one after the other. */
  function Chars(tokens: seq<Token>): string
  {
    if tokens == [] then [] else tokens[0].chars + Chars(tokens[1..])
  }

  lemma SliceSplit(s: string, i: nat, j: nat, k: nat)
    requires i <= j <= k <= |s|
    ensures s[i..k] == s[i..j] + s[j..k]
  {
  }

  lemma CharsCons(t: Token, rest: seq<Token>)
    ensures Chars([t] + rest) == t.chars + Chars(rest)
  {
    assert ([t] + rest)[1..] == rest;
  }

  /** A token `__next__` emits holds exactly the characters it consumed. */
  lemma StepAtChars(s: string, i: nat)
    requires i < |s| && StepAt(s, i).step.Emit?
    ensures StepAt(s, i).step.token.chars == s[i..StepAt(s, i).end]
  {
  }

  /** The chars of `l`'s tokens spell out a prefix of `s[i..]`, and all of
      it exactly when `l` ends between tokens. */
  predicate Spells(s: string, i: nat, l: Lexed)
    requires i <= |s|
  {
    && i + |Chars(l.tokens)| <= |s|
    && s[i..i + |Chars(l.tokens)|] == Chars(l.tokens)
    && (l.stop == Finished <==> Chars(l.tokens) == s[i..])
  }

  /** A token holding `s[i..e]` in front of tokens that spell from `e` on
      spells from `i` on. */
  lemma SpellsCons(s: string, i: nat, e: nat, t: Token, rest: Lexed)
    requires i <= e <= |s| && t.chars == s[i..e] && Spells(s, e, rest)
    ensures Spells(s, i, Lexed([t] + rest.tokens, rest.stop))
  {
    CharsCons(t, rest.tokens);
    var n := |Chars(rest.tokens)|;
    SliceSplit(s, i, e, e + n);
    SliceSplit(s, i, e, |s|);
  }

  /** The chars of the tokens an iteration yields spell out a prefix of the
      input, and all of it exactly when the iteration ends between tokens. */
  lemma {:induction false} LexFromRoundTrip(s: string, i: nat)
    requires i <= |s|
    decreases |s| - i
    ensures Spells(s, i, LexFrom(s, i))
  {
    if i < |s| {
      var a := StepAt(s, i);
      if a.step.Emit? {
        StepAtChars(s, i);
        LexFromRoundTrip(s, a.end);
        var rest := LexFrom(s, a.end);
        assert LexFrom(s, i) == Lexed([a.step.token] + rest.tokens, rest.stop);
        SpellsCons(s, i, a.end, a.step.token, rest);
      } else {
        assert LexFrom(s, i).tokens == [];
      }
    }
  }

  lemma RoundTrip(s: string)
    ensures var l := Lex(s);
            && |Chars(l.tokens)| <= |s| && Chars(l.tokens) == s[..|Chars(l.tokens)|]
            && (l.stop == Finished <==> Chars(l.tokens) == s)
  {
    LexFromRoundTrip(s, 0);
    assert s[0..] == s;
  }

  /** Every token an iteration yields is well formed. */
  lemma {:induction false} LexFromWellFormed(s: string, i: nat)
    requires i <= |s|
    decreases |s| - i
    ensures forall k :: 0 <= k < |LexFrom(s, i).tokens| ==> WellFormed(LexFrom(s, i).tokens[k])
  {
    if i < |s| {
      var a := StepAt(s, i);
      StepAtShape(s, i);
      if a.step.Emit? {
        LexFromWellFormed(s, a.end);
        var rest := LexFrom(s, a.end).tokens;
        assert LexFrom(s, i).tokens == [a.step.token] + rest;
      }
    }
  }

  /** Two tokens in a row: a run of blanks is never split, and a bare word
      is always followed by a blank or a line break. */
  predicate Follows(t: Token, u: Token)
  {
    && (t.kind == Space ==> u.kind != Space)
    && (t.kind == Unquoted ==> u.kind == Space || u.kind == Newline)
  }

  lemma FirstTokenKind(s: string, i: nat)
    requires i <= |s| && |LexFrom(s, i).tokens| > 0
    ensures i < |s| && LexFrom(s, i).tokens[0].kind == Classify(s[i])
  {
    StepAtShape(s, i);
  }

  lemma {:induction false} LexFromAdjacent(s: string, i: nat)
    requires i <= |s|
    decreases |s| - i
    ensures var ts := LexFrom(s, i).tokens;
            forall k :: 0 <= k < |ts| - 1 ==> Follows(ts[k], ts[k + 1])
  {
    if i < |s| {
      var a := StepAt(s, i);
      if a.step.Emit? {
        StepAtShape(s, i);
        LexFromAdjacent(s, a.end);
        var rest := LexFrom(s, a.end).tokens;
        var ts := LexFrom(s, i).tokens;
        assert ts == [a.step.token] + rest;
        if |rest| > 0 {
          FirstTokenKind(s, a.end);
          assert Follows(ts[0], ts[1]);
        }
        assert forall k :: 1 <= k < |ts| - 1 ==> ts[k] == rest[k - 1] && ts[k + 1] == rest[k];
      }
    }
  }

  lemma Adjacent(s: string)
    ensures var ts := Lex(s).tokens;
            forall k :: 0 <= k < |ts| - 1 ==> Follows(ts[k], ts[k + 1])
  {
    LexFromAdjacent(s, 0);
    assert Lex(s) == LexFrom(s, 0);
  }

  // ---------------------------------------------------------------------
  // Writing quoted text back

  /** The escaped form of one character inside quotes: a quote and a
      backslash get a backslash in front, any other character stands for
      itself. */
  function EscapeChar(c: char): string
  {
    if c == '"' || c == '\\' then ['\\', c] else [c]
  }

  function Escaped(v: string): string
  {
    if v == [] then [] else EscapeChar(v[0]) + Escaped(v[1..])
  }

  /** Quoted text whose value is `v`. */
  function Quote(v: string): string
  {
    "\"" + Escaped(v) + "\""
  }

  /** `w` stands in `s` from index `j` on. */
  predicate Matches(s: string, j: nat, w: string)
  {
    j + |w| <= |s| && forall k :: 0 <= k < |w| ==> s[j + k] == w[k]
  }

  lemma SliceMatches(s: string, j: nat, w: string)
    requires j + |w| <= |s| && s[j..j + |w|] == w
    ensures Matches(s, j, w)
  {
    forall k | 0 <= k < |w|
      ensures s[j + k] == w[k]
    {
      assert s[j..j + |w|][k] == s[j + k];
    }
  }

  lemma MatchesSplit(s: string, j: nat, x: string, y: string)
    requires Matches(s, j, x + y)
    ensures Matches(s, j, x) && Matches(s, j + |x|, y)
  {
    forall k | 0 <= k < |x|
      ensures s[j + k] == x[k]
    {
      assert (x + y)[k] == x[k];
    }
    forall k | 0 <= k < |y|
      ensures s[j + |x| + k] == y[k]
    {
      assert (x + y)[|x| + k] == y[k];
    }
  }

  lemma QuotedLoopPlain(s: string, raw: string, start: nat, j: nat)
    requires start <= j < |s| && s[j] != '"' && s[j] != '\\'
    ensures QuotedLoop(s, raw, start, j) == Prefixed([s[j]], [], QuotedLoop(s, raw, start, j + 1))
  {
  }

  /** An escaped quote or backslash stands for itself. */
  lemma QuotedLoopSelfEscape(s: string, raw: string, start: nat, j: nat)
    requires start <= j && j + 1 < |s| && s[j] == '\\' && (s[j + 1] == '"' || s[j + 1] == '\\')
    ensures QuotedLoop(s, raw, start, j) == Prefixed([s[j + 1]], [], QuotedLoop(s, raw, start, j + 2))
  {
    assert EscapeRun(s, j) == Run(Done, j + 2, [s[j + 1]], []);
  }

  lemma PrefixedDone(r: Run, end: nat, v: string)
    requires |v| > 0 && r == Run(Done, end, v[1..], [])
    ensures Prefixed([v[0]], [], r) == Run(Done, end, v, [])
  {
    assert [v[0]] + v[1..] == v;
  }

  /** The escaped form of one character decodes back to it. */
  lemma QuotedLoopEscapeChar(s: string, raw: string, start: nat, j: nat, c: char)
    requires start <= j && Matches(s, j, EscapeChar(c))
    ensures QuotedLoop(s, raw, start, j) == Prefixed([c], [], QuotedLoop(s, raw, start, j + |EscapeChar(c)|))
  {
    var e := EscapeChar(c);
    if c == '"' || c == '\\' {
      assert s[j + 0] == e[0] == '\\' && s[j + 1] == e[1] == c;
      QuotedLoopSelfEscape(s, raw, start, j);
    } else {
      assert s[j + 0] == e[0] == c;
      QuotedLoopPlain(s, raw, start, j);
    }
  }

  lemma EscapedCons(v: string)
    requires v != []
    ensures Escaped(v) == EscapeChar(v[0]) + Escaped(v[1..])
  {
  }

  lemma QuotedLoopClose(s: string, raw: string, start: nat, j: nat)
    requires start <= j < |s| && s[j] == '"'
    ensures QuotedLoop(s, raw, start, j) == Run(Done, j + 1, [], [])
  {
  }

  /** The quoted loop decodes escaped text back and stops just past the
      closing quote that follows it. */
  lemma {:induction false} QuotedLoopEscaped(s: string, raw: string, start: nat, j: nat, v: string)
    requires start <= j && Matches(s, j, Escaped(v)) && j + |Escaped(v)| < |s| && s[j + |Escaped(v)|] == '"'
    decreases |v|
    ensures QuotedLoop(s, raw, start, j) == Run(Done, j + |Escaped(v)| + 1, v, [])
  {
    if v == [] {
      assert Escaped(v) == [];
      QuotedLoopClose(s, raw, start, j);
      assert QuotedLoop(s, raw, start, j) == Run(Done, j + 1, v, []);
    } else {
      var x, y := EscapeChar(v[0]), Escaped(v[1..]);
      EscapedCons(v);
      assert |Escaped(v)| == |x| + |y|;
      MatchesSplit(s, j, x, y);
      var rest := QuotedLoop(s, raw, start, j + |x|);
      QuotedLoopEscaped(s, raw, start, j + |x|, v[1..]);
      assert rest == Run(Done, j + |x| + |y| + 1, v[1..], []);
      QuotedLoopEscapeChar(s, raw, start, j, v[0]);
      PrefixedDone(rest, j + |x| + |y| + 1, v);
      assert QuotedLoop(s, raw, start, j) == Run(Done, j + |x| + |y| + 1, v, []);
    }
  }

  /** `__next__` reads quoted text back as one token whose value is the
      text, wherever it stands in the input. */
  lemma QuoteRoundTrip(s: string, i: nat, v: string)
    requires i + |Quote(v)| <= |s| && s[i..i + |Quote(v)|] == Quote(v)
    ensures StepAt(s, i) == Advance(Emit(Token(Quoted, v, Quote(v))), i + |Quote(v)|)
  {
    var n := |Escaped(v)|;
    QuoteSplit(s, i, v);
    QuotedLoopEscaped(s, [], i, i + 1, v);
    StepEmits(s, i, Run(Done, i + n + 2, v, []));
  }

  lemma QuoteSplit(s: string, i: nat, v: string)
    requires i + |Quote(v)| <= |s| && s[i..i + |Quote(v)|] == Quote(v)
    ensures var n := |Escaped(v)|;
            && |Quote(v)| == n + 2 && s[i] == '"' && s[i + n + 1] == '"'
            && Matches(s, i + 1, Escaped(v))
  {
    var n := |Escaped(v)|;
    SliceMatches(s, i, Quote(v));
    assert Quote(v) == ("\"" + Escaped(v)) + "\"";
    MatchesSplit(s, i, "\"" + Escaped(v), "\"");
    MatchesSplit(s, i, "\"", Escaped(v));
    assert s[i + 0] == '"';
    assert s[i + n + 1 + 0] == '"';
  }

  /** Conversely to UnquotedRunShape: a maximal run of word characters is
      read as one bare word. */
  lemma WordStep(s: string, i: nat, n: nat)
    requires 0 < n && i + n <= |s|
    requires forall k :: i <= k < i + n ==> !IsSeparator(s[k]) && s[k] != '"'
    requires i + n == |s| || IsSeparator(s[i + n])
    ensures StepAt(s, i) == Advance(Emit(Token(Unquoted, s[i..i + n], s[i..i + n])), i + n)
  {
    UnquotedRunShape(s, i);
    var r := UnquotedRun(s, i);
  }

  lemma NewlineStep(s: string, i: nat)
    requires i < |s| && s[i] == '\n'
    ensures StepAt(s, i) == Advance(Emit(Token(Newline, "\n", "\n")), i + 1)
  {
    assert s[i..i + 1] == "\n";
  }

  /** Conversely to SpaceRunShape: a maximal run of blanks is one token. */
  lemma BlankStep(s: string, i: nat, n: nat)
    requires 0 < n && i + n <= |s|
    requires forall k :: i <= k < i + n ==> IsBlank(s[k])
    requires i + n == |s| || !IsBlank(s[i + n])
    ensures StepAt(s, i) == Advance(Emit(Token(Space, s[i..i + n], s[i..i + n])), i + n)
  {
    SpaceEndMaximal(s, i);
  }

  // ---------------------------------------------------------------------
  // Numeric escapes

  /** The lower-case digit of `base` for `d`. */
  function DigitChar(d: nat): (c: char)
    requires d < 16
    ensures DigitValue(c) == d
  {
    if d < 10 then ('0' as int + d) as char else ('a' as int + d - 10) as char
  }

  lemma ParseTwo(a: char, b: char, base: nat)
    ensures ParseInt([a, b], base) == DigitValue(a) * base + DigitValue(b)
  {
    assert [a, b][..1] == [a] && [a][..0] == [];
    assert ParseInt([a], base) == 0 * base + DigitValue(a);
    assert ParseInt([a, b], base) == ParseInt([a], base) * base + DigitValue(b);
  }

  /** An `o` or `x` escape with the two digits of `n` in its base decodes to
      the character with code `n`, wherever it stands; octal escapes can only
      write codes below 64. */
  lemma NumericEscapeRoundTrip(s: string, j: nat, letter: char, n: nat)
    requires letter == 'o' || letter == 'x'
    requires var base := if letter == 'o' then 8 else 16;
             && n < base * base && j + 4 <= |s|
             && s[j..j + 4] == ['\\', letter, DigitChar(n / base), DigitChar(n % base)]
    ensures EscapeRun(s, j) == Run(Done, j + 4, [n as char], [])
  {
    var base := if letter == 'o' then 8 else 16;
    var a, b := DigitChar(n / base), DigitChar(n % base);
    assert s[j] == '\\' && s[j + 1] == letter && s[j + 2] == a && s[j + 3] == b by {
      var e := s[j..j + 4];
      assert e[0] == s[j] && e[1] == s[j + 1] && e[2] == s[j + 2] && e[3] == s[j + 3];
    }
    ParseTwo(a, b, base);
    assert s[j + 2..j + 4] == [a, b];
    assert IsDigit(a, base) && IsDigit(b, base);
    assert TakeDigits(s, j + 2, base, 2) == (Done, j + 4);
  }

  /** A numeric escape value never exceeds what two digits can spell. */
  lemma NumericEscapeBound(s: string, j: nat)
    requires j + 1 < |s| && s[j] == '\\' && (s[j + 1] == 'o' || s[j + 1] == 'x')
    requires EscapeRun(s, j).outcome == Done
    ensures var r := EscapeRun(s, j);
            && r.end == j + 4
            && r.value[0] as int < (if s[j + 1] == 'o' then 64 else 256)
  {
    var base := if s[j + 1] == 'o' then 8 else 16;
    assert s[j + 1] !in SimpleEscapes;
    NumberRunShape(s, j + 2, base, 2);
    ParseIntBelowPow(s[j + 2..j + 4], base);
  }

  // ---------------------------------------------------------------------
  // The documented examples

  lemma ExampleEmpty()
    ensures Lex("") == Lexed([], Finished)
  {
  }

  /** `__next__` at `i` emits the token the dispatched builder built. */
  lemma StepEmits(s: string, i: nat, r: Run)
    requires i < |s| && r == BuildRun(s, i, Classify(s[i])) && r.outcome == Done
    ensures StepAt(s, i) == Advance(Emit(Token(Classify(s[i]), r.value, s[i..r.end])), r.end)
  {
  }

  lemma ExampleSpace()
    ensures Lex(" ") == Lexed([Token(Space, " ", " ")], Finished)
  {
    var s := " ";
    assert SpaceEnd(s, 1) == 1;
    StepEmits(s, 0, Run(Done, 1, " ", []));
  }

  lemma LexFromEmit(s: string, i: nat, t: Token, e: nat)
    requires i < |s| && StepAt(s, i) == Advance(Emit(t), e)
    ensures LexFrom(s, i) == Lexed([t] + LexFrom(s, e).tokens, LexFrom(s, e).stop)
  {
  }

  /** The four calls of `__next__` of the first documented example, for any
      bare word of length `n` and any quoted value `v`. */
  lemma LinesSteps(s: string, n: nat, v: string)
    requires 0 < n && |s| == n + 2 + |Quote(v)|
    requires forall k :: 0 <= k < n ==> !IsSeparator(s[k]) && s[k] != '"'
    requires s[n] == '\n' && s[n + 1] == ' ' && s[n + 2..] == Quote(v)
    ensures StepAt(s, 0) == Advance(Emit(Token(Unquoted, s[..n], s[..n])), n)
    ensures StepAt(s, n) == Advance(Emit(Token(Newline, "\n", "\n")), n + 1)
    ensures StepAt(s, n + 1) == Advance(Emit(Token(Space, " ", " ")), n + 2)
    ensures StepAt(s, n + 2) == Advance(Emit(Token(Quoted, v, Quote(v))), |s|)
  {
    WordStep(s, 0, n);
    assert s[0..n] == s[..n];
    NewlineStep(s, n);
    BlankStep(s, n + 1, 1);
    assert s[n + 1..n + 2] == " ";
    assert s[n + 2..|s|] == s[n + 2..];
    QuoteRoundTrip(s, n + 2, v);
  }

  /** The first documented example, for any bare word `w` and any quoted
      value `v`. */
  lemma LinesExample(w: string, v: string)
    requires |w| > 0 && forall k :: 0 <= k < |w| ==> !IsSeparator(w[k]) && w[k] != '"'
    ensures Lex(w + "\n " + Quote(v)) == Lexed([
      Token(Unquoted, w, w),
      Token(Newline, "\n", "\n"),
      Token(Space, " ", " "),
      Token(Quoted, v, Quote(v))], Finished)
  {
    var s := w + "\n " + Quote(v);
    var n := |w|;
    assert s[..n] == w && s[n] == '\n' && s[n + 1] == ' ' && s[n + 2..] == Quote(v);
    LinesSteps(s, n, v);
    assert LexFrom(s, |s|) == Lexed([], Finished);
    LexFromEmit(s, n + 2, Token(Quoted, v, Quote(v)), |s|);
    LexFromEmit(s, n + 1, Token(Space, " ", " "), n + 2);
    LexFromEmit(s, n, Token(Newline, "\n", "\n"), n + 1);
    LexFromEmit(s, 0, Token(Unquoted, w, w), n);
  }

  lemma ExampleLines()
    ensures Lex("ayy\n \"lmao\"") == Lexed([
      Token(Unquoted, "ayy", "ayy"),
      Token(Newline, "\n", "\n"),
      Token(Space, " ", " "),
      Token(Quoted, "lmao", "\"lmao\"")], Finished)
  {
    LinesExample("ayy", "lmao");
    assert Quote("lmao") == "\"lmao\"";
    assert "ayy" + "\n " + "\"lmao\"" == "ayy\n \"lmao\"";
  }

  /** `"\xHH"` for the code `n`. */
  function HexQuote(n: nat): string
    requires n < 256
  {
    ['"', '\\', 'x', DigitChar(n / 16), DigitChar(n % 16), '"']
  }

  /** A quoted hex escape `"\xHH"` is one token holding the decoded character. */
  lemma QuotedHexStep(s: string, i: nat, n: nat)
    requires n < 256 && i + 6 <= |s| && s[i..i + 6] == HexQuote(n)
    ensures StepAt(s, i) == Advance(Emit(Token(Quoted, [n as char], HexQuote(n))), i + 6)
  {
    var h := HexQuote(n);
    SliceMatches(s, i, h);
    assert s[i + 0] == h[0] && s[i + 1] == h[1] && s[i + 2] == h[2];
    assert s[i + 3] == h[3] && s[i + 4] == h[4] && s[i + 5] == h[5];
    assert s[i + 1..i + 5] == h[1..5];
    NumericEscapeRoundTrip(s, i + 1, 'x', n);
    assert QuotedLoop(s, [], i, i + 5) == Run(Done, i + 6, [], []);
    assert QuotedLoop(s, [], i, i + 1) == Prefixed([n as char], [], Run(Done, i + 6, [], []));
    assert [n as char] + [] == [n as char];
    StepEmits(s, i, Run(Done, i + 6, [n as char], []));
  }

  /** The first character of a slice that spells `w`. */
  lemma SliceHead(s: string, i: nat, w: string)
    requires w != [] && i + |w| <= |s| && s[i..i + |w|] == w
    ensures s[i] == w[0]
  {
    assert s[i..i + |w|][0] == s[i];
  }

  /** A single space before quoted text is one space token. */
  lemma SpaceStep(s: string, p: nat)
    requires p + 1 < |s| && s[p] == ' ' && s[p + 1] == '"'
    ensures StepAt(s, p) == Advance(Emit(Token(Space, " ", " ")), p + 1)
  {
    assert s[p..p + 1] == " ";
    BlankStep(s, p, 1);
  }

  /** The five calls of `__next__` of the second documented example, for any
      two quoted values `u` and `v` and any hex code `n`; `p` and `q` are the
      indices of the two spaces. */
  lemma EscapesSteps(s: string, u: string, v: string, n: nat, p: nat, q: nat)
    requires n < 256 && p == |Quote(u)| && q == p + 1 + |Quote(v)| && |s| == q + 7
    requires s[0..p] == Quote(u) && s[p] == ' ' && s[p + 1..q] == Quote(v) && s[q] == ' '
    requires s[q + 1..q + 7] == HexQuote(n)
    ensures StepAt(s, 0) == Advance(Emit(Token(Quoted, u, Quote(u))), p)
    ensures StepAt(s, p) == Advance(Emit(Token(Space, " ", " ")), p + 1)
    ensures StepAt(s, p + 1) == Advance(Emit(Token(Quoted, v, Quote(v))), q)
    ensures StepAt(s, q) == Advance(Emit(Token(Space, " ", " ")), q + 1)
    ensures StepAt(s, q + 1) == Advance(Emit(Token(Quoted, [n as char], HexQuote(n))), q + 7)
  {
    QuoteRoundTrip(s, 0, u);
    QuoteSplit(s, p + 1, v);
    QuoteRoundTrip(s, p + 1, v);
    SliceHead(s, q + 1, HexQuote(n));
    SpaceStep(s, p);
    SpaceStep(s, q);
    QuotedHexStep(s, q + 1, n);
  }

  /** The whole iteration of the second documented example, on any input
      made of its pieces. */
  lemma EscapesLex(s: string, u: string, v: string, n: nat, p: nat, q: nat)
    requires n < 256 && p == |Quote(u)| && q == p + 1 + |Quote(v)| && |s| == q + 7
    requires s[0..p] == Quote(u) && s[p] == ' ' && s[p + 1..q] == Quote(v) && s[q] == ' '
    requires s[q + 1..q + 7] == HexQuote(n)
    ensures Lex(s) == Lexed([
      Token(Quoted, u, Quote(u)),
      Token(Space, " ", " "),
      Token(Quoted, v, Quote(v)),
      Token(Space, " ", " "),
      Token(Quoted, [n as char], HexQuote(n))], Finished)
  {
    EscapesSteps(s, u, v, n, p, q);
    assert LexFrom(s, q + 7) == Lexed([], Finished);
    LexFromEmit(s, q + 1, Token(Quoted, [n as char], HexQuote(n)), q + 7);
    LexFromEmit(s, q, Token(Space, " ", " "), q + 1);
    LexFromEmit(s, p + 1, Token(Quoted, v, Quote(v)), q);
    LexFromEmit(s, p, Token(Space, " ", " "), p + 1);
    LexFromEmit(s, 0, Token(Quoted, u, Quote(u)), p);
  }

  /** The second documented example, for any two quoted values and any hex
      code: quoted `u`, a space, quoted `v`, a space, and `"\xHH"`. */
  lemma EscapesExample(u: string, v: string, n: nat)
    requires n < 256
    ensures Lex(Quote(u) + " " + Quote(v) + " " + HexQuote(n)) == Lexed([
      Token(Quoted, u, Quote(u)),
      Token(Space, " ", " "),
      Token(Quoted, v, Quote(v)),
      Token(Space, " ", " "),
      Token(Quoted, [n as char], HexQuote(n))], Finished)
  {
    var s := Quote(u) + " " + Quote(v) + " " + HexQuote(n);
    EscapesPieces(Quote(u), Quote(v), HexQuote(n));
    EscapesLex(s, u, v, n, |Quote(u)|, |Quote(u)| + 1 + |Quote(v)|);
  }

  lemma EscapesPieces(a: string, b: string, h: string)
    ensures var s, p, q := a + " " + b + " " + h, |a|, |a| + 1 + |b|;
            && |s| == q + 1 + |h| && s[0..p] == a && s[p] == ' ' && s[p + 1..q] == b
            && s[q] == ' ' && s[q + 1..q + 1 + |h|] == h
  {
    var s := a + " " + b + " " + h;
    var p, q := |a|, |a| + 1 + |b|;
    assert s == a + (" " + (b + (" " + h)));
    assert s[0..p] == a;
    assert s[p..] == " " + (b + (" " + h));
    assert s[p + 1..] == b + (" " + h);
    assert s[p + 1..q] == b;
    assert s[q..] == " " + h;
    assert s[q + 1..] == h;
  }

  lemma ExampleEscapes()
    ensures Lex("\"\\\"\" \"\\\\\" \"\\x20\"") == Lexed([
      Token(Quoted, "\"", "\"\\\"\""),
      Token(Space, " ", " "),
      Token(Quoted, "\\", "\"\\\\\""),
      Token(Space, " ", " "),
      Token(Quoted, " ", "\"\\x20\"")], Finished)
  {
    var s := "\"\\\"\" \"\\\\\" \"\\x20\"";
    assert Quote("\"") == "\"\\\"\"" && Quote("\\") == "\"\\\\\"";
    assert DigitChar(32 / 16) == '2' && DigitChar(32 % 16) == '0';
    assert HexQuote(32) == "\"\\x20\"";
    assert s[0..4] == "\"\\\"\"" && s[5..9] == "\"\\\\\"" && s[10..16] == "\"\\x20\"";
    EscapesLex(s, "\"", "\\", 32, 4, 9);
    assert 32 as char == ' ';
  }

  // ---------------------------------------------------------------------
  // Errors and early ends

  /** A bare word running into a quote is rejected. */
  lemma BareQuoteExample(w: string, rest: string)
    requires |w| > 0 && forall k :: 0 <= k < |w| ==> !IsSeparator(w[k]) && w[k] != '"'
    ensures Lex(w + "\"" + rest) == Lexed([], Error(BareQuote))
  {
    var s := w + "\"" + rest;
    assert s[|w|] == '"';
    assert forall k :: 0 <= k < |w| ==> s[k] == w[k];
    UnquotedRunShape(s, 0);
    assert UnquotedRun(s, 0).outcome == Failed(BareQuote);
  }

  /** Quoted text that reaches end of input with no closing quote and no
      escape on the way is unterminated, and the error carries its raw chars. */
  lemma {:induction false} QuotedLoopUnterminated(s: string, raw: string, start: nat, j: nat)
    requires start <= j <= |s|
    requires forall k :: j <= k < |s| ==> s[k] != '"' && s[k] != '\\'
    decreases |s| - j
    ensures var r := QuotedLoop(s, raw, start, j);
            r.outcome == Failed(UnterminatedQuote(raw + s[start..|s|])) && r.end == |s|
  {
    if j < |s| {
      QuotedLoopUnterminated(s, raw, start, j + 1);
      QuotedLoopPlain(s, raw, start, j);
    }
  }

  /** Conversely to StepAtShape: an opening quote with neither a quote nor a
      backslash after it fails with the raw text of the whole rest. */
  lemma UnterminatedStep(s: string, i: nat)
    requires i < |s| && s[i] == '"'
    requires forall k :: i < k < |s| ==> s[k] != '"' && s[k] != '\\'
    ensures StepAt(s, i) == Advance(Fail(UnterminatedQuote(s[i..])), |s|)
  {
    QuotedLoopUnterminated(s, [], i, i + 1);
    assert [] + s[i..|s|] == s[i..];
  }

  lemma UnterminatedExample()
    ensures Lex("\"abc") == Lexed([], Error(UnterminatedQuote("\"abc")))
  {
    var s := "\"abc";
    UnterminatedStep(s, 0);
    assert s[0..] == s;
  }

  /** After an unknown escape letter the next character is taken as text,
      even a closing quote: `"\q"` is unterminated. */
  lemma UnknownEscapeExample(c: char, d: char)
    requires c !in SimpleEscapes && c != 'o' && c != 'x'
    ensures Lex(['"', '\\', c, d]) == Lexed([], Error(UnterminatedQuote(['"', '\\', c, d])))
  {
    var s := ['"', '\\', c, d];
    assert EscapeRun(s, 1) == Run(Done, 4, [d], [c]);
    assert [] + s[0..4] == s;
    assert QuotedLoop(s, [], 0, 4) == Run(Failed(UnterminatedQuote(s)), 4, [], []);
  }

  /** A digit outside the base is rejected. */
  lemma InvalidDigitExample()
    ensures Lex("\"\\x2g\"") == Lexed([], Error(InvalidDigit('g', 16)))
  {
    var s := "\"\\x2g\"";
    assert TakeDigits(s, 3, 16, 2) == (Failed(InvalidDigit('g', 16)), 5);
    assert EscapeRun(s, 1).outcome == Failed(InvalidDigit('g', 16));
  }

  /** End of input right after a backslash ends the iteration without an
      error. */
  lemma TruncatedExample()
    ensures Lex("\"\\") == Lexed([], Truncated)
  {
    var s := "\"\\";
    assert EscapeRun(s, 1) == Run(Stopped, 2, [], []);
  }

  /** An octal escape reads exactly two digits: `"\o101"` is the character
      with code 8 followed by the text `1`. */
  lemma OctalTwoDigitsExample()
    ensures Lex("\"\\o101\"") == Lexed([Token(Quoted, [8 as char, '1'], "\"\\o101\"")], Finished)
  {
    var s := "\"\\o101\"";
    assert DigitChar(8 / 8) == '1' && DigitChar(8 % 8) == '0';
    NumericEscapeRoundTrip(s, 1, 'o', 8);
    assert QuotedLoop(s, [], 0, 6) == Run(Done, 7, [], []);
    assert QuotedLoop(s, [], 0, 5) == Run(Done, 7, ['1'], []);
    assert QuotedLoop(s, [], 0, 1) == Run(Done, 7, [8 as char, '1'], []);
    StepEmits(s, 0, Run(Done, 7, [8 as char, '1'], []));
    assert s[0..7] == s;
    LexFromEmit(s, 0, Token(Quoted, [8 as char, '1'], s), 7);
  }
}

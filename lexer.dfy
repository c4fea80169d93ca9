/** The lexer of src/fml/parser.py as a mutable cursor.

    The character stream is the sequence `stream` and the number `index` of
    characters already taken from it; `next` is the pending character.  The
    methods mirror the source's `take`, `discard`, `accept`, `insert`, the four
    builders, the escape decoder and `__next__`, and each is proved against the
    reference function of the same step in LexSpec.
 */
module Parser {
  import opened LexSpec

  class Lexer {
    const stream: string
    var index: nat
    var next: Option<char>
    var position: int
    var line: int
    var column: int

    var prev: Option<Token>
    var kind: Option<Kind>
    var value: string
    var chars: string
    /** The characters reported as unknown escapes, in order. */
    var warnings: seq<char>

    /** The cursor invariant: `next` is the pending character, and the counters
        describe the characters taken so far. */
    ghost predicate Valid()
      reads this
    {
      && index <= |stream|
      && next == Peek(stream, index)
      && position == index + 1
      && line == 1 + Newlines(stream, index)
      && column == Column(stream, index)
    }

    constructor (stream: string)
      ensures Valid()
      ensures this.stream == stream && index == 0
      ensures prev == None && kind == None
      ensures value == [] && chars == [] && warnings == []
    {
      this.stream := stream;
      index := 0;
      next := Peek(stream, 0);
      position := 1;
      line := 1;
      column := 0;
      prev := None;
      kind := None;
      value := [];
      chars := [];
      warnings := [];
    }

    /** `token()`: packages the buffers. */
    function CurrentToken(): Token
      reads this
      requires kind.Some?
    {
      Token(kind.value, value, chars)
    }

    /** `take`: consumes the pending character into `chars`; None stands for
        the StopIteration it raises at end of input. */
    method Take() returns (c: Option<char>)
      requires Valid()
      modifies this`index, this`next, this`position, this`line, this`column, this`chars
      ensures Valid()
      ensures c == old(next)
      ensures index == if c.Some? then old(index) + 1 else old(index)
      ensures chars == old(chars) + stream[old(index)..index]
    {
      c := next;
      if c.None? {
        return;
      }
      var ch := c.value;
      assert stream[index..index + 1] == [ch];
      chars := chars + [ch];
      index := index + 1;
      next := Peek(stream, index);
      position := position + 1;
      if ch == '\n' {
        line := line + 1;
        column := 0;
      } else {
        column := column + 1;
      }
    }

    /** `discard`: takes the pending character without adding it to `value`. */
    method Discard() returns (ok: bool)
      requires Valid()
      modifies this`index, this`next, this`position, this`line, this`column, this`chars
      ensures Valid()
      ensures ok == old(next).Some?
      ensures index == if ok then old(index) + 1 else old(index)
      ensures chars == old(chars) + stream[old(index)..index]
    {
      var c := Take();
      ok := c.Some?;
    }

    /** `accept`: takes the pending character into both buffers. */
    method Accept() returns (ok: bool)
      requires Valid()
      modifies this`index, this`next, this`position, this`line, this`column, this`chars, this`value
      ensures Valid()
      ensures ok == old(next).Some?
      ensures index == if ok then old(index) + 1 else old(index)
      ensures chars == old(chars) + stream[old(index)..index]
      ensures value == if ok then old(value) + [old(next).value] else old(value)
    {
      var c := Take();
      ok := c.Some?;
      if ok {
        value := value + [c.value];
      }
    }

    /** `insert`: adds a decoded character to `value` only. */
    method Insert(c: char)
      modifies this`value
      ensures value == old(value) + [c]
    {
      value := value + [c];
    }

    /** `newline`: the one line break. */
    method Newline() returns (o: Outcome)
      requires Valid() && next == Some('\n')
      modifies this`index, this`next, this`position, this`line, this`column, this`chars, this`value
      ensures Valid()
      ensures o == NewlineRun(stream, old(index)).outcome && index == NewlineRun(stream, old(index)).end
      ensures chars == old(chars) + stream[old(index)..index]
      ensures value == old(value) + NewlineRun(stream, old(index)).value && warnings == old(warnings) + NewlineRun(stream, old(index)).warnings
    {
      var ok := Accept();
      o := Done;
    }

    /** `space`: a maximal run of spaces and tabs. */
    method Space() returns (o: Outcome)
      requires Valid() && next.Some? && IsBlank(next.value)
      modifies this`index, this`next, this`position, this`line, this`column, this`chars, this`value
      ensures Valid()
      ensures o == SpaceRun(stream, old(index)).outcome && index == SpaceRun(stream, old(index)).end
      ensures chars == old(chars) + stream[old(index)..index]
      ensures value == old(value) + SpaceRun(stream, old(index)).value && warnings == old(warnings) + SpaceRun(stream, old(index)).warnings
    {
      while next.Some? && IsBlank(next.value)
        invariant Valid() && old(index) <= index
        invariant SpaceEnd(stream, index) == SpaceEnd(stream, old(index))
        invariant chars == old(chars) + stream[old(index)..index]
        invariant value == old(value) + stream[old(index)..index]
        decreases |stream| - index
      {
        var ok := Accept();
        assert stream[old(index)..index] == stream[old(index)..index - 1] + [stream[index - 1]];
      }
      o := Done;
    }

    /** `quoted`: the opening quote, then characters and escapes up to the
        closing quote. */
    method Quoted() returns (o: Outcome)
      requires Valid() && next == Some('"')
      modifies this`index, this`next, this`position, this`line, this`column, this`chars, this`value,
        this`warnings
      ensures Valid()
      ensures o == QuotedRun(stream, old(index), old(chars)).outcome && index == QuotedRun(stream, old(index), old(chars)).end
      ensures chars == old(chars) + stream[old(index)..index]
      ensures value == old(value) + QuotedRun(stream, old(index), old(chars)).value && warnings == old(warnings) + QuotedRun(stream, old(index), old(chars)).warnings
    {
      ghost var run := QuotedRun(stream, old(index), old(chars));
      var ok := Discard();
      ghost var dv: string := [];
      ghost var dw: seq<char> := [];
      ContinuesStart(run);
      while true
        invariant Valid() && old(index) < index
        invariant chars == old(chars) + stream[old(index)..index]
        invariant value == old(value) + dv && warnings == old(warnings) + dw
        invariant Continues(run, dv, dw, QuotedLoop(stream, old(chars), old(index), index))
        decreases |stream| - index
      {
        ghost var i := index;
        if next.None? {
          ContinuesStop(run, dv, dw, Failed(UnterminatedQuote(chars)), index);
          o := Failed(UnterminatedQuote(chars));
          return;
        } else if next.value == '"' {
          ok := Discard();
          TakeMore(old(chars), stream, old(index), i, index);
          ContinuesStop(run, dv, dw, Done, index);
          o := Done;
          return;
        } else if next.value == '\\' {
          ghost var e := EscapeRun(stream, i);
          o := QuotedEscaped();
          TakeMore(old(chars), stream, old(index), i, index);
          if o != Done {
            AppendAssoc(old(value), dv, e.value);
            AppendAssoc(old(warnings), dw, e.warnings);
            return;
          }
          assert index == e.end;
          QuotedLoopAfterEscape(stream, old(chars), old(index), i, run, dv, dw);
          assert Continues(run, dv + e.value, dw + e.warnings, QuotedLoop(stream, old(chars), old(index), index));
          AppendAssoc(old(value), dv, e.value);
          AppendAssoc(old(warnings), dw, e.warnings);
          dv, dw := dv + e.value, dw + e.warnings;
        } else {
          QuotedLoopAfterChar(stream, old(chars), old(index), i, run, dv, dw);
          ok := Accept();
          assert index == i + 1;
          assert Continues(run, dv + [stream[i]], dw, QuotedLoop(stream, old(chars), old(index), index));
          TakeMore(old(chars), stream, old(index), i, index);
          AppendAssoc(old(value), dv, [stream[i]]);
          dv := dv + [stream[i]];
        }
      }
    }

    /** `quoted_escaped`: a backslash and the escape after it. */
    method QuotedEscaped() returns (o: Outcome)
      requires Valid() && next == Some('\\')
      modifies this`index, this`next, this`position, this`line, this`column, this`chars, this`value,
        this`warnings
      ensures Valid()
      ensures o == EscapeRun(stream, old(index)).outcome && index == EscapeRun(stream, old(index)).end
      ensures chars == old(chars) + stream[old(index)..index]
      ensures value == old(value) + EscapeRun(stream, old(index)).value && warnings == old(warnings) + EscapeRun(stream, old(index)).warnings
    {
      ghost var i := index;
      var ok := Discard();
      var c := Take();
      TakeMore(old(chars), stream, i, i + 1, index);
      if c.None? {
        assert EscapeRun(stream, i) == Run(Stopped, i + 1, [], []);
        return Stopped;
      }
      var ch := c.value;
      assert ch == stream[i + 1];
      if ch in SimpleEscapes {
        assert EscapeRun(stream, i) == Run(Done, i + 2, [SimpleEscapes[ch]], []);
        Insert(SimpleEscapes[ch]);
        o := Done;
      } else if ch == 'o' {
        assert EscapeRun(stream, i) == NumberRun(stream, i + 2, 8, 2);
        o := Number(8, 2);
        TakeMore(old(chars), stream, i, i + 2, index);
      } else if ch == 'x' {
        assert EscapeRun(stream, i) == NumberRun(stream, i + 2, 16, 2);
        o := Number(16, 2);
        TakeMore(old(chars), stream, i, i + 2, index);
      } else {
        ghost var e := EscapeRun(stream, i);
        warnings := warnings + [ch];
        ok := Accept();
        TakeMore(old(chars), stream, i, i + 2, index);
        o := if ok then Done else Stopped;
        if ok {
          assert e == Run(Done, i + 3, [stream[i + 2]], [ch]);
        } else {
          assert e == Run(Stopped, i + 2, [], [ch]);
        }
      }
    }

    /** `number`: `digits` digit characters of `base`, decoded to one character. */
    method Number(base: nat, digits: nat) returns (o: Outcome)
      requires Valid() && (base == 8 || base == 16) && 1 <= digits <= 2
      modifies this`index, this`next, this`position, this`line, this`column, this`chars, this`value
      ensures Valid()
      ensures o == NumberRun(stream, old(index), base, digits).outcome && index == NumberRun(stream, old(index), base, digits).end
      ensures chars == old(chars) + stream[old(index)..index]
      ensures value == old(value) + NumberRun(stream, old(index), base, digits).value && warnings == old(warnings) + NumberRun(stream, old(index), base, digits).warnings
    {
      var digitChars: string := [];
      for n := 0 to digits
        invariant Valid() && index == old(index) + n
        invariant digitChars == stream[old(index)..index]
        invariant chars == old(chars) + digitChars && value == old(value)
        invariant TakeDigits(stream, old(index), base, digits) == TakeDigits(stream, index, base, digits - n)
      {
        ghost var i := index;
        var c := Take();
        TakeMore(old(chars), stream, old(index), i, index);
        if c.None? {
          assert TakeDigits(stream, old(index), base, digits) == (Stopped, index);
          assert value + [] == value;
          return Stopped;
        }
        if !IsDigit(c.value, base) {
          assert TakeDigits(stream, old(index), base, digits) == (Failed(InvalidDigit(c.value, base)), index);
          assert value + [] == value;
          return Failed(InvalidDigit(c.value, base));
        }
        assert stream[i..index] == [c.value];
        TakeMore([], stream, old(index), i, index);
        digitChars := digitChars + [c.value];
      }
      assert TakeDigits(stream, old(index), base, digits) == (Done, index);
      var decoded := DecodeDigits(digitChars, base);
      Insert(decoded);
      o := Done;
    }

    /** `unquoted`: characters up to a separator or the end of input; a quote
        on the way is rejected. */
    method Unquoted() returns (o: Outcome)
      requires Valid() && next.Some? && !IsSeparator(next.value) && next.value != '"'
      modifies this`index, this`next, this`position, this`line, this`column, this`chars, this`value
      ensures Valid()
      ensures o == UnquotedRun(stream, old(index)).outcome && index == UnquotedRun(stream, old(index)).end
      ensures chars == old(chars) + stream[old(index)..index]
      ensures value == old(value) + UnquotedRun(stream, old(index)).value && warnings == old(warnings) + UnquotedRun(stream, old(index)).warnings
    {
      ghost var run := UnquotedRun(stream, old(index));
      ghost var dv: string := [];
      ContinuesStart(run);
      while true
        invariant Valid() && old(index) <= index
        invariant chars == old(chars) + stream[old(index)..index]
        invariant value == old(value) + dv
        invariant Continues(run, dv, [], UnquotedRun(stream, index))
        decreases |stream| - index
      {
        if next.None? || IsSeparator(next.value) {
          ContinuesStop(run, dv, [], Done, index);
          assert warnings + [] == warnings;
          return Done;
        } else if next.value == '"' {
          ContinuesStop(run, dv, [], Failed(BareQuote), index);
          assert warnings + [] == warnings;
          return Failed(BareQuote);
        } else {
          ghost var i := index;
          UnquotedAfterChar(stream, i, run, dv, []);
          var ok := Accept();
          TakeMore(old(chars), stream, old(index), i, index);
          AppendAssoc(old(value), dv, [stream[i]]);
          dv := dv + [stream[i]];
        }
      }
    }

    /** `__next__`: clears the buffers, dispatches on the pending character
        and returns the token, End (StopIteration) or the error. */
    method Next() returns (step: Step)
      requires Valid()
      modifies this
      ensures Valid()
      ensures StepAt(stream, old(index)) == Advance(step, index)
      ensures chars == stream[old(index)..index]
      ensures old(index) == |stream| ==> kind == None && value == [] && warnings == old(warnings)
      ensures old(index) < |stream| ==>
                var k := Classify(stream[old(index)]);
                var r := BuildRun(stream, old(index), k);
                kind == Some(k) && value == r.value && warnings == old(warnings) + r.warnings
      ensures prev == if step.Emit? then Some(step.token) else old(prev)
    {
      kind := None;
      value := [];
      chars := [];
      if next.None? {
        return End;
      }
      ghost var i := index;
      var k := Classify(next.value);
      ghost var r := BuildRun(stream, i, k);
      kind := Some(k);
      var o: Outcome;
      match k {
        case Newline => o := Newline();
        case Space => o := Space();
        case Quoted => o := Quoted();
        case Unquoted => o := Unquoted();
      }
      assert o == r.outcome && index == r.end;
      assert chars == [] + stream[i..index] && value == [] + r.value && warnings == old(warnings) + r.warnings;
      assert [] + r.value == r.value && [] + stream[i..index] == stream[i..index];
      match o {
        case Stopped => return End;
        case Failed(e) => return Fail(e);
        case Done =>
      }
      var token := CurrentToken();
      prev := Some(token);
      step := Emit(token);
    }
  }

  /** Drains a fresh lexer over `s`, as `list(Lexer(s))` or a `for` loop does,
      and says how the iteration ended. */
  method Tokenize(s: string) returns (tokens: seq<Token>, stop: Stop)
    ensures Lexed(tokens, stop) == Lex(s)
  {
    var lexer := new Lexer(s);
    tokens := [];
    while true
      invariant lexer.Valid() && lexer.stream == s
      invariant Lex(s) == Lexed(tokens + LexFrom(s, lexer.index).tokens, LexFrom(s, lexer.index).stop)
      decreases |s| - lexer.index
    {
      ghost var i := lexer.index;
      var step := lexer.Next();
      match step {
        case Emit(t) =>
          tokens := tokens + [t];
        case End =>
          // StopIteration with nothing taken is the end between tokens.
          stop := if lexer.chars == [] then Finished else Truncated;
          return;
        case Fail(e) =>
          stop := Error(e);
          return;
      }
    }
  }
}

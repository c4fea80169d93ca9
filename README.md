# FML lexer, modelled and verified in Dafny

This project models the character-level `Lexer` of `src/fml/parser.py`. The lexer
splits a text into four kinds of token:

- line breaks;
- runs of spaces and tabs;
- quoted text, with backslash escapes;
- bare words.

Each token carries its kind, its decoded `value` and the raw `chars` it consumed.

The model has three modules:

- `LexSpec` (`lex_spec.dfy`): the reference semantics.
  - Datatypes for tokens, errors and builder outcomes.
  - The simple-escape and digit tables.
  - One pure function per builder: `newline`, `space`, `quoted`, `quoted_escaped`, `number` and `unquoted`. Each returns a `Run`: the outcome, the index past the last character taken, the characters added to `value`, and the unknown-escape warnings.
  - `StepAt`, one call of `__next__`, and `Lex`, the whole iteration over `Lexer(s)`: the tokens a `for` loop sees and how it stops.
- `Parser` (`lexer.dfy`): the class `Lexer` with the source's fields.
  - The fields are `next`, `position`, `line`, `column`, `prev`, `kind`, `value` and `chars`.
  - The stream is a string plus the count `index` of characters taken.
  - Its methods `Take`, `Discard`, `Accept` and `Insert`, the builders, `QuotedEscaped`, `Number` and `Next` update those fields in place. The postconditions of the builders, `QuotedEscaped`, `Number` and `Next` tie the new state to the `LexSpec` function of the same step; those of `Take`, `Discard`, `Accept` and `Insert` state the new fields directly.
  - `Tokenize` drains a fresh lexer, as a `for` loop over it does.
- `LexProperties` (`lex_properties.dfy`): what the reference semantics guarantees.
  - The position counters.
  - The shape of every builder's result and of every token.
  - The round trip from tokens back to the input.
  - Writing quoted text and numeric escapes back.
  - The documented examples and each error.

Python's exceptions are modelled as values:

- A `take` at end of input raises StopIteration. It becomes the outcome `Stopped`, and `__next__` then yields `End`.
- A `reject` becomes `Failed(error)`, and `__next__` yields `Fail(error)`.
- `Lex` records how the iteration ended:
  - `Finished`: end of input between tokens;
  - `Truncated`: StopIteration inside a token;
  - `Error(e)`: one of the three errors.

The source's own `assert`s at the head of each builder become `requires` clauses.

The model follows the code in three places where its behaviour is easy to misread:

- **Unknown escape.** After a backslash and an unknown letter, the code prints a warning and then `accept`s the character *after* the letter. So `"\qz"` decodes to `z`, and `"\q"` is unterminated; `LexProperties.UnknownEscapeExample` shows this. The letter itself is not decoded to anything.
- **Octal escape.** `\o` reads exactly two octal digits. So `"\o101"` is the character with code 8 followed by `1`, not `A`; `LexProperties.OctalTwoDigitsExample` shows this.
- **After an error.** The code does not mark the lexer as exhausted after an error. `Parser.Lexer.Next` does the same: after a `Fail` the lexer is still valid, and the next call resumes at the pending character. On an error `list(Lexer(s))` raises and returns no list at all. `Lex` and `Parser.Tokenize` return instead the tokens a `for` loop over the lexer sees before the exception, together with `Error(e)`.

## Model

| member | source | states |
|---|---|---|
| LexSpec.Classify | src/fml/parser.py:91-100 | `__next__` picks each kind exactly for its characters: newline for a line break, space for a space or tab, quoted for a quote, unquoted for every other character (four if-and-only-ifs) |
| LexSpec.ParseIntBelowPow | src/fml/parser.py:172 | `int(d, base)` of a string of valid digits is below `base` to the power of its length |
| LexSpec.DecodeDigits | src/fml/parser.py:171-173 | the decoded character's code is the number the digits spell in the base, and is below 256 |
| LexSpec.Newlines | src/fml/parser.py:63-66 | the `line` counter's increments over the first `n` characters taken, one per line break; `LexProperties.NewlinesCounts` ties it to the field |
| LexSpec.Column | src/fml/parser.py:63-68 | the `column` counter after the first `n` characters taken, reset by a line break and bumped by any other character; `LexProperties.ColumnSinceNewline` ties it to the field and shows it counts the characters since the last line break |
| LexSpec.ValidDigits | src/fml/parser.py:157-162 | the table's digit strings for bases 8 and 16; `LexProperties.IsDigitMatchesTable` shows `IsDigit` agrees with it |
| LexSpec.IsDigit | src/fml/parser.py:168 | the `char not in valid_digits[base]` test, negated, written as character ranges; `LexProperties.IsDigitMatchesTable` proves it is membership in `ValidDigits(base)` in both directions |
| LexSpec.ParseInt | src/fml/parser.py:172 | `int(d, base)` for a string of valid digits, most significant first; `LexSpec.ParseIntBelowPow` bounds it and `LexSpec.DecodeDigits` turns it into the inserted character |
| LexSpec.NewlineRun | src/fml/parser.py:107-109 | `newline`: the run takes exactly the line break into `value` and `chars` and succeeds; `LexProperties.NewlineStep` shows `__next__` yields it as one newline token |
| LexSpec.SpaceEnd | src/fml/parser.py:113-114 | where the `while self.next in set(' \t')` loop stops; `LexProperties.SpaceEndMaximal` shows it is the first character that is not a space or tab, or end of input |
| LexSpec.SpaceRun | src/fml/parser.py:111-114 | `space`: the run from the first blank up to `SpaceEnd`; `LexProperties.SpaceRunShape` and `LexProperties.BlankStep` state its value and maximality |
| LexSpec.QuotedLoop | src/fml/parser.py:119-129 | the `while True` loop of `quoted` from some index on, with the value decoded so far; `LexProperties.QuotedLoopShape`, `LexProperties.QuotedLoopEscaped` and `LexProperties.QuotedLoopUnterminated` state how it ends and what it reads back |
| LexSpec.QuotedRun | src/fml/parser.py:116-129 | `quoted`: discards the opening quote and runs `QuotedLoop`; `LexProperties.QuoteRoundTrip` and `LexProperties.UnterminatedStep` state what it reads and when it fails |
| LexSpec.EscapeRun | src/fml/parser.py:131-155 | `quoted_escaped`: the escape at a backslash, decoded through the `SimpleEscapes` table (the source's `simple_escapes`), `NumberRun` for `o` and `x`, or a warning followed by accepting the next character; `LexProperties.EscapeRunShape` and `LexProperties.NumericEscapeRoundTrip` state its results |
| LexSpec.TakeDigits | src/fml/parser.py:166-170 | the `for _ in range(digits)` loop of `number`: the outcome and the index it stops at; `LexProperties.TakeDigitsShape` states when it succeeds, stops or fails |
| LexSpec.NumberRun | src/fml/parser.py:164-174 | `number`: `TakeDigits`, then the one decoded character inserted on success; `LexProperties.NumberRunShape` and `LexProperties.NumericEscapeBound` state its results |
| LexSpec.UnquotedRun | src/fml/parser.py:176-186 | `unquoted`: the run of word characters up to a separator, end of input or a quote; `LexProperties.UnquotedRunShape` and `LexProperties.WordStep` state its value, its end and its `BareQuote` failure |
| LexSpec.BuildRun | src/fml/parser.py:102 | the `getattr(self, self.kind)()` dispatch: the builder run for the pending character's kind, which always consumes at least that character; `LexProperties.StepAtShape` states the token it yields |
| LexSpec.StepAt | src/fml/parser.py:86-105 | one call of `__next__` at an index: it consumes nothing exactly at end of input, where it yields `End`; otherwise it consumes at least the pending character and turns the kind's builder run into a token, `End` or `Fail`; `LexProperties.StepAtShape` states every token's shape and `Parser.Lexer.Next` is proved against it |
| LexSpec.LexFrom | src/fml/parser.py:83-105 | the tokens iteration yields from an index on, and how it stops; `LexProperties.LexFromRoundTrip`, `LexProperties.LexFromWellFormed` and `LexProperties.LexFromAdjacent` state their properties |
| LexSpec.Lex | src/fml/parser.py:83-105 | the tokens a `for` loop over `Lexer(s)` sees, and how it stops; `LexProperties.RoundTrip` and `LexProperties.Adjacent` state their properties and `Parser.Tokenize` is proved equal to it |
| Parser.Lexer.constructor | src/fml/parser.py:37-48 | a new lexer has `position` 1, `line` 1, `column` 0, empty buffers, no kind and no previous token, and the first character pending |
| Parser.Lexer.Take | src/fml/parser.py:57-69 | returns the pending character, or None (StopIteration) at end of input; advances by one character exactly when there was one; appends it to `chars`; keeps `next`, `position`, `line` and `column` in step with the characters taken |
| Parser.Lexer.Discard | src/fml/parser.py:71-72 | takes the pending character into `chars` only; reports whether there was one |
| Parser.Lexer.Accept | src/fml/parser.py:74-75 | takes the pending character into both `chars` and `value` |
| Parser.Lexer.Insert | src/fml/parser.py:80-81 | appends the given character to `value` and changes nothing else |
| Parser.Lexer.Newline | src/fml/parser.py:107-109 | takes the line break into both buffers, as `LexSpec.NewlineRun` says |
| Parser.Lexer.Space | src/fml/parser.py:111-114 | takes the whole run of spaces and tabs into both buffers and ends where `LexSpec.SpaceRun` ends (loop invariant: the run's end is unchanged) |
| Parser.Lexer.Quoted | src/fml/parser.py:116-129 | ends, with the outcome, end, value and warnings of `LexSpec.QuotedRun`, having taken exactly the input up to that end into `chars` |
| Parser.Lexer.QuotedEscaped | src/fml/parser.py:143-155 | decodes one escape as `LexSpec.EscapeRun` does: simple escapes, `o` and `x` numbers, and an unknown letter warned about and followed by the accepted next character |
| Parser.Lexer.Number | src/fml/parser.py:164-174 | takes up to `digits` digits of the base, stops at end of input, rejects the first non-digit with `InvalidDigit`, or inserts the decoded character, as `LexSpec.NumberRun` says |
| Parser.Lexer.Unquoted | src/fml/parser.py:176-186 | takes word characters into both buffers up to a separator or the end of input, and fails with `BareQuote` at a quote, as `LexSpec.UnquotedRun` says |
| Parser.Lexer.Next | src/fml/parser.py:86-105 | clears the buffers, dispatches on the pending character, and yields `LexSpec.StepAt` of the old position; `chars` holds exactly the input consumed, `kind` and `value` are those of the builder's run, and `prev` is the emitted token |
| Parser.Tokenize | src/fml/parser.py:83-105 | draining a fresh lexer yields exactly `Lex(s)`: its tokens and how the iteration ended |
| LexProperties.NewlinesCounts | src/fml/parser.py:63-66 | `line - 1` is the number of line breaks among the characters taken |
| LexProperties.ColumnSinceNewline | src/fml/parser.py:64-68 | `column` is the number of characters taken since the last line break taken, or since the start when there is none |
| LexProperties.IsDigitMatchesTable | src/fml/parser.py:157-162 | the digit test agrees with the source's digit strings for bases 8 and 16, in both directions |
| LexProperties.SpaceEndMaximal | src/fml/parser.py:113-114 | the space loop takes only spaces and tabs, and stops at the first other character or at end of input |
| LexProperties.SpaceRunShape | src/fml/parser.py:111-114 | a space run never fails or warns; its value is exactly the blanks it took, and the run is maximal |
| LexProperties.UnquotedRunShape | src/fml/parser.py:176-186 | a bare word's value is exactly the characters it took, none of them a separator or a quote; it ends at a separator or end of input when done, and otherwise fails with `BareQuote` exactly at a quote |
| LexProperties.TakeDigitsShape | src/fml/parser.py:166-170 | the digit loop succeeds exactly when it took `digits` valid digits; it stops only at end of input after valid digits; a failure names the first invalid character and the base |
| LexProperties.NumberRunShape | src/fml/parser.py:164-174 | a numeric escape succeeds exactly when the input holds `digits` more characters and all of them are valid digits. It then consumes exactly those and adds the one character whose code is `int(digits, base)`; otherwise it adds nothing |
| LexProperties.EscapeRunShape | src/fml/parser.py:143-155 | an escape adds at most one character; a completed escape consumes 2 to 4 characters, and a lone backslash at end of input consumes 1 and stops. A simple escape yields its table entry. A warning is raised exactly for an unknown letter, and names it. Failures only come from `o` and `x` digits |
| LexProperties.QuotedLoopShape | src/fml/parser.py:116-129 | the quoted loop ends in one of four ways: just past a closing quote, having decoded fewer characters than it took; with `UnterminatedQuote` carrying the token's raw chars, at end of input between characters; with `InvalidDigit` inside a numeric escape; or `Stopped` (StopIteration) at end of input inside an escape |
| LexProperties.StepAtShape | src/fml/parser.py:86-105 | a token from `__next__` has the pending character's kind and chars equal to the input consumed. It is well formed: `value == chars` for non-quoted kinds, quote delimiters in `chars`. Space and bare-word runs are maximal. `End` consumes the rest of the input inside quoted text. Each error comes only from its own kind |
| LexProperties.LexFromRoundTrip | src/fml/parser.py:86-105 | the tokens of an iteration from any index spell out a prefix of the rest of the input, and all of it exactly when the iteration finishes between tokens |
| LexProperties.RoundTrip | src/fml/parser.py:57-61 | the `chars` of `list(Lexer(s))` concatenate to a prefix of `s`, and to `s` itself exactly when the iteration finishes without error or truncation |
| LexProperties.LexFromWellFormed | src/fml/parser.py:104-105 | every token an iteration yields is well formed |
| LexProperties.LexFromAdjacent | src/fml/parser.py:113-114 | in every iteration a space token is never followed by another space token, and a bare word is followed only by a space or newline token |
| LexProperties.Adjacent | src/fml/parser.py:183-184 | the same adjacency for `list(Lexer(s))` |
| LexProperties.QuotedLoopEscaped | src/fml/parser.py:119-129 | escaping text (a backslash before each quote and backslash) and closing it with a quote reads back as exactly that text, with no warnings |
| LexProperties.QuoteRoundTrip | src/fml/parser.py:116-133 | quoted escaped text is read back, wherever it stands, as one quoted token whose value is the text and whose chars are the quoted text |
| LexProperties.WordStep | src/fml/parser.py:176-186 | conversely, a maximal run of word characters is read as one bare word with value and chars equal to that run |
| LexProperties.BlankStep | src/fml/parser.py:111-114 | conversely, a maximal run of spaces and tabs is read as one space token |
| LexProperties.NewlineStep | src/fml/parser.py:107-109 | a line break is read as one newline token |
| LexProperties.NumericEscapeRoundTrip | src/fml/parser.py:149-152 | `\o` or `\x` followed by the two digits of `n` in that base decodes to the character with code `n`, consuming four characters |
| LexProperties.NumericEscapeBound | src/fml/parser.py:164-174 | a successful numeric escape consumes four characters and yields a code below 64 (octal) or 256 (hex) |
| LexProperties.QuotedHexStep | src/fml/parser.py:151-152 | quoted text holding one `\x` escape is one quoted token whose value is the decoded character |
| LexProperties.LinesExample | src/fml/parser.py:9-21 | the first documented example for any bare word and quoted value: unquoted, newline, space and quoted tokens, then the end |
| LexProperties.ExampleLines | src/fml/parser.py:9-21 | the first documented example exactly as written |
| LexProperties.EscapesLex | src/fml/parser.py:23-28 | the second documented example on any input made of its pieces: quoted text, a space, quoted text, a space and a quoted `\x` escape read as those five tokens |
| LexProperties.EscapesExample | src/fml/parser.py:23-28 | the second documented example for any two quoted values and any hex code: `Quote(u) + " " + Quote(v) + " " + "\xHH"` yields the tokens `u`, space, `v`, space and the character with that code |
| LexProperties.ExampleEscapes | src/fml/parser.py:23-28 | the second documented example exactly as written: `\"`, `\\` and `\x20` decode to a quote, a backslash and a space |
| LexProperties.ExampleEmpty | src/fml/parser.py:30-31 | the empty input yields no tokens |
| LexProperties.ExampleSpace | src/fml/parser.py:32-33 | a single space yields one space token |
| LexProperties.BareQuoteExample | src/fml/parser.py:181-182 | a bare word running into a quote is rejected with `BareQuote` |
| LexProperties.UnknownEscapeExample | src/fml/parser.py:153-155 | after an unknown escape letter, the next character is taken as text, even a closing quote, so the quoted text is unterminated |
| LexProperties.QuotedLoopUnterminated | src/fml/parser.py:119-129 | quoted text that reaches end of input with no quote and no backslash on the way fails with `UnterminatedQuote`, carrying the token's raw chars |
| LexProperties.UnterminatedStep | src/fml/parser.py:116-122 | conversely to `StepAtShape`, an opening quote followed by neither a quote nor a backslash fails with `UnterminatedQuote` of the whole rest of the input |
| LexProperties.UnterminatedExample | src/fml/parser.py:120-122 | the input `"abc` is rejected with `UnterminatedQuote`, whose raw chars are the four characters `"abc`, opening quote included |
| LexProperties.InvalidDigitExample | src/fml/parser.py:168-169 | `"\x2g"` is rejected with `InvalidDigit('g', 16)` |
| LexProperties.TruncatedExample | src/fml/parser.py:144-146 | end of input right after a backslash ends the iteration by StopIteration, without an error |
| LexProperties.OctalTwoDigitsExample | src/fml/parser.py:164-174 | `\o` reads exactly two digits, so `"\o101"` is the character with code 8 followed by `1` |

## Left out

- `print` of the unknown-escape warning: the warning is recorded instead. The warned character is appended to the `warnings` field and to `Run.warnings`. The message wording is not modelled.
- The message text of each `reject` is not modelled. The error value carries the data the message shows: the raw chars of unterminated text, and the digit and base of an invalid digit.
- `__iter__` and Python's iterator protocol are not modelled directly. StopIteration is the `Stopped` outcome and the `End` step. `Parser.Tokenize` stands for a `for` loop over `Lexer(s)`: when the iteration finishes or is truncated its tokens are `list(Lexer(s))`; on an error, where `list(...)` raises, they are the tokens the loop saw before the exception.
- The `getattr` dispatch by method name is not modelled as such: it becomes a `match` on the four kinds.
- The class attribute `state` is not modelled; nothing in the lexer reads or writes it.
- The entries for bases 2 and 10 in the `valid_digits` table are left out, because no escape uses those bases.
- `token()` is modelled as `Parser.Lexer.CurrentToken`, which only packages the buffers and has no contract of its own.
- The input is a sequence of Dafny `char`s, that is, Unicode scalar values. A Python `str` can also hold lone surrogates, which are not representable here; the lexer treats them like any other word character, so no lexer behaviour is lost.
- The character source is a string read by index, not a Python iterator. Reading past the end is not observable in the model.
- `Parser.Lexer.Number`: requires 1 to 2 digits. The source allows any count, but its only callers pass 2. With no digits `int('')` raises `ValueError`, which is not modelled.
- `LexSpec.NumberRun`: has the same 1 to 2 digit restriction, for the same reason.

# baidu_fanyi: the template engine, the whitespace filter and the output loop

`baidu_fanyi` is a command-line client of the Baidu translation service. It reads a text,
shortens runs of whitespace, sends the text for translation and prints every translated line
through one or more user templates. This project models the parts of it that are pure logic
or in-memory loops, and proves their properties in Dafny:

- `mini_fmt.dfy` (module `MiniFmt`): the template language of `mod mini_fmt`. `Build` is the
  scanning loop of `Fmtter::build`. It turns a template such as `"%s,%0r%n"` into instructions:
  `Const` literals, `Value` references that take the next argument, and `IndexValue`
  references that take a fixed argument. It fails with one of four errors. `FmtStr` and
  `FmtTypeStr` are the renderer: one cursor, shared by the whole template, walks the
  arguments. Both methods are proved equal to specification functions. The compiler has two
  layers: `Tokens` is a lexer that fixes which error wins, and `Coalesce` merges adjacent
  characters into one literal. `Render` is the renderer's specification.
- `mini_fmt_proofs.dfy` (module `MiniFmtProofs`): what the template language promises. This
  covers literal text, every escape (including `%x`/`%u`/`%U` hex escapes), every error case,
  the shape of the instruction list, the cursor semantics of rendering, and every
  documentation example of `Fmtter`.
- `traits.dfy` (module `Traits`): `FilterOutLongEmpty`, the loop that cuts each whitespace run
  of a text to at most `count` characters, proved against the character-by-character rule
  `Filtered`.
- `fanyi.dfy` (module `Fanyi`): from `src/main.rs`. It holds the block-size rule
  `split_blocks`, the salt arithmetic of `get_salt`, the default output template
  `"%s\n%s\n"`, and the nested loop of `main` that prints every row through every template.

Arguments are rendered through a `Show<T>` value: three functions giving a value's `Display`,
`Debug` and expanded `Debug` text. The program itself only renders `&str` rows; for those,
`StrShow` gives the text itself and the quoted, escaped text.

## Model

| member | source | states |
|---|---|---|
| MiniFmt.StyleOf | src/lib.rs:165-175 | a style letter succeeds exactly when it is `s`, `r` or `R`, which map to `Str`, `Repr`, `ERepr`; any other letter is the error "unknown sequence" carrying that letter |
| MiniFmt.FromStrRadix16 | src/lib.rs:151 | `from_str_radix(_, 16)` accepts an optional `+` and then at least one hex digit whose value fits the type, giving that value; an empty text or a leading `-` fails |
| MiniFmt.FromU32 | src/lib.rs:153-158 | `char::from_u32` succeeds exactly on Unicode scalar values and then gives the character with that code |
| MiniFmt.HexEscape | src/lib.rs:146-163 | a hex escape succeeds only when all of its fixed number of digits are present |
| MiniFmt.Step | src/lib.rs:176-204 | one scanning step consumes at least one and at most all of the remaining characters |
| MiniFmt.Build | src/lib.rs:112-210 | the scanning loop returns exactly the specified compilation (`Compile`) of the template, error included |
| MiniFmt.ResumePlain | src/lib.rs:201-203 | a character other than `%` is appended to the pending literal and scanning goes on after it |
| MiniFmt.ResumeTruncated | src/lib.rs:132-139 | a template ending right after `%` or after `%<digit>` fails with "sequence in fmtter end", whatever came before |
| MiniFmt.ResumeIndex | src/lib.rs:181-187 | `%<digit><style>` flushes the pending literal and pushes `IndexValue`; a bad style letter is the result's error |
| MiniFmt.ResumeEscape | src/lib.rs:188-192 | `%%`, `%n`, `%N`, `%t`, `%e` append their one character to the pending literal |
| MiniFmt.ResumeHex | src/lib.rs:193-195 | `%x`, `%u`, `%U` append the character of their hex run, or end the build with the run's error |
| MiniFmt.ResumeValue | src/lib.rs:196-198 | any other letter after `%` flushes the pending literal and pushes `Value` with that style, or is "unknown sequence" |
| MiniFmt.StyleStr | src/lib.rs:14-22 | `%s` gives the argument's `Display`, `%r` its `Debug`, `%R` its expanded `Debug` |
| MiniFmt.StrShow | src/lib.rs:19-20 | for `&str`, `Debug` and expanded `Debug` are the same function |
| MiniFmt.FmtTypeStr | src/lib.rs:37-51 | one instruction renders as its piece `Emit` (the literal, or the chosen argument in the chosen style), and the cursor moves by one exactly for a `Value` |
| MiniFmt.RenderStep | src/lib.rs:211-218 | one turn of the loop over the instructions: appending instruction `k`'s piece moves the split point one instruction on, and the rest still fits the arguments |
| MiniFmt.FmtStr | src/lib.rs:211-218 | rendering a template with one shared cursor equals the specification `Render` from cursor 0 |
| MiniFmtProofs.StepAppend | src/lib.rs:116-204 | a step that succeeds on a prefix is unchanged by what follows it |
| MiniFmtProofs.TokensAppend | src/lib.rs:116-205 | a cleanly scanned prefix contributes its tokens and the rest is scanned on its own |
| MiniFmtProofs.NoPercentTokens | src/lib.rs:201-203 | a template without `%` scans to one literal token per character |
| MiniFmtProofs.CoalesceChars | src/lib.rs:117-126 | consecutive literal characters extend the pending literal |
| MiniFmtProofs.JoinedLiteral | src/lib.rs:188-195 | a literal-producing sequence between two plain texts yields one `Const` of the joined text |
| MiniFmtProofs.JoinedRef | src/lib.rs:117-126 | a reference between two plain texts yields the literals around it, each only when it is not empty |
| MiniFmtProofs.JoinedError | src/lib.rs:127-175 | after a clean prefix, a failing sequence makes the whole build fail with that sequence's error |
| MiniFmtProofs.NoPercentCompiles | src/lib.rs:201-209 | a template without `%` compiles to one `Const`, or to nothing when it is empty |
| MiniFmtProofs.NoPercentRenders | src/lib.rs:211-218 | a template without `%` renders to itself for any arguments |
| MiniFmtProofs.SimpleEscapeJoins | src/lib.rs:188-192 | `%%`, `%n`, `%N`, `%t`, `%e` become `%`, LF, CR, TAB, ESC inside the surrounding literal |
| MiniFmtProofs.HexValueBound | src/lib.rs:193-195 | a run of `n` hex digits has a value below 16^n |
| MiniFmtProofs.HexCaseInsensitive | src/lib.rs:151 | hex digits of either case have the same value |
| MiniFmtProofs.HexRunStep | src/lib.rs:146-163 | a full hex escape yields its character when the value is a scalar, and "to char failed" otherwise |
| MiniFmtProofs.HexEscapeJoins | src/lib.rs:146-163 | a hex escape whose value is a Unicode scalar adds that character to the literal |
| MiniFmtProofs.HexEscapeNotScalar | src/lib.rs:153-158 | a hex value that is a surrogate or above 0x10FFFF fails with "to char failed" and that value |
| MiniFmtProofs.PlusSignHex | src/lib.rs:151 | a `+` in the first digit position is accepted as a sign, as `from_str_radix` does |
| MiniFmtProofs.PlusHexStep | src/lib.rs:146-163 | `%x`, `%u`, `%U`, then `+` and one digit fewer than the width, lex as the one character of that value |
| MiniFmtProofs.BadHexStep | src/lib.rs:159-161 | digits that do not parse fail the step with "build hex error" and the digits |
| MiniFmtProofs.BadHexRun | src/lib.rs:159-161 | digits that do not parse fail the build with "build hex error" and the digits |
| MiniFmtProofs.TruncatedSequence | src/lib.rs:127-139 | `%`, `%<digit>` or a hex escape cut short at the end fails with "sequence in fmtter end" |
| MiniFmtProofs.UnknownSequenceAfterPercent | src/lib.rs:196-198 | `%` followed by any character outside the table fails with "unknown sequence" and that character |
| MiniFmtProofs.UnknownStyleAfterDigit | src/lib.rs:181-186 | `%<digit>` followed by a character other than `s`, `r`, `R` fails with "unknown sequence" |
| MiniFmtProofs.NextReference | src/lib.rs:196-198 | `%s`, `%r`, `%R` compile to a `Value` with that style between the flushed literals |
| MiniFmtProofs.IndexedReference | src/lib.rs:181-187 | `%<d><style>` compiles to an `IndexValue` with index `d` and that style |
| MiniFmtProofs.TokensLexical | src/lib.rs:176-204 | every scanned reference has a style and an index below 10 |
| MiniFmtProofs.CoalesceShape | src/lib.rs:117-126 | building keeps literals non-empty and never puts two literals side by side |
| MiniFmtProofs.CompiledWellShaped | src/lib.rs:117-126 | a compiled template has no empty `Const` and no two adjacent `Const`s |
| MiniFmtProofs.CompiledIndexBelowTen | src/lib.rs:181-184 | every `IndexValue` of a compiled template has an index below 10 |
| MiniFmtProofs.ExpandAppend | src/lib.rs:112-210 | expanding instructions back into tokens distributes over concatenation |
| MiniFmtProofs.ExpandCoalesce | src/lib.rs:117-126 | merging tokens into instructions loses and reorders nothing |
| MiniFmtProofs.CompiledExpandsToTokens | src/lib.rs:112-210 | the instructions of a compiled template, split back into characters, are exactly its tokens |
| MiniFmtProofs.RenderAppend | src/lib.rs:37-51 | rendering two instruction lists in a row equals rendering each, the second from the cursor the first leaves |
| MiniFmtProofs.StrStyles | src/lib.rs:14-22 | for `&str`, `%s` is the text itself, and `%r` and `%R` agree on a quoted text no shorter than the original plus two; a text of printable ASCII without `"` or `\` is only quoted |
| MiniFmtProofs.EscapeDebugLength | src/lib.rs:19-20 | `Debug` escaping never shortens a text |
| MiniFmtProofs.EscapeDebugPlain | src/lib.rs:19-20 | a text of printable ASCII without `"` or `\` is unchanged by escaping |
| MiniFmtProofs.LowerHexValue | src/lib.rs:19-20 | the lower-case hex digits written in a `\u{..}` escape read back as the character's code |
| MiniFmtProofs.DocEscapeControl | src/lib.rs:19-20 | `%r` of the ESC character prints `"\u{1b}"` |
| MiniFmtProofs.HexDocValues | src/lib.rs:64-68 | the hex digits of the documentation examples have the expected values |
| MiniFmtProofs.DocHexEscape | src/lib.rs:64 | `"%x1b"` compiles to the ESC character |
| MiniFmtProofs.DocHexUpperCase | src/lib.rs:65 | `"%x1C"` compiles to the character 0x1C |
| MiniFmtProofs.DocUnicodeEscape | src/lib.rs:66 | `"%u0879"` compiles to U+0879 |
| MiniFmtProofs.DocLargestScalar | src/lib.rs:67 | `"%U10ffff"` compiles to U+10FFFF |
| MiniFmtProofs.DocBeyondLargestScalar | src/lib.rs:68 | `"%U110000"` is an error |
| MiniFmtProofs.DocTemplateTokens | src/lib.rs:61 | `"%s,%s,%0s,%1r,%s"` scans into five references separated by commas |
| MiniFmtProofs.DocTemplateCoalesces | src/lib.rs:61 | those tokens build the nine instructions with `","` literals |
| MiniFmtProofs.DocTemplateCompiles | src/lib.rs:61 | `"%s,%s,%0s,%1r,%s"` compiles to `Value`, `","`, `Value`, `","`, `IndexValue(0)`, `","`, `IndexValue(1)` Debug, `","`, `Value` |
| MiniFmtProofs.DocTemplateOutput | src/lib.rs:61-62 | on three arguments those instructions print arguments 0, 1, 0, Debug of 1, then 2 |
| MiniFmtProofs.DocTemplateRenders | src/lib.rs:61-62 | on `["a", "b", "c"]` the template prints `a,b,a,"b",c` |
| MiniFmtProofs.DocSingleValue | src/lib.rs:57-59 | `"ab%sde"` prints `ab`, the argument's `Display`, then `de`, for any argument type's `Display` |
| MiniFmtProofs.DocSingleString | src/lib.rs:57-58 | `"ab%sde"` on `["c"]` prints `abcde` |
| Traits.IsWhitespace | src/lib.rs:243-248 | on ASCII, `char::is_whitespace` holds exactly for space, TAB, LF, VT, FF and CR |
| Traits.FilterOutLongEmpty | src/lib.rs:237-259 | both branches of the loop compute `Filtered`: each whitespace character is kept only while its run has at most `count` characters |
| Traits.FilteredKeepsText | src/lib.rs:247-256 | every non-whitespace character survives, in order, for any count |
| Traits.FilteredZeroDropsWhitespace | src/lib.rs:240-245 | with count 0 the result is exactly the text without its whitespace |
| Traits.FilteredRunLen | src/lib.rs:247-256 | the run at the end of the result is the input's run cut at `count` |
| Traits.FilteredRunsAtMost | src/lib.rs:247-256 | no whitespace run in the result is longer than `count` |
| Traits.FilteredIdentity | src/lib.rs:247-256 | a text with no run longer than `count` is returned unchanged |
| Traits.FilteredIdempotent | src/lib.rs:237-259 | filtering twice with the same count equals filtering once |
| Traits.DocExamples | src/lib.rs:231-236 | `"a   b"` with counts 0 to 4 gives `ab`, `a b`, `a  b`, `a   b`, `a   b` |
| Traits.FilteredSpaces | src/lib.rs:247-256 | after a text with no trailing whitespace, a run of `n` spaces is cut to `min(n, count)` spaces and the text before it is filtered as on its own |
| Traits.DocRun | src/lib.rs:231-236 | `"a   b"` keeps `min(3, count)` of its three spaces |
| Fanyi.SplitBlocks | src/main.rs:76-92 | a piece of 4000 bytes or more is an error and leaves the sum. A smaller piece that keeps the sum under 4000 answers "no new block" and leaves the sum. Otherwise it answers "new block" and sets the sum to the piece. On success the sum is below 4000 |
| Fanyi.SplitBlocksOverfull | src/main.rs:78-80 | as written, pieces of 3000 and 3000 bytes end up in one block of 6000 bytes |
| Fanyi.SplitBlocksFixedBounded | src/main.rs:74-92 | with the sum increased on "no new block", every block stays below 4000 bytes |
| Fanyi.SplitBlocksFixedAccounts | src/main.rs:74-92 | with that correction, the block totals add up to the bytes fed in |
| Fanyi.Salt | src/main.rs:107-113 | the salt is the masked random value plus 32768 without overflow, lies in [32768, 65535] and keeps the low 15 bits |
| Fanyi.SaltNoCarry | src/main.rs:107-113 | the 16-bit sum equals the same sum taken in 32 bits, so `get_salt` never overflows |
| Fanyi.SaltOnto | src/main.rs:107-113 | every value in [32768, 65535] is a possible salt |
| Fanyi.DefaultFormatCompiles | src/main.rs:255 | `"%s\n%s\n"` compiles to `Value`, `"\n"`, `Value`, `"\n"`, so its `unwrap` cannot fail |
| Fanyi.DefaultFormatRenders | src/main.rs:255 | the default template prints `dst`, LF, `src`, LF for the row `[dst, src]` |
| Fanyi.UseDefaultFormat | src/main.rs:386-389 | with no template given, the compiled default template is the only one; otherwise the templates are unchanged |
| Fanyi.PrintAll | src/main.rs:427-431 | the nested loops print `Output`: template after template, each over all rows in order |
| Fanyi.RowStep | src/main.rs:428-430 | one turn of the inner loop: printing row `j` appends exactly that row's line to the rows printed so far |
| Fanyi.TemplateStep | src/main.rs:427-431 | one turn of the outer loop: the rows printed under template `i` extend the output of the earlier templates |
| Fanyi.OutputAppend | src/main.rs:427-431 | the output of two lists of templates is the first list's output followed by the second's |
| Fanyi.TemplateMajorOrder | src/main.rs:427-431 | with templates f, g and rows x, y the output is f(x), f(y), g(x), g(y) |
| Fanyi.TwoTemplates | src/main.rs:427-431 | two templates print everything of the first before anything of the second |
| Fanyi.DefaultOutput | src/main.rs:427-431 | with the default template the output is each row's translation, LF, original, LF |
| Fanyi.DefaultRows | src/main.rs:428-430 | the default template over the rows prints each row's translation, LF, original, LF |
| Fanyi.DefaultLine | src/main.rs:255 | the default template prints one row as its translation and its original, each followed by LF |

## Left out

- HTTP and async code: `post`, the retry loop of `Translater::translate`, and the JSON
  decoding of the reply (src/main.rs:116-126, 208-232, 414-425). This is network I/O. The
  model starts from the decoded rows (`Fanyi.Row`).
- MD5 signing (`make_md5`, `get_sign`), a call into an external crate.
- The `random()` call in `get_salt`: its result is the parameter of `Fanyi.Salt`.
- Configuration file, `HOME`, command-line parsing, standard input, `help` and `exit`
  (src/main.rs:129-147, 277-400). Only the step that adds the default template is modelled.
  So is the whitespace filter that `get_cfg` applies to the text.
- Standard output is modelled as the string `Fanyi.PrintAll` returns.
- `Fmtter::new`, `Default` for `Fmtter` and `FmtType`, `From<Vec<FmtType>>`, `TryFrom<&str>`
  and `FromStr`. These only construct values or delegate to `build`.
- The text of the error messages: `MiniFmt.BuildError` keeps the detail each message is
  formatted from (the character, the digits, the value), not the formatted `String`.
- MiniFmt.StrShow: `Debug` of `&str` escapes `"`, `\`, LF, CR, TAB, NUL, and the C0, DEL and C1
  control characters as `\u{..}`. Rust also writes `\u{..}` for other non-printable characters
  and for grapheme extenders. That table is not part of this model, so `Repr` output for texts
  containing such characters is not exact. For the same reason, `StrShow` states no more than
  `%r` and `%R` agreeing; what it prints is stated by `MiniFmtProofs.StrStyles` only for
  printable ASCII.
- Fanyi.Salt: the sum is stated as a 32-bit sum (`Fanyi.SaltNoCarry`), not as an unbounded
  integer sum; the two say the same for values below 2^17.
- MiniFmt.FmtStr: an argument index out of range panics in the source; the model demands
  `Fits` (every reference reads inside the arguments) instead of modelling the panic.
- Fanyi.PrintAll: a user template that reads past the two arguments of a row panics in the
  source; the model demands `AllFit` instead.
- Fanyi.SplitBlocks: `*sum + this` overflowing `usize` panics in a debug build; the model
  demands that it does not overflow.
- Traits.FilterOutLongEmpty: `continue_count` is a `usize` and would overflow only after
  2^64 consecutive whitespace characters; the model uses an unbounded counter.
- `split_blocks` is not called anywhere in the program. The block grouping in
  `Fanyi.BlockTotals` is the use its comments describe, not code of the program.

## Findings

| source | as written | input that shows it | evidently intended | confidence | as-written member | corrected member |
|---|---|---|---|---|---|---|
| src/main.rs:78-80 | when the piece fits, `split_blocks` answers `Ok(false)` but does not add the piece to `*sum`, so the accumulated size never grows inside a block | `*sum = 0`, pieces of 3000 and 3000 bytes: both answer `Ok(false)`, so one block of 6000 bytes exceeds `MAX_REQUEST_BYTES` | set `*sum = num` (the old sum plus the piece) in that branch, so every block stays below 4000 bytes | medium, not executed | Fanyi.SplitBlocksOverfull | Fanyi.SplitBlocksFixedBounded |

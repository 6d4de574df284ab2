/**
 * The pure and sequencing pieces of the command-line program: the request-size block rule
 * `split_blocks`, the salt arithmetic of `get_salt`, the default output template and the
 * loop that prints every translated line through every output template.
 */
module Fanyi {
  import opened Seqs
  import opened MiniFmt
  import MiniFmtProofs

  // ------------------------------------------------------------------ split_blocks

  /** `MAX_REQUEST_BYTES`: the largest request body the translation service accepts. */
  const MAX_REQUEST_BYTES: nat := 4000

  /** `usize::MAX` on a 64-bit target. */
  const USIZE_MAX: nat := 0xFFFF_FFFF_FFFF_FFFF

  /** `Result<bool, ()>`: `SplitOk(true)` asks the caller to start a new block. */
  datatype SplitResult = SplitOk(newBlock: bool) | SplitErr

  /** The reply and the new accumulated size of one `split_blocks` call, as written. */
  function SplitStep(sum: nat, size: nat): (SplitResult, nat)
  {
    if size < MAX_REQUEST_BYTES then
      if sum + size < MAX_REQUEST_BYTES then (SplitOk(false), sum) else (SplitOk(true), size)
    else (SplitErr, sum)
  }

  /** `split_blocks(&mut sum, size)`: `newSum` is the value left in `*sum`. */
  method SplitBlocks(sum: nat, size: nat) returns (r: SplitResult, newSum: nat)
    requires size < MAX_REQUEST_BYTES ==> sum + size <= USIZE_MAX
    ensures (r, newSum) == SplitStep(sum, size)
    ensures size >= MAX_REQUEST_BYTES ==> r == SplitErr && newSum == sum
    ensures size < MAX_REQUEST_BYTES && sum + size < MAX_REQUEST_BYTES ==> r == SplitOk(false) && newSum == sum
    ensures size < MAX_REQUEST_BYTES && sum + size >= MAX_REQUEST_BYTES ==> r == SplitOk(true) && newSum == size
    ensures r.SplitOk? ==> newSum < MAX_REQUEST_BYTES
  {
    newSum := sum;
    if size < MAX_REQUEST_BYTES {
      var num := sum + size;
      if num < MAX_REQUEST_BYTES {
        r := SplitOk(false);
      } else {
        newSum := size;
        r := SplitOk(true);
      }
    } else {
      r := SplitErr;
    }
  }

  /** The step as its comments describe it: a piece that stays in the block adds to the total. */
  function SplitStepFixed(sum: nat, size: nat): (SplitResult, nat)
  {
    if size < MAX_REQUEST_BYTES then
      if sum + size < MAX_REQUEST_BYTES then (SplitOk(false), sum + size) else (SplitOk(true), size)
    else (SplitErr, sum)
  }

  /**
   * The block totals a caller gets by feeding piece sizes in order and starting a new block on
   * every `SplitOk(true)`; `sum` is the accumulator, `cur` the real size of the open block.
   * `None` when a piece is too large on its own.
   */
  function BlockTotals(sizes: seq<nat>, sum: nat, cur: nat, fixed: bool): Option<seq<nat>>
    decreases |sizes|
  {
    if sizes == [] then Some([cur])
    else
      var (r, s) := if fixed then SplitStepFixed(sum, sizes[0]) else SplitStep(sum, sizes[0]);
      match r
      case SplitErr => None
      case SplitOk(false) => BlockTotals(sizes[1..], s, cur + sizes[0], fixed)
      case SplitOk(true) =>
        match BlockTotals(sizes[1..], s, sizes[0], fixed)
        case None => None
        case Some(rest) => Some([cur] + rest)
  }

  /** As written, two pieces of 3000 bytes end up in one block of 6000 bytes. */
  lemma SplitBlocksOverfull()
    ensures BlockTotals([3000, 3000], 0, 0, false) == Some([6000])
  {
    assert [3000, 3000][1..] == [3000];
    assert [3000][1..] == [];
  }

  /** With the total kept up to date, every block stays under `MAX_REQUEST_BYTES`. */
  lemma {:induction false} SplitBlocksFixedBounded(sizes: seq<nat>, sum: nat)
    requires sum < MAX_REQUEST_BYTES
    ensures BlockTotals(sizes, sum, sum, true).Some? ==>
      forall k | 0 <= k < |BlockTotals(sizes, sum, sum, true).value| ::
        BlockTotals(sizes, sum, sum, true).value[k] < MAX_REQUEST_BYTES
    decreases |sizes|
  {
    if sizes != [] {
      var (r, s) := SplitStepFixed(sum, sizes[0]);
      if r == SplitOk(false) {
        SplitBlocksFixedBounded(sizes[1..], s);
      } else if r == SplitOk(true) {
        SplitBlocksFixedBounded(sizes[1..], s);
      }
    }
  }

  /** With the total kept up to date, the blocks hold exactly the pieces' bytes. */
  lemma {:induction false} SplitBlocksFixedAccounts(sizes: seq<nat>, sum: nat)
    ensures BlockTotals(sizes, sum, sum, true).Some? ==>
      Total(BlockTotals(sizes, sum, sum, true).value) == sum + Total(sizes)
    decreases |sizes|
  {
    if sizes != [] {
      var (r, s) := SplitStepFixed(sum, sizes[0]);
      assert sizes == [sizes[0]] + sizes[1..];
      TotalAppend([sizes[0]], sizes[1..]);
      if r.SplitOk? {
        SplitBlocksFixedAccounts(sizes[1..], s);
        if r.newBlock && BlockTotals(sizes[1..], s, s, true).Some? {
          TotalAppend([sum], BlockTotals(sizes[1..], s, s, true).value);
        }
      }
    }
  }

  function Total(xs: seq<nat>): nat
    decreases |xs|
  {
    if xs == [] then 0 else xs[0] + Total(xs[1..])
  }

  lemma {:induction false} TotalAppend(a: seq<nat>, b: seq<nat>)
    ensures Total(a + b) == Total(a) + Total(b)
    decreases |a|
  {
    if a != [] {
      assert (a + b)[1..] == a[1..] + b;
      TotalAppend(a[1..], b);
    } else {
      assert a + b == b;
    }
  }

  // ------------------------------------------------------------------ get_salt

  const MASK: bv16 := 32767
  const BASE: bv16 := MASK + 1

  /**
   * `get_salt` with the random `u16` as the parameter `r`. The sum does not carry out of 16 bits:
   * it equals the bitwise union of the masked value and the top bit, so the salt lies in
   * `[0x8000, 0xFFFF]`, that is `[32768, 65535]`.
   */
  function Salt(r: bv16): (salt: bv16)
    ensures salt == (r & MASK) | BASE
    ensures BASE <= salt
    ensures salt & MASK == r & MASK
  {
    (r & MASK) + BASE
  }

  /** The 16-bit sum in `Salt` equals the sum taken in 32 bits: `get_salt` cannot overflow. */
  lemma SaltNoCarry(r: bv16)
    ensures Salt(r) as bv32 == (r & MASK) as bv32 + BASE as bv32
  {
    var m := r & MASK;
    assert m <= MASK;
    assert m as bv32 <= 32767;
  }

  /** Every value of the range `[32768, 65535]` is a possible salt. */
  lemma SaltOnto(s: bv16)
    requires BASE <= s
    ensures Salt(s) == s
  {
    assert s == (s & MASK) | BASE;
  }

  // ------------------------------------------------------------------ output templates

  /** `DEFAULT_OUT_FORMAT`: the translation, a line break, the original, a line break. */
  const DEFAULT_OUT_FORMAT: string := "%s\n%s\n"

  /** The instructions the default template compiles to. */
  const DEFAULT_INSTRUCTIONS: seq<FmtType> := [Value(Str), Const("\n"), Value(Str), Const("\n")]

  /** The default template always compiles, so its `unwrap` cannot fail. */
  lemma DefaultFormatCompiles(s: string)
    requires s == DEFAULT_OUT_FORMAT
    ensures Compile(s) == Ok(Fmtter(DEFAULT_INSTRUCTIONS))
  {
    var s0 := s[6..];
    assert s0 == [];
    assert Tokens(s0) == Ok([]);
    var s1 := s[5..];
    assert s1[1..] == s0;
    MiniFmtProofs.TokensStep(s1, Char('\n'), 1, s0);
    var t1 := [Char('\n')];
    assert [Char('\n')] + [] == t1;
    var s2 := s[3..];
    assert s2[2..] == s1;
    MiniFmtProofs.TokensStep(s2, Ref(Value(Str)), 2, s1);
    var t2 := [Ref(Value(Str))] + t1;
    var s3 := s[2..];
    assert s3[1..] == s2;
    MiniFmtProofs.TokensStep(s3, Char('\n'), 1, s2);
    var t3 := [Char('\n')] + t2;
    MiniFmtProofs.TokensStep(s, Ref(Value(Str)), 2, s3);
    var t := [Ref(Value(Str))] + t3;
    assert Tokens(s) == Ok(t);
    var a1, a2 := [Value(Str)], [Value(Str), Const("\n"), Value(Str)];
    assert "" + ['\n'] == "\n";
    assert CoalesceFrom(t, [], "") == CoalesceFrom(t[1..], a1, "");
    assert CoalesceFrom(t[1..], a1, "") == CoalesceFrom(t[2..], a1, "\n");
    assert Flush(a1, "\n") + [Value(Str)] == a2;
    assert CoalesceFrom(t[2..], a1, "\n") == CoalesceFrom(t[3..], a2, "");
    assert CoalesceFrom(t[3..], a2, "") == CoalesceFrom(t[4..], a2, "\n");
    assert t[4..] == [];
    assert Flush([], "") + [Value(Str)] == a1;
    assert CoalesceFrom(t[4..], a2, "\n") == a2 + [Const("\n")] == DEFAULT_INSTRUCTIONS;
  }

  /** The default template on the row `[dst, src]` prints `dst`, a line break, `src`, a line break. */
  lemma DefaultFormatRenders(dst: string, src: string)
    ensures Fits(DEFAULT_INSTRUCTIONS, 0, 2)
    ensures Render(DEFAULT_INSTRUCTIONS, StrShow(), [dst, src], 0) == dst + "\n" + src + "\n"
  {
    var ins, show, args := DEFAULT_INSTRUCTIONS, StrShow(), [dst, src];
    assert ins[4..] == [];
    MiniFmtProofs.RenderCons(ins[3..], show, args, 2);
    MiniFmtProofs.RenderCons(ins[2..], show, args, 1);
    MiniFmtProofs.RenderCons(ins[1..], show, args, 1);
    MiniFmtProofs.RenderCons(ins, show, args, 0);
  }

  /** The compiled default template. */
  const DEFAULT_FMTTER: Fmtter := Fmtter(DEFAULT_INSTRUCTIONS)

  /** The configuration step that pushes the default template when no template was given. */
  method UseDefaultFormat(formats: seq<Fmtter>) returns (r: seq<Fmtter>)
    ensures formats != [] ==> r == formats
    ensures formats == [] ==> r == [DEFAULT_FMTTER]
  {
    r := formats;
    if |formats| == 0 {
      DefaultFormatCompiles(DEFAULT_OUT_FORMAT);
      var built := Build(DEFAULT_OUT_FORMAT);
      r := r + [built.value];
    }
  }

  // ------------------------------------------------------------------ printing

  /** One line of the translation result: the translated text and the original text. */
  datatype Row = Row(dst: string, src: string)

  /** The argument slice a row is rendered with: `[dst, src]`. */
  function Item(row: Row): seq<string>
  {
    [row.dst, row.src]
  }

  /** Every template reads at most the two arguments of a row (the source panics otherwise). */
  predicate AllFit(formats: seq<Fmtter>)
    decreases |formats|
  {
    formats == [] || (AllFit(formats[..|formats| - 1]) && Fits(formats[|formats| - 1].args, 0, 2))
  }

  lemma {:induction false} AllFitPrefix(formats: seq<Fmtter>, n: nat)
    requires AllFit(formats) && n <= |formats|
    ensures AllFit(formats[..n])
    decreases |formats|
  {
    if n < |formats| {
      var p := formats[..|formats| - 1];
      AllFitPrefix(p, n);
      assert p[..n] == formats[..n];
    } else {
      TakeAll(formats);
    }
  }

  lemma {:induction false} AllFitAppend(a: seq<Fmtter>, b: seq<Fmtter>)
    requires AllFit(a) && AllFit(b)
    ensures AllFit(a + b)
    decreases |b|
  {
    if b == [] {
      AppendNothing(a);
    } else {
      AllFitAppend(a, b[..|b| - 1]);
      AppendLast(a, b);
    }
  }

  /** What one template prints for one row: `fmtter.fmt_str(item)`. */
  function Line(f: Fmtter, row: Row): string
    requires Fits(f.args, 0, 2)
  {
    Render(f.args, StrShow(), Item(row), 0)
  }

  /** What one template prints for the rows, in row order. */
  function RenderRows(f: Fmtter, rows: seq<Row>): string
    requires Fits(f.args, 0, 2)
    decreases |rows|
  {
    if rows == [] then ""
    else RenderRows(f, rows[..|rows| - 1]) + Line(f, rows[|rows| - 1])
  }

  /** Everything printed: template by template, and for each template row by row. */
  function Output(formats: seq<Fmtter>, rows: seq<Row>): string
    requires AllFit(formats)
    decreases |formats|
  {
    if formats == [] then ""
    else Output(formats[..|formats| - 1], rows) + RenderRows(formats[|formats| - 1], rows)
  }

  /** The nested printing loop of `main`; the text written to standard output is `out`. */
  method PrintAll(formats: seq<Fmtter>, rows: seq<Row>) returns (out: string)
    requires AllFit(formats)
    ensures out == Output(formats, rows)
  {
    out := "";
    for i := 0 to |formats|
      invariant AllFit(formats[..i])
      invariant out == Output(formats[..i], rows)
    {
      var f := formats[i];
      ghost var before := out;
      FitsAt(formats, i);
      for j := 0 to |rows|
        invariant out == before + RenderRows(f, rows[..j])
      {
        var item := Item(rows[j]);
        var line := FmtStr(f, StrShow(), item);
        RowStep(f, rows, j, before, out, line);
        out := out + line;
      }
      TemplateStep(formats, i, rows, before, out);
    }
    TakeAll(formats);
  }

  /** The template at position `i` fits a row. */
  lemma {:induction false} FitsAt(formats: seq<Fmtter>, i: nat)
    requires AllFit(formats) && i < |formats|
    ensures Fits(formats[i].args, 0, 2)
    decreases |formats|
  {
    if i < |formats| - 1 {
      FitsAt(formats[..|formats| - 1], i);
    }
  }

  /** One turn of the inner loop: the line of row `j` extends the rows printed so far. */
  lemma RowStep(f: Fmtter, rows: seq<Row>, j: nat, before: string, out: string, line: string)
    requires Fits(f.args, 0, 2) && j < |rows|
    requires out == before + RenderRows(f, rows[..j])
    requires line == Render(f.args, StrShow(), Item(rows[j]), 0)
    ensures out + line == before + RenderRows(f, rows[..j + 1])
  {
    var p := rows[..j + 1];
    assert p[..j] == rows[..j] && p[j] == rows[j];
    assert line == Line(f, p[j]);
    assert RenderRows(f, p) == RenderRows(f, rows[..j]) + line;
    Assoc3(before, RenderRows(f, rows[..j]), line);
  }

  /** One turn of the outer loop: all rows under template `i` extend the templates printed so far. */
  lemma TemplateStep(formats: seq<Fmtter>, i: nat, rows: seq<Row>, before: string, out: string)
    requires AllFit(formats) && i < |formats| && Fits(formats[i].args, 0, 2)
    requires AllFit(formats[..i]) && before == Output(formats[..i], rows)
    requires out == before + RenderRows(formats[i], rows[..|rows|])
    ensures AllFit(formats[..i + 1])
    ensures out == Output(formats[..i + 1], rows)
  {
    TakeAll(rows);
    AllFitPrefix(formats, i + 1);
    assert formats[..i + 1][..i] == formats[..i];
  }

  // ------------------------------------------------------------------ properties of the output

  /** `Output` of a non-empty list of templates, split before its last template. */
  lemma OutputLast(formats: seq<Fmtter>, rows: seq<Row>)
    requires AllFit(formats) && formats != []
    ensures AllFit(formats[..|formats| - 1])
    ensures Output(formats, rows)
         == Output(formats[..|formats| - 1], rows) + RenderRows(formats[|formats| - 1], rows)
  {
  }

  /** Printing with more templates appends their output after the earlier templates' output. */
  lemma {:induction false} OutputAppend(a: seq<Fmtter>, b: seq<Fmtter>, rows: seq<Row>)
    requires AllFit(a) && AllFit(b)
    ensures AllFit(a + b)
    ensures Output(a + b, rows) == Output(a, rows) + Output(b, rows)
    decreases |b|
  {
    AllFitAppend(a, b);
    if b != [] {
      OutputAppend(a, b[..|b| - 1], rows);
      OutputAppendStep(a, b, rows);
    } else {
      AppendNothing(a);
    }
  }

  /** The inductive step of `OutputAppend`: the claim for `b` follows from the claim for `b` without its last template. */
  lemma OutputAppendStep(a: seq<Fmtter>, b: seq<Fmtter>, rows: seq<Row>)
    requires AllFit(a) && AllFit(b) && b != []
    requires AllFit(b[..|b| - 1]) && AllFit(a + b[..|b| - 1])
    requires Output(a + b[..|b| - 1], rows) == Output(a, rows) + Output(b[..|b| - 1], rows)
    ensures AllFit(a + b)
    ensures Output(a + b, rows) == Output(a, rows) + Output(b, rows)
  {
    AllFitAppend(a, b);
    var ab, b', f := a + b, b[..|b| - 1], b[|b| - 1];
    OutputLast(b, rows);
    OutputLast(ab, rows);
    AppendLast(a, b);
    var x, y, z := Output(a, rows), Output(b', rows), RenderRows(f, rows);
    Assoc3(x, y, z);
  }

  /** One template over two rows prints the first row, then the second. */
  lemma TwoRows(f: Fmtter, x: Row, y: Row)
    requires Fits(f.args, 0, 2)
    ensures RenderRows(f, [x, y]) == Line(f, x) + Line(f, y)
  {
    assert [x, y][..1] == [x] && [x][..0] == [];
    assert RenderRows(f, [x]) == "" + Line(f, x);
  }

  /** A single template prints its rows and nothing else. */
  lemma OneTemplate(f: Fmtter, rows: seq<Row>)
    requires Fits(f.args, 0, 2)
    ensures AllFit([f])
    ensures Output([f], rows) == RenderRows(f, rows)
  {
    assert [f][..0] == [];
    assert Output([f], rows) == "" + RenderRows(f, rows);
  }

  /** Two templates print the first template's rows, then the second's. */
  lemma TwoTemplates(f: Fmtter, g: Fmtter, rows: seq<Row>)
    requires Fits(f.args, 0, 2) && Fits(g.args, 0, 2)
    ensures AllFit([f]) && AllFit([f, g])
    ensures Output([f, g], rows) == Output([f], rows) + RenderRows(g, rows)
  {
    assert [f, g][..1] == [f];
  }

  /** Two templates and two rows: the first template on both rows, then the second on both. */
  lemma TemplateMajorOrder(f: Fmtter, g: Fmtter, x: Row, y: Row)
    requires Fits(f.args, 0, 2) && Fits(g.args, 0, 2)
    ensures AllFit([f, g])
    ensures Output([f, g], [x, y]) == Line(f, x) + Line(f, y) + Line(g, x) + Line(g, y)
  {
    TwoRows(f, x, y);
    TwoRows(g, x, y);
    OneTemplate(f, [x, y]);
    TwoTemplates(f, g, [x, y]);
  }

  /** With the default template the output is each row's translation and original, line by line. */
  lemma DefaultOutput(rows: seq<Row>)
    ensures AllFit([DEFAULT_FMTTER])
    ensures Output([DEFAULT_FMTTER], rows) == DefaultText(rows)
  {
    DefaultFormatRenders("", "");
    DefaultRows(rows);
    assert [DEFAULT_FMTTER][..0] == [];
    assert Output([DEFAULT_FMTTER], rows) == Output([], rows) + RenderRows(DEFAULT_FMTTER, rows);
  }

  /** The default template prints one row as its translation and its original, each on a line. */
  lemma DefaultLine(row: Row)
    ensures Fits(DEFAULT_FMTTER.args, 0, 2)
    ensures Line(DEFAULT_FMTTER, row) == row.dst + "\n" + row.src + "\n"
  {
    DefaultFormatRenders(row.dst, row.src);
  }

  lemma {:induction false} DefaultRows(rows: seq<Row>)
    ensures Fits(DEFAULT_FMTTER.args, 0, 2)
    ensures RenderRows(DEFAULT_FMTTER, rows) == DefaultText(rows)
    decreases |rows|
  {
    DefaultFormatRenders("", "");
    if rows != [] {
      var p, last := rows[..|rows| - 1], rows[|rows| - 1];
      DefaultRows(p);
      DefaultLine(last);
      var a, b := RenderRows(DEFAULT_FMTTER, p), Line(DEFAULT_FMTTER, last);
      assert RenderRows(DEFAULT_FMTTER, rows) == a + b;
      assert DefaultText(rows) == a + last.dst + "\n" + last.src + "\n";
    }
  }

  /** Each row as `dst`, line break, `src`, line break, in row order. */
  function DefaultText(rows: seq<Row>): string
    decreases |rows|
  {
    if rows == [] then ""
    else DefaultText(rows[..|rows| - 1]) + rows[|rows| - 1].dst + "\n" + rows[|rows| - 1].src + "\n"
  }
}

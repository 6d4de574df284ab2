/**
 * Properties of the template compiler and renderer of `MiniFmt`: what each kind of
 * `%` sequence compiles to, which error each malformed sequence gives, the shape of
 * the instruction list, and how rendering walks the shared cursor.
 */
module MiniFmtProofs {
  import opened Seqs
  import opened MiniFmt

  // ------------------------------------------------------------------ helpers

  /** The tokens of text without `%`: one `Char` per character. */
  function Chars(s: string): (t: seq<Token>)
    ensures |t| == |s|
  {
    seq(|s|, k requires 0 <= k < |s| => Char(s[k]))
  }

  /** The tokens an instruction list stands for: a `Const` spelled out character by character. */
  function Expand(ins: seq<FmtType>): seq<Token>
    decreases |ins|
  {
    if ins == [] then []
    else (if ins[0].Const? then Chars(ins[0].text) else [Ref(ins[0])]) + Expand(ins[1..])
  }

  /** A reference the scanner can produce: `%s`-like, or `%<digit>s`-like with a one-digit index. */
  predicate RefOk(t: FmtType)
  {
    t.Value? || (t.IndexValue? && t.id < 10)
  }

  ghost predicate LexicalTokens(toks: seq<Token>)
  {
    forall k | 0 <= k < |toks| && toks[k].Ref? :: RefOk(toks[k].ref)
  }

  ghost predicate LexicalInstructions(ins: seq<FmtType>)
  {
    forall k | 0 <= k < |ins| && !ins[k].Const? :: RefOk(ins[k])
  }

  /** No empty literal, and no two literals in a row. */
  ghost predicate WellShaped(ins: seq<FmtType>)
  {
    (forall k | 0 <= k < |ins| :: ins[k] != Const("")) &&
    (forall j, k | 0 <= j < k < |ins| && k == j + 1 :: !(ins[j].Const? && ins[k].Const?))
  }

  function Pow16(n: nat): nat
  {
    if n == 0 then 1 else 16 * Pow16(n - 1)
  }

  function LowerChar(c: char): char
  {
    if 'A' <= c <= 'Z' then (c as int + 32) as char else c
  }

  // ------------------------------------------------------------------ scanning composes

  /** One scanning step of a template whose first token is known. */
  lemma TokensStep(s: string, tok: Token, n: nat, rest: string)
    requires s != [] && Step(s) == Ok(Lexed(tok, n)) && s[n..] == rest
    ensures Tokens(s) == Prepend([tok], Tokens(rest))
  {
  }

  lemma StepAppend(a: string, b: string)
    requires a != [] && Step(a).Ok?
    ensures Step(a + b) == Step(a)
  {
    var s := a + b;
    assert s[0] == a[0];
    if a[0] == '%' {
      assert s[1] == a[1];
      if '0' <= a[1] <= '9' {
        assert s[2] == a[2];
      } else if IsHexKind(a[1]) {
        assert s[2..][..HexWidth(a[1])] == a[2..][..HexWidth(a[1])];
      }
    }
  }

  /** Scanning is left to right: once a prefix scans cleanly, the rest is scanned on its own. */
  lemma {:induction false} TokensAppend(a: string, b: string)
    requires Tokens(a).Ok?
    ensures Tokens(a + b) == Prepend(Tokens(a).value, Tokens(b))
    decreases |a|
  {
    if a == [] {
      assert a + b == b;
      match Tokens(b)
      case Err(e) =>
      case Ok(t) => assert [] + t == t;
    } else {
      var lx := Step(a).value;
      var ra := a[lx.len..];
      StepAppend(a, b);
      DropAppend(a, b, lx.len);
      TokensStep(a, lx.tok, lx.len, ra);
      TokensStep(a + b, lx.tok, lx.len, ra + b);
      TokensAppend(ra, b);
      match Tokens(b)
      case Err(e) =>
      case Ok(t) =>
        assert [lx.tok] + (Tokens(ra).value + t) == ([lx.tok] + Tokens(ra).value) + t;
    }
  }

  lemma {:induction false} NoPercentTokens(s: string)
    requires '%' !in s
    ensures Tokens(s) == Ok(Chars(s))
    decreases |s|
  {
    if s != [] {
      assert s[0] in s;
      assert forall x | x in s[1..] :: x in s;
      NoPercentTokens(s[1..]);
      assert Chars(s) == [Char(s[0])] + Chars(s[1..]);
    }
  }

  lemma {:induction false} CoalesceChars(s: string, rest: seq<Token>, args: seq<FmtType>, last: string)
    ensures CoalesceFrom(Chars(s) + rest, args, last) == CoalesceFrom(rest, args, last + s)
    decreases |s|
  {
    if s == [] {
      assert Chars(s) + rest == rest;
      assert last + s == last;
    } else {
      assert (Chars(s) + rest)[0] == Char(s[0]);
      assert (Chars(s) + rest)[1..] == Chars(s[1..]) + rest;
      CoalesceChars(s[1..], rest, args, last + [s[0]]);
      assert last + [s[0]] + s[1..] == last + s;
    }
  }

  lemma CharsAppend(a: string, b: string)
    ensures Chars(a + b) == Chars(a) + Chars(b)
  {
  }

  /** A scanned prefix `m` followed by plain text `q`: the prefix's token, then one token per character. */
  lemma TokenThenPlain(m: string, tok: Token, q: string)
    requires '%' !in q && m != [] && Step(m + q) == Ok(Lexed(tok, |m|))
    ensures Tokens(m + q) == Ok([tok] + Chars(q))
  {
    NoPercentTokens(q);
    TokensStep(m + q, tok, |m|, q);
  }

  /** Plain text `p`, then text whose tokens are one `Char(e)` and the characters of `q`. */
  lemma PlainThenLiteral(p: string, r: string, e: char, q: string)
    requires '%' !in p && Tokens(r) == Ok([Char(e)] + Chars(q))
    ensures Tokens(p + r) == Ok(Chars(p + [e] + q))
  {
    NoPercentTokens(p);
    TokensAppend(p, r);
    CharsAppend(p + [e], q);
    CharsAppend(p, [e]);
    assert Chars([e]) == [Char(e)];
    assert Chars(p) + ([Char(e)] + Chars(q)) == Chars(p) + [Char(e)] + Chars(q);
  }

  /** The tokens of a sequence `m` scanned as one literal character `e`, between plain texts. */
  lemma JoinedLiteralTokens(p: string, m: string, e: char, q: string)
    requires '%' !in p && '%' !in q && m != []
    requires Step(m + q) == Ok(Lexed(Char(e), |m|))
    ensures Tokens(p + m + q) == Ok(Chars(p + [e] + q))
  {
    TokenThenPlain(m, Char(e), q);
    PlainThenLiteral(p, m + q, e, q);
    Assoc3(p, m, q);
  }

  /** A sequence `m` scanned as one literal character `e`, between two runs of plain text. */
  lemma JoinedLiteral(p: string, m: string, e: char, q: string)
    requires '%' !in p && '%' !in q && m != []
    requires Step(m + q) == Ok(Lexed(Char(e), |m|))
    ensures Compile(p + m + q) == Ok(Fmtter([Const(p + [e] + q)]))
  {
    var text := p + [e] + q;
    JoinedLiteralTokens(p, m, e, q);
    CoalesceChars(text, [], [], "");
    assert Chars(text) + [] == Chars(text);
    assert "" + text == text;
    assert [] + [Const(text)] == [Const(text)];
  }

  /** A sequence `m` scanned as one reference `x`, between two runs of plain text. */
  lemma JoinedRef(p: string, m: string, x: FmtType, q: string)
    requires '%' !in p && '%' !in q && m != []
    requires Step(m + q) == Ok(Lexed(Ref(x), |m|))
    ensures Compile(p + m + q) == Ok(Fmtter(Flush([], p) + [x] + Flush([], q)))
  {
    NoPercentTokens(p);
    NoPercentTokens(q);
    TokensStep(m + q, Ref(x), |m|, q);
    TokensAppend(p, m + q);
    Assoc3(p, m, q);
    CoalesceChars(p, [Ref(x)] + Chars(q), [], "");
    assert "" + p == p;
    assert ([Ref(x)] + Chars(q))[1..] == Chars(q);
    CoalesceChars(q, [], Flush([], p) + [x], "");
    assert Chars(q) + [] == Chars(q);
    assert "" + q == q;
    assert Flush(Flush([], p) + [x], q) == Flush([], p) + [x] + Flush([], q);
  }

  /** A malformed sequence after a cleanly scanned prefix is what `build` reports. */
  lemma JoinedError(p: string, m: string)
    requires Tokens(p).Ok? && m != [] && Step(m).Err?
    ensures Compile(p + m) == Err(Step(m).error)
  {
    TokensAppend(p, m);
  }

  // ------------------------------------------------------------------ text without `%`

  /** A template without `%` compiles to one literal holding it, or to nothing when it is empty. */
  lemma NoPercentCompiles(s: string)
    requires '%' !in s
    ensures Compile(s) == Ok(Fmtter(if s == [] then [] else [Const(s)]))
  {
    NoPercentTokens(s);
    CoalesceChars(s, [], [], "");
    assert Chars(s) + [] == Chars(s);
    assert "" + s == s;
    assert Flush([], s) == if s == [] then [] else [Const(s)];
  }

  /** A template without `%` renders to itself, whatever the arguments. */
  lemma NoPercentRenders<T>(s: string, show: Show<T>, args: seq<T>)
    requires '%' !in s
    ensures Compile(s).Ok? && Fits(Compile(s).value.args, 0, |args|)
    ensures Render(Compile(s).value.args, show, args, 0) == s
  {
    NoPercentCompiles(s);
  }

  // ------------------------------------------------------------------ escapes

  /** `%%`, `%n`, `%N`, `%t`, `%e` add one character to the surrounding literal and take no argument. */
  lemma SimpleEscapeJoins(p: string, c: char, e: char, q: string)
    requires '%' !in p && '%' !in q
    requires (c == '%' && e == '%') || (c == 'n' && e == '\n') || (c == 'N' && e == '\r')
          || (c == 't' && e == '\t') || (c == 'e' && e == '\U{1b}')
    ensures Compile(p + ['%', c] + q) == Ok(Fmtter([Const(p + [e] + q)]))
  {
    JoinedLiteral(p, ['%', c], e, q);
  }

  lemma {:induction false} HexValueBound(d: string)
    requires AllHex(d)
    ensures HexValue(d) < Pow16(|d|)
    decreases |d|
  {
    if d != [] {
      HexValueBound(d[..|d| - 1]);
    }
  }

  /** Hex runs that differ only in the case of their letters have the same value. */
  lemma {:induction false} HexCaseInsensitive(h1: string, h2: string)
    requires AllHex(h1) && AllHex(h2) && |h1| == |h2|
    requires forall k | 0 <= k < |h1| :: LowerChar(h1[k]) == LowerChar(h2[k])
    ensures HexValue(h1) == HexValue(h2)
    decreases |h1|
  {
    if h1 != [] {
      var n := |h1| - 1;
      HexCaseInsensitive(h1[..n], h2[..n]);
      assert DigitValue(h1[n]) == DigitValue(h2[n]);
    }
  }

  /** The hex run after `%x`, `%u`, `%U`, when it holds the right number of digits. */
  lemma HexRunStep(kind: char, h: string, q: string)
    requires IsHexKind(kind) && |h| == HexWidth(kind) && AllHex(h)
    ensures IsScalar(HexValue(h)) ==>
      Step(['%', kind] + h + q) == Ok(Lexed(Char(HexValue(h) as char), |h| + 2))
    ensures !IsScalar(HexValue(h)) ==> Step(['%', kind] + h + q) == Err(ToCharFailed(HexValue(h)))
  {
    var s := ['%', kind] + h + q;
    assert s[2..][..HexWidth(kind)] == h;
    HexValueBound(h);
    assert Pow16(2) == 256 && Pow16(4) == 65536 && Pow16(6) == 16777216;
    assert h[0] != '+';
  }

  /**
   * `%x`, `%u`, `%U` take exactly 2, 4 and 6 hex digits of either case; a value that is a
   * Unicode scalar value joins the surrounding literal.
   */
  lemma HexEscapeJoins(p: string, kind: char, h: string, q: string)
    requires '%' !in p && '%' !in q
    requires IsHexKind(kind) && |h| == HexWidth(kind) && AllHex(h) && IsScalar(HexValue(h))
    ensures Compile(p + ['%', kind] + h + q) == Ok(Fmtter([Const(p + [HexValue(h) as char] + q)]))
  {
    HexRunStep(kind, h, q);
    var m := ['%', kind] + h;
    Assoc3(p, ['%', kind], h);
    JoinedLiteral(p, m, HexValue(h) as char, q);
  }

  /** A hex escape whose value is a surrogate or above 0x10FFFF: the "to char failed" error naming it. */
  lemma HexEscapeNotScalar(p: string, kind: char, h: string, q: string)
    requires Tokens(p).Ok?
    requires IsHexKind(kind) && |h| == HexWidth(kind) && AllHex(h) && !IsScalar(HexValue(h))
    ensures Compile(p + ['%', kind] + h + q) == Err(ToCharFailed(HexValue(h)))
  {
    HexRunStep(kind, h, q);
    var m := ['%', kind] + h + q;
    Assoc4(p, ['%', kind], h, q);
    JoinedError(p, m);
  }

  /** The hex escape of `+` and one digit fewer than the width: `from_str_radix` skips the sign. */
  lemma PlusHexEscape(kind: char, d: string, q: string)
    requires IsHexKind(kind) && |d| + 1 == HexWidth(kind) && AllHex(d) && IsScalar(HexValue(d))
    ensures HexEscape(['+'] + d + q, kind) == Ok(HexValue(d) as char)
  {
    var rest := ['+'] + d + q;
    assert rest[..HexWidth(kind)] == ['+'] + d;
    assert (['+'] + d)[1..] == d;
    HexValueBound(d);
    assert Pow16(1) == 16 && Pow16(3) == 4096 && Pow16(5) == 1048576;
    assert FromStrRadix16(['+'] + d, HexMax(kind)) == Some(HexValue(d));
  }

  /** `%x`, `%u`, `%U` followed by `+` and one digit fewer than the width lex as one character. */
  lemma PlusHexStep(kind: char, d: string, q: string)
    requires IsHexKind(kind) && |d| + 1 == HexWidth(kind) && AllHex(d) && IsScalar(HexValue(d))
    ensures Step(['%', kind, '+'] + d + q) == Ok(Lexed(Char(HexValue(d) as char), |d| + 3))
  {
    var s := ['%', kind, '+'] + d + q;
    assert s[2..] == ['+'] + d + q;
    PlusHexEscape(kind, d, q);
  }

  /** `from_str_radix` takes a leading '+': `%x+f` is the character 0x0F. */
  lemma PlusSignHex(p: string, kind: char, d: string, q: string)
    requires '%' !in p && '%' !in q
    requires IsHexKind(kind) && |d| + 1 == HexWidth(kind) && AllHex(d) && IsScalar(HexValue(d))
    ensures Compile(p + ['%', kind, '+'] + d + q) == Ok(Fmtter([Const(p + [HexValue(d) as char] + q)]))
  {
    var m := ['%', kind, '+'] + d;
    PlusHexStep(kind, d, q);
    JoinedLiteral(p, m, HexValue(d) as char, q);
    Assoc3(p, ['%', kind, '+'], d);
  }

  /** A run of the right length that is not (an optional '+' then) all hex digits: "build hex error". */
  lemma BadHexStep(kind: char, h: string, q: string)
    requires IsHexKind(kind) && |h| == HexWidth(kind)
    requires !AllHex(h) && !(h[0] == '+' && AllHex(h[1..]))
    ensures Step(['%', kind] + h + q) == Err(BuildHexError(h))
  {
    var m := ['%', kind] + h + q;
    Assoc3(['%', kind], h, q);
    assert m[2..] == h + q;
    assert (h + q)[..|h|] == h;
    assert FromStrRadix16(h, HexMax(kind)) == None;
  }

  /** A run of the right length that is not (an optional '+' then) all hex digits: "build hex error". */
  lemma BadHexRun(p: string, kind: char, h: string, q: string)
    requires Tokens(p).Ok? && IsHexKind(kind) && |h| == HexWidth(kind)
    requires !AllHex(h) && !(h[0] == '+' && AllHex(h[1..]))
    ensures Compile(p + ['%', kind] + h + q) == Err(BuildHexError(h))
  {
    BadHexStep(kind, h, q);
    var m := ['%', kind] + h + q;
    Assoc4(p, ['%', kind], h, q);
    JoinedError(p, m);
  }

  // ------------------------------------------------------------------ errors

  /** Input ending right after `%`, after `%<digit>`, or inside a hex run: "sequence in fmtter end". */
  lemma TruncatedSequence(p: string, tail: string)
    requires Tokens(p).Ok?
    requires tail == ['%']
          || (|tail| == 2 && tail[0] == '%' && '0' <= tail[1] <= '9')
          || (2 <= |tail| && tail[0] == '%' && IsHexKind(tail[1]) && |tail| < 2 + HexWidth(tail[1]))
    ensures Compile(p + tail) == Err(SequenceInEnd)
  {
    JoinedError(p, tail);
  }

  /** Any character after `%` that starts no sequence: "unknown sequence" naming it. */
  lemma UnknownStep(c: char, q: string)
    requires c !in "0123456789%nNtexuUsrR"
    ensures Step(['%', c] + q) == Err(UnknownSequence(c))
  {
    assert !('0' <= c <= '9');
    assert SimpleEscape(c) == None && !IsHexKind(c);
  }

  lemma UnknownSequenceAfterPercent(p: string, c: char, q: string)
    requires Tokens(p).Ok?
    requires c !in "0123456789%nNtexuUsrR"
    ensures Compile(p + ['%', c] + q) == Err(UnknownSequence(c))
  {
    UnknownStep(c, q);
    JoinedError(p, ['%', c] + q);
    Assoc3(p, ['%', c], q);
  }

  /** A style character after `%<digit>` other than `s`, `r`, `R`: "unknown sequence" naming it. */
  lemma UnknownStyleAfterDigit(p: string, d: char, c: char, q: string)
    requires Tokens(p).Ok? && '0' <= d <= '9' && c !in "srR"
    ensures Compile(p + ['%', d, c] + q) == Err(UnknownSequence(c))
  {
    JoinedError(p, ['%', d, c] + q);
    Assoc3(p, ['%', d, c], q);
  }

  // ------------------------------------------------------------------ references

  /** `%s`, `%r`, `%R` between two literals: a `Value` with that style, literals around it. */
  lemma NextReference(p: string, c: char, st: FmtStyle, q: string)
    requires '%' !in p && '%' !in q
    requires (c == 's' && st == Str) || (c == 'r' && st == Repr) || (c == 'R' && st == ERepr)
    ensures Compile(p + ['%', c] + q) == Ok(Fmtter(Flush([], p) + [Value(st)] + Flush([], q)))
  {
    JoinedRef(p, ['%', c], Value(st), q);
  }

  /** `%<d><style>` between two literals: an `IndexValue` with index `d` and that style. */
  lemma IndexedReference(p: string, d: char, c: char, st: FmtStyle, q: string)
    requires '%' !in p && '%' !in q && '0' <= d <= '9'
    requires (c == 's' && st == Str) || (c == 'r' && st == Repr) || (c == 'R' && st == ERepr)
    ensures Compile(p + ['%', d, c] + q) ==
      Ok(Fmtter(Flush([], p) + [IndexValue(d as int - '0' as int, st)] + Flush([], q)))
  {
    JoinedRef(p, ['%', d, c], IndexValue(d as int - '0' as int, st), q);
  }

  // ------------------------------------------------------------------ shape of the instruction list

  lemma {:induction false} TokensLexical(s: string)
    requires Tokens(s).Ok?
    ensures LexicalTokens(Tokens(s).value)
    decreases |s|
  {
    if s != [] {
      var lx := Step(s).value;
      TokensLexical(s[lx.len..]);
    }
  }

  /** Flushing a non-empty pending literal after a reference keeps the instruction list well shaped. */
  lemma FlushShape(args: seq<FmtType>, last: string)
    requires LexicalInstructions(args) && WellShaped(args)
    requires args == [] || !args[|args| - 1].Const?
    ensures LexicalInstructions(Flush(args, last)) && WellShaped(Flush(args, last))
  {
    if |last| != 0 {
      var r := args + [Const(last)];
      forall j, k | 0 <= j < k < |r| && k == j + 1
        ensures !(r[j].Const? && r[k].Const?)
      {
        if k < |args| {
          assert r[j] == args[j] && r[k] == args[k];
        }
      }
    }
  }

  /** Pushing a reference after a flush keeps the instruction list well shaped. */
  lemma PushRefShape(args: seq<FmtType>, t: FmtType)
    requires LexicalInstructions(args) && WellShaped(args) && RefOk(t)
    ensures LexicalInstructions(args + [t]) && WellShaped(args + [t])
    ensures !(args + [t])[|args + [t]| - 1].Const?
  {
    var r := args + [t];
    forall j, k | 0 <= j < k < |r| && k == j + 1
      ensures !(r[j].Const? && r[k].Const?)
    {
      if k < |args| {
        assert r[j] == args[j] && r[k] == args[k];
      }
    }
  }

  lemma LexicalTail(toks: seq<Token>)
    requires LexicalTokens(toks) && toks != []
    ensures LexicalTokens(toks[1..])
    ensures toks[0].Ref? ==> RefOk(toks[0].ref)
  {
    forall k | 0 <= k < |toks[1..]| && toks[1..][k].Ref?
      ensures RefOk(toks[1..][k].ref)
    {
      assert toks[1..][k] == toks[k + 1];
    }
  }

  lemma {:induction false} CoalesceShape(toks: seq<Token>, args: seq<FmtType>, last: string)
    requires LexicalTokens(toks) && LexicalInstructions(args) && WellShaped(args)
    requires args == [] || !args[|args| - 1].Const?
    ensures LexicalInstructions(CoalesceFrom(toks, args, last)) && WellShaped(CoalesceFrom(toks, args, last))
    decreases |toks|
  {
    if toks == [] {
      FlushShape(args, last);
    } else {
      LexicalTail(toks);
      match toks[0]
      case Char(c) =>
        CoalesceShape(toks[1..], args, last + [c]);
      case Ref(t) =>
        assert RefOk(toks[0].ref);
        FlushShape(args, last);
        PushRefShape(Flush(args, last), t);
        CoalesceShape(toks[1..], Flush(args, last) + [t], "");
    }
  }

  /** `build` never emits an empty literal nor two literals in a row. */
  lemma CompiledWellShaped(s: string)
    requires Compile(s).Ok?
    ensures WellShaped(Compile(s).value.args)
  {
    TokensLexical(s);
    CoalesceShape(Tokens(s).value, [], "");
  }

  /** Every index `build` emits is a single digit, so below 10. */
  lemma CompiledIndexBelowTen(s: string)
    requires Compile(s).Ok?
    ensures forall k | 0 <= k < |Compile(s).value.args| && Compile(s).value.args[k].IndexValue? ::
      Compile(s).value.args[k].id < 10
  {
    TokensLexical(s);
    CoalesceShape(Tokens(s).value, [], "");
  }

  lemma {:induction false} ExpandAppend(a: seq<FmtType>, b: seq<FmtType>)
    ensures Expand(a + b) == Expand(a) + Expand(b)
    decreases |a|
  {
    if a == [] {
      assert a + b == b;
    } else {
      assert (a + b)[0] == a[0];
      assert (a + b)[1..] == a[1..] + b;
      ExpandAppend(a[1..], b);
    }
  }

  lemma CharShift(x: seq<Token>, last: string, c: char, rest: seq<Token>)
    ensures x + Chars(last + [c]) + rest == x + Chars(last) + ([Char(c)] + rest)
  {
    CharsAppend(last, [c]);
    assert Chars([c]) == [Char(c)];
  }

  lemma FlushExpand(args: seq<FmtType>, last: string)
    ensures Expand(Flush(args, last)) == Expand(args) + Chars(last)
  {
    if |last| != 0 {
      ExpandAppend(args, [Const(last)]);
      assert Expand([Const(last)]) == Chars(last) + [];
    } else {
      assert Chars(last) == [];
    }
  }

  lemma RefShift(args: seq<FmtType>, last: string, t: FmtType, rest: seq<Token>)
    requires !t.Const?
    ensures Expand(Flush(args, last) + [t]) + Chars("") + rest == Expand(args) + Chars(last) + ([Ref(t)] + rest)
  {
    ExpandAppend(Flush(args, last), [t]);
    assert Expand([t]) == [Ref(t)] + [];
    FlushExpand(args, last);
    assert Chars("") == [];
  }

  lemma {:induction false} ExpandCoalesce(toks: seq<Token>, args: seq<FmtType>, last: string)
    requires LexicalTokens(toks)
    ensures Expand(CoalesceFrom(toks, args, last)) == Expand(args) + Chars(last) + toks
    decreases |toks|
  {
    if toks == [] {
      FlushExpand(args, last);
    } else {
      var rest := toks[1..];
      assert toks == [toks[0]] + rest;
      LexicalTail(toks);
      match toks[0]
      case Char(c) =>
        ExpandCoalesce(rest, args, last + [c]);
        CharShift(Expand(args), last, c, rest);
      case Ref(t) =>
        ExpandCoalesce(rest, Flush(args, last) + [t], "");
        RefShift(args, last, t, rest);
    }
  }

  /**
   * Nothing is lost, added or reordered by gathering literals: spelling each literal of
   * the compiled template out character by character gives back the scanned tokens.
   */
  lemma CompiledExpandsToTokens(s: string)
    requires Compile(s).Ok?
    ensures Tokens(s).Ok? && Expand(Compile(s).value.args) == Tokens(s).value
  {
    TokensLexical(s);
    ExpandCoalesce(Tokens(s).value, [], "");
  }

  // ------------------------------------------------------------------ renderer

  /**
   * Rendering a concatenation renders the first part, then the second from where the
   * first left the cursor: the cursor is shared and moves once per `Value`.
   */
  lemma {:induction false} RenderAppend<T>(a: seq<FmtType>, b: seq<FmtType>, show: Show<T>, args: seq<T>, cursor: nat)
    ensures Fits(a + b, cursor, |args|) <==> Fits(a, cursor, |args|) && Fits(b, cursor + CountValues(a), |args|)
    ensures Fits(a + b, cursor, |args|) ==>
      Render(a + b, show, args, cursor) == Render(a, show, args, cursor) + Render(b, show, args, cursor + CountValues(a))
    decreases |a|
  {
    if a == [] {
      assert a + b == b;
    } else {
      var next := Advance(a[0], cursor);
      assert (a + b)[0] == a[0];
      assert (a + b)[1..] == a[1..] + b;
      assert cursor + CountValues(a) == next + CountValues(a[1..]);
      RenderAppend(a[1..], b, show, args, next);
      if Fits(a + b, cursor, |args|) {
        Assoc3(Emit(a[0], show, args, cursor), Render(a[1..], show, args, next),
          Render(b, show, args, next + CountValues(a[1..])));
      }
    }
  }

  /** Quoting of `&str` values: `%s` gives the text, `%r` and `%R` the same quoted form. */
  lemma {:induction false} StrStyles(s: string)
    ensures StyleStr(Str, StrShow(), s) == s
    ensures StyleStr(Repr, StrShow(), s) == StyleStr(ERepr, StrShow(), s)
    ensures var r := StyleStr(Repr, StrShow(), s); |r| >= |s| + 2 && r[0] == '"' && r[|r| - 1] == '"'
    ensures (forall k | 0 <= k < |s| :: PlainAscii(s[k])) ==> StyleStr(Repr, StrShow(), s) == "\"" + s + "\""
  {
    EscapeDebugLength(s);
    EscapeDebugPlain(s);
  }

  lemma {:induction false} EscapeDebugLength(s: string)
    ensures |EscapeDebug(s)| >= |s|
    decreases |s|
  {
    if s != [] {
      EscapeDebugLength(s[1..]);
    }
  }

  /** A printable ASCII character other than `"` and `\`: what `Debug` of a `&str` leaves as it is. */
  predicate PlainAscii(c: char)
  {
    ' ' <= c <= '~' && c != '"' && c != '\\'
  }

  lemma {:induction false} EscapeDebugPlain(s: string)
    ensures (forall k | 0 <= k < |s| :: PlainAscii(s[k])) ==> EscapeDebug(s) == s
    decreases |s|
  {
    if s != [] && forall k | 0 <= k < |s| :: PlainAscii(s[k]) {
      assert PlainAscii(s[0]);
      assert forall k | 0 <= k < |s[1..]| :: s[1..][k] == s[k + 1];
      EscapeDebugPlain(s[1..]);
      assert s == [s[0]] + s[1..];
    }
  }

  /** Lower-case hexadecimal reads back as the number it writes. */
  lemma {:induction false} LowerHexValue(n: nat)
    ensures AllHex(LowerHex(n)) && HexValue(LowerHex(n)) == n
    decreases n
  {
    if n >= 16 {
      LowerHexValue(n / 16);
      var h := LowerHex(n / 16) + [LowerHexDigit(n % 16)];
      assert h[..|h| - 1] == LowerHex(n / 16);
      assert forall k | 0 <= k < |h| :: IsHexDigit(h[k]) by {
        forall k | 0 <= k < |h|
          ensures IsHexDigit(h[k])
        {
          if k < |h| - 1 {
            assert h[k] == LowerHex(n / 16)[k];
          }
        }
      }
    }
  }

  /** A control character such as ESC is written by `%r` as `\u{..}` with its lower-case hex value. */
  lemma DocEscapeControl(s: string)
    requires s == "\U{1b}"
    ensures StyleStr(Repr, StrShow(), s) == "\"\\u{1b}\""
  {
    assert IsControl(s[0]);
    assert LowerHex(0x1b) == "1b";
    assert EscapeDebug(s) == EscapeChar(s[0]) + EscapeDebug(s[1..]);
    assert s[1..] == [];
  }

  // ------------------------------------------------------------------ the examples of the documentation

  lemma HexDocValues()
    ensures AllHex("1b") && HexValue("1b") == 0x1b
    ensures AllHex("1C") && HexValue("1C") == 0x1c
    ensures AllHex("0879") && HexValue("0879") == 0x0879
    ensures AllHex("10ffff") && HexValue("10ffff") == 0x10ffff
    ensures AllHex("110000") && HexValue("110000") == 0x110000
  {
    HexDocValue0879();
    HexDocValue10ffff();
    HexDocValue110000();
  }

  lemma HexDocValue0879()
    ensures AllHex("0879") && HexValue("0879") == 0x0879
  {
    assert "0879"[..3] == "087" && "087"[..2] == "08" && "08"[..1] == "0";
    assert HexValue("0") == 0;
    assert HexValue("08") == 0x8;
    assert HexValue("087") == 0x87;
  }

  lemma HexDocValue10ffff()
    ensures AllHex("10ffff") && HexValue("10ffff") == 0x10ffff
  {
    assert "10ffff"[..5] == "10fff" && "10fff"[..4] == "10ff" && "10ff"[..3] == "10f";
    assert "10f"[..2] == "10" && "10"[..1] == "1";
    assert HexValue("1") == 0x1;
    assert HexValue("10") == 0x10;
    assert HexValue("10f") == 0x10f;
    assert HexValue("10ff") == 0x10ff;
    assert HexValue("10fff") == 0x10fff;
  }

  lemma HexDocValue110000()
    ensures AllHex("110000") && HexValue("110000") == 0x110000
  {
    assert "110000"[..5] == "11000" && "11000"[..4] == "1100" && "1100"[..3] == "110";
    assert "110"[..2] == "11" && "11"[..1] == "1";
    assert HexValue("1") == 0x1;
    assert HexValue("11") == 0x11;
    assert HexValue("110") == 0x110;
    assert HexValue("1100") == 0x1100;
    assert HexValue("11000") == 0x11000;
  }

  /** Documentation example: `"%x1b"` is the ESC character. */
  lemma DocHexEscape()
    ensures Compile("%x1b") == Ok(Fmtter([Const("\U{1b}")]))
  {
    HexDocValues();
    HexDocExample("1b", 'x', '\U{1b}');
    assert ['%', 'x'] + "1b" == "%x1b";
  }

  /** Documentation example: `"%x1C"`, upper-case digits, is the character 0x1C. */
  lemma DocHexUpperCase()
    ensures Compile("%x1C") == Ok(Fmtter([Const("\U{1c}")]))
  {
    HexDocValues();
    HexDocExample("1C", 'x', '\U{1c}');
    assert ['%', 'x'] + "1C" == "%x1C";
  }

  /** Documentation example: `"%u0879"` is the character U+0879. */
  lemma DocUnicodeEscape()
    ensures Compile("%u0879") == Ok(Fmtter([Const("\U{0879}")]))
  {
    HexDocValues();
    HexDocExample("0879", 'u', '\U{0879}');
    assert ['%', 'u'] + "0879" == "%u0879";
  }

  /** Documentation example: `"%U10ffff"`, the largest scalar value, compiles. */
  lemma DocLargestScalar()
    ensures Compile("%U10ffff") == Ok(Fmtter([Const("\U{10ffff}")]))
  {
    HexDocValues();
    HexDocExample("10ffff", 'U', '\U{10ffff}');
    assert ['%', 'U'] + "10ffff" == "%U10ffff";
  }

  /** Documentation example: `"%U110000"`, one past it, is an error. */
  lemma DocBeyondLargestScalar()
    ensures Compile("%U110000") == Err(ToCharFailed(0x110000))
  {
    HexDocValues();
    HexEscapeNotScalar("", 'U', "110000", "");
    assert "" + ['%', 'U'] + "110000" + "" == "%U110000";
  }

  lemma HexDocExample(h: string, kind: char, c: char)
    requires IsHexKind(kind) && |h| == HexWidth(kind) && AllHex(h) && HexValue(h) == c as int
    ensures Compile(['%', kind] + h) == Ok(Fmtter([Const([c])]))
  {
    HexEscapeJoins("", kind, h, "");
    assert "" + ['%', kind] + h + "" == ['%', kind] + h;
    assert "" + [c] + "" == [c];
  }

  // ------------------------------------------------------------------ rendering examples

  /** One scanning step at position `k` of `s` puts token `j` of `ts` before the tokens after it. */
  lemma TokensAt(s: string, k: nat, n: nat, ts: seq<Token>, j: nat)
    requires k < |s| && j < |ts| && Step(s[k..]) == Ok(Lexed(ts[j], n)) && Tokens(s[k + n..]) == Ok(ts[j + 1..])
    ensures Tokens(s[k..]) == Ok(ts[j..])
  {
    SuffixShift(s, k, n);
    TokensStep(s[k..], ts[j], n, s[k + n..]);
    assert [ts[j]] + ts[j + 1..] == ts[j..];
  }

  /** The tokens of the documentation template `"%s,%s,%0s,%1r,%s"`: five references separated by commas. */
  const DOC_TOKENS: seq<Token> := [Ref(Value(Str)), Char(','), Ref(Value(Str)), Char(','),
    Ref(IndexValue(0, Str)), Char(','), Ref(IndexValue(1, Repr)), Char(','), Ref(Value(Str))]

  /** The documentation template's last three steps, `%1r`, `,` and `%s`, from its characters. */
  lemma DocTemplateTail(s: string)
    requires |s| == 16 && s[10] == '%' && s[11] == '1' && s[12] == 'r' && s[13] == ',' && s[14] == '%' && s[15] == 's'
    ensures Tokens(s[10..]) == Ok(DOC_TOKENS[6..])
  {
    assert s[10..][0] == '%' && s[10..][1] == '1' && s[10..][2] == 'r';
    assert s[13..][0] == ',' && s[14..][0] == '%' && s[14..][1] == 's';
    assert s[16..] == [] && DOC_TOKENS[9..] == [];
    TokensAt(s, 14, 2, DOC_TOKENS, 8);
    TokensAt(s, 13, 1, DOC_TOKENS, 7);
    TokensAt(s, 10, 3, DOC_TOKENS, 6);
  }

  /** The documentation template's middle three steps, `,`, `%0s` and `,`, from its characters. */
  lemma DocTemplateMiddle(s: string)
    requires |s| == 16 && s[5] == ',' && s[6] == '%' && s[7] == '0' && s[8] == 's' && s[9] == ','
    requires Tokens(s[10..]) == Ok(DOC_TOKENS[6..])
    ensures Tokens(s[5..]) == Ok(DOC_TOKENS[3..])
  {
    assert s[5..][0] == ',' && s[9..][0] == ',';
    assert s[6..][0] == '%' && s[6..][1] == '0' && s[6..][2] == 's';
    TokensAt(s, 9, 1, DOC_TOKENS, 5);
    TokensAt(s, 6, 3, DOC_TOKENS, 4);
    TokensAt(s, 5, 1, DOC_TOKENS, 3);
  }

  /** The documentation template's first three steps, `%s`, `,` and `%s`, from its characters. */
  lemma DocTemplateHead(s: string)
    requires |s| == 16 && s[0] == '%' && s[1] == 's' && s[2] == ',' && s[3] == '%' && s[4] == 's'
    requires Tokens(s[5..]) == Ok(DOC_TOKENS[3..])
    ensures Tokens(s) == Ok(DOC_TOKENS)
  {
    assert s[0..][0] == '%' && s[0..][1] == 's' && s[2..][0] == ',';
    assert s[3..][0] == '%' && s[3..][1] == 's';
    TokensAt(s, 3, 2, DOC_TOKENS, 2);
    TokensAt(s, 2, 1, DOC_TOKENS, 1);
    TokensAt(s, 0, 2, DOC_TOKENS, 0);
    assert s[0..] == s && DOC_TOKENS[0..] == DOC_TOKENS;
  }

  /** The tokens of the documentation template `"%s,%s,%0s,%1r,%s"`. */
  lemma DocTemplateTokens(s: string)
    requires s == "%s,%s,%0s,%1r,%s"
    ensures Tokens(s) == Ok([Ref(Value(Str)), Char(','), Ref(Value(Str)), Char(','),
      Ref(IndexValue(0, Str)), Char(','), Ref(IndexValue(1, Repr)), Char(','), Ref(Value(Str))])
  {
    assert |s| == 16;
    assert s[0] == '%' && s[1] == 's' && s[2] == ',' && s[3] == '%' && s[4] == 's' && s[5] == ',';
    assert s[6] == '%' && s[7] == '0' && s[8] == 's' && s[9] == ',';
    assert s[10] == '%' && s[11] == '1' && s[12] == 'r' && s[13] == ',' && s[14] == '%' && s[15] == 's';
    DocTemplateTail(s);
    DocTemplateMiddle(s);
    DocTemplateHead(s);
  }

  /** The instructions of the documentation template: five references with `","` literals between them. */
  const DOC_INSTRS: seq<FmtType> := [Value(Str), Const(","), Value(Str), Const(","),
    IndexValue(0, Str), Const(","), IndexValue(1, Repr), Const(","), Value(Str)]

  /** A `,` token then a reference: the literal is pushed, then the reference. */
  lemma CoalescePairAt(t: seq<Token>, k: nat, ins: seq<FmtType>, m: nat)
    requires k + 2 <= |t| && m + 2 <= |ins|
    requires t[k] == Char(',') && ins[m] == Const(",") && t[k + 1] == Ref(ins[m + 1])
    ensures CoalesceFrom(t[k..], ins[..m], "") == CoalesceFrom(t[k + 2..], ins[..m + 2], "")
  {
    assert t[k..][0] == Char(',') && t[k..][1..] == t[k + 1..];
    assert t[k + 1..][0] == Ref(ins[m + 1]) && t[k + 1..][1..] == t[k + 2..];
    assert "" + [','] == ",";
    assert ins[..m] + [Const(",")] + [ins[m + 1]] == ins[..m + 2];
  }

  /** The instructions built from the documentation template's tokens, from the tokens one by one. */
  lemma DocTemplateCoalescesAt(t: seq<Token>)
    requires |t| == 9 && t[0] == Ref(DOC_INSTRS[0]) && t[8] == Ref(DOC_INSTRS[8])
    requires t[1] == Char(',') && t[3] == Char(',') && t[5] == Char(',') && t[7] == Char(',')
    requires t[2] == Ref(DOC_INSTRS[2]) && t[4] == Ref(DOC_INSTRS[4]) && t[6] == Ref(DOC_INSTRS[6])
    ensures Coalesce(t) == DOC_INSTRS
  {
    var ins := DOC_INSTRS;
    assert ins[1] == Const(",") && ins[3] == Const(",") && ins[5] == Const(",") && ins[7] == Const(",");
    assert Flush([], "") + [ins[0]] == ins[..1];
    assert CoalesceFrom(t, [], "") == CoalesceFrom(t[1..], ins[..1], "");
    assert t[1..] == t[1..][0..];
    CoalescePairAt(t, 1, ins, 1);
    CoalescePairAt(t, 3, ins, 3);
    CoalescePairAt(t, 5, ins, 5);
    CoalescePairAt(t, 7, ins, 7);
    assert t[9..] == [] && ins[..9] == ins;
  }

  /** The instructions of the documentation template, built from its tokens. */
  lemma DocTemplateCoalesces(t: seq<Token>)
    requires t == [Ref(Value(Str)), Char(','), Ref(Value(Str)), Char(','),
      Ref(IndexValue(0, Str)), Char(','), Ref(IndexValue(1, Repr)), Char(','), Ref(Value(Str))]
    ensures Coalesce(t) == [Value(Str), Const(","), Value(Str), Const(","),
      IndexValue(0, Str), Const(","), IndexValue(1, Repr), Const(","), Value(Str)]
  {
    DocTemplateCoalescesAt(t);
  }

  /** The documentation template compiles to five references separated by `","` literals. */
  lemma DocTemplateCompiles(s: string)
    requires s == "%s,%s,%0s,%1r,%s"
    ensures Compile(s) == Ok(Fmtter([Value(Str), Const(","), Value(Str), Const(","),
      IndexValue(0, Str), Const(","), IndexValue(1, Repr), Const(","), Value(Str)]))
  {
    DocTemplateTokens(s);
    DocTemplateCoalesces(Tokens(s).value);
  }

  /** Rendering one instruction, then the rest from the moved cursor. */
  lemma RenderCons<T>(ins: seq<FmtType>, show: Show<T>, args: seq<T>, cursor: nat)
    requires ins != [] && FitsOne(ins[0], cursor, |args|) && Fits(ins[1..], Advance(ins[0], cursor), |args|)
    ensures Fits(ins, cursor, |args|)
    ensures Render(ins, show, args, cursor) ==
      Emit(ins[0], show, args, cursor) + Render(ins[1..], show, args, Advance(ins[0], cursor))
  {
  }

  /** Rendering the documentation template's instructions on any three arguments. */
  lemma DocTemplateOutput<T>(ins: seq<FmtType>, show: Show<T>, args: seq<T>)
    requires ins == [Value(Str), Const(","), Value(Str), Const(","),
      IndexValue(0, Str), Const(","), IndexValue(1, Repr), Const(","), Value(Str)]
    requires |args| == 3
    ensures Fits(ins, 0, 3)
    ensures Render(ins, show, args, 0) == show.display(args[0]) + ("," + (show.display(args[1]) + ("," +
      (show.display(args[0]) + ("," + (show.debug(args[1]) + ("," + show.display(args[2]))))))))
  {
    assert ins[9..] == [];
    RenderCons(ins[8..], show, args, 2);
    assert ins[8..][1..] == ins[9..];
    RenderCons(ins[7..], show, args, 2);
    RenderCons(ins[6..], show, args, 2);
    RenderCons(ins[5..], show, args, 2);
    RenderCons(ins[4..], show, args, 2);
    RenderCons(ins[3..], show, args, 2);
    RenderCons(ins[2..], show, args, 1);
    RenderCons(ins[1..], show, args, 1);
    RenderCons(ins, show, args, 0);
  }

  /** Documentation example: `"%s,%s,%0s,%1r,%s"` on `["a", "b", "c"]` gives `a,b,a,"b",c`. */
  lemma DocTemplateRenders(s: string)
    requires s == "%s,%s,%0s,%1r,%s"
    ensures Compile(s).Ok? && Fits(Compile(s).value.args, 0, 3)
    ensures Render(Compile(s).value.args, StrShow(), ["a", "b", "c"], 0) == "a,b,a,\"b\",c"
  {
    DocTemplateCompiles(s);
    var args := ["a", "b", "c"];
    DocTemplateOutput(Compile(s).value.args, StrShow(), args);
    DocStrShowValues(args);
  }

  lemma DocStrShowValues(args: seq<string>)
    requires args == ["a", "b", "c"]
    ensures var show := StrShow();
      show.display(args[0]) + ("," + (show.display(args[1]) + ("," +
      (show.display(args[0]) + ("," + (show.debug(args[1]) + ("," + show.display(args[2])))))))) == "a,b,a,\"b\",c"
  {
    var show := StrShow();
    var b := args[1];
    assert |b| == 1 && PlainAscii(b[0]);
    EscapeDebugPlain(b);
    assert show.debug(b) == "\"b\"";
    assert show.display(args[0]) == "a" && show.display(b) == "b" && show.display(args[2]) == "c";
    assert "a" + ("," + ("b" + ("," + ("a" + ("," + ("\"b\"" + ("," + "c"))))))) == "a,b,a,\"b\",c";
  }

  /** Documentation example: `"ab%sde"` puts the one argument's `Display` between `ab` and `de`. */
  lemma DocSingleValue<T>(s: string, show: Show<T>, x: T)
    requires s == "ab%sde"
    ensures Compile(s) == Ok(Fmtter([Const("ab"), Value(Str), Const("de")]))
    ensures Fits(Compile(s).value.args, 0, 1)
    ensures Render(Compile(s).value.args, show, [x], 0) == "ab" + show.display(x) + "de"
  {
    NextReference("ab", 's', Str, "de");
    assert "ab" + ['%', 's'] + "de" == s;
    assert Flush([], "ab") == [Const("ab")] && Flush([], "de") == [Const("de")];
    DocSingleOutput(Compile(s).value.args, show, [x]);
  }

  lemma DocSingleOutput<T>(ins: seq<FmtType>, show: Show<T>, args: seq<T>)
    requires ins == [Const("ab"), Value(Str), Const("de")] && |args| == 1
    ensures Fits(ins, 0, 1) && Render(ins, show, args, 0) == "ab" + (show.display(args[0]) + "de")
  {
    RenderCons(ins[2..], show, args, 1);
    assert ins[2..][1..] == [];
    RenderCons(ins[1..], show, args, 0);
    RenderCons(ins, show, args, 0);
  }

  /** The same example with a `&str` argument: `"c"` gives `"abcde"`. */
  lemma DocSingleString(s: string)
    requires s == "ab%sde"
    ensures Compile(s).Ok? && Fits(Compile(s).value.args, 0, 1)
    ensures Render(Compile(s).value.args, StrShow(), ["c"], 0) == "abcde"
  {
    DocSingleValue(s, StrShow(), "c");
  }
}

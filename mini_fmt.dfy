/**
 * Model of `mod mini_fmt` (src/lib.rs): the compiler `Fmtter::build`, which turns a
 * template such as "%s,%0r%n" into a list of instructions, and the renderer
 * `Fmtter::fmt_str`, which runs those instructions against a list of arguments
 * with one cursor shared by the whole template.
 *
 * The compiler is specified in two layers: `Tokens` cuts the template into
 * tokens (one literal character, escaped or not, or one reference) and fixes
 * which error is reported; `Coalesce` gathers consecutive characters into one
 * `Const`, as the pending literal `last_val` does. `Build` is the scanning loop
 * and is proved equal to `Compile`.
 */
module MiniFmt {
  import opened Seqs

  // ------------------------------------------------------------------ data model

  /** Rendering style of a substituted value: `%s` Display, `%r` Debug, `%R` expanded Debug. */
  datatype FmtStyle = Str | Repr | ERepr

  /** One compiled instruction. */
  datatype FmtType =
    | Const(text: string)                  // emit the text
    | Value(style: FmtStyle)               // emit the argument under the cursor, then advance it
    | IndexValue(id: nat, style: FmtStyle) // emit argument `id`; the cursor stays

  /** A compiled template. */
  datatype Fmtter = Fmtter(args: seq<FmtType>)

  /** The errors `build` returns, each with the detail its message is formatted from. */
  datatype BuildError =
    | SequenceInEnd              // "sequence in fmtter end"
    | UnknownSequence(c: char)   // "unknown sequence: {:?}"
    | BuildHexError(hex: string) // "build hex error: {:?}"
    | ToCharFailed(val: nat)     // "{:x} to char failed"

  datatype Result<T> = Ok(value: T) | Err(error: BuildError)

  datatype Option<T> = None | Some(value: T)

  /**
   * The three textual forms of an argument type: `Display` (`{}`), `Debug` (`{:?}`)
   * and expanded `Debug` (`{:#?}`). The renderer is generic over the argument type,
   * as the source is over `S: Display + Debug`.
   */
  datatype Show<-T> = Show(display: T -> string, debug: T -> string, debugExpanded: T -> string)

  // ------------------------------------------------------------------ lexical layer

  /** What the scanner recognises in one go: a literal character, plain or escaped, or a reference. */
  datatype Token = Char(c: char) | Ref(ref: FmtType)

  /** A token and the number of template characters it consumed. */
  datatype Lexed = Lexed(tok: Token, len: nat)

  /** The `style_pat!` table. */
  function StyleOf(c: char): (r: Result<FmtStyle>)
    ensures r.Ok? <==> c == 's' || c == 'r' || c == 'R'
    ensures c == 's' ==> r == Ok(Str)
    ensures c == 'r' ==> r == Ok(Repr)
    ensures c == 'R' ==> r == Ok(ERepr)
    ensures r.Err? ==> r.error == UnknownSequence(c)
  {
    match c
    case 's' => Ok(Str)
    case 'r' => Ok(Repr)
    case 'R' => Ok(ERepr)
    case _ => Err(UnknownSequence(c))
  }

  /** Escapes that stand for one fixed character: `%%`, `%n`, `%N`, `%t`, `%e`. */
  function SimpleEscape(c: char): Option<char>
  {
    match c
    case '%' => Some('%')
    case 'n' => Some('\n')
    case 'N' => Some('\r')
    case 't' => Some('\t')
    case 'e' => Some('\U{1b}')
    case _ => None
  }

  predicate IsHexKind(c: char)
  {
    c == 'x' || c == 'u' || c == 'U'
  }

  /** Number of characters taken by `%x`, `%u` and `%U`. */
  function HexWidth(kind: char): nat
  {
    match kind
    case 'x' => 2
    case 'u' => 4
    case _ => 6
  }

  /** Largest value of the integer type each hex escape is parsed as: `u8`, `u16`, `u32`. */
  function HexMax(kind: char): nat
  {
    match kind
    case 'x' => 0xFF
    case 'u' => 0xFFFF
    case _ => 0xFFFF_FFFF
  }

  predicate IsHexDigit(c: char)
  {
    '0' <= c <= '9' || 'a' <= c <= 'f' || 'A' <= c <= 'F'
  }

  predicate AllHex(s: string)
  {
    forall k | 0 <= k < |s| :: IsHexDigit(s[k])
  }

  function DigitValue(c: char): (d: nat)
    requires IsHexDigit(c)
    ensures d < 16
  {
    if '0' <= c <= '9' then c as int - '0' as int
    else if 'a' <= c <= 'f' then c as int - 'a' as int + 10
    else c as int - 'A' as int + 10
  }

  /** Big-endian value of a run of hex digits. */
  function HexValue(digits: string): nat
    requires AllHex(digits)
    decreases |digits|
  {
    if digits == [] then 0
    else 16 * HexValue(digits[..|digits| - 1]) + DigitValue(digits[|digits| - 1])
  }

  /**
   * `from_str_radix(src, 16)` of an unsigned integer type whose largest value is `max`:
   * an optional leading '+', then at least one hex digit of either case, and a value
   * that fits the type. A leading '-' is not a sign for an unsigned type.
   */
  function FromStrRadix16(src: string, max: nat): (r: Option<nat>)
    ensures r.Some? ==> r.value <= max
    ensures src != [] && AllHex(src) && HexValue(src) <= max ==> r == Some(HexValue(src))
    ensures |src| >= 2 && src[0] == '+' && AllHex(src[1..]) && HexValue(src[1..]) <= max ==>
      r == Some(HexValue(src[1..]))
    ensures src == [] || src[0] == '-' ==> r.None?
  {
    if src == [] || (|src| == 1 && (src[0] == '+' || src[0] == '-')) then None
    else
      var digits := if src[0] == '+' then src[1..] else src;
      if AllHex(digits) && HexValue(digits) <= max then Some(HexValue(digits)) else None
  }

  /** A Unicode scalar value: not a surrogate and at most 0x10FFFF (what `char` may hold). */
  predicate IsScalar(v: nat)
  {
    v < 0xD800 || (0xE000 <= v && v <= 0x10FFFF)
  }

  /** `char::from_u32`. */
  function FromU32(v: nat): (r: Option<char>)
    ensures r.Some? <==> IsScalar(v)
    ensures r.Some? ==> r.value as int == v
  {
    if IsScalar(v) then Some(v as char) else None
  }

  /** The `add_hex!` macro, applied to the characters after `%x`, `%u` or `%U`. */
  function HexEscape(rest: string, kind: char): (r: Result<char>)
    ensures r.Ok? ==> HexWidth(kind) <= |rest|
  {
    var width := HexWidth(kind);
    if |rest| < width then Err(SequenceInEnd)
    else
      var hex := rest[..width];
      match FromStrRadix16(hex, HexMax(kind))
      case None => Err(BuildHexError(hex))
      case Some(v) =>
        match FromU32(v)
        case None => Err(ToCharFailed(v))
        case Some(ch) => Ok(ch)
  }

  /** One turn of the scanning loop of `build`, on the not yet scanned rest `s` of the template. */
  function Step(s: string): (r: Result<Lexed>)
    requires s != []
    ensures r.Ok? ==> 1 <= r.value.len <= |s|
  {
    if s[0] != '%' then Ok(Lexed(Char(s[0]), 1))
    else if |s| == 1 then Err(SequenceInEnd)
    else if '0' <= s[1] <= '9' then
      if |s| == 2 then Err(SequenceInEnd)
      else
        match StyleOf(s[2])
        case Err(e) => Err(e)
        case Ok(st) => Ok(Lexed(Ref(IndexValue(s[1] as int - '0' as int, st)), 3))
    else if SimpleEscape(s[1]).Some? then Ok(Lexed(Char(SimpleEscape(s[1]).value), 2))
    else if IsHexKind(s[1]) then
      match HexEscape(s[2..], s[1])
      case Err(e) => Err(e)
      case Ok(ch) => Ok(Lexed(Char(ch), 2 + HexWidth(s[1])))
    else
      match StyleOf(s[1])
      case Err(e) => Err(e)
      case Ok(st) => Ok(Lexed(Ref(Value(st)), 2))
  }

  function Prepend(prefix: seq<Token>, r: Result<seq<Token>>): Result<seq<Token>>
  {
    match r
    case Ok(t) => Ok(prefix + t)
    case Err(e) => Err(e)
  }

  /** The tokens of a template, or the error of its first malformed sequence. */
  function Tokens(s: string): Result<seq<Token>>
    decreases |s|
  {
    if s == [] then Ok([])
    else
      match Step(s)
      case Err(e) => Err(e)
      case Ok(lx) => Prepend([lx.tok], Tokens(s[lx.len..]))
  }

  // ------------------------------------------------------------------ instruction layer

  /** The `add!` macro's first half: push the pending literal, but only when it is not empty. */
  function Flush(args: seq<FmtType>, last: string): seq<FmtType>
  {
    if |last| != 0 then args + [Const(last)] else args
  }

  /** Instruction building over tokens, with the instructions so far and the pending literal. */
  function CoalesceFrom(toks: seq<Token>, args: seq<FmtType>, last: string): seq<FmtType>
    decreases |toks|
  {
    if toks == [] then Flush(args, last)
    else
      match toks[0]
      case Char(c) => CoalesceFrom(toks[1..], args, last + [c])
      case Ref(t) => CoalesceFrom(toks[1..], Flush(args, last) + [t], "")
  }

  function Coalesce(toks: seq<Token>): seq<FmtType>
  {
    CoalesceFrom(toks, [], "")
  }

  /** What `build` returns when `rest` is still to be scanned, in the state `args`, `last`. */
  function Resume(rest: string, args: seq<FmtType>, last: string): Result<Fmtter>
  {
    match Tokens(rest)
    case Err(e) => Err(e)
    case Ok(t) => Ok(Fmtter(CoalesceFrom(t, args, last)))
  }

  /** What `Fmtter::build` returns for a template. */
  function Compile(s: string): Result<Fmtter>
  {
    Resume(s, [], "")
  }

  /** A step that lexes a literal character appends it to the pending literal. */
  lemma ResumeChar(rest: string, args: seq<FmtType>, last: string, c: char, n: nat)
    requires rest != [] && Step(rest) == Ok(Lexed(Char(c), n))
    ensures Resume(rest, args, last) == Resume(rest[n..], args, last + [c])
  {
    match Tokens(rest[n..])
    case Err(e) =>
    case Ok(t) =>
      assert ([Char(c)] + t)[1..] == t;
  }

  /** A step that lexes a reference flushes the pending literal and pushes the reference. */
  lemma ResumeRef(rest: string, args: seq<FmtType>, last: string, x: FmtType, n: nat)
    requires rest != [] && Step(rest) == Ok(Lexed(Ref(x), n))
    ensures Resume(rest, args, last) == Resume(rest[n..], Flush(args, last) + [x], "")
  {
    match Tokens(rest[n..])
    case Err(e) =>
    case Ok(t) =>
      assert ([Ref(x)] + t)[1..] == t;
  }

  /** A step that fails ends the compilation with its error. */
  lemma ResumeErr(rest: string, args: seq<FmtType>, last: string, e: BuildError)
    requires rest != [] && Step(rest) == Err(e)
    ensures Resume(rest, args, last) == Err(e)
  {
  }

  /** A character other than `%` is literal text. */
  lemma ResumePlain(rest: string, args: seq<FmtType>, last: string)
    requires rest != [] && rest[0] != '%'
    ensures Resume(rest, args, last) == Resume(rest[1..], args, last + [rest[0]])
  {
    ResumeChar(rest, args, last, rest[0], 1);
  }

  /** `%` at the very end, or `%` and a digit at the very end: "sequence in fmtter end". */
  lemma ResumeTruncated(rest: string, args: seq<FmtType>, last: string)
    requires rest != [] && rest[0] == '%'
    requires |rest| == 1 || (|rest| == 2 && '0' <= rest[1] <= '9')
    ensures Resume(rest, args, last) == Err(SequenceInEnd)
  {
    ResumeErr(rest, args, last, SequenceInEnd);
  }

  /** `%<digit><style>`: an indexed reference; a bad style letter is its error. */
  lemma ResumeIndex(rest: string, args: seq<FmtType>, last: string)
    requires |rest| >= 3 && rest[0] == '%' && '0' <= rest[1] <= '9'
    ensures StyleOf(rest[2]).Err? ==> Resume(rest, args, last) == Err(StyleOf(rest[2]).error)
    ensures StyleOf(rest[2]).Ok? ==>
      Resume(rest, args, last) == Resume(rest[3..], Flush(args, last) + [IndexValue(rest[1] as int - '0' as int, StyleOf(rest[2]).value)], "")
  {
    match StyleOf(rest[2])
    case Err(e) => ResumeErr(rest, args, last, e);
    case Ok(st) => ResumeRef(rest, args, last, IndexValue(rest[1] as int - '0' as int, st), 3);
  }

  /** `%%`, `%n`, `%N`, `%t`, `%e`: one fixed character of literal text. */
  lemma ResumeEscape(rest: string, args: seq<FmtType>, last: string)
    requires |rest| >= 2 && rest[0] == '%' && SimpleEscape(rest[1]).Some?
    ensures Resume(rest, args, last) == Resume(rest[2..], args, last + [SimpleEscape(rest[1]).value])
  {
    ResumeChar(rest, args, last, SimpleEscape(rest[1]).value, 2);
  }

  /** `%x`, `%u`, `%U`: the character of the hex run, or the run's error. */
  lemma ResumeHex(rest: string, args: seq<FmtType>, last: string)
    requires |rest| >= 2 && rest[0] == '%' && IsHexKind(rest[1])
    ensures HexEscape(rest[2..], rest[1]).Err? ==> Resume(rest, args, last) == Err(HexEscape(rest[2..], rest[1]).error)
    ensures HexEscape(rest[2..], rest[1]).Ok? ==>
      Resume(rest, args, last) == Resume(rest[2 + HexWidth(rest[1])..], args, last + [HexEscape(rest[2..], rest[1]).value])
  {
    match HexEscape(rest[2..], rest[1])
    case Err(e) => ResumeErr(rest, args, last, e);
    case Ok(ch) => ResumeChar(rest, args, last, ch, 2 + HexWidth(rest[1]));
  }

  /** `%<style>`: a reference to the next argument; any other letter is "unknown sequence". */
  lemma ResumeValue(rest: string, args: seq<FmtType>, last: string)
    requires |rest| >= 2 && rest[0] == '%' && !('0' <= rest[1] <= '9')
    requires SimpleEscape(rest[1]).None? && !IsHexKind(rest[1])
    ensures StyleOf(rest[1]).Err? ==> Resume(rest, args, last) == Err(StyleOf(rest[1]).error)
    ensures StyleOf(rest[1]).Ok? ==>
      Resume(rest, args, last) == Resume(rest[2..], Flush(args, last) + [Value(StyleOf(rest[1]).value)], "")
  {
    match StyleOf(rest[1])
    case Err(e) => ResumeErr(rest, args, last, e);
    case Ok(st) => ResumeRef(rest, args, last, Value(st), 2);
  }

  /** `Fmtter::build`: the scanning loop over the template's characters. */
  method Build(fmtter: string) returns (r: Result<Fmtter>)
    ensures r == Compile(fmtter)
  {
    var i := 0;
    var args: seq<FmtType> := [];
    var lastVal: string := "";
    while i < |fmtter|
      invariant i <= |fmtter|
      invariant Compile(fmtter) == Resume(fmtter[i..], args, lastVal)
      decreases |fmtter| - i
    {
      ghost var rest, start := fmtter[i..], i;
      var c := fmtter[i];
      i := i + 1;
      if c == '%' {
        if i == |fmtter| {
          ResumeTruncated(rest, args, lastVal);
          return Err(SequenceInEnd);
        }
        var nextC := fmtter[i];
        i := i + 1;
        if '0' <= nextC <= '9' {
          if i == |fmtter| {
            ResumeTruncated(rest, args, lastVal);
            return Err(SequenceInEnd);
          }
          ResumeIndex(rest, args, lastVal);
          var style := StyleOf(fmtter[i]);
          i := i + 1;
          if style.Err? {
            return Err(style.error);
          }
          args, lastVal := Flush(args, lastVal) + [IndexValue(nextC as int - '0' as int, style.value)], "";
        } else if nextC == '%' {
          ResumeEscape(rest, args, lastVal);
          lastVal := lastVal + [c];
        } else if nextC == 'n' {
          ResumeEscape(rest, args, lastVal);
          lastVal := lastVal + ['\n'];
        } else if nextC == 'N' {
          ResumeEscape(rest, args, lastVal);
          lastVal := lastVal + ['\r'];
        } else if nextC == 't' {
          ResumeEscape(rest, args, lastVal);
          lastVal := lastVal + ['\t'];
        } else if nextC == 'e' {
          ResumeEscape(rest, args, lastVal);
          lastVal := lastVal + ['\U{1b}'];
        } else if nextC == 'x' || nextC == 'u' || nextC == 'U' {
          ResumeHex(rest, args, lastVal);
          var width := HexWidth(nextC);
          if |fmtter| - i < width {
            return Err(SequenceInEnd);
          }
          var hex := fmtter[i..i + width];
          assert hex == rest[2..][..width];
          i := i + width;
          match FromStrRadix16(hex, HexMax(nextC)) {
            case None =>
              return Err(BuildHexError(hex));
            case Some(val) =>
              match FromU32(val) {
                case None =>
                  return Err(ToCharFailed(val));
                case Some(ch) =>
                  lastVal := lastVal + [ch];
              }
          }
        } else {
          ResumeValue(rest, args, lastVal);
          var style := StyleOf(nextC);
          if style.Err? {
            return Err(style.error);
          }
          args, lastVal := Flush(args, lastVal) + [Value(style.value)], "";
        }
      } else {
        ResumePlain(rest, args, lastVal);
        lastVal := lastVal + [c];
      }
      SuffixShift(fmtter, start, i - start);
    }
    if |lastVal| != 0 {
      args := args + [Const(lastVal)];
    }
    r := Ok(Fmtter(args));
  }

  // ------------------------------------------------------------------ renderer

  /** `FmtStyle::fmt_str`. */
  function StyleStr<T>(style: FmtStyle, show: Show<T>, x: T): (r: string)
    ensures style == Str ==> r == show.display(x)
    ensures style == Repr ==> r == show.debug(x)
    ensures style == ERepr ==> r == show.debugExpanded(x)
  {
    match style
    case Str => show.display(x)
    case Repr => show.debug(x)
    case ERepr => show.debugExpanded(x)
  }

  /** The control characters: C0, DEL and C1. Rust's `Debug` writes them as `\u{..}`. */
  predicate IsControl(c: char)
  {
    c < ' ' || ('\U{7F}' <= c <= '\U{9F}')
  }

  /** A digit of lower-case hexadecimal. */
  function LowerHexDigit(d: nat): char
    requires d < 16
  {
    if d < 10 then ('0' as int + d) as char else ('a' as int + d - 10) as char
  }

  /** `n` in lower-case hexadecimal, without leading zeros. */
  function LowerHex(n: nat): string
    decreases n
  {
    if n < 16 then [LowerHexDigit(n)] else LowerHex(n / 16) + [LowerHexDigit(n % 16)]
  }

  /** `Debug` of one character inside a `&str`: a backslash escape, `\u{..}`, or the character. */
  function EscapeChar(c: char): string
  {
    match c
    case '"' => "\\\""
    case '\\' => "\\\\"
    case '\n' => "\\n"
    case '\r' => "\\r"
    case '\t' => "\\t"
    case '\0' => "\\0"
    case _ => if IsControl(c) then "\\u{" + LowerHex(c as int) + "}" else [c]
  }

  function EscapeDebug(s: string): string
    decreases |s|
  {
    if s == [] then "" else EscapeChar(s[0]) + EscapeDebug(s[1..])
  }

  /** `Display`, `Debug` and `{:#?}` of `&str`: the text itself, and the text quoted and escaped (twice). */
  function StrShow(): (show: Show<string>)
    ensures show.debug == show.debugExpanded
  {
    Show(s => s, s => "\"" + EscapeDebug(s) + "\"", s => "\"" + EscapeDebug(s) + "\"")
  }

  /** The cursor after one instruction. */
  function Advance(t: FmtType, cursor: nat): nat
  {
    if t.Value? then cursor + 1 else cursor
  }

  function CountValues(ins: seq<FmtType>): nat
    decreases |ins|
  {
    if ins == [] then 0 else (if ins[0].Value? then 1 else 0) + CountValues(ins[1..])
  }

  /** One instruction reads inside `n` arguments (the source indexes `args` and panics otherwise). */
  predicate FitsOne(t: FmtType, cursor: nat, n: nat)
  {
    match t
    case Const(_) => true
    case Value(_) => cursor < n
    case IndexValue(id, _) => id < n
  }

  /** Every instruction, run from `cursor` on, reads inside `n` arguments. */
  predicate Fits(ins: seq<FmtType>, cursor: nat, n: nat)
    decreases |ins|
  {
    ins == [] || (FitsOne(ins[0], cursor, n) && Fits(ins[1..], Advance(ins[0], cursor), n))
  }

  function Emit<T>(t: FmtType, show: Show<T>, args: seq<T>, cursor: nat): string
    requires FitsOne(t, cursor, |args|)
  {
    match t
    case Const(s) => s
    case Value(style) => StyleStr(style, show, args[cursor])
    case IndexValue(id, style) => StyleStr(style, show, args[id])
  }

  /** The text the instructions produce from cursor position `cursor` on. */
  function Render<T>(ins: seq<FmtType>, show: Show<T>, args: seq<T>, cursor: nat): string
    requires Fits(ins, cursor, |args|)
    decreases |ins|
  {
    if ins == [] then ""
    else Emit(ins[0], show, args, cursor) + Render(ins[1..], show, args, Advance(ins[0], cursor))
  }

  /** `FmtType::fmt_str`: renders one instruction and moves the cursor `*idx`. */
  method FmtTypeStr<T>(t: FmtType, idx: nat, show: Show<T>, args: seq<T>) returns (res: string, newIdx: nat)
    requires FitsOne(t, idx, |args|)
    ensures res == Emit(t, show, args, idx)
    ensures newIdx == Advance(t, idx)
  {
    match t
    case Const(s) =>
      res, newIdx := s, idx;
    case Value(style) =>
      var tmpIdx := idx;
      newIdx := idx + 1;
      res := StyleStr(style, show, args[tmpIdx]);
    case IndexValue(id, style) =>
      res, newIdx := StyleStr(style, show, args[id]), idx;
  }

  /** Rendering from instruction `k` splits after it; it moves the cursor by its own value count. */
  lemma RenderAt<T>(ins: seq<FmtType>, k: nat, show: Show<T>, args: seq<T>, cursor: nat)
    requires k < |ins| && Fits(ins[k..], cursor, |args|)
    ensures FitsOne(ins[k], cursor, |args|)
    ensures Fits(ins[k + 1..], Advance(ins[k], cursor), |args|)
    ensures Render(ins[k..], show, args, cursor)
         == Emit(ins[k], show, args, cursor) + Render(ins[k + 1..], show, args, Advance(ins[k], cursor))
  {
    assert ins[k..][1..] == ins[k + 1..];
  }

  lemma FitsAtFirst(ins: seq<FmtType>, k: nat, cursor: nat, n: nat)
    requires k < |ins| && Fits(ins[k..], cursor, n)
    ensures FitsOne(ins[k], cursor, n)
  {
    assert ins[k..][0] == ins[k];
  }

  /** One turn of the loop of `fmt_str`: the piece of instruction `k` moves the split point past it. */
  lemma RenderStep<T>(ins: seq<FmtType>, k: nat, show: Show<T>, args: seq<T>, cursor: nat,
                      done: string, piece: string, total: string)
    requires k < |ins| && Fits(ins[k..], cursor, |args|)
    requires done + Render(ins[k..], show, args, cursor) == total
    requires FitsOne(ins[k], cursor, |args|) && piece == Emit(ins[k], show, args, cursor)
    ensures Fits(ins[k + 1..], Advance(ins[k], cursor), |args|)
    ensures done + piece + Render(ins[k + 1..], show, args, Advance(ins[k], cursor)) == total
  {
    RenderAt(ins, k, show, args, cursor);
    var rest := Render(ins[k + 1..], show, args, Advance(ins[k], cursor));
    assert done + (piece + rest) == done + piece + rest;
  }

  /** `Fmtter::fmt_str`: the pieces of all instructions, in order, with one shared cursor from 0. */
  method FmtStr<T>(f: Fmtter, show: Show<T>, strs: seq<T>) returns (res: string)
    requires Fits(f.args, 0, |strs|)
    ensures res == Render(f.args, show, strs, 0)
  {
    res := "";
    var idx := 0;
    ghost var total := Render(f.args, show, strs, 0);
    DropNone(f.args);
    for k := 0 to |f.args|
      invariant Fits(f.args[k..], idx, |strs|)
      invariant res + Render(f.args[k..], show, strs, idx) == total
    {
      FitsAtFirst(f.args, k, idx, |strs|);
      ghost var done, cursor := res, idx;
      var piece;
      piece, idx := FmtTypeStr(f.args[k], idx, show, strs);
      RenderStep(f.args, k, show, strs, cursor, done, piece, total);
      res := res + piece;
    }
    DropAll(f.args);
  }
}

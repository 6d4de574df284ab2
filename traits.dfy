/**
 * The `traits` module: `FilterOutLongEmpty` for `&str`, which shortens every run of whitespace
 * to at most `count` characters (and removes all whitespace when `count` is zero).
 */
module Traits {
  import opened Seqs

  /** `char::is_whitespace`: the code points with the Unicode `White_Space` property. */
  predicate IsWhitespace(c: char)
    ensures c < '\U{0080}' ==> (IsWhitespace(c) <==> c == ' ' || '\t' <= c <= '\r')
  {
    ('\U{0009}' <= c <= '\U{000D}') || c == '\U{0020}' || c == '\U{0085}' || c == '\U{00A0}' ||
    c == '\U{1680}' || ('\U{2000}' <= c <= '\U{200A}') || c == '\U{2028}' || c == '\U{2029}' ||
    c == '\U{202F}' || c == '\U{205F}' || c == '\U{3000}'
  }

  /** The length of the whitespace run that ends at the end of `s`. */
  function RunLen(s: string): (n: nat)
    ensures n <= |s|
    ensures n > 0 <==> s != [] && IsWhitespace(s[|s| - 1])
    decreases |s|
  {
    if s == [] || !IsWhitespace(s[|s| - 1]) then 0 else RunLen(s[..|s| - 1]) + 1
  }

  /**
   * What the filter keeps of `s`, character by character: a non-whitespace character always,
   * a whitespace character only while the run it ends has at most `count` characters.
   */
  function Filtered(s: string, count: nat): string
    decreases |s|
  {
    if s == [] then ""
    else
      var c := s[|s| - 1];
      Filtered(s[..|s| - 1], count) + (if !IsWhitespace(c) || RunLen(s) <= count then [c] else [])
  }

  /** The non-whitespace characters of `s`, in order. */
  function NonWhitespace(s: string): string
    decreases |s|
  {
    if s == [] then ""
    else if IsWhitespace(s[0]) then NonWhitespace(s[1..])
    else [s[0]] + NonWhitespace(s[1..])
  }

  /** No whitespace run in `s` is longer than `count`. */
  predicate RunsAtMost(s: string, count: nat)
  {
    forall i | 0 <= i <= |s| :: RunLen(s[..i]) <= count
  }

  /** `<&str as FilterOutLongEmpty>::filter_out_long_empty`. */
  method FilterOutLongEmpty(s: string, count: nat) returns (res: string)
    ensures res == Filtered(s, count)
  {
    res := "";
    var continueCount: nat := 0;
    if count == 0 {
      for i := 0 to |s|
        invariant res == Filtered(s[..i], 0)
      {
        assert s[..i + 1][..i] == s[..i];
        if !IsWhitespace(s[i]) {
          res := res + [s[i]];
        }
      }
    } else {
      for i := 0 to |s|
        invariant continueCount == RunLen(s[..i])
        invariant res == Filtered(s[..i], count)
      {
        assert s[..i + 1][..i] == s[..i];
        if IsWhitespace(s[i]) {
          continueCount := continueCount + 1;
        } else {
          continueCount := 0;
        }
        if continueCount <= count {
          res := res + [s[i]];
        }
      }
    }
    assert s[..|s|] == s;
  }

  // ------------------------------------------------------------------ properties

  /** Appending one character to the text appends it, or nothing, to the non-whitespace text. */
  lemma {:induction false} NonWhitespaceSnoc(s: string, c: char)
    ensures NonWhitespace(s + [c]) == NonWhitespace(s) + (if IsWhitespace(c) then "" else [c])
    decreases |s|
  {
    if s == [] {
      assert [c][1..] == [];
    } else {
      assert (s + [c])[1..] == s[1..] + [c];
      NonWhitespaceSnoc(s[1..], c);
    }
  }

  /** Every non-whitespace character survives, whatever the count, and in the same order. */
  lemma {:induction false} FilteredKeepsText(s: string, count: nat)
    ensures NonWhitespace(Filtered(s, count)) == NonWhitespace(s)
    decreases |s|
  {
    if s != [] {
      var p, c := s[..|s| - 1], s[|s| - 1];
      assert s == p + [c];
      FilteredKeepsText(p, count);
      NonWhitespaceSnoc(p, c);
      if !IsWhitespace(c) || RunLen(s) <= count {
        NonWhitespaceSnoc(Filtered(p, count), c);
      } else {
        assert Filtered(s, count) == Filtered(p, count) + [] == Filtered(p, count);
        assert NonWhitespace(p) + "" == NonWhitespace(p);
      }
    }
  }

  /** With `count == 0` the filter removes exactly the whitespace (the source's first branch). */
  lemma {:induction false} FilteredZeroDropsWhitespace(s: string)
    ensures Filtered(s, 0) == NonWhitespace(s)
    decreases |s|
  {
    if s != [] {
      var p, c := s[..|s| - 1], s[|s| - 1];
      assert s == p + [c];
      FilteredZeroDropsWhitespace(p);
      NonWhitespaceSnoc(p, c);
      if IsWhitespace(c) {
        assert RunLen(s) > 0;
        assert Filtered(s, 0) == Filtered(p, 0) + [];
      }
    }
  }

  /** The run at the end of the output is the input's run, cut at `count`. */
  lemma {:induction false} FilteredRunLen(s: string, count: nat)
    ensures RunLen(Filtered(s, count)) == if RunLen(s) <= count then RunLen(s) else count
    decreases |s|
  {
    if s != [] {
      var p, c := s[..|s| - 1], s[|s| - 1];
      FilteredRunLen(p, count);
      var fp := Filtered(p, count);
      if !IsWhitespace(c) || RunLen(s) <= count {
        assert Filtered(s, count) == fp + [c];
        assert (fp + [c])[..|fp + [c]| - 1] == fp;
      } else {
        assert Filtered(s, count) == fp + [];
        assert fp + [] == fp;
      }
    }
  }

  /** The output of the filter has no whitespace run longer than `count`. */
  lemma {:induction false} FilteredRunsAtMost(s: string, count: nat)
    ensures RunsAtMost(Filtered(s, count), count)
    decreases |s|
  {
    if s != [] {
      var p := s[..|s| - 1];
      FilteredRunsAtMost(p, count);
      FilteredRunLen(s, count);
      var fp, r := Filtered(p, count), Filtered(s, count);
      forall i | 0 <= i <= |r|
        ensures RunLen(r[..i]) <= count
      {
        if i <= |fp| {
          assert r[..i] == fp[..i];
        } else {
          assert r[..i] == r;
        }
      }
    }
  }

  /** Dropping the last character keeps the runs short; the run at the end was short too. */
  lemma RunsAtMostPrefix(s: string, count: nat)
    requires RunsAtMost(s, count) && s != []
    ensures RunsAtMost(s[..|s| - 1], count) && RunLen(s) <= count
  {
    var p := s[..|s| - 1];
    assert RunLen(s[..|s|]) <= count && s[..|s|] == s;
    forall i | 0 <= i <= |p|
      ensures RunLen(p[..i]) <= count
    {
      assert p[..i] == s[..i];
    }
  }

  /** A text whose runs are already short enough passes through unchanged. */
  lemma {:induction false} FilteredIdentity(s: string, count: nat)
    requires RunsAtMost(s, count)
    ensures Filtered(s, count) == s
    decreases |s|
  {
    if s != [] {
      var p := s[..|s| - 1];
      RunsAtMostPrefix(s, count);
      FilteredIdentity(p, count);
      assert s == p + [s[|s| - 1]];
    }
  }

  /** Filtering twice with the same count is filtering once. */
  lemma FilteredIdempotent(s: string, count: nat)
    ensures Filtered(Filtered(s, count), count) == Filtered(s, count)
  {
    FilteredRunsAtMost(s, count);
    FilteredIdentity(Filtered(s, count), count);
  }

  // ------------------------------------------------------------------ documentation examples

  /** A run of `n` spaces. */
  function Spaces(n: nat): string
    decreases n
  {
    if n == 0 then "" else Spaces(n - 1) + " "
  }

  /**
   * A run of `n` spaces after a text that does not end in whitespace is cut to at most `count` spaces,
   * and the text before it is filtered as on its own.
   */
  lemma {:induction false} FilteredSpaces(p: string, n: nat, count: nat)
    requires RunLen(p) == 0
    ensures RunLen(p + Spaces(n)) == n
    ensures Filtered(p + Spaces(n), count) == Filtered(p, count) + Spaces(if n <= count then n else count)
    decreases n
  {
    if n == 0 {
      assert p + Spaces(0) == p;
      assert Filtered(p, count) + Spaces(0) == Filtered(p, count);
    } else {
      FilteredSpaces(p, n - 1, count);
      FilteredSpacesStep(p, n, count);
    }
  }

  /** One more space of the run: the step of `FilteredSpaces`. */
  lemma FilteredSpacesStep(p: string, n: nat, count: nat)
    requires n > 0 && RunLen(p + Spaces(n - 1)) == n - 1
    requires Filtered(p + Spaces(n - 1), count) == Filtered(p, count) + Spaces(if n - 1 <= count then n - 1 else count)
    ensures RunLen(p + Spaces(n)) == n
    ensures Filtered(p + Spaces(n), count) == Filtered(p, count) + Spaces(if n <= count then n else count)
  {
    var q, fp := p + Spaces(n - 1), Filtered(p, count);
    Assoc3(p, Spaces(n - 1), " ");
    assert p + Spaces(n) == q + " ";
    FilteredSnocSpace(q, count);
    if n <= count {
      Assoc3(fp, Spaces(n - 1), " ");
    } else {
      assert fp + Spaces(count) + "" == fp + Spaces(count);
    }
  }

  /** A space after a text lengthens its final run by one and is kept while that run fits `count`. */
  lemma FilteredSnocSpace(q: string, count: nat)
    ensures RunLen(q + " ") == RunLen(q) + 1
    ensures Filtered(q + " ", count) == Filtered(q, count) + (if RunLen(q) + 1 <= count then " " else "")
  {
    var s := q + " ";
    assert s[..|s| - 1] == q && s[|s| - 1] == ' ' && IsWhitespace(' ');
  }

  /** A non-whitespace character after a text is always kept. */
  lemma FilteredSnocText(s: string, c: char, count: nat)
    requires !IsWhitespace(c)
    ensures Filtered(s + [c], count) == Filtered(s, count) + [c]
  {
    assert (s + [c])[..|s|] == s;
  }

  /** The filter on `"a   b"` (three spaces) keeps `count` spaces of the run, and at most all three. */
  lemma DocRun(s: string, count: nat)
    requires s == "a   b"
    ensures Filtered(s, count) == "a" + Spaces(if 3 <= count then 3 else count) + "b"
  {
    assert s == "a" + Spaces(3) + "b";
    FilteredSpaces("a", 3, count);
    FilteredSnocText("a" + Spaces(3), 'b', count);
    assert Filtered("a", count) == "a" by {
      assert "a"[..0] == "";
    }
  }

  /** The filter on `"a   b"` (three spaces) for the counts 0 to 4. */
  lemma DocExamples(s: string)
    requires s == "a   b"
    ensures Filtered(s, 0) == "ab"
    ensures Filtered(s, 1) == "a b"
    ensures Filtered(s, 2) == "a  b"
    ensures Filtered(s, 3) == "a   b"
    ensures Filtered(s, 4) == "a   b"
  {
    DocRun(s, 0);
    DocRun(s, 1);
    DocRun(s, 2);
    DocRun(s, 3);
    DocRun(s, 4);
  }
}

/**
 * The two whitespace passes `_parseSample` runs over a section's markdown
 * once code blocks have been spliced out:
 *   1. `replace(/^\s+/gm, '\n')`: every whitespace run that starts a line
 *      becomes one newline;
 *   2. `replace(/(\n +|\n{2,})/gm, '\n\n')`: a newline followed by spaces,
 *      or two or more newlines, becomes a blank line.
 * Each is a left-to-right scan as a global regular-expression replace
 * performs it. `^` in multiline mode holds at the start of the input and
 * after a line terminator; `\s` is JavaScript's whitespace class.
 */
module Collapse {
  import opened Strings
  import opened CodeBlocks
  import opened Common

  /** Length of the whitespace run `s` starts with (a greedy `\s*`). */
  function SpaceRun(s: string): (n: nat)
    ensures n <= |s|
    ensures forall i :: 0 <= i < n ==> IsSpace(s[i])
    ensures n < |s| ==> !IsSpace(s[n])
  {
    if s == [] || !IsSpace(s[0]) then 0 else 1 + SpaceRun(s[1..])
  }

  /** The run is determined by its two defining properties. */
  lemma SpaceRunIs(s: string, n: nat)
    requires n <= |s|
    requires forall i :: 0 <= i < n ==> IsSpace(s[i])
    requires n < |s| ==> !IsSpace(s[n])
    ensures SpaceRun(s) == n
  {
  }

  /**
   * Pass 1, scanning from a position where `atLineStart` tells whether `^`
   * holds there.
   */
  function LeadingSpaceToNewline(s: string, atLineStart: bool): string
    decreases |s|
  {
    if s == [] then []
    else if atLineStart && IsSpace(s[0]) then
      var n := SpaceRun(s);
      "\n" + LeadingSpaceToNewline(s[n..], IsLineTerminator(s[n - 1]))
    else [s[0]] + LeadingSpaceToNewline(s[1..], IsLineTerminator(s[0]))
  }

  /** Whether `^` holds after scanning `s` from a position with flag `f`. */
  function FlagAfter(s: string, f: bool): bool {
    if s == [] then f else IsLineTerminator(s[|s| - 1])
  }

  /** Length of the run of `c` that `s` starts with. */
  function RunOf(s: string, c: char): (n: nat)
    ensures n <= |s|
    ensures forall i :: 0 <= i < n ==> s[i] == c
    ensures n < |s| ==> s[n] != c
  {
    if s == [] || s[0] != c then 0 else 1 + RunOf(s[1..], c)
  }

  /** Pass 2; the alternative `\n +` is tried before `\n{2,}`. */
  function BlankRunCollapse(s: string): string
    decreases |s|
  {
    if s == [] then []
    else if |s| >= 2 && s[0] == '\n' && s[1] == ' ' then
      "\n\n" + BlankRunCollapse(s[1 + RunOf(s[1..], ' ')..])
    else if |s| >= 2 && s[0] == '\n' && s[1] == '\n' then
      "\n\n" + BlankRunCollapse(s[RunOf(s, '\n')..])
    else [s[0]] + BlankRunCollapse(s[1..])
  }

  /** Both passes, the first one starting with flag `atLineStart`. */
  function CollapseWhitespace(s: string, atLineStart: bool): string {
    BlankRunCollapse(LeadingSpaceToNewline(s, atLineStart))
  }

  /**
   * The shape pass 1 leaves behind: a newline is followed by visible text,
   * by the end, or by exactly one more newline that is itself followed by
   * visible text or the end.
   */
  predicate Tidy(s: string) {
    forall i :: 0 <= i < |s| - 1 && s[i] == '\n' && IsSpace(s[i + 1]) ==>
      s[i + 1] == '\n' && (i + 2 == |s| || !IsSpace(s[i + 2]))
  }

  /** What the collapsed markdown promises: no newline followed by a space or a tab, and no three newlines in a row. */
  predicate Collapsed(s: string) {
    && (forall i :: 0 <= i < |s| - 1 && s[i] == '\n' ==> s[i + 1] != ' ' && s[i + 1] != '\t')
    && (forall i :: 0 <= i < |s| - 2 && s[i] == '\n' && s[i + 1] == '\n' ==> s[i + 2] != '\n')
  }

  lemma TidyIsCollapsed(s: string)
    requires Tidy(s)
    ensures Collapsed(s)
  {
    forall i | 0 <= i < |s| - 2 && s[i] == '\n' && s[i + 1] == '\n'
      ensures s[i + 2] != '\n'
    {
      assert IsSpace(s[i + 1]);
    }
  }

  lemma TidySuffix(s: string, k: nat)
    requires Tidy(s) && k <= |s|
    ensures Tidy(s[k..])
  {
    var t := s[k..];
    forall i | 0 <= i < |t| - 1 && t[i] == '\n' && IsSpace(t[i + 1])
      ensures t[i + 1] == '\n' && (i + 2 == |t| || !IsSpace(t[i + 2]))
    {
      assert s[k + i] == '\n' && IsSpace(s[k + i + 1]);
    }
  }

  lemma TidyCons(c: char, r: string)
    requires Tidy(r)
    requires c == '\n' && r != [] && IsSpace(r[0]) ==> r[0] == '\n' && (|r| == 1 || !IsSpace(r[1]))
    ensures Tidy([c] + r)
  {
    var s := [c] + r;
    forall i | 0 <= i < |s| - 1 && s[i] == '\n' && IsSpace(s[i + 1])
      ensures s[i + 1] == '\n' && (i + 2 == |s| || !IsSpace(s[i + 2]))
    {
      if i > 0 {
        assert r[i - 1] == '\n' && IsSpace(r[i]);
      }
    }
  }

  /** How pass 1's output begins. */
  lemma LeadingSpaceToNewlineHead(s: string, f: bool)
    requires s != []
    ensures var o := LeadingSpaceToNewline(s, f);
      if f && IsSpace(s[0]) then o != [] && o[0] == '\n' && (|o| == 1 || !IsSpace(o[1]))
      else o != [] && o[0] == s[0]
  {
    if f && IsSpace(s[0]) {
      var n := SpaceRun(s);
      var t := s[n..];
      if t != [] {
        assert !IsSpace(t[0]);
      }
    }
  }

  /** Pass 1 always produces the tidy shape. */
  lemma {:induction false} LeadingSpaceToNewlineTidy(s: string, f: bool)
    decreases |s|
    ensures Tidy(LeadingSpaceToNewline(s, f))
  {
    if s == [] {
    } else if f && IsSpace(s[0]) {
      var n := SpaceRun(s);
      var t := s[n..];
      var g := IsLineTerminator(s[n - 1]);
      LeadingSpaceToNewlineTidy(t, g);
      if t != [] {
        LeadingSpaceToNewlineHead(t, g);
      }
      TidyCons('\n', LeadingSpaceToNewline(t, g));
    } else {
      var t := s[1..];
      var g := IsLineTerminator(s[0]);
      LeadingSpaceToNewlineTidy(t, g);
      if t != [] {
        LeadingSpaceToNewlineHead(t, g);
      }
      TidyCons(s[0], LeadingSpaceToNewline(t, g));
    }
  }

  /** Pass 2 changes nothing in a tidy string. */
  lemma {:induction false} BlankRunCollapseOfTidy(s: string)
    requires Tidy(s)
    decreases |s|
    ensures BlankRunCollapse(s) == s
  {
    if s == [] {
    } else if |s| >= 2 && s[0] == '\n' && s[1] == '\n' {
      assert RunOf(s, '\n') == 2 by {
        assert IsSpace(s[1]);
        assert |s| == 2 || !IsSpace(s[2]);
      }
      assert BlankRunCollapse(s[2..]) == s[2..] by {
        TidySuffix(s, 2);
        BlankRunCollapseOfTidy(s[2..]);
      }
      assert s == "\n\n" + s[2..];
    } else {
      assert !(|s| >= 2 && s[0] == '\n' && s[1] == ' ');
      assert BlankRunCollapse(s[1..]) == s[1..] by {
        TidySuffix(s, 1);
        BlankRunCollapseOfTidy(s[1..]);
      }
      assert s == [s[0]] + s[1..];
    }
  }

  /** The second pass is redundant after the first. */
  lemma CollapseWhitespaceIsFirstPass(s: string, f: bool)
    ensures CollapseWhitespace(s, f) == LeadingSpaceToNewline(s, f)
  {
    LeadingSpaceToNewlineTidy(s, f);
    BlankRunCollapseOfTidy(LeadingSpaceToNewline(s, f));
  }

  /** The collapsed text never holds a newline followed by a space or tab, nor three newlines. */
  lemma CollapseWhitespaceIsCollapsed(s: string, f: bool)
    ensures Collapsed(CollapseWhitespace(s, f))
  {
    CollapseWhitespaceIsFirstPass(s, f);
    LeadingSpaceToNewlineTidy(s, f);
    TidyIsCollapsed(LeadingSpaceToNewline(s, f));
  }

  /** The non-whitespace characters of `s`, in order. */
  function Visible(s: string): string {
    if s == [] then [] else (if IsSpace(s[0]) then [] else [s[0]]) + Visible(s[1..])
  }

  lemma {:induction false} VisibleConcat(a: string, b: string)
    decreases |a|
    ensures Visible(a + b) == Visible(a) + Visible(b)
  {
    if a != [] {
      assert (a + b)[1..] == a[1..] + b;
      VisibleConcat(a[1..], b);
    } else {
      assert a + b == b;
    }
  }

  lemma {:induction false} VisibleOfSpaces(s: string, n: nat)
    requires n <= |s| && forall i :: 0 <= i < n ==> IsSpace(s[i])
    decreases n
    ensures Visible(s[n..]) == Visible(s)
  {
    if n > 0 {
      VisibleOfSpaces(s[1..], n - 1);
      assert s[1..][n - 1..] == s[n..];
    }
  }

  /** Pass 1 only ever touches whitespace: the visible text is unchanged. */
  lemma {:induction false} LeadingSpaceToNewlineKeepsVisible(s: string, f: bool)
    decreases |s|
    ensures Visible(LeadingSpaceToNewline(s, f)) == Visible(s)
  {
    if s == [] {
    } else if f && IsSpace(s[0]) {
      var n := SpaceRun(s);
      var g := IsLineTerminator(s[n - 1]);
      LeadingSpaceToNewlineKeepsVisible(s[n..], g);
      VisibleConcat("\n", LeadingSpaceToNewline(s[n..], g));
      VisibleOfSpaces(s, n);
    } else {
      var g := IsLineTerminator(s[0]);
      LeadingSpaceToNewlineKeepsVisible(s[1..], g);
      VisibleConcat([s[0]], LeadingSpaceToNewline(s[1..], g));
    }
  }

  /** Both passes keep the visible text. */
  lemma CollapseWhitespaceKeepsVisible(s: string, f: bool)
    ensures Visible(CollapseWhitespace(s, f)) == Visible(s)
  {
    CollapseWhitespaceIsFirstPass(s, f);
    LeadingSpaceToNewlineKeepsVisible(s, f);
  }

  /** A whitespace run at the front of `a` ends in `a` when `b` does not start with whitespace. */
  lemma SpaceRunConcat(a: string, b: string)
    requires b == [] || !IsSpace(b[0])
    ensures SpaceRun(a + b) == SpaceRun(a)
  {
    var s, n := a + b, SpaceRun(a);
    assert forall i :: 0 <= i < n ==> s[i] == a[i];
    assert n < |s| ==> !IsSpace(s[n]) by {
      if n < |a| {
        assert s[n] == a[n];
      } else if n < |s| {
        assert s[n] == b[0];
      }
    }
    SpaceRunIs(s, n);
  }

  /** The step of `LeadingSpaceToNewlineConcat` that starts with a whitespace run. */
  lemma LeadingSpaceToNewlineConcatRun(a: string, b: string, f: bool)
    requires b == [] || !IsSpace(b[0])
    requires a != [] && f && IsSpace(a[0])
    requires var n := SpaceRun(a); var g := IsLineTerminator(a[n - 1]);
      LeadingSpaceToNewline(a[n..] + b, g) == LeadingSpaceToNewline(a[n..], g) + LeadingSpaceToNewline(b, FlagAfter(a[n..], g))
    ensures LeadingSpaceToNewline(a + b, f) == LeadingSpaceToNewline(a, f) + LeadingSpaceToNewline(b, FlagAfter(a, f))
  {
    var s, n := a + b, SpaceRun(a);
    var g := IsLineTerminator(a[n - 1]);
    var head, tail := LeadingSpaceToNewline(a[n..], g), LeadingSpaceToNewline(b, FlagAfter(a, f));
    assert FlagAfter(a[n..], g) == FlagAfter(a, f);
    assert LeadingSpaceToNewline(s, f) == "\n" + LeadingSpaceToNewline(a[n..] + b, g) by {
      SpaceRunConcat(a, b);
      DropConcat(a, b, n);
      assert s[n - 1] == a[n - 1];
    }
    assert LeadingSpaceToNewline(a, f) == "\n" + head;
    AppendAssoc("\n", head, tail);
  }

  /** The step of `LeadingSpaceToNewlineConcat` that copies one character. */
  lemma LeadingSpaceToNewlineConcatChar(a: string, b: string, f: bool)
    requires a != [] && !(f && IsSpace(a[0]))
    requires var g := IsLineTerminator(a[0]);
      LeadingSpaceToNewline(a[1..] + b, g) == LeadingSpaceToNewline(a[1..], g) + LeadingSpaceToNewline(b, FlagAfter(a[1..], g))
    ensures LeadingSpaceToNewline(a + b, f) == LeadingSpaceToNewline(a, f) + LeadingSpaceToNewline(b, FlagAfter(a, f))
  {
    var s, c := a + b, a[0];
    var g := IsLineTerminator(c);
    var head, tail := LeadingSpaceToNewline(a[1..], g), LeadingSpaceToNewline(b, FlagAfter(a, f));
    var mid := LeadingSpaceToNewline(a[1..] + b, g);
    assert mid == head + tail by {
      assert FlagAfter(a[1..], g) == FlagAfter(a, f);
    }
    assert s[0] == c;
    DropConcat(a, b, 1);
    LeadingSpaceToNewlineCopies(s, f);
    LeadingSpaceToNewlineCopies(a, f);
    AppendAssoc([c], head, tail);
  }

  /** Outside a leading whitespace run, pass 1 copies one character. */
  lemma LeadingSpaceToNewlineCopies(s: string, f: bool)
    requires s != [] && !(f && IsSpace(s[0]))
    ensures LeadingSpaceToNewline(s, f) == [s[0]] + LeadingSpaceToNewline(s[1..], IsLineTerminator(s[0]))
  {
  }

  /** Pass 1 over `a + b` splits at `a`'s end when `b` does not start with whitespace. */
  lemma {:induction false} LeadingSpaceToNewlineConcat(a: string, b: string, f: bool)
    requires b == [] || !IsSpace(b[0])
    decreases |a|
    ensures LeadingSpaceToNewline(a + b, f) == LeadingSpaceToNewline(a, f) + LeadingSpaceToNewline(b, FlagAfter(a, f))
  {
    if a == [] {
      assert a + b == b;
    } else if f && IsSpace(a[0]) {
      var n := SpaceRun(a);
      LeadingSpaceToNewlineConcat(a[n..], b, IsLineTerminator(a[n - 1]));
      LeadingSpaceToNewlineConcatRun(a, b, f);
    } else {
      LeadingSpaceToNewlineConcat(a[1..], b, IsLineTerminator(a[0]));
      LeadingSpaceToNewlineConcatChar(a, b, f);
    }
  }

  /** Visible text at the front passes pass 1 untouched and leaves `^` false behind it. */
  lemma {:induction false} LeadingSpaceToNewlineOpaque(h: string, t: string, f: bool)
    requires h != [] && forall i :: 0 <= i < |h| ==> !IsSpace(h[i])
    decreases |h|
    ensures LeadingSpaceToNewline(h + t, f) == h + LeadingSpaceToNewline(t, false)
  {
    var s := h + t;
    assert s[0] == h[0] && s[1..] == h[1..] + t;
    if |h| == 1 {
      assert h[1..] + t == t;
    } else {
      LeadingSpaceToNewlineOpaque(h[1..], t, false);
      assert h == [h[0]] + h[1..];
    }
  }

  /**
   * The gaps between placeholders as the whole-text passes treat them: the
   * first gap starts the section, later gaps follow a placeholder.
   */
  function CollapseGaps(gaps: seq<string>, atLineStart: bool): (r: seq<string>)
    ensures |r| == |gaps|
    ensures forall i :: 0 <= i < |gaps| ==> r[i] == CollapseWhitespace(gaps[i], i == 0 && atLineStart)
  {
    if gaps == [] then [] else [CollapseWhitespace(gaps[0], atLineStart)] + CollapseGaps(gaps[1..], false)
  }

  /** A token free of whitespace. */
  predicate Solid(h: string) {
    h != [] && forall i :: 0 <= i < |h| ==> !IsSpace(h[i])
  }

  /**
   * Collapsing text that has solid placeholders woven into it is the same as
   * collapsing each gap on its own.
   */
  lemma {:induction false} CollapseWeave(gaps: seq<string>, hs: seq<string>, f: bool)
    requires |gaps| == |hs| + 1
    requires forall i :: 0 <= i < |hs| ==> Solid(hs[i])
    decreases |hs|
    ensures CollapseWhitespace(Weave(gaps, hs), f) == Weave(CollapseGaps(gaps, f), hs)
  {
    var cg := CollapseGaps(gaps, f);
    CollapseWhitespaceIsFirstPass(Weave(gaps, hs), f);
    if hs == [] {
      CollapseWhitespaceIsFirstPass(gaps[0], f);
    } else {
      var h, rest := hs[0], Weave(gaps[1..], hs[1..]);
      var g := FlagAfter(gaps[0], f);
      var front, back := LeadingSpaceToNewline(gaps[0], f), LeadingSpaceToNewline(rest, false);
      assert front == cg[0] by {
        CollapseWhitespaceIsFirstPass(gaps[0], f);
      }
      assert back == Weave(cg[1..], hs[1..]) by {
        assert forall i :: 0 <= i < |hs[1..]| ==> Solid(hs[1..][i]);
        CollapseWeave(gaps[1..], hs[1..], false);
        CollapseWhitespaceIsFirstPass(rest, false);
        assert cg[1..] == CollapseGaps(gaps[1..], false);
      }
      assert LeadingSpaceToNewline(h + rest, g) == h + back by {
        LeadingSpaceToNewlineOpaque(h, rest, g);
      }
      assert LeadingSpaceToNewline(Weave(gaps, hs), f) == front + (h + back) by {
        AppendAssoc(gaps[0], h, rest);
        LeadingSpaceToNewlineConcat(gaps[0], h + rest, f);
      }
      AppendAssoc(front, h, back);
    }
  }
}

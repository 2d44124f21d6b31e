/**
 * The fragment of JavaScript's `String.prototype` the builder relies on:
 * prefix and suffix tests, `indexOf`, `toLowerCase`, and `replace` with a
 * string pattern, whose replacement string is subject to `$`-pattern
 * expansion (GetSubstitution, section 22.1.3.19.1 of ECMA-262).
 */
module Strings {
  import opened Common

  predicate StartsWith(s: string, p: string) {
    |p| <= |s| && s[..|p|] == p
  }

  predicate EndsWith(s: string, p: string) {
    |p| <= |s| && s[|s| - |p|..] == p
  }

  /** `p` occurs in `s` starting at index `i`. */
  predicate OccursAt(s: string, p: string, i: int) {
    0 <= i && i + |p| <= |s| && s[i..i + |p|] == p
  }

  /** The first index at or after `from` where `p` occurs in `s`. */
  function IndexOfFrom(s: string, p: string, from: nat): (r: Option<nat>)
    decreases |s| - from
    ensures r.Some? ==> from <= r.value && OccursAt(s, p, r.value)
    ensures r.Some? ==> forall j :: from <= j < r.value ==> !OccursAt(s, p, j)
    ensures r.None? ==> forall j :: from <= j ==> !OccursAt(s, p, j)
  {
    if from + |p| > |s| then None
    else if s[from..from + |p|] == p then Some(from)
    else IndexOfFrom(s, p, from + 1)
  }

  /** JavaScript `s.indexOf(p)`, with `None` for -1. */
  function IndexOf(s: string, p: string): Option<nat> {
    IndexOfFrom(s, p, 0)
  }

  lemma IndexOfPrefix(s: string, p: string)
    requires StartsWith(s, p)
    ensures IndexOf(s, p) == Some(0)
  {
    assert OccursAt(s, p, 0);
  }

  /** The first occurrence of `p` in `s` is at `i`. */
  lemma IndexOfAt(s: string, p: string, i: nat)
    requires OccursAt(s, p, i)
    requires forall j :: 0 <= j < i ==> !OccursAt(s, p, j)
    ensures IndexOf(s, p) == Some(i)
  {
  }

  /** The regular-expression class `\d`: the ASCII digits. */
  predicate IsDigit(c: char) {
    '0' <= c <= '9'
  }

  /** ECMAScript LineTerminator: what `.` refuses and what `^` in multiline mode follows. */
  predicate IsLineTerminator(c: char) {
    c == '\n' || c == '\r' || c == '\U{2028}' || c == '\U{2029}'
  }

  /** The regular-expression class `\s`: WhiteSpace and LineTerminator code points. */
  predicate IsSpace(c: char) {
    || IsLineTerminator(c)
    || c == '\t' || c == '\U{0B}' || c == '\U{0C}' || c == ' ' || c == '\U{A0}' || c == '\U{FEFF}'
    || c == '\U{1680}' || ('\U{2000}' <= c <= '\U{200A}') || c == '\U{202F}' || c == '\U{205F}' || c == '\U{3000}'
  }

  /** JavaScript `toLowerCase`, restricted to the ASCII letters. */
  function LowerChar(c: char): char {
    if 'A' <= c <= 'Z' then (c as int + 32) as char else c
  }

  function Lower(s: string): (r: string)
    ensures |r| == |s|
    ensures forall i :: 0 <= i < |s| ==> r[i] == LowerChar(s[i])
  {
    if s == [] then [] else [LowerChar(s[0])] + Lower(s[1..])
  }

  lemma LowerOfLowercase(s: string)
    requires forall i :: 0 <= i < |s| ==> !('A' <= s[i] <= 'Z')
    ensures Lower(s) == s
  {
  }

  lemma LowerKeepsChar(s: string, c: char)
    requires c !in s
    requires LowerChar(c) == c && !('A' <= c <= 'Z') && !('a' <= c <= 'z')
    ensures c !in Lower(s)
  {
  }

  /**
   * The replacement text for one match under `$`-pattern expansion when the
   * pattern is a string (so there are no capture groups): `$$` gives `$`,
   * `$&` the match, `` $` `` the text before it, `$'` the text after it, and
   * every other `$` stands for itself.
   */
  function Expand(repl: string, matched: string, before: string, after: string): string
    decreases |repl|
  {
    if repl == [] then []
    else if repl[0] == '$' && |repl| >= 2 && repl[1] == '$' then "$" + Expand(repl[2..], matched, before, after)
    else if repl[0] == '$' && |repl| >= 2 && repl[1] == '&' then matched + Expand(repl[2..], matched, before, after)
    else if repl[0] == '$' && |repl| >= 2 && repl[1] == '`' then before + Expand(repl[2..], matched, before, after)
    else if repl[0] == '$' && |repl| >= 2 && repl[1] == '\'' then after + Expand(repl[2..], matched, before, after)
    else [repl[0]] + Expand(repl[1..], matched, before, after)
  }

  /** A replacement string without `$` is inserted verbatim. */
  lemma {:induction false} ExpandLiteral(repl: string, matched: string, before: string, after: string)
    requires '$' !in repl
    ensures Expand(repl, matched, before, after) == repl
  {
    if repl != [] {
      ExpandLiteral(repl[1..], matched, before, after);
    }
  }

  /** A `$`-free prefix of a replacement string is copied through unchanged. */
  lemma {:induction false} ExpandLiteralPrefix(lit: string, rest: string, matched: string, before: string, after: string)
    requires '$' !in lit
    ensures Expand(lit + rest, matched, before, after) == lit + Expand(rest, matched, before, after)
  {
    if lit != [] {
      assert lit[0] in lit;
      assert (lit + rest)[0] == lit[0];
      assert (lit + rest)[1..] == lit[1..] + rest;
      ExpandLiteralPrefix(lit[1..], rest, matched, before, after);
      calc {
        Expand(lit + rest, matched, before, after);
        [lit[0]] + Expand(lit[1..] + rest, matched, before, after);
        [lit[0]] + (lit[1..] + Expand(rest, matched, before, after));
        { assert [lit[0]] + lit[1..] == lit; }
        lit + Expand(rest, matched, before, after);
      }
    } else {
      assert lit + rest == rest;
    }
  }

  /** JavaScript `s.replace(p, repl)` with a string pattern: only the first occurrence is replaced. */
  function Replace(s: string, p: string, repl: string): (r: string)
    ensures IndexOf(s, p).None? ==> r == s
  {
    match IndexOf(s, p)
    case None => s
    case Some(i) => s[..i] + Expand(repl, p, s[..i], s[i + |p|..]) + s[i + |p|..]
  }

  /** With a `$`-free replacement, `replace` splices it in place of the first occurrence of the pattern. */
  lemma ReplaceLiteral(s: string, p: string, repl: string, i: nat)
    requires '$' !in repl
    requires IndexOf(s, p) == Some(i)
    ensures Replace(s, p, repl) == s[..i] + repl + s[i + |p|..]
  {
    ExpandLiteral(repl, p, s[..i], s[i + |p|..]);
  }

  /** The replacement `$&` puts the match back: `replace` then returns its input. */
  lemma ReplaceWithMatch(s: string, p: string, i: nat)
    requires IndexOf(s, p) == Some(i)
    ensures Replace(s, p, "$&") == s
  {
    var r := "$&";
    assert r[2..] == [];
    assert Expand(r, p, s[..i], s[i + |p|..]) == p;
    assert s[..i] + p + s[i + |p|..] == s;
  }

  /** JavaScript `s.replace(prefix, '')` removes a prefix the string starts with. */
  lemma RemovePrefix(s: string, p: string)
    requires StartsWith(s, p)
    ensures Replace(s, p, "") == s[|p|..]
  {
    IndexOfPrefix(s, p);
  }

  /** The first index of character `c` in `s`. */
  function IndexOfChar(s: string, c: char): (r: Option<nat>)
    ensures r.Some? ==> r.value < |s| && s[r.value] == c && c !in s[..r.value]
    ensures r.None? ==> c !in s
  {
    if s == [] then None
    else if s[0] == c then Some(0)
    else match IndexOfChar(s[1..], c)
      case None => None
      case Some(i) => Some(i + 1)
  }

  /** The last index of character `c` in `s`. */
  function LastIndexOfChar(s: string, c: char): (r: Option<nat>)
    ensures r.Some? ==> r.value < |s| && s[r.value] == c && c !in s[r.value + 1..]
    ensures r.None? ==> c !in s
  {
    if s == [] then None
    else if s[|s| - 1] == c then Some(|s| - 1)
    else LastIndexOfChar(s[..|s| - 1], c)
  }

  lemma LastIndexOfCharAfter(a: string, c: char, b: string)
    requires c !in b
    ensures LastIndexOfChar(a + [c] + b, c) == Some(|a|)
  {
    var s := a + [c] + b;
    var r := LastIndexOfChar(s, c);
    assert s[|a|] == c;
    assert r.Some?;
  }

  /** An index holding `c` with no `c` before it is the first index of `c`. */
  lemma IndexOfCharIs(s: string, c: char, i: nat)
    requires i < |s| && s[i] == c && c !in s[..i]
    ensures IndexOfChar(s, c) == Some(i)
  {
    var r := IndexOfChar(s, c);
    assert s[i] in s;
    assert r.Some?;
  }

  lemma IndexOfCharAfter(a: string, c: char, b: string)
    requires c !in a
    ensures IndexOfChar(a + [c] + b, c) == Some(|a|)
  {
    var s := a + [c] + b;
    var r := IndexOfChar(s, c);
    assert s[|a|] == c;
    assert r.Some?;
  }
}

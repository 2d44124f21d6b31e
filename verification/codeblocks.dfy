/**
 * Splicing out protected code regions: the global, lazy, dot-all match of
 * `\[sourcecode.*?\[\/sourcecode]` that `_parseSample` replaces by digests.
 * A section's text is decomposed into the gaps between matches and the
 * matches themselves; weaving them back together gives the text again.
 */
module CodeBlocks {
  import opened Common
  import opened Strings

  const Open := "[sourcecode"
  const Close := "[/sourcecode]"

  /** A protected region: the opener, then text holding no closer, then the closer. */
  predicate IsBlock(b: string) {
    && |Open| + |Close| <= |b|
    && StartsWith(b, Open)
    && EndsWith(b, Close)
    && forall j :: |Open| <= j < |b| - |Close| ==> !OccursAt(b, Close, j)
  }

  /**
   * The length of the match at the start of `s`, if any: the opener followed
   * by the shortest stretch that reaches a closer.
   */
  function BlockAt(s: string): (r: Option<nat>)
    ensures r.Some? ==> |Open| + |Close| <= r.value <= |s| && IsBlock(s[..r.value])
  {
    if !StartsWith(s, Open) then None
    else match IndexOf(s[|Open|..], Close)
      case None => None
      case Some(j) =>
        BlockShape(s, j);
        Some(|Open| + j + |Close|)
  }

  /** The first closer after the opener ends a block. */
  lemma BlockShape(s: string, j: nat)
    requires StartsWith(s, Open)
    requires OccursAt(s[|Open|..], Close, j)
    requires forall i :: 0 <= i < j ==> !OccursAt(s[|Open|..], Close, i)
    ensures IsBlock(s[..|Open| + j + |Close|])
  {
    var n := |Open| + j + |Close|;
    var t := s[|Open|..];
    var b := s[..n];
    assert b[..|Open|] == Open;
    assert n <= |s|;
    assert b[n - |Close|..] == s[|Open| + j..n];
    assert t[j..j + |Close|] == s[|Open| + j..n];
    forall i | |Open| <= i < n - |Close|
      ensures !OccursAt(b, Close, i)
    {
      assert b[i..i + |Close|] == t[i - |Open|..i - |Open| + |Close|];
      assert !OccursAt(t, Close, i - |Open|);
    }
  }

  /** A block at the start of `s` begins with the opener and has a closer after it. */
  lemma BlockPrefix(s: string, n: nat)
    requires n <= |s|
    ensures IsBlock(s[..n]) ==> StartsWith(s, Open) && OccursAt(s[|Open|..], Close, n - |Close| - |Open|)
  {
    if IsBlock(s[..n]) {
      var b := s[..n];
      assert b[..|Open|] == s[..|Open|];
      var j := n - |Close| - |Open|;
      assert s[|Open|..][j..j + |Close|] == b[n - |Close|..];
    }
  }

  /** When no match is found at the start, no prefix of the text is a block. */
  lemma BlockAtNone(s: string)
    requires BlockAt(s).None?
    ensures forall n :: 0 <= n <= |s| ==> !IsBlock(s[..n])
  {
    forall n | 0 <= n <= |s|
      ensures !IsBlock(s[..n])
    {
      BlockPrefix(s, n);
    }
  }

  /** `gaps[0] + items[0] + gaps[1] + … + items[k-1] + gaps[k]` */
  function Weave(gaps: seq<string>, items: seq<string>): string
    requires |gaps| == |items| + 1
  {
    if items == [] then gaps[0] else gaps[0] + items[0] + Weave(gaps[1..], items[1..])
  }

  /** A gap and an item put in front weave in front of the rest. */
  lemma WeaveCons(g: string, b: string, gaps: seq<string>, items: seq<string>)
    requires |gaps| == |items| + 1
    ensures Weave([g] + gaps, [b] + items) == g + b + Weave(gaps, items)
  {
    assert ([g] + gaps)[1..] == gaps && ([b] + items)[1..] == items;
  }

  /** Text put in front of the first gap ends up in front of the woven text. */
  lemma WeavePrepend(x: string, gaps: seq<string>, items: seq<string>)
    requires |gaps| == |items| + 1
    ensures Weave([x + gaps[0]] + gaps[1..], items) == x + Weave(gaps, items)
  {
    var gs := [x + gaps[0]] + gaps[1..];
    assert gs[1..] == gaps[1..];
  }

  /** Cutting the woven text at item `k`: what precedes it, the item, and what follows it. */
  lemma {:induction false} WeaveSplit(gaps: seq<string>, items: seq<string>, k: nat)
    requires |gaps| == |items| + 1 && k < |items|
    ensures Weave(gaps, items) == Weave(gaps[..k + 1], items[..k]) + items[k] + Weave(gaps[k + 1..], items[k + 1..])
  {
    if k == 0 {
      assert Weave(gaps[..1], items[..0]) == gaps[0];
    } else {
      WeaveSplit(gaps[1..], items[1..], k - 1);
      assert gaps[..k + 1][1..] == gaps[1..][..k];
      assert items[..k][1..] == items[1..][..k - 1];
      assert gaps[1..][k..] == gaps[k + 1..];
      assert items[1..][k..] == items[k + 1..];
      assert items[1..][k - 1] == items[k];
    }
  }

  datatype Spliced = Spliced(gaps: seq<string>, blocks: seq<string>)

  /**
   * Scan `s` left to right as a global regular-expression replace does: a
   * match at the current position is cut out and scanning resumes after it;
   * otherwise the character is kept and scanning moves one position on.
   */
  function Splice(s: string): (r: Spliced)
    decreases |s|
    ensures |r.gaps| == |r.blocks| + 1
    ensures Weave(r.gaps, r.blocks) == s
    ensures forall b <- r.blocks :: IsBlock(b)
  {
    if s == [] then Spliced([""], [])
    else match BlockAt(s)
      case Some(n) =>
        var rest := Splice(s[n..]);
        assert Weave([""] + rest.gaps, [s[..n]] + rest.blocks) == s by {
          WeaveCons("", s[..n], rest.gaps, rest.blocks);
          assert Weave(rest.gaps, rest.blocks) == s[n..];
          assert "" + s[..n] == s[..n];
          assert s[..n] + s[n..] == s;
        }
        Spliced([""] + rest.gaps, [s[..n]] + rest.blocks)
      case None =>
        var rest := Splice(s[1..]);
        assert Weave([[s[0]] + rest.gaps[0]] + rest.gaps[1..], rest.blocks) == s by {
          WeavePrepend([s[0]], rest.gaps, rest.blocks);
          assert s == [s[0]] + s[1..];
        }
        Spliced([[s[0]] + rest.gaps[0]] + rest.gaps[1..], rest.blocks)
  }

  /**
   * The scan finds the leftmost match: no match starts inside the first gap,
   * the first block is the match where the gap ends, and the remaining gaps
   * and blocks are the scan of what follows that block.
   */
  lemma {:induction false} SpliceIsLeftmost(s: string)
    decreases |s|
    ensures var r := Splice(s);
      && (forall q :: 0 <= q < |r.gaps[0]| ==> BlockAt(s[q..]).None?)
      && (r.blocks != [] ==> BlockAt(s[|r.gaps[0]|..]) == Some(|r.blocks[0]|))
      && (r.blocks != [] ==>
            |r.gaps[0]| + |r.blocks[0]| <= |s| && Splice(s[|r.gaps[0]| + |r.blocks[0]|..]) == Spliced(r.gaps[1..], r.blocks[1..]))
  {
    if s != [] {
      match BlockAt(s)
      case Some(n) =>
        assert s[0..] == s;
      case None =>
        SpliceIsLeftmost(s[1..]);
        var rest := Splice(s[1..]);
        var g0 := [s[0]] + rest.gaps[0];
        assert Splice(s) == Spliced([g0] + rest.gaps[1..], rest.blocks);
        forall q | 0 <= q < |g0|
          ensures BlockAt(s[q..]).None?
        {
          if q == 0 {
            assert s[0..] == s;
          } else {
            assert s[q..] == s[1..][q - 1..];
          }
        }
        if rest.blocks != [] {
          assert s[|g0|..] == s[1..][|g0| - 1..];
          var m := |g0| + |rest.blocks[0]|;
          assert s[m..] == s[1..][m - 1..];
        }
    }
  }
}

/**
 * The per-section markdown rewrite in `_parseSample`: code blocks are
 * swapped for their digests, whitespace is collapsed, and the blocks are put
 * back by replacing each digest with its block.
 *
 * `NormalizeSectionAsWritten` follows the code literally; `NormalizeSection`
 * is what the comments there describe (blocks come back verbatim, in their
 * own places). `AsWrittenMatchesIntended` gives the conditions under which
 * the two agree, and the two counterexample lemmas show inputs where they do
 * not.
 */
module Markdown {
  import opened Common
  import opened Strings
  import opened AssocList
  import opened CodeBlocks
  import opened Collapse

  /**
   * Collaborators whose code is not part of this model:
   * `MarkdownDocument.rewriteCodeBlocks`, `MarkdownDocument.escapeMustacheTags`
   * and the base64 SHA-1 digest of a block.
   */
  datatype Helpers = Helpers(
    rewriteCodeBlocks: string -> string,
    escapeMustacheTags: string -> string,
    digest: string -> string)

  function Prepare(h: Helpers, markdown: string): string {
    h.escapeMustacheTags(h.rewriteCodeBlocks(markdown))
  }

  function Digests(digest: string -> string, blocks: seq<string>): (hs: seq<string>)
    ensures |hs| == |blocks|
    ensures forall i :: 0 <= i < |blocks| ==> hs[i] == digest(blocks[i])
  {
    if blocks == [] then [] else [digest(blocks[0])] + Digests(digest, blocks[1..])
  }

  /** `codeBlocks[hash] = match`, once per match, in match order. */
  function RecordBlocks(table: Assoc<string, string>, hs: seq<string>, blocks: seq<string>): Assoc<string, string>
    requires |hs| == |blocks|
    decreases |hs|
  {
    if hs == [] then table else RecordBlocks(Put(table, hs[0], blocks[0]), hs[1..], blocks[1..])
  }

  /** `for (const hash of Object.keys(codeBlocks)) markdown = markdown.replace(hash, codeBlocks[hash])` */
  function RestoreBlocks(text: string, table: Assoc<string, string>): string
    decreases |table|
  {
    if table == [] then text else RestoreBlocks(Replace(text, table[0].0, table[0].1), table[1..])
  }

  /** The loop body of `_parseSample` for one section, as written. */
  function NormalizeSectionAsWritten(h: Helpers, markdown: string): string {
    var sp := Splice(Prepare(h, markdown));
    var hs := Digests(h.digest, sp.blocks);
    var collapsed := CollapseWhitespace(Weave(sp.gaps, hs), true);
    RestoreBlocks(collapsed, RecordBlocks([], hs, sp.blocks))
  }

  /**
   * The intended rewrite: the text between code blocks is collapsed, each
   * code block comes back verbatim in its own place, and nothing but
   * whitespace changes.
   */
  function NormalizeSection(h: Helpers, markdown: string): (r: string)
    ensures var sp := Splice(Prepare(h, markdown));
      exists gs :: |gs| == |sp.gaps| && r == Weave(gs, sp.blocks) &&
        forall i :: 0 <= i < |gs| ==>
          gs[i] == CollapseWhitespace(sp.gaps[i], i == 0) && Collapsed(gs[i]) && Visible(gs[i]) == Visible(sp.gaps[i])
    ensures Visible(r) == Visible(Prepare(h, markdown))
  {
    var sp := Splice(Prepare(h, markdown));
    var gs := CollapseGaps(sp.gaps, true);
    CollapseGapsCollapsed(sp.gaps, true);
    VisibleWeave(sp.gaps, gs, sp.blocks);
    Weave(gs, sp.blocks)
  }

  lemma CollapseGapsCollapsed(gaps: seq<string>, f: bool)
    ensures var gs := CollapseGaps(gaps, f);
      forall i :: 0 <= i < |gs| ==> Collapsed(gs[i]) && Visible(gs[i]) == Visible(gaps[i])
  {
    forall i | 0 <= i < |gaps|
      ensures Collapsed(CollapseGaps(gaps, f)[i]) && Visible(CollapseGaps(gaps, f)[i]) == Visible(gaps[i])
    {
      CollapseWhitespaceIsCollapsed(gaps[i], i == 0 && f);
      CollapseWhitespaceKeepsVisible(gaps[i], i == 0 && f);
    }
  }

  /** Gaps with the same visible text weave into texts with the same visible text. */
  lemma {:induction false} VisibleWeave(gs: seq<string>, gs': seq<string>, items: seq<string>)
    requires |gs| == |gs'| == |items| + 1
    requires forall i :: 0 <= i < |gs| ==> Visible(gs'[i]) == Visible(gs[i])
    decreases |items|
    ensures Visible(Weave(gs', items)) == Visible(Weave(gs, items))
  {
    if items != [] {
      VisibleWeave(gs[1..], gs'[1..], items[1..]);
      var w := Weave(gs[1..], items[1..]);
      var w' := Weave(gs'[1..], items[1..]);
      VisibleConcat(gs[0] + items[0], w);
      VisibleConcat(gs'[0] + items[0], w');
      VisibleConcat(gs[0], items[0]);
      VisibleConcat(gs'[0], items[0]);
    }
  }

  /** The table of digest–block pairs in match order. */
  function Zip(hs: seq<string>, blocks: seq<string>): (z: Assoc<string, string>)
    requires |hs| == |blocks|
    ensures |z| == |hs|
    ensures forall i :: 0 <= i < |z| ==> z[i] == (hs[i], blocks[i])
  {
    if hs == [] then [] else [(hs[0], blocks[0])] + Zip(hs[1..], blocks[1..])
  }

  /** With distinct digests the table holds every pair once, in match order. */
  lemma {:induction false} RecordDistinct(table: Assoc<string, string>, hs: seq<string>, blocks: seq<string>)
    requires |hs| == |blocks| && Distinct(hs)
    requires forall i :: 0 <= i < |hs| ==> hs[i] !in Keys(table)
    decreases |hs|
    ensures RecordBlocks(table, hs, blocks) == table + Zip(hs, blocks)
  {
    if hs != [] {
      var t := table + [(hs[0], blocks[0])];
      assert Put(table, hs[0], blocks[0]) == t by {
        PutFresh(table, hs[0], blocks[0]);
      }
      assert forall i :: 0 <= i < |hs[1..]| ==> hs[1..][i] !in Keys(t) by {
        assert Keys(t) == Keys(table) + [hs[0]];
        forall i | 0 <= i < |hs[1..]|
          ensures hs[1..][i] !in Keys(t)
        {
          assert hs[1..][i] == hs[i + 1] != hs[0];
        }
      }
      RecordDistinct(t, hs[1..], blocks[1..]);
      var z' := Zip(hs[1..], blocks[1..]);
      assert Zip(hs, blocks) == [(hs[0], blocks[0])] + z';
      AppendAssoc(table, [(hs[0], blocks[0])], z');
    }
  }

  /** The text after the first `k` placeholders have been restored. */
  function Stage(gaps: seq<string>, blocks: seq<string>, hs: seq<string>, k: nat): string
    requires |gaps| == |blocks| + 1 && |hs| == |blocks| && k <= |hs|
  {
    Weave(gaps, blocks[..k] + hs[k..])
  }

  /** Where slot `k` begins once the slots before it hold their blocks. */
  function SlotStart(gaps: seq<string>, blocks: seq<string>, k: nat): nat
    requires |gaps| == |blocks| + 1 && k < |blocks|
  {
    |Weave(gaps[..k + 1], blocks[..k])|
  }

  /**
   * No placeholder is found early: when digest `k` is looked up, its first
   * occurrence is its own slot.
   */
  predicate PlaceholdersUnambiguous(gaps: seq<string>, blocks: seq<string>, hs: seq<string>)
    requires |gaps| == |blocks| + 1 && |hs| == |blocks|
  {
    forall k, q :: 0 <= k < |hs| && 0 <= q < SlotStart(gaps, blocks, k) ==> !OccursAt(Stage(gaps, blocks, hs, k), hs[k], q)
  }

  /** Restoring placeholder `j` fills exactly slot `j`. */
  lemma RestoreStep(gaps: seq<string>, blocks: seq<string>, hs: seq<string>, j: nat)
    requires |gaps| == |blocks| + 1 && |hs| == |blocks| && j < |hs|
    requires '$' !in blocks[j]
    requires forall q :: 0 <= q < SlotStart(gaps, blocks, j) ==> !OccursAt(Stage(gaps, blocks, hs, j), hs[j], q)
    ensures Replace(Stage(gaps, blocks, hs, j), hs[j], blocks[j]) == Stage(gaps, blocks, hs, j + 1)
  {
    var items := blocks[..j] + hs[j..];
    var items' := blocks[..j + 1] + hs[j + 1..];
    var s := Stage(gaps, blocks, hs, j);
    WeaveSplit(gaps, items, j);
    WeaveSplit(gaps, items', j);
    assert items[..j] == blocks[..j] == items'[..j];
    assert items[j + 1..] == hs[j + 1..] == items'[j + 1..];
    assert items[j] == hs[j] && items'[j] == blocks[j];
    var a := Weave(gaps[..j + 1], blocks[..j]);
    var b := Weave(gaps[j + 1..], hs[j + 1..]);
    assert s == a + hs[j] + b;
    assert s[|a|..|a| + |hs[j]|] == hs[j];
    IndexOfAt(s, hs[j], |a|);
    ReplaceLiteral(s, hs[j], blocks[j], |a|);
    assert s[..|a|] == a && s[|a| + |hs[j]|..] == b;
  }

  /** Restoring the remaining placeholders from stage `j` on gives back every block. */
  lemma {:induction false} RestoreFrom(gaps: seq<string>, blocks: seq<string>, hs: seq<string>, j: nat)
    requires |gaps| == |blocks| + 1 && |hs| == |blocks| && j <= |hs|
    requires forall i :: 0 <= i < |blocks| ==> '$' !in blocks[i]
    requires PlaceholdersUnambiguous(gaps, blocks, hs)
    decreases |hs| - j
    ensures RestoreBlocks(Stage(gaps, blocks, hs, j), Zip(hs, blocks)[j..]) == Weave(gaps, blocks)
  {
    var z := Zip(hs, blocks);
    if j == |hs| {
      assert blocks[..j] + hs[j..] == blocks;
    } else {
      var st := Stage(gaps, blocks, hs, j);
      assert Replace(st, hs[j], blocks[j]) == Stage(gaps, blocks, hs, j + 1) by {
        RestoreStep(gaps, blocks, hs, j);
      }
      assert RestoreBlocks(st, z[j..]) == RestoreBlocks(Replace(st, hs[j], blocks[j]), z[j + 1..]) by {
        assert z[j..][0] == (hs[j], blocks[j]);
        assert z[j..][1..] == z[j + 1..];
      }
      RestoreFrom(gaps, blocks, hs, j + 1);
    }
  }

  /**
   * The code as written produces the intended text whenever the digests are
   * whitespace-free and pairwise distinct (so also no block repeats), no
   * block holds a `$`, and no digest turns up in the text before its own
   * slot.
   */
  lemma AsWrittenMatchesIntended(h: Helpers, markdown: string)
    requires var sp := Splice(Prepare(h, markdown)); var hs := Digests(h.digest, sp.blocks);
      && Distinct(hs)
      && (forall i :: 0 <= i < |hs| ==> Solid(hs[i]))
      && (forall i :: 0 <= i < |sp.blocks| ==> '$' !in sp.blocks[i])
      && PlaceholdersUnambiguous(CollapseGaps(sp.gaps, true), sp.blocks, hs)
    ensures NormalizeSectionAsWritten(h, markdown) == NormalizeSection(h, markdown)
  {
    var sp := Splice(Prepare(h, markdown));
    var hs := Digests(h.digest, sp.blocks);
    var cg := CollapseGaps(sp.gaps, true);
    CollapseWeave(sp.gaps, hs, true);
    assert sp.blocks[..0] + hs[0..] == hs;
    RecordDistinct([], hs, sp.blocks);
    assert [] + Zip(hs, sp.blocks) == Zip(hs, sp.blocks)[0..];
    RestoreFrom(cg, sp.blocks, hs, 0);
  }
}

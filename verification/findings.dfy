/**
 * Two inputs on which the restore loop of `_parseSample` does not give the
 * code blocks back as they were: a block that occurs twice, and a block that
 * contains a `$&` pattern.
 */
module MarkdownFindings {
  import opened Common
  import opened Strings
  import opened AssocList
  import opened CodeBlocks
  import opened Collapse
  import opened Markdown

  /** Helpers that leave the markdown alone and give every block the digest "h". */
  function ConstantDigest(): Helpers {
    Helpers(s => s, s => s, b => "h")
  }

  /** The empty code block. */
  const Empty := Open + Close

  lemma BlockAtEmpty(rest: string)
    ensures BlockAt(Empty + rest) == Some(|Empty|)
    ensures (Empty + rest)[..|Empty|] == Empty && (Empty + rest)[|Empty|..] == rest
  {
    var s := Empty + rest;
    assert s[..|Open|] == Open;
    assert s[|Open|..] == Close + rest;
    IndexOfPrefix(Close + rest, Close);
  }

  lemma SpliceEmptyThen(rest: string)
    ensures Splice(Empty + rest) == Spliced([""] + Splice(rest).gaps, [Empty] + Splice(rest).blocks)
  {
    BlockAtEmpty(rest);
  }

  lemma SpliceNewlineEmpty()
    ensures Splice("\n" + Empty) == Spliced(["\n", ""], [Empty])
  {
    SpliceEmptyThen("");
    assert Empty + "" == Empty;
    assert Splice(Empty) == Spliced(["", ""], [Empty]);
    var t := "\n" + Empty;
    assert BlockAt(t).None? by {
      assert t[0] != Open[0];
    }
    assert t != [] && t[0] == '\n' && t[1..] == Empty;
    assert [t[0]] + "" == "\n";
  }

  lemma SpliceTwice()
    ensures Splice(Empty + "\n" + Empty) == Spliced(["", "\n", ""], [Empty, Empty])
  {
    var t := "\n" + Empty;
    assert Empty + "\n" + Empty == Empty + t by {
      AppendAssoc(Empty, "\n", Empty);
    }
    assert Splice(Empty + t) == Spliced(["", "\n", ""], [Empty, Empty]) by {
      SpliceNewlineEmpty();
      SpliceEmptyThen(t);
    }
  }

  lemma CollapseSmallGaps()
    ensures CollapseWhitespace("", true) == "" && CollapseWhitespace("", false) == ""
    ensures CollapseWhitespace("\n", false) == "\n"
  {
    assert LeadingSpaceToNewline("\n", false) == "\n";
    assert BlankRunCollapse("\n") == "\n";
  }

  lemma SolidH()
    ensures Solid("h")
  {
  }

  lemma CollapseTwice()
    ensures CollapseWhitespace(Weave(["", "\n", ""], ["h", "h"]), true) == "h\nh"
  {
    SolidH();
    CollapseWeave(["", "\n", ""], ["h", "h"], true);
    CollapseSmallGaps();
    var cg := CollapseGaps(["", "\n", ""], true);
    assert cg == ["", "\n", ""];
    assert Weave(cg, ["h", "h"]) == "h\nh";
  }

  lemma RestoreTwice()
    ensures RestoreBlocks("h\nh", [("h", Empty)]) == Empty + "\nh"
  {
    IndexOfPrefix("h\nh", "h");
    ReplaceLiteral("h\nh", "h", Empty, 0);
    assert Replace("h\nh", "h", Empty) == Empty + "\nh";
  }

  /**
   * A block that occurs twice gets one digest and one table entry, so only
   * its first copy is restored: the second copy stays a digest.
   */
  lemma DuplicateBlockLeavesPlaceholder()
    ensures NormalizeSectionAsWritten(ConstantDigest(), Empty + "\n" + Empty) == Empty + "\nh"
    ensures NormalizeSection(ConstantDigest(), Empty + "\n" + Empty) == Empty + "\n" + Empty
  {
    var h := ConstantDigest();
    var md := Empty + "\n" + Empty;
    assert Prepare(h, md) == md;
    SpliceTwice();
    var hs := Digests(h.digest, [Empty, Empty]);
    assert hs == ["h", "h"];
    CollapseTwice();
    RecordSame(Empty);
    RestoreTwice();
    assert CollapseGaps(["", "\n", ""], true) == ["", "\n", ""] by {
      CollapseSmallGaps();
    }
    assert Weave(["", "\n", ""], [Empty, Empty]) == Empty + "\n" + Empty;
  }

  lemma RecordSame(b: string)
    ensures RecordBlocks([], ["h", "h"], [b, b]) == [("h", b)]
  {
    var one: Assoc<string, string> := [("h", b)];
    assert Put([], "h", b) == one;
    assert Put(one, "h", b) == one by {
      assert one[1..] == [];
    }
    assert ["h", "h"][1..] == ["h"] && [b, b][1..] == [b];
    assert RecordBlocks(one, ["h"], [b]) == RecordBlocks(one, [], []);
  }

  lemma ExpandAmp(rest: string, matched: string)
    ensures Expand("$&" + rest, matched, "", "") == matched + Expand(rest, matched, "", "")
  {
    var r := "$&" + rest;
    assert r[0] == '$' && r[1] == '&' && r[2..] == rest;
  }

  /** A block holding `$&`. */
  const Dollar := Open + "$&" + Close

  lemma SpliceDollar()
    ensures Splice(Dollar) == Spliced(["", ""], [Dollar])
  {
    var t := Dollar[|Open|..];
    assert Dollar[..|Open|] == Open;
    assert t == "$&" + Close;
    forall j | 0 <= j < 2
      ensures !OccursAt(t, Close, j)
    {
      assert t[j] != Close[0];
    }
    assert t[2..2 + |Close|] == Close;
    IndexOfAt(t, Close, 2);
    assert BlockAt(Dollar) == Some(|Dollar|);
    assert Dollar[..|Dollar|] == Dollar && Dollar[|Dollar|..] == "";
  }

  lemma ExpandDollar()
    ensures Expand(Dollar, "h", "", "") == Open + "h" + Close
  {
    assert Open + ("$&" + Close) == Dollar;
    ExpandLiteralPrefix(Open, "$&" + Close, "h", "", "");
    ExpandAmp(Close, "h");
    ExpandLiteral(Close, "h", "", "");
  }

  /**
   * On restore the block is the replacement string of `replace`, so its
   * `$&` becomes the matched digest.
   */
  lemma DollarPatternCorruptsBlock()
    ensures NormalizeSectionAsWritten(ConstantDigest(), Dollar) == Open + "h" + Close
    ensures NormalizeSection(ConstantDigest(), Dollar) == Dollar
  {
    var h := ConstantDigest();
    assert Prepare(h, Dollar) == Dollar;
    SpliceDollar();
    var hs := Digests(h.digest, [Dollar]);
    assert hs == ["h"];
    SolidH();
    CollapseWeave(["", ""], hs, true);
    CollapseSmallGaps();
    assert CollapseGaps(["", ""], true) == ["", ""];
    assert RecordBlocks([], hs, [Dollar]) == [("h", Dollar)];
    assert Weave(["", ""], hs) == "h";
    IndexOfPrefix("h", "h");
    ExpandDollar();
    assert Replace("h", "h", Dollar) == "" + (Open + "h" + Close) + "";
    assert RestoreBlocks("h", [("h", Dollar)]) == RestoreBlocks(Open + "h" + Close, []);
  }
}

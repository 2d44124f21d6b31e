/**
 * The parsed sample as the external parser hands it over, and the
 * adjustments `_parseSample` makes to it: the repository prefix is cut from
 * the file path, the documentation route is recorded, and every section's
 * markdown is normalised.
 */
module Document {
  import opened Common
  import opened Strings
  import opened Paths
  import opened Routes
  import opened SampleFormat
  import opened Collapse
  import opened Markdown

  /**
   * The sample header. Absent text fields are the empty string, which
   * JavaScript treats as false just like `undefined`.
   */
  datatype Metadata = Metadata(
    draft: bool,
    drafts: bool,
    disablePlayground: bool,
    preview: bool,
    standaloneSnippets: bool,
    teaserImage: string,
    author: string,
    translator: string,
    contributors: string)

  /** One documented step of a sample: its markdown, its code preview, and whether that code sits inside `<body>`. */
  datatype Section = Section(id: string, doc: string, preview: string, inBody: bool)

  datatype ParsedDocument = ParsedDocument(
    title: string,
    description: string,
    metadata: Metadata,
    isAmpStory: bool,
    isAmpAds: bool,
    isAmpEmail: bool,
    sections: seq<Section>,
    head: string,
    styles: string,
    body: string,
    elementsAfterBody: string)

  datatype ParsedSample = ParsedSample(document: ParsedDocument, source: string, filePath: string, route: string)

  function FormatOf(d: ParsedDocument): Format {
    Classify(d.isAmpStory, d.isAmpAds, d.isAmpEmail)
  }

  /** `section.preview.replace(/\s/g, '') == ''`: the preview holds nothing but whitespace. */
  predicate Blank(s: string) {
    Visible(s) == []
  }

  lemma {:induction false} BlankIsAllSpace(s: string)
    ensures Blank(s) <==> forall i :: 0 <= i < |s| ==> IsSpace(s[i])
  {
    if s != [] {
      BlankIsAllSpace(s[1..]);
      if !IsSpace(s[0]) {
        assert Visible(s) == [s[0]] + Visible(s[1..]);
      } else {
        assert forall i :: 1 <= i < |s| ==> s[1..][i - 1] == s[i];
      }
    }
  }

  /** A section that gets a standalone source document of its own. */
  predicate Standalone(s: Section) {
    !Blank(s.preview) && s.inBody
  }

  /** The sections that qualify, in document order. */
  function Qualifying(sections: seq<Section>): (r: seq<Section>)
    ensures |r| <= |sections|
    ensures forall x :: x in r ==> x in sections && Standalone(x)
    ensures forall x :: x in sections && Standalone(x) ==> x in r
  {
    if sections == [] then []
    else (if Standalone(sections[0]) then [sections[0]] else []) + Qualifying(sections[1..])
  }

  /** The filter distributes over concatenation, so it keeps exactly the qualifying sections in order. */
  lemma {:induction false} QualifyingConcat(a: seq<Section>, b: seq<Section>)
    decreases |a|
    ensures Qualifying(a + b) == Qualifying(a) + Qualifying(b)
  {
    if a == [] {
      assert a + b == b;
    } else {
      assert (a + b)[0] == a[0];
      assert (a + b)[1..] == a[1..] + b;
      QualifyingConcat(a[1..], b);
    }
  }

  /** Every section is normalised; nothing else about it changes. */
  function NormalizeSections(h: Helpers, sections: seq<Section>): (r: seq<Section>)
    ensures |r| == |sections|
    ensures forall i :: 0 <= i < |r| ==>
      r[i].id == sections[i].id && r[i].preview == sections[i].preview && r[i].inBody == sections[i].inBody &&
      Visible(r[i].doc) == Visible(Prepare(h, sections[i].doc))
    ensures forall i :: 0 <= i < |r| ==> r[i] == sections[i].(doc := NormalizeSection(h, sections[i].doc))
  {
    var r := seq(|sections|, i requires 0 <= i < |sections| => sections[i].(doc := NormalizeSection(h, sections[i].doc)));
    assert forall i :: 0 <= i < |r| ==> Visible(r[i].doc) == Visible(Prepare(h, sections[i].doc)) by {
      forall i | 0 <= i < |r|
        ensures Visible(r[i].doc) == Visible(Prepare(h, sections[i].doc))
      {
        assert r[i].doc == NormalizeSection(h, sections[i].doc);
      }
    }
    r
  }

  /** Normalising the markdown never changes which sections stand alone: filtering and normalising commute. */
  lemma {:induction false} NormalizeKeepsQualifying(h: Helpers, sections: seq<Section>)
    decreases |sections|
    ensures Qualifying(NormalizeSections(h, sections)) == NormalizeSections(h, Qualifying(sections))
  {
    if sections != [] {
      var x, tail := sections[0], sections[1..];
      var nx := x.(doc := NormalizeSection(h, x.doc));
      var head, headN := if Standalone(x) then [x] else [], if Standalone(x) then [nx] else [];
      assert NormalizeSections(h, [x]) == [nx];
      assert Qualifying(NormalizeSections(h, sections)) == headN + Qualifying(NormalizeSections(h, tail)) by {
        assert [x] + tail == sections;
        NormalizeConcat(h, [x], tail);
        QualifyingCons(nx, NormalizeSections(h, tail));
      }
      assert NormalizeSections(h, Qualifying(sections)) == headN + NormalizeSections(h, Qualifying(tail)) by {
        assert [x] + tail == sections;
        QualifyingCons(x, tail);
        NormalizeConcat(h, head, Qualifying(tail));
      }
      NormalizeKeepsQualifying(h, tail);
    }
  }

  /** The filter looks at the first section, then at the rest. */
  lemma QualifyingCons(x: Section, t: seq<Section>)
    ensures Qualifying([x] + t) == (if Standalone(x) then [x] else []) + Qualifying(t)
  {
    assert ([x] + t)[0] == x && ([x] + t)[1..] == t;
  }

  /** Normalising a concatenation normalises each part. */
  lemma NormalizeConcat(h: Helpers, a: seq<Section>, b: seq<Section>)
    ensures NormalizeSections(h, a + b) == NormalizeSections(h, a) + NormalizeSections(h, b)
  {
    var l, r := NormalizeSections(h, a + b), NormalizeSections(h, a) + NormalizeSections(h, b);
    forall i | 0 <= i < |l|
      ensures l[i] == r[i]
    {
      if i < |a| {
        assert (a + b)[i] == a[i];
      } else {
        assert (a + b)[i] == b[i - |a|];
      }
    }
  }

  /**
   * The adjustments after parsing: the repository prefix is cut from the
   * file path (first occurrence, as `replace` does), the documentation route
   * of the flattened path is recorded, and each section is normalised.
   */
  function AdaptParsed(h: Helpers, root: string, repoRoot: string, path: string, raw: ParsedSample): (r: ParsedSample)
    ensures r.route == DocumentationRoute(root, path)
    ensures r.source == raw.source
    ensures r.document == raw.document.(sections := r.document.sections)
    ensures |r.document.sections| == |raw.document.sections|
    ensures forall i :: 0 <= i < |r.document.sections| ==>
      r.document.sections[i] == raw.document.sections[i].(doc := NormalizeSection(h, raw.document.sections[i].doc))
    ensures StartsWith(raw.filePath, repoRoot) ==> r.filePath == raw.filePath[|repoRoot|..]
  {
    assert StartsWith(raw.filePath, repoRoot) ==> Replace(raw.filePath, repoRoot, "") == raw.filePath[|repoRoot|..] by {
      if StartsWith(raw.filePath, repoRoot) {
        RemovePrefix(raw.filePath, repoRoot);
      }
    }
    ParsedSample(
      raw.document.(sections := NormalizeSections(h, raw.document.sections)),
      raw.source,
      Replace(raw.filePath, repoRoot, ""),
      DocumentationRoute(root, path))
  }
}

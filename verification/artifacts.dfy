/**
 * The files one sample fans out into: the documentation page and its data
 * (`_createDocumentation`), the raw sources (`_buildRawSources`), the
 * preview page (`_createPreview`) and the embed (`_renderEmbed`). Front
 * matter and template contexts are records rather than serialised text.
 */
module Artifacts {
  import opened Common
  import opened Strings
  import opened Paths
  import opened Category
  import opened Routes
  import opened SampleFormat
  import opened Document

  const DocumentationPodPath := "content/amp-dev/documentation/examples/documentation"
  const DocumentationTemplate := "/views/examples/documentation.j2"
  const PreviewTemplate := "/views/examples/preview.j2"
  const TitlePlaceholder := "<!-- samplesBuilder: title-->"
  const SectionPlaceholder := "<!-- samplesBuilder: section-->"
  const BodyEnd := "</body>"

  datatype DocumentationHeader = DocumentationHeader(
    injectAmpDependencies: bool,
    title: string,
    view: string,
    category: string,
    path: string,
    localizationPath: string,
    description: string,
    source: string,
    author: Option<string>,
    translator: Option<string>,
    contributors: Option<string>)

  /** The teaser data; the used components are not part of this model. */
  datatype Teaser = Teaser(formats: seq<Format>, teaserImage: Option<string>)

  datatype PreviewHeader = PreviewHeader(
    title: string,
    view: string,
    category: string,
    path: string,
    localizationPath: string,
    formats: seq<Format>,
    source: string,
    embed: string)

  /** The context the ads embed template is rendered with; `title` is given the metadata, as the code does. */
  datatype AdsContext = AdsContext(metadata: Metadata, canonical: string, source: string, title: Metadata)

  datatype Content =
    | Source(text: string)
    | DocumentationPage(header: DocumentationHeader, example: string, teaser: Teaser)
    | DocumentationData(sample: ParsedSample)
    | PreviewPage(preview: PreviewHeader, example: string)
    | StoryEmbed(text: string)
    | AdsEmbed(context: AdsContext)

  /**
   * What the builders ask about a sample's file: its (flattened) path, its
   * categories and its routes, computed once per sample.
   */
  datatype Locator = Locator(
    path: string,
    orderedCategory: string,
    category: string,
    documentationRoute: string,
    previewRoute: string,
    sourceRoute: string,
    embedRoute: string)

  function LocatorOf(root: string, p: string): (l: Locator)
    ensures l.path == p && l.category == DisplayCategory(root, p)
  {
    Locator(p, OrderedCategory(root, p), DisplayCategory(root, p),
      DocumentationRoute(root, p), PreviewRoute(root, p), SourceRoute(root, p), EmbedRoute(root, p))
  }

  datatype Artifact = Artifact(path: string, content: Content, isSourceFile: bool, isPreview: bool, isEmbed: bool)

  /** A metadata property is copied only when it is set to a non-empty value. */
  function Truthy(v: string): (r: Option<string>)
    ensures r.Some? <==> v != []
    ensures r.Some? ==> r.value == v
  {
    if v == [] then None else Some(v)
  }

  /** The data-source reference `!g.json /{pod path}/{stem}.json` of a page for `p`. */
  function ExampleRef(p: string): string {
    DataRef(Stem(p) + ".json")
  }

  function DataRef(name: string): string {
    "/" + DocumentationPodPath + "/" + name
  }

  function TeaserOf(d: ParsedDocument): Teaser {
    Teaser([FormatOf(d)], Truthy(d.metadata.teaserImage))
  }

  function DocumentationHeaderOf(l: Locator, d: ParsedDocument): DocumentationHeader {
    DocumentationHeader(
      false, d.title, DocumentationTemplate, l.orderedCategory,
      l.documentationRoute, "/{locale}" + l.documentationRoute,
      d.description, l.sourceRoute,
      Truthy(d.metadata.author), Truthy(d.metadata.translator), Truthy(d.metadata.contributors))
  }

  /** `_createDocumentation`: the page Grow renders and, next to it, the parsed sample as its data source. */
  function CreateDocumentation(l: Locator, s: ParsedSample): (r: seq<Artifact>)
    ensures |r| == 2
    ensures r[0].content.DocumentationPage? && r[1].content == DocumentationData(s)
    ensures Dirname(r[0].path) == Dirname(r[1].path) == Dirname(l.path)
    ensures forall a <- r :: !a.isSourceFile && !a.isPreview && !a.isEmbed
  {
    var p := l.path;
    DirnameOfSibling(p, ".html");
    DirnameOfSibling(p, ".json");
    var page := Artifact(
      WithExtname(p, ".html"),
      DocumentationPage(DocumentationHeaderOf(l, s.document), ExampleRef(p), TeaserOf(s.document)),
      false, false, false);
    [page, page.(path := WithExtname(p, ".json"), content := DocumentationData(s))]
  }

  /**
   * The page's front matter takes the title and description from the
   * document, and copies `author`, `translator`, `contributors` and the
   * teaser image exactly when they are set to a non-empty value.
   */
  lemma DocumentationHeaderTransfersMetadata(l: Locator, s: ParsedSample)
    ensures var page := CreateDocumentation(l, s)[0].content;
      var h, m := page.header, s.document.metadata;
      && h.title == s.document.title && h.description == s.document.description
      && (h.author.Some? <==> m.author != []) && (h.author.Some? ==> h.author.value == m.author)
      && (h.translator.Some? <==> m.translator != []) && (h.translator.Some? ==> h.translator.value == m.translator)
      && (h.contributors.Some? <==> m.contributors != []) && (h.contributors.Some? ==> h.contributors.value == m.contributors)
      && page.teaser.formats == [FormatOf(s.document)]
      && (page.teaser.teaserImage.Some? <==> m.teaserImage != [])
      && (page.teaser.teaserImage.Some? ==> page.teaser.teaserImage.value == m.teaserImage)
  {
  }

  lemma DirnameNotEmpty(p: string)
    ensures Dirname(p) != []
  {
  }

  /** Changing the extension keeps the file in its directory and renames it to stem plus extension. */
  lemma DirnameOfSibling(p: string, e: string)
    requires '/' !in e
    ensures Dirname(WithExtname(p, e)) == Dirname(p)
    ensures Basename(WithExtname(p, e)) == Stem(p) + e
  {
    DirnameNotEmpty(p);
    assert '/' !in Stem(p) + e;
    assert WithExtname(p, e) == Dirname(p) + "/" + (Stem(p) + e);
    SplitJoin(Dirname(p), Stem(p) + e);
  }

  /** The page's `example` names the data file written next to it. */
  lemma DocumentationPageNamesItsData(l: Locator, s: ParsedSample)
    ensures var r := CreateDocumentation(l, s);
      r[0].content.example == DataRef(Basename(r[1].path))
      && Basename(r[0].path) == Stem(l.path) + ".html"
  {
    var p := l.path;
    var r := CreateDocumentation(l, s);
    assert Basename(r[1].path) == Stem(p) + ".json" by {
      assert r[1].path == WithExtname(p, ".json");
      DirnameOfSibling(p, ".json");
    }
    assert Basename(r[0].path) == Stem(p) + ".html" by {
      assert r[0].path == WithExtname(p, ".html");
      DirnameOfSibling(p, ".html");
    }
    assert r[0].content.example == ExampleRef(p);
  }

  /** `parts.join(sep)` */
  function Join(parts: seq<string>, sep: string): string {
    if parts == [] then [] else if |parts| == 1 then parts[0] else parts[0] + sep + Join(parts[1..], sep)
  }

  /** The lines of the shell every standalone section document is cut from. */
  function BareboneParts(d: ParsedDocument): (r: seq<string>)
    ensures |r| == 9
  {
    [ "<!doctype html>\n<html \U{26A1}>\n<head>",
      d.head,
      "<title>" + d.title + " / " + TitlePlaceholder + "</title>",
      "<style amp-custom>",
      d.styles,
      "</style>\n<meta name=\"robots\" content=\"noindex, nofollow\">\n</head>",
      d.body,
      d.elementsAfterBody,
      SectionPlaceholder + BodyEnd + "\n</html>" ]
  }

  function Barebone(d: ParsedDocument): string {
    Join(BareboneParts(d), "\n")
  }

  /** Everything of the shell before the section slot. */
  function BareboneHead(d: ParsedDocument): string {
    Join(BareboneParts(d)[..8], "\n") + "\n"
  }

  /** The shell ends with the section slot and the closing tags. */
  lemma BareboneShape(d: ParsedDocument)
    ensures Barebone(d) == BareboneHead(d) + SectionPlaceholder + BodyEnd + "\n</html>"
  {
    var parts := BareboneParts(d);
    assert parts == parts[..8] + [parts[8]];
    JoinSnoc(parts[..8], parts[8], "\n");
  }

  lemma {:induction false} JoinSnoc(parts: seq<string>, last: string, sep: string)
    requires parts != []
    decreases |parts|
    ensures Join(parts + [last], sep) == Join(parts, sep) + sep + last
  {
    var ps := parts + [last];
    assert ps[0] == parts[0];
    if |parts| == 1 {
      assert ps[1..] == [last];
    } else {
      assert ps[1..] == parts[1..] + [last];
      JoinSnoc(parts[1..], last, sep);
    }
  }

  /** The full sample, renamed to lower case and moved below a directory named after its category. */
  function FullSourcePath(l: Locator): string {
    var lowered := WithBasename(l.path, Lower(Basename(l.path)));
    WithDirname(lowered, Dirname(lowered) + "/" + l.category)
  }

  function SectionSourcePath(full: string, id: string): string {
    WithExtname(WithBasename(full, Lower(Basename(full))), "-" + id + ".html")
  }

  /** The standalone document of one section: the section's code in the slot, its id in the title. */
  function SectionSource(d: ParsedDocument, full: string, section: Section): Artifact {
    var contents := Replace(Barebone(d), SectionPlaceholder, section.preview);
    Artifact(SectionSourcePath(full, section.id), Source(Replace(contents, TitlePlaceholder, section.id)), true, false, false)
  }

  /** The loop over the sections, which skips those that cannot stand alone. */
  function SectionSources(d: ParsedDocument, full: string, sections: seq<Section>): (r: seq<Artifact>)
    ensures |r| == |Qualifying(sections)|
    ensures forall i :: 0 <= i < |r| ==> r[i] == SectionSource(d, full, Qualifying(sections)[i])
    ensures forall i :: 0 <= i < |r| ==> r[i].path == SectionSourcePath(full, Qualifying(sections)[i].id)
  {
    var q := Qualifying(sections);
    seq(|q|, i requires 0 <= i < |q| => SectionSource(d, full, q[i]))
  }

  /** `_buildRawSources` */
  function BuildRawSources(l: Locator, s: ParsedSample): (r: seq<Artifact>)
    ensures |r| == 1 + if s.document.metadata.standaloneSnippets then |Qualifying(s.document.sections)| else 0
    ensures r[0] == Artifact(FullSourcePath(l), Source(s.source), true, false, false)
    ensures s.document.metadata.standaloneSnippets ==> r[1..] == SectionSources(s.document, FullSourcePath(l), s.document.sections)
    ensures forall a <- r :: a.isSourceFile && a.content.Source?
  {
    var full := Artifact(FullSourcePath(l), Source(s.source), true, false, false);
    if !s.document.metadata.standaloneSnippets then [full]
    else [full] + SectionSources(s.document, full.path, s.document.sections)
  }

  /**
   * When the section slot is the first occurrence of its placeholder and the
   * preview holds no `$`, the section's code lands right before `</body>`.
   */
  lemma SectionLandsBeforeBodyEnd(d: ParsedDocument, preview: string)
    requires forall q :: 0 <= q < |BareboneHead(d)| ==> !OccursAt(Barebone(d), SectionPlaceholder, q)
    requires '$' !in preview
    ensures Replace(Barebone(d), SectionPlaceholder, preview) == BareboneHead(d) + preview + BodyEnd + "\n</html>"
  {
    var prefix := BareboneHead(d);
    BareboneShape(d);
    var b := Barebone(d);
    assert b[|prefix|..|prefix| + |SectionPlaceholder|] == SectionPlaceholder;
    IndexOfAt(b, SectionPlaceholder, |prefix|);
    ReplaceLiteral(b, SectionPlaceholder, preview, |prefix|);
    assert b[..|prefix|] == prefix;
    assert b[|prefix| + |SectionPlaceholder|..] == BodyEnd + "\n</html>";
  }

  /**
   * The preview is a replacement string too: a preview of exactly `$&` puts
   * the placeholder back, so the standalone page loses the section's code.
   */
  lemma SectionPreviewDollarKeepsPlaceholder(d: ParsedDocument)
    requires forall q :: 0 <= q < |BareboneHead(d)| ==> !OccursAt(Barebone(d), SectionPlaceholder, q)
    ensures Replace(Barebone(d), SectionPlaceholder, "$&") == Barebone(d)
  {
    var prefix := BareboneHead(d);
    BareboneShape(d);
    var b := Barebone(d);
    assert b[|prefix|..|prefix| + |SectionPlaceholder|] == SectionPlaceholder;
    IndexOfAt(b, SectionPlaceholder, |prefix|);
    ReplaceWithMatch(b, SectionPlaceholder, |prefix|);
  }

  /** `_createPreview`: only samples that ask for a preview, and all stories, get one. */
  function CreatePreview(l: Locator, s: ParsedSample): (r: seq<Artifact>)
    ensures |r| == if s.document.metadata.preview || s.document.isAmpStory then 1 else 0
    ensures forall a <- r :: a.isPreview && !a.isSourceFile && !a.isEmbed && a.path == l.path
  {
    var d := s.document;
    if !(d.metadata.preview || d.isAmpStory) then []
    else
      var header := PreviewHeader(
        d.title, PreviewTemplate, l.category,
        l.previewRoute, "/{locale}" + l.previewRoute,
        [FormatOf(d)], l.sourceRoute, l.embedRoute);
      [Artifact(l.path, PreviewPage(header, ExampleRef(l.path)), false, true, false)]
  }

  /** The preview reads the same data file as the documentation page. */
  lemma PreviewSharesDocumentationData(l: Locator, s: ParsedSample)
    requires s.document.metadata.preview || s.document.isAmpStory
    ensures CreatePreview(l, s)[0].content.example == CreateDocumentation(l, s)[0].content.example
  {
  }

  /**
   * The front matter ties a sample's pages to its routes: the documentation
   * page is filed under the ordered category at the documentation route, the
   * preview under the display category at the preview route, and both link
   * the source route; the preview also links the embed route.
   */
  lemma HeadersCarryRoutes(root: string, p: string, s: ParsedSample)
    ensures var h := CreateDocumentation(LocatorOf(root, p), s)[0].content.header;
      && h.category == OrderedCategory(root, p)
      && h.path == DocumentationRoute(root, p)
      && h.localizationPath == "/{locale}" + DocumentationRoute(root, p)
      && h.source == SourceRoute(root, p)
    ensures s.document.metadata.preview || s.document.isAmpStory ==>
      var v := CreatePreview(LocatorOf(root, p), s)[0].content.preview;
      && v.category == DisplayCategory(root, p)
      && v.path == PreviewRoute(root, p)
      && v.localizationPath == "/{locale}" + PreviewRoute(root, p)
      && v.source == SourceRoute(root, p)
      && v.embed == EmbedRoute(root, p)
      && v.formats == [FormatOf(s.document)]
  {
  }

  /** The embed's path: moved below its category directory and lower-cased. */
  function EmbedPath(l: Locator): string {
    var moved := WithDirname(l.path, Dirname(l.path) + "/" + l.category);
    WithBasename(moved, Lower(Basename(moved)))
  }

  /** The story embed: the sample with the progress snippet inserted before the first `</body>`. */
  function StoryEmbedText(source: string, snippet: string): string {
    Replace(source, BodyEnd, "<script>" + snippet + "</script>" + BodyEnd)
  }

  /** `_renderEmbed`: stories and ads get an embed; when both flags are set the ads content wins. */
  function RenderEmbed(platformHost: string, snippet: string, l: Locator, s: ParsedSample): (r: seq<Artifact>)
    ensures |r| == if s.document.isAmpStory || s.document.isAmpAds then 1 else 0
    ensures forall a <- r :: a.isEmbed && !a.isSourceFile && !a.isPreview
    ensures forall a <- r :: a.content.AdsEmbed? <==> s.document.isAmpAds
    ensures forall a <- r :: a.path == EmbedPath(l)
    ensures s.document.isAmpAds ==>
      var m := s.document.metadata;
      r == [Artifact(EmbedPath(l), AdsEmbed(AdsContext(m, platformHost + l.documentationRoute, l.sourceRoute, m)), false, false, true)]
    ensures s.document.isAmpStory && !s.document.isAmpAds ==>
      r == [Artifact(EmbedPath(l), StoryEmbed(StoryEmbedText(s.source, snippet)), false, false, true)]
  {
    var d := s.document;
    if !(d.isAmpStory || d.isAmpAds) then []
    else
      var content :=
        if d.isAmpAds then
          AdsEmbed(AdsContext(d.metadata, platformHost + l.documentationRoute, l.sourceRoute, d.metadata))
        else StoryEmbed(StoryEmbedText(s.source, snippet));
      [Artifact(EmbedPath(l), content, false, false, true)]
  }

  /** With a `$`-free snippet the story embed is the sample with the script spliced in before its first `</body>`. */
  lemma StoryEmbedInsertsSnippet(source: string, snippet: string, i: nat)
    requires '$' !in snippet
    requires IndexOf(source, BodyEnd) == Some(i)
    ensures StoryEmbedText(source, snippet) == source[..i] + "<script>" + snippet + "</script>" + BodyEnd + source[i + |BodyEnd|..]
  {
    assert '$' !in "<script>" + snippet + "</script>" + BodyEnd by {
      assert forall c :: c in "<script>" + snippet + "</script>" + BodyEnd ==> c in "<script>" || c in snippet || c in "</script>" || c in BodyEnd;
    }
    ReplaceLiteral(source, BodyEnd, "<script>" + snippet + "</script>" + BodyEnd, i);
  }

  /** A story that is not an ad embeds its source with the script spliced in before the first `</body>`. */
  lemma StoryEmbedOfStory(platformHost: string, snippet: string, l: Locator, s: ParsedSample, i: nat)
    requires s.document.isAmpStory && !s.document.isAmpAds
    requires '$' !in snippet
    requires IndexOf(s.source, BodyEnd) == Some(i)
    ensures RenderEmbed(platformHost, snippet, l, s)[0].content
      == StoryEmbed(s.source[..i] + "<script>" + snippet + "</script>" + BodyEnd + s.source[i + |BodyEnd|..])
  {
    StoryEmbedInsertsSnippet(s.source, snippet, i);
  }

  /** The code preceding the first `</body>` is kept, so a sample without one is embedded unchanged. */
  lemma StoryEmbedWithoutBodyEnd(source: string, snippet: string)
    requires IndexOf(source, BodyEnd).None?
    ensures StoryEmbedText(source, snippet) == source
  {
  }

  /** Everything one kept sample produces, in the order the code pushes it. */
  function SampleArtifacts(platformHost: string, snippet: string, l: Locator, s: ParsedSample): (r: seq<Artifact>)
    ensures |r| == 2 + |BuildRawSources(l, s)| + |CreatePreview(l, s)| + |RenderEmbed(platformHost, snippet, l, s)|
    ensures r[..2] == CreateDocumentation(l, s)
    ensures var b, p := |BuildRawSources(l, s)|, |CreatePreview(l, s)|;
      && (forall i :: 0 <= i < 2 ==> !r[i].isSourceFile && !r[i].isPreview && !r[i].isEmbed)
      && (forall i :: 2 <= i < 2 + b ==> r[i].isSourceFile)
      && (forall i :: 2 + b <= i < 2 + b + p ==> r[i].isPreview && !r[i].isSourceFile && !r[i].isEmbed)
      && (forall i :: 2 + b + p <= i < |r| ==> r[i].isEmbed && !r[i].isSourceFile && !r[i].isPreview)
  {
    CreateDocumentation(l, s) + BuildRawSources(l, s) + CreatePreview(l, s) + RenderEmbed(platformHost, snippet, l, s)
  }
}

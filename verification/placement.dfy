/**
 * The destination callback of the output stream: each file is first moved
 * to `{root}/{display category}`, then the first matching flag picks the
 * output tree (sources, previews, embeds, else documentation); previews and
 * documentation are flattened to the tree's top level.
 */
module Placement {
  import opened Common
  import opened Strings
  import opened Paths
  import opened Category
  import opened Document
  import opened Artifacts

  datatype Destination = SourceTree | PreviewTree | EmbedTree | DocumentationTree

  /** The output tree and the path inside it. */
  function Place(root: string, a: Artifact): (r: (Destination, string))
    ensures r.0 == SourceTree <==> a.isSourceFile
    ensures r.0 == PreviewTree <==> !a.isSourceFile && a.isPreview
    ensures r.0 == EmbedTree <==> !a.isSourceFile && !a.isPreview && a.isEmbed
    ensures r.0 in {PreviewTree, DocumentationTree} ==> r.1 == Basename(a.path) && '/' !in r.1
    ensures r.0 in {SourceTree, EmbedTree} ==> r.1 == DisplayCategory(root, a.path) + "/" + Basename(a.path)
  {
    var inCategory := DisplayCategory(root, a.path) + "/" + Basename(a.path);
    if a.isSourceFile then (SourceTree, inCategory)
    else if a.isPreview then (PreviewTree, Basename(a.path))
    else if a.isEmbed then (EmbedTree, inCategory)
    else (DocumentationTree, Basename(a.path))
  }

  /** Two texts with the same ending are equal exactly when what precedes the ending is. */
  lemma SuffixCancel(x: string, y: string, e: string)
    ensures x + e == y + e <==> x == y
  {
    if x + e == y + e {
      assert |x| == |y|;
      assert (x + e)[..|x|] == x && (y + e)[..|y|] == y;
    }
  }

  /** The documentation page and its data land at the top of the documentation tree, named after the stem. */
  lemma DocumentationPlace(root: string, l: Locator, s: ParsedSample)
    ensures var a := CreateDocumentation(l, s);
      && Place(root, a[0]) == (DocumentationTree, Stem(l.path) + ".html")
      && Place(root, a[1]) == (DocumentationTree, Stem(l.path) + ".json")
  {
    var a := CreateDocumentation(l, s);
    assert a[0].path == WithExtname(l.path, ".html") && a[1].path == WithExtname(l.path, ".json");
    FlatDocumentation(root, a[0], l.path, ".html");
    FlatDocumentation(root, a[1], l.path, ".json");
  }

  /** An unflagged file renamed to `p`'s stem with ending `e` lands at the top of the documentation tree under that name. */
  lemma FlatDocumentation(root: string, a: Artifact, p: string, e: string)
    requires !a.isSourceFile && !a.isPreview && !a.isEmbed
    requires a.path == WithExtname(p, e) && '/' !in e
    ensures Place(root, a) == (DocumentationTree, Stem(p) + e)
  {
    DirnameOfSibling(p, e);
  }

  /**
   * Documentation pages and their data are flattened to the top of their
   * tree, so two samples' documentation files land on the same destination
   * exactly when the samples share a stem, whatever their directories.
   */
  lemma DocumentationPlacedByStem(root: string, p: string, q: string, s1: ParsedSample, s2: ParsedSample)
    ensures var a, b := CreateDocumentation(LocatorOf(root, p), s1), CreateDocumentation(LocatorOf(root, q), s2);
      && (Place(root, a[0]) == Place(root, b[0]) <==> Stem(p) == Stem(q))
      && (Place(root, a[1]) == Place(root, b[1]) <==> Stem(p) == Stem(q))
  {
    DocumentationPlace(root, LocatorOf(root, p), s1);
    DocumentationPlace(root, LocatorOf(root, q), s2);
    SuffixCancel(Stem(p), Stem(q), ".html");
    SuffixCancel(Stem(p), Stem(q), ".json");
  }

  /** The file `foo.html` in a directory has stem `foo` and stays in that directory. */
  lemma FooInDirectory(d: string)
    requires d != ""
    ensures Stem(d + "/foo.html") == "foo" && Dirname(d + "/foo.html") == d
  {
    assert d + "/foo.html" == d + "/" + "foo" + ".html" == d + "/" + "foo.html";
    HtmlName(d, "foo");
    SplitJoin(d, "foo.html");
  }

  /** `a/foo.html` and `b/foo.html` are different samples whose documentation overwrites each other. */
  lemma SameNameInTwoCategoriesCollides(l1: Locator, l2: Locator, s1: ParsedSample, s2: ParsedSample)
    requires l1.path == "/r/a/foo.html" && l2.path == "/r/b/foo.html"
    ensures var a, b := CreateDocumentation(l1, s1), CreateDocumentation(l2, s2);
      && Dirname(a[0].path) != Dirname(b[0].path)
      && Place("/r", a[0]) == Place("/r", b[0])
      && Place("/r", a[1]) == Place("/r", b[1])
  {
    assert l1.path == "/r/a" + "/foo.html" && l2.path == "/r/b" + "/foo.html";
    FooInDirectory("/r/a");
    FooInDirectory("/r/b");
    DocumentationPlace("/r", l1, s1);
    DocumentationPlace("/r", l2, s2);
  }

  /** A file in the sample's directory, or in a subdirectory of it, is in the sample's category. */
  lemma DisplayCategoryOfNeighbour(root: string, p: string, q: string)
    requires StartsWith(Dirname(p), root + "/")
    requires Dirname(q) == Dirname(p) || Dirname(q) == Dirname(p) + "/" + DisplayCategory(root, p)
    ensures DisplayCategory(root, q) == DisplayCategory(root, p)
  {
    if Dirname(q) != Dirname(p) {
      CategoryOfSubdir(root, Dirname(p), DisplayCategory(root, p));
    }
  }

  /** Moving a file into directory `d` under a slash-free name. */
  lemma Moved(d: string, b: string)
    requires d != [] && '/' !in b
    ensures Dirname(d + "/" + b) == d && Basename(d + "/" + b) == b
  {
    SplitJoin(d, b);
  }

  lemma LowerBasename(p: string)
    ensures '/' !in Lower(Basename(p))
  {
    LowerKeepsChar(Basename(p), '/');
  }

  /** The full source lands in the category subdirectory of the sample's directory. */
  lemma FullSourceDir(l: Locator)
    ensures Dirname(FullSourcePath(l)) == Dirname(l.path) + "/" + l.category
  {
    var p := l.path;
    DirnameNotEmpty(p);
    LowerBasename(p);
    var lowered := WithBasename(p, Lower(Basename(p)));
    Moved(Dirname(p), Lower(Basename(p)));
    Moved(Dirname(lowered) + "/" + l.category, Basename(lowered));
  }

  lemma EmbedDir(l: Locator)
    ensures Dirname(EmbedPath(l)) == Dirname(l.path) + "/" + l.category
  {
    var p := l.path;
    var d := Dirname(p) + "/" + l.category;
    var moved := WithDirname(p, d);
    Moved(d, Basename(p));
    LowerBasename(moved);
    Moved(d, Lower(Basename(moved)));
  }

  lemma SectionSourceDir(full: string, id: string)
    requires '/' !in id
    ensures Dirname(SectionSourcePath(full, id)) == Dirname(full)
  {
    DirnameNotEmpty(full);
    LowerBasename(full);
    var renamed := WithBasename(full, Lower(Basename(full)));
    Moved(Dirname(full), Lower(Basename(full)));
    assert '/' !in "-" + id + ".html";
    DirnameOfSibling(renamed, "-" + id + ".html");
  }

  /** The raw sources sit in the category subdirectory of the sample's directory. */
  lemma RawSourceDirs(l: Locator, s: ParsedSample)
    requires forall x <- s.document.sections :: '/' !in x.id
    ensures forall a <- BuildRawSources(l, s) :: Dirname(a.path) == Dirname(l.path) + "/" + l.category
  {
    var raw := BuildRawSources(l, s);
    var full := FullSourcePath(l);
    FullSourceDir(l);
    forall i | 1 <= i < |raw|
      ensures Dirname(raw[i].path) == Dirname(full)
    {
      var q := Qualifying(s.document.sections);
      var ss := SectionSources(s.document, full, s.document.sections);
      assert raw[i] == ss[i - 1];
      assert q[i - 1] in s.document.sections;
      SectionSourceDir(full, q[i - 1].id);
    }
    assert forall a <- raw :: exists i :: 0 <= i < |raw| && raw[i] == a;
  }

  /** Every file a sample produces sits in the sample's directory or in its category subdirectory. */
  lemma ArtifactDirs(platformHost: string, snippet: string, l: Locator, s: ParsedSample)
    requires forall x <- s.document.sections :: '/' !in x.id
    ensures forall a <- SampleArtifacts(platformHost, snippet, l, s) ::
      Dirname(a.path) == Dirname(l.path) || Dirname(a.path) == Dirname(l.path) + "/" + l.category
  {
    var doc := CreateDocumentation(l, s);
    var raw := BuildRawSources(l, s);
    var pre := CreatePreview(l, s);
    var emb := RenderEmbed(platformHost, snippet, l, s);
    RawSourceDirs(l, s);
    assert forall a <- emb :: a.path == EmbedPath(l);
    EmbedDir(l);
    var all := SampleArtifacts(platformHost, snippet, l, s);
    assert all == doc + raw + pre + emb;
    forall a <- all
      ensures Dirname(a.path) == Dirname(l.path) || Dirname(a.path) == Dirname(l.path) + "/" + l.category
    {
      assert a in doc || a in raw || a in pre || a in emb;
    }
  }

  /**
   * Each file of a sample (under the root, with slash-free section ids) is
   * written below the sample's own display category: sources and embeds in
   * a subdirectory named after it, previews and documentation flattened.
   */
  lemma PlacementOfSample(root: string, platformHost: string, snippet: string, p: string, s: ParsedSample)
    requires StartsWith(Dirname(p), root + "/")
    requires forall x <- s.document.sections :: '/' !in x.id
    ensures forall a <- SampleArtifacts(platformHost, snippet, LocatorOf(root, p), s) ::
      Place(root, a).1 == if Place(root, a).0 in {SourceTree, EmbedTree}
                          then DisplayCategory(root, p) + "/" + Basename(a.path)
                          else Basename(a.path)
  {
    ArtifactDirs(platformHost, snippet, LocatorOf(root, p), s);
    forall a <- SampleArtifacts(platformHost, snippet, LocatorOf(root, p), s)
      ensures DisplayCategory(root, a.path) == DisplayCategory(root, p)
    {
      DisplayCategoryOfNeighbour(root, p, a.path);
    }
  }
}

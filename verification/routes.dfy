/**
 * The route builders (`_getBaseRoute` and friends): every URL of a sample is
 * `ROUTE_BASE/{display category}/{lower-cased stem}` plus a fixed suffix.
 * Routes depend on the file path alone, never on the parsed content.
 */
module Routes {
  import opened Common
  import opened Strings
  import opened Paths
  import opened Category

  const RouteBase := "/documentation/examples"

  function BaseRouteOf(category: string, stem: string): string {
    RouteBase + "/" + category + "/" + Lower(stem)
  }

  /** Splits `{category}/{stem}` at its one slash; `None` for anything of another shape. */
  function SplitCategory(rest: string): Option<(string, string)> {
    match IndexOfChar(rest, '/')
    case None => None
    case Some(i) => if '/' in rest[i + 1..] then None else Some((rest[..i], rest[i + 1..]))
  }

  lemma SplitCategoryOf(category: string, name: string)
    requires '/' !in category && '/' !in name
    ensures SplitCategory(category + "/" + name) == Some((category, name))
  {
    var rest := category + "/" + name;
    assert rest == category + ['/'] + name;
    IndexOfCharAfter(category, '/', name);
    assert rest[..|category|] == category;
    assert rest[|category| + 1..] == name;
  }

  /** Reads a base route back into its category and stem; `None` for anything of another shape. */
  function ParseBaseRoute(r: string): Option<(string, string)> {
    if !StartsWith(r, RouteBase + "/") then None
    else SplitCategory(r[|RouteBase + "/"|..])
  }

  lemma ParsePrefixed(rest: string)
    ensures ParseBaseRoute(RouteBase + "/" + rest) == SplitCategory(rest)
  {
    var prefix := RouteBase + "/";
    var r := prefix + rest;
    assert r[..|prefix|] == prefix;
    assert r[|prefix|..] == rest;
  }

  lemma ParseRouteOf(category: string, name: string)
    requires '/' !in category && '/' !in name
    ensures ParseBaseRoute(RouteBase + "/" + category + "/" + name) == Some((category, name))
  {
    var prefix := RouteBase + "/";
    AppendAssoc(prefix + category, "/", name);
    AppendAssoc(prefix, category, "/" + name);
    AppendAssoc(category, "/", name);
    SplitCategoryOf(category, name);
    ParsePrefixed(category + "/" + name);
  }

  lemma ParseBaseRouteOf(category: string, stem: string)
    requires '/' !in category && '/' !in stem
    ensures ParseBaseRoute(BaseRouteOf(category, stem)) == Some((category, Lower(stem)))
  {
    LowerKeepsChar(stem, '/');
    ParseRouteOf(category, Lower(stem));
  }

  /** `_getBaseRoute` */
  function BaseRoute(root: string, path: string): (r: string)
    ensures ParseBaseRoute(r) == Some((DisplayCategory(root, path), Lower(Stem(path))))
  {
    ParseBaseRouteOf(DisplayCategory(root, path), Stem(path));
    BaseRouteOf(DisplayCategory(root, path), Stem(path))
  }

  /** Two samples share a base route exactly when they share the display category and the lower-cased stem. */
  lemma BaseRouteInjective(root: string, p1: string, p2: string)
    ensures BaseRoute(root, p1) == BaseRoute(root, p2) <==>
            DisplayCategory(root, p1) == DisplayCategory(root, p2) && Lower(Stem(p1)) == Lower(Stem(p2))
  {
    var r1, r2 := BaseRoute(root, p1), BaseRoute(root, p2);
    assert ParseBaseRoute(r1) == Some((DisplayCategory(root, p1), Lower(Stem(p1))));
    assert ParseBaseRoute(r2) == Some((DisplayCategory(root, p2), Lower(Stem(p2))));
  }

  /** `/index.html` is appended unless the route already ends with it. */
  function WithIndexSuffix(r: string): (d: string)
    ensures EndsWith(d, IndexSuffix)
    ensures d == r <==> EndsWith(r, IndexSuffix)
    ensures d != r ==> d == r + IndexSuffix
  {
    if EndsWith(r, IndexSuffix) then r
    else
      var d := r + IndexSuffix;
      assert d[|d| - |IndexSuffix|..] == IndexSuffix;
      d
  }

  /** `_getDocumentationRoute` */
  function DocumentationRoute(root: string, path: string): (r: string)
    ensures EndsWith(r, IndexSuffix)
    ensures StartsWith(r, BaseRoute(root, path))
    ensures r == BaseRoute(root, path) <==> EndsWith(BaseRoute(root, path), IndexSuffix)
  {
    WithIndexSuffix(BaseRoute(root, path))
  }

  /** The suffix is added at most once: a second application changes nothing. */
  lemma WithIndexSuffixIdempotent(r: string)
    ensures WithIndexSuffix(WithIndexSuffix(r)) == WithIndexSuffix(r)
  {
  }

  /** `_getPreviewRoute` */
  function PreviewRoute(root: string, path: string): string {
    BaseRoute(root, path) + "/preview/index.html"
  }

  /** `_getSourceRoute` */
  function SourceRoute(root: string, path: string): string {
    BaseRoute(root, path)
  }

  /** `_getEmbedRoute` */
  function EmbedRoute(root: string, path: string): string {
    BaseRoute(root, path) + "/embed"
  }

  /**
   * The documentation, preview, source and embed routes of one sample are
   * distinct, except that the documentation route coincides with the source
   * route when the base route already ends in `/index.html`.
   */
  lemma RoutesDistinct(root: string, path: string)
    ensures PreviewRoute(root, path) != DocumentationRoute(root, path)
    ensures PreviewRoute(root, path) != SourceRoute(root, path)
    ensures PreviewRoute(root, path) != EmbedRoute(root, path)
    ensures EmbedRoute(root, path) != SourceRoute(root, path)
    ensures EmbedRoute(root, path) != DocumentationRoute(root, path)
    ensures DocumentationRoute(root, path) == SourceRoute(root, path) <==> EndsWith(BaseRoute(root, path), IndexSuffix)
  {
    var b := BaseRoute(root, path);
    var d := DocumentationRoute(root, path);
    assert |d| == |b| || |d| == |b| + |IndexSuffix|;
    var e := EmbedRoute(root, path);
    assert e[|e| - 1] == 'd';
    assert d[|d| - 1] == 'l';
  }

  /** A directory-style sample `d/index.html` gets exactly the routes of the flat sample `d.html`. */
  lemma DirectorySampleRoutesLikeFlat(root: string, d: string)
    requires d != ""
    requires !EndsWith(d + ".html", IndexSuffix)
    ensures var dir, flat := NormalizeSamplePath(d + IndexSuffix), NormalizeSamplePath(d + ".html");
            && BaseRoute(root, dir) == BaseRoute(root, flat)
            && DocumentationRoute(root, dir) == DocumentationRoute(root, flat)
            && PreviewRoute(root, dir) == PreviewRoute(root, flat)
            && SourceRoute(root, dir) == SourceRoute(root, flat)
            && EmbedRoute(root, dir) == EmbedRoute(root, flat)
  {
    DirectorySampleIsFlattened(d);
  }

  /** The base route of `root/cat/name.html`, for a dot-free stem. */
  lemma BaseRouteOfSample(root: string, cat: string, name: string)
    requires '/' !in cat && name != "" && '/' !in name && '.' !in name
    ensures BaseRoute(root, root + "/" + cat + "/" + name + ".html") == BaseRouteOf(StripOrdinal(cat), name)
  {
    var d := root + "/" + cat;
    var p := root + "/" + cat + "/" + name + ".html";
    assert p == d + "/" + name + ".html";
    HtmlName(d, name);
    assert Stem(p) == name;
    assert p == d + "/" + (name + ".html");
    SplitJoin(d, name + ".html");
    assert Dirname(p) == d;
    assert d == root + "/" + cat + "";
    CategoryUnderRoot(root, cat, "");
    assert OrderedCategory(root, p) == cat;
    assert DisplayCategory(root, p) == StripOrdinal(cat);
  }

  /** The worked example: `01-category/sample.html` has base route `/documentation/examples/category/sample`. */
  lemma BaseRouteExample(root: string)
    ensures BaseRoute(root, root + "/01-category/sample.html") == RouteBase + "/category/sample"
  {
    assert root + "/01-category/sample.html" == root + "/" + "01-category" + "/" + "sample" + ".html";
    BaseRouteOfSample(root, "01-category", "sample");
    OrdinalExample();
    assert BaseRoute(root, root + "/01-category/sample.html") == BaseRouteOf("category", "sample");
    ExampleRouteText();
  }

  lemma ExampleRouteText()
    ensures BaseRouteOf("category", "sample") == RouteBase + "/category/sample"
  {
    LowerOfLowercase("sample");
    assert "/" + "category" + "/" + "sample" == "/category/sample";
  }

  /** ... and documentation route `/documentation/examples/category/sample/index.html`. */
  lemma DocumentationRouteExample(root: string)
    ensures DocumentationRoute(root, root + "/01-category/sample.html") == RouteBase + "/category/sample" + IndexSuffix
  {
    BaseRouteExample(root);
    var b := RouteBase + "/category/sample";
    assert b[|b| - 1] != IndexSuffix[|IndexSuffix| - 1];
    assert WithIndexSuffix(b) == b + IndexSuffix;
  }
}

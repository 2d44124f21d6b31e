/**
 * One build run without the stream around it: each sample is parsed,
 * filtered by the draft gate, filed in the sitemap when it is listed, and
 * fanned out into its files; the run is a left fold over the samples
 * followed by the sitemap restructuring.
 */
module Pipeline {
  import opened Common
  import opened Strings
  import opened AssocList
  import opened Paths
  import opened Category
  import opened Routes
  import opened SampleFormat
  import opened Markdown
  import opened Document
  import opened Artifacts
  import opened Sitemap

  const ApiHost := "https://amp-by-example-api.appspot.com"
  const BackendHost := "https://ampbyexample.com"
  const Development := "development"

  /**
   * The configuration and file contents a run reads: the sample root, the
   * environment name, the hosts, the repository prefix cut from file paths,
   * the story embed snippet, and each category directory's public name
   * (its `index.json` descriptor), keyed by the ordered category.
   */
  datatype Env = Env(
    root: string,
    environment: string,
    platformHost: string,
    previewHost: string,
    previewBase: string,
    repoRoot: string,
    storySnippet: string,
    descriptors: map<string, string>)

  /** The options the external parser is called with. */
  datatype ParserContext = ParserContext(
    basePath: string,
    canonical: string,
    preview: string,
    platform: string,
    api: string,
    backend: string,
    previewBase: string)

  /** The code this model does not contain: the markdown helpers, the digest and the sample parser (`None` when it throws). */
  datatype Externals = Externals(helpers: Helpers, parse: (string, ParserContext) -> Option<ParsedSample>)

  /** The parser options, built from the flattened path `p`. */
  function ContextFor(env: Env, p: string): ParserContext {
    ParserContext(
      env.platformHost + BaseRoute(env.root, p),
      env.platformHost + DocumentationRoute(env.root, p),
      env.platformHost + PreviewRoute(env.root, p),
      env.platformHost, ApiHost, BackendHost, env.previewBase)
  }

  /** A directory sample is parsed with exactly the options of its flat twin. */
  lemma DirectorySampleContext(env: Env, d: string)
    requires d != ""
    ensures ContextFor(env, NormalizeSamplePath(d + IndexSuffix)) == ContextFor(env, d + ".html")
  {
    DirectorySampleIsFlattened(d);
  }

  /**
   * `_parseSample`: the parser reads the file at its original path, while
   * the options and the recorded route use the flattened path.
   */
  function ParseSample(env: Env, ext: Externals, samplePath: string): (r: Option<ParsedSample>)
    ensures r.Some? ==> r.value.route == DocumentationRoute(env.root, NormalizeSamplePath(samplePath))
    ensures r.Some? <==> ext.parse(samplePath, ContextFor(env, NormalizeSamplePath(samplePath))).Some?
  {
    var p := NormalizeSamplePath(samplePath);
    match ext.parse(samplePath, ContextFor(env, p))
    case None => None
    case Some(raw) => Some(AdaptParsed(ext.helpers, env.root, env.repoRoot, p, raw))
  }

  /** Drafts are built only in development. */
  predicate Skipped(env: Env, s: ParsedSample) {
    s.document.metadata.draft && env.environment != Development
  }

  /** Samples that show up in the playground. */
  predicate Listed(s: ParsedSample) {
    !s.document.metadata.disablePlayground && !s.document.metadata.drafts
  }

  /** The sitemap entry of a sample. */
  function ExampleOf(env: Env, p: string, s: ParsedSample): Example {
    Example(s.document.title, env.previewHost + SourceRoute(env.root, p))
  }

  /**
   * The per-sample step. A parser failure, and a listed sample whose
   * category has no descriptor, raise inside the step's `try`: the sample
   * then contributes nothing and the sitemap stays as it was.
   */
  function BuildSample(env: Env, ext: Externals, acc: Accumulator, samplePath: string): (r: (seq<Artifact>, Accumulator))
  {
    match ParseSample(env, ext, samplePath)
    case None => ([], acc)
    case Some(s) =>
      var p := NormalizeSamplePath(samplePath);
      var files := SampleArtifacts(env.platformHost, env.storySnippet, LocatorOf(env.root, p), s);
      if Skipped(env, s) then ([], acc)
      else if !Listed(s) then (files, acc)
      else if OrderedCategory(env.root, p) !in env.descriptors then ([], acc)
      else (files, AddToSitemap(acc, FormatOf(s.document), env.descriptors[OrderedCategory(env.root, p)], ExampleOf(env, p, s)))
  }

  /** A draft outside development yields no file and no sitemap entry. */
  lemma DraftYieldsNothing(env: Env, ext: Externals, acc: Accumulator, samplePath: string)
    requires ParseSample(env, ext, samplePath).Some?
    requires ParseSample(env, ext, samplePath).value.document.metadata.draft
    requires env.environment != Development
    ensures BuildSample(env, ext, acc, samplePath) == ([], acc)
  {
  }

  /**
   * A kept sample yields, in order, the documentation page and data, its raw
   * sources, a preview exactly when it asks for one or is a story, and an
   * embed exactly when it is a story or an ad.
   */
  lemma FanOut(env: Env, ext: Externals, acc: Accumulator, samplePath: string)
    requires ParseSample(env, ext, samplePath).Some?
    requires var s := ParseSample(env, ext, samplePath).value;
      !Skipped(env, s) && (Listed(s) ==> OrderedCategory(env.root, NormalizeSamplePath(samplePath)) in env.descriptors)
    ensures var s := ParseSample(env, ext, samplePath).value;
      var l := LocatorOf(env.root, NormalizeSamplePath(samplePath));
      var files := BuildSample(env, ext, acc, samplePath).0;
      && files == CreateDocumentation(l, s) + BuildRawSources(l, s) + CreatePreview(l, s) + RenderEmbed(env.platformHost, env.storySnippet, l, s)
      && |files| == 2 + |BuildRawSources(l, s)|
                  + (if s.document.metadata.preview || s.document.isAmpStory then 1 else 0)
                  + (if s.document.isAmpStory || s.document.isAmpAds then 1 else 0)
  {
  }

  /** A kept, listed sample adds exactly its own example at the end of its format and category. */
  lemma ListedSampleIsFiled(env: Env, ext: Externals, acc: Accumulator, samplePath: string)
    requires ParseSample(env, ext, samplePath).Some?
    requires var s := ParseSample(env, ext, samplePath).value;
      !Skipped(env, s) && Listed(s) && OrderedCategory(env.root, NormalizeSamplePath(samplePath)) in env.descriptors
    ensures var s := ParseSample(env, ext, samplePath).value;
      var p := NormalizeSamplePath(samplePath);
      var name := env.descriptors[OrderedCategory(env.root, p)];
      var acc' := BuildSample(env, ext, acc, samplePath).1;
      && Examples(acc', FormatOf(s.document), name) == Examples(acc, FormatOf(s.document), name) + [ExampleOf(env, p, s)]
      && forall f, n :: f != FormatOf(s.document) || n != name ==> Examples(acc', f, n) == Examples(acc, f, n)
  {
    var s := ParseSample(env, ext, samplePath).value;
    var p := NormalizeSamplePath(samplePath);
    var name := env.descriptors[OrderedCategory(env.root, p)];
    assert BuildSample(env, ext, acc, samplePath).1 == AddToSitemap(acc, FormatOf(s.document), name, ExampleOf(env, p, s));
    AddAppendsExample(acc, FormatOf(s.document), name, ExampleOf(env, p, s));
    forall f, n | f != FormatOf(s.document) || n != name
      ensures Examples(AddToSitemap(acc, FormatOf(s.document), name, ExampleOf(env, p, s)), f, n) == Examples(acc, f, n)
    {
      AddKeepsOtherExamples(acc, FormatOf(s.document), name, ExampleOf(env, p, s), f, n);
    }
  }

  /** A sample that is not listed leaves the sitemap alone. */
  lemma UnlistedSampleIsNotFiled(env: Env, ext: Externals, acc: Accumulator, samplePath: string)
    requires ParseSample(env, ext, samplePath).Some? ==> !Listed(ParseSample(env, ext, samplePath).value)
    ensures BuildSample(env, ext, acc, samplePath).1 == acc
  {
  }

  /** The documentation page is published at the route recorded in the parsed sample. */
  lemma PageAtRecordedRoute(env: Env, ext: Externals, samplePath: string)
    requires ParseSample(env, ext, samplePath).Some?
    ensures var s := ParseSample(env, ext, samplePath).value;
      var l := LocatorOf(env.root, NormalizeSamplePath(samplePath));
      CreateDocumentation(l, s)[0].content.header.path == s.route
  {
  }

  /** A per-sample step: the files it pushes and the sitemap it leaves. */
  type Step = (Accumulator, string) -> (seq<Artifact>, Accumulator)

  /** Feeding the samples through a step in stream order, each seeing the sitemap the previous ones left. */
  function Fold(step: Step, acc: Accumulator, samples: seq<string>): (seq<Artifact>, Accumulator)
    decreases |samples|
  {
    if samples == [] then ([], acc)
    else
      var first := step(acc, samples[0]);
      var rest := Fold(step, first.1, samples[1..]);
      (first.0 + rest.0, rest.1)
  }

  /** Folding two batches one after the other is folding them together. */
  lemma {:induction false} FoldConcat(step: Step, acc: Accumulator, xs: seq<string>, ys: seq<string>)
    decreases |xs|
    ensures var first := Fold(step, acc, xs);
      var second := Fold(step, first.1, ys);
      Fold(step, acc, xs + ys) == (first.0 + second.0, second.1)
  {
    if xs == [] {
      assert xs + ys == ys;
      var second := Fold(step, acc, ys);
      assert [] + second.0 == second.0;
    } else {
      var head := step(acc, xs[0]);
      var tail := Fold(step, head.1, xs[1..]);
      var second := Fold(step, tail.1, ys);
      assert (xs + ys)[0] == xs[0];
      assert (xs + ys)[1..] == xs[1..] + ys;
      FoldConcat(step, head.1, xs[1..], ys);
      AppendAssoc(head.0, tail.0, second.0);
    }
  }

  /** Steps that never touch the sitemap leave it as it was after any number of samples. */
  lemma {:induction false} FoldKeepsSitemap(step: Step, acc: Accumulator, samples: seq<string>)
    requires forall a, x :: x in samples ==> step(a, x).1 == a
    decreases |samples|
    ensures Fold(step, acc, samples).1 == acc
  {
    if samples != [] {
      assert samples[0] in samples;
      assert forall x :: x in samples[1..] ==> x in samples;
      FoldKeepsSitemap(step, acc, samples[1..]);
    }
  }

  function StepOf(env: Env, ext: Externals): Step {
    (acc, samplePath) => BuildSample(env, ext, acc, samplePath)
  }

  /** The whole stream of one run. */
  function Run(env: Env, ext: Externals, samples: seq<string>): (seq<Artifact>, Accumulator) {
    Fold(StepOf(env, ext), [], samples)
  }

  /** A run where no sample is listed files nothing in the sitemap. */
  lemma UnlistedRunFilesNothing(env: Env, ext: Externals, samples: seq<string>)
    requires forall x <- samples :: ParseSample(env, ext, x).Some? ==> !Listed(ParseSample(env, ext, x).value)
    ensures Run(env, ext, samples).1 == []
  {
    forall a, x | x in samples
      ensures StepOf(env, ext)(a, x).1 == a
    {
      UnlistedSampleIsNotFiled(env, ext, a, x);
    }
    FoldKeepsSitemap(StepOf(env, ext), [], samples);
  }

  /** The whole run: every sample's files in stream order, then the finished sitemap. */
  function Build(env: Env, ext: Externals, samples: seq<string>): (r: (seq<Artifact>, Index))
    ensures forall f: Format, n :: IndexedExamples(r.1, f.Name(), n) == Examples(Run(env, ext, samples).1, f, n)
  {
    var (files, acc) := Run(env, ext, samples);
    assert forall f: Format, n :: IndexedExamples(Finalize(acc), f.Name(), n) == Examples(acc, f, n) by {
      forall f: Format, n {
        FinalizeKeepsExamples(acc, f, n);
      }
    }
    (files, Finalize(acc))
  }
}

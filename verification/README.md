# SamplesBuilder, modelled in Dafny

This project models the decision and text logic of `SamplesBuilder`, the build
step of amp.dev that turns the HTML samples under `examples/source` into the
documents that Grow renders and the playground uses. Each sample is handled
in these steps:

- The sample is parsed by an external parser. The parser runs on a context of
  routes derived from the file path, and a directory-style sample
  `…/foo/index.html` is routed as if it were `…/foo.html`.
- The markdown of every section is normalised. Code blocks are spliced out,
  whitespace is collapsed in two regular-expression passes, and the blocks
  are restored.
- Drafts are dropped outside the development environment.
- Listed samples are filed into an insertion-ordered sitemap, keyed by format
  and then by category.
- The sample fans out into artifacts, in this order: a documentation page and
  its JSON data, the raw sources (the full source and one standalone file per
  qualifying section), a preview and an embed.
- Each artifact is placed in one of four destination trees.

After the last sample, the sitemap is restructured into the playground's
index.

The modules follow the builder's structure:

| module | file | concern |
|---|---|---|
| `Common` | common.dfy | `Option`, distinctness, and regrouping of concatenation |
| `Strings` | strings.dfy | the parts of JavaScript's `String.prototype` the builder uses. `replace` replaces the first occurrence only and expands `$` patterns (GetSubstitution, section 22.1.3.19.1 of ECMA-262) |
| `AssocList` | assoclist.dfy | JavaScript objects as insertion-ordered association lists |
| `Paths` | paths.dfy | Node's `path` and Vinyl's `dirname`/`basename`/`stem`/`extname` accessors and setters |
| `Category` | category.dfy | `_getCategory` and its memo table |
| `Routes` | routes.dfy | `_getBaseRoute`, `_getDocumentationRoute`, `_getPreviewRoute`, `_getSourceRoute`, `_getEmbedRoute` |
| `SampleFormat` | format.dfy | `_getSampleFormat` |
| `CodeBlocks` | codeblocks.dfy | the lazy `/\[sourcecode.*?\[\/sourcecode]/gms` scan |
| `Collapse` | collapse.dfy | the passes `replace(/^\s+/gm, '\n')` and `replace(/(\n +\|\n{2,})/gm, '\n\n')` |
| `Markdown` | markdown.dfy | the per-section loop of `_parseSample`, both as written and as intended |
| `MarkdownFindings` | findings.dfy | two inputs on which the as-written loop loses a code block |
| `Document` | document.dfy | the parser's output as records, the standalone-section filter, and the adaptation done in `_parseSample` |
| `Artifacts` | artifacts.dfy | `_createDocumentation`, `_getTeaserData`, `_buildRawSources`, `_createPreview`, `_renderEmbed` |
| `Placement` | placement.dfy | the destination callback of `gulp.dest` |
| `Sitemap` | sitemap.dfy | `_addToSitemap` and the restructuring half of `_generateSitemap` |
| `Pipeline` | pipeline.dfy | the per-sample stream step, and a run as a sequential fold over the samples |

The following are parameters of the model:

- the parser;
- the two markdown helpers from `markdownDocument.js`;
- the SHA-1/base64 digest;
- the story embed snippet;
- the configured hosts;
- the environment name;
- the category descriptors, as a map from ordered category to `publicName`.

Front matter, JSON data and the ads template context are records, not
serialised bytes.

## Model

| member | source | states |
|---|---|---|
| `Strings.ReplaceLiteral` | platform/lib/build/samplesBuilder.js:578 | a `replace` with a `$`-free replacement substitutes it for the first occurrence of the pattern and keeps the rest of the text |
| `Strings.RemovePrefix` | platform/lib/build/samplesBuilder.js:345 | replacing a prefix with the empty string removes exactly that prefix |
| `Strings.Lower` | platform/lib/build/samplesBuilder.js:366 | `toLowerCase` keeps the length and lower-cases each character in place |
| `Paths.SplitJoin` | platform/lib/build/samplesBuilder.js:177 | setting a file's directory and base name and reading them back gives the same two parts |
| `Paths.DirectorySampleIsFlattened` | platform/lib/build/samplesBuilder.js:215-217 | a sample `d/index.html` is renamed to `d.html` before anything else is derived from its path |
| `Category.FirstSegment` | platform/lib/build/samplesBuilder.js:346 | `split('/')[0]` is the slash-free prefix that ends at the first slash or at the end of the text |
| `Category.CategoryUnderRoot` | platform/lib/build/samplesBuilder.js:345-346 | a file in `root/cat/…` has the ordered category `cat` |
| `Category.CategoryOfSubdir` | platform/lib/build/samplesBuilder.js:345-346 | a nested directory belongs to the category of the directory that contains it |
| `Category.OrdinalPrefixIsLongestMatch` | platform/lib/build/samplesBuilder.js:353 | the removed prefix is the longest match of `^\d+.` (digits, then one character that is not a line terminator); nothing is removed exactly when there is no match |
| `Category.DisplayCategory` | platform/lib/build/samplesBuilder.js:352-354 | the display category never contains a slash |
| `Category.CategoryExample` | platform/lib/build/samplesBuilder.js:341-357 | `01-category/sample.html` has the ordered category `01-category` and the display category `category` |
| `Category.Memo` | platform/lib/build/samplesBuilder.js:343-349 | when any entry already present agrees with the derivation, the answer is the derived value, the table holds it under the path, its keys grow by exactly the path, and every other entry is unchanged |
| `Category.GetCategory` | platform/lib/build/samplesBuilder.js:341-357 | with a sound memo table, the answer is the derived category (ordered or stripped, as asked); the table stays sound, gains the path, and keeps every earlier entry |
| `Category.GetCategoryIsStable` | platform/lib/build/samplesBuilder.js:343-349 | asking again for the same path leaves the memo table unchanged and repeats the answer |
| `Routes.BaseRoute` | platform/lib/build/samplesBuilder.js:365-367 | the base route reads back as `ROUTE_BASE` followed by the display category and the lower-cased stem |
| `Routes.BaseRouteInjective` | platform/lib/build/samplesBuilder.js:365-367 | two samples share a base route exactly when they share the display category and the lower-cased stem |
| `Routes.WithIndexSuffix` | platform/lib/build/samplesBuilder.js:377-379 | the result ends in `/index.html`; it is the input exactly when the input already ends so, and otherwise the input plus `/index.html` |
| `Routes.DocumentationRoute` | platform/lib/build/samplesBuilder.js:375-381 | the documentation route extends the base route and ends in `/index.html` |
| `Routes.WithIndexSuffixIdempotent` | platform/lib/build/samplesBuilder.js:377-379 | `/index.html` is appended at most once |
| `Routes.RoutesDistinct` | platform/lib/build/samplesBuilder.js:375-412 | the preview and embed routes differ from each other and from the other routes; the documentation and source routes coincide exactly when the base route already ends in `/index.html` |
| `Routes.DirectorySampleRoutesLikeFlat` | platform/lib/build/samplesBuilder.js:215-217 | `d/index.html` gets the base, documentation, preview, source and embed routes of `d.html` |
| `Routes.DocumentationRouteExample` | platform/lib/build/samplesBuilder.js:365-381 | `01-category/sample.html` is documented at `/documentation/examples/category/sample/index.html` |
| `SampleFormat.Classify` | platform/lib/build/samplesBuilder.js:497-510 | each bucket is chosen exactly when its flag is the first one set, and `websites` exactly when no flag is set |
| `SampleFormat.ClassifyIsPriorityChain` | platform/lib/build/samplesBuilder.js:497-510 | classification is the first-match chain story, ads, email, with `websites` as the fallback |
| `SampleFormat.FormatNameRoundTrip` | platform/lib/build/samplesBuilder.js:497-510 | the four bucket names are distinct and each reads back as its bucket |
| `CodeBlocks.BlockAt` | platform/lib/build/samplesBuilder.js:247 | a match of the lazy pattern starts with `[sourcecode` and ends at the first `[/sourcecode]` after it |
| `CodeBlocks.BlockAtNone` | platform/lib/build/samplesBuilder.js:247 | when no match is found at the start of the text, no prefix of the text is a block |
| `CodeBlocks.Splice` | platform/lib/build/samplesBuilder.js:246-256 | the section splits into gaps and code blocks that weave back into the same text; every block is a whole `[sourcecode…[/sourcecode]` match |
| `CodeBlocks.SpliceIsLeftmost` | platform/lib/build/samplesBuilder.js:247-248 | the global scan takes the leftmost match: no match starts inside the first gap, the first block is the match where that gap ends, and the rest is the scan of what follows it |
| `CodeBlocks.WeaveSplit` | platform/lib/build/samplesBuilder.js:248-256 | a woven text is the part before slot `k`, the item in slot `k`, and the part after it |
| `Collapse.LeadingSpaceToNewlineTidy` | platform/lib/build/samplesBuilder.js:259 | after the first pass, a newline is followed by visible text, by the end, or by one more newline and then visible text or the end |
| `Collapse.BlankRunCollapseOfTidy` | platform/lib/build/samplesBuilder.js:263 | the second pass changes nothing in a text the first pass has produced |
| `Collapse.CollapseWhitespaceIsCollapsed` | platform/lib/build/samplesBuilder.js:258-263 | after both passes no newline is followed by a space or a tab, and no three newlines occur in a row |
| `Collapse.CollapseWhitespaceKeepsVisible` | platform/lib/build/samplesBuilder.js:258-263 | both passes together change whitespace only: the text without its whitespace is unchanged |
| `Collapse.LeadingSpaceToNewlineConcat` | platform/lib/build/samplesBuilder.js:259 | the first pass splits over a concatenation whose second part starts with visible text, with the line-start state carried across |
| `Collapse.CollapseGaps` | platform/lib/build/samplesBuilder.js:258-263 | collapsing gaps separately collapses each one, and only the first can start at a line start |
| `Collapse.CollapseWeave` | platform/lib/build/samplesBuilder.js:255-263 | with whitespace-free placeholders in the slots, collapsing the whole text is the same as collapsing each gap on its own |
| `Markdown.NormalizeSection` | platform/lib/build/samplesBuilder.js:239-272 | the result is the section's own code blocks, verbatim and in order, woven between gaps of which the i-th is exactly `CollapseWhitespace` of the i-th original gap (leading-line rule on the first gap only); every such gap is collapsed and keeps the visible text of its original, so the section's visible text is unchanged |
| `Markdown.RecordDistinct` | platform/lib/build/samplesBuilder.js:246-256 | with distinct digests the block table holds every digest–block pair once, in match order |
| `Markdown.RestoreStep` | platform/lib/build/samplesBuilder.js:268 | restoring one placeholder whose first occurrence is its own slot fills exactly that slot |
| `Markdown.AsWrittenMatchesIntended` | platform/lib/build/samplesBuilder.js:239-272 | the as-written loop equals the intended normalisation when the digests are distinct and whitespace-free, no block contains `$`, and no placeholder occurs before its own slot |
| `MarkdownFindings.DuplicateBlockLeavesPlaceholder` | platform/lib/build/samplesBuilder.js:254 | a section holding the same code block twice keeps the second copy's placeholder as written |
| `MarkdownFindings.DollarPatternCorruptsBlock` | platform/lib/build/samplesBuilder.js:268 | a code block containing `$&` comes back with the placeholder in place of `$&` as written |
| `Document.BlankIsAllSpace` | platform/lib/build/samplesBuilder.js:574 | `replace(/\s/g, '') == ''` holds exactly when every character is whitespace |
| `Document.Qualifying` | platform/lib/build/samplesBuilder.js:572-576 | a section is kept exactly when it is a section of the input with a non-blank preview that is in the body, and no more sections come out than went in |
| `Document.QualifyingConcat` | platform/lib/build/samplesBuilder.js:572-576 | the filter keeps section order: filtering a concatenation concatenates the filtered parts |
| `Document.NormalizeSections` | platform/lib/build/samplesBuilder.js:239-272 | one output section per input section, in order; each is its input with only the markdown replaced by `Markdown.NormalizeSection` of it, so id, preview and body flag are kept and the visible text is unchanged |
| `Document.NormalizeKeepsQualifying` | platform/lib/build/samplesBuilder.js:239-272 | normalising markdown does not change which sections qualify as standalone |
| `Document.AdaptParsed` | platform/lib/build/samplesBuilder.js:231-272 | the parsed sample gets the documentation route, keeps its source and section count, and loses the repository prefix of its file path; its sections are the input's sections, in order, each with only its markdown replaced by `Markdown.NormalizeSection` of it |
| `Artifacts.CreateDocumentation` | platform/lib/build/samplesBuilder.js:420-470 | there are exactly two artifacts, the page and the parsed sample as data, side by side in the sample's directory and flagged as neither source, preview nor embed |
| `Artifacts.DocumentationPageNamesItsData` | platform/lib/build/samplesBuilder.js:457-467 | the page's `example` reference names the data file's base name, and the page is the sample's stem with `.html` |
| `Artifacts.DocumentationHeaderTransfersMetadata` | platform/lib/build/samplesBuilder.js:427-487 | the documentation page's header takes title and description from the document; author, translator and contributors are each set exactly when the metadata value is non-empty, and then unchanged; the teaser lists the sample's format and carries the teaser image exactly when it is non-empty |
| `Artifacts.BareboneShape` | platform/lib/build/samplesBuilder.js:560-570 | the barebone document ends with the section placeholder, `</body>` and `</html>` |
| `Artifacts.SectionLandsBeforeBodyEnd` | platform/lib/build/samplesBuilder.js:578 | a `$`-free preview replaces the section placeholder, just before `</body>`, when the placeholder does not occur earlier |
| `Artifacts.SectionSources` | platform/lib/build/samplesBuilder.js:572-588 | there is one standalone file per qualifying section, in section order, each named `-{id}.html` after the full source |
| `Artifacts.BuildRawSources` | platform/lib/build/samplesBuilder.js:539-591 | the full source comes first and is the only artifact without `standaloneSnippets`; with the flag, the qualifying sections' files follow; all are source files |
| `Artifacts.CreatePreview` | platform/lib/build/samplesBuilder.js:639-669 | one preview exactly when `metadata.preview` is set or the sample is a story, flagged as a preview at the sample's path |
| `Artifacts.HeadersCarryRoutes` | platform/lib/build/samplesBuilder.js:433-444 | the documentation page is filed under the ordered category at the documentation route and links the source route; a preview is filed under the display category at the preview route, links the source and embed routes, and carries the sample's format |
| `Artifacts.PreviewSharesDocumentationData` | platform/lib/build/samplesBuilder.js:664 | the preview and the documentation page reference the same JSON data |
| `Artifacts.RenderEmbed` | platform/lib/build/samplesBuilder.js:600-631 | one embed exactly when the sample is a story or an ad, at the lower-cased path below the category directory; an ad gets the ads template context (documentation URL on the platform host, source route, metadata), which wins over a story; a story that is not an ad gets its source with the snippet script inserted |
| `Artifacts.StoryEmbedOfStory` | platform/lib/build/samplesBuilder.js:609-614 | with a `$`-free snippet, a story's embed is its source with `<script>` + snippet + `</script>` placed just before the first `</body>` |
| `Artifacts.StoryEmbedInsertsSnippet` | platform/lib/build/samplesBuilder.js:609-614 | the story snippet is inserted in a `<script>` just before the first `</body>` |
| `Artifacts.SectionPreviewDollarKeepsPlaceholder` | platform/lib/build/samplesBuilder.js:578 | the preview is expanded as a replacement string: a preview of `$&` puts the section placeholder back, so the page keeps the placeholder instead of the section |
| `Artifacts.StoryEmbedWithoutBodyEnd` | platform/lib/build/samplesBuilder.js:611 | a source without `</body>` is embedded unchanged |
| `Artifacts.SampleArtifacts` | platform/lib/build/samplesBuilder.js:158-163 | the first two artifacts (the documentation pair) carry no flag; then come the raw sources, all flagged as source files; then the previews, flagged as previews only; then the embeds, flagged as embeds only |
| `Placement.Place` | platform/lib/build/samplesBuilder.js:176-191 | the source, preview and embed flags are checked in that order, and the documentation tree is the fallback; previews and documentation are flattened to their base name, and sources and embeds keep a display-category directory |
| `Placement.DocumentationPlace` | platform/lib/build/samplesBuilder.js:186-189 | a sample's documentation page and data land in the documentation tree as the sample's stem with `.html` and `.json`, whatever its category directory |
| `Placement.FlatDocumentation` | platform/lib/build/samplesBuilder.js:186-189 | an unflagged file named after a stem lands at the top of the documentation tree under that name, whatever its directory |
| `Placement.DocumentationPlacedByStem` | platform/lib/build/samplesBuilder.js:186-189 | two samples' documentation pages (and data files) land on the same destination exactly when their file stems are equal |
| `Placement.SameNameInTwoCategoriesCollides` | platform/lib/build/samplesBuilder.js:186-189 | `/r/a/foo.html` and `/r/b/foo.html` live in different directories, yet their documentation pages, and their data files, land on the same destination |
| `Placement.RawSourceDirs` | platform/lib/build/samplesBuilder.js:546-585 | every raw source lies in the display-category subdirectory of the sample's directory |
| `Placement.PlacementOfSample` | platform/lib/build/samplesBuilder.js:176-191 | every artifact of a sample lands in its destination tree under the sample's display category, or flattened |
| `Sitemap.AddToSitemap` | platform/lib/build/samplesBuilder.js:283-300 | a new format key or category key is appended after the existing ones; existing keys keep their order |
| `Sitemap.AddAppendsExample` | platform/lib/build/samplesBuilder.js:288-298 | the example is appended to the end of its format and category |
| `Sitemap.AddKeepsOtherExamples` | platform/lib/build/samplesBuilder.js:283-300 | every other format and category keeps its examples |
| `Sitemap.Finalize` | platform/lib/build/samplesBuilder.js:308-314 | each format becomes `{title: format, name: format, categories}`, in insertion order |
| `Sitemap.FinalizeCategories` | platform/lib/build/samplesBuilder.js:315-320 | categories become `{name, examples}` entries in insertion order |
| `Sitemap.FinalizeKeepsExamples` | platform/lib/build/samplesBuilder.js:307-321 | restructuring preserves every format's and category's examples |
| `Pipeline.DirectorySampleContext` | platform/lib/build/samplesBuilder.js:212-229 | the parser context of `d/index.html` is that of `d.html` |
| `Pipeline.ParseSample` | platform/lib/build/samplesBuilder.js:212-275 | a sample parses exactly when the parser accepts it, and then carries the documentation route of its normalised path |
| `Pipeline.DraftYieldsNothing` | platform/lib/build/samplesBuilder.js:145-149 | a draft outside development yields no artifacts and leaves the sitemap unchanged |
| `Pipeline.FanOut` | platform/lib/build/samplesBuilder.js:156-163 | a sample that is not skipped yields documentation, raw sources, preview and embed in that order: two documentation artifacts, its raw sources, one preview exactly when `metadata.preview` is set or it is a story, and one embed exactly when it is a story or an ad |
| `Pipeline.ListedSampleIsFiled` | platform/lib/build/samplesBuilder.js:151-154 | a listed sample appends exactly its `{title, previewHost + sourceRoute}` entry under its format and category `publicName` |
| `Pipeline.UnlistedSampleIsNotFiled` | platform/lib/build/samplesBuilder.js:151-154 | a sample with `disablePlayground` or `drafts` leaves the sitemap unchanged |
| `Pipeline.PageAtRecordedRoute` | platform/lib/build/samplesBuilder.js:236 | the route recorded on the parsed sample is the `$path` of its documentation page |
| `Pipeline.FoldConcat` | platform/lib/build/samplesBuilder.js:140-174 | a run over two batches of samples is the first batch's run followed by the second's, with the sitemap carried over |
| `Pipeline.UnlistedRunFilesNothing` | platform/lib/build/samplesBuilder.js:151-154 | a run over samples that are all unlisted ends with an empty sitemap |
| `Pipeline.Build` | platform/lib/build/samplesBuilder.js:307-321 | the finished index lists, for every format and category, exactly the examples the run accumulated |

## Left out

- Orchestration and I/O are left out: the gulp stream, `gulp-once`, `del` cleaning, watch mode, promises, file reads, and the `wx+` write of the sitemap. That write fails when the file already exists, and its `catch` logs `Samples sitemap already exists` for any write error. A run is modelled as a sequential fold of the per-sample step.
- `abe.parseSample` is not part of this model. It is a parameter that returns a parsed sample or nothing. A parser that throws, and a listed sample whose category descriptor is missing, both end in the builder's `catch`: that sample contributes nothing. The model returns no artifacts and the unchanged sitemap for it.
- `MarkdownDocument.rewriteCodeBlocks` and `escapeMustacheTags` are not part of this model. They are uninterpreted functions.
- The SHA-1/base64 digest is an uninterpreted function. The theorem relating the two normalisations states what it needs of it (distinct and whitespace-free digests).
- `yaml.safeDump`, `JSON.stringify` and `nunjucks.renderString` are library serialisers. Front matter, data and the ads template context are records; the byte layout is not modelled.
- `_getUsedComponents` is a regular-expression heuristic over the head. `used_components` (samplesBuilder.js:481) is omitted from the teaser record.
- `platform/lib/utils/project.js` is not part of this model. The absolute destination paths are the four `Destination` values, and the source root is a parameter.
- `Strings.Lower` models `toLowerCase` for ASCII letters only, because the Unicode case tables are out of scope.
- `Paths.Dirname`, `Basename` and `Extname` cover absolute POSIX paths without trailing or repeated slashes. Those are the only paths the glob produces.
- `Category.GetCategory` is the memoised lookup, and it is proved equal to the pure derivation. Routes and artifacts use the pure derivation instead of threading the memo table through a run. The table never changes an answer.
- `Artifacts.SectionSource` does not characterise the second `replace` (the title placeholder). Its replacement, the section id, is applied as `replace` does; only its position is not stated.
- `Artifacts.RenderEmbed` passes `metadata` as the ads template's `title`, as the code does. The template's output is not modelled.
- `Document.Metadata` models absent string properties as the empty string and `contributors` as a string. Only truthiness decides whether they are transferred.
- `Document.NormalizeSections` applies the corrected normaliser `Markdown.NormalizeSection`, not the loop at samplesBuilder.js:246-269. The two agree only under the hypotheses of `Markdown.AsWrittenMatchesIntended`: pairwise distinct, whitespace-free digests, no digest turning up in the text before its own slot, and code blocks free of `$`. For a section with two identical blocks or a block holding `$&`, the code's output differs (see Findings), and the visible-text promise holds only for the corrected normaliser.
- `Document.AdaptParsed` inherits the same divergence: its sections, and so the documentation data, `Pipeline.ParseSample` and `Pipeline.Build`, carry the corrected normaliser's output. They match the code's output only under the hypotheses of `Markdown.AsWrittenMatchesIntended`.
- `Placement.Place` reproduces the flattening of documentation and previews to the base name (samplesBuilder.js:182, :188) without correcting it. Two samples with the same file name in different categories therefore write the same documentation files; `Placement.DocumentationPlacedByStem` and `Placement.SameNameInTwoCategoriesCollides` state this. Which write survives depends on stream order, which is not modelled. The samples tree is assumed to keep file names unique across categories.
- `Category.OrdinalPrefixLen` works on code points: `string` is a sequence of characters, not of UTF-16 code units. The `.` of `/^\d+./` consumes one UTF-16 code unit, so for `1😀x` the code keeps a lone low surrogate followed by `x`, while the model yields `x`. Names with characters outside the Basic Multilingual Plane directly after the ordinal differ in this way.
- `Sitemap.AddToSitemap` orders object keys by insertion. JavaScript puts integer-like keys first; format names are never integer-like, and category public names are assumed not to be.

## Findings

| source | as written | input that shows it | evidently intended | confidence | as-written member | corrected member |
|---|---|---|---|---|---|---|
| platform/lib/build/samplesBuilder.js:246-269 | identical code blocks get the same digest and share one table entry; the restore loop replaces only the first occurrence of each digest | a section of two identical blocks `[sourcecode[/sourcecode]` separated by a newline: the second copy stays as its digest (with any digest function, since equal blocks have equal digests) | every code block comes back verbatim in its own place | not executed | `MarkdownFindings.DuplicateBlockLeavesPlaceholder` (on `Markdown.NormalizeSectionAsWritten`) | `Markdown.NormalizeSection`, related to the as-written loop by `Markdown.AsWrittenMatchesIntended` |
| platform/lib/build/samplesBuilder.js:268 | the block is passed to `replace` as a replacement string, so `$&`, `` $` ``, `$'` and `$$` in it are expanded | the section `[sourcecode$&[/sourcecode]` comes back as `[sourcecode` + digest + `[/sourcecode]` | code blocks come back byte for byte | not executed | `MarkdownFindings.DollarPatternCorruptsBlock` (on `Markdown.NormalizeSectionAsWritten`) | `Markdown.NormalizeSection`, related to the as-written loop by `Markdown.AsWrittenMatchesIntended` |

The rest of the model (`Document.AdaptParsed`) uses the corrected `Markdown.NormalizeSection`.

The same `$`-pattern expansion applies to the other `replace` calls with data as the replacement: `section.preview` and `section.id` (samplesBuilder.js:578-579) and the story snippet (samplesBuilder.js:611). The model keeps the code's behaviour there. `Artifacts.SectionPreviewDollarKeepsPlaceholder` shows that a preview of `$&` leaves the placeholder where the section should be; `Artifacts.StoryEmbedOfStory` states the story embed for a `$`-free snippet.

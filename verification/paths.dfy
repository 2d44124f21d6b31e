/**
 * POSIX path arithmetic as Node's `path` module and Vinyl file objects do it,
 * for absolute paths without trailing slashes, and the builder's rewrite of
 * directory-style samples (`…/foo/index.html`) to their flat form (`…/foo.html`).
 */
module Paths {
  import opened Common
  import opened Strings

  /** `path.dirname` */
  function Dirname(p: string): string {
    match LastIndexOfChar(p, '/')
    case None => "."
    case Some(i) => if i == 0 then "/" else p[..i]
  }

  /** `path.basename` */
  function Basename(p: string): (b: string)
    ensures '/' !in b
  {
    match LastIndexOfChar(p, '/')
    case None => p
    case Some(i) => p[i + 1..]
  }

  /** `path.extname`: from the last dot of the base name, unless that dot starts it. */
  function Extname(p: string): string {
    var b := Basename(p);
    match LastIndexOfChar(b, '.')
    case None => ""
    case Some(j) => if j > 0 then b[j..] else ""
  }

  /** Vinyl's `stem`: the base name without its extension. */
  function Stem(p: string): (s: string)
    ensures '/' !in s
  {
    var b := Basename(p);
    assert '/' !in b;
    b[..|b| - |Extname(p)|]
  }

  /** Vinyl's `basename` setter. */
  function WithBasename(p: string, b: string): string {
    Dirname(p) + "/" + b
  }

  /** Vinyl's `dirname` setter. */
  function WithDirname(p: string, d: string): string {
    d + "/" + Basename(p)
  }

  /** Vinyl's `extname` setter. */
  function WithExtname(p: string, e: string): string {
    Dirname(p) + "/" + Stem(p) + e
  }

  /** Joining a non-empty directory and a slash-free name splits back into the two. */
  lemma SplitJoin(d: string, b: string)
    requires d != "" && '/' !in b
    ensures Dirname(d + "/" + b) == d
    ensures Basename(d + "/" + b) == b
  {
    LastIndexOfCharAfter(d, '/', b);
    assert d + "/" + b == d + ['/'] + b;
    assert (d + "/" + b)[..|d|] == d;
    assert (d + "/" + b)[|d| + 1..] == b;
  }

  /** A name `n.html` whose stem has no dot splits into stem `n` and extension `.html`. */
  lemma HtmlName(d: string, n: string)
    requires d != "" && n != "" && '/' !in n && '.' !in n
    ensures Basename(d + "/" + n + ".html") == n + ".html"
    ensures Extname(d + "/" + n + ".html") == ".html"
    ensures Stem(d + "/" + n + ".html") == n
  {
    assert '/' !in n + ".html";
    assert d + "/" + n + ".html" == d + "/" + (n + ".html");
    SplitJoin(d, n + ".html");
    LastIndexOfCharAfter(n, '.', "html");
    assert n + ".html" == n + ['.'] + "html";
    assert (n + ".html")[|n|..] == ".html";
  }

  const IndexSuffix := "/index.html"

  /** A sample `…/foo/index.html` is treated as if it were `…/foo.html` before any route is derived. */
  function NormalizeSamplePath(p: string): string {
    if EndsWith(p, IndexSuffix) then Dirname(p) + ".html" else p
  }

  lemma DirectorySampleIsFlattened(d: string)
    requires d != ""
    ensures NormalizeSamplePath(d + IndexSuffix) == d + ".html"
  {
    assert d + IndexSuffix == d + "/" + "index.html";
    SplitJoin(d, "index.html");
    assert (d + IndexSuffix)[|d + IndexSuffix| - |IndexSuffix|..] == IndexSuffix;
  }
}

/**
 * Category derivation (`_getCategory`): a sample's category is the first
 * directory below the source root; its display form drops a leading ordinal
 * matched by `/^\d+./`. Results are memoised per file path for one run.
 */
module Category {
  import opened Common
  import opened Strings
  import opened Paths

  /** `s.split('/')[0]` */
  function FirstSegment(s: string): (r: string)
    ensures '/' !in r
    ensures StartsWith(s, r)
    ensures r == s || (|r| < |s| && s[|r|] == '/')
  {
    match IndexOfChar(s, '/')
    case None => s
    case Some(i) => s[..i]
  }

  lemma FirstSegmentExtend(a: string, y: string)
    ensures FirstSegment(a + "/" + y) == FirstSegment(a)
  {
    var s := a + "/" + y;
    assert s == a + ['/'] + y;
    match IndexOfChar(a, '/')
    case None =>
      IndexOfCharAfter(a, '/', y);
    case Some(i) =>
      assert s[..i] == a[..i];
      IndexOfCharIs(s, '/', i);
  }

  lemma FirstSegmentOf(cat: string, x: string)
    requires '/' !in cat
    requires x == "" || x[0] == '/'
    ensures FirstSegment(cat + x) == cat
  {
    if x == "" {
      assert cat + x == cat;
    } else {
      assert cat + x == cat + ['/'] + x[1..];
      IndexOfCharAfter(cat, '/', x[1..]);
      assert (cat + x)[..|cat|] == cat;
    }
  }

  /** The ordered category of a file in directory `dir`: `dir.replace(root + '/', '').split('/')[0]`. */
  function CategoryOfDir(root: string, dir: string): string {
    FirstSegment(Replace(dir, root + "/", ""))
  }

  /** The category with its ordinal prefix, as used to find the category's descriptor. */
  function OrderedCategory(root: string, path: string): string {
    CategoryOfDir(root, Dirname(path))
  }

  /** A directory `root/cat…` belongs to category `cat`. */
  lemma CategoryUnderRoot(root: string, cat: string, x: string)
    requires '/' !in cat
    requires x == "" || x[0] == '/'
    ensures CategoryOfDir(root, root + "/" + cat + x) == cat
  {
    var dir := root + "/" + cat + x;
    assert dir[..|root + "/"|] == root + "/";
    RemovePrefix(dir, root + "/");
    assert dir[|root + "/"|..] == cat + x;
    FirstSegmentOf(cat, x);
  }

  /** A subdirectory of a directory under the root is in the same category. */
  lemma CategoryOfSubdir(root: string, dir: string, y: string)
    requires StartsWith(dir, root + "/")
    ensures CategoryOfDir(root, dir + "/" + y) == CategoryOfDir(root, dir)
  {
    var n := |root + "/"|;
    RemovePrefix(dir, root + "/");
    assert (dir + "/" + y)[..n] == root + "/";
    RemovePrefix(dir + "/" + y, root + "/");
    assert (dir + "/" + y)[n..] == dir[n..] + "/" + y;
    FirstSegmentExtend(dir[n..], y);
  }

  /** The length of the run of digits that starts `s`. */
  function DigitRun(s: string): (n: nat)
    ensures n <= |s|
    ensures forall i :: 0 <= i < n ==> IsDigit(s[i])
    ensures n < |s| ==> !IsDigit(s[n])
  {
    if s != [] && IsDigit(s[0]) then 1 + DigitRun(s[1..]) else 0
  }

  /**
   * The length of the match of `/^\d+./` at the start of `s`, or 0 when there
   * is none. The greedy `\d+` first takes every digit; if no character but a
   * line terminator follows, it gives one digit back to `.`.
   */
  function OrdinalPrefixLen(s: string): (n: nat)
    ensures n <= |s|
  {
    var k := DigitRun(s);
    if k == 0 then 0
    else if k < |s| && !IsLineTerminator(s[k]) then k + 1
    else if k >= 2 then k
    else 0
  }

  /** `s[..n]` is a match of `\d+.`: one or more digits, then one character that is not a line terminator. */
  predicate OrdinalMatch(s: string, n: int) {
    2 <= n <= |s| && (forall i :: 0 <= i < n - 1 ==> IsDigit(s[i])) && !IsLineTerminator(s[n - 1])
  }

  /** The prefix removed is the longest `\d+.` match, as the backtracking matcher finds it, and nothing when there is none. */
  lemma OrdinalPrefixIsLongestMatch(s: string)
    ensures OrdinalPrefixLen(s) == 0 <==> forall n :: !OrdinalMatch(s, n)
    ensures OrdinalPrefixLen(s) != 0 ==> OrdinalMatch(s, OrdinalPrefixLen(s))
    ensures forall n :: OrdinalMatch(s, n) ==> n <= OrdinalPrefixLen(s)
  {
    if OrdinalPrefixLen(s) != 0 {
      assert OrdinalMatch(s, OrdinalPrefixLen(s));
    }
  }

  /** `category.replace(/^\d+./, '')` */
  function StripOrdinal(s: string): (r: string)
    ensures '/' !in s ==> '/' !in r
  {
    s[OrdinalPrefixLen(s)..]
  }

  /** The category as shown in routes and on disk. */
  function DisplayCategory(root: string, path: string): (r: string)
    ensures '/' !in r
  {
    StripOrdinal(OrderedCategory(root, path))
  }

  /** The example from the category's documentation: `01-category/sample.html`. */
  lemma CategoryExample(root: string)
    ensures OrderedCategory(root, root + "/01-category/sample.html") == "01-category"
    ensures DisplayCategory(root, root + "/01-category/sample.html") == "category"
  {
    var a, b := "/01-category", "/sample.html";
    var dir := root + a;
    assert root + "/01-category/sample.html" == dir + "/" + "sample.html" by {
      assert a + b == "/01-category/sample.html";
      AppendAssoc(root, a, b);
      assert b == "/" + "sample.html";
      AppendAssoc(dir, "/", "sample.html");
    }
    SplitJoin(dir, "sample.html");
    assert dir == root + "/" + "01-category" + "" by {
      assert "/" + "01-category" == a;
      AppendAssoc(root, "/", "01-category");
    }
    CategoryUnderRoot(root, "01-category", "");
    OrdinalExample();
  }

  lemma OrdinalExample()
    ensures StripOrdinal("01-category") == "category"
  {
    var c := "01-category";
    assert c[1..][1..] == "-category";
    assert DigitRun(c[1..][1..]) == 0;
    assert DigitRun(c) == 2;
    assert c[3..] == "category";
  }

  /** The per-run memo table from file path to ordered category. */
  type Cache = map<string, string>

  /** Every memoised entry is the category its path derives. */
  predicate CacheSound(root: string, cache: Cache) {
    forall p :: p in cache ==> cache[p] == OrderedCategory(root, p)
  }

  /**
   * The memo step: a non-empty entry is reused; a missing or empty one is
   * replaced by the derived value. Nothing else in the table changes.
   */
  function Memo(cache: Cache, path: string, derived: string): (r: (string, Cache))
    requires path in cache ==> cache[path] == derived
    ensures r.1.Keys == cache.Keys + {path}
    ensures r.0 == derived && r.1[path] == derived
    ensures forall p :: p in cache ==> r.1[p] == cache[p]
  {
    if path in cache && cache[path] != "" then (cache[path], cache)
    else (derived, cache[path := derived])
  }

  /**
   * `_getCategory(sample, ordered)`: consult the memo table, derive and record
   * the category when it is missing or empty, and strip the ordinal unless
   * the ordered form is asked for.
   */
  function GetCategory(root: string, cache: Cache, path: string, ordered: bool): (r: (string, Cache))
    requires CacheSound(root, cache)
    ensures CacheSound(root, r.1)
    ensures r.0 == if ordered then OrderedCategory(root, path) else DisplayCategory(root, path)
    ensures r.1.Keys == cache.Keys + {path}
    ensures forall p :: p in cache ==> r.1[p] == cache[p]
  {
    var m := Memo(cache, path, OrderedCategory(root, path));
    assert CacheSound(root, m.1) by {
      forall p | p in m.1
        ensures m.1[p] == OrderedCategory(root, p)
      {
        if p != path {
          assert p in cache;
        }
      }
    }
    (if ordered then m.0 else StripOrdinal(m.0), m.1)
  }

  /** Asking twice for the same path gives the same answer and leaves the table as the first call left it. */
  lemma GetCategoryIsStable(root: string, cache: Cache, path: string, ordered: bool, ordered': bool)
    requires CacheSound(root, cache)
    ensures var (c1, m1) := GetCategory(root, cache, path, ordered);
            var (c2, m2) := GetCategory(root, m1, path, ordered');
            m2 == m1 && (ordered == ordered' ==> c2 == c1)
  {
    var (c1, m1) := GetCategory(root, cache, path, ordered);
    var d := OrderedCategory(root, path);
    assert path in m1 && m1[path] == d;
    var m2 := Memo(m1, path, d).1;
    assert m2 == m1 by {
      if d == "" {
        assert m1[path := d] == m1;
      }
    }
  }
}

/**
 * The playground sitemap: `_addToSitemap` files each sample under its
 * format and its category's public name, keeping first-insertion order at
 * both levels; the restructuring half of `_generateSitemap` turns every
 * format into `{title, name, categories: [{name, examples}]}`.
 */
module Sitemap {
  import opened Common
  import opened AssocList
  import opened SampleFormat

  datatype Example = Example(title: string, url: string)

  datatype CategorySamples = CategorySamples(name: string, examples: seq<Example>)

  /** format → category public name → samples, both levels in insertion order. */
  type Accumulator = Assoc<Format, Assoc<string, CategorySamples>>

  /** The categories filed under format `f` so far. */
  function CategoriesOf(acc: Accumulator, f: Format): Assoc<string, CategorySamples> {
    match Get(acc, f)
    case None => []
    case Some(cats) => cats
  }

  /** The examples filed under format `f` and category `name` so far. */
  function Examples(acc: Accumulator, f: Format, name: string): seq<Example> {
    match Get(CategoriesOf(acc, f), name)
    case None => []
    case Some(c) => c.examples
  }

  /** `_addToSitemap` once the category's public name is known. */
  function AddToSitemap(acc: Accumulator, f: Format, publicName: string, e: Example): (r: Accumulator)
    ensures Keys(r) == if f in Keys(acc) then Keys(acc) else Keys(acc) + [f]
    ensures Keys(CategoriesOf(r, f)) ==
      if publicName in Keys(CategoriesOf(acc, f)) then Keys(CategoriesOf(acc, f)) else Keys(CategoriesOf(acc, f)) + [publicName]
  {
    var cats := CategoriesOf(acc, f);
    var entry := match Get(cats, publicName)
      case None => CategorySamples(publicName, [])
      case Some(c) => c;
    var cats' := Put(cats, publicName, entry.(examples := entry.examples + [e]));
    PutGet(acc, f, cats');
    Put(acc, f, cats')
  }

  /** The new example goes to the end of its own list. */
  lemma AddAppendsExample(acc: Accumulator, f: Format, publicName: string, e: Example)
    ensures Examples(AddToSitemap(acc, f, publicName, e), f, publicName) == Examples(acc, f, publicName) + [e]
  {
    var cats := CategoriesOf(acc, f);
    var entry := match Get(cats, publicName)
      case None => CategorySamples(publicName, [])
      case Some(c) => c;
    var cats' := Put(cats, publicName, entry.(examples := entry.examples + [e]));
    PutGet(acc, f, cats');
    PutGet(cats, publicName, entry.(examples := entry.examples + [e]));
  }

  /** Every other list is left exactly as it was. */
  lemma AddKeepsOtherExamples(acc: Accumulator, f: Format, publicName: string, e: Example, f': Format, name: string)
    requires f' != f || name != publicName
    ensures Examples(AddToSitemap(acc, f, publicName, e), f', name) == Examples(acc, f', name)
  {
    var cats := CategoriesOf(acc, f);
    var entry := match Get(cats, publicName)
      case None => CategorySamples(publicName, [])
      case Some(c) => c;
    var cats' := Put(cats, publicName, entry.(examples := entry.examples + [e]));
    if f' != f {
      PutKeepsOthers(acc, f, cats', f');
    } else {
      PutGet(acc, f, cats');
      PutKeepsOthers(cats, publicName, entry.(examples := entry.examples + [e]), name);
    }
  }

  datatype CategoryIndex = CategoryIndex(name: string, examples: seq<Example>)

  datatype FormatIndex = FormatIndex(title: string, name: string, categories: seq<CategoryIndex>)

  /** The sitemap as written: format name → index, in insertion order. */
  type Index = Assoc<string, FormatIndex>

  function FinalizeCategories(cats: Assoc<string, CategorySamples>): (r: seq<CategoryIndex>)
    ensures |r| == |cats|
    ensures forall i :: 0 <= i < |r| ==> r[i] == CategoryIndex(cats[i].0, cats[i].1.examples)
  {
    if cats == [] then [] else [CategoryIndex(cats[0].0, cats[0].1.examples)] + FinalizeCategories(cats[1..])
  }

  /** The restructuring loop of `_generateSitemap`. */
  function Finalize(acc: Accumulator): (r: Index)
    ensures |r| == |acc|
    ensures forall i :: 0 <= i < |r| ==> r[i].0 == acc[i].0.Name() && r[i].1.title == r[i].1.name == acc[i].0.Name()
  {
    if acc == [] then []
    else
      var f := acc[0].0;
      [(f.Name(), FormatIndex(f.Name(), f.Name(), FinalizeCategories(acc[0].1)))] + Finalize(acc[1..])
  }

  /** The examples listed under category `name` in a finished index. */
  function FindCategory(cs: seq<CategoryIndex>, name: string): seq<Example> {
    if cs == [] then [] else if cs[0].name == name then cs[0].examples else FindCategory(cs[1..], name)
  }

  /** The examples listed under format name `f` and category `name` in the finished sitemap. */
  function IndexedExamples(index: Index, f: string, name: string): seq<Example> {
    match Get(index, f)
    case None => []
    case Some(fi) => FindCategory(fi.categories, name)
  }

  lemma {:induction false} FindCategoryFinalized(cats: Assoc<string, CategorySamples>, name: string)
    decreases |cats|
    ensures FindCategory(FinalizeCategories(cats), name) == match Get(cats, name) case None => [] case Some(c) => c.examples
  {
    if cats != [] {
      assert FinalizeCategories(cats)[1..] == FinalizeCategories(cats[1..]);
      FindCategoryFinalized(cats[1..], name);
    }
  }

  lemma {:induction false} FinalizeGet(acc: Accumulator, f: Format)
    decreases |acc|
    ensures Get(Finalize(acc), f.Name()) == match Get(acc, f)
      case None => None
      case Some(cats) => Some(FormatIndex(f.Name(), f.Name(), FinalizeCategories(cats)))
  {
    if acc != [] {
      FormatNameRoundTrip(f);
      FormatNameRoundTrip(acc[0].0);
      assert Finalize(acc)[1..] == Finalize(acc[1..]);
      FinalizeGet(acc[1..], f);
    }
  }

  /** Finishing the sitemap loses no example and moves none. */
  lemma FinalizeKeepsExamples(acc: Accumulator, f: Format, name: string)
    ensures IndexedExamples(Finalize(acc), f.Name(), name) == Examples(acc, f, name)
  {
    FinalizeGet(acc, f);
    FindCategoryFinalized(CategoriesOf(acc, f), name);
  }
}

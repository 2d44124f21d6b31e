/**
 * Format classification (`_getSampleFormat`): the first of the story, ads
 * and email flags that is set decides the bucket; `websites` is the fallback.
 */
module SampleFormat {
  import opened Common

  datatype Format = Stories | Ads | Email | Websites {
    /** The bucket's key in the sitemap and the teaser data. */
    function Name(): string {
      match this
      case Stories => "stories"
      case Ads => "ads"
      case Email => "email"
      case Websites => "websites"
    }
  }

  /** The bucket named `name`, if any. */
  function FormatNamed(name: string): (f: Option<Format>)
    ensures f.Some? ==> f.value.Name() == name
  {
    if name == "stories" then Some(Stories)
    else if name == "ads" then Some(Ads)
    else if name == "email" then Some(Email)
    else if name == "websites" then Some(Websites)
    else None
  }

  /** Every bucket name reads back as its bucket, so names identify buckets. */
  lemma FormatNameRoundTrip(f: Format)
    ensures FormatNamed(f.Name()) == Some(f)
  {
  }

  /** `_getSampleFormat` */
  function Classify(isAmpStory: bool, isAmpAds: bool, isAmpEmail: bool): (f: Format)
    ensures f == Stories <==> isAmpStory
    ensures f == Ads <==> !isAmpStory && isAmpAds
    ensures f == Email <==> !isAmpStory && !isAmpAds && isAmpEmail
    ensures f == Websites <==> !isAmpStory && !isAmpAds && !isAmpEmail
  {
    if isAmpStory then Stories
    else if isAmpAds then Ads
    else if isAmpEmail then Email
    else Websites
  }

  /** The first rule whose flag is set, or the fallback. */
  function FirstMatch(rules: seq<(bool, Format)>, fallback: Format): Format {
    if rules == [] then fallback
    else if rules[0].0 then rules[0].1
    else FirstMatch(rules[1..], fallback)
  }

  /** Classification is the first-match-wins chain story, ads, email with websites as the fallback. */
  lemma ClassifyIsPriorityChain(isAmpStory: bool, isAmpAds: bool, isAmpEmail: bool)
    ensures Classify(isAmpStory, isAmpAds, isAmpEmail)
         == FirstMatch([(isAmpStory, Stories), (isAmpAds, Ads), (isAmpEmail, Email)], Websites)
  {
    var rules := [(isAmpStory, Stories), (isAmpAds, Ads), (isAmpEmail, Email)];
    assert rules[1..] == [(isAmpAds, Ads), (isAmpEmail, Email)];
    assert rules[1..][1..] == [(isAmpEmail, Email)];
    assert rules[1..][1..][1..] == [];
    assert FirstMatch(rules[1..][1..][1..], Websites) == Websites;
    assert FirstMatch(rules[1..][1..], Websites) == if isAmpEmail then Email else Websites;
    assert FirstMatch(rules[1..], Websites) == if isAmpAds then Ads else if isAmpEmail then Email else Websites;
  }
}

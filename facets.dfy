/**
 * Facet classification from the text of a path: a category and a location,
 * each chosen by an ordered list of keyword rules over the lower-cased path,
 * the first rule with a keyword occurring in the path winning, "Other" when
 * none does.
 */
module Facets {
  import opened Wrappers
  import opened Text

  /** A facet value together with the keywords that select it. */
  datatype Rule = Rule(keywords: seq<string>, value: string)

  const Other: string := "Other"

  const CategoryRules: seq<Rule> := [
    Rule(["landscape", "nature", "scenic"], "Landscapes"),
    Rule(["architecture", "building", "structure"], "Architecture"),
    Rule(["city", "urban", "skyline"], "Cityscapes"),
    Rule(["nature", "wildlife", "natural"], "Nature")
  ]

  const LocationRules: seq<Rule> := [
    Rule(["hawaii", "maui", "oahu"], "Hawaii"),
    Rule(["california", "ca", "big_sur", "carmel", "monterey"], "California"),
    Rule(["arizona", "az", "sedona", "flagstaff"], "Arizona")
  ]

  const Categories: set<string> := {"Landscapes", "Architecture", "Cityscapes", "Nature", Other}
  const Locations: set<string> := {"Hawaii", "California", "Arizona", Other}

  /** `any(x in text for x in rule.keywords)`. */
  predicate Fires(text: string, rule: Rule) {
    exists k | k in rule.keywords :: Contains(text, k)
  }

  /** Index of the first rule that fires on `text`. */
  function FirstFiring(text: string, rules: seq<Rule>): (r: Option<nat>)
    ensures r.Some? ==> r.value < |rules| && Fires(text, rules[r.value])
    ensures r.Some? ==> forall j :: 0 <= j < r.value ==> !Fires(text, rules[j])
    ensures r.None? ==> forall j :: 0 <= j < |rules| ==> !Fires(text, rules[j])
  {
    if rules == [] then None
    else if Fires(text, rules[0]) then Some(0)
    else match FirstFiring(text, rules[1..])
      case Some(i) => Some(i + 1)
      case None => None
  }

  /** The `if`/`elif` chain: value of the first rule that fires, otherwise "Other". */
  function Pick(text: string, rules: seq<Rule>): string {
    match FirstFiring(text, rules)
    case Some(i) => rules[i].value
    case None => Other
  }

  datatype Metadata = Metadata(category: string, location: string)

  /** `parse_metadata_from_path(p)`, given `str(p)`. */
  function ParseMetadata(path: string): (m: Metadata)
    ensures m.category in Categories
    ensures m.location in Locations
  {
    var text := LowerStr(path);
    Metadata(Pick(text, CategoryRules), Pick(text, LocationRules))
  }

  /** The chain's outcome: a rule that fires with no earlier rule firing decides; no rule firing gives "Other". */
  lemma PickFirstMatchWins(text: string, rules: seq<Rule>, i: nat)
    requires i < |rules| && Fires(text, rules[i])
    requires forall j :: 0 <= j < i ==> !Fires(text, rules[j])
    ensures Pick(text, rules) == rules[i].value
  {
    var r := FirstFiring(text, rules);
    assert r.Some?;
    assert !(r.value < i) && !(i < r.value);
  }

  lemma PickDefault(text: string, rules: seq<Rule>)
    requires forall j :: 0 <= j < |rules| ==> !Fires(text, rules[j])
    ensures Pick(text, rules) == Other
  {
  }

  /** A Hawaii keyword wins over every other location keyword, e.g. "maui" with "california". */
  lemma HawaiiWins(path: string, k: string)
    requires k in LocationRules[0].keywords && Contains(LowerStr(path), k)
    ensures ParseMetadata(path).location == "Hawaii"
  {
    PickFirstMatchWins(LowerStr(path), LocationRules, 0);
  }

  /**
   * "nature" already selects Landscapes, so Nature is reached only through
   * "wildlife" or "natural", and only on paths with no Landscapes,
   * Architecture or Cityscapes keyword.
   */
  lemma NatureOnlyViaWildlifeOrNatural(path: string)
    requires ParseMetadata(path).category == "Nature"
    ensures !Contains(LowerStr(path), "nature")
    ensures Contains(LowerStr(path), "wildlife") || Contains(LowerStr(path), "natural")
  {
    var text := LowerStr(path);
    var r := FirstFiring(text, CategoryRules);
    assert r == Some(3);
    assert !Fires(text, CategoryRules[0]);
    assert Fires(text, CategoryRules[3]);
  }

  /**
   * "ca" occurs inside "landscape", so a path with "landscape" and no Hawaii
   * keyword is always placed in California, even one naming Arizona.
   */
  lemma LandscapePathsReadAsCalifornia(path: string)
    requires Contains(LowerStr(path), "landscape")
    requires !Fires(LowerStr(path), LocationRules[0])
    ensures ParseMetadata(path).location == "California"
  {
    var text := LowerStr(path);
    var word := "landscape";
    assert word[5..7] == "ca";
    assert OccursAt(word, "ca", 5);
    ContainsTransitive(text, "landscape", "ca");
    assert Fires(text, LocationRules[1]);
    PickFirstMatchWins(text, LocationRules, 1);
  }

  /** A path with no keyword of either list is classified "Other" on both facets. */
  lemma NoKeywordMeansOther(path: string)
    requires forall r :: r in CategoryRules + LocationRules ==> !Fires(LowerStr(path), r)
    ensures ParseMetadata(path) == Metadata(Other, Other)
  {
    var text := LowerStr(path);
    assert forall j :: 0 <= j < |CategoryRules| ==> (CategoryRules + LocationRules)[j] == CategoryRules[j];
    assert forall j :: 0 <= j < |LocationRules| ==> (CategoryRules + LocationRules)[|CategoryRules| + j] == LocationRules[j];
    PickDefault(text, CategoryRules);
    PickDefault(text, LocationRules);
  }
}

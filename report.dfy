/** The report step: every researched company gets an intensity level from
    0 (none) to 3 (core) in each of seven material categories, scored from
    the secondary raw material (SRM) types it uses and the free text of its
    quantitative data. */
module Report {
  import opened Py
  import opened PyStr
  import Research
  import Scrape

  /** The seven categories, the columns of the report's matrix. */
  const Categories: seq<string> := ["construction", "metal", "plastic", "wood", "biomass", "biogas", "digestate"]

  const CategorySet: set<string> := set c | c in Categories

  /** Which category each known SRM type counts towards. */
  const SrmCategoryMap: map<string, string> := map[
    "Recycled aggregate" := "construction",
    "Reclaimed asphalt pavement (RAP)" := "construction",
    "Steel scrap" := "metal",
    "Recycled steel scrap" := "metal",
    "Aluminum scrap" := "metal",
    "Copper scrap" := "metal",
    "Nickel-bearing scrap" := "metal",
    "Cobalt-bearing scrap" := "metal",
    "Metal scrap" := "metal",
    "Recycled polymer pellets" := "plastic",
    "Sorted plastic waste" := "plastic",
    "Recycled EPS" := "plastic",
    "Wood chips / fiber" := "wood",
    "Recovered timber" := "wood",
    "Biomass fuel" := "biomass",
    "Biomass pellets" := "biomass",
    "Bio-oils" := "biomass",
    "Biogas" := "biogas",
    "Digestate" := "digestate",
    "Digestate (biofertilizer)" := "digestate"
  ]

  /** Every SRM type counts towards one of the seven categories, named by a
      non-empty string, so scoring never adds a key. */
  lemma CategoryMapTargetsCategories()
    ensures forall srm :: srm in SrmCategoryMap ==> SrmCategoryMap[srm] in CategorySet && SrmCategoryMap[srm] != ""
    ensures forall c :: c in Categories <==> c in CategorySet
  {
  }

  /** `SRM_CATEGORY_MAP.get(srm)` */
  function CategoryOf(srm: string): Option<string> {
    if srm in SrmCategoryMap then Some(SrmCategoryMap[srm]) else None
  }

  /** A known SRM type names one of the seven categories. */
  lemma CategoryOfTargets(srm: string)
    ensures CategoryOf(srm).Some? ==> CategoryOf(srm).value in CategorySet && CategoryOf(srm).value != ""
  {
    CategoryMapTargetsCategories();
  }

  /** `if category:` on the looked-up category. */
  predicate Truthy(category: Option<string>) {
    category.Some? && category.value != ""
  }

  /** Some SRM type of `srms` counts towards category `c`. */
  predicate Reaches(srms: seq<string>, c: string) {
    exists s :: s in srms && CategoryOf(s) == Some(c)
  }

  /** Text that marks SRM use as the company's core. */
  predicate IsCoreText(q: string) {
    Contains(q, "100%") || Contains(q, "Core")
  }

  /** Words that mark a high share of SRM. */
  const HighMarkers: seq<string> := ["75%", "70%", "target", "high"]

  /** `any(x in text for x in pats)` */
  function AnyContained(text: string, pats: seq<string>): (r: bool)
    ensures r <==> exists k :: 0 <= k < |pats| && Contains(text, pats[k])
  {
    if pats == [] then false
    else if Contains(text, pats[0]) then true
    else
      var r := AnyContained(text, pats[1..]);
      assert forall k :: 1 <= k < |pats| ==> pats[1..][k - 1] == pats[k];
      r
  }

  /** The level that one SRM type of category `c` earns from the text `q`. */
  function Level(srm: string, c: string, q: string): (l: int)
    ensures 1 <= l <= 3
    ensures l == 3 <==> IsCoreText(q)
  {
    if IsCoreText(q) then 3
    else if AnyContained(q, HighMarkers) then 2
    else if Contains(q, srm) || Contains(q, c) then 2
    else 1
  }

  function Max(a: int, b: int): int {
    if a < b then b else a
  }

  /** A result of the scoring: exactly the seven categories, each at a level 0..3. */
  predicate IsIntensityMap(m: map<string, int>) {
    m.Keys == CategorySet && forall c :: c in m ==> 0 <= m[c] <= 3
  }

  /** Every category at level 0. */
  const NoIntensity: map<string, int> := map c | c in CategorySet :: 0

  /** One turn of the scoring loop: a mapped SRM type raises its category to
      the level it earns, if that is higher. */
  function Step(m: map<string, int>, srm: string, q: string): (r: map<string, int>)
    requires IsIntensityMap(m)
    ensures IsIntensityMap(r)
  {
    var category := CategoryOf(srm);
    if Truthy(category) then
      CategoryOfTargets(srm);
      var c := category.value;
      m[c := Max(m[c], Level(srm, c, q))]
    else m
  }

  /** The intensities after the SRM types `srms` have been scored in order. */
  function Scores(srms: seq<string>, q: string): (r: map<string, int>)
    ensures IsIntensityMap(r)
  {
    if srms == [] then NoIntensity
    else Step(Scores(srms[..|srms| - 1], q), srms[|srms| - 1], q)
  }

  /** `calculate_srm_intensity`: starts every category at 0 and lets each
      SRM type in turn raise its category's level. */
  method CalculateSrmIntensity(srmTypes: seq<string>, quantitativeData: string)
    returns (intensity: map<string, int>)
    ensures intensity == Scores(srmTypes, quantitativeData)
    ensures IsIntensityMap(intensity)
  {
    intensity := NoIntensity;
    for i := 0 to |srmTypes|
      invariant intensity == Scores(srmTypes[..i], quantitativeData)
    {
      var srm := srmTypes[i];
      var category := CategoryOf(srm);
      CategoryOfTargets(srm);
      if Truthy(category) {
        var c := category.value;
        if Contains(quantitativeData, "100%") || Contains(quantitativeData, "Core") {
          intensity := intensity[c := Max(intensity[c], 3)];
        } else if AnyContained(quantitativeData, HighMarkers) {
          intensity := intensity[c := Max(intensity[c], 2)];
        } else if Contains(quantitativeData, srm) || Contains(quantitativeData, c) {
          intensity := intensity[c := Max(intensity[c], 2)];
        } else {
          intensity := intensity[c := Max(intensity[c], 1)];
        }
      }
      assert srmTypes[..i + 1][..i] == srmTypes[..i];
    }
    assert srmTypes[..|srmTypes|] == srmTypes;
  }

  /** Each category's level is the highest level earned by an SRM type of
      that category, and 0 when no SRM type reaches it. */
  lemma {:induction false} ScoresCharacterised(srms: seq<string>, q: string, c: string)
    requires c in CategorySet
    ensures Scores(srms, q)[c] != 0 <==> Reaches(srms, c)
    ensures forall s :: s in srms && CategoryOf(s) == Some(c) ==> Level(s, c, q) <= Scores(srms, q)[c]
    ensures Scores(srms, q)[c] != 0 ==>
      exists s :: s in srms && CategoryOf(s) == Some(c) && Level(s, c, q) == Scores(srms, q)[c]
  {
    if srms != [] {
      var init, last := srms[..|srms| - 1], srms[|srms| - 1];
      assert srms == init + [last];
      ScoresCharacterised(init, q, c);
      var before, after := Scores(init, q), Scores(srms, q);
      if CategoryOf(last) == Some(c) {
        assert after[c] == Max(before[c], Level(last, c, q));
      } else {
        assert after[c] == before[c];
        assert Reaches(srms, c) ==> Reaches(init, c);
      }
    }
  }

  /** The levels depend only on which mapped SRM types occur: unknown names,
      order and repetitions change nothing. */
  lemma ScoresDependOnlyOnMappedNames(xs: seq<string>, ys: seq<string>, q: string)
    requires forall s :: CategoryOf(s).Some? ==> (s in xs <==> s in ys)
    ensures Scores(xs, q) == Scores(ys, q)
  {
    var a, b := Scores(xs, q), Scores(ys, q);
    forall c | c in CategorySet ensures a[c] == b[c] {
      ScoresCharacterised(xs, q, c);
      ScoresCharacterised(ys, q, c);
      if a[c] != 0 {
        var s :| s in xs && CategoryOf(s) == Some(c) && Level(s, c, q) == a[c];
        assert s in ys;
      }
      if b[c] != 0 {
        var s :| s in ys && CategoryOf(s) == Some(c) && Level(s, c, q) == b[c];
        assert s in xs;
      }
    }
  }

  /** Two lists holding the same SRM names, in any order and with any
      repetitions, score the same. */
  lemma ScoresOrderIndependent(xs: seq<string>, ys: seq<string>, q: string)
    requires forall s :: s in xs <==> s in ys
    ensures Scores(xs, q) == Scores(ys, q)
  {
    ScoresDependOnlyOnMappedNames(xs, ys, q);
  }

  /** An empty list scores 0 everywhere, and so does a list of unknown names. */
  lemma UnmappedScoresZero(srms: seq<string>, q: string)
    requires forall s :: s in srms ==> CategoryOf(s).None?
    ensures Scores(srms, q) == NoIntensity
  {
    ScoresDependOnlyOnMappedNames(srms, [], q);
  }

  /** Text marking SRM as core puts every reached category at 3. */
  lemma CoreTextScoresThree(srms: seq<string>, q: string, c: string)
    requires c in CategorySet && IsCoreText(q)
    ensures Scores(srms, q)[c] == if Reaches(srms, c) then 3 else 0
  {
    ScoresCharacterised(srms, q, c);
  }

  /** Otherwise a high-share marker puts every reached category at 2. */
  lemma HighMarkerScoresTwo(srms: seq<string>, q: string, c: string)
    requires c in CategorySet && !IsCoreText(q) && AnyContained(q, HighMarkers)
    ensures Scores(srms, q)[c] == if Reaches(srms, c) then 2 else 0
  {
    ScoresCharacterised(srms, q, c);
    if Reaches(srms, c) {
      var s :| s in srms && CategoryOf(s) == Some(c);
      assert Level(s, c, q) == 2;
    }
  }

  /** Failing both, a reached category is at 2 when the text names one of
      its SRM types or the category itself, and at 1 otherwise. */
  lemma MentionScoresTwo(srms: seq<string>, q: string, c: string)
    requires c in CategorySet && !IsCoreText(q) && !AnyContained(q, HighMarkers)
    ensures Scores(srms, q)[c] ==
      if exists s :: s in srms && CategoryOf(s) == Some(c) && (Contains(q, s) || Contains(q, c)) then 2
      else if Reaches(srms, c) then 1
      else 0
  {
    ScoresCharacterised(srms, q, c);
    if exists s :: s in srms && CategoryOf(s) == Some(c) && (Contains(q, s) || Contains(q, c)) {
      var s :| s in srms && CategoryOf(s) == Some(c) && (Contains(q, s) || Contains(q, c));
      assert Level(s, c, q) == 2;
    }
  }

  /** A placeholder research record uses no SRM, so it scores 0 everywhere. */
  lemma PlaceholderScoresZero(r: Research.ResearchRecord, company: Scrape.Company)
    requires Research.IsPlaceholderFor(r, company)
    ensures Scores(r.srmTypesUsed, r.quantitativeData) == NoIntensity
  {
  }

  /** One company entry of the research file as the report reads it: the
      two keys scoring uses, each possibly missing, the intensity key it
      writes, and every other key with its value as JSON text. */
  class CompanyEntry {
    var srmTypesUsed: Option<seq<string>>
    var quantitativeData: Option<string>
    var srmIntensity: Option<map<string, int>>
    var otherFields: map<string, string>
  }

  /** The entry holds the intensities scored from its own SRM types and
      quantitative text, a missing key read as empty. */
  predicate Annotated(company: CompanyEntry)
    reads company
  {
    company.srmIntensity == Some(Scores(company.srmTypesUsed.GetOr([]), company.quantitativeData.GetOr("")))
  }

  /** Writes each company's intensities into its own entry and touches
      nothing else. */
  method AnnotateIntensities(companies: seq<CompanyEntry>)
    modifies set c | c in companies
    ensures forall c :: c in companies ==> Annotated(c)
    ensures forall c :: c in companies ==>
      c.srmTypesUsed == old(c.srmTypesUsed) && c.quantitativeData == old(c.quantitativeData) &&
      c.otherFields == old(c.otherFields)
  {
    for i := 0 to |companies|
      invariant forall k :: 0 <= k < i ==> Annotated(companies[k])
      invariant forall c :: c in companies ==>
        c.srmTypesUsed == old(c.srmTypesUsed) && c.quantitativeData == old(c.quantitativeData) &&
        c.otherFields == old(c.otherFields)
    {
      var company := companies[i];
      var srmTypes := company.srmTypesUsed.GetOr([]);
      var quantitative := company.quantitativeData.GetOr("");
      var intensity := CalculateSrmIntensity(srmTypes, quantitative);
      company.srmIntensity := Some(intensity);
      assert Annotated(company);
    }
  }
}

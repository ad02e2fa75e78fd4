/**
 * `applyFilters`: the visible subset of the fetched assets under the current price range and
 * facet selections.
 */
module Filters {
  import opened Wrappers
  import opened JsString
  import opened JsArray
  import opened Nft

  /** A price bound as the number inputs produce it: `None` is NaN. */
  type Bound = Option<real>

  /** JavaScript truthiness of a number: everything except 0 and NaN. */
  predicate Truthy(b: Bound) {
    b.Some? && b.value != 0.0
  }

  /** The page's filter state: `priceRange`, `selectedCollections`, `selectedYears`, `selectedDesigners`. */
  datatype Criteria = Criteria(
    minPrice: Bound,
    maxPrice: Bound,
    collections: seq<string>,
    years: seq<string>,
    designers: seq<string>)

  /** The selection of facet `f`. */
  function SelectedFor(c: Criteria, f: Facet): seq<string> {
    match f
    case Collection => c.collections
    case Year => c.years
    case Designer => c.designers
  }

  /**
   * The price test of one asset: a falsy bound is skipped, a truthy one is compared with
   * `parseFloat(asset.price)`, and a comparison with NaN is false.
   */
  predicate PriceOk(c: Criteria, a: NFTDetail) {
    var p := ParseFloat(a.price);
    (!Truthy(c.minPrice) || (p.Some? && p.value >= c.minPrice.value)) &&
    (!Truthy(c.maxPrice) || (p.Some? && p.value <= c.maxPrice.value))
  }

  /** The facet test of one asset: the selection contains its field, or "" when the field is absent. */
  predicate IsSelected(selected: seq<string>, a: NFTDetail, f: Facet) {
    Includes(selected, FieldOrEmpty(a, f))
  }

  /** The price filter. Both bounds are numbers, so the `!== null` guard always lets it run. */
  function PriceStage(xs: seq<NFTDetail>, c: Criteria): seq<NFTDetail> {
    Filter(xs, a => PriceOk(c, a))
  }

  /** One facet filter, which runs only when its selection is non-empty. */
  function FacetStage(xs: seq<NFTDetail>, selected: seq<string>, f: Facet): seq<NFTDetail> {
    if |selected| > 0 then Filter(xs, a => IsSelected(selected, a, f)) else xs
  }

  /** The four successive reassignments of `filtered` in `applyFilters`. */
  function Apply(assets: seq<NFTDetail>, c: Criteria): seq<NFTDetail> {
    var byPrice := PriceStage(assets, c);
    var byCollection := FacetStage(byPrice, c.collections, Collection);
    var byYear := FacetStage(byCollection, c.years, Year);
    FacetStage(byYear, c.designers, Designer)
  }

  /** An asset passes a facet when nothing is selected for it or its value (or "") is selected. */
  predicate FacetOk(c: Criteria, a: NFTDetail, f: Facet) {
    |SelectedFor(c, f)| == 0 || FieldOrEmpty(a, f) in SelectedFor(c, f)
  }

  /** The conjunction of all four predicates. */
  predicate Matches(c: Criteria, a: NFTDetail) {
    PriceOk(c, a) && FacetOk(c, a, Collection) && FacetOk(c, a, Year) && FacetOk(c, a, Designer)
  }

  lemma FacetStageIsFilter(xs: seq<NFTDetail>, c: Criteria, f: Facet)
    ensures FacetStage(xs, SelectedFor(c, f), f) == Filter(xs, a => FacetOk(c, a, f))
  {
    if |SelectedFor(c, f)| == 0 {
      FilterAll(xs, a => FacetOk(c, a, f));
    } else {
      assert forall a :: IsSelected(SelectedFor(c, f), a, f) == FacetOk(c, a, f);
      FilterExtensional(xs, a => IsSelected(SelectedFor(c, f), a, f), a => FacetOk(c, a, f));
    }
  }

  lemma {:induction false} FilterExtensional(xs: seq<NFTDetail>, p: NFTDetail -> bool, q: NFTDetail -> bool)
    requires forall a :: p(a) == q(a)
    ensures Filter(xs, p) == Filter(xs, q)
  {
    if xs != [] {
      FilterExtensional(xs[1..], p, q);
    }
  }

  /** The staged filter is a single stable filter by `Matches`. */
  lemma ApplyIsOneFilter(assets: seq<NFTDetail>, c: Criteria)
    ensures Apply(assets, c) == Filter(assets, a => Matches(c, a))
  {
    var p := a => PriceOk(c, a);
    var q1 := a => FacetOk(c, a, Collection);
    var q2 := a => FacetOk(c, a, Year);
    var q3 := a => FacetOk(c, a, Designer);
    var p1 := a => PriceOk(c, a) && FacetOk(c, a, Collection);
    var p2 := a => PriceOk(c, a) && FacetOk(c, a, Collection) && FacetOk(c, a, Year);
    var byPrice := PriceStage(assets, c);
    FacetStageIsFilter(byPrice, c, Collection);
    FilterFilter(assets, p, q1, p1);
    var byCollection := FacetStage(byPrice, c.collections, Collection);
    assert byCollection == Filter(assets, p1);
    FacetStageIsFilter(byCollection, c, Year);
    FilterFilter(assets, p1, q2, p2);
    var byYear := FacetStage(byCollection, c.years, Year);
    assert byYear == Filter(assets, p2);
    FacetStageIsFilter(byYear, c, Designer);
    FilterFilter(assets, p2, q3, a => Matches(c, a));
  }

  /** The result keeps a subset of the assets in their original relative order. */
  lemma ApplySubsequence(assets: seq<NFTDetail>, c: Criteria)
    ensures Subsequence(Apply(assets, c), assets)
  {
    ApplyIsOneFilter(assets, c);
    FilterSubsequence(assets, a => Matches(c, a));
  }

  /**
   * Exact membership: an asset is visible iff it was fetched and passes the price test and,
   * for every facet with a non-empty selection, its value (or "") is selected.
   */
  lemma ApplyMembership(assets: seq<NFTDetail>, c: Criteria, a: NFTDetail)
    ensures a in Apply(assets, c) <==>
      a in assets && PriceOk(c, a) &&
      (|c.collections| == 0 || FieldOrEmpty(a, Collection) in c.collections) &&
      (|c.years| == 0 || FieldOrEmpty(a, Year) in c.years) &&
      (|c.designers| == 0 || FieldOrEmpty(a, Designer) in c.designers)
  {
    ApplyIsOneFilter(assets, c);
  }

  /** Each matching asset keeps all its occurrences, each other asset none. */
  lemma ApplyCount(assets: seq<NFTDetail>, c: Criteria, a: NFTDetail)
    ensures multiset(Apply(assets, c))[a] == if Matches(c, a) then multiset(assets)[a] else 0
  {
    ApplyIsOneFilter(assets, c);
    FilterCount(assets, a => Matches(c, a), a);
  }

  /** Filtering the visible assets again with the same criteria changes nothing. */
  lemma ApplyIdempotent(assets: seq<NFTDetail>, c: Criteria)
    ensures Apply(Apply(assets, c), c) == Apply(assets, c)
  {
    ApplyIsOneFilter(assets, c);
    ApplyIsOneFilter(Apply(assets, c), c);
    FilterIdempotent(assets, a => Matches(c, a));
  }

  /** With both bounds falsy and nothing selected, every asset is visible. */
  lemma ApplyNoCriteria(assets: seq<NFTDetail>, c: Criteria)
    requires !Truthy(c.minPrice) && !Truthy(c.maxPrice)
    requires c.collections == [] && c.years == [] && c.designers == []
    ensures Apply(assets, c) == assets
  {
    ApplyIsOneFilter(assets, c);
    FilterAll(assets, a => Matches(c, a));
  }

  /** A truthy bound is enforced inclusively against the parsed price. */
  lemma ApplyPriceBounds(assets: seq<NFTDetail>, c: Criteria, a: NFTDetail)
    requires a in Apply(assets, c)
    ensures Truthy(c.minPrice) ==> ParseFloat(a.price).Some? && ParseFloat(a.price).value >= c.minPrice.value
    ensures Truthy(c.maxPrice) ==> ParseFloat(a.price).Some? && ParseFloat(a.price).value <= c.maxPrice.value
  {
    ApplyMembership(assets, c, a);
  }

  /** An asset whose price is NaN is hidden as soon as one bound is truthy. */
  lemma ApplyRejectsUnparsablePrice(assets: seq<NFTDetail>, c: Criteria, a: NFTDetail)
    requires ParseFloat(a.price) == None
    requires Truthy(c.minPrice) || Truthy(c.maxPrice)
    ensures a !in Apply(assets, c)
  {
    ApplyMembership(assets, c, a);
  }

  /** A non-empty selection for one facet that no asset's field (or "") is in hides every asset. */
  lemma ApplyUnmatchedSelection(assets: seq<NFTDetail>, c: Criteria, f: Facet)
    requires |SelectedFor(c, f)| > 0
    requires forall a :: a in assets ==> FieldOrEmpty(a, f) !in SelectedFor(c, f)
    ensures Apply(assets, c) == []
  {
    ApplyIsOneFilter(assets, c);
    FilterNone(assets, a => Matches(c, a));
  }

  function Asset(price: string, collection: string, year: Option<string>): NFTDetail {
    NFTDetail("", "", None, None, "", "", price, "", Some(collection), None, year)
  }

  lemma ParsePrice100()
    ensures ParseFloat("100") == Some(100.0)
  {
    assert NatString(1) == "1";
    assert NatString(10) == "10";
    assert NatString(100) == "100";
    ParseFloatNatString(100);
  }

  lemma ParsePrice500()
    ensures ParseFloat("500") == Some(500.0)
  {
    assert NatString(5) == "5";
    assert NatString(50) == "50";
    assert NatString(500) == "500";
    ParseFloatNatString(500);
  }

  /** Prices 100 and 500 under the range [0, 200]: only the first asset stays visible. */
  lemma ExamplePriceRange()
    ensures var assets := [Asset("100", "A", None), Asset("500", "B", None)];
            Apply(assets, Criteria(Some(0.0), Some(200.0), [], [], [])) == [assets[0]]
  {
    var assets := [Asset("100", "A", None), Asset("500", "B", None)];
    var c := Criteria(Some(0.0), Some(200.0), [], [], []);
    ParsePrice100();
    ParsePrice500();
    assert Matches(c, assets[0]) && !Matches(c, assets[1]);
    ApplyIsOneFilter(assets, c);
    assert assets[1..][1..] == [];
  }

  /** One asset of collection "A" and the selection ["B"], with both bounds 0: nothing is visible. */
  lemma ExampleUnmatchedCollection()
    ensures Apply([Asset("100", "A", Some("2020"))], Criteria(Some(0.0), Some(0.0), ["B"], [], [])) == []
  {
    var assets := [Asset("100", "A", Some("2020"))];
    var c := Criteria(Some(0.0), Some(0.0), ["B"], [], []);
    ApplyIsOneFilter(assets, c);
    FilterNone(assets, a => Matches(c, a));
  }
}

/**
 * The state of the marketplace page (the `Closet` component) and the operations that change it:
 * `fetchNFTs`, `applyFilters`, the facet toggles and the price inputs. Each React state setter
 * is a plain field write.
 */
module Marketplace {
  import opened Wrappers
  import opened JsString
  import opened JsArray
  import opened Nft
  import opened Filters
  import opened Facets
  import opened Selection
  import opened Resolver

  /** The message `fetchNFTs` shows when the listing or any detail request fails. */
  const FetchFailedMessage := "Failed to fetch assets."

  /** The upper bound `priceRange` starts with. */
  const InitialMaxPrice: real := 10000000000.0

  /**
   * `trimAddress` (page.tsx, lines 27-28): the first four characters, then "...", then the last
   * four. An address shorter than four characters appears whole on both sides.
   */
  function TrimAddress(address: string): (r: string)
    ensures var k := if |address| < 4 then |address| else 4;
      |r| == k + 3 + k &&
      r[..k] == address[..k] && r[k..k + 3] == "..." && r[k + 3..] == address[|address| - k..]
  {
    SlicePrefix(address, 4);
    SliceSuffix(address, 4);
    Slice(address, 0, 4) + "..." + Slice(address, -4, |address|)
  }

  /** What `fetchNFTs` commits: the resolved assets, or `None` when the list call or any detail call fails. */
  function FetchOutcome(listResult: Option<seq<Listing>>, detail: DetailRequest -> Option<NFTDetail>): Option<seq<NFTDetail>> {
    match listResult
    case None => None
    case Some(listings) => ResolveAll(Requests(listings), detail)
  }

  class Closet {
    var assets: seq<NFTDetail>
    var filteredAssets: seq<NFTDetail>
    var isLoading: bool
    var error: Option<string>
    var minPrice: Bound
    var maxPrice: Bound
    var selectedCollections: seq<string>
    var selectedYears: seq<string>
    var selectedDesigners: seq<string>
    var uniqueCollections: seq<string>
    var uniqueYears: seq<string>
    var uniqueDesigners: seq<string>

    /** The facet lists are those of the current assets: they are never stale. */
    ghost predicate FacetsCurrent()
      reads this`assets, this`uniqueCollections, this`uniqueYears, this`uniqueDesigners
    {
      uniqueCollections == UniqueValues(assets, Collection) &&
      uniqueYears == UniqueValues(assets, Year) &&
      uniqueDesigners == UniqueValues(assets, Designer)
    }

    /** The visible assets are a subsequence of the fetched ones. */
    ghost predicate VisibleWithinAssets()
      reads this`assets, this`filteredAssets
    {
      Subsequence(filteredAssets, assets)
    }

    /** The invariant every operation of the page keeps. */
    ghost predicate Valid()
      reads this`assets, this`filteredAssets, this`uniqueCollections, this`uniqueYears, this`uniqueDesigners
    {
      FacetsCurrent() && VisibleWithinAssets()
    }

    function CurrentCriteria(): Criteria
      reads this`minPrice, this`maxPrice, this`selectedCollections, this`selectedYears, this`selectedDesigners
    {
      Criteria(minPrice, maxPrice, selectedCollections, selectedYears, selectedDesigners)
    }

    /** The initial `useState` values. */
    constructor ()
      ensures Valid()
      ensures assets == [] && filteredAssets == [] && !isLoading && error == None
      ensures minPrice == Some(0.0) && maxPrice == Some(InitialMaxPrice)
      ensures selectedCollections == [] && selectedYears == [] && selectedDesigners == []
      ensures uniqueCollections == [] && uniqueYears == [] && uniqueDesigners == []
    {
      assets, filteredAssets := [], [];
      isLoading, error := false, None;
      minPrice, maxPrice := Some(0.0), Some(InitialMaxPrice);
      selectedCollections, selectedYears, selectedDesigners := [], [], [];
      uniqueCollections, uniqueYears, uniqueDesigners := [], [], [];
    }

    /**
     * `fetchNFTs`. `listResult` is what `getNFTList` yields (`None` when it rejects) and `detail`
     * what each `getNFTDetail` call yields (`None` when it rejects); `issued` lists the detail
     * calls made. On success the assets, the visible assets and the facet lists are replaced
     * wholesale, whatever the current criteria; on failure only `error` is set. The filter
     * criteria are never touched and `isLoading` ends false on both paths.
     */
    method FetchNFTs(listResult: Option<seq<Listing>>, detail: DetailRequest -> Option<NFTDetail>)
      returns (issued: seq<DetailRequest>)
      requires Valid()
      modifies this`assets, this`filteredAssets, this`isLoading, this`error
      modifies this`uniqueCollections, this`uniqueYears, this`uniqueDesigners
      ensures Valid()
      ensures !isLoading
      ensures issued == if listResult.Some? then Requests(listResult.value) else []
      ensures FetchOutcome(listResult, detail).Some? ==>
        assets == FetchOutcome(listResult, detail).value &&
        filteredAssets == FetchOutcome(listResult, detail).value &&
        error == old(error)
      ensures FetchOutcome(listResult, detail).None? ==>
        assets == old(assets) && filteredAssets == old(filteredAssets) &&
        uniqueCollections == old(uniqueCollections) && uniqueYears == old(uniqueYears) &&
        uniqueDesigners == old(uniqueDesigners) &&
        error == Some(FetchFailedMessage)
    {
      isLoading := true;
      var outcome: Option<seq<NFTDetail>>;
      if listResult.Some? {
        outcome, issued := FanOut(Requests(listResult.value), detail);
      } else {
        outcome, issued := None, [];
      }
      assert outcome == FetchOutcome(listResult, detail);
      Settle(outcome);
    }

    /** The end of `fetchNFTs`: the outcome is committed or the error set, then loading stops. */
    method Settle(outcome: Option<seq<NFTDetail>>)
      requires Valid()
      modifies this`assets, this`filteredAssets, this`isLoading, this`error
      modifies this`uniqueCollections, this`uniqueYears, this`uniqueDesigners
      ensures Valid()
      ensures !isLoading
      ensures outcome.Some? ==>
        assets == outcome.value && filteredAssets == outcome.value && error == old(error)
      ensures outcome.None? ==>
        assets == old(assets) && filteredAssets == old(filteredAssets) &&
        uniqueCollections == old(uniqueCollections) && uniqueYears == old(uniqueYears) &&
        uniqueDesigners == old(uniqueDesigners) &&
        error == Some(FetchFailedMessage)
    {
      if outcome.Some? {
        Commit(outcome.value);
      } else {
        Fail();
      }
      isLoading := false;
    }

    /** The failure path of `fetchNFTs`: only the error message is set. */
    method Fail()
      modifies this`error
      ensures error == Some(FetchFailedMessage)
    {
      error := Some(FetchFailedMessage);
    }

    /** The success path of `fetchNFTs`: assets, visible assets and facet lists replaced wholesale. */
    method Commit(detailed: seq<NFTDetail>)
      modifies this`assets, this`filteredAssets, this`uniqueCollections, this`uniqueYears, this`uniqueDesigners
      ensures Valid()
      ensures assets == detailed && filteredAssets == detailed
      ensures uniqueCollections == UniqueValues(detailed, Collection)
      ensures uniqueYears == UniqueValues(detailed, Year)
      ensures uniqueDesigners == UniqueValues(detailed, Designer)
    {
      assets := detailed;
      filteredAssets := detailed;
      uniqueCollections := UniqueValues(detailed, Collection);
      uniqueYears := UniqueValues(detailed, Year);
      uniqueDesigners := UniqueValues(detailed, Designer);
      SubsequenceReflexive(detailed);
    }

    /**
     * `applyFilters`: the price stage, then each facet stage whose selection is non-empty,
     * then one write of `filteredAssets`.
     */
    method ApplyFilters()
      requires Valid()
      modifies this`filteredAssets
      ensures Valid()
      ensures filteredAssets == Apply(assets, CurrentCriteria())
    {
      var c := CurrentCriteria();
      var filtered := assets;
      filtered := Filter(filtered, a => PriceOk(c, a));
      var collections, years, designers := selectedCollections, selectedYears, selectedDesigners;
      if |collections| > 0 {
        filtered := Filter(filtered, a => IsSelected(collections, a, Collection));
      }
      if |years| > 0 {
        filtered := Filter(filtered, a => IsSelected(years, a, Year));
      }
      if |designers| > 0 {
        filtered := Filter(filtered, a => IsSelected(designers, a, Designer));
      }
      filteredAssets := filtered;
      ApplySubsequence(assets, c);
    }

    /** A checkbox change in one facet's `FilterSection`: the selection is toggled, nothing else changes. */
    method ToggleSelection(f: Facet, value: string)
      modifies this`selectedCollections, this`selectedYears, this`selectedDesigners
      ensures selectedCollections == if f == Collection then Toggle(old(selectedCollections), value) else old(selectedCollections)
      ensures selectedYears == if f == Year then Toggle(old(selectedYears), value) else old(selectedYears)
      ensures selectedDesigners == if f == Designer then Toggle(old(selectedDesigners), value) else old(selectedDesigners)
    {
      match f {
        case Collection => selectedCollections := Toggle(selectedCollections, value);
        case Year => selectedYears := Toggle(selectedYears, value);
        case Designer => selectedDesigners := Toggle(selectedDesigners, value);
      }
    }

    /** The "Min" input: the lower bound becomes the parsed input text, the upper bound stays (page.tsx, lines 203-205). */
    method SetMinPrice(input: string)
      modifies this`minPrice
      ensures minPrice == ParseFloat(input)
    {
      minPrice := ParseFloat(input);
    }

    /** The "Max" input: the upper bound becomes the parsed input text, the lower bound stays (page.tsx, lines 212-214). */
    method SetMaxPrice(input: string)
      modifies this`maxPrice
      ensures maxPrice == ParseFloat(input)
    {
      maxPrice := ParseFloat(input);
    }
  }

  /**
   * A failed fetch followed by a successful one: the second fetch shows its assets, and the
   * error message of the first stays, because nothing clears `error`.
   */
  method ErrorOutlivesRecovery(listings: seq<Listing>, detail: DetailRequest -> Option<NFTDetail>)
    returns (error: Option<string>, shown: seq<NFTDetail>)
    requires ResolveAll(Requests(listings), detail).Some?
    ensures error == Some(FetchFailedMessage)
    ensures shown == ResolveAll(Requests(listings), detail).value
  {
    var page := new Closet();
    var _ := page.FetchNFTs(None, detail);
    var _ := page.FetchNFTs(Some(listings), detail);
    error, shown := page.error, page.filteredAssets;
  }
}

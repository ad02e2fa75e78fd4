# Marketplace listing pipeline — a Dafny model

This project models the logic of the NFT marketplace page, the `Closet` component in
`src/app/marketplace/page.tsx`, and of its `FilterSection` checkbox list. The modelled logic is:

- **fetching.** `fetchNFTs` keeps the active listings and asks for one detail record per listing,
  in listing order. Either every request succeeds and the asset lists and facet lists are replaced
  wholesale, or one fails, the error message is set and nothing else changes. `isLoading` ends
  false either way;
- **filtering.** `applyFilters` applies an inclusive price range whose falsy bounds (0 or NaN) are
  skipped. It then applies one membership test per facet (collection, year, designer), each of
  which is skipped when nothing is selected for that facet;
- **facets.** The checkbox values of each facet are the distinct non-blank field values of the
  fetched assets, in first-occurrence order (`Array.from(new Set(...))`);
- **selection.** A checkbox toggle removes every occurrence of a selected value or appends an
  unselected one; `checked` is a membership test;
- **`trimAddress`.** It shows the first four characters of a mint address, then `...`, then the
  last four.

Modules, one file each:

| file | module | contents |
|---|---|---|
| `wrappers.dfy` | `Wrappers` | `Option` |
| `js_string.dfy` | `JsString` | `trim` (ECMAScript white space), `slice` with negative-index clamping, `parseFloat` (`None` is NaN) |
| `js_array.dfy` | `JsArray` | `includes`, a stable `filter`, `Array.from(new Set(xs))` as `Distinct`, subsequences |
| `nft.dfy` | `Nft` | the `NFTDetail` record and its three facet fields |
| `filters.dfy` | `Filters` | the filter criteria and `applyFilters` as a function `Apply`, with its properties |
| `facets.dfy` | `Facets` | facet extraction |
| `selection.dfy` | `Selection` | the checkbox toggle and `checked` |
| `resolver.dfy` | `Resolver` | the active-listing filter, the detail requests and the all-or-nothing join |
| `marketplace.dfy` | `Marketplace` | `trimAddress` and the class `Closet` holding the page state, whose methods are `fetchNFTs`, `applyFilters`, the toggles and the price inputs |

`Closet` has one field per `useState` of the page, except that the single `priceRange` pair
(lines 36-38) becomes two fields, `minPrice` and `maxPrice`. A React state setter is a plain field
write.
`Closet.Valid()` is the invariant every method keeps:
- the facet lists are those of the current `assets`;
- `filteredAssets` is a subsequence of `assets`.

The two network calls are parameters of `FetchNFTs`:
- `getNFTList` is `listResult`, an `Option<seq<Listing>>` where `None` means the promise rejected;
- `getNFTDetail` is `detail`, a function from the request's arguments to `Option<NFTDetail>`.

Points where the model follows the code as written:

- After a successful fetch, `filteredAssets` is the whole fetched list, whatever the current
  criteria (lines 79-80). A later `ApplyFilters` call restores the filtered view.
- Nothing resets `error` on success (lines 59-120). `Marketplace.ErrorOutlivesRecovery` shows that
  a failed fetch followed by a successful one leaves the old message shown above the new assets.
- The code has no guard against an older fetch finishing after a newer one and overwriting its
  result. The model does not claim one.
- `priceRange` holds numbers, so its `!== null` test (line 125) always passes and the price stage
  always runs.

## Model

| member | source | states |
|---|---|---|
| JsString.SlicePrefix | src/app/marketplace/page.tsx:28 | `slice(0, k)` is the first `k` characters, or the whole string when it is shorter |
| JsString.SliceSuffix | src/app/marketplace/page.tsx:28 | for `k > 0`, `slice(-k)` is the last `k` characters, or the whole string when it is shorter |
| JsString.TrimStart | src/app/marketplace/page.tsx:87 | the result is the suffix of the input left after a prefix made only of white space, and it is empty or starts with a non-blank character |
| JsString.TrimEnd | src/app/marketplace/page.tsx:87 | the result is the prefix of the input left before a suffix made only of white space, and it is empty or ends with a non-blank character |
| JsString.Trim | src/app/marketplace/page.tsx:87 | both ends trimmed; specified by the contracts of `TrimStart` and `TrimEnd` and by `TrimEmptyIff` |
| JsString.ParseFloat | src/app/marketplace/page.tsx:128-129 | `None` is NaN; specified by `ParseFloatNoneIff`, `ParseFloatDecimal`, `ParseFloatInteger`, `ParseFloatPoint`, `ParseFloatNoDigits`, `ParseFloatNatString` and `ParseFloatNegatedNatString`. The same function models the price inputs at lines 204 and 213 |
| JsArray.Includes | src/app/marketplace/page.tsx:136 | true exactly when some index holds the value |
| JsArray.Filter | src/app/marketplace/page.tsx:126 | no longer than its input, and holding exactly the elements of the input that satisfy the predicate; order kept by `FilterSubsequence` |
| JsArray.Distinct | src/app/marketplace/page.tsx:82-83 | has no duplicates and holds exactly the values of its input; first-occurrence order by `DistinctFirstOccurrenceOrder` |
| Nft.FieldOrEmpty | src/app/marketplace/page.tsx:136 | an absent facet field reads as `""` (likewise lines 143 and 150); used by `Filters.ApplyMembership` |
| Filters.PriceOk | src/app/marketplace/page.tsx:126-130 | a falsy bound is skipped and a truthy bound is compared inclusively with the parsed price, where NaN fails; specified by `ApplyPriceBounds` and `ApplyRejectsUnparsablePrice` |
| Filters.Apply | src/app/marketplace/page.tsx:122-155 | the price stage, then each facet stage whose selection is non-empty; specified by `ApplyIsOneFilter`, `ApplyMembership`, `ApplyCount`, `ApplySubsequence` and `ApplyIdempotent` |
| Facets.Selectable | src/app/marketplace/page.tsx:86-88 | the facet value filter's test; characterised by `SelectableIff` |
| Facets.SelectableIff | src/app/marketplace/page.tsx:86-88 | a value passes exactly when it is present and not all white space |
| Selection.Toggle | src/app/components/FilterSection.tsx:22-26 | the checkbox updater; specified by `ToggleAbsentAppends`, `TogglePresentRemovesAll`, `ToggleTwiceRestores`, `ToggleKeepsNoDuplicates` and `ToggleFlipsMembership` |
| Selection.Checked | src/app/components/FilterSection.tsx:20 | a checkbox is ticked exactly when the selection contains its option |
| Resolver.Active | src/app/marketplace/page.tsx:65-66 | the listings whose `isActive` flag is set, in order; specified by the contract of `JsArray.Filter` and by `FilterSubsequence` |
| Resolver.ResolveAll | src/app/marketplace/page.tsx:78 | the all-or-nothing join; specified by `ResolveAllSpec` |
| Marketplace.TrimAddress | src/app/marketplace/page.tsx:27-28 | with `k` the smaller of 4 and the address length, the result has length `2k+3`: the first `k` characters, then `...`, then the last `k` characters |
| JsString.TrimEmptyIff | src/app/marketplace/page.tsx:86-88 | `v.trim()` is empty exactly when every character of `v` is ECMAScript white space |
| JsString.ParseFloatNoDigits | src/app/marketplace/page.tsx:128-129 | a price string without a decimal digit parses to NaN in the model (`Infinity` is left out) |
| JsString.ParseFloatDecimal | src/app/marketplace/page.tsx:128-129 | white space, an optional sign, digits `a`, a point, digits `b`, then text that does not start with a digit: the value is `a` plus `b` read as a decimal fraction, negated after `-`; the trailing text is ignored, which holds only because exponents are left out (JavaScript reads "1.5e3" as 1500) |
| JsString.ParseFloatNoneIff | src/app/marketplace/page.tsx:128-129 | `parseFloat` gives NaN exactly when, after the leading white space and at most one sign character, the text starts neither with a digit nor with a point followed by a digit (so "$5", "- 5" and "+-1" are NaN) |
| JsString.ParseFloatPoint | src/app/marketplace/page.tsx:203-205 | white space, an optional sign, a point, non-empty digits `b`, then text that does not start with a digit: the value of `b` read as a decimal fraction, negated after `-` (".5" is 0.5); exponents are left out |
| JsString.ParseFloatInteger | src/app/marketplace/page.tsx:128-129 | white space, an optional sign, digits `a`, then text that starts with neither a digit nor a point: the value of `a`, negated after `-` |
| JsString.ParseFloatNatString | src/app/marketplace/page.tsx:128-129 | `parseFloat` reads the decimal form of any natural number back as that number |
| JsString.ParseFloatNegatedNatString | src/app/marketplace/page.tsx:203-205 | `parseFloat` reads a minus sign followed by the decimal form of `m` as `-m` |
| Filters.ApplyIsOneFilter | src/app/marketplace/page.tsx:122-155 | the four successive reassignments of `filtered` equal one stable filter by the conjunction of the price test and the three facet tests |
| Filters.ApplySubsequence | src/app/marketplace/page.tsx:123-154 | the visible list is a subsequence of `assets`: nothing is added and the relative order is kept |
| Filters.ApplyMembership | src/app/marketplace/page.tsx:125-152 | an asset is visible iff it was fetched, passes the price test, and, for each facet whose selection is non-empty, its field (or `""` when absent) is selected |
| Filters.ApplyCount | src/app/marketplace/page.tsx:122-155 | a matching asset keeps all its occurrences and any other asset none |
| Filters.ApplyIdempotent | src/app/marketplace/page.tsx:122-155 | filtering the visible list again with the same criteria changes nothing |
| Filters.ApplyNoCriteria | src/app/marketplace/page.tsx:125-152 | with both bounds falsy and all three selections empty, every asset is visible, in order |
| Filters.ApplyPriceBounds | src/app/marketplace/page.tsx:126-130 | for a visible asset, each truthy bound holds inclusively against its parsed price, which is a number |
| Filters.ApplyRejectsUnparsablePrice | src/app/marketplace/page.tsx:126-130 | an asset whose price parses to NaN is hidden as soon as one bound is truthy |
| Filters.ExamplePriceRange | src/app/marketplace/page.tsx:126-130 | under the range [0, 200], of prices "100" and "500" only the first is visible; the bound 0 is skipped |
| Filters.ApplyUnmatchedSelection | src/app/marketplace/page.tsx:132-152 | a non-empty selection for one facet that contains no asset's field value (or `""` when absent) hides every asset |
| Filters.ExampleUnmatchedCollection | src/app/marketplace/page.tsx:134-138 | the example of one asset of collection "A" under the selection ["B"], with both bounds 0: the visible list is empty |
| Facets.Values | src/app/marketplace/page.tsx:84-88 | every value left by the type-guarded filter is non-blank after trimming |
| Facets.ValuesMembership | src/app/marketplace/page.tsx:84-88 | a string survives the map and filter exactly when it is non-blank and is some asset's field |
| Facets.UniqueValues | src/app/marketplace/page.tsx:81-113 | each facet list has no duplicates and no blank value |
| Facets.UniqueValuesMembership | src/app/marketplace/page.tsx:81-113 | a value is offered exactly when it is not all white space and some asset carries it in that field |
| Facets.UniqueValuesFirstOccurrenceOrder | src/app/marketplace/page.tsx:82-90 | the facet list is in the order in which its values first occur among the assets' field values |
| Selection.ToggleAbsentAppends | src/app/components/FilterSection.tsx:22-25 | toggling an unselected option appends it at the end and keeps the earlier elements |
| Selection.TogglePresentRemovesAll | src/app/components/FilterSection.tsx:23-24 | toggling a selected option removes every occurrence and keeps every other element, as often as before and in the same relative order |
| Selection.ToggleTwiceRestores | src/app/components/FilterSection.tsx:22-26 | toggling an unselected option twice gives back the original list |
| Selection.ToggleKeepsNoDuplicates | src/app/components/FilterSection.tsx:22-26 | a selection without duplicates stays without duplicates |
| Selection.ToggleFlipsMembership | src/app/marketplace/page.tsx:157-167 | a toggle flips the membership of its option and keeps that of every other value |
| Selection.CheckedAfterToggle | src/app/components/FilterSection.tsx:20-26 | after a toggle the option's checkbox shows the opposite state and every other checkbox is unchanged |
| Resolver.Requests | src/app/marketplace/page.tsx:65-76 | exactly one detail request per active listing, in listing order, carrying that listing's mint, seller, price and pubkey |
| Resolver.ResolveAllSpec | src/app/marketplace/page.tsx:78 | the join succeeds iff every request succeeds, and then holds each result at its request's position |
| Resolver.ResolveAllFailsOnAnyFailure | src/app/marketplace/page.tsx:78 | one failing request makes the whole join fail, with no partial list |
| Resolver.FanOut | src/app/marketplace/page.tsx:65-78 | every request is issued, in order, and the outcome is the all-or-nothing join |
| Marketplace.Closet.constructor | src/app/marketplace/page.tsx:31-45 | the initial state: empty lists, no error, not loading, price range [0, 10000000000] |
| Marketplace.Closet.FetchNFTs | src/app/marketplace/page.tsx:59-120 | one detail call per active listing, or none when the list call fails. On success, `assets` and `filteredAssets` are the ordered results and the facet lists are theirs; on any failure, only `error` changes, to "Failed to fetch assets.". `isLoading` ends false and the invariant is kept |
| Marketplace.Closet.Settle | src/app/marketplace/page.tsx:78-119 | the commit or the error write, then `isLoading` false |
| Marketplace.Closet.Commit | src/app/marketplace/page.tsx:79-113 | assets, visible assets and the three facet lists are replaced from the detailed listings, and the invariant holds |
| Marketplace.Closet.Fail | src/app/marketplace/page.tsx:114-116 | the error message is set and nothing else changes |
| Marketplace.Closet.ApplyFilters | src/app/marketplace/page.tsx:122-155 | `filteredAssets` becomes `Apply(assets, criteria)`; the invariant is kept |
| Marketplace.Closet.ToggleSelection | src/app/components/FilterSection.tsx:21-26 | the chosen facet's selection is toggled and the other two are unchanged |
| Marketplace.Closet.SetMinPrice | src/app/marketplace/page.tsx:203-205 | the lower bound becomes `parseFloat` of the input; the upper bound is unchanged |
| Marketplace.Closet.SetMaxPrice | src/app/marketplace/page.tsx:212-214 | the upper bound becomes `parseFloat` of the input; the lower bound is unchanged |
| Marketplace.ErrorOutlivesRecovery | src/app/marketplace/page.tsx:114-116 | after a failed fetch and then a successful one, the fetched assets are shown and the error message is still set |

## Left out

- `getNFTList`, `getNFTDetail`, `AnchorProvider` and `PublicKey` (lines 62-76) call into
  libraries and the network. Their results are the parameters `listResult` and `detail`.
  Constructing the provider or a `PublicKey` is assumed not to throw.
- `Promise.all` runs the detail requests concurrently. The model issues them in order and joins
  them all-or-nothing, which gives the same committed state. Overlapping `fetchNFTs` calls
  started by wallet changes (lines 51-53) are not modelled, because there is no guard to verify.
- React scheduling (lines 31-57) is not modelled. The effect that re-runs `applyFilters` when the
  criteria change becomes a call of `Closet.ApplyFilters` by the caller. Batching of the setters
  is not modelled either.
- The number inputs' own value handling is left out: the price handlers receive the input's text
  and store `parseFloat` of it.
- Marketplace.TrimAddress: strings are modelled as sequences of Unicode code points, while
  JavaScript's `slice` counts UTF-16 code units. The two agree on text without characters outside
  the Basic Multilingual Plane, such as the base58 mint addresses the page shows.
- `parseFloat` and the price comparisons are modelled on exact rationals. The model leaves out
  IEEE rounding, exponents (`1e3`), `Infinity`, and the sign of `-0`.
- Facets.UniqueValuesFirstOccurrenceOrder: the order is stated relative to the list of mapped and
  filtered field values, not to asset indices.
- The JSX rendering, skeleton placeholders and `console.error` (lines 115, 169-298) are left out,
  and so is the markup of `FilterSection.tsx`. The record fields `image`, `group`, `name` and
  `symbol` are carried but never interpreted.
- `@/utils/nftMarket` is not part of this model. The page never interprets a listing's `price`:
  it only passes it on to the detail call. The model therefore carries it as an opaque value,
  for which it uses the type `nat`.
- `src/app/components/SignInButton.tsx`, `src/app/components/SignOutButton.tsx` and
  `src/app/api/auth/[...nextauth]/route.js` only call next-auth, so they are left out.

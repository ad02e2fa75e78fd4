/** The asset record the marketplace page displays and filters (`NFTDetail`). */
module Nft {
  import opened Wrappers

  /** One resolved listing; the optional fields are `undefined` when the metadata lacks them. */
  datatype NFTDetail = NFTDetail(
    name: string,
    symbol: string,
    image: Option<string>,
    group: Option<string>,
    mint: string,
    seller: string,
    price: string,
    listing: string,
    collection: Option<string>,
    designer: Option<string>,
    year: Option<string>)

  /** The three taxonomy fields an asset can be filtered by. */
  datatype Facet = Collection | Year | Designer

  function FieldOf(a: NFTDetail, f: Facet): Option<string> {
    match f
    case Collection => a.collection
    case Year => a.year
    case Designer => a.designer
  }

  /** A facet field as the facet filters compare it: an absent field reads as "" (page.tsx, lines 136, 143, 150). */
  function FieldOrEmpty(a: NFTDetail, f: Facet): string {
    match FieldOf(a, f)
    case Some(v) => v
    case None => ""
  }
}

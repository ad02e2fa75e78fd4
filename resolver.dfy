/**
 * The listing resolver inside `fetchNFTs`: keep the active listings, ask for one detail record
 * per listing in listing order, and succeed only if every detail request succeeds.
 */
module Resolver {
  import opened Wrappers
  import opened JsArray
  import opened Nft

  /**
   * A raw listing record as the listing source returns it. Its `price` is only passed on to the
   * detail call, never interpreted, so any type would do; `nat` stands in for it.
   */
  datatype Listing = Listing(mint: string, seller: string, price: nat, pubkey: string, isActive: bool)

  /** The listing-specific arguments of one detail call: mint, seller, price and listing key (page.tsx, lines 68-75). */
  datatype DetailRequest = DetailRequest(mint: string, seller: string, price: nat, listing: string)

  /** The listings whose `isActive` flag is set, in their original order (page.tsx, line 66). */
  function Active(listings: seq<Listing>): seq<Listing> {
    Filter(listings, (l: Listing) => l.isActive)
  }

  function RequestFor(l: Listing): DetailRequest {
    DetailRequest(l.mint, l.seller, l.price, l.pubkey)
  }

  /** One detail request per active listing, in listing order (page.tsx, lines 67-76). */
  function Requests(listings: seq<Listing>): (rs: seq<DetailRequest>)
    ensures var active := Active(listings);
      |rs| == |active| && forall i :: 0 <= i < |rs| ==> rs[i] == RequestFor(active[i])
  {
    var active := Active(listings);
    seq(|active|, i requires 0 <= i < |active| => RequestFor(active[i]))
  }

  /**
   * `Promise.all` over the detail requests: the results in request order when every request
   * succeeds, `None` as soon as one of them fails.
   */
  function ResolveAll(rs: seq<DetailRequest>, detail: DetailRequest -> Option<NFTDetail>): Option<seq<NFTDetail>> {
    if rs == [] then Some([])
    else
      match ResolveAll(rs[..|rs| - 1], detail)
      case None => None
      case Some(done) =>
        match detail(rs[|rs| - 1])
        case None => None
        case Some(d) => Some(done + [d])
  }

  /** The join succeeds exactly when every request succeeds, and then holds each result at its request's position. */
  lemma {:induction false} ResolveAllSpec(rs: seq<DetailRequest>, detail: DetailRequest -> Option<NFTDetail>)
    ensures ResolveAll(rs, detail).Some? <==> forall i :: 0 <= i < |rs| ==> detail(rs[i]).Some?
    ensures ResolveAll(rs, detail).Some? ==>
      var r := ResolveAll(rs, detail).value;
      |r| == |rs| && forall i :: 0 <= i < |rs| ==> r[i] == detail(rs[i]).value
  {
    if rs != [] {
      var init := rs[..|rs| - 1];
      ResolveAllSpec(init, detail);
      assert forall i :: 0 <= i < |init| ==> init[i] == rs[i];
    }
  }

  /** One failing request makes the whole join fail: no partial list is produced. */
  lemma ResolveAllFailsOnAnyFailure(rs: seq<DetailRequest>, detail: DetailRequest -> Option<NFTDetail>, k: nat)
    requires k < |rs| && detail(rs[k]).None?
    ensures ResolveAll(rs, detail) == None
  {
    ResolveAllSpec(rs, detail);
  }

  /**
   * The fan-out and join of `fetchNFTs`: every detail request is issued, in order (the `.map`
   * starts them all before `Promise.all` is awaited), and the outcome is the all-or-nothing join.
   */
  method FanOut(requests: seq<DetailRequest>, detail: DetailRequest -> Option<NFTDetail>)
    returns (outcome: Option<seq<NFTDetail>>, issued: seq<DetailRequest>)
    ensures issued == requests
    ensures outcome == ResolveAll(requests, detail)
  {
    outcome, issued := Some([]), [];
    var i := 0;
    while i < |requests|
      invariant 0 <= i <= |requests|
      invariant issued == requests[..i]
      invariant outcome == ResolveAll(requests[..i], detail)
    {
      var response := detail(requests[i]);
      outcome := match (outcome, response)
        case (Some(done), Some(d)) => Some(done + [d])
        case _ => None;
      issued := issued + [requests[i]];
      assert requests[..i + 1][..i] == requests[..i];
      i := i + 1;
    }
    assert requests[..i] == requests;
  }
}

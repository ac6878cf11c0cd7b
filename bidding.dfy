/** How one auction is offered to the signed-in user: as one to bid on, as
    the user's own auction, or as one the user is already winning. */
module Bidding {
  import opened Auctions

  datatype BidState = CanBid | OwnAuction | HighestBidder

  /** The classification of `renderAuctions`: start at CAN_BID, override with
      OWN_AUCTION when the user is the seller, then override with
      HIGHEST_BIDDER when the user holds the highest bid. The comparisons are
      strict equalities against the user's `email`, which may be undefined. */
  function ClassifyBid(a: Auction, email: Ident): (r: BidState)
    ensures r == HighestBidder <==> a.highestBid.bidder == email
    ensures r == OwnAuction <==> Str(a.seller) == email && a.highestBid.bidder != email
    ensures r == CanBid <==> Str(a.seller) != email && a.highestBid.bidder != email
  {
    var initial := CanBid;
    var afterSeller := if Str(a.seller) == email then OwnAuction else initial;
    if a.highestBid.bidder == email then HighestBidder else afterSeller
  }

  /** The highest-bidder check runs last, so a seller who also holds the
      highest bid on their own auction is shown as the highest bidder. */
  lemma SellerAndBidderIsHighestBidder(a: Auction, user: string)
    requires a.seller == user && a.highestBid.bidder == Str(user)
    ensures ClassifyBid(a, Str(user)) == HighestBidder
  {
  }

  /** With no bids yet, a signed-in user is never shown as the highest
      bidder; a user whose `email` is undefined, however, is, because
      `undefined === undefined`. */
  lemma NoBidsYet(a: Auction, email: Ident)
    requires a.highestBid.bidder == Undefined
    ensures email.Str? ==> ClassifyBid(a, email) != HighestBidder
    ensures email == Undefined ==> ClassifyBid(a, email) == HighestBidder
  {
  }
}

/** The values the auctions page reads from its collaborators: auctions as the
    auction store holds them, the identity of the signed-in user, and the
    commands the page hands back to the store and the router. */
module Auctions {

  /** A string-valued JavaScript property that may also be `undefined`.
      Strict equality (`===`) on such values is equality of this datatype:
      two strings are equal when their characters are, `undefined` equals
      only `undefined`. */
  datatype Ident = Undefined | Str(text: string)

  /** The highest bid of an auction. An auction nobody has bid on yet has
      no bidder. */
  datatype Bid = Bid(bidder: Ident)

  /** An auction snapshot; `endingAt` is the ending instant as an integer
      timestamp (the same scale as the page's notion of "now"). */
  datatype Auction = Auction(id: string, seller: string, endingAt: int, highestBid: Bid)

  /** What the page asks of the outside world: a refresh of the auction
      store, marking one auction as the one being bid on, or a navigation. */
  datatype Command =
    | FetchAuctions
    | SetBiddingOn(auction: Auction)
    | Navigate(path: string)
}

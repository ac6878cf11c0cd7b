/** The body of the auctions page: a loader, an empty-state invitation, or
    one card per visible auction. */
module Rendering {
  import opened Auctions
  import opened Bidding

  /** One auction card: the auction, how it is offered to the user, and what
      its bid action asks of the store. */
  datatype Card = Card(auction: Auction, bidState: BidState, onBid: Command)

  datatype Body =
    | Loader
    | NoAuctionsMessage
    | Cards(cards: seq<Card>)

  /** The card for one visible auction. */
  function RenderCard(a: Auction, email: Ident): Card
  {
    Card(a, ClassifyBid(a, email), SetBiddingOn(a))
  }

  /** `auctionsData.map(...)`: one card per auction, in list order. */
  function RenderCards(auctionsData: seq<Auction>, email: Ident): (cs: seq<Card>)
    ensures |cs| == |auctionsData|
    ensures forall i :: 0 <= i < |cs| ==>
      cs[i].auction == auctionsData[i] && cs[i].onBid == SetBiddingOn(auctionsData[i])
      && cs[i].bidState == ClassifyBid(auctionsData[i], email)
  {
    if auctionsData == [] then []
    else [RenderCard(auctionsData[0], email)] + RenderCards(auctionsData[1..], email)
  }

  /** `renderAuctions`: the loader while loading, whatever the list holds;
      the empty-state message once loaded with nothing visible; otherwise the
      cards. The second test repeats `!loading`, which cannot be false there. */
  function RenderAuctions(loading: bool, auctionsData: seq<Auction>, email: Ident): (b: Body)
    ensures loading <==> b == Loader
    ensures b == NoAuctionsMessage <==> !loading && auctionsData == []
    ensures b.Cards? ==> |b.cards| == |auctionsData| > 0
    ensures b.Cards? ==> forall i :: 0 <= i < |b.cards| ==>
      b.cards[i].auction == auctionsData[i] && b.cards[i].bidState == ClassifyBid(auctionsData[i], email)
  {
    if loading then Loader
    else if |auctionsData| == 0 && !loading then NoAuctionsMessage
    else Cards(RenderCards(auctionsData, email))
  }
}

/** The state the auctions page keeps between renders and the events that
    change it: the first fetch completing, the store's collection changing,
    a polling tick and the create button. */
module AuctionsPage {
  import opened Auctions
  import opened Visibility
  import opened Rendering

  /** The two paths on which a polling tick refreshes the store. */
  predicate OnAuctionsRoute(path: string) {
    path == "/auctions" || path == "/"
  }

  class Page {
    /** True until the first fetch of the store has completed. */
    var loading: bool
    /** The visible auctions, as last derived from the store's collection. */
    var auctionsData: seq<Auction>
    /** Whether the polling interval has been started. */
    var polling: bool

    /** The interval is started right after `loading` is cleared, in the same
        continuation, so the two never disagree. */
    ghost predicate Valid()
      reads this
    {
      polling == !loading
    }

    /** Mounting: loading, nothing visible yet, no interval. */
    constructor ()
      ensures Valid()
      ensures loading && auctionsData == [] && !polling
    {
      loading := true;
      auctionsData := [];
      polling := false;
    }

    /** The first `fetchAuctions` has completed: `loading` is cleared and the
        polling interval is started. Nothing sets `loading` back. */
    method FirstFetchDone()
      requires Valid()
      modifies this
      ensures Valid()
      ensures !loading && polling
      ensures auctionsData == old(auctionsData)
    {
      loading := false;
      polling := true;
    }

    /** The store's collection has changed: a non-empty collection replaces
        the visible list by its filtered copy at `now`; an empty one leaves
        the previous visible list in place. `loading` is not touched. */
    method CollectionChanged(auctions: seq<Auction>, now: int)
      requires Valid()
      modifies this`auctionsData
      ensures Valid()
      ensures |auctions| > 0 ==> auctionsData == FilterVisible(auctions, now)
      ensures |auctions| == 0 ==> auctionsData == old(auctionsData)
    {
      if |auctions| > 0 {
        var filteredAuctions := FilterVisible(auctions, now);
        auctionsData := filteredAuctions;
      }
    }

    /** One tick of the polling interval, which runs only once the interval
        has been started: it asks for a refresh exactly on the auctions
        route or the root, and changes nothing on the page. */
    method Tick(path: string) returns (fetch: bool)
      requires Valid() && !loading
      ensures fetch <==> path == "/auctions" || path == "/"
    {
      fetch := OnAuctionsRoute(path);
    }

    /** The create button: navigates to the creation page and leaves the
        page's state alone. */
    method CreateClicked() returns (cmd: Command)
      ensures cmd.Navigate? && cmd.path == "/create"
    {
      cmd := Navigate("/create");
    }

    /** What the page shows for the user `email` in its current state: the
        loader exactly while loading, the empty-state message exactly when
        loaded with nothing visible, and otherwise the cards of the visible
        list. */
    function View(email: Ident): (v: Body)
      reads this
      ensures loading <==> v == Loader
      ensures v == NoAuctionsMessage <==> !loading && auctionsData == []
      ensures v.Cards? ==> v.cards == RenderCards(auctionsData, email) && auctionsData != []
    {
      RenderAuctions(loading, auctionsData, email)
    }
  }

  /** Mounting, one collection change, then the first fetch completing:
      before the fetch completes only the loader shows, whatever the
      collection holds; afterwards the empty-state message shows exactly when
      nothing in the collection is still open, and otherwise one card per
      auction that is. */
  method MountAndLoad(auctions: seq<Auction>, now: int, email: Ident) returns (before: Body, after: Body)
    ensures before == Loader
    ensures after == if forall i :: 0 <= i < |auctions| ==> auctions[i].endingAt < now
                     then NoAuctionsMessage
                     else Cards(RenderCards(FilterVisible(auctions, now), email))
  {
    var page := new Page();
    page.CollectionChanged(auctions, now);
    before := page.View(email);
    page.FirstFetchDone();
    after := page.View(email);
    if after == NoAuctionsMessage && |auctions| > 0 {
      forall i | 0 <= i < |auctions| ensures auctions[i].endingAt < now {
        VisibleMembership(auctions, now, auctions[i]);
      }
    }
    if forall i :: 0 <= i < |auctions| ==> auctions[i].endingAt < now {
      if FilterVisible(auctions, now) != [] {
        var a := FilterVisible(auctions, now)[0];
        VisibleMembership(auctions, now, a);
      }
    }
  }
}

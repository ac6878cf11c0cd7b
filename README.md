# Auctions page: a Dafny model

This project models the decision logic of the auctions page of a serverless
auctions web client (`src/pages/AuctionsPage.js`), separated from React,
MobX and the date library. The page

- keeps a `loading` flag, cleared once the first `fetchAuctions` of the
  auction store has completed, after which a polling interval is started;
- derives its visible list `auctionsData` from the store's collection each
  time that collection changes, dropping every auction whose ending time
  "now" is strictly after, and only when the collection is non-empty;
- shows a loader while loading, an invitation to create an auction when
  nothing is visible, and otherwise one card per visible auction, each with a
  bid state (`CAN_BID`, `OWN_AUCTION`, `HIGHEST_BIDDER`) for the signed-in
  user and a bid action that marks the auction as the one being bid on;
- on each polling tick asks for a refresh only on `/auctions` or `/`;
- sends the user to `/create` from its floating create button.

Times are integers and "now" is a parameter. Identities that JavaScript may
hold as `undefined` (the highest bid's bidder before anyone has bid, the
user's `email`) are the datatype `Auctions.Ident`, whose equality is the
source's strict equality, so `undefined === undefined` holds in the model as
it does in the source.

Modules: `Auctions` (the values read from the store and the commands sent to
it), `Visibility` (the expiry filter), `Bidding` (bid states), `Rendering`
(loader / empty message / cards) and `AuctionsPage` (the class `Page` holding
`loading`, `auctionsData` and whether the interval has started, with one
method per event).

Two consequences of the code as written that the model makes explicit:
an auction with no bids shown to a user whose `email` is undefined is
classified `HIGHEST_BIDDER` (`Bidding.NoBidsYet`); and because an empty
collection does not reach `setAuctionsData`, a collection that becomes empty
leaves the previously visible auctions on screen
(`AuctionsPage.Page.CollectionChanged`). The filter also runs only when the
collection changes, so an auction that expires between two changes stays
visible until the next one.

## Model

| member | source | states |
|---|---|---|
| `Visibility.Callback` | src/pages/AuctionsPage.js:60-66 | the filter callback's result is truthy exactly when now is not strictly after the ending time (`isAfter` is strict; a passed auction yields `undefined`) |
| `Visibility.FilterVisible` | src/pages/AuctionsPage.js:60-66 | the visible list is no longer than the collection and every auction in it ends at or after now |
| `Visibility.VisibleMembership` | src/pages/AuctionsPage.js:60-66 | an auction is visible if and only if it is in the collection and has not passed |
| `Visibility.VisibleMultiplicity` | src/pages/AuctionsPage.js:60-66 | every auction that has not passed keeps all its occurrences, every passed one loses all of them |
| `Visibility.VisibleIsSubsequence` | src/pages/AuctionsPage.js:60-68 | the visible list is a subsequence of the collection: same order, nothing added or re-sorted |
| `Visibility.EndingNowIsVisible` | src/pages/AuctionsPage.js:61-65 | an auction ending exactly at now stays visible |
| `Visibility.FilterAppend` | src/pages/AuctionsPage.js:60-66 | a property of the filter rather than of a page step (the page never filters a concatenation): each auction is decided on its own, so filtering a concatenation is the concatenation of the filtered parts |
| `Visibility.FilterLater` | src/pages/AuctionsPage.js:60-66 | a property of the filter rather than of a page step (the page never re-filters its visible list): filtering an already filtered list at a later time equals filtering the collection at that time, and at the same time it is idempotent |
| `Bidding.ClassifyBid` | src/pages/AuctionsPage.js:94-102 | HIGHEST_BIDDER iff the highest bidder is the user; OWN_AUCTION iff the user is the seller and not the highest bidder; CAN_BID otherwise |
| `Bidding.SellerAndBidderIsHighestBidder` | src/pages/AuctionsPage.js:96-102 | the later highest-bidder check wins over OWN_AUCTION when the user is both seller and highest bidder |
| `Bidding.NoBidsYet` | src/pages/AuctionsPage.js:100-102 | with no bidder, a signed-in user is never HIGHEST_BIDDER, while a user with undefined email is |
| `Rendering.RenderCards` | src/pages/AuctionsPage.js:93-112 | exactly one card per visible auction, in list order, each carrying its auction, that auction's bid state for the user, and a bid action selecting that auction in the store |
| `Rendering.RenderAuctions` | src/pages/AuctionsPage.js:77-93 | the loader iff loading, whatever the list holds; the empty-state message iff loaded and nothing visible; otherwise one card per visible auction in order |
| `AuctionsPage.Page.constructor` | src/pages/AuctionsPage.js:41-44 | a mounted page starts loading, with an empty visible list and no polling interval |
| `AuctionsPage.Page.FirstFetchDone` | src/pages/AuctionsPage.js:48-50 | the first completed fetch clears loading for good and starts polling, leaving the visible list unchanged |
| `AuctionsPage.Page.CollectionChanged` | src/pages/AuctionsPage.js:58-71 | a non-empty collection replaces the visible list by its filtered copy; an empty one leaves the previous list; loading is not touched |
| `AuctionsPage.Page.Tick` | src/pages/AuctionsPage.js:50-53 | a polling tick, which only happens once the first fetch has completed, requests a fetch if and only if the path is `/auctions` or `/` |
| `AuctionsPage.Page.CreateClicked` | src/pages/AuctionsPage.js:127 | the create button navigates to `/create` and changes no page state |
| `AuctionsPage.Page.View` | src/pages/AuctionsPage.js:116-120 | what the page renders from its own state: the loader iff loading, the empty-state message iff loaded with an empty visible list, otherwise the cards of the visible list |
| `AuctionsPage.MountAndLoad` | src/pages/AuctionsPage.js:41-93 | before the first fetch completes only the loader shows, whatever the collection holds; after it, the empty-state message shows iff every auction of the collection has passed, and otherwise exactly the cards of the collection's open auctions, in order, each with its bid state |

## Left out

- JSX, Material-UI styles and layout constants (lines 5-37, 104-133 apart from the card's data): presentation only.
- React's effect scheduling, dependency arrays and the `JSON.stringify` change detection: a change of the collection is the explicit call `Page.CollectionChanged`.
- The interval's period (`REACT_APP_REFRESH_RATE`), real timers, and that the interval is never cancelled: only the per-tick route guard is modelled.
- `fetchAuctions` and `setBiddingOn` on the store, `inject`/`observer`: external I/O and framework wrapping; the fetch is the event `Page.FirstFetchDone` and a tick's result, the bid action is the command `SetBiddingOn`.
- A fetch that never completes or fails: the page then stays loading; the model has no such event beyond not calling `FirstFetchDone`.
- `moment` parsing and the wall clock: times are integers and "now" is a parameter, the same for every auction of one filter run.
- An auction without a `highestBid` object, on which the source would throw: the model's auctions always have one.
- The `Auction` card and `BidModal` components: their source is not part of this model.

/** The filter that derives the visible auctions from the store's collection:
    an auction is dropped once "now" is strictly after its ending time. */
module Visibility {
  import opened Auctions

  /** The value a JavaScript filter callback returns. The page's callback
      returns `true` for an auction it keeps and falls off its end, returning
      `undefined`, for one it drops. */
  datatype JsValue = JsTrue | JsUndefined

  /** JavaScript truthiness, restricted to the values the callback returns. */
  predicate Truthy(v: JsValue) {
    v == JsTrue
  }

  /** `currentDateTime.isAfter(auctionTime)`: strictly after. */
  predicate HasPassed(now: int, endingAt: int) {
    now > endingAt
  }

  /** The filter callback for one auction, evaluated at `now`. */
  function Callback(a: Auction, now: int): (v: JsValue)
    ensures Truthy(v) <==> now <= a.endingAt
  {
    var hasPassed := HasPassed(now, a.endingAt);
    if !hasPassed then JsTrue else JsUndefined
  }

  /** `auctions.filter(callback)`: the auctions, in order, whose callback
      result is truthy. */
  function FilterVisible(auctions: seq<Auction>, now: int): (r: seq<Auction>)
    ensures |r| <= |auctions|
    ensures forall i :: 0 <= i < |r| ==> now <= r[i].endingAt
  {
    if auctions == [] then []
    else
      var rest := FilterVisible(auctions[1..], now);
      if Truthy(Callback(auctions[0], now)) then [auctions[0]] + rest else rest
  }

  /** `sub` is `s` with zero or more elements removed and nothing reordered. */
  ghost predicate IsSubsequence<T>(sub: seq<T>, s: seq<T>)
    decreases |s|
  {
    if sub == [] then true
    else if s == [] then false
    else (sub[0] == s[0] && IsSubsequence(sub[1..], s[1..])) || IsSubsequence(sub, s[1..])
  }

  /** An auction is visible exactly when it is in the collection and has not
      passed; in particular an auction ending exactly at `now` is visible. */
  lemma {:induction false} VisibleMembership(auctions: seq<Auction>, now: int, a: Auction)
    ensures a in FilterVisible(auctions, now) <==> a in auctions && now <= a.endingAt
  {
    if auctions != [] {
      VisibleMembership(auctions[1..], now, a);
      assert auctions == [auctions[0]] + auctions[1..];
    }
  }

  /** "Exactly those", counting duplicates: every auction that has not passed
      keeps all its occurrences and every passed one loses all of them. */
  lemma {:induction false} VisibleMultiplicity(auctions: seq<Auction>, now: int, a: Auction)
    ensures multiset(FilterVisible(auctions, now))[a]
         == if now <= a.endingAt then multiset(auctions)[a] else 0
  {
    if auctions != [] {
      VisibleMultiplicity(auctions[1..], now, a);
      assert auctions == [auctions[0]] + auctions[1..];
    }
  }

  /** The visible list keeps the collection's order: nothing is re-sorted or
      added. */
  lemma {:induction false} VisibleIsSubsequence(auctions: seq<Auction>, now: int)
    ensures IsSubsequence(FilterVisible(auctions, now), auctions)
  {
    if auctions != [] {
      VisibleIsSubsequence(auctions[1..], now);
      var rest := FilterVisible(auctions[1..], now);
      if now <= auctions[0].endingAt {
        assert ([auctions[0]] + rest)[1..] == rest;
      }
    }
  }

  /** The tie at "now": an auction of the collection that ends exactly now
      stays visible. */
  lemma EndingNowIsVisible(auctions: seq<Auction>, now: int, a: Auction)
    requires a in auctions && a.endingAt == now
    ensures a in FilterVisible(auctions, now)
  {
    VisibleMembership(auctions, now, a);
  }

  /** Filtering a concatenation filters each part. */
  lemma {:induction false} FilterAppend(s: seq<Auction>, t: seq<Auction>, now: int)
    ensures FilterVisible(s + t, now) == FilterVisible(s, now) + FilterVisible(t, now)
  {
    if s != [] {
      assert (s + t)[1..] == s[1..] + t;
      FilterAppend(s[1..], t, now);
    } else {
      assert s + t == t;
    }
  }

  /** Re-filtering an already filtered list at a later (or the same) time is
      the same as filtering the collection at that later time; at the same
      time it changes nothing. */
  lemma {:induction false} FilterLater(auctions: seq<Auction>, earlier: int, later: int)
    requires earlier <= later
    ensures FilterVisible(FilterVisible(auctions, earlier), later) == FilterVisible(auctions, later)
  {
    if auctions != [] {
      FilterLater(auctions[1..], earlier, later);
      if earlier <= auctions[0].endingAt {
        assert ([auctions[0]] + FilterVisible(auctions[1..], earlier))[1..]
            == FilterVisible(auctions[1..], earlier);
      }
    }
  }
}

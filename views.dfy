/**
 The bidding and closing logic of the listing page in auctions/views.py, and
 listing creation. One POST to the listing page is one sequential step: the
 bid branch validates, records and advances the price; the close branch lets
 the seller of an active listing settle it. The steps are specified by
 functions on the listing's record and its bids; the methods perform them on
 the listing object and the bid table and are proved against those functions.
 */
module Views {
  import opened Wrappers
  import opened Bids
  import opened Listings

  /** `request.user`: an anonymous visitor or a logged-in user. */
  datatype Requester = Anonymous | Authenticated(user: UserId)

  /** `request.user == listing.seller`; an anonymous visitor is never the seller. */
  predicate IsSeller(who: Requester, r: ListingRecord)
  {
    who == Authenticated(r.seller)
  }

  /**
   What a bid attempt comes to. `AnonymousBidder`: the bid passed validation but
   the store refuses to create a bid without a user, so the request fails and
   nothing is written.
   */
  datatype BidOutcome = Accepted | SellerCannotBid | AuctionClosed | BidTooLow | AnonymousBidder

  /** The amount a new bid has to exceed: the starting bid, or the highest bid if higher. */
  function Floor(r: ListingRecord, bids: seq<Bid>): (f: Cents)
    ensures f >= r.startingBid
    ensures forall b :: b in bids ==> b.amount <= f
  {
    if bids == [] then r.startingBid else Max(r.startingBid, MaxAmount(bids))
  }

  /** The acceptance condition of the bid branch, over the bids in highest-first order. */
  predicate Acceptable(r: ListingRecord, bids: seq<Bid>, who: Requester, amount: Cents): (a: bool)
    ensures a ==> r.isActive && !IsSeller(who, r) && amount > r.startingBid
    ensures a ==> forall b :: b in bids ==> amount > b.amount
  {
    r.isActive && amount > r.startingBid && (bids == [] || amount > MaxAmount(bids))
    && !IsSeller(who, r)
  }

  /** The bid validator: acceptance, else the first rejection reason in the order
      seller, closed listing, amount too low. */
  function Validate(r: ListingRecord, bids: seq<Bid>, who: Requester, amount: Cents): (o: BidOutcome)
    ensures o != AnonymousBidder
    ensures o == Accepted <==> r.isActive && !IsSeller(who, r) && amount > Floor(r, bids)
    ensures IsSeller(who, r) ==> o == SellerCannotBid
    ensures !IsSeller(who, r) && !r.isActive ==> o == AuctionClosed
    ensures !IsSeller(who, r) && r.isActive && amount <= Floor(r, bids) ==> o == BidTooLow
  {
    if Acceptable(r, bids, who, amount) then Accepted
    else if IsSeller(who, r) then SellerCannotBid
    else if !r.isActive then AuctionClosed
    else BidTooLow
  }

  /** The effect of one bid attempt: its outcome, the listing afterwards and the
      bids it adds to the table. */
  datatype BidEffect = BidEffect(outcome: BidOutcome, listing: ListingRecord, recorded: seq<Bid>)

  /** The bid branch: on acceptance one bid is created and the price is advanced. */
  function BidStep(r: ListingRecord, bids: seq<Bid>, who: Requester, amount: Cents): (e: BidEffect)
    requires r.currentPrice.Some?
    ensures e.listing.currentPrice.Some?
    ensures e.outcome == Accepted <==> Validate(r, bids, who, amount) == Accepted && who.Authenticated?
    ensures e.outcome == Accepted ==>
              e.recorded == [Bid(who.user, r.id, amount)] && e.listing == PriceUpdated(r, amount)
    ensures e.outcome != Accepted ==> e.recorded == [] && e.listing == r
  {
    var o := Validate(r, bids, who, amount);
    if o != Accepted then BidEffect(o, r, [])
    else if who.Anonymous? then BidEffect(AnonymousBidder, r, [])
    else BidEffect(Accepted, PriceUpdated(r, amount), [Bid(who.user, r.id, amount)])
  }

  /** `can_close_auction`: the requester is the seller and the listing is active. */
  predicate CanClose(r: ListingRecord, who: Requester): (c: bool)
    ensures c ==> who.Authenticated? && who.user == r.seller
    ensures !r.isActive ==> !c
  {
    IsSeller(who, r) && r.isActive
  }

  /** `user_won`: a logged-in user who is the winner of an inactive listing. */
  predicate UserWon(r: ListingRecord, who: Requester): (w: bool)
    ensures w ==> who.Authenticated? && r.winner.Some? && r.winner.value == who.user
    ensures r.isActive ==> !w
  {
    who.Authenticated? && !r.isActive && r.winner == Some(who.user)
  }

  /** The close branch: only the seller of an active listing closes it. */
  function CloseStep(r: ListingRecord, bids: seq<Bid>, who: Requester): (s: ListingRecord)
    requires r.currentPrice.Some?
    ensures s.currentPrice.Some?
    ensures s != r ==> CanClose(r, who) && bids != []
  {
    if CanClose(r, who) then Closed(r, bids) else r
  }

  /** One POST to the listing page: an optional bid amount and an optional close request. */
  datatype Post = Post(who: Requester, bidAmount: Option<Cents>, closeRequested: bool)

  /** What one POST did: the bid outcome if a bid was sent, whether the close branch ran,
      the listing afterwards and the bids recorded. */
  datatype PostEffect = PostEffect(
    bidOutcome: Option<BidOutcome>, closed: bool, listing: ListingRecord, recorded: seq<Bid>)

  /**
   The bid branch runs first. An accepted bid ends the request with a redirect,
   and so does the failure of an anonymous bid; after a rejected bid the request
   goes on to the close branch with the listing unchanged.
   */
  function PostStep(r: ListingRecord, bids: seq<Bid>, p: Post): (e: PostEffect)
    requires r.currentPrice.Some?
    ensures e.listing.currentPrice.Some?
    ensures e.recorded != [] ==> e.bidOutcome == Some(Accepted)
    ensures e.closed ==> CanClose(r, p.who) && p.closeRequested
  {
    var bidOutcome := if p.bidAmount.Some? then Some(BidStep(r, bids, p.who, p.bidAmount.value).outcome) else None;
    if bidOutcome == Some(Accepted) || bidOutcome == Some(AnonymousBidder) then
      var e := BidStep(r, bids, p.who, p.bidAmount.value);
      PostEffect(bidOutcome, false, e.listing, e.recorded)
    else if p.closeRequested && CanClose(r, p.who) then
      PostEffect(bidOutcome, true, CloseStep(r, bids, p.who), [])
    else
      PostEffect(bidOutcome, false, r, [])
  }

  /** A sequence of POSTs, one after another, on one listing and its bids. */
  function Run(r: ListingRecord, bids: seq<Bid>, posts: seq<Post>): (res: (ListingRecord, seq<Bid>))
    requires r.currentPrice.Some?
    ensures res.0.currentPrice.Some?
    ensures |bids| <= |res.1| && res.1[..|bids|] == bids
    decreases |posts|
  {
    if posts == [] then (r, bids)
    else
      var e := PostStep(r, bids, posts[0]);
      Run(e.listing, bids + e.recorded, posts[1..])
  }

  /** `create_listing`: the seller is the creating user, the price starts at the starting bid. */
  function Created(id: ListingId, startingBid: Cents, seller: UserId): (r: ListingRecord)
    ensures r == ListingRecord(id, startingBid, Some(startingBid), true, seller, None)
  {
    Saved(ListingRecord(id, startingBid, Some(startingBid), true, seller, None))
  }

  /** The price the listing shows: the latest (and so highest) bid, or the starting bid. */
  function Leading(r: ListingRecord, bids: seq<Bid>): (c: Cents)
    ensures bids == [] ==> c == r.startingBid
    ensures bids != [] ==> exists b :: b in bids && b.amount == c
  {
    if bids == [] then r.startingBid else bids[|bids| - 1].amount
  }

  /**
   The state a listing keeps from creation on (given a non-negative starting
   bid): its bids are its own, never the seller's, above the starting bid and
   strictly rising; the price is the leading amount; it has a winner exactly
   when it is closed, and then the winner made the latest bid.
   */
  predicate Consistent(r: ListingRecord, bids: seq<Bid>)
  {
    && r.startingBid >= 0
    && (forall i :: 0 <= i < |bids| ==>
          bids[i].listing == r.id && bids[i].user != r.seller && bids[i].amount > r.startingBid)
    && StrictlyIncreasing(bids)
    && r.currentPrice == Some(Leading(r, bids))
    && (r.isActive <==> r.winner.None?)
    && (!r.isActive ==> bids != [] && r.winner == Some(bids[|bids| - 1].user))
  }

  /** A newly created listing is consistent with no bids. */
  lemma CreatedConsistent(id: ListingId, startingBid: Cents, seller: UserId)
    requires startingBid >= 0
    ensures Consistent(Created(id, startingBid, seller), [])
  {
  }

  /** In a consistent listing the price is the larger of the starting bid and the
      highest bid, which is what the next bid has to exceed. */
  lemma PriceIsFloor(r: ListingRecord, bids: seq<Bid>)
    requires Consistent(r, bids)
    ensures r.currentPrice == Some(Floor(r, bids))
  {
    if bids != [] {
      LatestIsHighest(bids);
    }
  }

  /** A bid equal to the starting bid, or to the highest bid, is too low. */
  lemma EqualBidsRejected(r: ListingRecord, bids: seq<Bid>, who: Requester)
    requires r.isActive && !IsSeller(who, r)
    ensures Validate(r, bids, who, r.startingBid) == BidTooLow
    ensures bids != [] ==> Validate(r, bids, who, MaxAmount(bids)) == BidTooLow
  {
  }

  /** An accepted bid becomes the latest bid, raises the price to its amount, and
      keeps the listing consistent; a rejected one changes nothing. */
  lemma BidStepKeepsConsistent(r: ListingRecord, bids: seq<Bid>, who: Requester, amount: Cents)
    requires Consistent(r, bids)
    ensures var e := BidStep(r, bids, who, amount);
            Consistent(e.listing, bids + e.recorded)
            && (e.outcome == Accepted ==> e.listing == r.(currentPrice := Some(amount)))
  {
    var e := BidStep(r, bids, who, amount);
    PriceIsFloor(r, bids);
    if e.outcome == Accepted {
      var b := Bid(who.user, r.id, amount);
      var bids' := bids + [b];
      assert amount > 0;
      assert e.listing == r.(currentPrice := Some(amount));
      assert StrictlyIncreasing(bids') by {
        if bids != [] {
          LatestIsHighest(bids);
        }
      }
      assert Leading(e.listing, bids') == amount;
    }
  }

  /** Closing a consistent listing makes the latest bidder the winner and keeps the
      price at the winning amount; without bids the listing stays open. */
  lemma CloseStepKeepsConsistent(r: ListingRecord, bids: seq<Bid>, who: Requester)
    requires Consistent(r, bids)
    ensures Consistent(CloseStep(r, bids, who), bids)
    ensures CanClose(r, who) && bids != [] ==>
              CloseStep(r, bids, who) == r.(isActive := false, winner := Some(bids[|bids| - 1].user))
  {
    if CanClose(r, who) && bids != [] {
      LatestIsHighest(bids);
    }
  }

  /** One POST keeps a listing consistent. */
  lemma PostStepKeepsConsistent(r: ListingRecord, bids: seq<Bid>, p: Post)
    requires Consistent(r, bids)
    ensures var e := PostStep(r, bids, p); Consistent(e.listing, bids + e.recorded)
  {
    if p.bidAmount.Some? {
      BidStepKeepsConsistent(r, bids, p.who, p.bidAmount.value);
    }
    CloseStepKeepsConsistent(r, bids, p.who);
  }

  /** Any sequence of POSTs keeps a listing consistent. */
  lemma {:induction false} RunKeepsConsistent(r: ListingRecord, bids: seq<Bid>, posts: seq<Post>)
    requires Consistent(r, bids)
    ensures Consistent(Run(r, bids, posts).0, Run(r, bids, posts).1)
    decreases |posts|
  {
    if posts != [] {
      var e := PostStep(r, bids, posts[0]);
      PostStepKeepsConsistent(r, bids, posts[0]);
      RunKeepsConsistent(e.listing, bids + e.recorded, posts[1..]);
    }
  }

  /**
   From creation on, whatever is posted: the accepted bids rise strictly, none is
   the seller's, and the price is the larger of the starting bid and the highest
   accepted bid.
   */
  lemma RunFromCreation(id: ListingId, startingBid: Cents, seller: UserId, posts: seq<Post>)
    requires startingBid >= 0
    ensures var (r, bids) := Run(Created(id, startingBid, seller), [], posts);
            StrictlyIncreasing(bids)
            && (forall b :: b in bids ==> b.user != seller && b.listing == id)
            && r.seller == seller && r.startingBid == startingBid
            && r.currentPrice == Some(Floor(r, bids))
  {
    var r0 := Created(id, startingBid, seller);
    CreatedConsistent(id, startingBid, seller);
    RunKeepsConsistent(r0, [], posts);
    var res := Run(r0, [], posts);
    PriceIsFloor(res.0, res.1);
    RunKeepsIdentity(r0, [], posts);
  }

  /** POSTs never change a listing's identity, starting bid or seller. */
  lemma {:induction false} RunKeepsIdentity(r: ListingRecord, bids: seq<Bid>, posts: seq<Post>)
    requires r.currentPrice.Some?
    ensures var s := Run(r, bids, posts).0;
            s.id == r.id && s.startingBid == r.startingBid && s.seller == r.seller
    decreases |posts|
  {
    if posts != [] {
      var e := PostStep(r, bids, posts[0]);
      RunKeepsIdentity(e.listing, bids + e.recorded, posts[1..]);
    }
  }

  /** The winner of a closed consistent listing holds the highest bid and is not the
      seller; `user_won` holds for exactly that user. */
  lemma WinnerIsHighestBidder(r: ListingRecord, bids: seq<Bid>, who: Requester)
    requires Consistent(r, bids) && !r.isActive
    ensures r.winner == Some(bids[HighestIndex(bids)].user)
    ensures r.winner != Some(r.seller)
    ensures UserWon(r, who) <==> who == Authenticated(bids[HighestIndex(bids)].user)
  {
    LatestIsHighest(bids);
  }

  /** Closing is one-way: once a listing is inactive, no POST changes it or its bids. */
  lemma {:induction false} ClosedIsFinal(r: ListingRecord, bids: seq<Bid>, posts: seq<Post>)
    requires r.currentPrice.Some? && !r.isActive
    ensures Run(r, bids, posts) == (r, bids)
    decreases |posts|
  {
    if posts != [] {
      var e := PostStep(r, bids, posts[0]);
      assert e.listing == r && e.recorded == [];
      assert bids + e.recorded == bids;
      ClosedIsFinal(r, bids, posts[1..]);
    }
  }

  /**
   A worked session on a listing with a starting bid of 50.00 and seller 1: user 2
   bids 60.00 (accepted), user 3 bids 55.00 and 60.00 (too low both times), then
   75.00 (accepted); the seller's own bid of 100.00 is refused; the seller closes.
   User 3 wins at 75.00.
   */
  lemma SessionExample()
    ensures var seller, id := 1, 7;
            var posts := [
              Post(Authenticated(2), Some(6000), false),
              Post(Authenticated(3), Some(5500), false),
              Post(Authenticated(3), Some(6000), false),
              Post(Authenticated(3), Some(7500), false),
              Post(Authenticated(seller), Some(10000), false),
              Post(Authenticated(seller), None, true)];
            Run(Created(id, 5000, seller), [], posts)
              == (ListingRecord(id, 5000, Some(7500), false, seller, Some(3)),
                  [Bid(2, id, 6000), Bid(3, id, 7500)])
  {
    var seller, id := 1, 7;
    var p0 := Post(Authenticated(2), Some(6000), false);
    var p1 := Post(Authenticated(3), Some(5500), false);
    var p2 := Post(Authenticated(3), Some(6000), false);
    var p3 := Post(Authenticated(3), Some(7500), false);
    var p4 := Post(Authenticated(seller), Some(10000), false);
    var p5 := Post(Authenticated(seller), None, true);
    var posts := [p0, p1, p2, p3, p4, p5];
    var r0 := Created(id, 5000, seller);
    var r1 := r0.(currentPrice := Some(6000));
    var b1 := [Bid(2, id, 6000)];
    var r2 := r1.(currentPrice := Some(7500));
    var b2 := b1 + [Bid(3, id, 7500)];
    var r3 := r2.(isActive := false, winner := Some(3));
    assert PostStep(r0, [], p0) == PostEffect(Some(Accepted), false, r1, b1);
    assert MaxAmount(b1) == 6000;
    assert PostStep(r1, b1, p1) == PostEffect(Some(BidTooLow), false, r1, []);
    assert PostStep(r1, b1, p2) == PostEffect(Some(BidTooLow), false, r1, []);
    assert PostStep(r1, b1, p3) == PostEffect(Some(Accepted), false, r2, [Bid(3, id, 7500)]);
    assert HighestIndex(b2) == 1;
    assert PostStep(r2, b2, p4) == PostEffect(Some(SellerCannotBid), false, r2, []);
    assert PostStep(r2, b2, p5) == PostEffect(None, true, r3, []);
    assert b1 + [] == b1 && b2 + [] == b2 && [] + b1 == b1;
    assert Run(r3, b2, []) == (r3, b2);
    assert posts[5..] == [p5] && [p5][1..] == [];
    assert Run(r2, b2, [p5]) == (r3, b2);
    assert posts[4..] == [p4, p5] && [p4, p5][1..] == [p5];
    assert Run(r2, b2, [p4, p5]) == (r3, b2);
    assert posts[3..][1..] == posts[4..];
    assert Run(r1, b1, posts[3..]) == (r3, b2);
    assert posts[2..][1..] == posts[3..];
    assert Run(r1, b1, posts[2..]) == (r3, b2);
    assert posts[1..][1..] == posts[2..];
    assert Run(r1, b1, posts[1..]) == (r3, b2);
    assert Run(r0, [], posts) == (r3, b2);
    assert r3 == ListingRecord(id, 5000, Some(7500), false, seller, Some(3));
    assert b2 == [Bid(2, id, 6000), Bid(3, id, 7500)];
  }

  /** `create_listing`, after the form has been validated. */
  method CreateListing(id: ListingId, startingBid: Cents, user: UserId) returns (listing: AuctionListing)
    ensures fresh(listing)
    ensures listing.Rec() == Created(id, startingBid, user)
  {
    listing := new AuctionListing(id, startingBid, user);
    listing.currentPrice := Some(listing.startingBid);
    listing.Save();
  }

  /** The bid branch of the listing page. */
  method PlaceBid(listing: AuctionListing, table: BidTable, who: Requester, amount: Cents)
    returns (outcome: BidOutcome)
    requires listing.currentPrice.Some?
    modifies listing`currentPrice, table
    ensures var e := BidStep(old(listing.Rec()), old(ForListing(table.rows, listing.id)), who, amount);
            outcome == e.outcome && listing.Rec() == e.listing
            && table.rows == old(table.rows) + e.recorded
            && ForListing(table.rows, listing.id) == old(ForListing(table.rows, listing.id)) + e.recorded
  {
    var bids := ForListing(table.rows, listing.id);
    outcome := Validate(listing.Rec(), bids, who, amount);
    if outcome == Accepted {
      if who.Anonymous? {
        outcome := AnonymousBidder;
      } else {
        table.Create(Bid(who.user, listing.id, amount));
        ForListingAppend(old(table.rows), Bid(who.user, listing.id, amount), listing.id);
        listing.UpdateCurrentPrice(amount);
      }
    }
  }

  /** The close branch of the listing page. */
  method CloseIfAllowed(listing: AuctionListing, table: BidTable, who: Requester)
    returns (closed: bool)
    requires listing.currentPrice.Some?
    modifies listing`winner, listing`isActive, listing`currentPrice
    ensures closed == CanClose(old(listing.Rec()), who)
    ensures listing.Rec() == CloseStep(old(listing.Rec()), ForListing(table.rows, listing.id), who)
  {
    closed := CanClose(listing.Rec(), who);
    if closed {
      listing.CloseAuction(table);
    }
  }

  /** A POST to the listing page: the bid branch, then the close branch. */
  method ListingPagePost(listing: AuctionListing, table: BidTable, p: Post)
    returns (bidOutcome: Option<BidOutcome>, closed: bool)
    requires listing.currentPrice.Some?
    modifies listing`winner, listing`isActive, listing`currentPrice, table
    ensures var e := PostStep(old(listing.Rec()), old(ForListing(table.rows, listing.id)), p);
            bidOutcome == e.bidOutcome && closed == e.closed && listing.Rec() == e.listing
            && table.rows == old(table.rows) + e.recorded
            && ForListing(table.rows, listing.id) == old(ForListing(table.rows, listing.id)) + e.recorded
  {
    ghost var r := listing.Rec();
    bidOutcome, closed := None, false;
    if p.bidAmount.Some? {
      var o := PlaceBid(listing, table, p.who, p.bidAmount.value);
      bidOutcome := Some(o);
      if o == Accepted || o == AnonymousBidder {
        return;
      }
      assert listing.Rec() == r && table.rows == old(table.rows);
    }
    if p.closeRequested {
      closed := CloseIfAllowed(listing, table, p.who);
    }
  }
}

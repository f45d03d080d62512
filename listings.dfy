/**
 The auction listing record of auctions/models.py and its three model methods:
 `save` (which defaults the current price), `update_current_price` (raise only)
 and `close_auction` (settle on a highest bid). Each method is specified by a
 function on the record's value; the properties the code promises are lemmas
 about those functions.
 */
module Listings {
  import opened Wrappers
  import opened Bids

  /** The fields of a listing that the bidding logic reads or writes. */
  datatype ListingRecord = ListingRecord(
    id: ListingId,
    startingBid: Cents,
    currentPrice: Option<Cents>,
    isActive: bool,
    seller: UserId,
    winner: Option<UserId>)

  function Max(a: int, b: int): (m: int)
    ensures m >= a && m >= b && (m == a || m == b)
  {
    if a < b then b else a
  }

  /** Python's `not self.current_price`: the price is missing or zero. */
  predicate Unset(price: Option<Cents>)
  {
    price.None? || price.value == 0
  }

  /** The state every `save` leaves behind: a price is set, and it is zero only
      when the starting bid is zero. Every listing read from the store is in it. */
  predicate Stored(r: ListingRecord)
  {
    r.currentPrice.Some? && (r.currentPrice.value == 0 ==> r.startingBid == 0)
  }

  /** `save`: an unset (missing or zero) current price becomes the starting bid. */
  function Saved(r: ListingRecord): (s: ListingRecord)
    ensures Stored(s)
    ensures Unset(r.currentPrice) ==> s.currentPrice == Some(r.startingBid)
    ensures !Unset(r.currentPrice) ==> s == r
    ensures s == r.(currentPrice := s.currentPrice)
  {
    if Unset(r.currentPrice) then r.(currentPrice := Some(r.startingBid)) else r
  }

  /** `update_current_price(x)`: raise the price to `x` if `x` is above it, then save. */
  function PriceUpdated(r: ListingRecord, x: Cents): (s: ListingRecord)
    requires r.currentPrice.Some?
    ensures Stored(r) ==> Stored(s)
    ensures s == r.(currentPrice := s.currentPrice)
    ensures x <= r.currentPrice.value ==> s == r
  {
    if x > r.currentPrice.value then Saved(r.(currentPrice := Some(x))) else r
  }

  /**
   `close_auction` over the listing's bids: with no bid nothing changes; otherwise
   the user of a highest bid becomes the winner, the listing is deactivated, and
   the price is raised to that bid's amount.
   */
  function Closed(r: ListingRecord, bids: seq<Bid>): (s: ListingRecord)
    requires r.currentPrice.Some?
    ensures s.currentPrice.Some?
    ensures bids != [] || Stored(r) ==> Stored(s)
    ensures bids == [] ==> s == r
    ensures bids != [] ==> !s.isActive && s.winner == Some(bids[HighestIndex(bids)].user)
    ensures s.id == r.id && s.startingBid == r.startingBid && s.seller == r.seller
  {
    if bids == [] then r
    else
      var w := bids[HighestIndex(bids)];
      Saved(PriceUpdated(r.(winner := Some(w.user), isActive := false), w.amount))
  }

  /** For a non-zero amount the update is "raise only": the new price is the
      larger of the old price and the amount. */
  lemma PriceUpdatedIsMax(r: ListingRecord, x: Cents)
    requires r.currentPrice.Some? && x != 0
    ensures PriceUpdated(r, x).currentPrice == Some(Max(r.currentPrice.value, x))
    ensures PriceUpdated(r, x).currentPrice.value >= r.currentPrice.value
  {
  }

  /** The zero case of `save`: raising a negative price to exactly zero leaves
      a falsy price behind, which `save` replaces by the starting bid. */
  lemma PriceUpdatedToZero(r: ListingRecord)
    requires r.currentPrice.Some? && r.currentPrice.value < 0
    ensures PriceUpdated(r, 0).currentPrice == Some(r.startingBid)
  {
  }

  /** The winner of a closed listing holds a bid of maximal amount, and the price is
      the larger of the old price and that amount whenever that is not zero. */
  lemma ClosedWinnerHoldsMax(r: ListingRecord, bids: seq<Bid>)
    requires r.currentPrice.Some? && bids != []
    ensures exists b :: b in bids && Closed(r, bids).winner == Some(b.user)
                        && forall c :: c in bids ==> c.amount <= b.amount
    ensures Max(r.currentPrice.value, MaxAmount(bids)) != 0 ==>
              Closed(r, bids).currentPrice == Some(Max(r.currentPrice.value, MaxAmount(bids)))
  {
    var k := HighestIndex(bids);
    assert bids[k] in bids;
  }

  /** Closing again over the same bids changes nothing: same activity, price and winner. */
  lemma ClosedIdempotent(r: ListingRecord, bids: seq<Bid>)
    requires Stored(r)
    ensures Closed(Closed(r, bids), bids) == Closed(r, bids)
  {
  }

  /** Closing over bids of 100, 150 and 120 by users 2, 3 and 4 makes user 3 the
      winner at 150 and deactivates the listing. */
  lemma ClosedExample(r: ListingRecord)
    requires r.currentPrice == Some(5000) && r.isActive
    ensures var bids := [Bid(2, r.id, 10000), Bid(3, r.id, 15000), Bid(4, r.id, 12000)];
            Closed(r, bids) == r.(isActive := false, winner := Some(3), currentPrice := Some(15000))
  {
    var bids := [Bid(2, r.id, 10000), Bid(3, r.id, 15000), Bid(4, r.id, 12000)];
    assert HighestIndex(bids[..2]) == 1;
    assert HighestIndex(bids) == 1;
  }

  /** An auction listing in the store; the methods update its fields in place. */
  class AuctionListing {
    const id: ListingId
    var startingBid: Cents
    var currentPrice: Option<Cents>
    var isActive: bool
    var seller: UserId
    var winner: Option<UserId>

    /** The value of the fields. */
    function Rec(): ListingRecord
      reads this
    {
      ListingRecord(id, startingBid, currentPrice, isActive, seller, winner)
    }

    /** An unsaved listing as the creation form fills it in: no current price yet,
        active (the field's default), no winner. */
    constructor (id: ListingId, startingBid: Cents, seller: UserId)
      ensures Rec() == ListingRecord(id, startingBid, None, true, seller, None)
    {
      this.id := id;
      this.startingBid := startingBid;
      this.currentPrice := None;
      this.isActive := true;
      this.seller := seller;
      this.winner := None;
    }

    /** `save`, for the part of it that belongs to the model (the rest is the store's write). */
    method Save()
      modifies this`currentPrice
      ensures Rec() == Saved(old(Rec()))
    {
      if currentPrice.None? || currentPrice.value == 0 {
        currentPrice := Some(startingBid);
      }
    }

    /** `update_current_price`; a listing read back from the store always has a price
        (saving sets it), and comparing against a missing one raises in the source. */
    method UpdateCurrentPrice(newBidAmount: Cents)
      requires currentPrice.Some?
      modifies this`currentPrice
      ensures Rec() == PriceUpdated(old(Rec()), newBidAmount)
    {
      if newBidAmount > currentPrice.value {
        currentPrice := Some(newBidAmount);
        Save();
      }
    }

    /** `close_auction`: reads this listing's bids from the table and settles on a highest one. */
    method CloseAuction(table: BidTable)
      requires currentPrice.Some?
      modifies this`winner, this`isActive, this`currentPrice
      ensures Rec() == Closed(old(Rec()), ForListing(table.rows, id))
    {
      var bids := ForListing(table.rows, id);
      if bids != [] {
        var winningBid := bids[HighestIndex(bids)];
        winner := Some(winningBid.user);
        isActive := false;
        UpdateCurrentPrice(winningBid.amount);
        Save();
      }
    }
  }
}

/**
 The bid record of the marketplace and the queries the listing logic runs over
 the table of all bids: filtering by listing and picking a highest bid.
 The table is `Bid.objects` in auctions/models.py: one global, append-only
 store shared by every listing.
 */
module Bids {

  /** Identities of users and listings are opaque keys. */
  type UserId = nat
  type ListingId = nat

  /** An amount of money in cents (the store keeps two decimal places). */
  type Cents = int

  /** A recorded bid: who bid, on which listing, and how much. Bids are never edited. */
  datatype Bid = Bid(user: UserId, listing: ListingId, amount: Cents)

  /** The bids of one listing, in the order the store created them. */
  function ForListing(rows: seq<Bid>, id: ListingId): (r: seq<Bid>)
    ensures |r| <= |rows|
    ensures forall b :: b in r <==> b in rows && b.listing == id
  {
    if rows == [] then []
    else (if rows[0].listing == id then [rows[0]] else []) + ForListing(rows[1..], id)
  }

  /** Creating a bid adds it at the end of its own listing's bids and leaves
      every other listing's bids as they were. */
  lemma {:induction false} ForListingAppend(rows: seq<Bid>, b: Bid, id: ListingId)
    ensures ForListing(rows + [b], id)
         == ForListing(rows, id) + (if b.listing == id then [b] else [])
  {
    if rows == [] {
      assert rows + [b] == [b];
    } else {
      assert (rows + [b])[1..] == rows[1..] + [b];
      ForListingAppend(rows[1..], b, id);
    }
  }

  /** Position `k` holds a bid whose amount is at least every other bid's. */
  predicate IsHighestAt(bids: seq<Bid>, k: int)
  {
    0 <= k < |bids| && forall i :: 0 <= i < |bids| ==> bids[i].amount <= bids[k].amount
  }

  /**
   The bid that `order_by('-amount').first()` returns. The store does not fix the
   order among equal amounts; this model fixes it to the earliest created bid.
   */
  function HighestIndex(bids: seq<Bid>): (k: nat)
    requires bids != []
    ensures IsHighestAt(bids, k)
    ensures forall i :: 0 <= i < k ==> bids[i].amount < bids[k].amount
    decreases |bids|
  {
    if |bids| == 1 then 0
    else
      var k := HighestIndex(bids[..|bids| - 1]);
      if bids[|bids| - 1].amount > bids[k].amount then |bids| - 1 else k
  }

  /** The amount of the first bid in highest-first order (`bids[0].amount` in the view). */
  function MaxAmount(bids: seq<Bid>): (m: Cents)
    requires bids != []
    ensures forall b :: b in bids ==> b.amount <= m
    ensures exists b :: b in bids && b.amount == m
  {
    var k := HighestIndex(bids);
    assert bids[k] in bids;
    bids[k].amount
  }

  /** The tie-break rule determines the winning row: it is the only highest
      position with no equally high bid before it. */
  lemma HighestIndexUnique(bids: seq<Bid>, k: int)
    requires IsHighestAt(bids, k)
    requires forall i :: 0 <= i < k ==> bids[i].amount < bids[k].amount
    ensures k == HighestIndex(bids)
  {
  }

  /** Amounts rise strictly in creation order. */
  predicate StrictlyIncreasing(bids: seq<Bid>)
  {
    forall i, j :: 0 <= i < j < |bids| ==> bids[i].amount < bids[j].amount
  }

  /** When amounts rise strictly, the latest bid is the unique highest one. */
  lemma LatestIsHighest(bids: seq<Bid>)
    requires bids != [] && StrictlyIncreasing(bids)
    ensures HighestIndex(bids) == |bids| - 1
    ensures MaxAmount(bids) == bids[|bids| - 1].amount
    ensures forall k :: IsHighestAt(bids, k) ==> k == |bids| - 1
  {
    HighestIndexUnique(bids, |bids| - 1);
  }

  /** The table of all bids (`Bid.objects`). */
  class BidTable {
    var rows: seq<Bid>

    constructor ()
      ensures rows == []
    {
      rows := [];
    }

    /** `Bid.objects.create`: appends one row. */
    method Create(b: Bid)
      modifies this
      ensures rows == old(rows) + [b]
    {
      rows := rows + [b];
    }
  }
}

# Auction bidding and settlement, modelled in Dafny

This project models the bidding and settlement core of a small auction
marketplace (a Django application). An auction listing has a starting bid, a
current price, an active flag, a seller and an optional winner. Users bid on
active listings; the seller may close an active listing, which makes the user
of a highest bid the winner.

The model has four modules:

- `Wrappers` (wrappers.dfy): the `Option` type used for the nullable fields.
- `Bids` (bids.dfy): the `Bid` record (user, listing, amount) and the global
  bid table `BidTable`, which is append-only. It also holds the two queries the
  core runs on the table: the bids of one listing (`ForListing`), and the
  highest bid (`HighestIndex`, `MaxAmount`).
- `Listings` (listings.dfy): the `AuctionListing` class and its three methods
  `Save`, `UpdateCurrentPrice` and `CloseAuction`. Each method is proved against
  a function on the listing's value (`Saved`, `PriceUpdated`, `Closed`).
- `Views` (views.dfy): listing creation and the bid and close branches of the
  listing page.
  - `Validate` is the bid validator. `BidStep`, `CloseStep` and `PostStep`
    describe one POST request; `Run` is a sequence of them.
  - The methods `CreateListing`, `PlaceBid`, `CloseIfAllowed` and
    `ListingPagePost` do the same on the objects.
  - `Consistent` is the state a listing keeps from creation on. It is proved to
    be preserved by every request.

Modelling decisions:

- Amounts are integer cents. The source keeps two decimal places.
- `save` treats a missing price and a price of zero alike, because it tests
  `not current_price`. The model follows that exactly. So a price raised to
  exactly zero is reset to the starting bid (`PriceUpdatedToZero`). This can
  happen only with negative amounts.
- The invariant lemmas assume a non-negative starting bid. The creation form
  that would check it is not part of this model.
- The store does not define which of several equally high bids
  `order_by('-amount').first()` returns. The model picks the first one created.
  `HighestIndex` and `HighestIndexUnique` state that rule. These members name
  the row it picks: `Listings.Closed`, `Listings.AuctionListing.CloseAuction`
  and `Views.WinnerIsHighestBidder`. `Listings.ClosedWinnerHoldsMax` says only
  that the winner holds a bid of maximal amount. The winner half of
  `Listings.ClosedIdempotent` rests on the fixed rule; the source gives the same
  winner on a second close only when the maximum is unique. Under the view's
  invariant amounts rise strictly, so no two bids tie.
- The requester is `Anonymous` or `Authenticated(user)`. An anonymous visitor
  is never the seller, so its bid can pass validation. The store then refuses
  to create a bid without a user and the request fails with nothing written.
  The model calls this outcome `AnonymousBidder`.
- A listing read from the store always has a price, because saving sets one.
  The methods require that (`currentPrice.Some?`). In the source, comparing a
  new bid with a missing price raises an exception.

Three places where the code does less than an auction might be expected to;
the model follows the code:

- Closing a listing without bids changes nothing. The listing stays active and
  has no winner.
- `close_auction` itself does not refuse a second close. Only the view's guard
  (seller of an active listing) prevents it. `Closed` is idempotent on stored
  listings (`ClosedIdempotent`), and `ClosedIsFinal` shows that no request
  changes a closed listing.
- No "already closed" error exists. A close request for an inactive listing is
  simply not carried out.

## Model

| member | source | states |
|---|---|---|
| `Bids.ForListing` | auctions/models.py:38 | the bids of a listing are exactly the table rows that reference it |
| `Bids.ForListingAppend` | auctions/views.py:119-120 | creating a bid appends it at the end of its own listing's bids and leaves other listings' bids alone |
| `Bids.HighestIndex` | auctions/models.py:40 | the row `order_by('-amount').first()` picks: a bid whose amount is at least every other, with no equally high bid created before it |
| `Bids.MaxAmount` | auctions/views.py:106 | the amount of the first bid in highest-first order: at least every bid's amount, and the amount of some bid |
| `Bids.HighestIndexUnique` | auctions/models.py:40 | the tie-break rule singles out exactly one row |
| `Bids.LatestIsHighest` | auctions/views.py:117-122 | when amounts rise strictly, the latest bid is the unique highest one |
| `Bids.BidTable.Create` | auctions/views.py:119-120 | `Bid.objects.create` appends exactly one row |
| `Listings.Saved` | auctions/models.py:25-29 | after `save` the price is set; a missing or zero price becomes the starting bid; any other price is kept; no other field changes |
| `Listings.PriceUpdated` | auctions/models.py:31-35 | only the price changes; an amount not above the price is a no-op; a stored listing stays stored |
| `Listings.Closed` | auctions/models.py:37-44 | without bids nothing changes; with bids the listing is inactive and the winner is the user of the chosen highest bid; identity, starting bid and seller are kept |
| `Listings.PriceUpdatedIsMax` | auctions/models.py:31-35 | for a non-zero amount the new price is the larger of old price and amount, so it never decreases |
| `Listings.PriceUpdatedToZero` | auctions/models.py:27-35 | raising a negative price to zero leaves the starting bid as price, because `save` treats zero as unset |
| `Listings.ClosedWinnerHoldsMax` | auctions/models.py:38-43 | the winner holds a bid of maximal amount; the price becomes the larger of old price and that amount (when that is not zero) |
| `Listings.ClosedIdempotent` | auctions/models.py:37-44 | closing a stored listing twice over the same bids gives the same activity, price and winner as closing once |
| `Listings.ClosedExample` | auctions/models.py:37-44 | bids of 100, 150 and 120: the 150 bidder wins, the price is 150, the listing is inactive |
| `Listings.AuctionListing.constructor` | auctions/models.py:9-22 | an unsaved listing from the form: no price yet, active, no winner |
| `Listings.AuctionListing.Save` | auctions/models.py:25-29 | the object's new fields are `Saved` of the old ones; only the price may change |
| `Listings.AuctionListing.UpdateCurrentPrice` | auctions/models.py:31-35 | on a listing with a set price, the new fields are `PriceUpdated` of the old ones and only the price may change |
| `Listings.AuctionListing.CloseAuction` | auctions/models.py:37-44 | the object's new fields are `Closed` of the old ones over this listing's bids in the table |
| `Views.Acceptable` | auctions/views.py:117 | an acceptable bid is on an active listing, not by the seller, and above the starting bid and every existing bid |
| `Views.Validate` | auctions/views.py:117-133 | accepted exactly when the listing is active, the bidder is not the seller and the amount is above both the starting bid and the highest bid; otherwise rejected for the seller first, then a closed listing, then a low amount |
| `Views.BidStep` | auctions/views.py:113-133 | an accepted bid records exactly one bid (user, listing, amount) and advances the price; any other outcome records nothing and changes nothing |
| `Views.CloseStep` | auctions/views.py:136-140 | the listing changes only when the requester is the seller of an active listing that has bids |
| `Views.CanClose` | auctions/views.py:136 | only a logged-in seller can close, and never an inactive listing |
| `Views.UserWon` | auctions/views.py:109-111 | `user_won` holds only for a logged-in user who is the listing's winner, and never while the listing is active |
| `Views.PostStep` | auctions/views.py:113-142 | bids are recorded only when accepted; the close branch runs only for the seller of an active listing who asked for it |
| `Views.Run` | auctions/views.py:113-142 | over a sequence of POSTs the price stays set and the bids only grow at the end |
| `Views.Created` | auctions/views.py:79-83 | a new listing is active, has no winner, its seller is the creating user and its price is the starting bid |
| `Views.CreatedConsistent` | auctions/views.py:80-83 | a new listing with a non-negative starting bid and no bids satisfies the invariant |
| `Views.PriceIsFloor` | auctions/views.py:117-122 | under the invariant the price is the larger of the starting bid and the highest bid |
| `Views.EqualBidsRejected` | auctions/views.py:117 | a bid equal to the starting bid, or to the highest bid, is too low |
| `Views.BidStepKeepsConsistent` | auctions/views.py:117-122 | a bid attempt keeps the invariant; an accepted bid becomes the new price |
| `Views.CloseStepKeepsConsistent` | auctions/views.py:136-140 | closing keeps the invariant; the latest bidder wins and the price stays at the winning amount |
| `Views.PostStepKeepsConsistent` | auctions/views.py:113-142 | one POST keeps the invariant |
| `Views.RunKeepsConsistent` | auctions/views.py:113-142 | any sequence of POSTs keeps the invariant |
| `Views.RunKeepsIdentity` | auctions/views.py:113-142 | no request changes a listing's identity, starting bid or seller |
| `Views.RunFromCreation` | auctions/views.py:80-83 | from creation on, accepted amounts rise strictly, none is the seller's, and the price is the larger of the starting bid and the highest accepted bid |
| `Views.WinnerIsHighestBidder` | auctions/views.py:109-111 | a closed listing's winner holds the highest bid and is not the seller; `user_won` holds exactly for that user |
| `Views.ClosedIsFinal` | auctions/views.py:117-140 | once inactive, no request changes the listing or its bids |
| `Views.SessionExample` | auctions/views.py:113-142 | start 50.00: 60.00 accepted, 55.00 and 60.00 too low, 75.00 accepted, the seller's bid refused, the seller closes; the 75.00 bidder wins at 75.00 |
| `Views.CreateListing` | auctions/views.py:79-83 | the new object's fields are `Created` of the given starting bid and user |
| `Views.PlaceBid` | auctions/views.py:113-133 | the outcome, the listing's new fields and the appended table rows are those of `BidStep` |
| `Views.CloseIfAllowed` | auctions/views.py:136-142 | closes exactly when `can_close_auction` holds; the new fields are those of `CloseStep` |
| `Views.ListingPagePost` | auctions/views.py:113-142 | the bid outcome, whether the close ran, the new fields and the appended rows are those of `PostStep` |

## Left out

- Login, logout and registration: authentication plumbing. The requester is a parameter.
- The index page, watchlists, comments and category pages: plain store reads and writes with no decisions.
- Templates, flash messages, redirects and URL routing: presentation only.
- Parsing the bid amount from the form as a float, and comparing a float with a decimal: floating point. Amounts are integer cents.
- Concurrency between validation and the writes: each request is one sequential step.
- Cascade and set-null deletes: database behaviour, not core logic.
- Creation form validation: auctions/forms.py is not part of this model. Title, description, image, category and creation time play no part in bidding and are not modelled.
- The `max_digits=10` limit of the amount fields: amounts are unbounded integers.
- Listings that are not found (`get_object_or_404`): the model starts from an existing listing.
- UpdateCurrentPrice (`Listings.AuctionListing.UpdateCurrentPrice`): requires a set price. The source raises an exception for a missing one, and every stored listing has one.
- ClosedIdempotent (`Listings.ClosedIdempotent`): stated for stored listings only (`Stored`). A price of zero with a non-zero starting bid never survives a save. Its "same winner" half holds in the source only when the maximal bid is unique.

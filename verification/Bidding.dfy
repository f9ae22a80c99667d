/** Placing a bid: the queries it relies on, its checks in order, and the state its transaction commits. */
module Bidding {
  import opened Domain
  import opened Tallies
  import opened Limits
  import opened Tiers

  // ---- Queries ----

  /** The statuses `get_highest_bid` looks at. */
  predicate Live(b: Bid) {
    b.status.Active? || b.status.Won?
  }

  predicate LiveOn(bids: seq<Bid>, i: int, a: nat) {
    0 <= i < |bids| && bids[i].auction == a && Live(bids[i])
  }

  predicate HasBids(bids: seq<Bid>, a: nat) {
    exists i | 0 <= i < |bids| :: bids[i].auction == a
  }

  /** The live bid of the auction with the largest amount, the earliest of equals. */
  function HighestBid(bids: seq<Bid>, a: nat): (r: Option<nat>)
    ensures r.None? <==> forall i :: !LiveOn(bids, i, a)
    ensures r.Some? ==> LiveOn(bids, r.value, a)
    ensures r.Some? ==> forall i | LiveOn(bids, i, a) ::
                bids[i].amount < bids[r.value].amount || (bids[i].amount == bids[r.value].amount && r.value <= i)
  {
    if bids == [] then None
    else
      var last := |bids| - 1;
      var best := HighestBid(bids[..last], a);
      assert forall i | 0 <= i < last :: LiveOn(bids[..last], i, a) <==> LiveOn(bids, i, a);
      if LiveOn(bids, last, a) && (best.None? || bids[best.value].amount < bids[last].amount) then Some(last) else best
  }

  /** What the next bid must reach; nothing when no item is attached. */
  function MinimumBid(s: Database, a: nat): Option<Kobo>
    requires a < |s.auctions|
  {
    match HighestBid(s.bids, a)
    case Some(h) => Some(s.bids[h].amount + IncrementFor(s.tiers, s.bids[h].amount))
    case None => if s.auctions[a].prices == [] then None else Some(s.auctions[a].prices[0])
  }

  // ---- Checks, in the order the service makes them ----

  function BidError(s: Database, bidder: nat, a: nat, amount: Kobo): Option<Error> {
    if amount <= 0 then Some(InvalidRequest)
    else if a >= |s.auctions| then Some(NotFound)
    else if s.auctions[a].status != AuctionStatus.Active then Some(AuctionNotActive)
    else if s.auctions[a].endsAt <= s.now then Some(AuctionEnded)
    else if bidder == s.auctions[a].seller then Some(SellerCannotBid)
    else
      var h := HighestBid(s.bids, a);
      if h.Some? && s.bids[h.value].bidder == bidder then Some(AlreadyHighestBidder)
      else if MinimumBid(s, a).None? then Some(NoItemsAttached)
      else if amount < MinimumBid(s, a).value then Some(InvalidBidAmount)
      else if bidder >= |s.users| || s.wallets[bidder].available < amount then Some(InsufficientFunds)
      else if amount > LimitsFor(s.users[bidder].tier).maxBid then Some(LimitExceeded)
      else if h.Some? && s.wallets[s.bids[h.value].bidder].locked < s.bids[h.value].amount then Some(WalletRefused)
      else None
  }

  // ---- Ledger rows ----

  function LockRow(s: Database, bidder: nat, amount: Kobo): Row
    requires bidder < |s.users|
  {
    var before := s.wallets[bidder].available;
    Row(bidder, amount, BidLock, Debit, AvailableBucket, BidRef(|s.bids|), BidPlaced,
        before, before - amount, TransactionStatus.Completed, s.now)
  }

  function UnlockRow(s: Database, b: nat, note: Note, bucket: Bucket): Row
    requires b < |s.bids|
  {
    var bid := s.bids[b];
    var before := s.wallets[bid.bidder].available;
    Row(bid.bidder, bid.amount, BidUnlock, Credit, bucket, BidRef(b), note,
        before, before + bid.amount, TransactionStatus.Completed, s.now)
  }

  // ---- The transaction ----

  /** Takes the new bidder's money, records the bid and moves the pointer. */
  function WithNewBid(s: Database, bidder: nat, a: nat, amount: Kobo): (r: Database)
    requires a < |s.auctions| && bidder < |s.users| && 0 < amount <= s.wallets[bidder].available
  {
    var w := s.wallets[bidder];
    s.(wallets := s.wallets[bidder := Wallet(w.available - amount, w.locked + amount, w.escrow)],
       bids := s.bids + [Bid(a, bidder, amount, BidStatus.Active, s.now, Some(|s.ledger|))],
       auctions := s.auctions[a := s.auctions[a].(highest := Some(|s.bids|))],
       ledger := s.ledger + [LockRow(s, bidder, amount)])
  }

  /** Gives a bid's money back to its bidder and sets the bid's final status. */
  function WithReleasedBid(s: Database, b: nat, status: BidStatus, note: Note, bucket: Bucket): (r: Database)
    requires b < |s.bids| && s.bids[b].amount <= s.wallets[s.bids[b].bidder].locked
  {
    var bid := s.bids[b];
    var w := s.wallets[bid.bidder];
    s.(wallets := s.wallets[bid.bidder := Wallet(w.available + bid.amount, w.locked - bid.amount, w.escrow)],
       bids := s.bids[b := bid.(status := status)],
       ledger := s.ledger + [UnlockRow(s, b, note, bucket)])
  }

  function PlaceBid(s: Database, bidder: nat, a: nat, amount: Kobo): Database {
    if BidError(s, bidder, a, amount).Some? then s
    else
      var h := HighestBid(s.bids, a);
      var placed := WithNewBid(s, bidder, a, amount);
      if h.None? then placed
      else WithReleasedBid(placed, h.value, BidStatus.Released, OutbidRefund, AvailableBucket)
  }

  // ---- What the auction page shows ----

  function CountEntries(bids: seq<Bid>): (es: seq<Entry>)
    ensures |es| == |bids| && forall i | 0 <= i < |bids| :: es[i] == Entry(bids[i].auction, 1)
  {
    seq(|bids|, i requires 0 <= i < |bids| => Entry(bids[i].auction, 1))
  }

  /** How many bids the auction has. */
  function BidCount(bids: seq<Bid>, a: nat): int {
    Tally(CountEntries(bids), a)
  }

  /** The statuses `get_user_bid_on_auction` looks at. */
  predicate OwnOn(bids: seq<Bid>, i: int, a: nat, user: nat) {
    && 0 <= i < |bids| && bids[i].auction == a && bids[i].bidder == user
    && (bids[i].status.Active? || bids[i].status.Outbid?)
  }

  /** The user's most recent bid of those statuses. */
  function UserBid(bids: seq<Bid>, a: nat, user: nat): (r: Option<nat>)
    ensures r.None? <==> forall i :: !OwnOn(bids, i, a, user)
    ensures r.Some? ==> OwnOn(bids, r.value, a, user)
    ensures r.Some? ==> forall i | OwnOn(bids, i, a, user) :: bids[i].placedAt <= bids[r.value].placedAt
  {
    if bids == [] then None
    else
      var last := |bids| - 1;
      var best := UserBid(bids[..last], a, user);
      assert forall i | 0 <= i < last :: OwnOn(bids[..last], i, a, user) <==> OwnOn(bids, i, a, user);
      if OwnOn(bids, last, a, user) && (best.None? || bids[best.value].placedAt <= bids[last].placedAt) then Some(last)
      else best
  }

  datatype OwnBid = OwnBid(bid: nat, amount: Kobo, isHighest: bool)

  /** What the page polls: the highest amount, the least next bid, the number of bids and the user's own. */
  datatype BidState = BidState(highest: Option<Kobo>, minimum: Kobo, count: int, own: Option<OwnBid>)

  function PageState(s: Database, a: nat, user: Option<nat>): BidState
    requires a < |s.auctions|
  {
    var h := HighestBid(s.bids, a);
    var own := if user.None? then None else UserBid(s.bids, a, user.value);
    BidState(
      if h.None? then None else Some(s.bids[h.value].amount),
      MinimumBid(s, a).GetOr(0),
      BidCount(s.bids, a),
      if own.None? then None else Some(OwnBid(own.value, s.bids[own.value].amount, h == own)))
  }
}

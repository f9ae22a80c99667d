/** Scenarios from an empty platform that show what the code allows. */
module Scenario {
  import opened Domain
  import opened Limits
  import opened Tiers
  import opened Bidding
  import opened Auctions
  import opened Commissions
  import opened Settlement
  import opened Orders
  import opened Payments
  import Protocol
  import opened Sessions
  import opened Staging
  import Reserve
  import AuctionService
  import AuctionTasks
  import BidService
  import DisputeService
  import EscrowTasks
  import OrderService
  import WalletService
  import WalletTasks
  import Platforms

  const PRICE: Kobo := 10_000

  // ---- One release message delivered twice ----

  lemma Releasing(s: Database, x: nat)
    requires CanRelease(s, x) && s.escrows[x].winner == BUYER && s.escrows[x].seller == SELLER
    ensures var t, e := ReleaseTask(s, x), s.escrows[x];
            && t.escrows == s.escrows[x := e.(status := EscrowStatus.Released)]
            && t.releasing == s.releasing && |t.users| == |s.users|
            && t.wallets[BUYER].escrow == s.wallets[BUYER].escrow - e.amount
            && t.wallets[SELLER].available == s.wallets[SELLER].available + e.amount - e.commission
  {
  }

  method Release(db: Session, x: nat)
    requires db.Clean() && CanRelease(db.committed, x)
    modifies db
    ensures db.Clean() && db.committed == ReleaseTask(old(db.committed), x)
  {
    var ok := EscrowTasks.ReleaseSingleEscrow(db, x);
  }

  method SellTwice() returns (db: Session)
    ensures fresh(db) && db.Clean() && |db.users| == 3 && |db.escrows| == 2
    ensures db.wallets[SELLER].available == 0 && db.wallets[BUYER].escrow == 2 * PRICE
    ensures forall x | 0 <= x < 2 ::
              var e := db.escrows[x];
              e.status.Holding? && e.autoReleaseAt <= db.now + AUTO_RELEASE
              && e.winner == BUYER && e.seller == SELLER && e.amount == PRICE && e.commission == 500
  {
    db := Join();
    Fund(db, BUYER, 2 * PRICE);
    Sell(db, PRICE);
    Sell(db, PRICE);
  }

  /** Both sales done, the first escrow due, claimed and its message sent. */
  method Prepare() returns (db: Session)
    ensures fresh(db) && db.Clean() && |db.users| == 3 && |db.escrows| == 2 && 0 in db.releasing
    ensures db.wallets[SELLER].available == 0 && db.wallets[BUYER].escrow == 2 * PRICE
    ensures db.escrows[0].status.Processing? && db.escrows[1].status.Holding?
    ensures forall x | 0 <= x < 2 ::
              var e := db.escrows[x];
              e.winner == BUYER && e.seller == SELLER && e.amount == PRICE && e.commission == 500
  {
    db := SellTwice();
    Wait(db, AUTO_RELEASE);
    ClaimRelease(db, 0);
  }

  /**
   The seller is paid for two sales though one escrow only is RELEASED; the other is still HOLDING, and the
   buyer's escrow bucket is empty.
   */
  method DoubleRelease() returns (db: Session)
    ensures db.Clean() && |db.users| == 3 && |db.escrows| == 2
    ensures db.escrows[0].status.Released? && db.escrows[1].status.Holding?
    ensures db.wallets[SELLER].available == 2 * (PRICE - 500) && db.wallets[BUYER].escrow == 0
  {
    db := Prepare();
    Releasing(db.committed, 0);
    Release(db, 0);
    Releasing(db.committed, 0);
    Release(db, 0);
  }

  // ---- A release delivered while the order is disputed ----

  method SellAndDispute() returns (db: Session)
    ensures fresh(db) && db.Clean() && |db.users| == 3 && |db.escrows| == |db.orders| == |db.disputes| == 1
    ensures db.orders[0].status.Disputed? && db.orders[0].dispute == Some(0) && db.disputes[0].status.Open?
    ensures db.wallets[SELLER].available == 0 && db.wallets[BUYER].escrow == PRICE
    ensures var e := db.escrows[0];
            && e.order == 0 && e.winner == BUYER && e.seller == SELLER && e.amount == PRICE && e.commission == 500
            && e.status.Holding? && e.autoReleaseAt == db.now + AUTO_RELEASE
  {
    db := Join();
    Fund(db, BUYER, PRICE);
    Sell(db, PRICE);
    var error := OrderService.ShipOrder(db, SELLER, 0);
    error := DisputeService.RaiseDispute(db, BUYER, 0);
  }

  lemma DisputedRelease(s: Database)
    requires CanRelease(s, 0) && s.escrows[0].order == 0 && s.escrows[0].seller == SELLER
    requires s.wallets[SELLER].available == 0 && s.escrows[0].winner != SELLER
    ensures var t, e := ReleaseTask(s, 0), s.escrows[0];
            && |t.users| == |s.users| && t.disputes == s.disputes && |t.orders| == |s.orders|
            && t.orders[0] == s.orders[0].(status := OrderStatus.Completed)
            && t.wallets[SELLER].available == e.amount - e.commission
  {
  }

  /** The order is COMPLETED and the seller paid while the buyer's dispute is still OPEN. */
  method ReleaseOverDispute() returns (db: Session)
    ensures db.Clean() && |db.users| == 3 && |db.orders| == |db.disputes| == 1
    ensures db.orders[0].status.Completed? && db.orders[0].dispute == Some(0) && db.disputes[0].status.Open?
    ensures db.wallets[SELLER].available == PRICE - 500
  {
    db := SellAndDispute();
    Wait(db, AUTO_RELEASE);
    ClaimRelease(db, 0);
    DisputedRelease(db.committed);
    Release(db, 0);
  }

  // ---- A sale too small to be released ----

  /** Ten kobo: the commission rounds to zero, and the release is refused for want of a commission row. */
  method TenKoboSale() returns (db: Session, ok: bool)
    ensures db.Clean() && |db.escrows| == 1 && db.escrows[0].amount == 10 && db.escrows[0].commission == 0
    ensures !ok && db.escrows[0].status.Processing? && 0 in db.releasing
  {
    db := Join();
    Fund(db, BUYER, PRICE);
    Sell(db, 10);
    Wait(db, AUTO_RELEASE);
    ClaimRelease(db, 0);
    ok := EscrowTasks.ReleaseSingleEscrow(db, 0);
  }

  // ---- An administrator's cancellation ----

  /** The auction is CANCELLED, its bid still ACTIVE and its money still locked. */
  method CancelledWithBid() returns (db: Session)
    ensures db.Clean() && |db.users| == 3 && |db.auctions| == |db.bids| == 1 && db.handling == {}
    ensures db.auctions[0].status.Cancelled? && db.bids[0].auction == 0 && db.bids[0].status.Active?
    ensures db.bids[0].bidder == BUYER && db.bids[0].amount == PRICE && db.wallets[BUYER].locked == PRICE
  {
    db := Join();
    Fund(db, BUYER, PRICE);
    var a := List(db, PRICE, None);
    Offer(db, BUYER, a, PRICE);
    var error := AuctionService.CancelAuctionAdmin(db, a);
  }

  // ---- A reserve handler that comes after a sale ----

  /** The reserve, and the least that overtakes a bid of `PRICE` where no tier is configured. */
  const TOP: Kobo := PRICE + FALLBACK

  /** Auction 0, ending at `ends`, has a reserve and the buyer's bid below it; on auction 1 the rival leads. */
  ghost predicate Opened(s: Store, ends: Time) {
    && |s.users| == |s.wallets| == 3 && s.users[RIVAL].tier.Tier1? && s.tiers == [] && s.orders == []
    && s.wallets[BUYER].locked == PRICE && s.wallets[RIVAL] == Wallet(TOP, TOP, 0)
    && |s.auctions| == |s.bids| == 2
    && s.auctions[0] == Auction(SELLER, AuctionStatus.Active, Some(0), Some(TOP), 0, ends, [PRICE])
    && s.bids[0].auction == 0 && s.bids[0].bidder == BUYER && s.bids[0].amount == PRICE && s.bids[0].status.Active?
    && s.bids[1].auction == 1 && s.bids[1].bidder == RIVAL && s.bids[1].amount == TOP && s.bids[1].status.Active?
  }

  /** The first auction has a reserve, the second none. */
  method ListTwo(funds: Kobo) returns (db: Session)
    requires MIN_AMOUNT <= funds <= LimitsFor(Tier1).maxBalance
    ensures fresh(db) && db.Clean() && |db.users| == 3 && db.users[RIVAL].tier.Tier1? && db.now == 0
    ensures db.tiers == [] && db.orders == [] && db.bids == []
    ensures db.wallets[BUYER] == Wallet(funds, 0, 0) && db.wallets[RIVAL] == Wallet(2 * TOP, 0, 0)
    ensures db.auctions ==
              [Lot(AuctionStatus.Active, 0, [PRICE], Some(TOP)), Lot(AuctionStatus.Active, 0, [PRICE], None)]
  {
    db := Join();
    Fund(db, BUYER, funds);
    Fund(db, RIVAL, 2 * TOP);
    var a := List(db, PRICE, Some(TOP));
    var b := List(db, PRICE, None);
  }

  method TwoAuctions() returns (db: Session)
    ensures fresh(db) && db.Clean() && Opened(db.committed, MIN_DURATION) && db.now == 0
  {
    db := ListTwo(PRICE);
    Offer(db, BUYER, 0, PRICE);
    Offer(db, RIVAL, 1, TOP);
  }

  /** The claim is lost, its message delivered: the task judges the reserve missed and is about to call the handler. */
  method Judged() returns (db: Session)
    ensures fresh(db) && db.Clean() && Opened(db.committed, MIN_DURATION) && db.now == MIN_DURATION
    ensures 0 in db.settling && 0 in db.handling
  {
    db := TwoAuctions();
    Wait(db, MIN_DURATION);
    Claim(db, 0, false);
    assert HasBids(db.bids, 0) by {
      assert db.bids[0].auction == 0;
    }
    var ok, handle := AuctionTasks.ProcessAuctionSettlement(db, 0);
  }

  lemma Overtaking(s: Database, ends: Time)
    requires Opened(s, ends) && s.now < ends
    ensures PlaceBid(s, RIVAL, 0, TOP) ==
            WithReleasedBid(WithNewBid(s, RIVAL, 0, TOP), 0, BidStatus.Released, OutbidRefund, AvailableBucket)
  {
    assert HighestBid(s.bids[..1], 0) == Some(0);
    assert HighestBid(s.bids, 0) == Some(0);
  }

  /** The rival leads on both auctions, with `locked` in their locked bucket. */
  ghost predicate RivalLeads(s: Store, locked: Kobo) {
    && |s.users| == |s.wallets| == 3 && s.wallets[RIVAL].locked == locked
    && |s.auctions| == 2 && s.auctions[0].highest == Some(2) && s.auctions[0].prices == [PRICE]
    && s.auctions[0].reserve == Some(TOP)
    && |s.bids| == 3 && s.bids[2].auction == 0 && s.bids[2].bidder == RIVAL && s.bids[2].amount == TOP
    && s.bids[1].auction == 1 && s.bids[1].bidder == RIVAL && s.bids[1].amount == TOP && s.bids[1].status.Active?
  }

  /** Before the handler runs the seller prolongs the auction. */
  method JudgedThenProlonged() returns (db: Session)
    ensures fresh(db) && db.Clean() && 0 in db.settling && 0 in db.handling
    ensures Opened(db.committed, 2 * MIN_DURATION) && db.now == MIN_DURATION
  {
    db := Judged();
    var error := AuctionService.ExtendAuction(db, SELLER, 0, 2 * MIN_DURATION);
  }

  /** The rival bids the reserve. */
  method JudgedThenOvertaken() returns (db: Session)
    ensures fresh(db) && db.Clean() && 0 in db.settling && 0 in db.handling && db.orders == []
    ensures RivalLeads(db.committed, 2 * TOP) && db.auctions[0].status == AuctionStatus.Active
    ensures db.bids[0].auction == 0 && db.bids[0].bidder == BUYER && db.bids[0].status == BidStatus.Released
    ensures db.bids[2].status.Active?
  {
    db := JudgedThenProlonged();
    Overtaking(db.committed, 2 * MIN_DURATION);
    var error := BidService.PlaceBid(db, RIVAL, 0, TOP);
  }

  /** A second delivery of the settlement message sells. */
  method JudgedThenSold() returns (db: Session)
    ensures fresh(db) && db.Clean() && 0 in db.handling
    ensures RivalLeads(db.committed, TOP) && db.auctions[0].status.Settled?
    ensures |db.orders| == 1 && db.orders[0].auction == 0 && db.orders[0].buyer == RIVAL
  {
    db := JudgedThenOvertaken();
    assert HasBids(db.bids, 0) by {
      assert db.bids[2].auction == 0;
    }
    var ok, handle := AuctionTasks.ProcessAuctionSettlement(db, 0);
  }

  /**
   The handler of the first delivery runs now: the sold auction ends as unsold, its order stays, and the money
   unlocked is that of the rival's bid on the other auction, which is still ACTIVE.
   */
  method LateHandler() returns (db: Session)
    ensures db.Clean() && RivalLeads(db.committed, 0)
    ensures db.auctions[0].status.EndedReserveNotMet? && db.bids[2].status.Lost?
    ensures |db.orders| == 1 && db.orders[0].auction == 0 && db.orders[0].buyer == RIVAL
  {
    db := JudgedThenSold();
    var ok := AuctionTasks.HandleReserveNotMet(db, 0);
  }

  // ---- A reserve handler that comes after a cancellation ----

  /** The handler takes the administrator's cancellation back: the auction ends as unsold and the money is unlocked. */
  method HandlerAfterCancel() returns (db: Session)
    ensures db.Clean() && |db.auctions| == |db.bids| == 2 && |db.users| == 3
    ensures db.auctions[0].status.EndedReserveNotMet? && db.bids[0].status.Lost? && db.wallets[BUYER].locked == 0
  {
    db := Judged();
    var error := AuctionService.CancelAuctionAdmin(db, 0);
    var ok := AuctionTasks.HandleReserveNotMet(db, 0);
  }

  // ---- Two deliveries, two handlers ----

  /** The buyer leads on both auctions, with both bids locked. */
  ghost predicate BuyerLeads(s: Store) {
    && |s.users| == |s.wallets| == 3 && s.wallets[BUYER] == Wallet(0, 2 * PRICE, 0)
    && |s.auctions| == |s.bids| == 2
    && s.auctions[0] == Auction(SELLER, AuctionStatus.Active, Some(0), Some(TOP), 0, MIN_DURATION, [PRICE])
    && s.bids[0].auction == 0 && s.bids[0].bidder == BUYER && s.bids[0].amount == PRICE && s.bids[0].status.Active?
    && s.bids[1].auction == 1 && s.bids[1].bidder == BUYER && s.bids[1].amount == PRICE && s.bids[1].status.Active?
  }

  method BidOnBoth() returns (db: Session)
    ensures fresh(db) && db.Clean() && BuyerLeads(db.committed) && db.now == 0
  {
    db := ListTwo(2 * PRICE);
    Offer(db, BUYER, 0, PRICE);
    Offer(db, BUYER, 1, PRICE);
  }

  /** Two deliveries judge the reserve missed before either handler runs. */
  method JudgedTwice() returns (db: Session, first: bool, second: bool)
    ensures fresh(db) && db.Clean() && BuyerLeads(db.committed) && first && second
  {
    db := BidOnBoth();
    Wait(db, MIN_DURATION);
    Claim(db, 0, false);
    assert HasBids(db.bids, 0) by {
      assert db.bids[0].auction == 0;
    }
    var ok: bool;
    ok, first := AuctionTasks.ProcessAuctionSettlement(db, 0);
    ok, second := AuctionTasks.ProcessAuctionSettlement(db, 0);
  }

  /** The last row says that the money of bid 0 was unlocked. */
  ghost predicate UnlocksFirst(ledger: seq<Row>) {
    && ledger != []
    && var r := ledger[|ledger| - 1];
       r.kind.BidUnlock? && r.ref == BidRef(0) && r.wallet == BUYER && r.amount == PRICE
  }

  /** A handler that finds the money unlocks the first bid, whatever its status, and leaves the second. */
  lemma Unlocking(s: Database)
    requires |s.wallets| == 3 && s.wallets[BUYER].locked >= PRICE
    requires |s.auctions| == |s.bids| == 2 && s.auctions[0].highest == Some(0)
    requires !s.auctions[0].status.EndedReserveNotMet?
    requires s.bids[0].auction == 0 && s.bids[0].bidder == BUYER && s.bids[0].amount == PRICE && s.bids[1].auction == 1
    ensures var t, w := HandleUnsold(s, 0), s.wallets[BUYER];
            && t.wallets == s.wallets[BUYER := Wallet(w.available + PRICE, w.locked - PRICE, w.escrow)]
            && t.auctions == s.auctions[0 := s.auctions[0].(status := EndedReserveNotMet)]
            && t.bids == [s.bids[0].(status := BidStatus.Lost), s.bids[1]]
            && |t.ledger| == |s.ledger| + 1 && t.ledger[..|s.ledger|] == s.ledger && UnlocksFirst(t.ledger)
  {
  }

  /** The first handler ends the auction, and an administrator cancels it. */
  method HandledThenCancelled() returns (db: Session)
    ensures fresh(db) && db.Clean() && |db.wallets| == 3 && |db.auctions| == |db.bids| == 2
    ensures db.wallets[BUYER] == Wallet(PRICE, PRICE, 0) && UnlocksFirst(db.ledger)
    ensures db.auctions[0].status.Cancelled? && db.auctions[0].highest == Some(0)
    ensures db.bids[0].auction == 0 && db.bids[0].bidder == BUYER && db.bids[0].amount == PRICE
    ensures db.bids[0].status.Lost? && db.bids[1].auction == 1 && db.bids[1].bidder == BUYER
    ensures db.bids[1].amount == PRICE && db.bids[1].status.Active?
  {
    var first, second: bool;
    db, first, second := JudgedTwice();
    Unlocking(db.committed);
    var ok := AuctionTasks.HandleReserveNotMet(db, 0);
    var error := AuctionService.CancelAuctionAdmin(db, 0);
  }

  /**
   The handler of the second delivery passes its guard and unlocks the same bid again. The buyer has all their money
   back while their bid on the other auction is still ACTIVE.
   */
  method DoubleUnlock() returns (db: Session)
    ensures db.Clean() && |db.wallets| == 3 && |db.bids| == 2 && |db.auctions| == 2
    ensures var n := |db.ledger|; n > 0 && UnlocksFirst(db.ledger) && UnlocksFirst(db.ledger[..n - 1])
    ensures db.bids[0].status.Lost? && db.bids[1].status.Active? && db.bids[1].bidder == BUYER
    ensures db.wallets[BUYER] == Wallet(2 * PRICE, 0, 0)
  {
    db := HandledThenCancelled();
    Unlocking(db.committed);
    var ok := AuctionTasks.HandleReserveNotMet(db, 0);
  }

  // ---- A bidder who was outbid ----

  lemma LeadingBid(s: Database)
    requires RivalLeads(s, 2 * TOP) && s.bids[0].auction == 0 && s.bids[0].status == BidStatus.Released
    requires s.bids[2].status.Active?
    ensures HighestBid(s.bids, 0) == Some(2)
  {
  }

  /** Outbid on the auction, the buyer is shown no bid of theirs, though it is among those counted. */
  method OutbidShownNothing() returns (db: Session, page: Option<BidState>)
    ensures db.Clean() && |db.bids| == 3 && db.bids[0].auction == 0 && db.bids[0].bidder == BUYER
    ensures page.Some? && page.value.highest == Some(TOP) && page.value.own.None?
  {
    db := JudgedThenOvertaken();
    LeadingBid(db.committed);
    page := BidService.GetAuctionBidState(db, 0, Some(BUYER));
  }

  // ---- A reserve of zero ----

  /** Once there is a bid the progress bar of the page divides by the reserve. */
  method ZeroReserve() returns (db: Session, answer: Reserve.Answer)
    ensures db.Clean() && |db.auctions| == |db.bids| == 1
    ensures db.auctions[0].reserve == Some(0) && db.auctions[0].highest == Some(0) && db.bids[0].amount == PRICE
    ensures answer.DivisionByZero?
  {
    db := Join();
    Fund(db, BUYER, PRICE);
    var a := List(db, PRICE, Some(0));
    Offer(db, BUYER, a, PRICE);
    answer := Reserve.ProgressPercent(Some(0), Some(PRICE));
  }

  // ---- A withdrawal whose transfer fails in the worker ----

  /** A user of the second tier with bank details and money. */
  method VerifiedUser() returns (db: Session)
    ensures fresh(db) && db.Clean() && |db.users| == 3 && |db.ledger| == 1 && db.ledger[0].kind.Deposit?
    ensures db.users[BUYER].tier.Tier2? && db.users[BUYER].bankDetails
    ensures db.wallets[BUYER] == Wallet(2 * PRICE, 0, 0)
  {
    db := Join();
    Fund(db, BUYER, 2 * PRICE);
    Platforms.PerformAccount(db, Protocol.AccountEvent.ChangeTier(BUYER, Tier2));
    Platforms.PerformAccount(db, Protocol.AccountEvent.ChangeBank(BUYER, true));
  }

  /** The withdrawal is PENDING for good, no refund was written, and the money has left the wallet. */
  method LostWithdrawal() returns (db: Session, ok: bool)
    ensures db.Clean() && |db.users| == 3 && |db.ledger| == 2
    ensures db.ledger[1].kind.Withdrawal? && db.ledger[1].status == TransactionStatus.Pending
    ensures db.ledger[1].wallet == BUYER && db.ledger[1].amount == PRICE
    ensures db.wallets[BUYER] == Wallet(PRICE, 0, 0)
  {
    db := VerifiedUser();
    assert WithdrawnSince(db.ledger, BUYER, DayOf(db.now) * DAY) == 0;
    var error := WalletService.InitiateWithdrawal(db, BUYER, PRICE);
    ok := WalletTasks.ProcessWithdrawalTransfer(db, 1, false);
  }
}

/** Placing a bid, step by step in one transaction. */
module BidService {
  import opened Domain
  import opened Limits
  import opened Tiers
  import opened Sessions
  import opened Bidding
  import WalletRepository
  import BidRepository
  import AuctionRepository

  /** The validation phase; nothing is written. */
  method Validate(db: Session, bidder: nat, a: nat, amount: Kobo) returns (error: Option<Error>)
    requires db.Clean()
    ensures var expected := BidError(db.committed, bidder, a, amount);
            error == expected || (error.None? && expected == Some(WalletRefused))
  {
    if amount <= 0 {
      return Some(InvalidRequest);
    }
    if a >= |db.auctions| {
      return Some(NotFound);
    }
    var auction := db.auctions[a];
    if auction.status != AuctionStatus.Active {
      return Some(AuctionNotActive);
    }
    if auction.endsAt <= db.now {
      return Some(AuctionEnded);
    }
    if bidder == auction.seller {
      return Some(SellerCannotBid);
    }
    var current := HighestBid(db.bids, a);
    if current.Some? && db.bids[current.value].bidder == bidder {
      return Some(AlreadyHighestBidder);
    }
    var minimum: Kobo;
    if current.Some? {
      var increment := IncrementFor(db.tiers, db.bids[current.value].amount);
      minimum := db.bids[current.value].amount + increment;
    } else {
      if auction.prices == [] {
        return Some(NoItemsAttached);
      }
      minimum := auction.prices[0];
    }
    if amount < minimum {
      return Some(InvalidBidAmount);
    }
    if bidder >= |db.wallets| || db.wallets[bidder].available < amount {
      return Some(InsufficientFunds);
    }
    if amount > LimitsFor(db.users[bidder].tier).maxBid {
      return Some(LimitExceeded);
    }
    return None;
  }

  /** Moves the amount from available to locked and writes the row that says so. */
  method LockMoney(db: Session, bidder: nat, amount: Kobo, bid: nat)
    requires bidder < |db.wallets| && WalletOk(db.wallets[bidder]) && 0 < amount <= db.wallets[bidder].available
    modifies db`wallets, db`ledger
    ensures var w := old(db.wallets[bidder]);
            && db.wallets == old(db.wallets)[bidder := Wallet(w.available - amount, w.locked + amount, w.escrow)]
            && db.ledger == old(db.ledger) +
                 [Row(bidder, amount, BidLock, Debit, AvailableBucket, BidRef(bid), BidPlaced,
                      w.available, w.available - amount, TransactionStatus.Completed, db.now)]
  {
    var before := db.wallets[bidder].available;
    var ok := WalletRepository.UpdateBalances(db, bidder, -amount, amount, 0);
    assert ok;
    ok := WalletRepository.CreateTransaction(db,
      Row(bidder, amount, BidLock, Debit, AvailableBucket, BidRef(bid), BidPlaced,
          before, db.wallets[bidder].available, TransactionStatus.Completed, db.now));
    assert ok;
  }

  /** Locks the bidder's money, records the bid, links its ledger row and moves the pointer. */
  method LockFunds(db: Session, bidder: nat, a: nat, amount: Kobo)
    requires db.Clean()
    requires a < |db.auctions| && bidder < |db.users| && 0 < amount <= db.wallets[bidder].available
    modifies db`wallets, db`bids, db`ledger, db`auctions
    ensures db.View() == WithNewBid(db.committed, bidder, a, amount)
  {
    ghost var s := db.committed;
    var bid := BidRepository.Create(db, a, bidder, amount);
    var row := |db.ledger|;
    LockMoney(db, bidder, amount, bid);
    BidRepository.LinkWalletTransaction(db, bid, row);
    assert db.bids == s.bids + [Bid(a, bidder, amount, BidStatus.Active, s.now, Some(row))];
    AuctionRepository.UpdateHighestBid(db, a, bid);
  }

  /** Moves the amount from locked back to available and writes the row that says so. */
  method UnlockMoney(db: Session, bidder: nat, amount: Kobo, bid: nat) returns (ok: bool)
    requires bidder < |db.wallets| && WalletOk(db.wallets[bidder]) && amount > 0
    modifies db`wallets, db`ledger
    ensures ok <==> amount <= old(db.wallets[bidder]).locked
    ensures ok ==>
              var w := old(db.wallets[bidder]);
              && db.wallets == old(db.wallets)[bidder := Wallet(w.available + amount, w.locked - amount, w.escrow)]
              && db.ledger == old(db.ledger) +
                   [Row(bidder, amount, BidUnlock, Credit, AvailableBucket, BidRef(bid), OutbidRefund,
                        w.available, w.available + amount, TransactionStatus.Completed, db.now)]
  {
    var before := db.wallets[bidder].available;
    ok := WalletRepository.UpdateBalances(db, bidder, amount, -amount, 0);
    if ok {
      var posted := WalletRepository.CreateTransaction(db,
        Row(bidder, amount, BidUnlock, Credit, AvailableBucket, BidRef(bid), OutbidRefund,
            before, db.wallets[bidder].available, TransactionStatus.Completed, db.now));
      assert posted;
    }
  }

  /** Marks the overtaken bid OUTBID, gives its money back and marks it RELEASED, on top of the new bid. */
  method RefundOutbid(db: Session, ghost placed: Database, current: nat) returns (ok: bool)
    requires db.View() == placed && current < |placed.bids|
    modifies db`wallets, db`bids, db`ledger
    ensures ok <==> placed.bids[current].amount <= placed.wallets[placed.bids[current].bidder].locked
    ensures ok ==> db.View() == WithReleasedBid(placed, current, BidStatus.Released, OutbidRefund, AvailableBucket)
  {
    var bid := db.bids[current];
    assert BidOk(bid, |placed.users|, |placed.auctions|) && WalletOk(db.wallets[bid.bidder]);
    BidRepository.UpdateStatus(db, current, Outbid);
    ok := UnlockMoney(db, bid.bidder, bid.amount, current);
    if ok {
      BidRepository.UpdateStatus(db, current, BidStatus.Released);
    }
  }

  /** All or nothing: on any refusal the transaction is rolled back. */
  method PlaceBid(db: Session, bidder: nat, a: nat, amount: Kobo) returns (error: Option<Error>)
    requires db.Clean()
    modifies db
    ensures db.Clean() && db.committed == Bidding.PlaceBid(old(db.committed), bidder, a, amount)
    ensures error == BidError(old(db.committed), bidder, a, amount)
  {
    ghost var s := db.committed;
    error := Validate(db, bidder, a, amount);
    if error.Some? {
      db.Rollback();
      return;
    }
    var current := HighestBid(db.bids, a);
    LockFunds(db, bidder, a, amount);
    if current.Some? {
      var ok := RefundOutbid(db, WithNewBid(s, bidder, a, amount), current.value);
      if !ok {
        db.Rollback();
        return Some(WalletRefused);
      }
    }
    db.Commit();
  }

  /**
   The polled bid state. It computes the least next bid a second time, from its own queries, and arrives at the
   amount that placing a bid enforces.
   */
  method GetAuctionBidState(db: Session, a: nat, user: Option<nat>) returns (state: Option<BidState>)
    requires db.Clean()
    ensures state.None? <==> a >= |db.auctions|
    ensures state.Some? ==> state.value == PageState(db.committed, a, user)
    ensures state.Some? ==> forall bidder: nat, amount: Kobo ::
              match BidError(db.committed, bidder, a, amount)
              case Some(InvalidBidAmount) => amount < state.value.minimum
              case None | Some(InsufficientFunds) | Some(LimitExceeded) | Some(WalletRefused) =>
                state.value.minimum <= amount
              case _ => true
  {
    if a >= |db.auctions| {
      return None;
    }
    var highest := HighestBid(db.bids, a);
    var minimum: Kobo := 0;
    if highest.Some? {
      var increment := IncrementFor(db.tiers, db.bids[highest.value].amount);
      minimum := db.bids[highest.value].amount + increment;
    } else if db.auctions[a].prices != [] {
      minimum := db.auctions[a].prices[0];
    }
    var count := BidCount(db.bids, a);
    var own := None;
    if user.Some? {
      var bid := UserBid(db.bids, a, user.value);
      if bid.Some? {
        own := Some(OwnBid(bid.value, db.bids[bid.value].amount, highest.Some? && highest.value == bid.value));
      }
    }
    var amount := if highest.Some? then Some(db.bids[highest.value].amount) else None;
    return Some(BidState(amount, minimum, count, own));
  }
}

/** The auction workers: activation, the settlement scan with its claims, and the queued settlement task. */
module AuctionTasks {
  import opened Domain
  import opened Sessions
  import opened Bidding
  import opened Auctions
  import opened Settlement
  import opened Commissions
  import opened Sweeps
  import WalletRepository
  import BidRepository
  import AuctionRepository

  /** One transaction over every scheduled auction whose start has come. */
  method ActivateScheduledAuctions(db: Session)
    requires db.Clean()
    modifies db
    ensures db.Clean() && db.committed == ActivateScheduled(old(db.committed))
    ensures |db.auctions| == |old(db.auctions)|
    ensures forall k | 0 <= k < |db.auctions| ::
              var x := old(db.auctions[k]);
              db.auctions[k] == if x.status.Scheduled? && x.startsAt <= db.now
                                then x.(status := AuctionStatus.Active) else x
  {
    ghost var s := db.committed;
    for i := 0 to |db.auctions|
      invariant |db.auctions| == |s.auctions| && db.View() == s.(auctions := db.auctions) && db.committed == s
      invariant forall k | 0 <= k < i :: db.auctions[k] == Activated(s.auctions[k], s.now)
      invariant forall k | i <= k < |s.auctions| :: db.auctions[k] == s.auctions[k]
    {
      if db.auctions[i].status.Scheduled? && db.auctions[i].startsAt <= db.now {
        AuctionRepository.UpdateStatus(db, i, AuctionStatus.Active);
      }
    }
    assert db.auctions == ActivateScheduled(s).auctions;
    db.Commit();
  }

  // ---- Scan and claim ----

  /** Collects the ids of the auctions to settle; the claims come later, each in a transaction of its own. */
  method Scan(db: Session, stale: set<nat>) returns (ids: seq<nat>)
    requires db.Clean()
    modifies db
    ensures db.Clean() && db.committed == ScanAuctions(old(db.committed), stale)
    ensures forall i, j | 0 <= i < j < |ids| :: ids[i] < ids[j]
    ensures forall a: nat :: a in ids <==>
              a < |db.auctions| &&
              (Ended(old(db.committed), a) || (a in stale && db.auctions[a].status.SettlementInProgress?))
    ensures forall i | 0 <= i < |ids| :: ids[i] < |db.auctions| && ids[i] in db.scanned
  {
    ghost var s := db.committed;
    ids := [];
    for a := 0 to |db.auctions|
      invariant forall x: nat :: x in ids <==>
                  x < a && (Ended(s, x) || (x in stale && s.auctions[x].status.SettlementInProgress?))
      invariant forall i | 0 <= i < |ids| :: ids[i] < a
      invariant forall i, j | 0 <= i < j < |ids| :: ids[i] < ids[j]
    {
      var auction := db.auctions[a];
      if (auction.status.Active? && auction.endsAt <= db.now) || (auction.status.SettlementInProgress? && a in stale) {
        ids := ids + [a];
      }
    }
    db.scanned := db.scanned + set a | a in ids;
    assert db.scanned == ScanAuctions(s, stale).scanned;
    db.Commit();
  }

  /** One worker's attempt on one scanned id. The task is sent before the commit, which may be lost. */
  method Claim(db: Session, a: nat, commits: bool) returns (claimed: bool)
    requires db.Clean() && a in db.scanned
    modifies db
    ensures db.Clean() && claimed == Claims(old(db.committed), a)
    ensures db.committed == if commits then ClaimAuction(old(db.committed), a) else LoseClaim(old(db.committed), a)
  {
    claimed := AuctionRepository.ClaimForSettlement(db, a);
    if claimed {
      var sent := db.settling + {a};
      if !commits {
        db.Rollback();
      }
      db.settling := sent;
      db.Commit();
    }
  }

  /**
   The sweep, undisturbed: every ended auction is claimed and queued once, and nothing else is. An auction found
   stale in progress is not claimed again, as the claim asks for ACTIVE.
   */
  method SettleEndedAuctions(db: Session, stale: set<nat>) returns (queued: nat)
    requires db.Clean()
    modifies db
    ensures db.Clean()
    ensures var s := old(db.committed);
            var ended := set a | 0 <= a < |s.auctions| && Ended(s, a);
            Swept(ScanAuctions(s, stale), db.committed, ended) && queued == |ended|
  {
    ghost var before := db.committed;
    var ids := Scan(db, stale);
    ghost var s: Database := db.committed;
    queued := 0;
    for i := 0 to |ids|
      invariant db.Clean() && s.scanned == db.scanned
      invariant db.committed == ClaimEach(s, ids[..i]) && queued == Queued(s, ids[..i])
    {
      assert ids[..i + 1][..i] == ids[..i];
      var claimed := Claim(db, ids[i], true);
      if claimed {
        queued := queued + 1;
      }
    }
    assert ids[..|ids|] == ids;
    ClaimEachSweeps(s, ids);
    assert ActiveAmong(s, ids) == set a | 0 <= a < |before.auctions| && Ended(before, a);
  }

  // ---- The settlement task ----

  /** The loop over an auction's bids: the winner WON, all others LOST. */
  method MarkBids(db: Session, a: nat, winner: Option<nat>)
    modifies db`bids
    ensures db.bids == CloseBids(old(db.bids), a, winner)
  {
    ghost var bids := db.bids;
    for i := 0 to |db.bids|
      invariant |db.bids| == |bids|
      invariant forall k | 0 <= k < i :: db.bids[k] == Settlement.Closed(bids[k], k, a, winner)
      invariant forall k | i <= k < |bids| :: db.bids[k] == bids[k]
    {
      if db.bids[i].auction == a {
        BidRepository.UpdateStatus(db, i, if winner == Some(i) then BidStatus.Won else BidStatus.Lost);
      }
    }
  }

  /** Sets the auction's status and every bid's. */
  method CloseUnsoldBids(db: Session, a: nat)
    requires a < |db.auctions|
    modifies db`auctions, db`bids
    ensures db.auctions == old(db.auctions)[a := old(db.auctions[a]).(status := EndedReserveNotMet)]
    ensures db.bids == CloseBids(old(db.bids), a, None)
  {
    AuctionRepository.UpdateStatus(db, a, EndedReserveNotMet);
    MarkBids(db, a, None);
  }

  /** Unlocks the highest bid's money, or gives the whole transaction up. */
  method UnlockHighest(db: Session, a: nat) returns (ok: bool)
    requires Constraints(db.committed) && a < |db.committed.auctions| && db.committed.auctions[a].highest.Some?
    requires db.View() == SetStatus(db.committed, a, EndedReserveNotMet).(bids := CloseBids(db.committed.bids, a, None))
    modifies db
    ensures db.Clean() && ok == CanUnlock(old(db.committed), a)
    ensures db.committed == if ok then CloseUnsold(old(db.committed), a) else old(db.committed)
  {
    ghost var s: Database := db.committed;
    var h := db.auctions[a].highest.value;
    var bid := db.bids[h];
    assert BidOk(s.bids[h], |s.users|, |s.auctions|);
    var before := db.wallets[bid.bidder].available;
    ok := WalletRepository.UpdateBalances(db, bid.bidder, bid.amount, -bid.amount, 0);
    if ok {
      var posted := WalletRepository.CreateTransaction(db,
        Row(bid.bidder, bid.amount, BidUnlock, Credit, LockedBucket, BidRef(h), ReserveNotMetRefund,
            before, db.wallets[bid.bidder].available, TransactionStatus.Completed, db.now));
      assert posted;
      assert db.View() == CloseUnsold(s, a);
      db.Commit();
    } else {
      db.Rollback();
    }
  }

  /** In a transaction of its own, and guarded against being repeated. It fails when the wallet refuses. */
  method HandleReserveNotMet(db: Session, a: nat) returns (ok: bool)
    requires db.Clean()
    modifies db
    ensures db.Clean() && db.committed == HandleUnsold(old(db.committed), a)
    ensures !ok <==>
              && a < |old(db.auctions)| && !old(db.auctions[a]).status.EndedReserveNotMet?
              && old(db.auctions[a]).highest.Some? && !CanUnlock(old(db.committed), a)
  {
    ghost var s := db.committed;
    if a >= |db.auctions| {
      return true;
    }
    if db.auctions[a].status.EndedReserveNotMet? {
      return true;
    }
    assert AuctionOk(db.auctions[a], |db.users|, |db.bids|);
    CloseUnsoldBids(db, a);
    var highest := db.auctions[a].highest;
    if highest.None? {
      assert db.View() == HandleUnsold(s, a);
      db.Commit();
      return true;
    }
    ok := UnlockHighest(db, a);
  }

  method InsertSale(db: Session, a: nat, bid: Bid) returns (order: nat)
    requires a < |db.auctions| && bid.amount > 0
    modifies db`orders, db`escrows
    ensures order == |old(db.orders)|
    ensures db.orders == old(db.orders) +
              [Order(a, bid.bidder, db.auctions[a].seller, bid.amount, PendingShipment, db.now + db.shippingTime, None)]
    ensures db.escrows == old(db.escrows) +
              [Escrow(order, a, bid.bidder, db.auctions[a].seller, bid.amount, CommissionOf(bid.amount),
                      Holding, db.now + AUTO_RELEASE)]
  {
    var seller := db.auctions[a].seller;
    var commission := CommissionOf(bid.amount);
    order := |db.orders|;
    db.orders := db.orders +
      [Order(a, bid.bidder, seller, bid.amount, PendingShipment, db.now + db.shippingTime, None)];
    db.escrows := db.escrows +
      [Escrow(order, a, bid.bidder, seller, bid.amount, commission, Holding, db.now + AUTO_RELEASE)];
  }

  method MoveToEscrow(db: Session, bid: Bid, order: nat) returns (ok: bool)
    requires bid.bidder < |db.wallets| && WalletOk(db.wallets[bid.bidder]) && bid.amount > 0
    modifies db`wallets, db`ledger
    ensures ok <==> bid.amount <= old(db.wallets[bid.bidder]).locked
    ensures ok ==>
              var w := old(db.wallets[bid.bidder]);
              && db.wallets == old(db.wallets)[bid.bidder :=
                   Wallet(w.available, w.locked - bid.amount, w.escrow + bid.amount)]
              && db.ledger == old(db.ledger) +
                   [Row(bid.bidder, bid.amount, EscrowMove, Debit, LockedBucket, OrderRef(order), EscrowHold,
                        w.available, w.available, TransactionStatus.Completed, db.now)]
  {
    var before := db.wallets[bid.bidder].available;
    ok := WalletRepository.UpdateBalances(db, bid.bidder, 0, -bid.amount, bid.amount);
    if ok {
      var posted := WalletRepository.CreateTransaction(db,
        Row(bid.bidder, bid.amount, EscrowMove, Debit, LockedBucket, OrderRef(order), EscrowHold,
            before, db.wallets[bid.bidder].available, TransactionStatus.Completed, db.now));
      assert posted;
    }
  }

  /** Creates the order and its escrow and moves the winner's money from locked to escrow. */
  method CreateSale(db: Session, a: nat) returns (ok: bool)
    requires db.Clean() && a < |db.auctions| && db.auctions[a].highest.Some? && db.auctions[a].prices != []
    modifies db`orders, db`escrows, db`wallets, db`ledger
    ensures ok == CanUnlock(db.committed, a)
    ensures ok && Judge(db.committed, a) == Sold ==>
              db.View() == CloseSold(db.committed, a).(auctions := db.auctions, bids := db.bids)
  {
    ghost var s: Database := db.committed;
    var auction := db.auctions[a];
    var bid := db.bids[auction.highest.value];
    assert BidOk(bid, |db.users|, |db.auctions|) && WalletOk(db.wallets[bid.bidder]);
    var order := InsertSale(db, a, bid);
    ok := MoveToEscrow(db, bid, order);
  }

  method SettleSold(db: Session, a: nat) returns (ok: bool)
    requires db.Clean() && a < |db.auctions|
    requires Judge(db.committed, a) == (if CanUnlock(db.committed, a) then Sold else Abort)
    requires db.auctions[a].highest.Some? && db.auctions[a].prices != []
    modifies db
    ensures db.Clean() && ok == CanUnlock(old(db.committed), a)
    ensures db.committed == if ok then CloseSold(old(db.committed), a) else old(db.committed)
  {
    ghost var s: Database := db.committed;
    ok := CreateSale(db, a);
    if ok {
      MarkBids(db, a, db.auctions[a].highest);
      AuctionRepository.UpdateStatus(db, a, Settled);
      assert db.View() == CloseSold(s, a);
      db.Commit();
    } else {
      db.Rollback();
    }
  }

  /**
   A delivered settlement message, up to the point where it calls the reserve handler: `handle` says that it does.
   `ok` is false when the task raises and its transaction is rolled back.
   */
  method ProcessAuctionSettlement(db: Session, a: nat) returns (ok: bool, handle: bool)
    requires db.Clean() && a in db.settling
    modifies db
    ensures db.Clean() && db.committed == Settle(old(db.committed), a)
    ensures ok <==> (a < |old(db.auctions)| ==> Judge(old(db.committed), a) != Abort)
    ensures handle <==> a < |old(db.auctions)| && Judge(old(db.committed), a) == ReserveNotMet
    ensures a < |old(db.auctions)| && !Terminal(old(db.auctions[a]).status) && !HasBids(old(db.bids), a) ==>
              db.auctions == old(db.auctions)[a := old(db.auctions[a]).(status := EndedNoBids)]
  {
    handle := false;
    if a >= |db.auctions| {
      return true, false;
    }
    var auction := db.auctions[a];
    if Terminal(auction.status) {
      return true, false;
    }
    if !HasBids(db.bids, a) {
      AuctionRepository.UpdateStatus(db, a, EndedNoBids);
      db.Commit();
      return true, false;
    }
    if auction.highest.None? {
      return false, false;
    }
    assert AuctionOk(auction, |db.users|, |db.bids|);
    if auction.reserve.Some? && auction.reserve.value > db.bids[auction.highest.value].amount {
      db.handling := db.handling + {a};
      db.Commit();
      return true, true;
    }
    if auction.prices == [] {
      return false, false;
    }
    ok := SettleSold(db, a);
  }

  /** The whole task with nobody else acting between judgement and handler. */
  method DeliverSettlement(db: Session, a: nat) returns (ok: bool)
    requires db.Clean() && a in db.settling
    modifies db
    ensures db.Clean()
    ensures var s := old(db.committed);
            db.committed ==
              if a < |s.auctions| && Judge(s, a) == ReserveNotMet then HandleUnsold(Settle(s, a), a) else Settle(s, a)
  {
    var handle: bool;
    ok, handle := ProcessAuctionSettlement(db, a);
    if handle {
      ok := HandleReserveNotMet(db, a);
    }
  }
}

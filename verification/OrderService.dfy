/** Shipping, confirming and cancelling orders, and the two ways money leaves escrow. */
module OrderService {
  import opened Domain
  import opened Sessions
  import opened Orders
  import WalletRepository
  import EscrowRepository
  import OrderRepository
  import UserRepository

  // ---- Money out of escrow ----

  /** The winner's escrow bucket down by the amount, the seller's available funds up by the rest. */
  method MovePayout(db: Session, escrow: Escrow) returns (ok: bool)
    requires escrow.winner < |db.wallets| && escrow.seller < |db.wallets|
    requires WalletOk(db.wallets[escrow.winner]) && WalletOk(db.wallets[escrow.seller]) && escrow.amount > 0
    modifies db`wallets
    ensures 0 < escrow.amount - escrow.commission ==> (ok <==> escrow.amount <= old(db.wallets[escrow.winner]).escrow)
    ensures ok ==> escrow.amount <= old(db.wallets[escrow.winner]).escrow
    ensures ok ==>
              var w := old(db.wallets[escrow.winner]);
              var drained := old(db.wallets)[escrow.winner := w.(escrow := w.escrow - escrow.amount)];
              var v := drained[escrow.seller];
              db.wallets == drained[escrow.seller := v.(available := v.available + escrow.amount - escrow.commission)]
  {
    ok := WalletRepository.UpdateBalances(db, escrow.winner, 0, 0, -escrow.amount);
    if ok {
      ok := WalletRepository.UpdateBalances(db, escrow.seller, escrow.amount - escrow.commission, 0, 0);
    }
  }

  /** A row for the payout and one for the commission; the ledger takes neither if it is not positive. */
  method RecordPayout(db: Session, e: nat, escrow: Escrow) returns (ok: bool)
    requires escrow.seller < |db.wallets|
    modifies db`ledger
    ensures ok <==> 0 < escrow.commission < escrow.amount
    ensures ok ==>
              var after := db.wallets[escrow.seller].available;
              db.ledger == old(db.ledger) +
                [Row(escrow.seller, escrow.amount - escrow.commission, EscrowRelease, Credit, AvailableBucket,
                     EscrowRef(e), SaleProceeds, after - (escrow.amount - escrow.commission), after,
                     TransactionStatus.Completed, db.now),
                 Row(escrow.seller, escrow.commission, Commission, Debit, AvailableBucket, EscrowRef(e),
                     PlatformCommission, after, after, TransactionStatus.Completed, db.now)]
  {
    var after := db.wallets[escrow.seller].available;
    var payout := escrow.amount - escrow.commission;
    ok := WalletRepository.CreateTransaction(db,
      Row(escrow.seller, payout, EscrowRelease, Credit, AvailableBucket, EscrowRef(e), SaleProceeds,
          after - payout, after, TransactionStatus.Completed, db.now));
    if ok {
      ok := WalletRepository.CreateTransaction(db,
        Row(escrow.seller, escrow.commission, Commission, Debit, AvailableBucket, EscrowRef(e), PlatformCommission,
            after, after, TransactionStatus.Completed, db.now));
    }
  }

  /** The wallets and the ledger's share of a release. */
  method PaySeller(db: Session, e: nat) returns (ok: bool)
    requires Constraints(db.View()) && e < |db.escrows|
    modifies db`wallets, db`ledger
    ensures ok <==> CanPayOut(old(db.View()), e)
    ensures ok ==> db.wallets == PayOut(old(db.View()), e).wallets && db.ledger == PayOut(old(db.View()), e).ledger
  {
    ghost var s: Database := db.View();
    var escrow := db.escrows[e];
    assert EscrowOk(escrow, |db.users|, |db.auctions|, |db.orders|);
    ok := MovePayout(db, escrow);
    if ok {
      ok := RecordPayout(db, e, escrow);
      assert ok ==> db.ledger == s.ledger + PayoutRows(s, e);
    }
  }

  /** Pays the seller inside the caller's transaction. The escrow's status is not looked at. */
  method ReleaseEscrowToSeller(db: Session, e: nat) returns (ok: bool)
    requires Constraints(db.View())
    modifies db`wallets, db`ledger, db`escrows, db`users
    ensures ok <==> CanPayOut(old(db.View()), e)
    ensures ok ==> db.View() == PayOut(old(db.View()), e)
  {
    if e >= |db.escrows| {
      return false;
    }
    ok := PaySeller(db, e);
    if ok {
      EscrowRepository.UpdateStatus(db, e, EscrowStatus.Released);
      UserRepository.IncrementTotalSales(db, db.escrows[e].seller);
    }
  }

  /** The buyer's escrow bucket down and available funds up by the amount, with a row to say so. */
  method MoveRefund(db: Session, e: nat, amount: Kobo, buyer: nat, note: Note) returns (ok: bool)
    requires buyer < |db.wallets| && WalletOk(db.wallets[buyer]) && amount > 0
    modifies db`wallets, db`ledger
    ensures ok <==> amount <= old(db.wallets[buyer]).escrow
    ensures ok ==>
              var w := old(db.wallets[buyer]);
              && db.wallets == old(db.wallets)[buyer := Wallet(w.available + amount, w.locked, w.escrow - amount)]
              && db.ledger == old(db.ledger) +
                   [Row(buyer, amount, TransactionType.Refund, Credit, AvailableBucket, EscrowRef(e), note,
                        if note.DisputeRefund? then w.escrow else w.available, w.available + amount,
                        TransactionStatus.Completed, db.now)]
  {
    var before := if note.DisputeRefund? then db.wallets[buyer].escrow else db.wallets[buyer].available;
    ok := WalletRepository.UpdateBalances(db, buyer, amount, 0, -amount);
    if ok {
      var posted := WalletRepository.CreateTransaction(db,
        Row(buyer, amount, TransactionType.Refund, Credit, AvailableBucket, EscrowRef(e), note,
            before, db.wallets[buyer].available, TransactionStatus.Completed, db.now));
      assert posted;
    }
  }

  /** The wallet and ledger side of a refund. */
  method PayBuyer(db: Session, o: nat, e: nat, status: OrderStatus, note: Note) returns (ok: bool)
    requires Constraints(db.View()) && o < |db.orders| && FindEscrow(db.escrows, o) == Some(e)
    modifies db`wallets, db`ledger
    ensures ok <==> CanRefund(old(db.View()), o)
    ensures ok ==>
              var t := RefundBuyer(old(db.View()), o, status, note);
              db.wallets == t.wallets && db.ledger == t.ledger
  {
    ghost var s: Database := db.View();
    var buyer := db.orders[o].buyer;
    var escrow := db.escrows[e];
    assert OrderOk(s.orders[o], |s.users|, |s.auctions|, |s.disputes|) && WalletOk(s.wallets[buyer]);
    assert EscrowOk(escrow, |s.users|, |s.auctions|, |s.orders|);
    ok := MoveRefund(db, e, escrow.amount, buyer, note);
  }

  /** Gives the escrowed amount back to the buyer and closes the order, inside the caller's transaction. */
  method RefundToBuyer(db: Session, o: nat, status: OrderStatus, note: Note) returns (ok: bool)
    requires Constraints(db.View()) && o < |db.orders|
    modifies db`wallets, db`ledger, db`escrows, db`orders
    ensures ok <==> CanRefund(old(db.View()), o)
    ensures ok ==> db.View() == RefundBuyer(old(db.View()), o, status, note)
  {
    var found := FindEscrow(db.escrows, o);
    if found.None? {
      return false;
    }
    ok := PayBuyer(db, o, found.value, status, note);
    if ok {
      EscrowRepository.UpdateStatus(db, found.value, EscrowStatus.Refunded);
      OrderRepository.UpdateStatus(db, o, status);
    }
  }

  // ---- Requests ----

  method ShipOrder(db: Session, seller: nat, o: nat) returns (error: Option<Error>)
    requires db.Clean()
    modifies db
    ensures db.Clean() && db.committed == Orders.ShipOrder(old(db.committed), seller, o)
    ensures error.None? <==>
              o < |old(db.orders)| && old(db.orders[o]).seller == seller && old(db.orders[o]).status.PendingShipment?
  {
    if o >= |db.orders| {
      return Some(NotFound);
    }
    if db.orders[o].seller != seller {
      return Some(PermissionDenied);
    }
    if db.orders[o].status != PendingShipment {
      return Some(WrongStatus);
    }
    OrderRepository.UpdateStatus(db, o, Shipped);
    db.Commit();
    return None;
  }

  /** A payout neither reads nor writes the order, so its DELIVERED is gone once COMPLETED is written. */
  lemma DeliveredPays(s: Database, o: nat, e: nat)
    requires o < |s.orders|
    ensures CanPayOut(SetOrder(s, o, Delivered), e) <==> CanPayOut(s, e)
    ensures CanPayOut(s, e) ==>
              SetOrder(PayOut(SetOrder(s, o, Delivered), e), o, OrderStatus.Completed) ==
              SetOrder(PayOut(s, e), o, OrderStatus.Completed)
  {
  }

  /** DELIVERED, then the payout, then COMPLETED, inside the caller's transaction. */
  method Complete(db: Session, o: nat, e: nat) returns (ok: bool)
    requires db.Clean() && o < |db.orders|
    modifies db`wallets, db`ledger, db`escrows, db`users, db`orders
    ensures ok <==> CanPayOut(db.committed, e)
    ensures ok ==> db.View() == SetOrder(PayOut(db.committed, e), o, OrderStatus.Completed)
  {
    OrderRepository.UpdateStatus(db, o, Delivered);
    assert db.View() == SetOrder(db.committed, o, Delivered);
    DeliveredPays(db.committed, o, e);
    ok := ReleaseEscrowToSeller(db, e);
    if ok {
      OrderRepository.UpdateStatus(db, o, OrderStatus.Completed);
    }
  }

  /** DELIVERED, the payout and COMPLETED are one transaction: anything refused rolls all of it back. */
  method ConfirmDelivery(db: Session, buyer: nat, o: nat) returns (error: Option<Error>)
    requires db.Clean()
    modifies db
    ensures db.Clean() && db.committed == Orders.ConfirmDelivery(old(db.committed), buyer, o)
    ensures error.None? <==>
              && o < |old(db.orders)| && old(db.orders[o]).buyer == buyer && old(db.orders[o]).status.Shipped?
              && FindEscrow(old(db.escrows), o).Some?
              && CanPayOut(old(db.committed), FindEscrow(old(db.escrows), o).value)
  {
    if o >= |db.orders| {
      return Some(NotFound);
    }
    if db.orders[o].buyer != buyer {
      return Some(PermissionDenied);
    }
    if db.orders[o].status != Shipped {
      return Some(WrongStatus);
    }
    var found := FindEscrow(db.escrows, o);
    if found.None? {
      return Some(NotFound);
    }
    var ok := Complete(db, o, found.value);
    if !ok {
      db.Rollback();
      return Some(WalletRefused);
    }
    db.Commit();
    return None;
  }

  method CancelOrder(db: Session, buyer: nat, o: nat) returns (error: Option<Error>)
    requires db.Clean()
    modifies db
    ensures db.Clean() && db.committed == Orders.CancelOrder(old(db.committed), buyer, o)
    ensures error.None? <==>
              Overdue(old(db.committed), o) && old(db.orders[o]).buyer == buyer && CanRefund(old(db.committed), o)
  {
    if o >= |db.orders| {
      return Some(NotFound);
    }
    if db.orders[o].buyer != buyer {
      return Some(PermissionDenied);
    }
    if db.orders[o].status != PendingShipment {
      return Some(WrongStatus);
    }
    if db.orders[o].shipBy > db.now {
      return Some(TooEarly);
    }
    var ok := RefundToBuyer(db, o, OrderStatus.Cancelled, CancelledOrderRefund);
    if !ok {
      db.Rollback();
      return Some(WalletRefused);
    }
    db.Commit();
    return None;
  }
}

/** Raising, reviewing and deciding disputes. */
module DisputeService {
  import opened Domain
  import opened Sessions
  import opened Orders
  import OrderService
  import OrderRepository
  import DisputeRepository

  /** One dispute per order; the escrow is left as it is. */
  method RaiseDispute(db: Session, buyer: nat, o: nat) returns (error: Option<Error>)
    requires db.Clean()
    modifies db
    ensures db.Clean() && db.committed == Orders.RaiseDispute(old(db.committed), buyer, o)
    ensures error.None? <==>
              && o < |old(db.orders)| && old(db.orders[o]).buyer == buyer
              && old(db.orders[o]).status in {Shipped, Delivered}
              && forall d | 0 <= d < |old(db.disputes)| :: old(db.disputes[d]).order != o
  {
    if o >= |db.orders| {
      return Some(NotFound);
    }
    var order := db.orders[o];
    if order.buyer != buyer {
      return Some(PermissionDenied);
    }
    if order.status != Shipped && order.status != Delivered {
      return Some(WrongStatus);
    }
    if FindDispute(db.disputes, o).Some? {
      return Some(AlreadyExists);
    }
    ghost var s: Database := db.committed;
    var dispute := DisputeRepository.Create(db, o, buyer, order.seller);
    db.orders := db.orders[o := order.(status := OrderStatus.Disputed, dispute := Some(dispute))];
    assert db.View() == Orders.RaiseDispute(s, buyer, o);
    db.Commit();
    return None;
  }

  method MarkUnderReview(db: Session, admin: nat, d: nat) returns (error: Option<Error>)
    requires db.Clean()
    modifies db
    ensures db.Clean() && db.committed == Orders.MarkUnderReview(old(db.committed), admin, d)
    ensures error.None? <==>
              && d < |old(db.disputes)| && old(db.disputes[d]).status.Open?
              && admin < |old(db.users)| && old(db.users[admin]).admin
  {
    if d >= |db.disputes| {
      return Some(NotFound);
    }
    if admin >= |db.users| || !db.users[admin].admin {
      return Some(PermissionDenied);
    }
    if db.disputes[d].status != Open {
      return Some(WrongStatus);
    }
    ghost var s: Database := db.committed;
    DisputeRepository.UpdateStatus(db, d, UnderReview);
    assert db.View() == SetDispute(s, d, UnderReview);
    db.Commit();
    return None;
  }

  /** Refund or payout, and the order's last status, inside the caller's transaction. */
  method Decide(db: Session, o: nat, forBuyer: bool) returns (ok: bool)
    requires Constraints(db.View()) && o < |db.orders| && FindEscrow(db.escrows, o).Some?
    modifies db`wallets, db`ledger, db`escrows, db`users, db`orders
    ensures ok <==> if forBuyer then CanRefund(old(db.View()), o)
                    else CanPayOut(old(db.View()), FindEscrow(old(db.escrows), o).value)
    ensures ok ==> db.View() == if forBuyer then RefundBuyer(old(db.View()), o, OrderStatus.Refunded, DisputeRefund)
                   else SetOrder(PayOut(old(db.View()), FindEscrow(old(db.escrows), o).value), o, OrderStatus.Completed)
  {
    if forBuyer {
      ok := OrderService.RefundToBuyer(db, o, OrderStatus.Refunded, DisputeRefund);
    } else {
      ok := OrderService.ReleaseEscrowToSeller(db, FindEscrow(db.escrows, o).value);
      if ok {
        OrderRepository.UpdateStatus(db, o, OrderStatus.Completed);
      }
    }
  }

  /** The checks before any money moves. */
  method CheckDecision(db: Session, admin: nat, d: nat) returns (error: Option<Error>)
    requires db.Clean()
    ensures error.None? <==>
              && admin < |db.users| && db.users[admin].admin
              && d < |db.disputes| && db.disputes[d].status in {Open, UnderReview}
              && FindEscrow(db.escrows, db.disputes[d].order).Some?
  {
    if d >= |db.disputes| {
      return Some(NotFound);
    }
    if admin >= |db.users| || !db.users[admin].admin {
      return Some(PermissionDenied);
    }
    if db.disputes[d].status != Open && db.disputes[d].status != UnderReview {
      return Some(WrongStatus);
    }
    if FindEscrow(db.escrows, db.disputes[d].order).None? {
      return Some(NotFound);
    }
    return None;
  }

  /** The wallet side of a decision. */
  predicate CanPayDecision(s: Database, o: nat, forBuyer: bool) {
    && FindEscrow(s.escrows, o).Some?
    && if forBuyer then CanRefund(s, o) else CanPayOut(s, FindEscrow(s.escrows, o).value)
  }

  lemma ResolveMeans(s: Database, admin: nat, d: nat, forBuyer: bool)
    ensures CanResolve(s, admin, d, forBuyer) <==>
              && admin < |s.users| && s.users[admin].admin
              && d < |s.disputes| && s.disputes[d].status in {Open, UnderReview}
              && CanPayDecision(s, s.disputes[d].order, forBuyer)
  {
  }

  /** The decision moves the money, closes the order and then the dispute, or does nothing. */
  method ResolveDispute(db: Session, admin: nat, d: nat, forBuyer: bool) returns (error: Option<Error>)
    requires db.Clean()
    modifies db
    ensures db.Clean() && db.committed == Orders.ResolveDispute(old(db.committed), admin, d, forBuyer)
    ensures error.None? <==>
              && admin < |old(db.users)| && old(db.users[admin]).admin
              && d < |old(db.disputes)| && old(db.disputes[d]).status in {Open, UnderReview}
              && CanPayDecision(old(db.committed), old(db.disputes[d]).order, forBuyer)
  {
    ghost var s: Database := db.committed;
    ResolveMeans(s, admin, d, forBuyer);
    error := CheckDecision(db, admin, d);
    if error.Some? {
      return;
    }
    var ok := Decide(db, db.disputes[d].order, forBuyer);
    if !ok {
      db.Rollback();
      return Some(WalletRefused);
    }
    DisputeRepository.UpdateStatus(db, d, Resolved);
    assert db.View() == Orders.ResolveDispute(s, admin, d, forBuyer);
    db.Commit();
    return None;
  }
}

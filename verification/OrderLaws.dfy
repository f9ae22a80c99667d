/**
 Orders, escrow and disputes, read off the tables of any reachable state: who may do it, when, and everything that
 changes. Escrow `o` belongs to order `o`.
 */
module OrderLaws {
  import opened Domain
  import opened Commissions
  import opened Settlement
  import opened Orders
  import opened Protocol
  import opened History
  import opened BidChain
  import opened Sales
  import opened Books
  import opened Progress
  import opened Lockstep

  // ---- Every dispute is linked to its order, in every run ----

  ghost predicate Linked(s: Database) {
    && (forall d | 0 <= d < |s.disputes| :: s.orders[s.disputes[d].order].dispute == Some(d))
    && (forall o | 0 <= o < |s.orders| && s.orders[o].dispute.Some? :: s.disputes[s.orders[o].dispute.value].order == o)
  }

  lemma UndisputedMeans(s: Database, o: nat)
    requires Linked(s) && o < |s.orders|
    ensures FindDispute(s.disputes, o).None? <==> s.orders[o].dispute.None?
  {
  }

  lemma DisputeLinked(s: Database, buyer: nat, o: nat)
    requires Linked(s)
    ensures Linked(RaiseDispute(s, buyer, o))
  {
    if CanDispute(s, buyer, o) {
      UndisputedMeans(s, o);
    }
  }

  /** No other event adds a dispute or moves a link. */
  ghost predicate SameLinks(s: Database, t: Database) {
    && |s.orders| <= |t.orders| && |t.disputes| == |s.disputes|
    && (forall o | 0 <= o < |s.orders| :: t.orders[o].dispute == s.orders[o].dispute)
    && (forall o | |s.orders| <= o < |t.orders| :: t.orders[o].dispute.None?)
    && (forall d | 0 <= d < |s.disputes| :: t.disputes[d].order == s.disputes[d].order)
  }

  lemma PaidSameLinks(s: Database, x: nat, o: nat)
    requires CanPayOut(s, x) && o < |s.orders|
    ensures SameLinks(s, SetOrder(PayOut(s, x), o, OrderStatus.Completed))
  {
  }

  lemma RefundSameLinks(s: Database, o: nat, status: OrderStatus, note: Note)
    requires CanRefund(s, o)
    ensures SameLinks(s, RefundBuyer(s, o, status, note))
  {
  }

  lemma ResolveSameLinks(s: Database, u: nat, d: nat, forBuyer: bool)
    requires CanResolve(s, u, d, forBuyer)
    ensures SameLinks(s, ResolveDispute(s, u, d, forBuyer))
  {
  }

  lemma CloseSameLinks(s: Database, e: CloseEvent)
    ensures SameLinks(s, DoClose(s, e))
  {
    match e {
      case Confirm(u, o) =>
        if CanConfirm(s, u, o) {
          PaidSameLinks(s, FindEscrow(s.escrows, o).value, o);
        }
      case BuyerCancel(u, o) =>
        if CanRefund(s, o) {
          RefundSameLinks(s, o, OrderStatus.Cancelled, CancelledOrderRefund);
        }
      case SweepCancel(o) =>
        if CanRefund(s, o) {
          RefundSameLinks(s, o, OrderStatus.Cancelled, OverdueOrderRefund);
        }
      case Release(x) =>
        if CanRelease(s, x) {
          PaidSameLinks(s, x, s.escrows[x].order);
        }
      case Resolve(u, d, forBuyer) =>
        if CanResolve(s, u, d, forBuyer) {
          ResolveSameLinks(s, u, d, forBuyer);
        }
    }
  }

  lemma FulfilSameLinks(s: Database, e: FulfilEvent)
    requires !e.OpenDispute?
    ensures SameLinks(s, DoFulfil(s, e))
  {
  }

  lemma SettleSameLinks(s: Database, a: nat)
    ensures SameLinks(s, Settle(s, a))
  {
  }

  lemma StillLinked(s: Database, t: Database)
    requires Linked(s) && SameLinks(s, t)
    ensures Linked(t)
  {
  }

  lemma FulfilLinked(s: Database, e: FulfilEvent)
    requires Linked(s)
    ensures Linked(DoFulfil(s, e))
  {
    match e {
      case OpenDispute(u, o) => DisputeLinked(s, u, o);
      case _ =>
        FulfilSameLinks(s, e);
        StillLinked(s, DoFulfil(s, e));
    }
  }

  lemma SettleLinked(s: Database, a: nat)
    requires Linked(s)
    ensures Linked(Settle(s, a))
  {
    SettleSameLinks(s, a);
    StillLinked(s, Settle(s, a));
  }

  lemma CloseLinked(s: Database, e: CloseEvent)
    requires Linked(s)
    ensures Linked(DoClose(s, e))
  {
    CloseSameLinks(s, e);
    StillLinked(s, DoClose(s, e));
  }

  lemma StepLinked(s: Database, e: Event)
    requires Linked(s)
    ensures Linked(Step(s, e))
  {
    match e {
      case FulfilStep(x) => FulfilLinked(s, x);
      case SettleStep(a) => SettleLinked(s, a);
      case CloseStep(x) => CloseLinked(s, x);
      case _ =>
        OrdersFrame(s, e);
        StillLinked(s, Step(s, e));
    }
  }

  lemma {:induction false} RunLinked(s: Database, es: seq<Event>)
    requires Fresh(s)
    ensures Linked(Run(s, es))
  {
    if es == [] {
    } else {
      RunLinked(s, es[..|es| - 1]);
      StepLinked(Run(s, es[..|es| - 1]), es[|es| - 1]);
    }
  }

  /** Main result: in every reachable state dispute and order point at each other, so an order has at most one. */
  lemma AlwaysLinked(t: Database)
    requires Reachable(t)
    ensures Linked(t)
  {
    var s, es :| ReachedBy(t, s, es);
    RunLinked(s, es);
  }

  // ---- What a payout and a refund change ----

  /** The buyer's escrow bucket covers the price, and the price is enough for a commission to record. */
  predicate Payable(t: Database, o: nat)
    requires o < |t.orders|
  {
    11 <= t.orders[o].amount <= t.wallets[t.orders[o].buyer].escrow
  }

  predicate Refundable(t: Database, o: nat)
    requires o < |t.orders|
  {
    t.orders[o].amount <= t.wallets[t.orders[o].buyer].escrow
  }

  function WithOrder(t: Store, o: nat, order: OrderStatus, escrow: EscrowStatus): Store
    requires o < |t.orders| && o < |t.escrows|
  {
    t.(orders := t.orders[o := t.orders[o].(status := order)],
       escrows := t.escrows[o := t.escrows[o].(status := escrow)])
  }

  /** The seller has the price less commission, and one sale more. */
  function AfterPayout(t: Database, o: nat): Store
    requires o < |t.orders| == |t.escrows| && Payable(t, o)
  {
    var x := t.orders[o];
    var fee := CommissionOf(x.amount);
    var b, w := t.wallets[x.buyer], t.wallets[x.seller];
    var after := w.available + x.amount - fee;
    WithOrder(t, o, OrderStatus.Completed, EscrowStatus.Released).(
      wallets := t.wallets[x.buyer := b.(escrow := b.escrow - x.amount)][x.seller := w.(available := after)],
      users := t.users[x.seller := t.users[x.seller].(totalSales := t.users[x.seller].totalSales + 1)],
      ledger := t.ledger + [
        Row(x.seller, x.amount - fee, EscrowRelease, Credit, AvailableBucket, EscrowRef(o), SaleProceeds,
            w.available, after, TransactionStatus.Completed, t.now),
        Row(x.seller, fee, Commission, Debit, AvailableBucket, EscrowRef(o), PlatformCommission,
            after, after, TransactionStatus.Completed, t.now)])
  }

  /** The buyer has the whole price back. A dispute refund records the escrow bucket as its balance before. */
  function AfterRefund(t: Database, o: nat, status: OrderStatus, note: Note): Store
    requires o < |t.orders| == |t.escrows|
  {
    var x := t.orders[o];
    var w := t.wallets[x.buyer];
    WithOrder(t, o, status, EscrowStatus.Refunded).(
      wallets := t.wallets[x.buyer := Wallet(w.available + x.amount, w.locked, w.escrow - x.amount)],
      ledger := t.ledger +
        [Row(x.buyer, x.amount, TransactionType.Refund, Credit, AvailableBucket, EscrowRef(o), note,
             if note == DisputeRefund then w.escrow else w.available, w.available + x.amount,
             TransactionStatus.Completed, t.now)])
  }

  lemma PayableMeans(s: Database, o: nat)
    requires Paired(s) && o < |s.orders|
    ensures FindEscrow(s.escrows, o) == Some(o)
    ensures CanPayOut(s, o) <==> Payable(s, o)
    ensures CanRefund(s, o) <==> Refundable(s, o)
    ensures s.escrows[o].order == o
  {
    FoundEscrow(s, o);
    assert PairFits(s, o) && EscrowOk(s.escrows[o], |s.users|, |s.auctions|, |s.orders|);
    CommissionPositive(s.escrows[o].amount);
    CommissionMonotone(s.escrows[o].amount, s.escrows[o].amount);
  }

  lemma PayoutChanges(s: Database, o: nat)
    requires Paired(s) && o < |s.orders| && Payable(s, o)
    ensures CanPayOut(s, o) && SetOrder(PayOut(s, o), o, OrderStatus.Completed) == AfterPayout(s, o)
  {
    PayableMeans(s, o);
    assert PairFits(s, o);
  }

  lemma RefundChanges(s: Database, o: nat, status: OrderStatus, note: Note)
    requires Paired(s) && o < |s.orders| && CanRefund(s, o)
    ensures RefundBuyer(s, o, status, note) == AfterRefund(s, o, status, note)
  {
    PayableMeans(s, o);
    assert PairFits(s, o);
  }

  // ---- Each event is its transaction ----

  lemma ConfirmIsStep(s: Database, u: nat, o: nat)
    ensures Step(s, CloseStep(Confirm(u, o))) == ConfirmDelivery(s, u, o)
  {
  }

  lemma BuyerCancelIsStep(s: Database, u: nat, o: nat)
    ensures Step(s, CloseStep(BuyerCancel(u, o))) == CancelOrder(s, u, o)
  {
  }

  lemma SweepCancelIsStep(s: Database, o: nat)
    ensures Step(s, CloseStep(SweepCancel(o))) == CancelOverdue(s, o)
  {
  }

  lemma ReleaseIsStep(s: Database, x: nat)
    ensures Step(s, CloseStep(Release(x))) == ReleaseTask(s, x)
  {
  }

  lemma ResolveIsStep(s: Database, u: nat, d: nat, forBuyer: bool)
    ensures Step(s, CloseStep(Resolve(u, d, forBuyer))) == ResolveDispute(s, u, d, forBuyer)
  {
  }

  lemma OpenDisputeIsStep(s: Database, u: nat, o: nat)
    ensures Step(s, FulfilStep(OpenDispute(u, o))) == RaiseDispute(s, u, o)
  {
  }

  // ---- The parties ----

  /** The seller, and nobody else, ships an order that waits for it. */
  lemma ShipLaw(t: Database, u: nat, o: nat)
    ensures Step(t, FulfilStep(Ship(u, o))) ==
            if o < |t.orders| && t.orders[o].seller == u && t.orders[o].status.PendingShipment?
            then t.(orders := t.orders[o := t.orders[o].(status := Shipped)])
            else t
  {
  }

  lemma ConfirmChanges(s: Database, u: nat, o: nat)
    requires Paired(s)
    ensures ConfirmDelivery(s, u, o) ==
            if o < |s.orders| && s.orders[o].buyer == u && s.orders[o].status.Shipped? && Payable(s, o)
            then AfterPayout(s, o)
            else s
  {
    if o < |s.orders| {
      PayableMeans(s, o);
      if CanPayOut(s, o) {
        PayoutChanges(s, o);
      }
    }
  }

  /** The buyer, and nobody else, confirms delivery, and that pays the seller and completes the order. */
  lemma ConfirmLaw(t: Database, u: nat, o: nat)
    requires Reachable(t)
    ensures |t.orders| == |t.escrows|
    ensures Step(t, CloseStep(Confirm(u, o))) ==
            if o < |t.orders| && t.orders[o].buyer == u && t.orders[o].status.Shipped? && Payable(t, o)
            then AfterPayout(t, o)
            else t
  {
    AlwaysPaired(t);
    ConfirmIsStep(t, u, o);
    ConfirmChanges(t, u, o);
  }

  /** The seller let the shipping deadline pass. */
  predicate Late(t: Database, o: nat) {
    o < |t.orders| && t.orders[o].status.PendingShipment? && t.orders[o].shipBy <= t.now
  }

  lemma CancelChanges(s: Database, u: nat, o: nat)
    requires Paired(s)
    ensures CancelOrder(s, u, o) ==
            if Late(s, o) && s.orders[o].buyer == u && Refundable(s, o)
            then AfterRefund(s, o, OrderStatus.Cancelled, CancelledOrderRefund) else s
    ensures CancelOverdue(s, o) ==
            if Late(s, o) && Refundable(s, o)
            then AfterRefund(s, o, OrderStatus.Cancelled, OverdueOrderRefund) else s
  {
    if o < |s.orders| {
      PayableMeans(s, o);
      if CanRefund(s, o) {
        RefundChanges(s, o, OrderStatus.Cancelled, CancelledOrderRefund);
        RefundChanges(s, o, OrderStatus.Cancelled, OverdueOrderRefund);
      }
    }
  }

  /** A late order is cancelled by its buyer, and nobody else, or by the sweep, and the buyer has the price back. */
  lemma CancelLaw(t: Database, u: nat, o: nat)
    requires Reachable(t)
    ensures |t.orders| == |t.escrows|
    ensures Step(t, CloseStep(BuyerCancel(u, o))) ==
            if Late(t, o) && t.orders[o].buyer == u && Refundable(t, o)
            then AfterRefund(t, o, OrderStatus.Cancelled, CancelledOrderRefund) else t
    ensures Step(t, CloseStep(SweepCancel(o))) ==
            if Late(t, o) && Refundable(t, o)
            then AfterRefund(t, o, OrderStatus.Cancelled, OverdueOrderRefund) else t
  {
    AlwaysPaired(t);
    BuyerCancelIsStep(t, u, o);
    SweepCancelIsStep(t, o);
    CancelChanges(t, u, o);
  }

  // ---- Auto-release ----

  lemma ClaimReleaseLaw(t: Database, x: nat)
    ensures var due := x < |t.escrows| && t.escrows[x].status.Holding? && t.escrows[x].autoReleaseAt <= t.now;
            && Step(t, FulfilStep(ClaimRelease(x))) ==
               (if due then t.(escrows := t.escrows[x := t.escrows[x].(status := Processing)],
                               releasing := t.releasing + {x}) else t)
            && Step(t, FulfilStep(LostRelease(x))) == if due then t.(releasing := t.releasing + {x}) else t
  {
  }

  lemma ReleaseChanges(s: Database, x: nat)
    requires Paired(s)
    ensures ReleaseTask(s, x) ==
            if x in s.releasing && x < |s.orders| && Payable(s, x) then AfterPayout(s, x) else s
  {
    if x < |s.orders| {
      PayableMeans(s, x);
      if CanPayOut(s, x) {
        PayoutChanges(s, x);
      }
    }
  }

  /** A release message, delivered whenever, pays the seller and completes the order if the money is there. */
  lemma ReleaseLaw(t: Database, x: nat)
    requires Reachable(t)
    ensures |t.orders| == |t.escrows|
    ensures Step(t, CloseStep(Release(x))) ==
            if x in t.releasing && x < |t.orders| && Payable(t, x) then AfterPayout(t, x) else t
  {
    AlwaysPaired(t);
    ReleaseIsStep(t, x);
    ReleaseChanges(t, x);
  }

  // ---- Disputes ----

  lemma DisputeChanges(s: Database, u: nat, o: nat)
    requires Linked(s) && (o < |s.orders| ==> !s.orders[o].status.Delivered?)
    ensures RaiseDispute(s, u, o) ==
            if o < |s.orders| && s.orders[o].buyer == u && s.orders[o].status.Shipped? && s.orders[o].dispute.None?
            then s.(disputes := s.disputes + [Dispute(o, u, s.orders[o].seller, Open)],
                    orders := s.orders[o := s.orders[o].(
                      status := OrderStatus.Disputed, dispute := Some(|s.disputes|))])
            else s
  {
    if o < |s.orders| {
      UndisputedMeans(s, o);
    }
  }

  /** The buyer, and nobody else, disputes a shipped order, once. */
  lemma DisputeLaw(t: Database, u: nat, o: nat)
    requires Reachable(t)
    ensures Step(t, FulfilStep(OpenDispute(u, o))) ==
            if o < |t.orders| && t.orders[o].buyer == u && t.orders[o].status.Shipped? && t.orders[o].dispute.None?
            then t.(disputes := t.disputes + [Dispute(o, u, t.orders[o].seller, Open)],
                    orders := t.orders[o := t.orders[o].(
                      status := OrderStatus.Disputed, dispute := Some(|t.disputes|))])
            else t
  {
    AlwaysLinked(t);
    if o < |t.orders| {
      NeverDelivered(t, o);
    }
    OpenDisputeIsStep(t, u, o);
    DisputeChanges(t, u, o);
  }

  /** An administrator looks into an open dispute. */
  lemma ReviewLaw(t: Database, u: nat, d: nat)
    ensures Step(t, FulfilStep(Review(u, d))) ==
            if u < |t.users| && t.users[u].admin && d < |t.disputes| && t.disputes[d].status.Open?
            then t.(disputes := t.disputes[d := t.disputes[d].(status := UnderReview)])
            else t
  {
  }

  /** An administrator may decide the dispute, and what the decision needs is there. */
  predicate Decidable(t: Database, u: nat, d: nat, forBuyer: bool) {
    && u < |t.users| && t.users[u].admin
    && d < |t.disputes| && (t.disputes[d].status.Open? || t.disputes[d].status.UnderReview?)
    && if forBuyer then Refundable(t, t.disputes[d].order) else Payable(t, t.disputes[d].order)
  }

  function AfterDecision(t: Database, d: nat, forBuyer: bool): Store
    requires d < |t.disputes| && |t.orders| == |t.escrows| && (forBuyer || Payable(t, t.disputes[d].order))
  {
    var o := t.disputes[d].order;
    (if forBuyer then AfterRefund(t, o, OrderStatus.Refunded, DisputeRefund) else AfterPayout(t, o)).(
      disputes := t.disputes[d := t.disputes[d].(status := Resolved)])
  }

  lemma DecisionChanges(s: Database, u: nat, d: nat, forBuyer: bool)
    requires Paired(s)
    ensures ResolveDispute(s, u, d, forBuyer) ==
            if Decidable(s, u, d, forBuyer) then AfterDecision(s, d, forBuyer) else s
  {
    if d < |s.disputes| {
      var o := s.disputes[d].order;
      PayableMeans(s, o);
      if forBuyer && CanRefund(s, o) {
        RefundChanges(s, o, OrderStatus.Refunded, DisputeRefund);
      } else if CanPayOut(s, o) {
        PayoutChanges(s, o);
      }
    }
  }

  /** An administrator, and nobody else, decides: the buyer has the price back, or the seller is paid. */
  lemma DecisionLaw(t: Database, u: nat, d: nat, forBuyer: bool)
    requires Reachable(t)
    ensures |t.orders| == |t.escrows|
    ensures Step(t, CloseStep(Resolve(u, d, forBuyer))) ==
            if Decidable(t, u, d, forBuyer) then AfterDecision(t, d, forBuyer) else t
  {
    AlwaysPaired(t);
    ResolveIsStep(t, u, d, forBuyer);
    DecisionChanges(t, u, d, forBuyer);
  }
}

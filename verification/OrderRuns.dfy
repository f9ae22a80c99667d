/** How orders and disputes got the status they have, over whole runs. */
module OrderRuns {
  import opened Domain
  import opened Settlement
  import opened Orders
  import opened Protocol
  import opened History
  import opened Sales
  import opened Progress
  import opened OrderLaws

  // ---- Orders ----

  function AfterClosing(t: Database, e: CloseEvent, o: nat): OrderStatus
    requires o < |t.orders|
  {
    var x := t.orders[o];
    match e
    case Confirm(u, p) =>
      if p == o && x.buyer == u && x.status.Shipped? && Payable(t, o) then OrderStatus.Completed else x.status
    case BuyerCancel(u, p) =>
      if p == o && x.buyer == u && Late(t, o) && Refundable(t, o) then OrderStatus.Cancelled else x.status
    case SweepCancel(p) => if p == o && Late(t, o) && Refundable(t, o) then OrderStatus.Cancelled else x.status
    case Release(p) => if p == o && o in t.releasing && Payable(t, o) then OrderStatus.Completed else x.status
    case Resolve(u, d, forBuyer) =>
      if !(Decidable(t, u, d, forBuyer) && t.disputes[d].order == o) then x.status
      else if forBuyer then OrderStatus.Refunded
      else OrderStatus.Completed
  }

  /** The status an event leaves an order with: no other event changes it, and these only as said. */
  function OrderAfter(t: Database, e: Event, o: nat): OrderStatus
    requires o < |t.orders|
  {
    var x := t.orders[o];
    match e
    case FulfilStep(Ship(u, p)) => if p == o && x.seller == u && x.status.PendingShipment? then Shipped else x.status
    case FulfilStep(OpenDispute(u, p)) =>
      if p == o && x.buyer == u && x.status.Shipped? && x.dispute.None? then OrderStatus.Disputed else x.status
    case CloseStep(c) => AfterClosing(t, c, o)
    case _ => x.status
  }

  lemma DecidedOrder(s: Database, u: nat, d: nat, forBuyer: bool, o: nat)
    requires Paired(s) && o < |s.orders|
    ensures var t := ResolveDispute(s, u, d, forBuyer);
            o < |t.orders| && t.orders[o].status == AfterClosing(s, Resolve(u, d, forBuyer), o)
  {
    DecisionChanges(s, u, d, forBuyer);
  }

  lemma ClosedOrder(s: Database, e: CloseEvent, o: nat)
    requires Paired(s) && o < |s.orders|
    ensures o < |DoClose(s, e).orders| && DoClose(s, e).orders[o].status == AfterClosing(s, e, o)
  {
    match e {
      case Confirm(u, p) => ConfirmChanges(s, u, p);
      case BuyerCancel(u, p) => CancelChanges(s, u, p);
      case SweepCancel(p) => CancelChanges(s, 0, p);
      case Release(p) => ReleaseChanges(s, p);
      case Resolve(u, d, forBuyer) => DecidedOrder(s, u, d, forBuyer, o);
    }
  }

  lemma FulfilledOrder(s: Database, e: FulfilEvent, o: nat)
    requires Linked(s) && o < |s.orders| && (forall p | 0 <= p < |s.orders| :: !s.orders[p].status.Delivered?)
    ensures o < |DoFulfil(s, e).orders| && DoFulfil(s, e).orders[o].status == OrderAfter(s, FulfilStep(e), o)
  {
    match e {
      case OpenDispute(u, p) => DisputeChanges(s, u, p);
      case _ =>
    }
  }

  lemma SettledOrders(s: Database, a: nat, o: nat)
    requires o < |s.orders|
    ensures o < |Settle(s, a).orders| && Settle(s, a).orders[o] == s.orders[o]
  {
  }

  lemma StepOrder(s: Database, e: Event, o: nat)
    requires Paired(s) && Linked(s) && o < |s.orders|
    requires forall p | 0 <= p < |s.orders| :: !s.orders[p].status.Delivered?
    ensures o < |Step(s, e).orders| && Step(s, e).orders[o].status == OrderAfter(s, e, o)
  {
    match e {
      case FulfilStep(x) => FulfilledOrder(s, x, o);
      case CloseStep(x) => ClosedOrder(s, x, o);
      case SettleStep(a) => SettledOrders(s, a, o);
      case _ => OrdersFrame(s, e);
    }
  }

  /** Main result: in every reachable state this is the status every event leaves every order with. */
  lemma OrderStatusLaw(t: Database, e: Event, o: nat)
    requires Reachable(t) && o < |t.orders|
    ensures o < |Step(t, e).orders| && Step(t, e).orders[o].status == OrderAfter(t, e, o)
  {
    AlwaysPaired(t);
    AlwaysLinked(t);
    forall p | 0 <= p < |t.orders| ensures !t.orders[p].status.Delivered? {
      NeverDelivered(t, p);
    }
    StepOrder(t, e, o);
  }

  lemma NewOrderWaits(s: Database, e: Event, o: nat)
    requires |s.orders| <= o < |Step(s, e).orders|
    ensures Step(s, e).orders[o].status.PendingShipment?
  {
    match e {
      case SettleStep(a) =>
      case _ => OrderCounts(s, e);
    }
  }

  /** The event at position `n` of the run gave the order the status, which it did not have before. */
  ghost predicate GivesOrder(s: Database, es: seq<Event>, o: nat, status: OrderStatus, n: nat)
    requires n < |es|
  {
    && o < |Run(s, es[..n]).orders| && Run(s, es[..n]).orders[o].status != status
    && OrderAfter(Run(s, es[..n]), es[n], o) == status
  }

  lemma GivesOrderEarlier(s: Database, es: seq<Event>, e: Event, o: nat, status: OrderStatus, n: nat)
    requires n < |es| && GivesOrder(s, es, o, status, n)
    ensures GivesOrder(s, es + [e], o, status, n)
  {
    assert (es + [e])[..n] == es[..n];
  }

  lemma GivesOrderNow(s: Database, es: seq<Event>, e: Event, o: nat, status: OrderStatus)
    requires o < |Run(s, es).orders| && Run(s, es).orders[o].status != status
    requires OrderAfter(Run(s, es), e, o) == status
    ensures GivesOrder(s, es + [e], o, status, |es|)
  {
    assert (es + [e])[..|es|] == es;
  }

  lemma RunIsReachable(s: Database, es: seq<Event>)
    requires Fresh(s)
    ensures Reachable(Run(s, es))
  {
    assert ReachedBy(Run(s, es), s, es);
  }

  lemma OrderGivenByLast(s: Database, es: seq<Event>, e: Event, o: nat)
    requires Fresh(s) && o < |Run(s, es + [e]).orders| && !Run(s, es + [e]).orders[o].status.PendingShipment?
    requires o < |Run(s, es).orders| ==> Run(s, es).orders[o].status != Run(s, es + [e]).orders[o].status
    ensures GivesOrder(s, es + [e], o, Run(s, es + [e]).orders[o].status, |es|)
  {
    RunAppend(s, es, e);
    if o < |Run(s, es).orders| {
      RunIsReachable(s, es);
      OrderStatusLaw(Run(s, es), e, o);
      GivesOrderNow(s, es, e, o, Run(s, es + [e]).orders[o].status);
    } else {
      NewOrderWaits(Run(s, es), e, o);
    }
  }

  /** Main result: over any run, whatever status an order has beyond PENDING_SHIPMENT, one event of the run gave it. */
  lemma {:induction false} OrderHasCause(s: Database, es: seq<Event>, o: nat)
    requires Fresh(s) && o < |Run(s, es).orders| && !Run(s, es).orders[o].status.PendingShipment?
    ensures exists n | 0 <= n < |es| :: GivesOrder(s, es, o, Run(s, es).orders[o].status, n)
  {
    var k := |es| - 1;
    LastEvent(es);
    var before := Run(s, es[..k]);
    if o < |before.orders| && before.orders[o].status == Run(s, es).orders[o].status {
      OrderHasCause(s, es[..k], o);
      var n :| 0 <= n < k && GivesOrder(s, es[..k], o, before.orders[o].status, n);
      GivesOrderEarlier(s, es[..k], es[k], o, before.orders[o].status, n);
    } else {
      OrderGivenByLast(s, es[..k], es[k], o);
    }
  }

  predicate DecidesOn(t: Database, e: Event, o: nat) {
    && e.CloseStep? && e.close.Resolve? && e.close.user < |t.users| && t.users[e.close.user].admin
    && e.close.dispute < |t.disputes| && t.disputes[e.close.dispute].order == o
  }

  /** The buyer confirms, a release is delivered, or an administrator decides for the seller. */
  predicate Completes(t: Database, e: Event, o: nat) {
    || (o < |t.orders| && e == CloseStep(Confirm(t.orders[o].buyer, o)))
    || e == CloseStep(Release(o))
    || (DecidesOn(t, e, o) && !e.close.forBuyer)
  }

  /** An administrator decides for the buyer. */
  predicate GivesBack(t: Database, e: Event, o: nat) {
    DecidesOn(t, e, o) && e.close.forBuyer
  }

  lemma CompletedMeans(t: Database, e: Event, o: nat)
    requires o < |t.orders| && !t.orders[o].status.Completed? && OrderAfter(t, e, o).Completed?
    ensures Completes(t, e, o)
  {
    match e {
      case CloseStep(c) =>
      case _ =>
    }
  }

  lemma RefundedMeans(t: Database, e: Event, o: nat)
    requires o < |t.orders| && !t.orders[o].status.Refunded? && OrderAfter(t, e, o).Refunded?
    ensures GivesBack(t, e, o)
  {
    match e {
      case CloseStep(c) =>
      case _ =>
    }
  }

  ghost predicate CompletedBy(s: Database, es: seq<Event>, o: nat, n: nat)
    requires n < |es|
  {
    Completes(Run(s, es[..n]), es[n], o)
  }

  ghost predicate GivenBackBy(s: Database, es: seq<Event>, o: nat, n: nat)
    requires n < |es|
  {
    GivesBack(Run(s, es[..n]), es[n], o)
  }

  /** No seller is paid but for one of these events. */
  lemma CompletedHasCause(s: Database, es: seq<Event>, o: nat)
    requires Fresh(s) && o < |Run(s, es).orders| && Run(s, es).orders[o].status.Completed?
    ensures exists n | 0 <= n < |es| :: CompletedBy(s, es, o, n)
  {
    OrderHasCause(s, es, o);
    var n :| 0 <= n < |es| && GivesOrder(s, es, o, OrderStatus.Completed, n);
    CompletedMeans(Run(s, es[..n]), es[n], o);
    assert CompletedBy(s, es, o, n);
  }

  /** No order is REFUNDED but by an administrator's decision on its dispute. */
  lemma RefundedHasCause(s: Database, es: seq<Event>, o: nat)
    requires Fresh(s) && o < |Run(s, es).orders| && Run(s, es).orders[o].status.Refunded?
    ensures exists n | 0 <= n < |es| :: GivenBackBy(s, es, o, n)
  {
    OrderHasCause(s, es, o);
    var n :| 0 <= n < |es| && GivesOrder(s, es, o, OrderStatus.Refunded, n);
    RefundedMeans(Run(s, es[..n]), es[n], o);
    assert GivenBackBy(s, es, o, n);
  }

  // ---- Disputes ----

  predicate Decides(t: Database, e: Event, d: nat) {
    && e.CloseStep? && e.close.Resolve? && e.close.dispute == d
    && Decidable(t, e.close.user, d, e.close.forBuyer)
  }

  lemma NewlyClosed(s: Database, e: CloseEvent, d: nat)
    requires Paired(s) && d < |DoClose(s, e).disputes| && DoClose(s, e).disputes[d].status.Resolved?
    requires d < |s.disputes| ==> !s.disputes[d].status.Resolved?
    ensures Decides(s, CloseStep(e), d)
  {
    match e {
      case Resolve(u, f, forBuyer) => DecisionChanges(s, u, f, forBuyer);
      case _ =>
    }
  }

  lemma NewlyResolved(s: Database, e: Event, d: nat)
    requires Paired(s) && d < |Step(s, e).disputes| && Step(s, e).disputes[d].status.Resolved?
    requires d < |s.disputes| ==> !s.disputes[d].status.Resolved?
    ensures Decides(s, e, d)
  {
    match e {
      case CloseStep(x) => NewlyClosed(s, x, d);
      case FulfilStep(x) =>
      case SettleStep(a) => SettleFrame(s, a);
      case _ => OrdersFrame(s, e);
    }
  }

  ghost predicate DecidedBy(s: Database, es: seq<Event>, d: nat, n: nat)
    requires n < |es|
  {
    Decides(Run(s, es[..n]), es[n], d)
  }

  lemma DecidedEarlier(s: Database, es: seq<Event>, e: Event, d: nat, n: nat)
    requires n < |es| && DecidedBy(s, es, d, n)
    ensures DecidedBy(s, es + [e], d, n)
  {
    assert (es + [e])[..n] == es[..n];
  }

  lemma DecidedNow(s: Database, es: seq<Event>, e: Event, d: nat)
    requires Fresh(s) && d < |Run(s, es + [e]).disputes| && Run(s, es + [e]).disputes[d].status.Resolved?
    requires d < |Run(s, es).disputes| ==> !Run(s, es).disputes[d].status.Resolved?
    ensures DecidedBy(s, es + [e], d, |es|)
  {
    RunAppend(s, es, e);
    RunSales(s, es);
    NewlyResolved(Run(s, es), e, d);
    assert (es + [e])[..|es|] == es;
  }

  /** Main result: over any run a RESOLVED dispute was decided by a user who was an administrator at the time. */
  lemma {:induction false} ResolvedHasCause(s: Database, es: seq<Event>, d: nat)
    requires Fresh(s) && d < |Run(s, es).disputes| && Run(s, es).disputes[d].status.Resolved?
    ensures exists n | 0 <= n < |es| :: DecidedBy(s, es, d, n)
  {
    var k := |es| - 1;
    LastEvent(es);
    var before := Run(s, es[..k]);
    if d < |before.disputes| && before.disputes[d].status.Resolved? {
      ResolvedHasCause(s, es[..k], d);
      var n :| 0 <= n < k && DecidedBy(s, es[..k], d, n);
      DecidedEarlier(s, es[..k], es[k], d, n);
    } else {
      DecidedNow(s, es[..k], es[k], d);
    }
  }
}

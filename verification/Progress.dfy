/** Every order takes a bounded number of steps: a rank on order, escrow and dispute falls with each. */
module Progress {
  import opened Domain
  import opened Settlement
  import opened Orders
  import opened Protocol
  import opened History
  import opened Sales
  import opened Books
  import opened Escrows
  import opened Lockstep

  function Stage(s: Database, o: nat): nat
    requires o < |s.orders|
  {
    match s.orders[o].status
    case PendingShipment => 4
    case Shipped | Delivered => 3
    case Disputed =>
      if s.orders[o].dispute.Some? && s.disputes[s.orders[o].dispute.value].status.Open? then 2 else 1
    case Completed | Cancelled | Refunded => 0
  }

  function Rank(s: Database, o: nat): (r: nat)
    requires o < |s.orders| == |s.escrows|
    ensures r <= 9
  {
    2 * Stage(s, o) + if s.escrows[o].status.Holding? then 1 else 0
  }

  datatype View = View(order: OrderStatus, escrow: EscrowStatus, dispute: Option<DisputeStatus>)

  /** What the parties see of an order: its status, its escrow's and its dispute's. */
  function Visible(s: Database, o: nat): View
    requires o < |s.orders| == |s.escrows|
  {
    View(s.orders[o].status, s.escrows[o].status,
         if s.orders[o].dispute.Some? then Some(s.disputes[s.orders[o].dispute.value].status) else None)
  }

  ghost predicate Advances(s: Database, t: Database, o: nat)
    requires o < |s.orders| == |s.escrows| && o < |t.orders| == |t.escrows|
  {
    Visible(t, o) == Visible(s, o) || Rank(t, o) < Rank(s, o)
  }

  lemma FulfilAdvances(s: Database, e: FulfilEvent, o: nat)
    requires AllInStep(s) && o < |s.orders|
    ensures |DoFulfil(s, e).orders| == |DoFulfil(s, e).escrows| == |s.orders|
    ensures Advances(s, DoFulfil(s, e), o)
  {
    FulfilFrame(s, e);
    assert InStep(s, o);
  }

  /** A closing event ends the order of the escrow it closes and touches only that order and its dispute. */
  ghost predicate EndsOnly(s: Database, t: Database, x: nat) {
    && x < |s.orders| == |t.orders|
    && (t.orders[x].status.Completed? || t.orders[x].status.Cancelled? || t.orders[x].status.Refunded?)
    && (forall o | 0 <= o < |s.orders| && o != x :: t.orders[o] == s.orders[o])
    && |t.disputes| == |s.disputes|
    && (forall d | 0 <= d < |s.disputes| && s.disputes[d].order != x :: t.disputes[d] == s.disputes[d])
  }

  lemma ResolveEndsOnly(s: Database, admin: nat, d: nat, forBuyer: bool)
    requires Paired(s) && CanResolve(s, admin, d, forBuyer)
    ensures EndsOnly(s, ResolveDispute(s, admin, d, forBuyer), s.disputes[d].order)
  {
    FoundEscrow(s, s.disputes[d].order);
  }

  lemma CloseEndsOnly(s: Database, e: CloseEvent)
    requires Paired(s) && Closes(s, e).Some?
    ensures EndsOnly(s, DoClose(s, e), Closes(s, e).value)
  {
    match e {
      case Confirm(u, o) => FoundEscrow(s, o);
      case BuyerCancel(u, o) => FoundEscrow(s, o);
      case SweepCancel(o) => FoundEscrow(s, o);
      case Release(x) => assert PairFits(s, x);
      case Resolve(u, d, forBuyer) =>
        FoundEscrow(s, s.disputes[d].order);
        ResolveEndsOnly(s, u, d, forBuyer);
    }
  }

  /** Closing a held escrow brings its own order to its end and leaves every other order as it was. */
  lemma EndingAdvances(s: Database, t: Database, x: nat, o: nat)
    requires AllInStep(s) && x < |s.orders| && o < |s.orders| && s.escrows[x].status.Held()
    requires EndsOnly(s, t, x) && |t.escrows| == |s.escrows|
    requires t.escrows == s.escrows[x := s.escrows[x].(status := t.escrows[x].status)]
    requires !t.escrows[x].status.Held()
    ensures Advances(s, t, o)
  {
    assert InStep(s, o) && InStep(s, x);
  }

  lemma CloseAdvances(s: Database, e: CloseEvent, o: nat)
    requires Paired(s) && AllInStep(s) && Guarded(s, CloseStep(e)) && o < |s.orders|
    ensures |DoClose(s, e).orders| == |DoClose(s, e).escrows| == |s.orders|
    ensures Advances(s, DoClose(s, e), o)
  {
    CloseFrame(s, e);
    CloseFields(s, e);
    if Closes(s, e).Some? {
      CloseEndsOnly(s, e);
      ClosesHeld(s, e);
      EndingAdvances(s, DoClose(s, e), Closes(s, e).value, o);
    }
  }

  lemma StepAdvances(s: Database, e: Event, o: nat)
    requires Paired(s) && AllInStep(s) && Guarded(s, e) && o < |s.orders|
    ensures o < |Step(s, e).orders| == |Step(s, e).escrows|
    ensures Advances(s, Step(s, e), o)
  {
    StepInStep(s, e);
    match e {
      case SettleStep(a) => SettleFrame(s, a);
      case FulfilStep(x) => FulfilAdvances(s, x, o);
      case CloseStep(x) => CloseAdvances(s, x, o);
      case _ => OrdersFrame(s, e);
    }
  }

  function Moved(s: Database, t: Database, o: nat): nat {
    if o < |s.orders| == |s.escrows| && o < |t.orders| == |t.escrows| && Visible(s, o) != Visible(t, o) then 1 else 0
  }

  /** DELIVERED is written and overwritten inside one transaction: whatever is delivered when, it is never seen. */
  ghost predicate NoneDelivered(s: Database) {
    forall o | 0 <= o < |s.orders| :: !s.orders[o].status.Delivered?
  }

  lemma CloseNoneDelivered(s: Database, e: CloseEvent)
    requires NoneDelivered(s)
    ensures NoneDelivered(DoClose(s, e))
  {
  }

  lemma StepNoneDelivered(s: Database, e: Event)
    requires NoneDelivered(s)
    ensures NoneDelivered(Step(s, e))
  {
    match e {
      case SettleStep(a) =>
      case FulfilStep(x) =>
      case CloseStep(x) => CloseNoneDelivered(s, x);
      case _ => OrdersFrame(s, e);
    }
  }

  lemma {:induction false} RunNoneDelivered(s: Database, es: seq<Event>)
    requires Fresh(s)
    ensures NoneDelivered(Run(s, es))
  {
    if es == [] {
    } else {
      RunNoneDelivered(s, es[..|es| - 1]);
      StepNoneDelivered(Run(s, es[..|es| - 1]), es[|es| - 1]);
    }
  }

  /** Main result: DELIVERED is never seen. */
  lemma NeverDelivered(t: Database, o: nat)
    requires Reachable(t) && o < |t.orders|
    ensures !t.orders[o].status.Delivered?
  {
    var s, es :| ReachedBy(t, s, es);
    RunNoneDelivered(s, es);
  }

  /** How many events of the run changed what is visible of order `o`. */
  function Changes(s: Database, es: seq<Event>, o: nat): nat {
    if es == [] then 0
    else
      Changes(s, es[..|es| - 1], o) + Moved(Run(s, es[..|es| - 1]), Run(s, es), o)
  }

  lemma StepBounded(s: Database, e: Event, o: nat)
    requires Paired(s) && AllInStep(s) && Guarded(s, e)
    ensures var t := Step(s, e);
            && |s.orders| == |s.escrows| && |t.orders| == |t.escrows| && |s.orders| <= |t.orders|
            && (o < |s.orders| ==> Moved(s, t, o) + Rank(t, o) <= Rank(s, o))
            && (o >= |s.orders| ==> Moved(s, t, o) == 0)
  {
    StepExtends(s, e);
    StepInStep(s, e);
    if o < |s.orders| {
      StepAdvances(s, e, o);
    }
  }

  /**
   Main result under the side condition: once an order exists, what is visible of it changes at most nine
   times, however long the run.
   */
  lemma {:induction false} RunBounded(s: Database, es: seq<Event>, o: nat)
    requires Fresh(s) && GuardedRun(s, es)
    ensures var t := Run(s, es);
            && |t.orders| == |t.escrows|
            && (o < |t.orders| ==> Changes(s, es, o) + Rank(t, o) <= 9)
            && (o >= |t.orders| ==> Changes(s, es, o) == 0)
  {
    RunInStep(s, es);
    if es == [] {
    } else {
      var before := es[..|es| - 1];
      RunBounded(s, before, o);
      RunInStep(s, before);
      RunSales(s, before);
      StepBounded(Run(s, before), es[|es| - 1], o);
    }
  }
}

/**
 Order, escrow and dispute in lockstep, and every escrow paid out exactly once. The queued release task reads
 neither the escrow's nor the order's status, so this holds of exactly those runs in which each accepted
 delivery of it finds the escrow still held and its order not under dispute.
 */
module Lockstep {
  import opened Domain
  import opened Tallies
  import opened Ledgers
  import opened Commissions
  import opened Bidding
  import opened Settlement
  import opened Orders
  import opened Protocol
  import opened History
  import opened BidChain
  import opened Sales
  import opened Books
  import opened Counting
  import opened Escrows
  import opened Sweeps

  // ---- The invariant ----

  ghost predicate DisputeOf(s: Database, o: nat, undecided: bool)
    requires o < |s.orders|
  {
    && s.orders[o].dispute.Some?
    && var d := s.disputes[s.orders[o].dispute.value];
       d.order == o && if undecided then d.status.Undecided() else d.status.Resolved?
  }

  ghost predicate InStep(s: Database, o: nat)
    requires o < |s.orders| == |s.escrows|
  {
    var order, x := s.orders[o], s.escrows[o];
    match order.status
    case PendingShipment | Shipped => x.status.Held() && order.dispute.None?
    case Disputed => x.status.Held() && DisputeOf(s, o, true)
    case Completed => x.status.Released? && (order.dispute.None? || DisputeOf(s, o, false))
    case Cancelled => x.status.Refunded? && order.dispute.None?
    case Refunded => x.status.Refunded? && DisputeOf(s, o, false)
    case Delivered => false
  }

  ghost predicate AllInStep(s: Database) {
    && |s.orders| == |s.escrows|
    && (forall o | 0 <= o < |s.orders| :: InStep(s, o))
    && (forall d | 0 <= d < |s.disputes| :: s.orders[s.disputes[d].order].dispute == Some(d))
  }

  // ---- The side condition ----

  /** An accepted delivery of the release task finds its escrow unpaid and nobody disputing the order. */
  ghost predicate Guarded(s: Database, e: Event) {
    e.CloseStep? && e.close.Release? && CanRelease(s, e.close.escrow) ==>
      var x := s.escrows[e.close.escrow];
      x.status.Held() && !s.orders[x.order].status.Disputed?
  }

  ghost predicate GuardedAfter(s: Database, es: seq<Event>, e: Event) {
    Guarded(Run(s, es), e)
  }

  ghost predicate GuardedRun(s: Database, es: seq<Event>) {
    es == [] || (GuardedRun(s, es[..|es| - 1]) && GuardedAfter(s, es[..|es| - 1], es[|es| - 1]))
  }

  // ---- Lockstep, event by event ----

  lemma PaidInStep(s: Database, x: nat)
    requires Paired(s) && AllInStep(s) && CanPayOut(s, x)
    requires s.orders[x].status.PendingShipment? || s.orders[x].status.Shipped?
    ensures AllInStep(SetOrder(PayOut(s, x), x, OrderStatus.Completed))
  {
    var t := SetOrder(PayOut(s, x), x, OrderStatus.Completed);
    forall o | 0 <= o < |t.orders| ensures InStep(t, o) {
      assert InStep(s, o);
    }
  }

  lemma RefundedInStep(s: Database, o: nat, note: Note)
    requires Paired(s) && AllInStep(s) && CanRefund(s, o) && s.orders[o].status.PendingShipment?
    ensures AllInStep(RefundBuyer(s, o, OrderStatus.Cancelled, note))
  {
    FoundEscrow(s, o);
    var t := RefundBuyer(s, o, OrderStatus.Cancelled, note);
    forall p | 0 <= p < |t.orders| ensures InStep(t, p) {
      assert InStep(s, p);
    }
  }

  lemma ResolvedOrder(s: Database, admin: nat, d: nat, forBuyer: bool, p: nat)
    requires Paired(s) && AllInStep(s) && CanResolve(s, admin, d, forBuyer) && p < |s.orders|
    ensures var t := ResolveDispute(s, admin, d, forBuyer);
            |t.orders| == |t.escrows| == |s.orders| && t.orders[p].dispute == s.orders[p].dispute && InStep(t, p)
  {
    FoundEscrow(s, s.disputes[d].order);
    assert InStep(s, p) && InStep(s, s.disputes[d].order);
  }

  lemma ResolvedInStep(s: Database, admin: nat, d: nat, forBuyer: bool)
    requires Paired(s) && AllInStep(s) && CanResolve(s, admin, d, forBuyer)
    ensures AllInStep(ResolveDispute(s, admin, d, forBuyer))
  {
    FoundEscrow(s, s.disputes[d].order);
    var t := ResolveDispute(s, admin, d, forBuyer);
    forall p | 0 <= p < |t.orders| ensures InStep(t, p) {
      ResolvedOrder(s, admin, d, forBuyer, p);
    }
  }

  lemma CloseInStep(s: Database, e: CloseEvent)
    requires Paired(s) && AllInStep(s) && Guarded(s, CloseStep(e))
    ensures AllInStep(DoClose(s, e))
  {
    if Closes(s, e).Some? {
      match e {
        case Confirm(u, o) =>
          FoundEscrow(s, o);
          PaidInStep(s, o);
        case BuyerCancel(u, o) => RefundedInStep(s, o, CancelledOrderRefund);
        case SweepCancel(o) => RefundedInStep(s, o, OverdueOrderRefund);
        case Release(x) =>
          assert PairFits(s, x) && InStep(s, x);
          PaidInStep(s, x);
        case Resolve(u, d, forBuyer) => ResolvedInStep(s, u, d, forBuyer);
      }
    } else {
      CloseFields(s, e);
    }
  }

  lemma DisputeInStep(s: Database, buyer: nat, o: nat)
    requires AllInStep(s)
    ensures AllInStep(RaiseDispute(s, buyer, o))
  {
    var t := RaiseDispute(s, buyer, o);
    forall p | 0 <= p < |t.orders| ensures InStep(t, p) {
      assert InStep(s, p);
    }
    if CanDispute(s, buyer, o) {
      forall d | 0 <= d < |t.disputes| ensures t.orders[t.disputes[d].order].dispute == Some(d) {
        assert d < |s.disputes| ==> s.disputes[d].order != o;
      }
    }
  }

  lemma FulfilInStep(s: Database, e: FulfilEvent)
    requires AllInStep(s)
    ensures AllInStep(DoFulfil(s, e))
  {
    match e {
      case OpenDispute(u, o) => DisputeInStep(s, u, o);
      case _ =>
        var t := DoFulfil(s, e);
        forall p | 0 <= p < |t.orders| ensures InStep(t, p) {
          assert InStep(s, p);
        }
    }
  }

  lemma SettledOrder(s: Database, a: nat, p: nat)
    requires AllInStep(s) && p < |Settle(s, a).orders|
    ensures |Settle(s, a).orders| == |Settle(s, a).escrows| && InStep(Settle(s, a), p)
  {
    assert p < |s.orders| ==> InStep(s, p);
  }

  lemma SettleInStep(s: Database, a: nat)
    requires AllInStep(s)
    ensures AllInStep(Settle(s, a))
  {
    var t := Settle(s, a);
    forall p | 0 <= p < |t.orders| ensures InStep(t, p) {
      SettledOrder(s, a, p);
    }
  }

  lemma StepInStep(s: Database, e: Event)
    requires Paired(s) && AllInStep(s) && Guarded(s, e)
    ensures AllInStep(Step(s, e))
  {
    match e {
      case SettleStep(a) => SettleInStep(s, a);
      case FulfilStep(x) => FulfilInStep(s, x);
      case CloseStep(x) => CloseInStep(s, x);
      case _ =>
        OrdersFrame(s, e);
        var t := Step(s, e);
        forall p | 0 <= p < |t.orders| ensures InStep(t, p) {
          assert InStep(s, p);
        }
    }
  }

  // ---- Every escrow paid out once ----

  /** Two ledger rows for a release, one for a refund, none while held; never both and never again. */
  ghost predicate PaidAsSaid(ledger: seq<Row>, x: nat, status: EscrowStatus) {
    var releases, commissions, refunds :=
      Count(ReleasesOf, ledger, x), Count(CommissionsOf, ledger, x), Count(RefundsOf, ledger, x);
    match status
    case Holding | Processing => releases == commissions == refunds == 0
    case Released => releases == commissions == 1 && refunds == 0
    case Refunded => releases == commissions == 0 && refunds == 1
    case _ => false
  }

  ghost predicate OncePaid(s: Database) {
    forall x | 0 <= x < |s.escrows| :: PaidAsSaid(s.ledger, x, s.escrows[x].status)
  }

  lemma PayoutCounts(s: Database, x: nat, y: nat)
    requires CanPayOut(s, x)
    ensures var t, one := PayOut(s, x), if x == y then 1 else 0;
            && Count(ReleasesOf, t.ledger, y) == Count(ReleasesOf, s.ledger, y) + one
            && Count(CommissionsOf, t.ledger, y) == Count(CommissionsOf, s.ledger, y) + one
            && Count(RefundsOf, t.ledger, y) == Count(RefundsOf, s.ledger, y)
  {
    var rows := PayoutRows(s, x);
    assert PayOut(s, x).ledger == (s.ledger + [rows[0]]) + [rows[1]];
    CountAppend(ReleasesOf, s.ledger, rows[0], y);
    CountAppend(ReleasesOf, s.ledger + [rows[0]], rows[1], y);
    CountAppend(CommissionsOf, s.ledger, rows[0], y);
    CountAppend(CommissionsOf, s.ledger + [rows[0]], rows[1], y);
    CountAppend(RefundsOf, s.ledger, rows[0], y);
    CountAppend(RefundsOf, s.ledger + [rows[0]], rows[1], y);
  }

  lemma RefundCounts(s: Database, o: nat, status: OrderStatus, note: Note, y: nat)
    requires CanRefund(s, o)
    ensures var t, one := RefundBuyer(s, o, status, note), if FindEscrow(s.escrows, o) == Some(y) then 1 else 0;
            && Count(ReleasesOf, t.ledger, y) == Count(ReleasesOf, s.ledger, y)
            && Count(CommissionsOf, t.ledger, y) == Count(CommissionsOf, s.ledger, y)
            && Count(RefundsOf, t.ledger, y) == Count(RefundsOf, s.ledger, y) + one
  {
    var row := RefundRow(s, o, note);
    CountAppend(ReleasesOf, s.ledger, row, y);
    CountAppend(CommissionsOf, s.ledger, row, y);
    CountAppend(RefundsOf, s.ledger, row, y);
  }

  lemma ResolveCounts(s: Database, admin: nat, d: nat, forBuyer: bool, y: nat)
    requires CanResolve(s, admin, d, forBuyer)
    ensures var t := ResolveDispute(s, admin, d, forBuyer);
            var one := if FindEscrow(s.escrows, s.disputes[d].order) == Some(y) then 1 else 0;
            var paid, back := if forBuyer then 0 else one, if forBuyer then one else 0;
            && Count(ReleasesOf, t.ledger, y) == Count(ReleasesOf, s.ledger, y) + paid
            && Count(CommissionsOf, t.ledger, y) == Count(CommissionsOf, s.ledger, y) + paid
            && Count(RefundsOf, t.ledger, y) == Count(RefundsOf, s.ledger, y) + back
  {
    if forBuyer {
      RefundCounts(s, s.disputes[d].order, OrderStatus.Refunded, DisputeRefund, y);
    } else {
      PayoutCounts(s, FindEscrow(s.escrows, s.disputes[d].order).value, y);
    }
  }

  lemma RefusedClose(s: Database, e: CloseEvent)
    requires Paired(s) && Closes(s, e).None?
    ensures DoClose(s, e) == s
  {
    CloseFields(s, e);
  }

  /** What a closing event adds to the counts of any escrow. */
  lemma CloseCounts(s: Database, e: CloseEvent, y: nat)
    requires Paired(s)
    ensures var t := DoClose(s, e);
            var paid := if Closes(s, e) == Some(y) && !Refunds(e) then 1 else 0;
            var back := if Closes(s, e) == Some(y) && Refunds(e) then 1 else 0;
            && Count(ReleasesOf, t.ledger, y) == Count(ReleasesOf, s.ledger, y) + paid
            && Count(CommissionsOf, t.ledger, y) == Count(CommissionsOf, s.ledger, y) + paid
            && Count(RefundsOf, t.ledger, y) == Count(RefundsOf, s.ledger, y) + back
  {
    if Closes(s, e).None? {
      RefusedClose(s, e);
    } else {
      match e {
        case Confirm(u, o) => PayoutCounts(s, Closes(s, e).value, y);
        case BuyerCancel(u, o) => RefundCounts(s, o, OrderStatus.Cancelled, CancelledOrderRefund, y);
        case SweepCancel(o) => RefundCounts(s, o, OrderStatus.Cancelled, OverdueOrderRefund, y);
        case Release(x) => PayoutCounts(s, x, y);
        case Resolve(u, d, forBuyer) => ResolveCounts(s, u, d, forBuyer, y);
      }
    }
  }

  /** In lockstep, a guarded closing event closes an escrow that was still held. */
  lemma ClosesHeld(s: Database, e: CloseEvent)
    requires Paired(s) && AllInStep(s) && Guarded(s, CloseStep(e)) && Closes(s, e).Some?
    ensures Closes(s, e).value < |s.escrows| && s.escrows[Closes(s, e).value].status.Held()
  {
    match e {
      case Confirm(u, o) =>
        FoundEscrow(s, o);
        assert InStep(s, o);
      case BuyerCancel(u, o) =>
        FoundEscrow(s, o);
        assert InStep(s, o);
      case SweepCancel(o) =>
        FoundEscrow(s, o);
        assert InStep(s, o);
      case Release(x) =>
      case Resolve(u, d, forBuyer) =>
        FoundEscrow(s, s.disputes[d].order);
        assert InStep(s, s.disputes[d].order);
    }
  }

  lemma ClosedStatus(s: Database, e: CloseEvent, y: nat)
    requires Paired(s) && y < |s.escrows|
    ensures y < |DoClose(s, e).escrows|
    ensures DoClose(s, e).escrows[y].status ==
              if Closes(s, e) != Some(y) then s.escrows[y].status
              else if Refunds(e) then EscrowStatus.Refunded else EscrowStatus.Released
  {
    CloseFields(s, e);
  }

  lemma ClosedAsSaid(s: Database, e: CloseEvent, y: nat)
    requires Paired(s) && AllInStep(s) && OncePaid(s) && Guarded(s, CloseStep(e)) && y < |s.escrows|
    ensures y < |DoClose(s, e).escrows| && PaidAsSaid(DoClose(s, e).ledger, y, DoClose(s, e).escrows[y].status)
  {
    ClosedStatus(s, e, y);
    if Closes(s, e).Some? {
      ClosesHeld(s, e);
    }
    assert PaidAsSaid(s.ledger, y, s.escrows[y].status);
    CloseCounts(s, e, y);
  }

  lemma CloseOncePaid(s: Database, e: CloseEvent)
    requires Paired(s) && AllInStep(s) && OncePaid(s) && Guarded(s, CloseStep(e))
    ensures OncePaid(DoClose(s, e))
  {
    var t := DoClose(s, e);
    CloseFields(s, e);
    forall y | 0 <= y < |t.escrows| ensures PaidAsSaid(t.ledger, y, t.escrows[y].status) {
      ClosedAsSaid(s, e, y);
    }
  }

  /** An accepted release of an escrow that is no longer held is a second payout. */
  lemma PaidAgain(s: Database, x: nat)
    requires Paired(s) && OncePaid(s) && CanRelease(s, x) && !s.escrows[x].status.Held()
    ensures !OncePaid(ReleaseTask(s, x))
  {
    PayoutCounts(s, x, x);
    assert PaidAsSaid(s.ledger, x, s.escrows[x].status);
    var t := ReleaseTask(s, x);
    assert t.escrows[x].status.Released?;
    assert !PaidAsSaid(t.ledger, x, t.escrows[x].status);
  }

  /** The order was disputed and its dispute is still open, yet it is COMPLETED now. */
  lemma CompletedWhileDisputed(s: Database, x: nat)
    requires Paired(s) && AllInStep(s) && CanRelease(s, x) && s.orders[s.escrows[x].order].status.Disputed?
    ensures !AllInStep(ReleaseTask(s, x))
  {
    assert PairFits(s, x) && InStep(s, x);
    assert !InStep(ReleaseTask(s, x), x);
  }

  /**
   The side condition is exact: from a state in lockstep an accepted delivery of the release task keeps the
   payout counts and the lockstep if and only if it is guarded.
   */
  lemma ReleaseNeedsGuard(s: Database, x: nat)
    requires Paired(s) && AllInStep(s) && OncePaid(s) && Referenced(s)
    ensures Guarded(s, CloseStep(Release(x))) <==>
            AllInStep(ReleaseTask(s, x)) && OncePaid(ReleaseTask(s, x))
  {
    if Guarded(s, CloseStep(Release(x))) {
      CloseInStep(s, Release(x));
      CloseOncePaid(s, Release(x));
    } else if s.escrows[x].status.Held() {
      CompletedWhileDisputed(s, x);
    } else {
      PaidAgain(s, x);
    }
  }

  /** Every row from position `n` on is about no escrow. */
  ghost predicate NoEscrowFrom(ledger: seq<Row>, n: nat) {
    forall i | n <= i < |ledger| :: !ledger[i].ref.EscrowRef?
  }

  /** Rows about no escrow leave a count as it is, and for a new escrow it is zero. */
  lemma SameEscrowCount(m: Measure, s: Database, t: Database, x: nat)
    requires m.ReleasesOf? || m.CommissionsOf? || m.RefundsOf?
    requires Referenced(s) && Extends(s, t)
    requires NoEscrowFrom(t.ledger, |s.ledger|)
    ensures Count(m, t.ledger, x) == Count(m, s.ledger, x)
    ensures x >= |s.escrows| ==> Count(m, t.ledger, x) == 0
  {
    SameCount(m, s.ledger, t.ledger, x);
    if x >= |s.escrows| {
      Unmentioned(s, m, x);
    }
  }

  lemma SameEscrowCounts(s: Database, t: Database, x: nat)
    requires Referenced(s) && Extends(s, t) && NoEscrowFrom(t.ledger, |s.ledger|)
    ensures Count(ReleasesOf, t.ledger, x) == Count(ReleasesOf, s.ledger, x)
    ensures Count(CommissionsOf, t.ledger, x) == Count(CommissionsOf, s.ledger, x)
    ensures Count(RefundsOf, t.ledger, x) == Count(RefundsOf, s.ledger, x)
    ensures x >= |s.escrows| ==>
              Count(ReleasesOf, t.ledger, x) == Count(CommissionsOf, t.ledger, x) == Count(RefundsOf, t.ledger, x) == 0
  {
    SameEscrowCount(ReleasesOf, s, t, x);
    SameEscrowCount(CommissionsOf, s, t, x);
    SameEscrowCount(RefundsOf, s, t, x);
  }

  /** Rows about no escrow, and escrows whose status says the same about payouts. */
  lemma StillPaid(s: Database, t: Database)
    requires OncePaid(s) && Referenced(s) && Extends(s, t)
    requires NoEscrowFrom(t.ledger, |s.ledger|)
    requires forall x | 0 <= x < |s.escrows| ::
               t.escrows[x].status == s.escrows[x].status || (t.escrows[x].status.Held() && s.escrows[x].status.Held())
    requires forall x | |s.escrows| <= x < |t.escrows| :: t.escrows[x].status.Holding?
    ensures OncePaid(t)
  {
    forall x | 0 <= x < |t.escrows| ensures PaidAsSaid(t.ledger, x, t.escrows[x].status) {
      SameEscrowCounts(s, t, x);
      assert x < |s.escrows| ==> PaidAsSaid(s.ledger, x, s.escrows[x].status);
    }
  }

  lemma PayNoEscrow(s: Database, e: PayEvent)
    ensures NoEscrowFrom(DoPay(s, e).ledger, |s.ledger|)
  {
  }

  lemma BidNoEscrow(s: Database, bidder: nat, a: nat, amount: Kobo)
    ensures NoEscrowFrom(PlaceBid(s, bidder, a, amount).ledger, |s.ledger|)
  {
  }

  lemma SettleNoEscrow(s: Database, a: nat)
    ensures NoEscrowFrom(Settle(s, a).ledger, |s.ledger|)
  {
  }

  lemma NoEscrowRows(s: Database, e: Event)
    requires !e.CloseStep?
    ensures NoEscrowFrom(Step(s, e).ledger, |s.ledger|)
  {
    match e {
      case PayStep(x) => PayNoEscrow(s, x);
      case BidStep(u, a, amount) => BidNoEscrow(s, u, a, amount);
      case SettleStep(a) => SettleNoEscrow(s, a);
      case HandleStep(a) => HandleRows(s, a);
      case _ => QuietStep(s, e);
    }
  }

  lemma EscrowStatuses(s: Database, e: Event)
    requires !e.CloseStep?
    ensures var t := Step(s, e);
            && |s.escrows| <= |t.escrows|
            && (forall x | 0 <= x < |s.escrows| ::
                  t.escrows[x].status == s.escrows[x].status ||
                  (t.escrows[x].status.Held() && s.escrows[x].status.Held()))
            && (forall x | |s.escrows| <= x < |t.escrows| :: t.escrows[x].status.Holding?)
  {
    match e {
      case SettleStep(a) =>
      case FulfilStep(x) =>
      case _ => OrdersFrame(s, e);
    }
  }

  lemma StepOncePaid(s: Database, e: Event)
    requires Paired(s) && AllInStep(s) && OncePaid(s) && Referenced(s) && Guarded(s, e)
    ensures OncePaid(Step(s, e))
  {
    match e {
      case CloseStep(x) => CloseOncePaid(s, x);
      case _ =>
        StepExtends(s, e);
        NoEscrowRows(s, e);
        EscrowStatuses(s, e);
        StillPaid(s, Step(s, e));
    }
  }

  // ---- Guarded runs ----

  lemma {:induction false} RunInStep(s: Database, es: seq<Event>)
    requires Fresh(s) && GuardedRun(s, es)
    ensures AllInStep(Run(s, es)) && OncePaid(Run(s, es))
  {
    if es == [] {
    } else {
      var before := es[..|es| - 1];
      RunInStep(s, before);
      RunSales(s, before);
      RunBooks(s, before);
      StepInStep(Run(s, before), es[|es| - 1]);
      StepOncePaid(Run(s, before), es[|es| - 1]);
    }
  }

  /** After its first `n` events the run is in lockstep and has paid every escrow as its record says. */
  ghost predicate SoundAfter(s: Database, es: seq<Event>, n: nat)
    requires n <= |es|
  {
    AllInStep(Run(s, es[..n])) && OncePaid(Run(s, es[..n]))
  }

  lemma {:induction false} GuardedPrefix(s: Database, es: seq<Event>, n: nat)
    requires n <= |es| && GuardedRun(s, es)
    ensures GuardedRun(s, es[..n])
  {
    if n == |es| {
      assert es[..n] == es;
    } else {
      GuardedPrefix(s, es[..|es| - 1], n);
      assert es[..|es| - 1][..n] == es[..n];
    }
  }

  lemma SoundIfGuarded(s: Database, es: seq<Event>, n: nat)
    requires Fresh(s) && n <= |es| && GuardedRun(s, es)
    ensures SoundAfter(s, es, n)
  {
    GuardedPrefix(s, es, n);
    RunInStep(s, es[..n]);
  }

  lemma SoundPrefix(s: Database, es: seq<Event>, n: nat)
    requires n < |es| && SoundAfter(s, es, n)
    ensures SoundAfter(s, es[..|es| - 1], n)
  {
    assert es[..|es| - 1][..n] == es[..n];
  }

  lemma NextRelease(s: Database, es: seq<Event>, n: nat, x: nat)
    requires n < |es| && es[n] == CloseStep(Release(x))
    ensures Run(s, es[..n + 1]) == ReleaseTask(Run(s, es[..n]), x)
  {
    RunNext(s, es, n);
  }

  lemma SoundRelease(s: Database, es: seq<Event>, n: nat, x: nat)
    requires Fresh(s) && n < |es| && SoundAfter(s, es, n) && SoundAfter(s, es, n + 1)
    requires es[n] == CloseStep(Release(x))
    ensures Guarded(Run(s, es[..n]), CloseStep(Release(x)))
  {
    RunSales(s, es[..n]);
    RunBooks(s, es[..n]);
    NextRelease(s, es, n, x);
    ReleaseNeedsGuard(Run(s, es[..n]), x);
  }

  lemma SoundNeedsGuard(s: Database, es: seq<Event>, n: nat)
    requires Fresh(s) && n < |es| && SoundAfter(s, es, n) && SoundAfter(s, es, n + 1)
    ensures GuardedAfter(s, es[..n], es[n])
  {
    match es[n] {
      case CloseStep(x) =>
        match x {
          case Release(y) => SoundRelease(s, es, n, y);
          case _ =>
        }
      case _ =>
    }
  }

  lemma {:induction false} GuardedIfSound(s: Database, es: seq<Event>)
    requires Fresh(s) && forall n | 0 <= n <= |es| :: SoundAfter(s, es, n)
    ensures GuardedRun(s, es)
  {
    if es == [] {
    } else {
      var k := |es| - 1;
      forall n | 0 <= n <= k ensures SoundAfter(s, es[..k], n) {
        SoundPrefix(s, es, n);
      }
      GuardedIfSound(s, es[..k]);
      SoundNeedsGuard(s, es, k);
    }
  }

  /**
   Main result: the side condition holds of a run exactly when lockstep and payouts are right at every moment
   of it.
   */
  lemma GuardedIffSound(s: Database, es: seq<Event>)
    requires Fresh(s)
    ensures GuardedRun(s, es) <==> forall n | 0 <= n <= |es| :: SoundAfter(s, es, n)
  {
    if GuardedRun(s, es) {
      forall n | 0 <= n <= |es| ensures SoundAfter(s, es, n) {
        SoundIfGuarded(s, es, n);
      }
    } else if forall n | 0 <= n <= |es| :: SoundAfter(s, es, n) {
      GuardedIfSound(s, es);
    }
  }

  ghost predicate GuardedBy(t: Database, s: Database, es: seq<Event>) {
    ReachedBy(t, s, es) && GuardedRun(s, es)
  }

  /** Some run that met the side condition ends here. */
  ghost predicate ReachableGuarded(t: Database) {
    exists s: Database, es: seq<Event> :: GuardedBy(t, s, es)
  }

  /** These states are those got from a fresh platform by guarded events. */
  lemma FreshIsGuarded(t: Database)
    requires Fresh(t)
    ensures ReachableGuarded(t)
  {
    assert GuardedBy(t, t, []);
  }

  lemma GuardedAppend(s: Database, es: seq<Event>, e: Event)
    requires GuardedRun(s, es) && GuardedAfter(s, es, e)
    ensures GuardedRun(s, es + [e])
  {
    ButLast(es, e);
  }

  lemma GuardedByAppend(t: Database, s: Database, es: seq<Event>, e: Event)
    requires GuardedBy(t, s, es) && Guarded(t, e)
    ensures GuardedBy(Step(t, e), s, es + [e])
  {
    ReachedByAppend(t, s, es, e);
    GuardedAppend(s, es, e);
  }

  lemma StepIsGuarded(t: Database, e: Event)
    requires ReachableGuarded(t) && Guarded(t, e)
    ensures ReachableGuarded(Step(t, e))
  {
    var s, es :| GuardedBy(t, s, es);
    GuardedByAppend(t, s, es, e);
  }

  /**
   Main result under the side condition: order, escrow and dispute agree, and every escrow is paid out exactly
   once, to the seller less commission or back to the buyer, when its record says so.
   */
  lemma AlwaysInStep(t: Database)
    requires ReachableGuarded(t)
    ensures AllInStep(t) && OncePaid(t)
  {
    var s, es :| GuardedBy(t, s, es);
    RunInStep(s, es);
  }

  lemma GuardedIsReachable(t: Database)
    requires ReachableGuarded(t)
    ensures Reachable(t)
  {
    var s, es :| GuardedBy(t, s, es);
    assert ReachedBy(t, s, es);
  }

  /** The same, read from each side: what the escrow says and what the dispute says determine the order. */
  lemma InStepBothWays(s: Database, o: nat)
    requires AllInStep(s) && o < |s.orders|
    ensures var order, x := s.orders[o], s.escrows[o].status;
            && (order.status.PendingShipment? || order.status.Shipped? || order.status.Disputed? <==> x.Held())
            && (order.status.Completed? <==> x.Released?)
            && (order.status.Cancelled? || order.status.Refunded? <==> x.Refunded?)
            && (order.status.Disputed? <==> order.dispute.Some? && s.disputes[order.dispute.value].status.Undecided())
            && (forall d | 0 <= d < |s.disputes| && s.disputes[d].order == o :: order.dispute == Some(d))
  {
    assert InStep(s, o);
  }

  /** Under the side condition nobody is ever overpaid. */
  lemma {:induction false} RunEscrowExact(s: Database, es: seq<Event>, u: nat)
    requires Fresh(s) && GuardedRun(s, es)
    ensures Shortfall(Run(s, es), u) == 0
  {
    if es == [] {
    } else {
      var before := es[..|es| - 1];
      RunEscrowExact(s, before, u);
      RunInStep(s, before);
      RunSales(s, before);
      var e := es[|es| - 1];
      StepShortfall(Run(s, before), e, u);
      if e.CloseStep? && Closes(Run(s, before), e.close).Some? {
        ClosesHeld(Run(s, before), e.close);
      }
    }
  }

  /** Main result under the side condition: the escrow bucket is the user's held escrows, to the kobo. */
  lemma EscrowExact(t: Database, u: nat)
    requires ReachableGuarded(t) && u < |t.users|
    ensures t.wallets[u].escrow == HeldTotal(t.escrows, u)
  {
    var s, es :| GuardedBy(t, s, es);
    RunEscrowExact(s, es, u);
  }

  /** Claiming an escrow and releasing it at once, while nobody disputes the order, is guarded. */
  lemma ClaimThenRelease(s: Database, x: nat)
    requires Paired(s) && ReleaseDue(s, x) && !s.orders[x].status.Disputed?
    ensures Guarded(ClaimEscrow(s, x), CloseStep(Release(x)))
  {
    assert PairFits(s, x);
  }

  predicate ClaimedBy(s: Database, e: Event, x: nat) {
    && e == FulfilStep(ClaimRelease(x)) && ReleaseDue(s, x)
    && s.escrows[x].order < |s.orders| && !s.orders[s.escrows[x].order].status.Disputed?
  }

  /** If `e` is an accepted release, then the event just before it claimed the escrow, nobody disputing its order. */
  ghost predicate AtOnce(s: Database, es: seq<Event>, e: Event) {
    e.CloseStep? && e.close.Release? && CanRelease(Run(s, es), e.close.escrow) ==>
      es != [] && ClaimedBy(Run(s, es[..|es| - 1]), es[|es| - 1], e.close.escrow)
  }

  /** Claim and release of an escrow are one step. */
  ghost predicate ReleasesAtOnce(s: Database, es: seq<Event>) {
    es == [] || (ReleasesAtOnce(s, es[..|es| - 1]) && AtOnce(s, es[..|es| - 1], es[|es| - 1]))
  }

  lemma ClaimedIsGuarded(s: Database, es: seq<Event>, x: nat)
    requires Fresh(s) && es != [] && ClaimedBy(Run(s, es[..|es| - 1]), es[|es| - 1], x)
    ensures Guarded(Run(s, es), CloseStep(Release(x)))
  {
    var before := es[..|es| - 1];
    assert es == before + [FulfilStep(ClaimRelease(x))];
    CollectAppends(s, before, x);
    RunSales(s, before);
    var t := Run(s, before);
    assert PairFits(t, x);
    ClaimThenRelease(t, x);
  }

  /** So a deployment that claims and releases in one go meets the side condition in all its runs. */
  lemma {:induction false} AtOnceIsGuarded(s: Database, es: seq<Event>)
    requires Fresh(s) && ReleasesAtOnce(s, es)
    ensures GuardedRun(s, es)
  {
    if es == [] {
    } else {
      var before, e := es[..|es| - 1], es[|es| - 1];
      AtOnceIsGuarded(s, before);
      if e.CloseStep? && e.close.Release? && CanRelease(Run(s, before), e.close.escrow) {
        ClaimedIsGuarded(s, before, e.close.escrow);
      }
    }
  }

  lemma CoveredPays(s: Database, x: nat)
    requires Paired(s) && x < |s.escrows| && s.escrows[x].amount <= s.wallets[s.escrows[x].winner].escrow
    ensures CanPayOut(s, x) <==> s.escrows[x].amount >= 11
  {
    assert PairFits(s, x) && EscrowOk(s.escrows[x], |s.users|, |s.auctions|, |s.orders|);
    CommissionPositive(s.escrows[x].amount);
    CommissionMonotone(s.escrows[x].amount, s.escrows[x].amount);
  }

  lemma HeldIsCovered(s: Database, x: nat)
    requires x < |s.escrows| && s.escrows[x].status.Held()
    requires s.wallets[s.escrows[x].winner].escrow == HeldTotal(s.escrows, s.escrows[x].winner)
    ensures s.escrows[x].amount <= s.wallets[s.escrows[x].winner].escrow
  {
    forall k | 0 <= k < |s.escrows| ensures HeldEntries(s.escrows)[k].value >= 0 {
      assert EscrowOk(s.escrows[k], |s.users|, |s.auctions|, |s.orders|);
    }
    TallyAtLeast(HeldEntries(s.escrows), x, s.escrows[x].winner);
  }

  /** Under the side condition a release can only fail for want of a commission to record. */
  lemma HeldEscrowPays(t: Database, x: nat)
    requires ReachableGuarded(t) && x < |t.escrows| && t.escrows[x].status.Held()
    ensures CanPayOut(t, x) <==> t.escrows[x].amount >= 11
  {
    GuardedIsReachable(t);
    AlwaysPaired(t);
    EscrowExact(t, t.escrows[x].winner);
    HeldIsCovered(t, x);
    CoveredPays(t, x);
  }
}

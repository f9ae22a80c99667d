/** What has to wait: auto-release for 48 hours after the sale, cancellation for the seller's shipping deadline. */
module Deadlines {
  import opened Domain
  import opened Settlement
  import opened Orders
  import opened Protocol
  import opened History
  import opened Sales
  import opened Books
  import opened Escrows
  import Counting

  /** The times written at the sale, against the time of the ledger row that moved the money. */
  ghost predicate DatesFit(s: Store, r: Row) {
    r.kind.EscrowMove? && r.ref.OrderRef? && r.ref.id < |s.orders| == |s.escrows| ==>
      && s.escrows[r.ref.id].autoReleaseAt == r.createdAt + AUTO_RELEASE
      && s.orders[r.ref.id].shipBy == r.createdAt + s.shippingTime
  }

  ghost predicate Dated(s: Store) {
    forall i | 0 <= i < |s.ledger| :: DatesFit(s, s.ledger[i])
  }

  /** Nothing is queued for release, and no order cancelled, before its time. */
  ghost predicate Waited(s: Store) {
    && (forall x | x in s.releasing :: x < |s.escrows| && s.escrows[x].autoReleaseAt <= s.now)
    && (forall o | 0 <= o < |s.orders| && s.orders[o].status.Cancelled? :: s.orders[o].shipBy <= s.now)
  }

  lemma StillDated(s: Database, t: Database, r: Row, q: Row)
    requires RowFits(s, r) && DatesFit(s, r) && SameRow(r, q) && Extends(s, t) && t.shippingTime == s.shippingTime
    requires |s.orders| == |s.escrows|
    ensures DatesFit(t, q)
  {
    if r.kind.EscrowMove? {
      assert SameOrder(s.orders[r.ref.id], t.orders[r.ref.id]) && SameEscrow(s.escrows[r.ref.id], t.escrows[r.ref.id]);
    }
  }

  lemma SaleDated(s: Database, a: nat)
    requires Paired(s)
    ensures var t := Settle(s, a); forall i | |s.ledger| <= i < |t.ledger| :: DatesFit(t, t.ledger[i])
  {
  }

  lemma NoOtherSales(s: Database, e: Event)
    requires !e.SettleStep?
    ensures var t := Step(s, e); forall i | |s.ledger| <= i < |t.ledger| :: DatesFit(t, t.ledger[i])
  {
    Counting.NoMoves(s, e);
  }

  lemma StepDated(s: Database, e: Event)
    requires Paired(s) && Referenced(s) && Dated(s)
    ensures Dated(Step(s, e))
  {
    var t := Step(s, e);
    StepExtends(s, e);
    ConfigurationFrame(s, e);
    if e.SettleStep? {
      SaleDated(s, e.auction);
    } else {
      NoOtherSales(s, e);
    }
    forall i | 0 <= i < |t.ledger| ensures DatesFit(t, t.ledger[i]) {
      if i < |s.ledger| {
        assert RowFits(s, s.ledger[i]);
        StillDated(s, t, s.ledger[i], t.ledger[i]);
      }
    }
  }

  lemma FulfilWaited(s: Database, e: FulfilEvent)
    requires Waited(s)
    ensures Waited(DoFulfil(s, e))
  {
  }

  /** Only an overdue order is cancelled. */
  lemma CloseCancels(s: Database, e: CloseEvent)
    ensures var t := DoClose(s, e);
            |t.orders| == |s.orders| && t.now == s.now
            && forall o | 0 <= o < |s.orders| && t.orders[o].status.Cancelled? ::
                 t.orders[o].shipBy == s.orders[o].shipBy &&
                 (s.orders[o].status.Cancelled? || s.orders[o].shipBy <= s.now)
  {
  }

  lemma CloseWaited(s: Database, e: CloseEvent)
    requires Paired(s) && Waited(s)
    ensures Waited(DoClose(s, e))
  {
    var t := DoClose(s, e);
    CloseFrame(s, e);
    CloseFields(s, e);
    CloseCancels(s, e);
  }

  lemma SettleWaited(s: Database, a: nat)
    requires Waited(s)
    ensures Waited(Settle(s, a))
  {
  }

  lemma StepWaited(s: Database, e: Event)
    requires Paired(s) && Waited(s)
    ensures Waited(Step(s, e))
  {
    match e {
      case SettleStep(a) => SettleWaited(s, a);
      case FulfilStep(x) => FulfilWaited(s, x);
      case CloseStep(x) => CloseWaited(s, x);
      case _ =>
        OrdersFrame(s, e);
        ConfigurationFrame(s, e);
    }
  }

  lemma {:induction false} RunWaits(s: Database, es: seq<Event>)
    requires Fresh(s)
    ensures Dated(Run(s, es)) && Waited(Run(s, es))
  {
    if es == [] {
    } else {
      var before, e := es[..|es| - 1], es[|es| - 1];
      RunWaits(s, before);
      RunSales(s, before);
      RunBooks(s, before);
      StepDated(Run(s, before), e);
      StepWaited(Run(s, before), e);
    }
  }

  /**
   Main result: in every reachable state an escrow is queued for auto-release no sooner than 48 hours after its
   sale, and an order cancelled no sooner than its seller's shipping time after it.
   */
  lemma AlwaysWaits(t: Database)
    requires Reachable(t)
    ensures Dated(t) && Waited(t)
  {
    var s, es :| ReachedBy(t, s, es);
    RunWaits(s, es);
  }
}

/** What no event ever rewrites. */
module History {
  import opened Domain
  import opened Protocol
  import opened Bidding
  import opened Settlement
  import opened Orders
  import opened Payments

  // The parts of a row that are fixed when it is written.

  ghost predicate SameBid(b: Bid, c: Bid) {
    c == b.(status := c.status)
  }

  ghost predicate SameOrder(o: Order, p: Order) {
    p == o.(status := p.status, dispute := p.dispute)
  }

  ghost predicate SameEscrow(x: Escrow, y: Escrow) {
    y == x.(status := y.status)
  }

  ghost predicate SameDispute(d: Dispute, f: Dispute) {
    f == d.(status := f.status)
  }

  ghost predicate SamePayment(p: Payment, q: Payment) {
    q == p.(status := q.status)
  }

  /** Only a pending withdrawal changes, and only its status. */
  ghost predicate SameRow(r: Row, q: Row) {
    || q == r
    || (&& r.kind.Withdrawal? && r.status.Pending?
        && q == r.(status := q.status) && (q.status.Completed? || q.status.Failed?))
  }

  /** Tables only grow, and rows keep everything but their status. */
  ghost predicate Extends(s: Store, t: Store) {
    && |s.users| <= |t.users|
    && |s.auctions| <= |t.auctions|
    && (|s.bids| <= |t.bids| && forall i | 0 <= i < |s.bids| :: SameBid(s.bids[i], t.bids[i]))
    && (|s.orders| <= |t.orders| && forall i | 0 <= i < |s.orders| :: SameOrder(s.orders[i], t.orders[i]))
    && (|s.escrows| <= |t.escrows| && forall i | 0 <= i < |s.escrows| :: SameEscrow(s.escrows[i], t.escrows[i]))
    && (|s.disputes| <= |t.disputes| && forall i | 0 <= i < |s.disputes| :: SameDispute(s.disputes[i], t.disputes[i]))
    && (|s.payments| <= |t.payments| && forall i | 0 <= i < |s.payments| :: SamePayment(s.payments[i], t.payments[i]))
    && (|s.ledger| <= |t.ledger| && forall i | 0 <= i < |s.ledger| :: SameRow(s.ledger[i], t.ledger[i]))
  }

  lemma BidExtends(s: Database, bidder: nat, a: nat, amount: Kobo)
    ensures Extends(s, PlaceBid(s, bidder, a, amount))
  {
  }

  lemma SettleExtends(s: Database, a: nat)
    ensures Extends(s, Settle(s, a))
  {
  }

  lemma HandleExtends(s: Database, a: nat)
    ensures Extends(s, Handle(s, a))
  {
  }

  lemma ConfirmExtends(s: Database, buyer: nat, o: nat)
    ensures Extends(s, ConfirmDelivery(s, buyer, o))
  {
  }

  lemma ReleaseExtends(s: Database, e: nat)
    ensures Extends(s, ReleaseTask(s, e))
  {
  }

  lemma CancelExtends(s: Database, buyer: nat, o: nat)
    ensures Extends(s, CancelOrder(s, buyer, o))
  {
  }

  lemma OverdueExtends(s: Database, o: nat)
    ensures Extends(s, CancelOverdue(s, o))
  {
  }

  lemma ResolveExtends(s: Database, admin: nat, d: nat, forBuyer: bool)
    ensures Extends(s, ResolveDispute(s, admin, d, forBuyer))
  {
  }

  lemma CloseExtends(s: Database, e: CloseEvent)
    ensures Extends(s, DoClose(s, e))
  {
    match e {
      case Confirm(u, o) => ConfirmExtends(s, u, o);
      case BuyerCancel(u, o) => CancelExtends(s, u, o);
      case SweepCancel(o) => OverdueExtends(s, o);
      case Release(x) => ReleaseExtends(s, x);
      case Resolve(u, d, forBuyer) => ResolveExtends(s, u, d, forBuyer);
    }
  }

  lemma WebhookExtends(s: Database, p: nat, v: Verification)
    ensures Extends(s, HandleWebhook(s, p, v))
  {
  }

  lemma TransferExtends(s: Database, row: nat, transferred: bool)
    ensures Extends(s, TransferService(s, row, transferred))
  {
  }

  lemma WithdrawExtends(s: Database, user: nat, amount: Kobo)
    ensures Extends(s, Withdraw(s, user, amount))
  {
  }

  lemma PayExtends(s: Database, e: PayEvent)
    ensures Extends(s, DoPay(s, e))
  {
    match e {
      case Webhook(p, v) => WebhookExtends(s, p, v);
      case TakeOut(u, amount) => WithdrawExtends(s, u, amount);
      case RunTransfer(r, ok) => TransferExtends(s, r, ok);
      case CallTransfer(r, ok) => TransferExtends(s, r, ok);
    }
  }

  lemma FulfilExtends(s: Database, e: FulfilEvent)
    ensures Extends(s, DoFulfil(s, e))
  {
  }

  lemma DraftExtends(s: Database, e: DraftEvent)
    ensures Extends(s, DoDraft(s, e))
  {
    DraftFrame(s, e);
  }

  lemma ManageExtends(s: Database, e: ManageEvent)
    ensures Extends(s, DoManage(s, e))
  {
    ManageFrame(s, e);
  }

  lemma QueueExtends(s: Database, e: QueueEvent)
    ensures Extends(s, DoQueue(s, e))
  {
    QueueFrame(s, e);
  }

  lemma AccountExtends(s: Database, e: AccountEvent)
    ensures Extends(s, DoAccount(s, e))
  {
  }

  lemma TickExtends(s: Database, elapsed: nat)
    ensures Extends(s, s.(now := s.now + elapsed))
  {
  }

  lemma StepExtends(s: Database, e: Event)
    ensures Extends(s, Step(s, e))
  {
    match e {
      case Tick(t) => TickExtends(s, t);
      case AccountStep(x) => AccountExtends(s, x);
      case PayStep(x) => PayExtends(s, x);
      case DraftStep(x) => DraftExtends(s, x);
      case ManageStep(x) => ManageExtends(s, x);
      case BidStep(u, a, amount) => BidExtends(s, u, a, amount);
      case QueueStep(x) => QueueExtends(s, x);
      case SettleStep(a) => SettleExtends(s, a);
      case HandleStep(a) => HandleExtends(s, a);
      case FulfilStep(x) => FulfilExtends(s, x);
      case CloseStep(x) => CloseExtends(s, x);
    }
  }

  lemma ExtendsTransitive(s: Store, t: Store, v: Store)
    requires Extends(s, t) && Extends(t, v)
    ensures Extends(s, v)
  {
  }

  /** Over any run the ledger is append-only, up to the outcome of pending withdrawals. */
  lemma {:induction false} RunExtends(s: Database, es: seq<Event>)
    ensures Extends(s, Run(s, es))
  {
    if es == [] {
    } else {
      RunExtends(s, es[..|es| - 1]);
      StepExtends(Run(s, es[..|es| - 1]), es[|es| - 1]);
      ExtendsTransitive(s, Run(s, es[..|es| - 1]), Run(s, es));
    }
  }
}

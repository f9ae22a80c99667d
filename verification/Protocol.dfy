/** Every transaction of the platform as one event, and runs: any events, in any order, by anybody. */
module Protocol {
  import opened Domain
  import opened Bidding
  import opened Auctions
  import opened Settlement
  import opened Orders
  import opened Payments

  // The transactions, grouped by the tables they touch.

  datatype AccountEvent =
    | Register(admin: bool)
    | ChangeTier(user: nat, tier: KycTier)
    | ChangeBank(user: nat, present: bool)
    | Fund(user: nat, amount: Kobo, currency: string)

  datatype PayEvent =
    | Webhook(payment: nat, verification: Verification)
    | TakeOut(user: nat, amount: Kobo)
    | RunTransfer(row: nat, transferred: bool)
    | CallTransfer(row: nat, transferred: bool)

  datatype DraftEvent =
    | Create(user: nat, starts: Time, ends: Time, reserve: Option<Kobo>)
    | Attach(user: nat, auction: nat, price: Kobo)
    | Detach(user: nat, auction: nat, item: nat)
    | Edit(user: nat, auction: nat, newStart: Option<Time>, newEnd: Option<Time>, newReserve: Option<Kobo>)

  datatype ManageEvent =
    | Announce(user: nat, auction: nat)
    | ActivateDue
    | Prolong(user: nat, auction: nat, ends: Time)
    | SellerCancel(user: nat, auction: nat)
    | AdminCancel(auction: nat)

  datatype QueueEvent =
    | Scan(stale: set<nat>)
    | Claim(auction: nat)
    | LostClaim(auction: nat)

  datatype FulfilEvent =
    | Ship(user: nat, order: nat)
    | ClaimRelease(escrow: nat)
    | LostRelease(escrow: nat)
    | OpenDispute(user: nat, order: nat)
    | Review(user: nat, dispute: nat)

  datatype CloseEvent =
    | Confirm(user: nat, order: nat)
    | BuyerCancel(user: nat, order: nat)
    | SweepCancel(order: nat)
    | Release(escrow: nat)
    | Resolve(user: nat, dispute: nat, forBuyer: bool)

  datatype Event =
    | Tick(elapsed: nat)
    | AccountStep(account: AccountEvent)
    | PayStep(pay: PayEvent)
    | DraftStep(draft: DraftEvent)
    | ManageStep(manage: ManageEvent)
    | BidStep(user: nat, auction: nat, amount: Kobo)
    | QueueStep(queue: QueueEvent)
    | SettleStep(auction: nat)
    | HandleStep(auction: nat)
    | FulfilStep(fulfil: FulfilEvent)
    | CloseStep(close: CloseEvent)

  /** A new user starts at the lowest tier with an empty wallet. */
  function CreateUser(s: Database, admin: bool): Database {
    s.(users := s.users + [User(Tier1, admin, false, 0)], wallets := s.wallets + [Wallet(0, 0, 0)])
  }

  function SetTier(s: Database, user: nat, tier: KycTier): Database {
    if user >= |s.users| then s else s.(users := s.users[user := s.users[user].(tier := tier)])
  }

  function SetBank(s: Database, user: nat, present: bool): Database {
    if user >= |s.users| then s else s.(users := s.users[user := s.users[user].(bankDetails := present)])
  }

  function DoAccount(s: Database, e: AccountEvent): Database {
    match e
    case Register(admin) => CreateUser(s, admin)
    case ChangeTier(u, tier) => SetTier(s, u, tier)
    case ChangeBank(u, present) => SetBank(s, u, present)
    case Fund(u, amount, currency) => InitiateFunding(s, u, amount, currency)
  }

  function DoPay(s: Database, e: PayEvent): Database {
    match e
    case Webhook(p, v) => HandleWebhook(s, p, v)
    case TakeOut(u, amount) => Withdraw(s, u, amount)
    case RunTransfer(r, ok) => TransferTask(s, r, ok)
    case CallTransfer(r, ok) => TransferService(s, r, ok)
  }

  function DoDraft(s: Database, e: DraftEvent): Database {
    match e
    case Create(u, starts, ends, reserve) => CreateAuction(s, u, starts, ends, reserve)
    case Attach(u, a, price) => AttachItem(s, u, a, price)
    case Detach(u, a, item) => DetachItem(s, u, a, item)
    case Edit(u, a, starts, ends, reserve) => UpdateAuction(s, u, a, starts, ends, reserve)
  }

  function DoManage(s: Database, e: ManageEvent): Database {
    match e
    case Announce(u, a) => Publish(s, u, a)
    case ActivateDue => ActivateScheduled(s)
    case Prolong(u, a, ends) => Extend(s, u, a, ends)
    case SellerCancel(u, a) => CancelAuction(s, u, a)
    case AdminCancel(a) => CancelAuctionAdmin(s, a)
  }

  function DoQueue(s: Database, e: QueueEvent): Database {
    match e
    case Scan(stale) => ScanAuctions(s, stale)
    case Claim(a) => ClaimAuction(s, a)
    case LostClaim(a) => LoseClaim(s, a)
  }

  function DoFulfil(s: Database, e: FulfilEvent): Database {
    match e
    case Ship(u, o) => ShipOrder(s, u, o)
    case ClaimRelease(x) => ClaimEscrow(s, x)
    case LostRelease(x) => LoseRelease(s, x)
    case OpenDispute(u, o) => RaiseDispute(s, u, o)
    case Review(u, d) => MarkUnderReview(s, u, d)
  }

  function DoClose(s: Database, e: CloseEvent): Database {
    match e
    case Confirm(u, o) => ConfirmDelivery(s, u, o)
    case BuyerCancel(u, o) => CancelOrder(s, u, o)
    case SweepCancel(o) => CancelOverdue(s, o)
    case Release(x) => ReleaseTask(s, x)
    case Resolve(u, d, forBuyer) => ResolveDispute(s, u, d, forBuyer)
  }

  function Step(s: Database, e: Event): Database {
    match e
    case Tick(t) => s.(now := s.now + t)
    case AccountStep(x) => DoAccount(s, x)
    case PayStep(x) => DoPay(s, x)
    case DraftStep(x) => DoDraft(s, x)
    case ManageStep(x) => DoManage(s, x)
    case BidStep(u, a, amount) => PlaceBid(s, u, a, amount)
    case QueueStep(x) => DoQueue(s, x)
    case SettleStep(a) => Settle(s, a)
    case HandleStep(a) => Handle(s, a)
    case FulfilStep(x) => DoFulfil(s, x)
    case CloseStep(x) => DoClose(s, x)
  }

  /** The state after a run. */
  function Run(s: Database, es: seq<Event>): Database {
    if es == [] then s else Step(Run(s, es[..|es| - 1]), es[|es| - 1])
  }

  lemma RunAppend(s: Database, es: seq<Event>, e: Event)
    ensures Run(s, es + [e]) == Step(Run(s, es), e)
  {
    assert (es + [e])[..|es|] == es;
  }

  lemma RunNext(s: Database, es: seq<Event>, n: nat)
    requires n < |es|
    ensures Run(s, es[..n + 1]) == Step(Run(s, es[..n]), es[n])
  {
    assert es[..n + 1][..n] == es[..n];
  }

  ghost predicate ReachedBy(t: Database, s: Database, es: seq<Event>) {
    Fresh(s) && Run(s, es) == t
  }

  /** Some run from a fresh platform ends here. */
  ghost predicate Reachable(t: Database) {
    exists s: Database, es: seq<Event> :: ReachedBy(t, s, es)
  }

  lemma FreshIsReachable(t: Database)
    requires Fresh(t)
    ensures Reachable(t)
  {
    assert ReachedBy(t, t, []);
  }

  lemma ReachedByAppend(t: Database, s: Database, es: seq<Event>, e: Event)
    requires ReachedBy(t, s, es)
    ensures ReachedBy(Step(t, e), s, es + [e])
  {
    RunAppend(s, es, e);
  }

  /** The reachable states are those got from a fresh platform by events. */
  lemma StepIsReachable(t: Database, e: Event)
    requires Reachable(t)
    ensures Reachable(Step(t, e))
  {
    var s, es :| ReachedBy(t, s, es);
    ReachedByAppend(t, s, es, e);
  }

  lemma ButLast(es: seq<Event>, e: Event)
    ensures (es + [e])[..|es + [e]| - 1] == es && (es + [e])[|es + [e]| - 1] == e
  {
  }

  lemma LastEvent(es: seq<Event>)
    requires es != []
    ensures es[..|es| - 1] + [es[|es| - 1]] == es
  {
  }

  // ---- Frames: what kinds of events leave alone ----

  ghost predicate MovesMoney(e: Event) {
    e.PayStep? || e.BidStep? || e.SettleStep? || e.HandleStep? || e.CloseStep?
  }

  ghost predicate ChangesAuctions(e: Event) {
    e.DraftStep? || e.ManageStep? || e.BidStep? || e.QueueStep? || e.SettleStep? || e.HandleStep?
  }

  ghost predicate ChangesOrders(e: Event) {
    e.SettleStep? || e.FulfilStep? || e.CloseStep?
  }

  /** The same escrow as far as its money goes. */
  ghost predicate SameMoney(x: Escrow, y: Escrow) {
    y == x.(status := y.status) && (x.status.Held() <==> y.status.Held())
    && (x.status.Released? <==> y.status.Released?)
  }

  /** Nothing about bids, ledger, buckets or escrowed money changed, except that a user may have joined. */
  ghost predicate MoneyFrame(s: Store, t: Store) {
    && t.ledger == s.ledger
    && t.bids == s.bids
    && |t.users| >= |s.users| == |s.wallets|
    && (t.wallets == s.wallets || t.wallets == s.wallets + [Wallet(0, 0, 0)])
    && |t.wallets| == |t.users|
    && (forall u | 0 <= u < |s.users| :: t.users[u].totalSales == s.users[u].totalSales)
    && (forall u | |s.users| <= u < |t.users| :: t.users[u].totalSales == 0)
    && |t.escrows| == |s.escrows|
    && (forall i | 0 <= i < |s.escrows| :: SameMoney(s.escrows[i], t.escrows[i]))
  }

  lemma AccountFrame(s: Database, e: AccountEvent)
    ensures MoneyFrame(s, DoAccount(s, e))
    ensures var t := DoAccount(s, e);
            t == s.(users := t.users, wallets := t.wallets, payments := t.payments)
  {
  }

  lemma PayFrame(s: Database, e: PayEvent)
    ensures var t := DoPay(s, e);
            t == s.(wallets := t.wallets, payments := t.payments, ledger := t.ledger)
  {
  }

  lemma DraftFrame(s: Database, e: DraftEvent)
    ensures var t := DoDraft(s, e); t == s.(auctions := t.auctions)
  {
  }

  lemma ManageFrame(s: Database, e: ManageEvent)
    ensures var t := DoManage(s, e); t == s.(auctions := t.auctions)
  {
  }

  lemma BidFrame(s: Database, bidder: nat, a: nat, amount: Kobo)
    ensures var t := PlaceBid(s, bidder, a, amount);
            t == s.(wallets := t.wallets, bids := t.bids, auctions := t.auctions, ledger := t.ledger)
  {
  }

  lemma QueueFrame(s: Database, e: QueueEvent)
    ensures var t := DoQueue(s, e);
            t == s.(auctions := t.auctions, scanned := t.scanned, settling := t.settling)
  {
  }

  lemma SettleFrame(s: Database, a: nat)
    ensures var t := Settle(s, a);
            t == s.(auctions := t.auctions, bids := t.bids, orders := t.orders, escrows := t.escrows,
                    wallets := t.wallets, ledger := t.ledger, handling := t.handling)
  {
  }

  lemma HandleFrame(s: Database, a: nat)
    ensures var t := Handle(s, a);
            t == s.(auctions := t.auctions, bids := t.bids, wallets := t.wallets, ledger := t.ledger)
  {
  }

  lemma FulfilFrame(s: Database, e: FulfilEvent)
    ensures MoneyFrame(s, DoFulfil(s, e))
    ensures var t := DoFulfil(s, e);
            t == s.(orders := t.orders, escrows := t.escrows, disputes := t.disputes, releasing := t.releasing)
    ensures |DoFulfil(s, e).orders| == |s.orders|
  {
  }

  lemma CloseFrame(s: Database, e: CloseEvent)
    ensures var t := DoClose(s, e);
            t == s.(users := t.users, wallets := t.wallets, ledger := t.ledger, orders := t.orders,
                    escrows := t.escrows, disputes := t.disputes)
    ensures |DoClose(s, e).orders| == |s.orders| && |DoClose(s, e).escrows| == |s.escrows|
  {
  }

  lemma QuietStep(s: Database, e: Event)
    requires !MovesMoney(e)
    ensures MoneyFrame(s, Step(s, e))
  {
    match e {
      case Tick(_) =>
      case AccountStep(x) => AccountFrame(s, x);
      case DraftStep(x) => DraftFrame(s, x);
      case ManageStep(x) => ManageFrame(s, x);
      case QueueStep(x) => QueueFrame(s, x);
      case FulfilStep(x) => FulfilFrame(s, x);
      case _ => assert false;
    }
  }

  lemma AuctionsFrame(s: Database, e: Event)
    requires !ChangesAuctions(e)
    ensures var t := Step(s, e); t.auctions == s.auctions && t.bids == s.bids
    ensures var t := Step(s, e); t.scanned == s.scanned && t.settling == s.settling && t.handling == s.handling
  {
    match e {
      case Tick(_) =>
      case AccountStep(x) => AccountFrame(s, x);
      case PayStep(x) => PayFrame(s, x);
      case FulfilStep(x) => FulfilFrame(s, x);
      case CloseStep(x) => CloseFrame(s, x);
      case _ => assert false;
    }
  }

  lemma OrdersFrame(s: Database, e: Event)
    requires !ChangesOrders(e)
    ensures var t := Step(s, e);
            t.orders == s.orders && t.escrows == s.escrows && t.disputes == s.disputes && t.releasing == s.releasing
  {
    match e {
      case Tick(_) =>
      case AccountStep(x) => AccountFrame(s, x);
      case PayStep(x) => PayFrame(s, x);
      case DraftStep(x) => DraftFrame(s, x);
      case ManageStep(x) => ManageFrame(s, x);
      case BidStep(u, a, amount) => BidFrame(s, u, a, amount);
      case QueueStep(x) => QueueFrame(s, x);
      case HandleStep(a) => HandleFrame(s, a);
      case _ => assert false;
    }
  }

  /** The increment table and the shipping time are configuration; time does not run backwards. */
  lemma ConfigurationFrame(s: Database, e: Event)
    ensures var t := Step(s, e); t.tiers == s.tiers && t.shippingTime == s.shippingTime && t.now >= s.now
    ensures !e.Tick? ==> Step(s, e).now == s.now
  {
    match e {
      case Tick(_) =>
      case AccountStep(x) => AccountFrame(s, x);
      case PayStep(x) => PayFrame(s, x);
      case DraftStep(x) => DraftFrame(s, x);
      case ManageStep(x) => ManageFrame(s, x);
      case BidStep(u, a, amount) => BidFrame(s, u, a, amount);
      case QueueStep(x) => QueueFrame(s, x);
      case SettleStep(a) => SettleFrame(s, a);
      case HandleStep(a) => HandleFrame(s, a);
      case FulfilStep(x) => FulfilFrame(s, x);
      case CloseStep(x) => CloseFrame(s, x);
    }
  }
}

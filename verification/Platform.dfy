/**
 The platform as one object. Every service method and worker task is one step of the protocol, so the results
 about runs hold of it after any calls whatever.
 */
module Platforms {
  import opened Domain
  import opened Sessions
  import opened Protocol
  import Settlement
  import opened Payments
  import opened Orders
  import opened BidChain
  import opened Sales
  import opened Books
  import opened Counting
  import opened Handling
  import opened Locks
  import opened Conservation
  import opened RunningBalance
  import UserRepository
  import BidService
  import AuctionService
  import AuctionTasks
  import OrderService
  import EscrowTasks
  import DisputeService
  import WalletService
  import WalletTasks

  // ---- One event, performed by the code that implements it ----

  method PerformAccount(db: Session, e: AccountEvent)
    requires db.Clean()
    modifies db
    ensures db.Clean() && db.committed == DoAccount(old(db.committed), e)
  {
    match e {
      case Register(admin) =>
        var user := UserRepository.Create(db, admin);
        db.Commit();
      case ChangeTier(u, tier) =>
        if u < |db.users| {
          db.users := db.users[u := db.users[u].(tier := tier)];
          db.Commit();
        }
      case ChangeBank(u, present) =>
        if u < |db.users| {
          db.users := db.users[u := db.users[u].(bankDetails := present)];
          db.Commit();
        }
      case Fund(u, amount, currency) =>
        var error := WalletService.InitiateFunding(db, u, amount, currency);
    }
  }

  method PerformPay(db: Session, e: PayEvent)
    requires db.Clean()
    modifies db
    ensures db.Clean() && db.committed == DoPay(old(db.committed), e)
  {
    match e {
      case Webhook(p, v) => var error := WalletService.HandleWebhook(db, p, v);
      case TakeOut(u, amount) => var error := WalletService.InitiateWithdrawal(db, u, amount);
      case RunTransfer(row, transferred) => var ok := WalletTasks.ProcessWithdrawalTransfer(db, row, transferred);
      case CallTransfer(row, transferred) =>
        if row < |db.ledger| {
          var ok := WalletService.ProcessWithdrawalTransferDirect(db, row, transferred);
          db.Commit();
        }
    }
  }

  method PerformDraft(db: Session, e: DraftEvent)
    requires db.Clean()
    modifies db
    ensures db.Clean() && db.committed == DoDraft(old(db.committed), e)
  {
    match e {
      case Create(u, starts, ends, reserve) => var error := AuctionService.CreateAuction(db, u, starts, ends, reserve);
      case Attach(u, a, price) => var error := AuctionService.AttachItem(db, u, a, price);
      case Detach(u, a, item) => var error := AuctionService.DetachItem(db, u, a, item);
      case Edit(u, a, starts, ends, reserve) =>
        var error := AuctionService.UpdateAuction(db, u, a, starts, ends, reserve);
    }
  }

  method PerformManage(db: Session, e: ManageEvent)
    requires db.Clean()
    modifies db
    ensures db.Clean() && db.committed == DoManage(old(db.committed), e)
  {
    match e {
      case Announce(u, a) => var error := AuctionService.PublishAuction(db, u, a);
      case ActivateDue => AuctionTasks.ActivateScheduledAuctions(db);
      case Prolong(u, a, ends) => var error := AuctionService.ExtendAuction(db, u, a, ends);
      case SellerCancel(u, a) => var error := AuctionService.CancelAuction(db, u, a);
      case AdminCancel(a) => var error := AuctionService.CancelAuctionAdmin(db, a);
    }
  }

  method PerformQueue(db: Session, e: QueueEvent)
    requires db.Clean()
    modifies db
    ensures db.Clean() && db.committed == DoQueue(old(db.committed), e)
  {
    match e {
      case Scan(stale) => var ids := AuctionTasks.Scan(db, stale);
      case Claim(a) =>
        if a in db.scanned {
          var claimed := AuctionTasks.Claim(db, a, true);
        }
      case LostClaim(a) =>
        if a in db.scanned {
          var claimed := AuctionTasks.Claim(db, a, false);
        }
    }
  }

  method PerformFulfil(db: Session, e: FulfilEvent)
    requires db.Clean()
    modifies db
    ensures db.Clean() && db.committed == DoFulfil(old(db.committed), e)
  {
    match e {
      case Ship(u, o) => var error := OrderService.ShipOrder(db, u, o);
      case ClaimRelease(x) =>
        if x < |db.escrows| && db.escrows[x].autoReleaseAt <= db.now {
          var claimed := EscrowTasks.Claim(db, x, true);
        }
      case LostRelease(x) =>
        if x < |db.escrows| && db.escrows[x].autoReleaseAt <= db.now {
          var claimed := EscrowTasks.Claim(db, x, false);
        }
      case OpenDispute(u, o) => var error := DisputeService.RaiseDispute(db, u, o);
      case Review(u, d) => var error := DisputeService.MarkUnderReview(db, u, d);
    }
  }

  method PerformClose(db: Session, e: CloseEvent)
    requires db.Clean()
    modifies db
    ensures db.Clean() && db.committed == DoClose(old(db.committed), e)
  {
    match e {
      case Confirm(u, o) => var error := OrderService.ConfirmDelivery(db, u, o);
      case BuyerCancel(u, o) => var error := OrderService.CancelOrder(db, u, o);
      case SweepCancel(o) =>
        if o < |db.orders| && db.orders[o].shipBy <= db.now {
          var cancelled := EscrowTasks.CancelOne(db, o);
        }
      case Release(x) =>
        if x in db.releasing {
          var ok := EscrowTasks.ReleaseSingleEscrow(db, x);
        }
      case Resolve(u, d, forBuyer) => var error := DisputeService.ResolveDispute(db, u, d, forBuyer);
    }
  }

  method PerformSettlement(db: Session, a: nat)
    requires db.Clean()
    modifies db
    ensures db.Clean() && db.committed == Settlement.Settle(old(db.committed), a)
  {
    if a in db.settling {
      var ok, handle := AuctionTasks.ProcessAuctionSettlement(db, a);
    }
  }

  method PerformHandling(db: Session, a: nat)
    requires db.Clean()
    modifies db
    ensures db.Clean() && db.committed == Settlement.Handle(old(db.committed), a)
  {
    if a in db.handling {
      var ok := AuctionTasks.HandleReserveNotMet(db, a);
    }
  }

  method PassTime(db: Session, elapsed: nat)
    requires db.Clean()
    modifies db
    ensures db.Clean() && db.committed == old(db.committed).(now := old(db.now) + elapsed)
  {
    db.now := db.now + elapsed;
    db.Commit();
  }

  /** Whatever happens, the code does what the protocol says. */
  method Perform(db: Session, e: Event)
    requires db.Clean()
    modifies db
    ensures db.Clean() && db.committed == Step(old(db.committed), e)
  {
    match e {
      case Tick(t) => PassTime(db, t);
      case AccountStep(x) => PerformAccount(db, x);
      case PayStep(x) => PerformPay(db, x);
      case DraftStep(x) => PerformDraft(db, x);
      case ManageStep(x) => PerformManage(db, x);
      case BidStep(u, a, amount) => var error := BidService.PlaceBid(db, u, a, amount);
      case QueueStep(x) => PerformQueue(db, x);
      case SettleStep(a) => PerformSettlement(db, a);
      case HandleStep(a) => PerformHandling(db, a);
      case FulfilStep(x) => PerformFulfil(db, x);
      case CloseStep(x) => PerformClose(db, x);
    }
  }

  // ---- The object ----

  class Platform {
    const db: Session
    ghost const start: Database
    ghost var history: seq<Event>

    /** The committed tables are what the transactions so far made of a platform without users. */
    ghost predicate Valid()
      reads this, db
    {
      db.Clean() && Fresh(start) && db.committed == Run(start, history)
    }

    constructor (time: Time, shippingTime: Time, tiers: seq<Tier>)
      requires forall i | 0 <= i < |tiers| :: TierOk(tiers[i])
      ensures Valid() && fresh(db) && history == []
      ensures db.committed == EMPTY.(now := time, shippingTime := shippingTime, tiers := tiers)
    {
      var empty: Database := EMPTY.(now := time, shippingTime := shippingTime, tiers := tiers);
      db := new Session(empty);
      start, history := empty, [];
    }

    method Transact(e: Event)
      requires Valid()
      modifies this, db
      ensures Valid() && history == old(history) + [e]
    {
      Perform(db, e);
      RunAppend(start, history, e);
      history := history + [e];
    }
  }

  /** Main result about the object: between any two calls its tables are a reachable state, and the books agree. */
  lemma BooksAgree(p: Platform)
    requires p.Valid()
    ensures var t: Database := p.db.committed;
            && Reachable(t)
            && Chained(t) && Paired(t) && Sold(t) && Balanced(t) && Referenced(t) && AllPrinted(t)
            && OrdersMoved(t) && PaymentsCredited(t)
            && MoneyHeld(t) + CommissionEarned(t) + PaidOutToBanks(t) == Deposited(t)
  {
    var t: Database := p.db.committed;
    assert ReachedBy(t, p.start, p.history);
    AlwaysChained(t);
    AlwaysPaired(t);
    AlwaysBalanced(t);
    AlwaysPrinted(t);
    AlwaysCounted(t);
    AlwaysConserved(t);
  }

  /** And locked funds are the ACTIVE bids if and only if every reserve handler came in time. */
  lemma LocksFollowHandlers(p: Platform)
    requires p.Valid()
    ensures LocksAgree(p.db.committed) <==> TimelyRun(p.start, p.history)
  {
    LocksAgreeIffTimely(p.start, p.history);
  }
}

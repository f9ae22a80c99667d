/**
 Drafting, publishing, prolonging, cancelling, claiming and closing auctions, read off the tables of any reachable
 state: who may do it, when, and everything that changes.
 */
module AuctionLaws {
  import opened Domain
  import opened Commissions
  import opened Bidding
  import opened Auctions
  import opened Settlement
  import opened Protocol
  import opened History
  import opened BidChain

  // ---- Drafts ----

  /** At least half an hour and at most a day. */
  predicate FairLength(starts: Time, ends: Time) {
    30 * MINUTE <= ends - starts <= 24 * HOUR
  }

  lemma CreateLaw(t: Database, u: nat, starts: Time, ends: Time, reserve: Option<Kobo>)
    ensures Step(t, DraftStep(Create(u, starts, ends, reserve))) ==
            if u < |t.users| && t.now <= starts && FairLength(starts, ends) && (reserve.Some? ==> 0 <= reserve.value)
            then t.(auctions := t.auctions + [Auction(u, Draft, None, reserve, starts, ends, [])])
            else t
  {
  }

  /** Only its seller changes a draft. */
  predicate OwnDraft(t: Database, u: nat, a: nat) {
    a < |t.auctions| && t.auctions[a].seller == u && t.auctions[a].status.Draft?
  }

  lemma AttachLaw(t: Database, u: nat, a: nat, price: Kobo)
    ensures Step(t, DraftStep(Attach(u, a, price))) ==
            if OwnDraft(t, u, a) && 0 <= price &&
               (t.auctions[a].reserve in {None, Some(0)} || price < t.auctions[a].reserve.value)
            then t.(auctions := t.auctions[a := t.auctions[a].(prices := t.auctions[a].prices + [price])])
            else t
  {
  }

  lemma DetachLaw(t: Database, u: nat, a: nat, k: nat)
    ensures Step(t, DraftStep(Detach(u, a, k))) ==
            if OwnDraft(t, u, a) && k < |t.auctions[a].prices|
            then
              var left := t.auctions[a].prices[..k] + t.auctions[a].prices[k + 1..];
              t.(auctions := t.auctions[a := t.auctions[a].(prices := left)])
            else t
  {
  }

  /** A time given alone may make any length; the two together may not. */
  lemma EditLaw(t: Database, u: nat, a: nat, starts: Option<Time>, ends: Option<Time>, reserve: Option<Kobo>)
    ensures Step(t, DraftStep(Edit(u, a, starts, ends, reserve))) ==
            if OwnDraft(t, u, a) && (reserve.Some? ==> 0 <= reserve.value) &&
               (starts.Some? && ends.Some? ==> FairLength(starts.value, ends.value)) &&
               (if starts.Some? then starts.value else t.auctions[a].startsAt) <
               (if ends.Some? then ends.value else t.auctions[a].endsAt)
            then
              var x := t.auctions[a];
              t.(auctions := t.auctions[a := x.(
                  startsAt := if starts.Some? then starts.value else x.startsAt,
                  endsAt := if ends.Some? then ends.value else x.endsAt,
                  reserve := if reserve.Some? then reserve else x.reserve)])
            else t
  {
  }

  // ---- From the draft on ----

  function WithStatus(t: Database, a: nat, status: AuctionStatus): Store
    requires a < |t.auctions|
  {
    t.(auctions := t.auctions[a := t.auctions[a].(status := status)])
  }

  predicate Publishable(t: Database, u: nat, a: nat) {
    && OwnDraft(t, u, a) && t.auctions[a].prices != []
    && t.now <= t.auctions[a].startsAt && t.auctions[a].endsAt - t.auctions[a].startsAt <= 24 * HOUR
  }

  /** An auction starts at once only if its start is at most half a minute away. */
  function Published(t: Database, a: nat): AuctionStatus
    requires a < |t.auctions|
  {
    if t.auctions[a].startsAt <= t.now + 30 * SECOND then AuctionStatus.Active else Scheduled
  }

  lemma PublishLaw(t: Database, u: nat, a: nat)
    ensures Step(t, ManageStep(Announce(u, a))) ==
            if Publishable(t, u, a) then WithStatus(t, a, Published(t, a)) else t
  {
  }

  /** After the activation sweep nothing due is left waiting, and nothing else has changed. */
  lemma ActivateLaw(t: Database)
    ensures var v := Step(t, ManageStep(ActivateDue));
            && v == t.(auctions := v.auctions) && |v.auctions| == |t.auctions|
            && (forall a | 0 <= a < |t.auctions| && v.auctions[a].status.Scheduled? :: v.now < v.auctions[a].startsAt)
            && forall a | 0 <= a < |t.auctions| ::
                 v.auctions[a] == if t.auctions[a].status.Scheduled? && t.auctions[a].startsAt <= t.now
                                  then t.auctions[a].(status := AuctionStatus.Active) else t.auctions[a]
  {
  }

  /** The end only moves forward, while the auction waits or runs, to within a day of the start. */
  lemma ExtendLaw(t: Database, u: nat, a: nat, ends: Time)
    ensures Step(t, ManageStep(Prolong(u, a, ends))) ==
            if && a < |t.auctions| && t.auctions[a].seller == u
               && (t.auctions[a].status.Active? || t.auctions[a].status.Scheduled?)
               && t.now < ends && t.auctions[a].endsAt < ends <= t.auctions[a].startsAt + 24 * HOUR
            then t.(auctions := t.auctions[a := t.auctions[a].(endsAt := ends)])
            else t
  {
  }

  lemma PointerMeansBids(s: Database, a: nat)
    requires Chained(s) && a < |s.auctions|
    ensures HasBids(s.bids, a) <==> s.auctions[a].highest.Some?
  {
    if s.auctions[a].highest.Some? {
      assert s.bids[s.auctions[a].highest.value].auction == a;
    } else {
      forall i | 0 <= i < |s.bids| ensures s.bids[i].auction != a {
        assert Leads(s, i);
      }
    }
  }

  lemma SellerCancelChanges(s: Database, u: nat, a: nat)
    requires Chained(s)
    ensures CancelAuction(s, u, a) ==
            if a < |s.auctions| && s.auctions[a].seller == u && s.auctions[a].highest.None?
            then WithStatus(s, a, AuctionStatus.Cancelled)
            else s
  {
    if a < |s.auctions| {
      PointerMeansBids(s, a);
    }
  }

  lemma SellerCancelIsStep(s: Database, u: nat, a: nat)
    ensures Step(s, ManageStep(SellerCancel(u, a))) == CancelAuction(s, u, a)
  {
  }

  /** A seller cancels their own auction as long as it never had a bid, whatever its status. */
  lemma SellerCancelLaw(t: Database, u: nat, a: nat)
    requires Reachable(t)
    ensures Step(t, ManageStep(SellerCancel(u, a))) ==
            if a < |t.auctions| && t.auctions[a].seller == u && t.auctions[a].highest.None?
            then WithStatus(t, a, AuctionStatus.Cancelled)
            else t
  {
    AlwaysChained(t);
    SellerCancelIsStep(t, u, a);
    SellerCancelChanges(t, u, a);
  }

  lemma AdminCancelLaw(t: Database, a: nat)
    ensures Step(t, ManageStep(AdminCancel(a))) ==
            if a < |t.auctions| then WithStatus(t, a, AuctionStatus.Cancelled) else t
  {
  }

  // ---- Claims ----

  lemma ScanLaw(t: Database, stale: set<nat>)
    ensures var v := Step(t, QueueStep(Scan(stale)));
            && v == t.(scanned := v.scanned)
            && forall a: nat :: a in v.scanned <==>
                 || a in t.scanned
                 || (a < |t.auctions| && t.auctions[a].status.Active? && t.auctions[a].endsAt <= t.now)
                 || (a < |t.auctions| && t.auctions[a].status.SettlementInProgress? && a in stale)
  {
  }

  lemma ClaimLaw(t: Database, a: nat)
    ensures var wins := a in t.scanned && a < |t.auctions| && t.auctions[a].status.Active?;
            && Step(t, QueueStep(Claim(a))) ==
               (if wins then WithStatus(t, a, SettlementInProgress).(settling := t.settling + {a}) else t)
            && Step(t, QueueStep(LostClaim(a))) == if wins then t.(settling := t.settling + {a}) else t
  {
  }

  // ---- Settlement ----

  /** A claimed auction that is neither settled, ended nor cancelled. */
  predicate AwaitsSettlement(t: Database, a: nat) {
    a in t.settling && a < |t.auctions| && (t.auctions[a].status.Active? || t.auctions[a].status.SettlementInProgress?)
  }

  /** The highest bid's money is in its bidder's locked bucket. */
  predicate Covered(t: Database, a: nat)
    requires a < |t.auctions| && t.auctions[a].highest.Some?
  {
    var b := t.bids[t.auctions[a].highest.value];
    b.amount <= t.wallets[b.bidder].locked
  }

  predicate Unreached(t: Database, a: nat)
    requires a < |t.auctions| && t.auctions[a].highest.Some?
  {
    t.auctions[a].reserve.Some? && t.bids[t.auctions[a].highest.value].amount < t.auctions[a].reserve.value
  }

  /** Every bid of the auction LOST, but for the winner, if there is one. */
  function Marked(bids: seq<Bid>, a: nat, winner: Option<nat>): (r: seq<Bid>)
    ensures |r| == |bids|
    ensures forall i | 0 <= i < |bids| ::
              r[i] == if bids[i].auction != a then bids[i]
                      else bids[i].(status := if winner == Some(i) then BidStatus.Won else BidStatus.Lost)
  {
    seq(|bids|, i requires 0 <= i < |bids| =>
      if bids[i].auction != a then bids[i]
      else bids[i].(status := if winner == Some(i) then BidStatus.Won else BidStatus.Lost))
  }

  /** Sold to the highest bidder: their locked money goes to escrow, and order and escrow say for whom. */
  function AfterSale(t: Database, a: nat): Store
    requires a < |t.auctions| && t.auctions[a].highest.Some?
  {
    var h := t.auctions[a].highest.value;
    var b := t.bids[h];
    var w := t.wallets[b.bidder];
    var o := |t.orders|;
    WithStatus(t, a, Settled).(
      bids := Marked(t.bids, a, Some(h)),
      wallets := t.wallets[b.bidder := Wallet(w.available, w.locked - b.amount, w.escrow + b.amount)],
      orders := t.orders +
        [Order(a, b.bidder, t.auctions[a].seller, b.amount, PendingShipment, t.now + t.shippingTime, None)],
      escrows := t.escrows +
        [Escrow(o, a, b.bidder, t.auctions[a].seller, b.amount, CommissionOf(b.amount), Holding, t.now + 48 * HOUR)],
      ledger := t.ledger +
        [Row(b.bidder, b.amount, EscrowMove, Debit, LockedBucket, OrderRef(o), EscrowHold,
             w.available, w.available, TransactionStatus.Completed, t.now)])
  }

  /** Ended unsold: every bid is LOST and the highest bidder has their money back. */
  function AfterMiss(t: Database, a: nat): Store
    requires a < |t.auctions| && t.auctions[a].highest.Some?
  {
    var h := t.auctions[a].highest.value;
    var b := t.bids[h];
    var w := t.wallets[b.bidder];
    WithStatus(t, a, EndedReserveNotMet).(
      bids := Marked(t.bids, a, None),
      wallets := t.wallets[b.bidder := Wallet(w.available + b.amount, w.locked - b.amount, w.escrow)],
      ledger := t.ledger +
        [Row(b.bidder, b.amount, BidUnlock, Credit, LockedBucket, BidRef(h), ReserveNotMetRefund,
             w.available, w.available + b.amount, TransactionStatus.Completed, t.now)])
  }

  function AfterDelivery(t: Database, a: nat): Store {
    if !AwaitsSettlement(t, a) then t
    else if t.auctions[a].highest.None? then WithStatus(t, a, EndedNoBids)
    else if Unreached(t, a) then t.(handling := t.handling + {a})
    else if Covered(t, a) then AfterSale(t, a)
    else t
  }

  lemma PendingMeans(s: Database, a: nat)
    requires Chained(s) && a in s.settling && a < |s.auctions|
    ensures AwaitsSettlement(s, a) <==> !Terminal(s.auctions[a].status)
    ensures AwaitsSettlement(s, a) ==> s.auctions[a].prices != []
  {
    assert AuctionFits(s, a);
  }

  lemma DeliveryChanges(s: Database, a: nat)
    requires Chained(s)
    ensures Settle(s, a) == AfterDelivery(s, a)
  {
    if a in s.settling && a < |s.auctions| {
      PendingMeans(s, a);
      PointerMeansBids(s, a);
      if s.auctions[a].highest.Some? {
        assert Marked(s.bids, a, s.auctions[a].highest) == CloseBids(s.bids, a, s.auctions[a].highest);
      }
    }
  }

  lemma SettleIsStep(s: Database, a: nat)
    ensures Step(s, SettleStep(a)) == Settle(s, a)
  {
  }

  lemma HandleIsStep(s: Database, a: nat)
    ensures Step(s, HandleStep(a)) == Handle(s, a)
  {
  }

  /**
   Main result: in every reachable state a delivered settlement message does this and nothing else. Without a bid
   the auction is ENDED_NO_BIDS; below the reserve only the handler is called; otherwise the highest bid wins if
   its money is there, and the task fails if it is not.
   */
  lemma SettlementLaw(t: Database, a: nat)
    requires Reachable(t)
    ensures Step(t, SettleStep(a)) == AfterDelivery(t, a)
  {
    AlwaysChained(t);
    SettleIsStep(t, a);
    DeliveryChanges(t, a);
  }

  predicate Missed(t: Database, a: nat) {
    && a in t.handling && a < |t.auctions| && t.auctions[a].highest.Some?
    && !t.auctions[a].status.EndedReserveNotMet? && Covered(t, a)
  }

  lemma MissChanges(s: Database, a: nat)
    requires Chained(s)
    ensures Handle(s, a) == if Missed(s, a) then AfterMiss(s, a) else s
  {
    if a in s.handling {
      assert AuctionFits(s, a);
      assert Marked(s.bids, a, None) == CloseBids(s.bids, a, None);
    }
  }

  /** And a reserve handler does this and nothing else, whatever has become of the auction. */
  lemma HandlerLaw(t: Database, a: nat)
    requires Reachable(t)
    ensures Step(t, HandleStep(a)) == if Missed(t, a) then AfterMiss(t, a) else t
  {
    AlwaysChained(t);
    HandleIsStep(t, a);
    MissChanges(t, a);
  }

  // ---- Answers ----

  /** What is wrong with changing a draft, if anything. */
  function DraftAnswer(t: Database, u: nat, a: nat): Option<Error> {
    if a >= |t.auctions| then Some(NotFound)
    else if t.auctions[a].seller != u then Some(PermissionDenied)
    else if !t.auctions[a].status.Draft? then Some(WrongStatus)
    else None
  }

  /** A refused publication, extension or cancellation is told the first reason that applies. */
  lemma ManageAnswers(t: Database, u: nat, a: nat, ends: Time)
    requires Reachable(t)
    ensures PublishError(t, u, a) ==
            if DraftAnswer(t, u, a).Some? then DraftAnswer(t, u, a)
            else if t.auctions[a].prices == [] then Some(NoItemsAttached)
            else if Publishable(t, u, a) then None
            else Some(InvalidRequest)
    ensures ExtendError(t, u, a, ends) ==
            if a >= |t.auctions| then Some(NotFound)
            else if t.auctions[a].seller != u then Some(PermissionDenied)
            else if t.auctions[a].status !in {AuctionStatus.Active, Scheduled} then Some(WrongStatus)
            else if t.now < ends && t.auctions[a].endsAt < ends <= t.auctions[a].startsAt + 24 * HOUR then None
            else Some(InvalidRequest)
    ensures CancelError(t, u, a) ==
            if a >= |t.auctions| then Some(NotFound)
            else if t.auctions[a].seller != u then Some(PermissionDenied)
            else if t.auctions[a].highest.Some? then Some(WrongStatus)
            else None
  {
    AlwaysChained(t);
    if a < |t.auctions| {
      PointerMeansBids(t, a);
    }
  }
}

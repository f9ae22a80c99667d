/** Settling ended auctions: scan, claim by compare-and-set, and the queued settlement task. */
module Settlement {
  import opened Domain
  import opened Bidding
  import opened Commissions

  const AUTO_RELEASE: Time := 48 * HOUR

  // ---- Scan and claim ----

  predicate Ended(s: Database, a: nat) {
    a < |s.auctions| && s.auctions[a].status.Active? && s.auctions[a].endsAt <= s.now
  }

  /**
   The ids a scan collects: ended auctions, and those of `stale` still in progress (`updated_at` is not
   modelled, so `stale` is whatever the clock makes of it).
   */
  function ScanAuctions(s: Database, stale: set<nat>): Database {
    var found := set a | 0 <= a < |s.auctions| &&
                           (Ended(s, a) || (a in stale && s.auctions[a].status.SettlementInProgress?));
    s.(scanned := s.scanned + found)
  }

  /** The conditional update's row count is one: the auction is still ACTIVE. Its end is not looked at again. */
  predicate Claims(s: Database, a: nat) {
    a in s.scanned && a < |s.auctions| && s.auctions[a].status.Active?
  }

  function ClaimAuction(s: Database, a: nat): Database {
    if !Claims(s, a) then s
    else s.(auctions := s.auctions[a := s.auctions[a].(status := SettlementInProgress)], settling := s.settling + {a})
  }

  /** The task is sent before the claim commits; here the commit is lost and only the message remains. */
  function LoseClaim(s: Database, a: nat): Database {
    if !Claims(s, a) then s else s.(settling := s.settling + {a})
  }

  // ---- The settlement task ----

  predicate Terminal(status: AuctionStatus) {
    || status.Settled? || status.EndedNoBids? || status.EndedReserveNotMet? || status.Cancelled?
    || status.SettlementFailed?
  }

  datatype Verdict = Skip | Abort | NoBids | ReserveNotMet | Sold

  function Judge(s: Database, a: nat): Verdict
    requires a < |s.auctions|
  {
    var auction := s.auctions[a];
    if Terminal(auction.status) then Skip
    else if !HasBids(s.bids, a) then NoBids
    else if auction.highest.None? then Abort
    else
      var bid := s.bids[auction.highest.value];
      if auction.reserve.Some? && auction.reserve.value > bid.amount then ReserveNotMet
      else if auction.prices == [] || bid.amount > s.wallets[bid.bidder].locked then Abort
      else Sold
  }

  /** What the loops over an auction's bids leave: the winner (if any) WON, every other bid LOST. */
  function Closed(b: Bid, i: nat, a: nat, winner: Option<nat>): Bid {
    if b.auction != a then b
    else b.(status := if winner == Some(i) then BidStatus.Won else BidStatus.Lost)
  }

  function CloseBids(bids: seq<Bid>, a: nat, winner: Option<nat>): (r: seq<Bid>)
    ensures |r| == |bids|
    ensures forall i | 0 <= i < |bids| :: r[i] == Closed(bids[i], i, a, winner)
  {
    seq(|bids|, i requires 0 <= i < |bids| => Closed(bids[i], i, a, winner))
  }

  function SetStatus(s: Database, a: nat, status: AuctionStatus): Database
    requires a < |s.auctions|
  {
    s.(auctions := s.auctions[a := s.auctions[a].(status := status)])
  }

  /** The highest bid's wallet holds the money to unlock. */
  predicate CanUnlock(s: Database, a: nat) {
    && a < |s.auctions| && s.auctions[a].highest.Some?
    && var bid := s.bids[s.auctions[a].highest.value]; bid.amount <= s.wallets[bid.bidder].locked
  }

  /** Reserve not met: every bid is LOST and the highest one's money is unlocked. */
  function CloseUnsold(s: Database, a: nat): Database
    requires CanUnlock(s, a)
  {
    var h := s.auctions[a].highest.value;
    var unlocked := WithReleasedBid(s, h, BidStatus.Lost, ReserveNotMetRefund, LockedBucket);
    SetStatus(unlocked, a, EndedReserveNotMet).(bids := CloseBids(s.bids, a, None))
  }

  /**
   The reserve handler's own transaction. Of the auction's status it only looks whether it has been here before:
   neither the reserve nor a sale nor a cancellation made since the judgement is looked at.
   */
  function HandleUnsold(s: Database, a: nat): Database {
    if a >= |s.auctions| || s.auctions[a].status.EndedReserveNotMet? then s
    else if s.auctions[a].highest.None? then SetStatus(s, a, EndedReserveNotMet).(bids := CloseBids(s.bids, a, None))
    else if CanUnlock(s, a) then CloseUnsold(s, a)
    else s
  }

  function OrderFor(s: Database, a: nat): Order
    requires a < |s.auctions| && Judge(s, a) == Sold
  {
    var bid := s.bids[s.auctions[a].highest.value];
    Order(a, bid.bidder, s.auctions[a].seller, bid.amount, PendingShipment, s.now + s.shippingTime, None)
  }

  function EscrowFor(s: Database, a: nat): Escrow
    requires a < |s.auctions| && Judge(s, a) == Sold
  {
    var bid := s.bids[s.auctions[a].highest.value];
    Escrow(|s.orders|, a, bid.bidder, s.auctions[a].seller, bid.amount, CommissionOf(bid.amount),
           Holding, s.now + AUTO_RELEASE)
  }

  function MoveRow(s: Database, a: nat): Row
    requires a < |s.auctions| && Judge(s, a) == Sold
  {
    var bid := s.bids[s.auctions[a].highest.value];
    var available := s.wallets[bid.bidder].available;
    Row(bid.bidder, bid.amount, EscrowMove, Debit, LockedBucket, OrderRef(|s.orders|), EscrowHold,
        available, available, TransactionStatus.Completed, s.now)
  }

  /** Sold: order and escrow are created and the winner's money goes from locked to escrow. */
  function CloseSold(s: Database, a: nat): Database
    requires a < |s.auctions| && Judge(s, a) == Sold
  {
    var h := s.auctions[a].highest.value;
    var bid := s.bids[h];
    var w := s.wallets[bid.bidder];
    s.(auctions := s.auctions[a := s.auctions[a].(status := Settled)],
       bids := CloseBids(s.bids, a, Some(h)),
       orders := s.orders + [OrderFor(s, a)],
       escrows := s.escrows + [EscrowFor(s, a)],
       wallets := s.wallets[bid.bidder := Wallet(w.available, w.locked - bid.amount, w.escrow + bid.amount)],
       ledger := s.ledger + [MoveRow(s, a)])
  }

  function Settle(s: Database, a: nat): Database {
    if a !in s.settling || a >= |s.auctions| then s
    else
      match Judge(s, a)
      case Skip => s
      case Abort => s
      case NoBids => SetStatus(s, a, EndedNoBids)
      case ReserveNotMet => s.(handling := s.handling + {a})
      case Sold => CloseSold(s, a)
  }

  /** The handler runs for an auction some delivery judged, whatever has happened since. */
  function Handle(s: Database, a: nat): Database {
    if a in s.handling then HandleUnsold(s, a) else s
  }

  /** The handler goes through and moves money. */
  predicate Handles(s: Database, a: nat) {
    a in s.handling && CanUnlock(s, a) && !s.auctions[a].status.EndedReserveNotMet?
  }

  /** A second judgement right after the first changes nothing more, whatever the first did. */
  lemma SettleTwice(s: Database, a: nat)
    ensures Settle(Settle(s, a), a) == Settle(s, a)
  {
    if a in s.settling && a < |s.auctions| && !Judge(s, a).ReserveNotMet? {
      assert Judge(s, a).Skip? || Settle(s, a) == s || Terminal(Settle(s, a).auctions[a].status);
    }
  }
}

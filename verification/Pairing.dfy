/**
 Locks and unlocks of bids. Every bid was locked once, and a bid that is RELEASED or LOST was unlocked once more
 than reserve handlers unlocked it again after an earlier one.
 */
module Pairing {
  import opened Domain
  import opened Ledgers
  import opened Bidding
  import opened Settlement
  import opened Protocol
  import opened History
  import opened BidChain
  import opened Books
  import opened Counting
  import opened Handling
  import opened Locks

  // ---- One lock per bid, in every run ----

  ghost predicate LockRowLinked(ledger: seq<Row>, b: nat, bid: Bid) {
    bid.lockRow.Some? && bid.lockRow.value < |ledger|
    && ledger[bid.lockRow.value].kind.BidLock? && ledger[bid.lockRow.value].ref == BidRef(b)
  }

  /** One lock row speaks of the bid, and the bid links to it. */
  ghost predicate LockedOnce(ledger: seq<Row>, b: nat, bid: Bid) {
    Count(LocksOf, ledger, b) == 1 && LockRowLinked(ledger, b, bid)
  }

  ghost predicate AllLocked(s: Database) {
    forall b | 0 <= b < |s.bids| :: LockedOnce(s.ledger, b, s.bids[b])
  }

  lemma NewBidLocked(s: Database, bidder: nat, a: nat, amount: Kobo)
    requires AllLocked(s) && Referenced(s)
    requires a < |s.auctions| && bidder < |s.users| && 0 < amount <= s.wallets[bidder].available
    ensures AllLocked(WithNewBid(s, bidder, a, amount))
  {
    var t := WithNewBid(s, bidder, a, amount);
    Unmentioned(s, LocksOf, |s.bids|);
    forall b | 0 <= b < |t.bids| ensures LockedOnce(t.ledger, b, t.bids[b]) {
      CountAppend(LocksOf, s.ledger, LockRow(s, bidder, amount), b);
      assert b < |s.bids| ==> LockedOnce(s.ledger, b, s.bids[b]);
    }
  }

  lemma ReleasedBidLocked(s: Database, h: nat, status: BidStatus, note: Note, bucket: Bucket)
    requires AllLocked(s) && h < |s.bids| && s.bids[h].amount <= s.wallets[s.bids[h].bidder].locked
    ensures AllLocked(WithReleasedBid(s, h, status, note, bucket))
  {
    var t := WithReleasedBid(s, h, status, note, bucket);
    forall b | 0 <= b < |t.bids| ensures LockedOnce(t.ledger, b, t.bids[b]) {
      CountAppend(LocksOf, s.ledger, UnlockRow(s, h, note, bucket), b);
      assert LockedOnce(s.ledger, b, s.bids[b]);
    }
  }

  lemma BidAllLocked(s: Database, bidder: nat, a: nat, amount: Kobo)
    requires AllLocked(s) && Referenced(s)
    ensures AllLocked(PlaceBid(s, bidder, a, amount))
  {
    if Bids(s, bidder, a, amount) {
      NewBidLocked(s, bidder, a, amount);
      var h := HighestBid(s.bids, a);
      if h.Some? {
        ReleasedBidLocked(WithNewBid(s, bidder, a, amount), h.value, BidStatus.Released, OutbidRefund, AvailableBucket);
      }
    }
  }

  lemma StillLocked(s: Database, t: Database)
    requires AllLocked(s) && Extends(s, t) && |t.bids| == |s.bids|
    requires forall i | |s.ledger| <= i < |t.ledger| :: !t.ledger[i].kind.BidLock?
    ensures AllLocked(t)
  {
    forall b | 0 <= b < |t.bids| ensures LockedOnce(t.ledger, b, t.bids[b]) {
      assert LockedOnce(s.ledger, b, s.bids[b]) && SameBid(s.bids[b], t.bids[b]);
      SameCount(LocksOf, s.ledger, t.ledger, b);
    }
  }

  lemma NoNewLocks(s: Database, e: Event)
    requires !e.BidStep?
    ensures |Step(s, e).bids| == |s.bids|
    ensures forall i | |s.ledger| <= i < |Step(s, e).ledger| :: !Step(s, e).ledger[i].kind.BidLock?
  {
    match e {
      case SettleStep(a) =>
        SettleFields(s, a);
        SettleRows(s, a);
      case HandleStep(a) =>
        HandleFields(s, a);
        HandleRows(s, a);
      case PayStep(x) =>
        PayFrame(s, x);
        PayRows(s, x);
      case CloseStep(x) =>
        CloseFrame(s, x);
        CloseRows(s, x);
      case _ => QuietStep(s, e);
    }
  }

  lemma StepAllLocked(s: Database, e: Event)
    requires AllLocked(s) && Referenced(s)
    ensures AllLocked(Step(s, e))
  {
    match e {
      case BidStep(u, a, amount) => BidAllLocked(s, u, a, amount);
      case _ =>
        StepExtends(s, e);
        NoNewLocks(s, e);
        StillLocked(s, Step(s, e));
    }
  }

  lemma {:induction false} RunAllLocked(s: Database, es: seq<Event>)
    requires Fresh(s)
    ensures AllLocked(Run(s, es))
  {
    if es == [] {
    } else {
      RunAllLocked(s, es[..|es| - 1]);
      RunBooks(s, es[..|es| - 1]);
      StepAllLocked(Run(s, es[..|es| - 1]), es[|es| - 1]);
    }
  }

  /** Main result, with no side condition: every bid was locked by one row of the ledger, the one it links to. */
  lemma AlwaysLockedOnce(t: Database)
    requires Reachable(t)
    ensures AllLocked(t)
  {
    var s, es :| ReachedBy(t, s, es);
    RunAllLocked(s, es);
  }

  // ---- Unlocks ----

  ghost predicate Returned(status: BidStatus) {
    status.Released? || status.Lost?
  }

  /** Unlocks of the bid beyond the one a RELEASED or LOST bid should have. */
  ghost function Extra(s: Database, b: nat): int {
    Count(UnlocksOf, s.ledger, b) - if b < |s.bids| && Returned(s.bids[b].status) then 1 else 0
  }

  /** A handler unlocks the money of a bid that an earlier handler unlocked. */
  ghost function Again(s: Database, e: Event, b: nat): nat {
    if FindsLost(s, e) && s.auctions[e.auction].highest == Some(b) then 1 else 0
  }

  lemma NewBidExtra(s: Database, bidder: nat, a: nat, amount: Kobo, b: nat)
    requires Referenced(s)
    requires a < |s.auctions| && bidder < |s.users| && 0 < amount <= s.wallets[bidder].available
    ensures Extra(WithNewBid(s, bidder, a, amount), b) == Extra(s, b)
  {
    CountAppend(UnlocksOf, s.ledger, LockRow(s, bidder, amount), b);
  }

  lemma UnlockExtra(s: Database, h: nat, status: BidStatus, note: Note, bucket: Bucket, b: nat)
    requires h < |s.bids| && s.bids[h].amount <= s.wallets[s.bids[h].bidder].locked && Returned(status)
    ensures Extra(WithReleasedBid(s, h, status, note, bucket), b) ==
            Extra(s, b) + if b == h && Returned(s.bids[h].status) then 1 else 0
  {
    CountAppend(UnlocksOf, s.ledger, UnlockRow(s, h, note, bucket), b);
  }

  lemma LeaderActive(s: Database, a: nat)
    requires Chained(s) && a < |s.auctions| && s.auctions[a].status.Active?
    ensures HighestBid(s.bids, a).Some? ==> s.bids[HighestBid(s.bids, a).value].status.Active?
  {
    HighestIsLeader(s, a);
    if HighestBid(s.bids, a).Some? {
      assert StatusFits(s, HighestBid(s.bids, a).value);
    }
  }

  lemma BidExtra(s: Database, bidder: nat, a: nat, amount: Kobo, b: nat)
    requires Chained(s) && Referenced(s)
    ensures Extra(PlaceBid(s, bidder, a, amount), b) == Extra(s, b)
  {
    if Bids(s, bidder, a, amount) {
      NewBidExtra(s, bidder, a, amount, b);
      LeaderActive(s, a);
      var h := HighestBid(s.bids, a);
      if h.Some? {
        UnlockExtra(WithNewBid(s, bidder, a, amount), h.value, BidStatus.Released, OutbidRefund, AvailableBucket, b);
      }
    }
  }

  /** Rows that are no unlocks, and statuses of the same kind. */
  lemma StillExtra(s: Database, t: Database, b: nat)
    requires Extends(s, t) && |t.bids| == |s.bids|
    requires b < |s.bids| ==> (Returned(t.bids[b].status) <==> Returned(s.bids[b].status))
    requires forall i | |s.ledger| <= i < |t.ledger| :: !t.ledger[i].kind.BidUnlock?
    ensures Extra(t, b) == Extra(s, b)
  {
    SameCount(UnlocksOf, s.ledger, t.ledger, b);
  }

  /** When a handler goes through, every bid of the auction but the highest is RELEASED or LOST already. */
  lemma OthersReturned(s: Database, a: nat, b: nat)
    requires Chained(s) && Handles(s, a) && b < |s.bids| && s.bids[b].auction == a && s.auctions[a].highest != Some(b)
    ensures Returned(s.bids[b].status)
  {
    assert StatusFits(s, b) && Leads(s, b) && AuctionFits(s, a) && StatusFits(s, s.auctions[a].highest.value);
  }

  /** Closing an unsold auction's bids after the unlock: statuses only, and none changes its kind. */
  lemma UnsoldAfterUnlock(s: Database, a: nat)
    requires Chained(s) && Handles(s, a)
    ensures var h := s.auctions[a].highest.value;
            var unlocked := WithReleasedBid(s, h, BidStatus.Lost, ReserveNotMetRefund, LockedBucket);
            var t := Handle(s, a);
            && Extends(unlocked, t) && |t.bids| == |unlocked.bids| && t.ledger == unlocked.ledger
            && forall b | 0 <= b < |t.bids| :: Returned(t.bids[b].status) <==> Returned(unlocked.bids[b].status)
  {
    var t := Handle(s, a);
    var h := s.auctions[a].highest.value;
    var unlocked := WithReleasedBid(s, h, BidStatus.Lost, ReserveNotMetRefund, LockedBucket);
    forall b | 0 <= b < |s.bids|
      ensures Returned(t.bids[b].status) <==> Returned(unlocked.bids[b].status)
      ensures SameBid(unlocked.bids[b], t.bids[b])
    {
      if s.bids[b].auction == a && b != h {
        OthersReturned(s, a, b);
      }
    }
  }

  lemma HandleExtra(s: Database, a: nat, b: nat)
    requires Chained(s)
    ensures Extra(Handle(s, a), b) == Extra(s, b) + Again(s, HandleStep(a), b)
  {
    if Handles(s, a) {
      UnsoldAfterUnlock(s, a);
      var h := s.auctions[a].highest.value;
      assert StatusFits(s, h);
      UnlockExtra(s, h, BidStatus.Lost, ReserveNotMetRefund, LockedBucket, b);
      StillExtra(WithReleasedBid(s, h, BidStatus.Lost, ReserveNotMetRefund, LockedBucket), Handle(s, a), b);
    } else {
      HandleRefused(s, a);
    }
  }

  lemma SettleReturns(s: Database, a: nat, b: nat)
    requires Chained(s) && b < |s.bids|
    ensures b < |Settle(s, a).bids|
    ensures Returned(Settle(s, a).bids[b].status) <==> Returned(s.bids[b].status)
  {
    if a in s.settling && a < |s.auctions| {
      JudgeFields(s, a);
      assert StatusFits(s, b);
    }
  }

  lemma SettleExtra(s: Database, a: nat, b: nat)
    requires Chained(s)
    ensures Extra(Settle(s, a), b) == Extra(s, b)
  {
    SettleExtends(s, a);
    SettleFields(s, a);
    SettleRows(s, a);
    if b < |s.bids| {
      SettleReturns(s, a, b);
    }
    StillExtra(s, Settle(s, a), b);
  }

  lemma PayExtra(s: Database, e: PayEvent, b: nat)
    ensures Extra(DoPay(s, e), b) == Extra(s, b)
  {
    PayExtends(s, e);
    PayFrame(s, e);
    PayRows(s, e);
    StillExtra(s, DoPay(s, e), b);
  }

  lemma CloseExtra(s: Database, e: CloseEvent, b: nat)
    ensures Extra(DoClose(s, e), b) == Extra(s, b)
  {
    CloseExtends(s, e);
    CloseFrame(s, e);
    CloseRows(s, e);
    StillExtra(s, DoClose(s, e), b);
  }

  lemma QuietExtra(s: Database, e: Event, b: nat)
    requires !MovesMoney(e)
    ensures Extra(Step(s, e), b) == Extra(s, b)
  {
    StepExtends(s, e);
    QuietStep(s, e);
    StillExtra(s, Step(s, e), b);
  }

  /** Exact accounting: only a handler that finds its bid closed before adds an unlock too many. */
  lemma StepExtra(s: Database, e: Event, b: nat)
    requires Chained(s) && Referenced(s)
    ensures Extra(Step(s, e), b) == Extra(s, b) + Again(s, e, b)
  {
    match e {
      case BidStep(u, a, amount) => BidExtra(s, u, a, amount, b);
      case SettleStep(a) => SettleExtra(s, a, b);
      case HandleStep(a) => HandleExtra(s, a, b);
      case PayStep(x) => PayExtra(s, x, b);
      case CloseStep(x) => CloseExtra(s, x, b);
      case _ => QuietExtra(s, e, b);
    }
  }

  ghost function AgainInRun(s: Database, es: seq<Event>, b: nat): nat {
    if es == [] then 0
    else AgainInRun(s, es[..|es| - 1], b) + Again(Run(s, es[..|es| - 1]), es[|es| - 1], b)
  }

  /**
   Main result, with no side condition: over any run a bid has one unlock if it is RELEASED or LOST, none if it is
   ACTIVE or WON, and one more for every handler that found it closed before.
   */
  lemma {:induction false} RunUnlocks(s: Database, es: seq<Event>, b: nat)
    requires Fresh(s)
    ensures Extra(Run(s, es), b) == AgainInRun(s, es, b)
  {
    if es == [] {
    } else {
      var before := es[..|es| - 1];
      RunUnlocks(s, before, b);
      RunChained(s, before);
      RunBooks(s, before);
      StepExtra(Run(s, before), es[|es| - 1], b);
    }
  }

  // ---- When every lock is answered once ----

  /** One lock per bid; one unlock once it is RELEASED or LOST, none while it is ACTIVE or WON. */
  ghost predicate BidsPaired(s: Database) {
    && AllLocked(s)
    && forall b | 0 <= b < |s.bids| :: Count(UnlocksOf, s.ledger, b) == if Returned(s.bids[b].status) then 1 else 0
  }

  lemma PairedMeansNoExtra(s: Database, b: nat)
    requires BidsPaired(s) && b < |s.bids|
    ensures Extra(s, b) == 0
  {
  }

  lemma NoExtraMeansPaired(s: Database)
    requires AllLocked(s) && forall b | 0 <= b < |s.bids| :: Extra(s, b) == 0
    ensures BidsPaired(s)
  {
    forall b | 0 <= b < |s.bids|
      ensures Count(UnlocksOf, s.ledger, b) == if Returned(s.bids[b].status) then 1 else 0
    {
      assert Extra(s, b) == 0;
    }
  }

  lemma ClosedAgain(s: Database, a: nat)
    requires Chained(s) && BidsPaired(s) && FindsLost(s, HandleStep(a))
    ensures !BidsPaired(Handle(s, a))
  {
    var h := s.auctions[a].highest.value;
    HandleFields(s, a);
    HandleExtra(s, a, h);
    PairedMeansNoExtra(s, h);
    if BidsPaired(Handle(s, a)) {
      PairedMeansNoExtra(Handle(s, a), h);
    }
  }

  lemma ClosedOnce(s: Database, a: nat)
    requires Chained(s) && Referenced(s) && BidsPaired(s) && !FindsLost(s, HandleStep(a))
    ensures BidsPaired(Handle(s, a))
  {
    HandleFields(s, a);
    HandleExtends(s, a);
    HandleRows(s, a);
    StillLocked(s, Handle(s, a));
    forall b | 0 <= b < |Handle(s, a).bids| ensures Extra(Handle(s, a), b) == 0 {
      PairedMeansNoExtra(s, b);
      HandleExtra(s, a, b);
    }
    NoExtraMeansPaired(Handle(s, a));
  }

  /** Main result: the handler keeps locks and unlocks paired if and only if no earlier handler closed its bid. */
  lemma HandleKeepsPairing(t: Database, a: nat)
    requires Reachable(t) && BidsPaired(t)
    ensures BidsPaired(Handle(t, a)) <==> !FindsLost(t, HandleStep(a))
  {
    AlwaysChained(t);
    AlwaysBalanced(t);
    if FindsLost(t, HandleStep(a)) {
      ClosedAgain(t, a);
    } else {
      ClosedOnce(t, a);
    }
  }

  ghost predicate FindsLostAfter(s: Database, es: seq<Event>, e: Event) {
    FindsLost(Run(s, es), e)
  }

  /** No handler of the run finds its bid closed by an earlier one. */
  ghost predicate ClosesOnce(s: Database, es: seq<Event>) {
    es == [] || (ClosesOnce(s, es[..|es| - 1]) && !FindsLostAfter(s, es[..|es| - 1], es[|es| - 1]))
  }

  lemma {:induction false} OnceAddsNothing(s: Database, es: seq<Event>, b: nat)
    requires ClosesOnce(s, es)
    ensures AgainInRun(s, es, b) == 0
  {
    if es == [] {
    } else {
      OnceAddsNothing(s, es[..|es| - 1], b);
    }
  }

  lemma {:induction false} TwiceAdds(s: Database, es: seq<Event>) returns (b: nat)
    requires !ClosesOnce(s, es)
    ensures b < |Run(s, es).bids| && AgainInRun(s, es, b) > 0
  {
    var before, e := es[..|es| - 1], es[|es| - 1];
    StepExtends(Run(s, before), e);
    if ClosesOnce(s, before) {
      b := Run(s, before).auctions[e.auction].highest.value;
    } else {
      b := TwiceAdds(s, before);
    }
  }

  lemma OncePairs(s: Database, es: seq<Event>)
    requires Fresh(s) && ClosesOnce(s, es)
    ensures BidsPaired(Run(s, es))
  {
    RunAllLocked(s, es);
    forall b | 0 <= b < |Run(s, es).bids| ensures Extra(Run(s, es), b) == 0 {
      RunUnlocks(s, es, b);
      OnceAddsNothing(s, es, b);
    }
    NoExtraMeansPaired(Run(s, es));
  }

  lemma TwiceBreaksPairing(s: Database, es: seq<Event>)
    requires Fresh(s) && !ClosesOnce(s, es)
    ensures !BidsPaired(Run(s, es))
  {
    var b := TwiceAdds(s, es);
    RunUnlocks(s, es, b);
    if BidsPaired(Run(s, es)) {
      PairedMeansNoExtra(Run(s, es), b);
    }
  }

  /** Main result: every lock is answered as its bid's status says if and only if no handler closed a bid twice. */
  lemma PairedIffClosedOnce(s: Database, es: seq<Event>)
    requires Fresh(s)
    ensures BidsPaired(Run(s, es)) <==> ClosesOnce(s, es)
  {
    if ClosesOnce(s, es) {
      OncePairs(s, es);
    } else {
      TwiceBreaksPairing(s, es);
    }
  }
}

/**
 Locked funds against bids. A user's locked bucket is the money of their ACTIVE bids, over all auctions, short of
 exactly what late reserve handlers unlocked for bids no longer ACTIVE.
 */
module Locks {
  import opened Domain
  import opened Tallies
  import opened Bidding
  import opened Settlement
  import opened Orders
  import opened Payments
  import opened Protocol
  import opened History
  import opened BidChain
  import opened Handling

  function LockEntry(b: Bid): Entry {
    if b.status.Active? then Entry(b.bidder, b.amount) else NOTHING
  }

  function LockEntries(bids: seq<Bid>): (es: seq<Entry>)
    ensures |es| == |bids| && forall i | 0 <= i < |bids| :: es[i] == LockEntry(bids[i])
  {
    seq(|bids|, i requires 0 <= i < |bids| => LockEntry(bids[i]))
  }

  /** The sum of the amounts of the user's ACTIVE bids. */
  function ActiveTotal(bids: seq<Bid>, user: nat): int {
    Tally(LockEntries(bids), user)
  }

  ghost predicate LocksAgree(s: Database) {
    forall u | 0 <= u < |s.users| :: s.wallets[u].locked == ActiveTotal(s.bids, u)
  }

  /** What the user's ACTIVE bids exceed their locked bucket by. */
  function Unbacked(s: Database, u: nat): int {
    ActiveTotal(s.bids, u) - if u < |s.users| then s.wallets[u].locked else 0
  }

  // ---- Bids ----

  lemma NewBidLocks(s: Database, bidder: nat, a: nat, amount: Kobo, u: nat)
    requires a < |s.auctions| && bidder < |s.users| && 0 < amount <= s.wallets[bidder].available
    ensures Unbacked(WithNewBid(s, bidder, a, amount), u) == Unbacked(s, u)
  {
    var t := WithNewBid(s, bidder, a, amount);
    var bid := t.bids[|s.bids|];
    assert LockEntries(t.bids) == LockEntries(s.bids) + [LockEntry(bid)];
    TallyAppend(LockEntries(s.bids), LockEntry(bid), u);
  }

  lemma ReleasedBidLocks(s: Database, b: nat, status: BidStatus, note: Note, bucket: Bucket, u: nat)
    requires b < |s.bids| && s.bids[b].amount <= s.wallets[s.bids[b].bidder].locked
    requires s.bids[b].status.Active? && !status.Active?
    ensures Unbacked(WithReleasedBid(s, b, status, note, bucket), u) == Unbacked(s, u)
  {
    var t := WithReleasedBid(s, b, status, note, bucket);
    assert BidOk(s.bids[b], |s.users|, |s.auctions|);
    assert LockEntries(t.bids) == LockEntries(s.bids)[b := NOTHING];
    TallyUpdate(LockEntries(s.bids), b, NOTHING, u);
  }

  lemma BidLocks(s: Database, bidder: nat, a: nat, amount: Kobo, u: nat)
    requires Chained(s)
    ensures Unbacked(PlaceBid(s, bidder, a, amount), u) == Unbacked(s, u)
  {
    if Bids(s, bidder, a, amount) {
      NewBidLocks(s, bidder, a, amount, u);
      HighestIsLeader(s, a);
      var h := HighestBid(s.bids, a);
      if h.Some? {
        assert StatusFits(s, h.value);
        var placed := WithNewBid(s, bidder, a, amount);
        ReleasedBidLocks(placed, h.value, BidStatus.Released, OutbidRefund, AvailableBucket, u);
      }
    }
  }

  // ---- Closing an auction ----

  /** Closing an auction's bids takes only its highest bid out of the locked sum: no other is still ACTIVE. */
  lemma ClosedEntries(s: Database, a: nat, winner: Option<nat>)
    requires Chained(s) && a < |s.auctions| && s.auctions[a].highest.Some?
    ensures LockEntries(CloseBids(s.bids, a, winner)) == LockEntries(s.bids)[s.auctions[a].highest.value := NOTHING]
  {
    var h := s.auctions[a].highest.value;
    assert s.bids[h].auction == a;
    forall i | 0 <= i < |s.bids|
      ensures LockEntry(CloseBids(s.bids, a, winner)[i]) == if i == h then NOTHING else LockEntry(s.bids[i])
    {
      if s.bids[i].auction == a && i != h {
        OthersInactive(s, a, i);
      }
    }
  }

  lemma SoldLocks(s: Database, a: nat, u: nat)
    requires Chained(s) && a < |s.auctions| && a in s.settling && Judge(s, a) == Verdict.Sold
    ensures Unbacked(CloseSold(s, a), u) == Unbacked(s, u)
  {
    var h := s.auctions[a].highest.value;
    JudgeFields(s, a);
    ClosedEntries(s, a, Some(h));
    assert BidOk(s.bids[h], |s.users|, |s.auctions|);
    TallyUpdate(LockEntries(s.bids), h, NOTHING, u);
  }

  lemma SettleLocks(s: Database, a: nat, u: nat)
    requires Chained(s)
    ensures Unbacked(Settle(s, a), u) == Unbacked(s, u)
  {
    if a in s.settling && a < |s.auctions| && Judge(s, a) == Verdict.Sold {
      SoldLocks(s, a, u);
    }
  }

  /** What the event unlocks for a bid of the user that is not ACTIVE any more. */
  function Misfired(s: Database, e: Event, u: nat): Kobo {
    if e.HandleStep? && Handles(s, e.auction) then
      var b := s.bids[s.auctions[e.auction].highest.value];
      if b.bidder == u && !b.status.Active? then b.amount else 0
    else 0
  }

  lemma HandleRefused(s: Database, a: nat)
    requires Chained(s) && !Handles(s, a)
    ensures Handle(s, a) == s
  {
    if a in s.handling {
      assert AuctionFits(s, a);
    }
  }

  lemma HandleLocks(s: Database, a: nat, u: nat)
    requires Chained(s)
    ensures Unbacked(Handle(s, a), u) == Unbacked(s, u) + Misfired(s, HandleStep(a), u)
  {
    if Handles(s, a) {
      var h := s.auctions[a].highest.value;
      ClosedEntries(s, a, None);
      assert BidOk(s.bids[h], |s.users|, |s.auctions|);
      TallyUpdate(LockEntries(s.bids), h, NOTHING, u);
    } else {
      HandleRefused(s, a);
    }
  }

  // ---- Other events ----

  lemma PayKeepsLocked(s: Database, e: PayEvent)
    ensures forall u | 0 <= u < |s.users| :: DoPay(s, e).wallets[u].locked == s.wallets[u].locked
  {
  }

  lemma CloseKeepsLocked(s: Database, e: CloseEvent)
    ensures forall u | 0 <= u < |s.users| :: DoClose(s, e).wallets[u].locked == s.wallets[u].locked
  {
  }

  lemma PayLocks(s: Database, e: PayEvent, u: nat)
    ensures Unbacked(DoPay(s, e), u) == Unbacked(s, u)
  {
    PayFrame(s, e);
    PayKeepsLocked(s, e);
  }

  lemma CloseLocks(s: Database, e: CloseEvent, u: nat)
    ensures Unbacked(DoClose(s, e), u) == Unbacked(s, u)
  {
    CloseFrame(s, e);
    CloseKeepsLocked(s, e);
  }

  lemma QuietLocks(s: Database, e: Event, u: nat)
    requires !MovesMoney(e)
    ensures Unbacked(Step(s, e), u) == Unbacked(s, u)
  {
    QuietStep(s, e);
  }

  // ---- Every event, every run ----

  /** Exact accounting: only a late handler changes what anybody's ACTIVE bids exceed their locked bucket by. */
  lemma StepLocks(s: Database, e: Event, u: nat)
    requires Chained(s)
    ensures Unbacked(Step(s, e), u) == Unbacked(s, u) + Misfired(s, e, u)
  {
    match e {
      case PayStep(x) => PayLocks(s, x, u);
      case BidStep(bidder, a, amount) => BidLocks(s, bidder, a, amount, u);
      case SettleStep(a) => SettleLocks(s, a, u);
      case HandleStep(a) => HandleLocks(s, a, u);
      case CloseStep(x) => CloseLocks(s, x, u);
      case _ => QuietLocks(s, e, u);
    }
  }

  function MisfiredInRun(s: Database, es: seq<Event>, u: nat): Kobo {
    if es == [] then 0
    else MisfiredInRun(s, es[..|es| - 1], u) + Misfired(Run(s, es[..|es| - 1]), es[|es| - 1], u)
  }

  lemma MisfiredSigned(s: Database, e: Event, u: nat)
    ensures Misfired(s, e, u) >= 0
    ensures Misfired(s, e, u) > 0 ==> !Timely(s, e)
  {
    if e.HandleStep? && Handles(s, e.auction) {
      assert BidOk(s.bids[s.auctions[e.auction].highest.value], |s.users|, |s.auctions|);
    }
  }

  /** With no side condition: a user's ACTIVE bids exceed their locked bucket by exactly the late unlocks. */
  lemma {:induction false} RunLocks(s: Database, es: seq<Event>, u: nat)
    requires Fresh(s)
    ensures Unbacked(Run(s, es), u) == MisfiredInRun(s, es, u) >= 0
  {
    if es == [] {
    } else {
      var before := es[..|es| - 1];
      RunLocks(s, before, u);
      RunChained(s, before);
      StepLocks(Run(s, before), es[|es| - 1], u);
      MisfiredSigned(Run(s, before), es[|es| - 1], u);
    }
  }

  /** Main result, with no side condition: nobody's locked bucket holds more than their ACTIVE bids. */
  lemma NeverOverlocked(t: Database, u: nat)
    requires Reachable(t) && u < |t.users|
    ensures t.wallets[u].locked <= ActiveTotal(t.bids, u)
  {
    var s, es :| ReachedBy(t, s, es);
    RunLocks(s, es, u);
  }

  // ---- The side condition is exact ----

  lemma {:induction false} TimelyMisfiresNothing(s: Database, es: seq<Event>, u: nat)
    requires TimelyRun(s, es)
    ensures MisfiredInRun(s, es, u) == 0
  {
    if es == [] {
    } else {
      TimelyMisfiresNothing(s, es[..|es| - 1], u);
      MisfiredSigned(Run(s, es[..|es| - 1]), es[|es| - 1], u);
    }
  }

  lemma LateMisfires(s: Database, e: Event) returns (u: nat)
    requires !Timely(s, e)
    ensures u < |s.users| && Misfired(s, e, u) > 0
  {
    var b := s.bids[s.auctions[e.auction].highest.value];
    assert BidOk(b, |s.users|, |s.auctions|);
    u := b.bidder;
  }

  lemma {:induction false} UntimelyMisfires(s: Database, es: seq<Event>) returns (u: nat)
    requires Fresh(s) && !TimelyRun(s, es)
    ensures u < |Run(s, es).users| && MisfiredInRun(s, es, u) > 0
  {
    var before, e := es[..|es| - 1], es[|es| - 1];
    StepExtends(Run(s, before), e);
    if !TimelyRun(s, before) {
      u := UntimelyMisfires(s, before);
      MisfiredSigned(Run(s, before), e, u);
    } else {
      u := LateMisfires(Run(s, before), e);
      RunLocks(s, before, u);
    }
  }

  lemma BackedAgrees(s: Database)
    requires forall u: nat :: Unbacked(s, u) == 0
    ensures LocksAgree(s)
  {
    forall u | 0 <= u < |s.users| ensures s.wallets[u].locked == ActiveTotal(s.bids, u) {
      assert Unbacked(s, u) == 0;
    }
  }

  lemma TimelyBacked(s: Database, es: seq<Event>, u: nat)
    requires Fresh(s) && TimelyRun(s, es)
    ensures Unbacked(Run(s, es), u) == 0
  {
    RunLocks(s, es, u);
    TimelyMisfiresNothing(s, es, u);
  }

  lemma TimelyAgrees(t: Database, s: Database, es: seq<Event>)
    requires TimelyBy(t, s, es)
    ensures LocksAgree(t)
  {
    forall u: nat ensures Unbacked(t, u) == 0 {
      TimelyBacked(s, es, u);
    }
    BackedAgrees(t);
  }

  lemma UntimelyDisagrees(s: Database, es: seq<Event>)
    requires Fresh(s) && !TimelyRun(s, es)
    ensures !LocksAgree(Run(s, es))
  {
    var u := UntimelyMisfires(s, es);
    RunLocks(s, es, u);
  }

  /** Main result: locked funds are the ACTIVE bids if and only if every handler of the run came in time. */
  lemma LocksAgreeIffTimely(s: Database, es: seq<Event>)
    requires Fresh(s)
    ensures LocksAgree(Run(s, es)) <==> TimelyRun(s, es)
  {
    if TimelyRun(s, es) {
      TimelyAgrees(Run(s, es), s, es);
    } else {
      UntimelyDisagrees(s, es);
    }
  }

  lemma AlwaysLocked(t: Database)
    requires ReachableTimely(t)
    ensures LocksAgree(t)
  {
    var s, es :| TimelyBy(t, s, es);
    TimelyAgrees(t, s, es);
  }

  // ---- Settlement finds what it needs ----

  lemma ActiveBidIsLocked(s: Database, b: nat)
    requires LocksAgree(s) && b < |s.bids| && s.bids[b].status.Active?
    ensures s.bids[b].amount <= s.wallets[s.bids[b].bidder].locked
  {
    assert BidOk(s.bids[b], |s.users|, |s.auctions|);
    forall k | 0 <= k < |s.bids| ensures LockEntries(s.bids)[k].value >= 0 {
      assert BidOk(s.bids[k], |s.users|, |s.auctions|);
    }
    TallyAtLeast(LockEntries(s.bids), b, s.bids[b].bidder);
  }

  /** So a queued settlement never fails for want of locked money: a claimed auction always reaches a verdict. */
  lemma SettlementNeverAborts(t: Database, a: nat)
    requires ReachableTimely(t) && a in t.settling
    ensures a < |t.auctions| && Judge(t, a) != Abort
  {
    TimelyIsReachable(t);
    AlwaysChained(t);
    AlwaysLocked(t);
    JudgeFields(t, a);
    if Judge(t, a) == Abort {
      ActiveBidIsLocked(t, t.auctions[a].highest.value);
    }
  }

  lemma AbortMeans(s: Database, a: nat)
    requires Chained(s) && a in s.settling && a < |s.auctions|
    ensures Judge(s, a) == Abort <==>
              && !Terminal(s.auctions[a].status) && s.auctions[a].highest.Some?
              && var bid := s.bids[s.auctions[a].highest.value];
                 && (s.auctions[a].reserve.Some? ==> s.auctions[a].reserve.value <= bid.amount)
                 && bid.amount > s.wallets[bid.bidder].locked
  {
    JudgeFields(s, a);
    assert AuctionFits(s, a);
    if s.auctions[a].highest.Some? {
      assert s.bids[s.auctions[a].highest.value].auction == a;
    }
  }

  /**
   With no side condition: the settlement of a claimed auction aborts exactly if the auction is still open, its
   highest bid meets the reserve, and the bidder's locked bucket is short of it.
   */
  lemma AbortsIfShort(t: Database, a: nat)
    requires Reachable(t) && a in t.settling && a < |t.auctions|
    ensures Judge(t, a) == Abort <==>
              && !Terminal(t.auctions[a].status) && t.auctions[a].highest.Some?
              && var bid := t.bids[t.auctions[a].highest.value];
                 && (t.auctions[a].reserve.Some? ==> t.auctions[a].reserve.value <= bid.amount)
                 && bid.amount > t.wallets[bid.bidder].locked
  {
    AlwaysChained(t);
    AbortMeans(t, a);
  }
}

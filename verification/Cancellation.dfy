/** What an administrator's cancellation does to the money of the highest bid. */
module Cancellation {
  import opened Domain
  import opened Bidding
  import opened Auctions
  import opened Settlement
  import opened Protocol
  import History
  import opened BidChain
  import opened Handling
  import opened Locks

  /** The bid is still ACTIVE though its auction was cancelled. */
  ghost predicate LockedByCancelled(s: Database, i: nat) {
    i < |s.bids| && s.bids[i].status.Active? && s.auctions[s.bids[i].auction].status.Cancelled?
  }

  /** What an administrator can look at before cancelling: a bid was placed, and settlement is not through. */
  predicate BidPending(a: Auction) {
    a.highest.Some? && (a.status.Active? || a.status.SettlementInProgress?)
  }

  lemma PendingIsActive(s: Database, a: nat, i: nat)
    requires Chained(s) && a < |s.auctions| && !s.auctions[a].status.Cancelled? && i < |s.bids| &&
             s.bids[i].auction == a
    ensures s.bids[i].status.Active? <==> BidPending(s.auctions[a]) && s.auctions[a].highest == Some(i)
  {
    assert StatusFits(s, i) && Leads(s, i);
  }

  /** Main result: cancelling leaves a bid of the auction ACTIVE if and only if a bid is pending on it. */
  lemma CancelLocks(t: Database, a: nat)
    requires Reachable(t) && a < |t.auctions| && !t.auctions[a].status.Cancelled?
    ensures (exists i: nat :: LockedByCancelled(CancelAuctionAdmin(t, a), i) && t.bids[i].auction == a)
            <==> BidPending(t.auctions[a])
  {
    AlwaysChained(t);
    var v := CancelAuctionAdmin(t, a);
    forall i: nat | i < |t.bids| && t.bids[i].auction == a
      ensures LockedByCancelled(v, i) <==> BidPending(t.auctions[a]) && t.auctions[a].highest == Some(i)
    {
      PendingIsActive(t, a, i);
    }
    if BidPending(t.auctions[a]) {
      var h := t.auctions[a].highest.value;
      assert t.bids[h].auction == a && LockedByCancelled(v, h);
    }
  }

  // ---- Nothing but a reserve handler already called gives the money back ----

  ghost predicate Stuck(s: Database, i: nat) {
    LockedByCancelled(s, i) && s.bids[i].auction !in s.handling
  }

  lemma SettleStaysStuck(s: Database, a: nat, i: nat)
    requires Stuck(s, i)
    ensures Stuck(Settle(s, a), i)
  {
    SettleFields(s, a);
  }

  lemma HandleStaysStuck(s: Database, a: nat, i: nat)
    requires Stuck(s, i)
    ensures Stuck(Handle(s, a), i)
  {
    HandleFields(s, a);
  }

  lemma BidStaysStuck(s: Database, bidder: nat, a: nat, amount: Kobo, i: nat)
    requires Chained(s) && Stuck(s, i)
    ensures Stuck(PlaceBid(s, bidder, a, amount), i)
  {
    if Bids(s, bidder, a, amount) {
      BidFields(s, bidder, a, amount);
      HighestIsLeader(s, a);
    }
  }

  lemma StepStaysStuck(s: Database, e: Event, i: nat)
    requires Chained(s) && Stuck(s, i)
    ensures Stuck(Step(s, e), i)
  {
    match e {
      case BidStep(u, a, amount) => BidStaysStuck(s, u, a, amount, i);
      case SettleStep(a) => SettleStaysStuck(s, a, i);
      case HandleStep(a) => HandleStaysStuck(s, a, i);
      case _ =>
        EventEvolves(s, e);
        assert Evolves(s.auctions[s.bids[i].auction], Step(s, e).auctions[s.bids[i].auction]);
    }
  }

  lemma {:induction false} RunStaysStuck(s: Database, es: seq<Event>, i: nat)
    requires Chained(s) && Stuck(s, i)
    ensures Chained(Run(s, es)) && Stuck(Run(s, es), i)
  {
    if es == [] {
    } else {
      RunStaysStuck(s, es[..|es| - 1], i);
      StepChained(Run(s, es[..|es| - 1]), es[|es| - 1]);
      StepStaysStuck(Run(s, es[..|es| - 1]), es[|es| - 1], i);
    }
  }

  lemma OneHandler(t: Database, a: nat)
    ensures Run(t, [HandleStep(a)]) == Handle(t, a)
  {
    RunAppend(t, [], HandleStep(a));
    assert [] + [HandleStep(a)] == [HandleStep(a)];
  }

  /** A handler called before the cancellation undoes it: the bid is LOST and unlocked. */
  lemma HandlerFrees(s: Database, i: nat)
    requires Chained(s) && LockedByCancelled(s, i) && s.bids[i].auction in s.handling && CanUnlock(s, s.bids[i].auction)
    ensures !LockedByCancelled(Handle(s, s.bids[i].auction), i)
  {
    var a := s.bids[i].auction;
    if s.auctions[a].highest != Some(i) {
      OthersInactive(s, a, i);
    }
  }

  lemma FreedByOne(t: Database, i: nat)
    requires Reachable(t) && LockedByCancelled(t, i)
    requires t.bids[i].auction in t.handling && CanUnlock(t, t.bids[i].auction)
    ensures !LockedByCancelled(Run(t, [HandleStep(t.bids[i].auction)]), i)
  {
    AlwaysChained(t);
    OneHandler(t, t.bids[i].auction);
    HandlerFrees(t, i);
  }

  lemma StuckForGood(t: Database, i: nat)
    requires Reachable(t) && Stuck(t, i)
    ensures forall fs: seq<Event> :: LockedByCancelled(Run(t, fs), i)
  {
    AlwaysChained(t);
    forall fs: seq<Event> ensures LockedByCancelled(Run(t, fs), i) {
      RunStaysStuck(t, fs, i);
    }
  }

  /**
   Main result: the bid stays ACTIVE over every later run if no handler was called before; and only then, as long as
   the bidder's locked bucket covers it.
   */
  lemma CancelledStaysLocked(t: Database, i: nat)
    requires Reachable(t) && LockedByCancelled(t, i)
    ensures t.bids[i].auction !in t.handling ==> forall fs: seq<Event> :: LockedByCancelled(Run(t, fs), i)
    ensures CanUnlock(t, t.bids[i].auction) ==>
              ((forall fs: seq<Event> :: LockedByCancelled(Run(t, fs), i)) <==> t.bids[i].auction !in t.handling)
  {
    if t.bids[i].auction !in t.handling {
      StuckForGood(t, i);
    } else if CanUnlock(t, t.bids[i].auction) {
      FreedByOne(t, i);
    }
  }

  /** Where handlers come in time, the locked bucket does cover it. */
  lemma CancelledIsCovered(t: Database, i: nat)
    requires ReachableTimely(t) && LockedByCancelled(t, i)
    ensures CanUnlock(t, t.bids[i].auction)
  {
    TimelyIsReachable(t);
    AlwaysChained(t);
    AlwaysLocked(t);
    ActiveBidIsLocked(t, i);
    if t.auctions[t.bids[i].auction].highest != Some(i) {
      assert Leads(t, i);
      OthersInactive(t, t.bids[i].auction, i);
    }
  }

  /** And as long as handlers come in time, its money is in the bidder's locked bucket all the while. */
  lemma CancelledMoneyLocked(t: Database, fs: seq<Event>, i: nat)
    requires Reachable(t) && Stuck(t, i) && ReachableTimely(Run(t, fs))
    ensures var v := Run(t, fs);
            && i < |v.bids| && v.bids[i].amount <= v.wallets[v.bids[i].bidder].locked
            && v.bids[i].bidder == t.bids[i].bidder && v.bids[i].amount == t.bids[i].amount
  {
    AlwaysChained(t);
    RunStaysStuck(t, fs, i);
    History.RunExtends(t, fs);
    assert History.SameBid(t.bids[i], Run(t, fs).bids[i]);
    AlwaysLocked(Run(t, fs));
    ActiveBidIsLocked(Run(t, fs), i);
  }
}

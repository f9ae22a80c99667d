/**
 What a reserve handler does that starts after something else happened to its auction, and what stands when all
 handlers come in time.
 */
module LateHandler {
  import opened Domain
  import opened Bidding
  import opened Auctions
  import opened Settlement
  import opened Protocol
  import opened History
  import opened BidChain
  import opened Sales
  import opened Handling
  import opened Locks
  import opened Pairing
  import opened Claims

  // ---- Locked funds ----

  ghost predicate NoneOverlocked(s: Database) {
    forall u | 0 <= u < |s.users| :: s.wallets[u].locked <= ActiveTotal(s.bids, u)
  }

  lemma TimelyKeepsLocks(s: Database, a: nat)
    requires Chained(s) && LocksAgree(s) && Timely(s, HandleStep(a))
    ensures LocksAgree(Handle(s, a))
  {
    var v := Handle(s, a);
    HandleFrame(s, a);
    forall u | 0 <= u < |v.users| ensures v.wallets[u].locked == ActiveTotal(v.bids, u) {
      HandleLocks(s, a, u);
      MisfiredSigned(s, HandleStep(a), u);
      assert Unbacked(s, u) == 0 && Unbacked(v, u) == 0;
    }
  }

  lemma LateBreaksLocks(s: Database, a: nat)
    requires Chained(s) && NoneOverlocked(s) && !Timely(s, HandleStep(a))
    ensures !LocksAgree(Handle(s, a))
  {
    HandleFrame(s, a);
    var u := LateMisfires(s, HandleStep(a));
    HandleLocks(s, a, u);
    assert Unbacked(s, u) >= 0;
    assert Unbacked(Handle(s, a), u) > 0;
  }

  lemma ReachableNoneOverlocked(t: Database)
    requires Reachable(t)
    ensures NoneOverlocked(t)
  {
    forall u | 0 <= u < |t.users| ensures t.wallets[u].locked <= ActiveTotal(t.bids, u) {
      NeverOverlocked(t, u);
    }
  }

  /** Main result: the handler keeps locked funds equal to ACTIVE bids if and only if it comes in time. */
  lemma HandleKeepsLocks(t: Database, a: nat)
    requires Reachable(t) && LocksAgree(t)
    ensures LocksAgree(Handle(t, a)) <==> Timely(t, HandleStep(a))
  {
    AlwaysChained(t);
    ReachableNoneOverlocked(t);
    if Timely(t, HandleStep(a)) {
      TimelyKeepsLocks(t, a);
    } else {
      LateBreaksLocks(t, a);
    }
  }

  // ---- Two ways to be late ----

  lemma CancelledHandled(s: Database, a: nat)
    requires Handles(s, a)
    ensures var h := s.auctions[a].highest.value;
            var v := Handle(CancelAuctionAdmin(s, a), a);
            && v.auctions[a].status.EndedReserveNotMet? && (s.bids[h].auction == a ==> v.bids[h].status.Lost?)
            && v.wallets[s.bids[h].bidder].locked == s.wallets[s.bids[h].bidder].locked - s.bids[h].amount
  {
  }

  lemma CancelledRefused(s: Database, a: nat)
    requires a < |s.auctions| && s.auctions[a].highest.Some? && !CanUnlock(s, a)
    ensures Handle(CancelAuctionAdmin(s, a), a) == CancelAuctionAdmin(s, a)
  {
  }

  lemma JudgedUnmet(s: Database, a: nat)
    requires Chained(s) && a in s.settling && a < |s.auctions| && Judge(s, a) == ReserveNotMet
    ensures var t := Settle(s, a);
            && t == s.(handling := s.handling + {a}) && (CanUnlock(s, a) <==> Handles(t, a))
            && s.auctions[a].highest.Some? && s.bids[s.auctions[a].highest.value].status.Active?
            && s.bids[s.auctions[a].highest.value].auction == a
  {
    JudgeFields(s, a);
  }

  /**
   A handler that starts after the auction was cancelled takes the cancellation back and returns the money if the
   bidder's locked bucket covers it, and is refused otherwise.
   */
  lemma CancelledThenHandled(t: Database, a: nat)
    requires Reachable(t) && a in t.settling && a < |t.auctions| && Judge(t, a) == ReserveNotMet
    ensures t.auctions[a].highest.Some?
    ensures var h := t.auctions[a].highest.value;
            var cancelled := CancelAuctionAdmin(Settle(t, a), a);
            var v := Handle(cancelled, a);
            if CanUnlock(t, a) then
              && v.auctions[a].status.EndedReserveNotMet? && t.bids[h].status.Active? && v.bids[h].status.Lost?
              && v.wallets[t.bids[h].bidder].locked == t.wallets[t.bids[h].bidder].locked - t.bids[h].amount
            else
              v == cancelled
  {
    AlwaysChained(t);
    JudgedUnmet(t, a);
    if CanUnlock(t, a) {
      CancelledHandled(Settle(t, a), a);
    } else {
      CancelledRefused(Settle(t, a), a);
    }
  }

  lemma SoldIsLate(s: Database, a: nat)
    requires Chained(s) && a in s.handling && a < |s.auctions| && s.auctions[a].status.Settled?
    ensures CanUnlock(s, a) <==> !Timely(s, HandleStep(a))
    ensures CanUnlock(s, a) ==> Handle(s, a).auctions[a].status.EndedReserveNotMet?
    ensures !CanUnlock(s, a) ==> Handle(s, a) == s
  {
    if CanUnlock(s, a) {
      StatusTells(s, a);
    } else {
      HandleRefused(s, a);
    }
  }

  /**
   A handler that starts after the auction was sold is refused if the winner has too little left in their locked
   bucket; otherwise it takes the sale's status back and unlocks the money of their other bids.
   */
  lemma SoldThenHandled(t: Database, a: nat)
    requires Reachable(t) && a in t.handling && a < |t.auctions| && t.auctions[a].status.Settled?
    ensures CanUnlock(t, a) ==> !LocksAgree(Handle(t, a)) && Handle(t, a).auctions[a].status.EndedReserveNotMet?
    ensures !CanUnlock(t, a) ==> Handle(t, a) == t
  {
    AlwaysChained(t);
    ReachableNoneOverlocked(t);
    SoldIsLate(t, a);
    if CanUnlock(t, a) {
      LateBreaksLocks(t, a);
    }
  }

  // ---- Sales stand ----

  ghost predicate Stands(s: Database, o: nat)
    requires o < |s.orders|
  {
    var a := s.auctions[s.orders[o].auction];
    a.highest.Some? && s.bids[a.highest.value].status.Won? && (a.status.Settled? || a.status.Cancelled?)
  }

  /** Every order's bid is WON, and its auction SETTLED or cancelled since. */
  ghost predicate Standing(s: Database) {
    forall o | 0 <= o < |s.orders| :: Stands(s, o)
  }

  lemma HandleStands(s: Database, a: nat)
    requires Chained(s) && Standing(s) && !FindsWon(s, HandleStep(a))
    ensures Standing(Handle(s, a))
  {
    HandleFrame(s, a);
    if Handles(s, a) {
      HandleFields(s, a);
      forall o | 0 <= o < |s.orders| ensures s.orders[o].auction != a && Stands(Handle(s, a), o) {
        assert Stands(s, o);
        assert s.bids[s.auctions[s.orders[o].auction].highest.value].auction == s.orders[o].auction;
      }
    } else {
      HandleRefused(s, a);
    }
  }

  lemma SettleStands(s: Database, a: nat)
    requires Chained(s) && Standing(s)
    ensures Standing(Settle(s, a))
  {
    var t := Settle(s, a);
    SettleFields(s, a);
    if a in s.settling && a < |s.auctions| {
      JudgeFields(s, a);
    }
    forall o | 0 <= o < |t.orders| ensures Stands(t, o) {
      if o < |s.orders| {
        assert Stands(s, o);
        assert s.bids[s.auctions[s.orders[o].auction].highest.value].auction == s.orders[o].auction;
      }
    }
  }

  lemma BidStands(s: Database, bidder: nat, a: nat, amount: Kobo)
    requires Chained(s) && Standing(s)
    ensures Standing(PlaceBid(s, bidder, a, amount))
  {
    if Bids(s, bidder, a, amount) {
      BidFields(s, bidder, a, amount);
      BidFrame(s, bidder, a, amount);
      HighestIsLeader(s, a);
      var t := PlaceBid(s, bidder, a, amount);
      forall o | 0 <= o < |t.orders| ensures Stands(t, o) {
        assert Stands(s, o);
      }
    }
  }

  lemma QuietStands(s: Database, e: Event)
    requires Standing(s) && !e.BidStep? && !e.SettleStep? && !e.HandleStep?
    ensures Standing(Step(s, e))
  {
    EventEvolves(s, e);
    StepExtends(s, e);
    OrderCounts(s, e);
    var t := Step(s, e);
    forall o | 0 <= o < |t.orders| ensures Stands(t, o) {
      assert Stands(s, o) && SameOrder(s.orders[o], t.orders[o]);
      assert Evolves(s.auctions[s.orders[o].auction], t.auctions[s.orders[o].auction]);
    }
  }

  lemma StepStands(s: Database, e: Event)
    requires Chained(s) && Standing(s) && !FindsWon(s, e)
    ensures Standing(Step(s, e))
  {
    match e {
      case BidStep(u, a, amount) => BidStands(s, u, a, amount);
      case SettleStep(a) => SettleStands(s, a);
      case HandleStep(a) => HandleStands(s, a);
      case _ => QuietStands(s, e);
    }
  }

  ghost predicate FindsWonAfter(s: Database, es: seq<Event>, e: Event) {
    FindsWon(Run(s, es), e)
  }

  /** No handler of the run finds its bid sold. */
  ghost predicate ClosesUnsold(s: Database, es: seq<Event>) {
    es == [] || (ClosesUnsold(s, es[..|es| - 1]) && !FindsWonAfter(s, es[..|es| - 1], es[|es| - 1]))
  }

  lemma {:induction false} RunStands(s: Database, es: seq<Event>)
    requires Fresh(s) && ClosesUnsold(s, es)
    ensures Standing(Run(s, es))
  {
    if es == [] {
    } else {
      var before := es[..|es| - 1];
      RunStands(s, before);
      RunChained(s, before);
      StepStands(Run(s, before), es[|es| - 1]);
    }
  }

  // ---- A sale once taken back is never restored ----

  /** The order's bid is LOST. */
  ghost predicate Fallen(s: Database, o: nat) {
    && o < |s.orders| && s.auctions[s.orders[o].auction].highest.Some?
    && s.bids[s.auctions[s.orders[o].auction].highest.value].status.Lost?
  }

  lemma FallenIsNotStanding(s: Database, o: nat)
    requires Fallen(s, o)
    ensures !Standing(s)
  {
    assert !Stands(s, o);
  }

  lemma HandleFells(s: Database, a: nat) returns (o: nat)
    requires Chained(s) && Sales.Sold(s) && FindsWon(s, HandleStep(a))
    ensures Fallen(Handle(s, a), o)
  {
    var h := s.auctions[a].highest.value;
    assert HasOrder(s, s.bids[h].auction);
    o :| 0 <= o < |s.orders| && s.orders[o].auction == s.bids[h].auction;
    HandleFrame(s, a);
    HandleFields(s, a);
  }

  lemma BidKeepsFallen(s: Database, bidder: nat, a: nat, amount: Kobo, o: nat)
    requires Chained(s) && Sales.Sold(s) && Fallen(s, o)
    ensures Fallen(PlaceBid(s, bidder, a, amount), o)
  {
    if Bids(s, bidder, a, amount) {
      BidFields(s, bidder, a, amount);
      BidFrame(s, bidder, a, amount);
      HighestIsLeader(s, a);
      assert SaleFits(s, o);
    }
  }

  lemma SettleKeepsFallen(s: Database, a: nat, o: nat)
    requires Chained(s) && Sales.Sold(s) && Fallen(s, o)
    ensures Fallen(Settle(s, a), o)
  {
    SettleFields(s, a);
    assert SaleFits(s, o);
    if a in s.settling && a < |s.auctions| {
      JudgeFields(s, a);
    }
  }

  lemma HandleKeepsFallen(s: Database, a: nat, o: nat)
    requires Chained(s) && Fallen(s, o)
    ensures Fallen(Handle(s, a), o)
  {
    HandleFrame(s, a);
    HandleFields(s, a);
  }

  lemma QuietKeepsFallen(s: Database, e: Event, o: nat)
    requires Fallen(s, o) && !e.BidStep? && !e.SettleStep? && !e.HandleStep?
    ensures Fallen(Step(s, e), o)
  {
    EventEvolves(s, e);
    StepExtends(s, e);
    var t := Step(s, e);
    assert SameOrder(s.orders[o], t.orders[o]);
    assert Evolves(s.auctions[s.orders[o].auction], t.auctions[s.orders[o].auction]);
  }

  lemma StepKeepsFallen(s: Database, e: Event, o: nat)
    requires Chained(s) && Sales.Sold(s) && Fallen(s, o)
    ensures Fallen(Step(s, e), o)
  {
    match e {
      case BidStep(u, a, amount) => BidKeepsFallen(s, u, a, amount, o);
      case SettleStep(a) => SettleKeepsFallen(s, a, o);
      case HandleStep(a) => HandleKeepsFallen(s, a, o);
      case _ => QuietKeepsFallen(s, e, o);
    }
  }

  lemma StepFells(s: Database, e: Event) returns (o: nat)
    requires Chained(s) && Sales.Sold(s) && FindsWon(s, e)
    ensures Fallen(Step(s, e), o)
  {
    match e {
      case HandleStep(a) => o := HandleFells(s, a);
    }
  }

  lemma {:induction false} SoldCloseFells(s: Database, es: seq<Event>) returns (o: nat)
    requires Fresh(s) && !ClosesUnsold(s, es)
    ensures Fallen(Run(s, es), o)
  {
    var before, e := es[..|es| - 1], es[|es| - 1];
    RunChained(s, before);
    RunSales(s, before);
    if ClosesUnsold(s, before) {
      o := StepFells(Run(s, before), e);
    } else {
      o := SoldCloseFells(s, before);
      StepKeepsFallen(Run(s, before), e, o);
    }
  }

  /** Main result: every sale of a run stands if and only if no handler found its bid sold. */
  lemma StandingIffClosedUnsold(s: Database, es: seq<Event>)
    requires Fresh(s)
    ensures Standing(Run(s, es)) <==> ClosesUnsold(s, es)
  {
    if ClosesUnsold(s, es) {
      RunStands(s, es);
    } else {
      var o := SoldCloseFells(s, es);
      FallenIsNotStanding(Run(s, es), o);
    }
  }

  /** The same for one handler. */
  lemma HandleKeepsSales(t: Database, a: nat)
    requires Reachable(t) && Standing(t)
    ensures Standing(Handle(t, a)) <==> !FindsWon(t, HandleStep(a))
  {
    AlwaysChained(t);
    AlwaysPaired(t);
    if FindsWon(t, HandleStep(a)) {
      var o := HandleFells(t, a);
      FallenIsNotStanding(Handle(t, a), o);
    } else {
      HandleStands(t, a);
    }
  }

  // ---- The two ways together ----

  /** All handlers of a run come in time if and only if none finds its bid sold and none finds it closed before. */
  lemma {:induction false} TimelyIffNeither(s: Database, es: seq<Event>)
    requires Fresh(s)
    ensures TimelyRun(s, es) <==> ClosesUnsold(s, es) && ClosesOnce(s, es)
  {
    if es == [] {
    } else {
      TimelyIffNeither(s, es[..|es| - 1]);
      RunChained(s, es[..|es| - 1]);
      LateMeansClosed(Run(s, es[..|es| - 1]), es[|es| - 1]);
    }
  }

  /**
   So in every reachable state locked funds are the ACTIVE bids if and only if both every sale stands and every lock
   is answered once.
   */
  lemma LocksNeedBoth(t: Database)
    requires Reachable(t)
    ensures LocksAgree(t) <==> Standing(t) && BidsPaired(t)
  {
    var s, es :| ReachedBy(t, s, es);
    LocksAgreeIffTimely(s, es);
    TimelyIffNeither(s, es);
    StandingIffClosedUnsold(s, es);
    PairedIffClosedOnce(s, es);
  }
}

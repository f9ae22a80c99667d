/** What the auction page tells bidders about a hidden reserve, and what settlement makes of it. */
module Reserve {
  import opened Domain
  import opened Bidding
  import opened Settlement
  import opened Protocol
  import opened BidChain
  import opened Handling
  import opened Locks
  import opened Claims

  function HighestAmount(s: Database, a: nat): Option<Kobo>
    requires a < |s.auctions|
  {
    if s.auctions[a].highest.Some? then Some(s.bids[s.auctions[a].highest.value].amount) else None
  }

  /** `reserve_price_met`: nothing without a reserve, false without a bid. */
  function ReserveMet(reserve: Option<Kobo>, highest: Option<Kobo>): Option<bool> {
    if reserve.None? then None
    else if highest.None? then Some(false)
    else Some(highest.value >= reserve.value)
  }

  /** `reserve_progress_percent`: nothing, a percentage, or the error of dividing by a reserve of zero. */
  datatype Answer = NoReserve | Percent(value: nat) | DivisionByZero

  /** Rounded towards zero and capped at 100. */
  function ProgressPercent(reserve: Option<nat>, highest: Option<nat>): (r: Answer)
    ensures r.NoReserve? <==> reserve.None?
    ensures r.DivisionByZero? <==> reserve == Some(0) && highest.Some?
    ensures r.Percent? ==> r.value <= 100
  {
    if reserve.None? then NoReserve
    else if highest.None? then Percent(0)
    else if reserve.value == 0 then DivisionByZero
    else
      var raw := highest.value * 100 / reserve.value;
      Percent(if raw < 100 then raw else 100)
  }

  lemma ScaleOrder(x: int, y: int, z: nat)
    ensures x <= y ==> x * z <= y * z
  {
  }

  lemma FullDivision(amount: nat, reserve: nat)
    requires reserve > 0
    ensures amount * 100 / reserve >= 100 <==> amount >= reserve
  {
    var q := amount * 100 / reserve;
    assert q * reserve <= amount * 100 < (q + 1) * reserve;
    ScaleOrder(q + 1, 100, reserve);
    ScaleOrder(100, q, reserve);
  }

  /**
   The bar is full exactly when the reserve is met, as rounding never shows 100% too early; but a reserve of
   zero, which is met by any bid, has no bar.
   */
  lemma FullIffMet(reserve: Option<nat>, highest: Option<nat>)
    ensures ProgressPercent(reserve, highest) in {Percent(100), DivisionByZero} <==>
            ReserveMet(reserve, highest) == Some(true)
  {
    if reserve.Some? && highest.Some? && reserve.value > 0 {
      FullDivision(highest.value, reserve.value);
    }
  }

  /** Short of full, the bar shows the whole percentage that the bid is of the reserve. */
  lemma ProgressIsShare(reserve: nat, highest: nat)
    requires reserve > 0
    ensures var p := ProgressPercent(Some(reserve), Some(highest)).value;
            if highest < reserve then p * reserve <= highest * 100 < (p + 1) * reserve else p == 100
  {
    FullDivision(highest, reserve);
    var p := highest * 100 / reserve;
    assert p * reserve <= highest * 100 < (p + 1) * reserve;
  }

  /** A higher bid never moves the bar back. */
  lemma ProgressMonotone(reserve: nat, lower: nat, higher: nat)
    requires reserve > 0 && lower <= higher
    ensures ProgressPercent(Some(reserve), Some(lower)).value <= ProgressPercent(Some(reserve), Some(higher)).value
  {
    var p, q := lower * 100 / reserve, higher * 100 / reserve;
    assert p * reserve <= lower * 100 <= higher * 100 < (q + 1) * reserve;
    ScaleOrder(q + 1, p, reserve);
  }

  lemma HasBidsLeads(s: Database, a: nat)
    requires Chained(s) && a < |s.auctions| && HasBids(s.bids, a)
    ensures s.auctions[a].highest.Some?
  {
    var i :| 0 <= i < |s.bids| && s.bids[i].auction == a;
    assert Leads(s, i);
  }

  /** In every reachable state the settlement task judges exactly what the page shows, money being locked. */
  lemma ShownIsJudged(t: Database, a: nat)
    requires Reachable(t) && a in t.settling
    requires a < |t.auctions| && !Terminal(t.auctions[a].status) && HasBids(t.bids, a)
    ensures var met := ReserveMet(t.auctions[a].reserve, HighestAmount(t, a));
            && HighestAmount(t, a).Some?
            && (met == Some(false) <==> Judge(t, a) == ReserveNotMet)
            && (met != Some(false) <==> Judge(t, a) == Verdict.Sold || Judge(t, a) == Abort)
  {
    AlwaysChained(t);
    JudgeFields(t, a);
    HasBidsLeads(t, a);
  }

  lemma DecidedIfLocked(s: Database, a: nat)
    requires Chained(s) && a in s.settling && a < |s.auctions| && !Terminal(s.auctions[a].status)
    requires s.auctions[a].highest.Some?
    ensures var met, v := ReserveMet(s.auctions[a].reserve, HighestAmount(s, a)), Deliver(s, a);
            && a < |v.auctions|
            && (v.auctions[a].status.Settled? <==> met != Some(false) && CanUnlock(s, a))
            && (v.auctions[a].status.EndedReserveNotMet? <==> met == Some(false) && CanUnlock(s, a))
  {
    JudgeFields(s, a);
    AbortMeans(s, a);
    assert AuctionFits(s, a);
    assert s.bids[s.auctions[a].highest.value].auction == a;
  }

  /**
   With no side condition: a delivery sells exactly if the page does not say that the reserve is missed, and ends the
   auction unsold exactly if it does, the highest bidder's locked bucket covering the bid in either case.
   */
  lemma ShownIsDecidedIfLocked(t: Database, a: nat)
    requires Reachable(t) && a in t.settling
    requires a < |t.auctions| && !Terminal(t.auctions[a].status) && t.auctions[a].highest.Some?
    ensures var met, v := ReserveMet(t.auctions[a].reserve, HighestAmount(t, a)), Deliver(t, a);
            && a < |v.auctions|
            && (v.auctions[a].status.Settled? <==> met != Some(false) && CanUnlock(t, a))
            && (v.auctions[a].status.EndedReserveNotMet? <==> met == Some(false) && CanUnlock(t, a))
  {
    AlwaysChained(t);
    DecidedIfLocked(t, a);
  }

  lemma JudgedIsDecided(s: Database, a: nat)
    requires a in s.settling && a < |s.auctions| && Judge(s, a) in {ReserveNotMet, Verdict.Sold}
    ensures Settle(s, a).auctions[a].status.Settled? <==> Judge(s, a) == Verdict.Sold
  {
  }

  lemma HandledEnds(s: Database, a: nat)
    requires Handles(s, a)
    ensures a < |Handle(s, a).auctions| && Handle(s, a).auctions[a].status.EndedReserveNotMet?
  {
  }

  /**
   Main result: with timely handlers, what the page shows of a claimed auction with bids is what its settlement
   decides: SETTLED, or ended by the handler called at once, if the page says the reserve is not met.
   */
  lemma ShownIsDecided(t: Database, a: nat)
    requires ReachableTimely(t) && a in t.settling
    requires a < |t.auctions| && !Terminal(t.auctions[a].status) && HasBids(t.bids, a)
    ensures var met := ReserveMet(t.auctions[a].reserve, HighestAmount(t, a));
            && HighestAmount(t, a).Some?
            && (met != Some(false) <==> Settle(t, a).auctions[a].status.Settled?)
            && (met == Some(false) ==> Handle(Settle(t, a), a).auctions[a].status.EndedReserveNotMet?)
  {
    TimelyIsReachable(t);
    ShownIsJudged(t, a);
    SettlementNeverAborts(t, a);
    JudgedIsDecided(t, a);
    if Judge(t, a) == ReserveNotMet {
      HandlerReady(t, a);
      HandledEnds(Settle(t, a), a);
    }
  }
}

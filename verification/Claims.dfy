/** Any number of scanning workers and redelivered tasks: one claim, one order, one escrow, one move each. */
module Claims {
  import opened Domain
  import opened Ledgers
  import opened Bidding
  import opened Auctions
  import opened Settlement
  import opened Protocol
  import opened History
  import opened BidChain
  import opened Sales
  import opened Books
  import opened Counting
  import opened Handling
  import opened Locks

  /** How far an auction has come; it never goes back. */
  function Phase(status: AuctionStatus): nat {
    match status
    case Draft => 0
    case Scheduled => 1
    case Active => 2
    case _ => 3
  }

  lemma StepPhase(s: Database, e: Event, a: nat)
    requires a < |s.auctions|
    ensures a < |Step(s, e).auctions|
    ensures Phase(s.auctions[a].status) <= Phase(Step(s, e).auctions[a].status)
  {
    StepProgresses(s, e, a);
  }

  /** The event is a claim of the auction that succeeds. */
  predicate WinsClaim(s: Database, e: Event, a: nat) {
    e == QueueStep(Claim(a)) && Settlement.Claims(s, a)
  }

  function ClaimsWon(s: Database, es: seq<Event>, a: nat): nat {
    if es == [] then 0
    else ClaimsWon(s, es[..|es| - 1], a) + if WinsClaim(Run(s, es[..|es| - 1]), es[|es| - 1], a) then 1 else 0
  }

  predicate LeftActive(s: Database, a: nat) {
    a < |s.auctions| && Phase(s.auctions[a].status) == 3
  }

  lemma ClaimLeavesActive(s: Database, e: Event, a: nat)
    ensures WinsClaim(s, e, a) ==> !LeftActive(s, a) && LeftActive(Step(s, e), a)
    ensures LeftActive(s, a) ==> LeftActive(Step(s, e), a)
  {
    if a < |s.auctions| {
      StepPhase(s, e, a);
    }
  }

  /** Over any run, however many workers scan and claim, an auction is claimed at most once. */
  lemma {:induction false} ClaimedAtMostOnce(s: Database, es: seq<Event>, a: nat)
    requires Fresh(s)
    ensures ClaimsWon(s, es, a) <= 1
    ensures ClaimsWon(s, es, a) == 1 ==> LeftActive(Run(s, es), a)
  {
    if es == [] {
    } else {
      ClaimedAtMostOnce(s, es[..|es| - 1], a);
      ClaimLeavesActive(Run(s, es[..|es| - 1]), es[|es| - 1], a);
    }
  }

  /** Once it has left ACTIVE, as a stale one found in progress has, an auction is never claimed again. */
  lemma {:induction false} NeverClaimedAgain(s: Database, fs: seq<Event>, a: nat)
    requires LeftActive(s, a)
    ensures LeftActive(Run(s, fs), a) && ClaimsWon(s, fs, a) == 0
  {
    if fs == [] {
    } else {
      NeverClaimedAgain(s, fs[..|fs| - 1], a);
      ClaimLeavesActive(Run(s, fs[..|fs| - 1]), fs[|fs| - 1], a);
    }
  }

  /** At position `n` of the run a scan found the auction ACTIVE and past its end. */
  ghost predicate FoundOver(s: Database, es: seq<Event>, a: nat, n: nat)
    requires n < |es|
  {
    es[n].QueueStep? && es[n].queue.Scan? && Ended(Run(s, es[..n]), a)
  }

  lemma NewlyScanned(s: Database, e: Event, a: nat)
    requires a in Step(s, e).scanned
    ensures a in s.scanned ||
            (e.QueueStep? && e.queue.Scan? && a < |s.auctions| &&
             (Ended(s, a) || s.auctions[a].status.SettlementInProgress?))
  {
    match e {
      case DraftStep(x) => DraftFrame(s, x);
      case ManageStep(x) => ManageFrame(s, x);
      case BidStep(u, x, amount) => BidFrame(s, u, x, amount);
      case QueueStep(x) =>
      case SettleStep(x) => SettleFrame(s, x);
      case HandleStep(x) => HandleFrame(s, x);
      case _ => AuctionsFrame(s, e);
    }
  }

  lemma FoundEarlier(s: Database, es: seq<Event>, e: Event, a: nat, n: nat)
    requires n < |es| && FoundOver(s, es, a, n)
    ensures FoundOver(s, es + [e], a, n)
  {
    assert (es + [e])[..n] == es[..n];
  }

  lemma FoundNow(s: Database, es: seq<Event>, e: Event, a: nat)
    requires e.QueueStep? && e.queue.Scan? && Ended(Run(s, es), a)
    ensures FoundOver(s, es + [e], a, |es|)
  {
    assert (es + [e])[..|es|] == es;
  }

  /** The auction has left ACTIVE, or some scan of the run found it ACTIVE and past its end. */
  ghost predicate Accounted(s: Database, es: seq<Event>, a: nat) {
    && a < |Run(s, es).auctions|
    && (LeftActive(Run(s, es), a) || exists n | 0 <= n < |es| :: FoundOver(s, es, a, n))
  }

  lemma StillAccounted(s: Database, es: seq<Event>, e: Event, a: nat)
    requires Accounted(s, es, a)
    ensures Accounted(s, es + [e], a)
  {
    RunAppend(s, es, e);
    StepPhase(Run(s, es), e, a);
    if n :| 0 <= n < |es| && FoundOver(s, es, a, n) {
      FoundEarlier(s, es, e, a, n);
    }
  }

  lemma NewlyAccounted(s: Database, es: seq<Event>, e: Event, a: nat)
    requires a in Run(s, es + [e]).scanned && a !in Run(s, es).scanned
    ensures Accounted(s, es + [e], a)
  {
    RunAppend(s, es, e);
    NewlyScanned(Run(s, es), e, a);
    StepPhase(Run(s, es), e, a);
    if Ended(Run(s, es), a) {
      FoundNow(s, es, e, a);
    }
  }

  /**
   Claim safety: an auction that was scanned and has not left ACTIVE, so that a claim would win it, was past its
   end when some scan found it, though an extension may have moved its end since.
   */
  lemma {:induction false} ClaimFollowsEnd(s: Database, es: seq<Event>, a: nat)
    requires Fresh(s) && a in Run(s, es).scanned
    ensures Accounted(s, es, a)
  {
    var n := |es| - 1;
    LastEvent(es);
    if a in Run(s, es[..n]).scanned {
      ClaimFollowsEnd(s, es[..n], a);
      StillAccounted(s, es[..n], es[n], a);
    } else {
      NewlyAccounted(s, es[..n], es[n], a);
    }
  }

  /**
   Main result: in every reachable state an auction has at most one order and one escrow, moved into escrow by
   exactly one row. It has them if it is SETTLED, and only if it is or was: a cancellation and a late reserve
   handler leave order and escrow behind.
   */
  lemma OneSalePerAuction(t: Database, a: nat)
    requires Reachable(t) && a < |t.auctions|
    ensures forall o, p | 0 <= o < |t.orders| && 0 <= p < |t.orders| ::
              t.orders[o].auction == t.orders[p].auction == a ==> o == p
    ensures forall x, y | 0 <= x < |t.escrows| && 0 <= y < |t.escrows| ::
              t.escrows[x].auction == t.escrows[y].auction == a ==> x == y
    ensures forall o | 0 <= o < |t.orders| :: Count(MovesOf, t.ledger, o) == 1
    ensures t.auctions[a].status.Settled? ==> HasOrder(t, a)
    ensures HasOrder(t, a) ==>
              t.auctions[a].status.Settled? || t.auctions[a].status.Cancelled? ||
              t.auctions[a].status.EndedReserveNotMet?
  {
    AlwaysPaired(t);
    AlwaysChained(t);
    AlwaysCounted(t);
    forall x | 0 <= x < |t.escrows| ensures t.escrows[x].auction == t.orders[x].auction {
      assert PairFits(t, x);
    }
    if t.auctions[a].status.Settled? {
      assert AuctionFits(t, a);
      assert StatusFits(t, t.auctions[a].highest.value);
    }
    if HasOrder(t, a) {
      var o :| 0 <= o < |t.orders| && t.orders[o].auction == a;
      assert SaleFits(t, o);
    }
  }

  /** A terminal auction stays terminal: at most it is cancelled, or closed again by a late reserve handler. */
  lemma StepTerminal(s: Database, e: Event, a: nat)
    requires a < |s.auctions| && Terminal(s.auctions[a].status)
    ensures a < |Step(s, e).auctions| && Terminal(Step(s, e).auctions[a].status)
  {
    StepProgresses(s, e, a);
  }

  lemma {:induction false} RunTerminal(s: Database, es: seq<Event>, a: nat)
    requires a < |s.auctions| && Terminal(s.auctions[a].status)
    ensures a < |Run(s, es).auctions| && Terminal(Run(s, es).auctions[a].status)
  {
    if es == [] {
    } else {
      RunTerminal(s, es[..|es| - 1], a);
      StepTerminal(Run(s, es[..|es| - 1]), es[|es| - 1], a);
    }
  }

  // ---- Redelivery ----

  lemma TerminalSkips(s: Database, a: nat)
    requires a < |s.auctions| && Terminal(s.auctions[a].status)
    ensures Settle(s, a) == s
  {
  }

  /** Main result: once the auction is terminal, judging a redelivered message changes nothing at any later time. */
  lemma RedeliveryChangesNothing(t: Database, fs: seq<Event>, a: nat)
    requires a < |t.auctions| && Terminal(t.auctions[a].status)
    ensures var v := Run(t, fs); Settle(v, a) == v
  {
    RunTerminal(t, fs, a);
    TerminalSkips(Run(t, fs), a);
  }

  lemma HandlerReady(t: Database, a: nat)
    requires ReachableTimely(t) && a in t.settling && a < |t.auctions| && Judge(t, a) == ReserveNotMet
    ensures Handles(Settle(t, a), a) && Timely(Settle(t, a), HandleStep(a))
  {
    TimelyIsReachable(t);
    AlwaysChained(t);
    AlwaysLocked(t);
    JudgeFields(t, a);
    ActiveBidIsLocked(t, t.auctions[a].highest.value);
  }

  /** Where locked funds are the ACTIVE bids, they cover the highest bid of a claimed auction still open. */
  lemma OpenIsCovered(s: Database, a: nat)
    requires Chained(s) && LocksAgree(s) && a in s.settling && a < |s.auctions|
    ensures Terminal(s.auctions[a].status) || s.auctions[a].highest.None? || CanUnlock(s, a)
  {
    assert AuctionFits(s, a);
    if !Terminal(s.auctions[a].status) && s.auctions[a].highest.Some? {
      assert StatusFits(s, s.auctions[a].highest.value);
      ActiveBidIsLocked(s, s.auctions[a].highest.value);
    }
  }

  /** Judging a message and letting the handler it calls, if any, run at once. */
  function Deliver(s: Database, a: nat): Database {
    if a < |s.auctions| && Judge(s, a) == ReserveNotMet then Handle(Settle(s, a), a) else Settle(s, a)
  }

  lemma DeliveryMeans(s: Database, a: nat)
    requires Chained(s) && a in s.settling && a < |s.auctions|
    ensures a < |Deliver(s, a).auctions|
    ensures Terminal(Deliver(s, a).auctions[a].status) <==>
              || Terminal(s.auctions[a].status) || s.auctions[a].highest.None?
              || CanUnlock(s, a)
  {
    JudgeFields(s, a);
    AbortMeans(s, a);
    assert AuctionFits(s, a);
    if s.auctions[a].highest.Some? {
      assert s.bids[s.auctions[a].highest.value].auction == a;
    }
  }

  /**
   With no side condition: a delivery ends in a terminal status exactly if the auction is terminal, has no bid, or
   the highest bidder's locked bucket covers the bid.
   */
  lemma DeliverySettlesIfLocked(t: Database, a: nat)
    requires Reachable(t) && a in t.settling && a < |t.auctions|
    ensures a < |Deliver(t, a).auctions|
    ensures Terminal(Deliver(t, a).auctions[a].status) <==>
              || Terminal(t.auctions[a].status) || t.auctions[a].highest.None?
              || CanUnlock(t, a)
  {
    AlwaysChained(t);
    DeliveryMeans(t, a);
  }

  /**
   Whatever message of whatever claim it was, delivering it and letting the handler it calls run at once brings the
   auction to a terminal status, when earlier handlers came in time.
   */
  lemma DeliverySettles(t: Database, a: nat)
    requires ReachableTimely(t) && a in t.settling
    ensures a < |Deliver(t, a).auctions| && Terminal(Deliver(t, a).auctions[a].status)
  {
    TimelyIsReachable(t);
    SettlementNeverAborts(t, a);
    DeliverySettlesIfLocked(t, a);
    AlwaysChained(t);
    AlwaysLocked(t);
    OpenIsCovered(t, a);
  }
}

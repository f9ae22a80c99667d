/** How auctions got the status they have, and when they started, over whole runs. */
module AuctionRuns {
  import opened Domain
  import opened Bidding
  import opened Auctions
  import opened Settlement
  import opened Protocol
  import opened History
  import opened BidChain
  import opened AuctionLaws

  // ---- Every status has its cause ----

  function AfterManaging(t: Database, e: ManageEvent, a: nat): AuctionStatus
    requires a < |t.auctions|
  {
    var x := t.auctions[a];
    match e
    case Announce(u, b) => if b == a && Publishable(t, u, a) then Published(t, a) else x.status
    case ActivateDue => if x.status.Scheduled? && x.startsAt <= t.now then AuctionStatus.Active else x.status
    case Prolong(_, _, _) => x.status
    case SellerCancel(u, b) =>
      if b == a && x.seller == u && x.highest.None? then AuctionStatus.Cancelled else x.status
    case AdminCancel(b) => if b == a then AuctionStatus.Cancelled else x.status
  }

  /** The status an event leaves an auction with: no other event changes it, and these only as said. */
  function StatusAfter(t: Database, e: Event, a: nat): AuctionStatus
    requires a < |t.auctions|
  {
    var x := t.auctions[a];
    match e
    case ManageStep(m) => AfterManaging(t, m, a)
    case QueueStep(Claim(b)) =>
      if b == a && a in t.scanned && x.status.Active? then SettlementInProgress else x.status
    case SettleStep(b) =>
      if b != a || !AwaitsSettlement(t, a) then x.status
      else if x.highest.None? then EndedNoBids
      else if !Unreached(t, a) && Covered(t, a) then Settled
      else x.status
    case HandleStep(b) => if b == a && Missed(t, a) then EndedReserveNotMet else x.status
    case _ => x.status
  }

  lemma ManagedStatus(s: Database, e: ManageEvent, a: nat)
    requires Chained(s) && a < |s.auctions|
    ensures a < |DoManage(s, e).auctions| && DoManage(s, e).auctions[a].status == AfterManaging(s, e, a)
  {
    PointerMeansBids(s, a);
  }

  lemma QueuedStatus(s: Database, e: QueueEvent, a: nat)
    requires a < |s.auctions|
    ensures a < |DoQueue(s, e).auctions| && DoQueue(s, e).auctions[a].status == StatusAfter(s, QueueStep(e), a)
  {
  }

  lemma SettledStatus(s: Database, b: nat, a: nat)
    requires Chained(s) && a < |s.auctions|
    ensures a < |Settle(s, b).auctions| && Settle(s, b).auctions[a].status == StatusAfter(s, SettleStep(b), a)
  {
    DeliveryChanges(s, b);
  }

  lemma HandledStatus(s: Database, b: nat, a: nat)
    requires Chained(s) && a < |s.auctions|
    ensures a < |Handle(s, b).auctions| && Handle(s, b).auctions[a].status == StatusAfter(s, HandleStep(b), a)
  {
    MissChanges(s, b);
  }

  lemma DraftedStatus(s: Database, e: DraftEvent, a: nat)
    requires a < |s.auctions|
    ensures a < |DoDraft(s, e).auctions| && DoDraft(s, e).auctions[a].status == s.auctions[a].status
  {
  }

  lemma BidStatus(s: Database, u: nat, b: nat, x: Kobo, a: nat)
    requires a < |s.auctions|
    ensures var t := PlaceBid(s, u, b, x); a < |t.auctions| && t.auctions[a].status == s.auctions[a].status
  {
  }

  lemma StepStatus(s: Database, e: Event, a: nat)
    requires Chained(s) && a < |s.auctions|
    ensures a < |Step(s, e).auctions| && Step(s, e).auctions[a].status == StatusAfter(s, e, a)
  {
    match e {
      case ManageStep(m) => ManagedStatus(s, m, a);
      case QueueStep(q) => QueuedStatus(s, q, a);
      case SettleStep(b) => SettledStatus(s, b, a);
      case HandleStep(b) => HandledStatus(s, b, a);
      case DraftStep(d) => DraftedStatus(s, d, a);
      case BidStep(u, b, x) => BidStatus(s, u, b, x, a);
      case _ => AuctionsFrame(s, e);
    }
  }

  /** Main result: in every reachable state this is the status every event leaves every auction with. */
  lemma StatusLaw(t: Database, e: Event, a: nat)
    requires Reachable(t) && a < |t.auctions|
    ensures a < |Step(t, e).auctions| && Step(t, e).auctions[a].status == StatusAfter(t, e, a)
  {
    AlwaysChained(t);
    StepStatus(t, e, a);
  }

  /** The event at position `n` of the run gave the auction the status, which it did not have before. */
  ghost predicate Gives(s: Database, es: seq<Event>, a: nat, status: AuctionStatus, n: nat)
    requires n < |es|
  {
    && a < |Run(s, es[..n]).auctions| && Run(s, es[..n]).auctions[a].status != status
    && StatusAfter(Run(s, es[..n]), es[n], a) == status
  }

  lemma GivesEarlier(s: Database, es: seq<Event>, e: Event, a: nat, status: AuctionStatus, n: nat)
    requires n < |es| && Gives(s, es, a, status, n)
    ensures Gives(s, es + [e], a, status, n)
  {
    assert (es + [e])[..n] == es[..n];
  }

  lemma GivesNow(s: Database, es: seq<Event>, e: Event, a: nat, status: AuctionStatus)
    requires a < |Run(s, es).auctions| && Run(s, es).auctions[a].status != status
    requires StatusAfter(Run(s, es), e, a) == status
    ensures Gives(s, es + [e], a, status, |es|)
  {
    assert (es + [e])[..|es|] == es;
  }

  lemma BidAddsNoAuction(s: Database, u: nat, a: nat, x: Kobo)
    ensures |PlaceBid(s, u, a, x).auctions| == |s.auctions|
  {
  }

  lemma NewAuctionIsDraft(s: Database, e: Event, a: nat)
    requires |s.auctions| <= a < |Step(s, e).auctions|
    ensures Step(s, e).auctions[a].status.Draft?
  {
    match e {
      case BidStep(u, b, x) => BidAddsNoAuction(s, u, b, x);
      case SettleStep(b) => SettleFields(s, b);
      case HandleStep(b) => HandleFields(s, b);
      case _ => EventEvolves(s, e);
    }
  }

  lemma GivenByLast(s: Database, es: seq<Event>, e: Event, a: nat)
    requires Fresh(s) && a < |Run(s, es + [e]).auctions| && !Run(s, es + [e]).auctions[a].status.Draft?
    requires a < |Run(s, es).auctions| ==> Run(s, es).auctions[a].status != Run(s, es + [e]).auctions[a].status
    ensures Gives(s, es + [e], a, Run(s, es + [e]).auctions[a].status, |es|)
  {
    RunAppend(s, es, e);
    if a < |Run(s, es).auctions| {
      RunChained(s, es);
      StepStatus(Run(s, es), e, a);
      GivesNow(s, es, e, a, Run(s, es + [e]).auctions[a].status);
    } else {
      NewAuctionIsDraft(Run(s, es), e, a);
    }
  }

  /** Main result: over any run, whatever status an auction has beyond DRAFT, one event of the run gave it. */
  lemma {:induction false} StatusHasCause(s: Database, es: seq<Event>, a: nat)
    requires Fresh(s) && a < |Run(s, es).auctions| && !Run(s, es).auctions[a].status.Draft?
    ensures exists n | 0 <= n < |es| :: Gives(s, es, a, Run(s, es).auctions[a].status, n)
  {
    var k := |es| - 1;
    LastEvent(es);
    var before := Run(s, es[..k]);
    if a < |before.auctions| && before.auctions[a].status == Run(s, es).auctions[a].status {
      StatusHasCause(s, es[..k], a);
      var n :| 0 <= n < k && Gives(s, es[..k], a, before.auctions[a].status, n);
      GivesEarlier(s, es[..k], es[k], a, before.auctions[a].status, n);
    } else {
      GivenByLast(s, es[..k], es[k], a);
    }
  }

  /** An administrator, or the seller while there is no bid. */
  predicate Cancels(t: Database, e: Event, a: nat) {
    || e == ManageStep(AdminCancel(a))
    || (&& a < |t.auctions| && t.auctions[a].highest.None?
        && e == ManageStep(SellerCancel(t.auctions[a].seller, a)))
  }

  lemma CancelMeans(t: Database, e: Event, a: nat)
    requires a < |t.auctions| && !t.auctions[a].status.Cancelled? && StatusAfter(t, e, a).Cancelled?
    ensures Cancels(t, e, a)
  {
    match e {
      case ManageStep(m) =>
      case _ =>
    }
  }

  ghost predicate CancelledBy(s: Database, es: seq<Event>, a: nat, n: nat)
    requires n < |es|
  {
    Cancels(Run(s, es[..n]), es[n], a)
  }

  lemma GivesCancelled(s: Database, es: seq<Event>, a: nat, n: nat)
    requires n < |es| && Gives(s, es, a, AuctionStatus.Cancelled, n)
    ensures CancelledBy(s, es, a, n)
  {
    CancelMeans(Run(s, es[..n]), es[n], a);
  }

  /** Nothing else cancels an auction. */
  lemma CancelledHasCause(s: Database, es: seq<Event>, a: nat)
    requires Fresh(s) && a < |Run(s, es).auctions| && Run(s, es).auctions[a].status.Cancelled?
    ensures exists n | 0 <= n < |es| :: CancelledBy(s, es, a, n)
  {
    StatusHasCause(s, es, a);
    var n :| 0 <= n < |es| && Gives(s, es, a, AuctionStatus.Cancelled, n);
    GivesCancelled(s, es, a, n);
  }

  ghost predicate EndedEmptyBy(s: Database, es: seq<Event>, a: nat, n: nat)
    requires n < |es|
  {
    var t := Run(s, es[..n]);
    es[n] == SettleStep(a) && a in t.settling && a < |t.auctions| && t.auctions[a].highest.None?
  }

  lemma GivesNoBids(s: Database, es: seq<Event>, a: nat, n: nat)
    requires n < |es| && Gives(s, es, a, EndedNoBids, n)
    ensures EndedEmptyBy(s, es, a, n)
  {
  }

  /** An auction is ENDED_NO_BIDS only by the settlement of a claim that found it without a bid. */
  lemma EndedNoBidsHasCause(s: Database, es: seq<Event>, a: nat)
    requires Fresh(s) && a < |Run(s, es).auctions| && Run(s, es).auctions[a].status.EndedNoBids?
    ensures exists n | 0 <= n < |es| :: EndedEmptyBy(s, es, a, n)
  {
    StatusHasCause(s, es, a);
    var n :| 0 <= n < |es| && Gives(s, es, a, EndedNoBids, n);
    GivesNoBids(s, es, a, n);
  }

  // ---- Nothing runs before its start ----

  predicate Begun(status: AuctionStatus) {
    !status.Draft? && !status.Scheduled? && !status.Cancelled?
  }

  ghost predicate StartFits(s: Database, a: nat)
    requires a < |s.auctions|
  {
    Begun(s.auctions[a].status) || a in s.settling ==> s.auctions[a].startsAt <= s.now + 30 * SECOND
  }

  ghost predicate PlacedInTime(s: Database, i: nat)
    requires i < |s.bids|
  {
    s.auctions[s.bids[i].auction].startsAt - 30 * SECOND <= s.bids[i].placedAt
  }

  ghost predicate Started(s: Database) {
    && (forall a | 0 <= a < |s.auctions| :: StartFits(s, a))
    && (forall i | 0 <= i < |s.bids| :: PlacedInTime(s, i))
  }

  lemma NewlySettling(s: Database, e: Event, a: nat)
    requires a in Step(s, e).settling
    ensures a in s.settling || (a < |s.auctions| && s.auctions[a].status.Active?)
  {
    match e {
      case BidStep(u, b, x) => BidFrame(s, u, b, x);
      case SettleStep(b) => SettleFields(s, b);
      case HandleStep(b) => HandleFields(s, b);
      case _ => EventEvolves(s, e);
    }
  }

  lemma ManagedStart(s: Database, e: ManageEvent, a: nat)
    requires a < |s.auctions|
    ensures a < |DoManage(s, e).auctions| && DoManage(s, e).auctions[a].startsAt == s.auctions[a].startsAt
  {
  }

  lemma StartStays(s: Database, e: Event, a: nat)
    requires a < |s.auctions|
    ensures a < |Step(s, e).auctions|
    ensures !s.auctions[a].status.Draft? || StatusAfter(s, e, a) != Draft ==>
              Step(s, e).auctions[a].startsAt == s.auctions[a].startsAt
  {
    StepProgresses(s, e, a);
    match e {
      case DraftStep(d) =>
      case ManageStep(m) => ManagedStart(s, m, a);
      case _ =>
    }
  }

  lemma StepStartFits(s: Database, e: Event, a: nat)
    requires Chained(s) && Started(s) && a < |Step(s, e).auctions|
    ensures StartFits(Step(s, e), a)
  {
    ConfigurationFrame(s, e);
    if a in Step(s, e).settling {
      NewlySettling(s, e, a);
    }
    if a < |s.auctions| {
      StepStatus(s, e, a);
      StartStays(s, e, a);
      assert StartFits(s, a) && AuctionFits(s, a);
    } else {
      NewAuctionIsDraft(s, e, a);
      assert a !in s.settling;
    }
  }

  /** A new bid lies on a running auction. */
  lemma NewBidInTime(s: Database, u: nat, a: nat, x: Kobo, i: nat)
    requires Chained(s) && Started(s) && i < |PlaceBid(s, u, a, x).bids|
    ensures PlacedInTime(PlaceBid(s, u, a, x), i)
  {
    if Bids(s, u, a, x) {
      BidFields(s, u, a, x);
      assert StartFits(s, a);
    }
    assert i < |s.bids| ==> PlacedInTime(s, i);
  }

  lemma KeptBid(s: Database, e: Event, i: nat)
    requires !e.BidStep? && i < |Step(s, e).bids|
    ensures i < |s.bids|
    ensures Step(s, e).bids[i].auction == s.bids[i].auction && Step(s, e).bids[i].placedAt == s.bids[i].placedAt
  {
    match e {
      case SettleStep(b) => SettleFields(s, b);
      case HandleStep(b) => HandleFields(s, b);
      case _ => EventEvolves(s, e);
    }
  }

  lemma OldBidInTime(s: Database, e: Event, i: nat)
    requires Chained(s) && Started(s) && !e.BidStep? && i < |Step(s, e).bids|
    ensures PlacedInTime(Step(s, e), i)
  {
    var a := Step(s, e).bids[i].auction;
    KeptBid(s, e, i);
    assert PlacedInTime(s, i) && StatusFits(s, i);
    StartStays(s, e, a);
  }

  lemma StepStarted(s: Database, e: Event)
    requires Chained(s) && Started(s)
    ensures Started(Step(s, e))
  {
    var t := Step(s, e);
    forall a | 0 <= a < |t.auctions| ensures StartFits(t, a) {
      StepStartFits(s, e, a);
    }
    forall i | 0 <= i < |t.bids| ensures PlacedInTime(t, i) {
      match e {
        case BidStep(u, a, x) => NewBidInTime(s, u, a, x, i);
        case _ => OldBidInTime(s, e, i);
      }
    }
  }

  lemma {:induction false} RunStarted(s: Database, es: seq<Event>)
    requires Fresh(s)
    ensures Started(Run(s, es))
  {
    if es == [] {
    } else {
      RunStarted(s, es[..|es| - 1]);
      RunChained(s, es[..|es| - 1]);
      StepStarted(Run(s, es[..|es| - 1]), es[|es| - 1]);
    }
  }

  /**
   Main result: in every reachable state no auction runs, or has run, more than half a minute before its start, and
   no bid was placed earlier than that.
   */
  lemma AlwaysStarted(t: Database)
    requires Reachable(t)
    ensures forall a | 0 <= a < |t.auctions| && Begun(t.auctions[a].status) ::
              t.auctions[a].startsAt <= t.now + 30 * SECOND
    ensures forall i | 0 <= i < |t.bids| :: t.auctions[t.bids[i].auction].startsAt - 30 * SECOND <= t.bids[i].placedAt
  {
    var s, es :| ReachedBy(t, s, es);
    RunStarted(s, es);
    forall a | 0 <= a < |t.auctions| && Begun(t.auctions[a].status)
      ensures t.auctions[a].startsAt <= t.now + 30 * SECOND
    {
      assert StartFits(t, a);
    }
    forall i | 0 <= i < |t.bids|
      ensures t.auctions[t.bids[i].auction].startsAt - 30 * SECOND <= t.bids[i].placedAt
    {
      assert PlacedInTime(t, i);
    }
  }
}

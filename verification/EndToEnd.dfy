/** From bid to sale: what a SETTLED auction guarantees, and how far bidding can go. */
module EndToEnd {
  import opened Domain
  import opened Tallies
  import opened Tiers
  import opened Limits
  import opened Bidding
  import opened Auctions
  import opened Commissions
  import opened Settlement
  import opened Protocol
  import opened History
  import opened BidChain
  import opened Sales

  // ---- The sale ----

  /** Order `o` sells auction `a` to the strict maximum over all its bids, of any status. */
  ghost predicate SoldToHighest(s: Database, a: nat, o: nat)
    requires a < |s.auctions| && o < |s.orders| == |s.escrows|
  {
    var order, x := s.orders[o], s.escrows[o];
    var auction := s.auctions[a];
    && order.auction == a && x.auction == a && x.order == o
    && auction.highest.Some?
    && var h := auction.highest.value;
       && s.bids[h].auction == a
       && (forall i | 0 <= i < |s.bids| && s.bids[i].auction == a && i != h :: s.bids[i].amount < s.bids[h].amount)
       && order.buyer == x.winner == s.bids[h].bidder
       && order.amount == x.amount == s.bids[h].amount
       && order.seller == x.seller == auction.seller
       && order.buyer != order.seller
       && auction.prices != [] && auction.prices[0] <= order.amount
       && (auction.reserve.Some? ==> auction.reserve.value <= order.amount)
       && x.commission == CommissionOf(x.amount)
  }

  /** Main result: a SETTLED auction was sold, to the strict maximum, at no less than starting price and reserve. */
  lemma SettledMeansSold(t: Database, a: nat)
    requires Reachable(t) && a < |t.auctions| && t.auctions[a].status.Settled?
    ensures |t.orders| == |t.escrows| && exists o | 0 <= o < |t.orders| :: SoldToHighest(t, a, o)
  {
    AlwaysChained(t);
    AlwaysPaired(t);
    assert AuctionFits(t, a);
    var h := t.auctions[a].highest.value;
    assert StatusFits(t, h) && Lawful(t, h);
    var o :| 0 <= o < |t.orders| && t.orders[o].auction == a;
    assert SaleFits(t, o) && PairFits(t, o);
    forall i | 0 <= i < |t.bids| && t.bids[i].auction == a && i != h ensures t.bids[i].amount < t.bids[h].amount {
      assert Leads(t, i);
    }
    assert SoldToHighest(t, a, o);
  }

  /** The event at position `n` of the run placed bid `i`, while the auction's end then in force lay ahead. */
  ghost predicate PlacedAt(s: Database, es: seq<Event>, i: nat, n: nat)
    requires n < |es| && i < |Run(s, es).bids|
  {
    var p, b := Run(s, es[..n]), Run(s, es).bids[i];
    && |p.bids| == i
    && es[n] == BidStep(b.bidder, b.auction, b.amount)
    && Bids(p, b.bidder, b.auction, b.amount)
    && b.placedAt == p.now < p.auctions[b.auction].endsAt
    && p.auctions[b.auction].status.Active?
  }

  lemma BidKept(s: Database, es: seq<Event>, e: Event, i: nat)
    requires i < |Run(s, es).bids|
    ensures i < |Run(s, es + [e]).bids| && SameBid(Run(s, es).bids[i], Run(s, es + [e]).bids[i])
  {
    RunAppend(s, es, e);
    StepExtends(Run(s, es), e);
  }

  lemma PlacedEarlier(s: Database, es: seq<Event>, e: Event, i: nat, n: nat)
    requires n < |es| && i < |Run(s, es).bids| && PlacedAt(s, es, i, n)
    ensures i < |Run(s, es + [e]).bids| && PlacedAt(s, es + [e], i, n)
  {
    BidKept(s, es, e, i);
    assert (es + [e])[..n] == es[..n];
  }

  /** Only an accepted bid adds a bid, and it adds exactly one. */
  lemma NewBidEvent(s: Database, e: Event)
    requires Chained(s) && |Step(s, e).bids| > |s.bids|
    ensures e.BidStep? && Bids(s, e.user, e.auction, e.amount)
    ensures |Step(s, e).bids| == |s.bids| + 1
    ensures Step(s, e).bids[|s.bids|] == Bid(e.auction, e.user, e.amount, BidStatus.Active, s.now, Some(|s.ledger|))
    ensures s.auctions[e.auction].status.Active? && s.now < s.auctions[e.auction].endsAt
  {
    match e {
      case BidStep(u, a, amount) => BidFields(s, u, a, amount);
      case SettleStep(a) =>
        SettleFields(s, a);
        assert false;
      case HandleStep(a) =>
        HandleFields(s, a);
        assert false;
      case _ =>
        EventEvolves(s, e);
        assert false;
    }
  }

  lemma PlacedNow(s: Database, es: seq<Event>, e: Event, i: nat)
    requires Fresh(s) && |Run(s, es).bids| <= i < |Run(s, es + [e]).bids|
    ensures PlacedAt(s, es + [e], i, |es|)
  {
    RunAppend(s, es, e);
    RunChained(s, es);
    NewBidEvent(Run(s, es), e);
    assert (es + [e])[..|es|] == es;
  }

  /** Every bid on record was placed by one event of the run that passed every check at that time. */
  lemma {:induction false} EveryBidWasAccepted(s: Database, es: seq<Event>, i: nat)
    requires Fresh(s) && i < |Run(s, es).bids|
    ensures exists n | 0 <= n < |es| :: PlacedAt(s, es, i, n)
  {
    var k := |es| - 1;
    LastEvent(es);
    if i < |Run(s, es[..k]).bids| {
      EveryBidWasAccepted(s, es[..k], i);
      var n :| 0 <= n < k && PlacedAt(s, es[..k], i, n);
      PlacedEarlier(s, es[..k], es[k], i, n);
    } else {
      PlacedNow(s, es[..k], es[k], i);
    }
  }

  /** OUTBID is written and overwritten inside one transaction: it is never seen. */
  lemma NeverOutbid(t: Database, i: nat)
    requires Reachable(t) && i < |t.bids|
    ensures !t.bids[i].status.Outbid?
  {
    AlwaysChained(t);
    assert StatusFits(t, i) && Leads(t, i);
  }

  lemma LeaderIsMaximum(s: Database, a: nat, i: nat)
    requires Ordered(s) && a < |s.auctions| && i < |s.bids| && s.bids[i].auction == a
    ensures s.auctions[a].highest.Some? && s.bids[i].amount <= s.bids[s.auctions[a].highest.value].amount
  {
    assert Leads(s, i);
  }

  /** While an auction runs and once it is SETTLED, pointer, query and maximum over all bids are the same bid. */
  lemma ThreeHighestAgree(t: Database, a: nat)
    requires Reachable(t) && a < |t.auctions|
    requires var status := t.auctions[a].status; status.Active? || status.SettlementInProgress? || status.Settled?
    ensures HighestBid(t.bids, a) == t.auctions[a].highest
    ensures forall i | 0 <= i < |t.bids| && t.bids[i].auction == a ::
              t.auctions[a].highest.Some? && t.bids[i].amount <= t.bids[t.auctions[a].highest.value].amount
  {
    AlwaysChained(t);
    HighestIsLeader(t, a);
    forall i | 0 <= i < |t.bids| && t.bids[i].auction == a
      ensures t.auctions[a].highest.Some? && t.bids[i].amount <= t.bids[t.auctions[a].highest.value].amount
    {
      LeaderIsMaximum(t, a, i);
    }
  }

  // ---- Bidding is finite ----

  ghost predicate FirstBid(bids: seq<Bid>, f: nat) {
    f < |bids| && forall i | 0 <= i < f :: bids[i].auction != bids[f].auction
  }

  /** How far `n` bids are above the first when each is at least `d` above the one before. */
  function Ascent(n: int, d: Kobo): Kobo {
    (n - 1) * d
  }

  lemma AscentStep(n: int, d: Kobo)
    ensures Ascent(n + 1, d) == Ascent(n, d) + d
    ensures Ascent(1, d) == 0
  {
  }

  ghost predicate ClimbsFrom(s: Database, d: Kobo, f: nat)
    requires f < |s.bids|
  {
    var a := s.bids[f].auction;
    && s.auctions[a].highest.Some?
    && s.bids[s.auctions[a].highest.value].amount >= s.bids[f].amount + Ascent(BidCount(s.bids, a), d)
  }

  ghost predicate Climbs(s: Database, d: Kobo) {
    forall f | 0 <= f < |s.bids| && FirstBid(s.bids, f) :: ClimbsFrom(s, d, f)
  }

  lemma CountAfterBid(s: Database, bidder: nat, a: nat, amount: Kobo, x: nat)
    requires Chained(s) && Bids(s, bidder, a, amount)
    ensures BidCount(PlaceBid(s, bidder, a, amount).bids, x) == BidCount(s.bids, x) + if x == a then 1 else 0
  {
    BidFields(s, bidder, a, amount);
    assert CountEntries(PlaceBid(s, bidder, a, amount).bids) == CountEntries(s.bids) + [Entry(a, 1)];
    TallyAppend(CountEntries(s.bids), Entry(a, 1), x);
  }

  lemma CountWithout(bids: seq<Bid>, a: nat)
    requires forall i | 0 <= i < |bids| :: bids[i].auction != a
    ensures BidCount(bids, a) == 0
  {
    NoRowOf(CountEntries(bids), a);
  }

  lemma FirstBidStays(s: Database, bidder: nat, a: nat, amount: Kobo, f: nat)
    requires Chained(s) && Bids(s, bidder, a, amount) && FirstBid(PlaceBid(s, bidder, a, amount).bids, f)
    ensures f <= |s.bids| && (f < |s.bids| ==> FirstBid(s.bids, f))
    ensures var t := PlaceBid(s, bidder, a, amount);
            if f < |s.bids| then t.bids[f].auction == s.bids[f].auction && t.bids[f].amount == s.bids[f].amount
            else
              && t.bids[f].auction == a && t.bids[f].amount == amount
              && forall i | 0 <= i < |s.bids| :: s.bids[i].auction != a
  {
    BidFields(s, bidder, a, amount);
    var t := PlaceBid(s, bidder, a, amount);
    assert forall i | 0 <= i < |s.bids| ::
        t.bids[i].auction == s.bids[i].auction && t.bids[i].amount == s.bids[i].amount;
  }

  lemma BidClimbsFrom(s: Database, bidder: nat, a: nat, amount: Kobo, d: Kobo, f: nat)
    requires Chained(s) && Climbs(s, d) && StepsAtLeast(s.tiers, d) && Bids(s, bidder, a, amount)
    requires FirstBid(PlaceBid(s, bidder, a, amount).bids, f)
    ensures ClimbsFrom(PlaceBid(s, bidder, a, amount), d, f)
  {
    var t := PlaceBid(s, bidder, a, amount);
    BidFields(s, bidder, a, amount);
    var x := t.bids[f].auction;
    CountAfterBid(s, bidder, a, amount, x);
    AscentStep(BidCount(s.bids, x), d);
    FirstBidStays(s, bidder, a, amount, f);
    if f < |s.bids| {
      assert ClimbsFrom(s, d, f);
      if x == a {
        IncrementBounds(s.tiers, d, s.bids[s.auctions[a].highest.value].amount);
      }
    } else {
      CountWithout(s.bids, x);
    }
  }

  lemma BidClimbs(s: Database, bidder: nat, a: nat, amount: Kobo, d: Kobo)
    requires Chained(s) && Climbs(s, d) && StepsAtLeast(s.tiers, d) && Bids(s, bidder, a, amount)
    ensures Climbs(PlaceBid(s, bidder, a, amount), d)
  {
    var t := PlaceBid(s, bidder, a, amount);
    forall f | 0 <= f < |t.bids| && FirstBid(t.bids, f) ensures ClimbsFrom(t, d, f) {
      BidClimbsFrom(s, bidder, a, amount, d, f);
    }
  }

  /** Other events keep every bid's auction and amount and every auction's pointer. */
  ghost predicate SameBids(s: Database, t: Database) {
    && |t.bids| == |s.bids| && |s.auctions| <= |t.auctions|
    && (forall i | 0 <= i < |s.bids| :: t.bids[i].auction == s.bids[i].auction && t.bids[i].amount == s.bids[i].amount)
    && (forall a | 0 <= a < |s.auctions| :: t.auctions[a].highest == s.auctions[a].highest)
  }

  lemma OtherSameBids(s: Database, e: Event)
    requires !e.BidStep?
    ensures SameBids(s, Step(s, e))
  {
    if e.SettleStep? {
      SettleFields(s, e.auction);
    } else if e.HandleStep? {
      HandleFields(s, e.auction);
    } else {
      EventEvolves(s, e);
      forall a | 0 <= a < |s.auctions| ensures Step(s, e).auctions[a].highest == s.auctions[a].highest {
        assert Evolves(s.auctions[a], Step(s, e).auctions[a]);
      }
    }
  }

  lemma StillClimbs(s: Database, t: Database, d: Kobo)
    requires Climbs(s, d) && SameBids(s, t)
    ensures Climbs(t, d)
  {
    assert CountEntries(t.bids) == CountEntries(s.bids);
    forall f | 0 <= f < |t.bids| && FirstBid(t.bids, f) ensures ClimbsFrom(t, d, f) {
      assert FirstBid(s.bids, f) && ClimbsFrom(s, d, f);
    }
  }

  lemma StepClimbs(s: Database, e: Event, d: Kobo)
    requires Chained(s) && Climbs(s, d) && StepsAtLeast(s.tiers, d)
    ensures Climbs(Step(s, e), d)
  {
    if !e.BidStep? {
      OtherSameBids(s, e);
      StillClimbs(s, Step(s, e), d);
    } else if Bids(s, e.user, e.auction, e.amount) {
      BidClimbs(s, e.user, e.auction, e.amount, d);
    }
  }

  lemma {:induction false} RunTiers(s: Database, es: seq<Event>)
    ensures Run(s, es).tiers == s.tiers
  {
    if es == [] {
    } else {
      RunTiers(s, es[..|es| - 1]);
      ConfigurationFrame(Run(s, es[..|es| - 1]), es[|es| - 1]);
    }
  }

  lemma {:induction false} RunClimbs(s: Database, es: seq<Event>, d: Kobo)
    requires Fresh(s) && StepsAtLeast(s.tiers, d)
    ensures Climbs(Run(s, es), d)
  {
    if es == [] {
    } else {
      RunClimbs(s, es[..|es| - 1], d);
      RunChained(s, es[..|es| - 1]);
      RunTiers(s, es[..|es| - 1]);
      StepClimbs(Run(s, es[..|es| - 1]), es[|es| - 1], d);
    }
  }

  lemma AlwaysClimbs(t: Database, d: Kobo)
    requires Reachable(t) && StepsAtLeast(t.tiers, d)
    ensures Climbs(t, d)
  {
    var s, es :| ReachedBy(t, s, es);
    RunTiers(s, es);
    RunClimbs(s, es, d);
  }

  lemma CapHolds(t: Database, i: nat)
    requires Reachable(t) && i < |t.bids|
    ensures t.bids[i].amount <= MAX_BID
  {
    AlwaysChained(t);
    assert Lawful(t, i);
  }

  /**
   Main result: no auction can take bids forever. Its highest bid is at least first + (n - 1) * d and at most
   what the highest tier allows.
   */
  lemma BiddingIsFinite(t: Database, d: Kobo, f: nat)
    requires Reachable(t) && StepsAtLeast(t.tiers, d) && FirstBid(t.bids, f)
    ensures var n := BidCount(t.bids, t.bids[f].auction);
            && t.auctions[t.bids[f].auction].highest.Some?
            && t.bids[f].amount + (n - 1) * d <= t.bids[t.auctions[t.bids[f].auction].highest.value].amount <= MAX_BID
  {
    AlwaysClimbs(t, d);
    assert ClimbsFrom(t, d, f);
    CapHolds(t, t.auctions[t.bids[f].auction].highest.value);
  }

  /** Every accepted bid takes at least an increment off the room left below the cap. */
  lemma BidUsesUpRoom(s: Database, bidder: nat, a: nat, amount: Kobo)
    requires Chained(s) && Bids(s, bidder, a, amount) && s.auctions[a].highest.Some?
    ensures var t := PlaceBid(s, bidder, a, amount);
            var left, room := MAX_BID - t.bids[t.auctions[a].highest.value].amount,
                              MAX_BID - s.bids[s.auctions[a].highest.value].amount;
            0 <= left <= room - IncrementFor(s.tiers, s.bids[s.auctions[a].highest.value].amount) < room
  {
    BidFields(s, bidder, a, amount);
    IncrementPositive(s, s.bids[s.auctions[a].highest.value].amount);
  }

  // ---- From publication on ----

  ghost predicate InWindow(a: Auction) {
    !a.status.Draft? && a.startsAt < a.endsAt <= a.startsAt + MAX_DURATION
  }

  /** What an event may do to one auction that is not a draft any more. */
  ghost predicate Prolongs(x: Auction, y: Auction) {
    && !y.status.Draft?
    && y.startsAt == x.startsAt && y.prices == x.prices && y.reserve == x.reserve && y.seller == x.seller
    && (y.endsAt == x.endsAt || x.endsAt < y.endsAt <= x.startsAt + MAX_DURATION)
  }

  lemma StepProlongs(s: Database, e: Event, a: nat)
    requires a < |s.auctions| && !s.auctions[a].status.Draft?
    ensures a < |Step(s, e).auctions| && Prolongs(s.auctions[a], Step(s, e).auctions[a])
  {
    StepProgresses(s, e, a);
  }

  /**
   Main result: from the moment an auction is published, whatever its draft went through, its start, prices and
   reserve are fixed, and its end only grows, up to the maximum duration after the start.
   */
  lemma {:induction false} RunWindow(t: Database, fs: seq<Event>, a: nat)
    requires Reachable(t) && a < |t.auctions|
    requires !t.auctions[a].status.Draft? && !t.auctions[a].status.Cancelled?
    ensures a < |Run(t, fs).auctions|
    ensures var x, y := t.auctions[a], Run(t, fs).auctions[a];
            InWindow(y) && y.startsAt == x.startsAt && x.endsAt <= y.endsAt
            && y.prices == x.prices && y.reserve == x.reserve && y.seller == x.seller
  {
    if fs == [] {
      AlwaysChained(t);
      assert AuctionFits(t, a);
      assert AuctionOk(t.auctions[a], |t.users|, |t.bids|);
    } else {
      var gs := fs[..|fs| - 1];
      RunWindow(t, gs, a);
      StepProlongs(Run(t, gs), fs[|fs| - 1], a);
    }
  }
}

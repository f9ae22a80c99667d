/**
 Auctions and their bids: what holds of every auction in every reachable state, whoever bids, extends,
 cancels, claims or settles, and in whatever order.
 */
module BidChain {
  import opened Domain
  import opened Tiers
  import opened Limits
  import opened Bidding
  import opened Auctions
  import opened Settlement
  import opened Protocol

  // ---- The invariant ----

  ghost predicate Leads(s: Database, i: nat)
    requires i < |s.bids|
  {
    var h := s.auctions[s.bids[i].auction].highest;
    h.Some? && i <= h.value
  }

  /** `highest_bid_id` is the auction's last bid, and amounts strictly rise from bid to bid. */
  ghost predicate Ordered(s: Database) {
    && (forall i | 0 <= i < |s.bids| :: Leads(s, i))
    && (forall a | 0 <= a < |s.auctions| && s.auctions[a].highest.Some? ::
          s.bids[s.auctions[a].highest.value].auction == a)
    && (forall i, j | 0 <= i < j < |s.bids| && s.bids[i].auction == s.bids[j].auction ::
          s.bids[i].amount < s.bids[j].amount)
  }

  /** The status a bid must have, given its auction's. */
  ghost predicate StatusFits(s: Database, i: nat)
    requires i < |s.bids|
  {
    var b := s.bids[i];
    var a := s.auctions[b.auction];
    var last := a.highest == Some(i);
    match a.status
    case Active | SettlementInProgress => if last then b.status.Active? else b.status.Released?
    case Settled => if last then b.status.Won? else b.status.Lost?
    case EndedReserveNotMet => b.status.Lost?
    case Cancelled =>
      a.highest.Some?
      && if last then b.status.Active? || b.status.Won? || b.status.Lost?
         else if s.bids[a.highest.value].status.Active? then b.status.Released? else b.status.Lost?
    case _ => false
  }

  ghost predicate AuctionFits(s: Database, a: nat)
    requires a < |s.auctions|
  {
    var x := s.auctions[a];
    && !x.status.EndedWithWinner? && !x.status.SettlementFailed?
    && (x.status.Settled? || x.status.EndedReserveNotMet? ==> x.highest.Some?)
    && (a in s.settling ==> !x.status.Draft? && !x.status.Scheduled?)
    && (a in s.handling ==> a in s.settling && x.highest.Some?)
    && (!x.status.Draft? && !x.status.Cancelled? ==> x.endsAt <= x.startsAt + MAX_DURATION && x.prices != [])
  }

  ghost predicate Fitting(s: Database) {
    && (forall i | 0 <= i < |s.bids| :: StatusFits(s, i))
    && (forall a | 0 <= a < |s.auctions| :: AuctionFits(s, a))
    && (forall a | a in s.settling :: a < |s.auctions|)
    && (forall a | a in s.handling :: a < |s.auctions|)
  }

  /** What was checked when the bid was accepted is still true of the rows. */
  ghost predicate Lawful(s: Database, i: nat)
    requires i < |s.bids|
  {
    var b := s.bids[i];
    var a := s.auctions[b.auction];
    && b.bidder != a.seller
    && a.prices != [] && b.amount >= a.prices[0]
    && b.amount <= MAX_BID
    && b.placedAt <= s.now && b.placedAt < a.endsAt
    && a.endsAt <= a.startsAt + MAX_DURATION
  }

  ghost predicate Adjacent(bids: seq<Bid>, i: int, j: int) {
    0 <= i < j < |bids| && bids[i].auction == bids[j].auction
    && forall k | i < k < j :: bids[k].auction != bids[i].auction
  }

  /** The later of two consecutive bids is somebody else's and a full increment higher. */
  ghost predicate Overtakes(s: Database, i: nat, j: nat)
    requires i < |s.bids| && j < |s.bids|
  {
    && s.bids[i].bidder != s.bids[j].bidder
    && s.bids[j].amount >= s.bids[i].amount + IncrementFor(s.tiers, s.bids[i].amount)
  }

  ghost predicate AllLawful(s: Database) {
    && (forall i | 0 <= i < |s.bids| :: Lawful(s, i))
    && (forall i, j | Adjacent(s.bids, i, j) :: Overtakes(s, i, j))
  }

  ghost predicate Chained(s: Database) {
    Ordered(s) && Fitting(s) && AllLawful(s)
  }

  // ---- Events that change auctions but no bid ----

  /** How one auction may change when no bid is placed and nothing is settled. */
  ghost predicate Evolves(x: Auction, y: Auction) {
    && y.seller == x.seller && y.highest == x.highest
    && if x.status.Draft? then
         && (y.status.Draft? || y.status.Cancelled?
             || ((y.status.Scheduled? || y.status.Active?) && y.endsAt <= y.startsAt + MAX_DURATION && y.prices != []))
       else
         && y.prices == x.prices && y.reserve == x.reserve && y.startsAt == x.startsAt
         && x.endsAt <= y.endsAt
         && (y.endsAt == x.endsAt || y.endsAt <= y.startsAt + MAX_DURATION)
         && (y.status == x.status || y.status.Cancelled?
             || (x.status.Scheduled? && y.status.Active?)
             || (x.status.Active? && y.status.SettlementInProgress?))
  }

  ghost predicate Evolution(s: Database, t: Database) {
    && |s.auctions| <= |t.auctions|
    && (forall a | 0 <= a < |s.auctions| :: Evolves(s.auctions[a], t.auctions[a]))
    && (forall a | |s.auctions| <= a < |t.auctions| :: t.auctions[a].status.Draft? && t.auctions[a].highest.None?)
  }

  lemma DraftEvolves(s: Database, e: DraftEvent)
    ensures Evolution(s, DoDraft(s, e))
  {
  }

  lemma ManageEvolves(s: Database, e: ManageEvent)
    ensures Evolution(s, DoManage(s, e))
  {
  }

  lemma QueueEvolves(s: Database, e: QueueEvent)
    ensures Evolution(s, DoQueue(s, e))
    ensures s.settling <= DoQueue(s, e).settling
    ensures forall a | a in DoQueue(s, e).settling ::
              a in s.settling || (a < |s.auctions| && s.auctions[a].status.Active?)
  {
  }

  lemma EventEvolves(s: Database, e: Event)
    requires !e.BidStep? && !e.SettleStep? && !e.HandleStep?
    ensures Evolution(s, Step(s, e))
    ensures Step(s, e).bids == s.bids && Step(s, e).handling == s.handling
    ensures s.settling <= Step(s, e).settling
    ensures forall a | a in Step(s, e).settling ::
              a in s.settling || (a < |s.auctions| && s.auctions[a].status.Active?)
  {
    match e {
      case DraftStep(x) =>
        DraftFrame(s, x);
        DraftEvolves(s, x);
      case ManageStep(x) =>
        ManageFrame(s, x);
        ManageEvolves(s, x);
      case QueueStep(x) =>
        QueueFrame(s, x);
        QueueEvolves(s, x);
      case _ => AuctionsFrame(s, e);
    }
  }

  lemma QuietOrdered(s: Database, t: Database)
    requires Ordered(s) && t.bids == s.bids && Evolution(s, t)
    ensures Ordered(t)
  {
    forall i | 0 <= i < |t.bids| ensures Leads(t, i) {
      assert Leads(s, i);
      assert Evolves(s.auctions[s.bids[i].auction], t.auctions[s.bids[i].auction]);
    }
    forall a | 0 <= a < |t.auctions| && t.auctions[a].highest.Some?
      ensures t.bids[t.auctions[a].highest.value].auction == a
    {
      assert a < |s.auctions| ==> Evolves(s.auctions[a], t.auctions[a]);
    }
  }

  lemma QuietFitting(s: Database, t: Database)
    requires Ordered(s) && Fitting(s) && t.bids == s.bids && Evolution(s, t)
    requires t.handling == s.handling && s.settling <= t.settling
    requires forall a | a in t.settling :: a in s.settling || (a < |s.auctions| && s.auctions[a].status.Active?)
    ensures Fitting(t)
  {
    forall i | 0 <= i < |t.bids| ensures StatusFits(t, i) {
      var a := s.bids[i].auction;
      assert Leads(s, i) && StatusFits(s, i) && StatusFits(s, s.auctions[a].highest.value);
      assert Evolves(s.auctions[a], t.auctions[a]);
    }
    forall a | 0 <= a < |t.auctions| ensures AuctionFits(t, a) {
      if a < |s.auctions| {
        assert AuctionFits(s, a) && Evolves(s.auctions[a], t.auctions[a]);
      }
    }
  }

  lemma QuietLawful(s: Database, t: Database)
    requires AllLawful(s) && Fitting(s) && t.bids == s.bids && Evolution(s, t)
    requires t.tiers == s.tiers && t.now >= s.now
    ensures AllLawful(t)
  {
    forall i | 0 <= i < |t.bids| ensures Lawful(t, i) {
      var a := s.bids[i].auction;
      assert Lawful(s, i) && StatusFits(s, i) && Evolves(s.auctions[a], t.auctions[a]);
    }
    forall i, j | Adjacent(t.bids, i, j) ensures Overtakes(t, i, j) {
      assert Adjacent(s.bids, i, j) && Overtakes(s, i, j);
    }
  }

  // ---- A bid ----

  /** While an auction runs, the status-filtered query, the pointer and the last bid are the same bid. */
  lemma HighestIsLeader(s: Database, a: nat)
    requires Ordered(s) && Fitting(s) && a < |s.auctions|
    requires s.auctions[a].status.Active? || s.auctions[a].status.SettlementInProgress? || s.auctions[a].status.Settled?
    ensures HighestBid(s.bids, a) == s.auctions[a].highest
  {
    var h := s.auctions[a].highest;
    forall i | 0 <= i < |s.bids| && s.bids[i].auction == a ensures LiveOn(s.bids, i, a) <==> h == Some(i) {
      assert StatusFits(s, i) && Leads(s, i);
    }
  }

  ghost predicate Bids(s: Database, bidder: nat, a: nat, amount: Kobo) {
    BidError(s, bidder, a, amount).None?
  }

  lemma BidFields(s: Database, bidder: nat, a: nat, amount: Kobo)
    requires Chained(s) && Bids(s, bidder, a, amount)
    ensures var t := PlaceBid(s, bidder, a, amount);
            var h := s.auctions[a].highest;
            && t.auctions == s.auctions[a := s.auctions[a].(highest := Some(|s.bids|))]
            && t.bids == (if h.Some? then s.bids[h.value := s.bids[h.value].(status := BidStatus.Released)] else s.bids)
                         + [Bid(a, bidder, amount, BidStatus.Active, s.now, Some(|s.ledger|))]
            && t.settling == s.settling && t.handling == s.handling && t.tiers == s.tiers && t.now == s.now
    ensures s.auctions[a].highest.Some? ==>
              var h := s.auctions[a].highest.value;
              s.bids[h].bidder != bidder && amount >= s.bids[h].amount + IncrementFor(s.tiers, s.bids[h].amount)
    ensures s.auctions[a].highest.None? ==> s.auctions[a].prices != [] && amount >= s.auctions[a].prices[0]
    ensures s.auctions[a].status.Active? && s.now < s.auctions[a].endsAt && bidder != s.auctions[a].seller
    ensures bidder < |s.users| && 0 < amount <= LimitsFor(s.users[bidder].tier).maxBid <= MAX_BID
  {
    HighestIsLeader(s, a);
  }

  lemma BidLeads(s: Database, bidder: nat, a: nat, amount: Kobo, i: nat)
    requires Chained(s) && Bids(s, bidder, a, amount) && i < |PlaceBid(s, bidder, a, amount).bids|
    ensures Leads(PlaceBid(s, bidder, a, amount), i)
  {
    BidFields(s, bidder, a, amount);
    assert i < |s.bids| ==> Leads(s, i);
  }

  lemma IncrementPositive(s: Database, amount: Kobo)
    ensures IncrementFor(s.tiers, amount) > 0
  {
    assert FindTier(s.tiers, amount).Some? ==> TierOk(s.tiers[FindTier(s.tiers, amount).value]);
  }

  lemma BidRises(s: Database, bidder: nat, a: nat, amount: Kobo, i: nat)
    requires Chained(s) && Bids(s, bidder, a, amount) && i < |s.bids| && s.bids[i].auction == a
    ensures s.bids[i].amount < amount
  {
    BidFields(s, bidder, a, amount);
    assert Leads(s, i);
    var h := s.auctions[a].highest.value;
    IncrementPositive(s, s.bids[h].amount);
    assert i < h ==> s.bids[i].amount < s.bids[h].amount;
  }

  lemma BidOrdered(s: Database, bidder: nat, a: nat, amount: Kobo)
    requires Chained(s) && Bids(s, bidder, a, amount)
    ensures Ordered(PlaceBid(s, bidder, a, amount))
  {
    BidFields(s, bidder, a, amount);
    var t := PlaceBid(s, bidder, a, amount);
    forall i | 0 <= i < |t.bids| ensures Leads(t, i) {
      BidLeads(s, bidder, a, amount, i);
    }
    forall i, j | 0 <= i < j < |t.bids| && t.bids[i].auction == t.bids[j].auction
      ensures t.bids[i].amount < t.bids[j].amount
    {
      if j == |s.bids| {
        BidRises(s, bidder, a, amount, i);
      }
    }
  }

  lemma BidStatusFits(s: Database, bidder: nat, a: nat, amount: Kobo, i: nat)
    requires Chained(s) && Bids(s, bidder, a, amount) && i < |PlaceBid(s, bidder, a, amount).bids|
    ensures StatusFits(PlaceBid(s, bidder, a, amount), i)
  {
    BidFields(s, bidder, a, amount);
    if i < |s.bids| {
      assert StatusFits(s, i) && Leads(s, i);
      var h := s.auctions[s.bids[i].auction].highest.value;
      assert s.bids[h].auction == s.bids[i].auction;
    }
  }

  lemma BidFitting(s: Database, bidder: nat, a: nat, amount: Kobo)
    requires Chained(s) && Bids(s, bidder, a, amount)
    ensures Fitting(PlaceBid(s, bidder, a, amount))
  {
    BidFields(s, bidder, a, amount);
    var t := PlaceBid(s, bidder, a, amount);
    forall i | 0 <= i < |t.bids| ensures StatusFits(t, i) {
      BidStatusFits(s, bidder, a, amount, i);
    }
    forall x | 0 <= x < |t.auctions| ensures AuctionFits(t, x) {
      assert AuctionFits(s, x);
    }
  }

  /** The new minimum is at least the starting price, because every bid so far was. */
  lemma BidReachesPrice(s: Database, bidder: nat, a: nat, amount: Kobo)
    requires Chained(s) && Bids(s, bidder, a, amount)
    ensures s.auctions[a].prices != [] && amount >= s.auctions[a].prices[0]
    ensures s.auctions[a].endsAt <= s.auctions[a].startsAt + MAX_DURATION
  {
    BidFields(s, bidder, a, amount);
    assert AuctionFits(s, a);
    if s.auctions[a].highest.Some? {
      var h := s.auctions[a].highest.value;
      assert Lawful(s, h);
      IncrementPositive(s, s.bids[h].amount);
    }
  }

  lemma BidAllLawful(s: Database, bidder: nat, a: nat, amount: Kobo)
    requires Chained(s) && Bids(s, bidder, a, amount)
    ensures var t := PlaceBid(s, bidder, a, amount); forall i | 0 <= i < |t.bids| :: Lawful(t, i)
  {
    BidFields(s, bidder, a, amount);
    BidReachesPrice(s, bidder, a, amount);
    var t := PlaceBid(s, bidder, a, amount);
    forall i | 0 <= i < |t.bids| ensures Lawful(t, i) {
      assert i < |s.bids| ==> Lawful(s, i);
    }
  }

  lemma BidOvertakes(s: Database, bidder: nat, a: nat, amount: Kobo, i: nat, j: nat)
    requires Chained(s) && Bids(s, bidder, a, amount)
    requires Adjacent(PlaceBid(s, bidder, a, amount).bids, i, j)
    ensures Overtakes(PlaceBid(s, bidder, a, amount), i, j)
  {
    BidFields(s, bidder, a, amount);
    var t := PlaceBid(s, bidder, a, amount);
    assert forall k | 0 <= k < |s.bids| :: t.bids[k].auction == s.bids[k].auction;
    if j < |s.bids| {
      assert Adjacent(s.bids, i, j) && Overtakes(s, i, j);
    } else {
      assert Leads(s, i);
      assert t.bids[s.auctions[a].highest.value].auction == a;
    }
  }

  lemma BidLawful(s: Database, bidder: nat, a: nat, amount: Kobo)
    requires Chained(s) && Bids(s, bidder, a, amount)
    ensures AllLawful(PlaceBid(s, bidder, a, amount))
  {
    BidAllLawful(s, bidder, a, amount);
    var t := PlaceBid(s, bidder, a, amount);
    forall i, j | Adjacent(t.bids, i, j) ensures Overtakes(t, i, j) {
      BidOvertakes(s, bidder, a, amount, i, j);
    }
  }

  // ---- Settlement ----

  /** The settlement task finds what the judgement needs: it never aborts on a missing pointer or item. */
  lemma JudgeFields(s: Database, a: nat)
    requires Chained(s) && a < |s.auctions| && a in s.settling
    ensures Judge(s, a) in {ReserveNotMet, Sold} ==>
              && s.auctions[a].highest.Some?
              && s.bids[s.auctions[a].highest.value].auction == a
              && s.bids[s.auctions[a].highest.value].status.Active?
              && (s.auctions[a].status.Active? || s.auctions[a].status.SettlementInProgress?)
    ensures Judge(s, a) == NoBids ==> s.auctions[a].highest.None?
    ensures Judge(s, a) == Abort ==>
              && s.auctions[a].highest.Some?
              && s.bids[s.auctions[a].highest.value].status.Active?
              && var bid := s.bids[s.auctions[a].highest.value];
                 bid.amount > s.wallets[bid.bidder].locked
  {
    assert AuctionFits(s, a);
    if s.auctions[a].highest.Some? {
      assert StatusFits(s, s.auctions[a].highest.value);
      assert s.bids[s.auctions[a].highest.value].auction == a;
    } else {
      forall i | 0 <= i < |s.bids| ensures s.bids[i].auction != a {
        assert Leads(s, i);
      }
    }
  }

  lemma SettleFields(s: Database, a: nat)
    ensures var t := Settle(s, a);
            && t.settling == s.settling && t.tiers == s.tiers && t.now == s.now
            && t.handling == (if a in s.settling && a < |s.auctions| && Judge(s, a) == ReserveNotMet
                              then s.handling + {a} else s.handling)
            && |t.auctions| == |s.auctions|
            && (forall x | 0 <= x < |s.auctions| && x != a :: t.auctions[x] == s.auctions[x])
            && (a < |s.auctions| ==> t.auctions[a] == s.auctions[a].(status := t.auctions[a].status))
            && |t.bids| == |s.bids|
            && (forall i | 0 <= i < |s.bids| :: t.bids[i] == s.bids[i].(status := t.bids[i].status))
            && (forall i | 0 <= i < |s.bids| && s.bids[i].auction != a :: t.bids[i] == s.bids[i])
  {
  }

  lemma SettleOrdered(s: Database, a: nat)
    requires Chained(s)
    ensures Ordered(Settle(s, a))
  {
    SettleFields(s, a);
    var t := Settle(s, a);
    forall i | 0 <= i < |t.bids| ensures Leads(t, i) {
      assert Leads(s, i);
    }
  }

  lemma SettleStatusFits(s: Database, a: nat, i: nat)
    requires Chained(s) && i < |s.bids|
    ensures i < |Settle(s, a).bids| && StatusFits(Settle(s, a), i)
  {
    SettleFields(s, a);
    if a in s.settling && a < |s.auctions| {
      JudgeFields(s, a);
    }
    assert StatusFits(s, i) && Leads(s, i);
    var h := s.auctions[s.bids[i].auction].highest.value;
    assert s.bids[h].auction == s.bids[i].auction;
  }

  lemma SettleFitting(s: Database, a: nat)
    requires Chained(s)
    ensures Fitting(Settle(s, a))
  {
    SettleFields(s, a);
    var t := Settle(s, a);
    if a in s.settling && a < |s.auctions| {
      JudgeFields(s, a);
    }
    forall i | 0 <= i < |t.bids| ensures StatusFits(t, i) {
      SettleStatusFits(s, a, i);
    }
    forall x | 0 <= x < |t.auctions| ensures AuctionFits(t, x) {
      assert AuctionFits(s, x);
    }
  }

  lemma SettleLawful(s: Database, a: nat)
    requires Chained(s)
    ensures AllLawful(Settle(s, a))
  {
    SettleFields(s, a);
    var t := Settle(s, a);
    forall i | 0 <= i < |t.bids| ensures Lawful(t, i) {
      assert Lawful(s, i);
    }
    forall i, j | Adjacent(t.bids, i, j) ensures Overtakes(t, i, j) {
      assert forall k | 0 <= k < |s.bids| :: t.bids[k].auction == s.bids[k].auction;
      assert Adjacent(s.bids, i, j) && Overtakes(s, i, j);
    }
  }

  // ---- The reserve handler, whenever it runs ----

  lemma HandleFields(s: Database, a: nat)
    ensures var t := Handle(s, a);
            && t.settling == s.settling && t.handling == s.handling && t.tiers == s.tiers && t.now == s.now
            && |t.auctions| == |s.auctions|
            && (forall x | 0 <= x < |s.auctions| && x != a :: t.auctions[x] == s.auctions[x])
            && (t == s || (a < |s.auctions| && t.bids == CloseBids(s.bids, a, None)
                           && t.auctions[a] == s.auctions[a].(status := EndedReserveNotMet)))
  {
  }

  lemma HandleOrdered(s: Database, a: nat)
    requires Chained(s)
    ensures Ordered(Handle(s, a))
  {
    HandleFields(s, a);
    var t := Handle(s, a);
    forall i | 0 <= i < |t.bids| ensures Leads(t, i) {
      assert Leads(s, i);
    }
  }

  lemma HandleStatusFits(s: Database, a: nat, i: nat)
    requires Chained(s) && i < |s.bids|
    ensures i < |Handle(s, a).bids| && StatusFits(Handle(s, a), i)
  {
    HandleFields(s, a);
    assert StatusFits(s, i) && Leads(s, i);
    var h := s.auctions[s.bids[i].auction].highest.value;
    assert s.bids[h].auction == s.bids[i].auction;
  }

  lemma HandleFitting(s: Database, a: nat)
    requires Chained(s)
    ensures Fitting(Handle(s, a))
  {
    HandleFields(s, a);
    var t := Handle(s, a);
    forall i | 0 <= i < |t.bids| ensures StatusFits(t, i) {
      HandleStatusFits(s, a, i);
    }
    forall x | 0 <= x < |t.auctions| ensures AuctionFits(t, x) {
      assert AuctionFits(s, x);
      assert s.auctions[x].highest.Some? ==> Lawful(s, s.auctions[x].highest.value);
    }
  }

  lemma HandleLawful(s: Database, a: nat)
    requires Chained(s)
    ensures AllLawful(Handle(s, a))
  {
    HandleFields(s, a);
    var t := Handle(s, a);
    forall i | 0 <= i < |t.bids| ensures Lawful(t, i) {
      assert Lawful(s, i);
    }
    forall i, j | Adjacent(t.bids, i, j) ensures Overtakes(t, i, j) {
      assert forall k | 0 <= k < |s.bids| :: t.bids[k].auction == s.bids[k].auction;
      assert Adjacent(s.bids, i, j) && Overtakes(s, i, j);
    }
  }

  // ---- Every event, every run ----

  lemma StepChained(s: Database, e: Event)
    requires Chained(s)
    ensures Chained(Step(s, e))
  {
    if e.BidStep? {
      if Bids(s, e.user, e.auction, e.amount) {
        BidOrdered(s, e.user, e.auction, e.amount);
        BidFitting(s, e.user, e.auction, e.amount);
        BidLawful(s, e.user, e.auction, e.amount);
      }
    } else if e.SettleStep? {
      SettleOrdered(s, e.auction);
      SettleFitting(s, e.auction);
      SettleLawful(s, e.auction);
    } else if e.HandleStep? {
      HandleOrdered(s, e.auction);
      HandleFitting(s, e.auction);
      HandleLawful(s, e.auction);
    } else {
      EventEvolves(s, e);
      ConfigurationFrame(s, e);
      QuietOrdered(s, Step(s, e));
      QuietFitting(s, Step(s, e));
      QuietLawful(s, Step(s, e));
    }
  }

  lemma {:induction false} RunChained(s: Database, es: seq<Event>)
    requires Fresh(s)
    ensures Chained(Run(s, es))
  {
    if es == [] {
    } else {
      RunChained(s, es[..|es| - 1]);
      StepChained(Run(s, es[..|es| - 1]), es[|es| - 1]);
    }
  }

  /** Main result: so it is in every reachable state. */
  lemma AlwaysChained(t: Database)
    requires Reachable(t)
    ensures Chained(t)
  {
    var s, es :| ReachedBy(t, s, es);
    RunChained(s, es);
  }

  // ---- What any event may do to one auction ----

  /** The auction is closed: by the reserve handler at any time, by a settlement only if it was not closed before. */
  ghost predicate ClosesAuction(x: Auction, y: Auction) {
    y == x.(status := y.status) && (y.status.EndedReserveNotMet? || (!Terminal(x.status) && Terminal(y.status)))
  }

  /** Overtaken by a bid, edited, published, prolonged, cancelled or claimed, or closed. */
  ghost predicate Progresses(x: Auction, y: Auction) {
    y == x.(highest := y.highest) || Evolves(x, y) || ClosesAuction(x, y)
  }

  lemma BidProgresses(s: Database, bidder: nat, b: nat, amount: Kobo, a: nat)
    requires a < |s.auctions|
    ensures var t := PlaceBid(s, bidder, b, amount); a < |t.auctions| && Progresses(s.auctions[a], t.auctions[a])
  {
  }

  lemma SettleProgresses(s: Database, b: nat, a: nat)
    requires a < |s.auctions|
    ensures var t := Settle(s, b); a < |t.auctions| && Progresses(s.auctions[a], t.auctions[a])
  {
  }

  lemma HandleProgresses(s: Database, b: nat, a: nat)
    requires a < |s.auctions|
    ensures var t := Handle(s, b); a < |t.auctions| && Progresses(s.auctions[a], t.auctions[a])
  {
  }

  lemma StepProgresses(s: Database, e: Event, a: nat)
    requires a < |s.auctions|
    ensures a < |Step(s, e).auctions| && Progresses(s.auctions[a], Step(s, e).auctions[a])
  {
    match e {
      case BidStep(u, b, amount) => BidProgresses(s, u, b, amount, a);
      case SettleStep(b) => SettleProgresses(s, b, a);
      case HandleStep(b) => HandleProgresses(s, b, a);
      case _ =>
        EventEvolves(s, e);
        assert Evolves(s.auctions[a], Step(s, e).auctions[a]);
    }
  }
}

/** Orders and escrows: one of each per sale, naming the auction's strict maximum. */
module Sales {
  import opened Domain
  import opened Bidding
  import opened Commissions
  import opened Settlement
  import opened Protocol
  import opened History
  import opened BidChain

  // ---- The invariant ----

  /** Order `o` and escrow `o` are written together and agree. */
  ghost predicate PairFits(s: Database, o: nat)
    requires o < |s.orders| == |s.escrows|
  {
    var order, x := s.orders[o], s.escrows[o];
    && x.order == o && x.auction == order.auction
    && x.winner == order.buyer && x.seller == order.seller && x.amount == order.amount
    && order.buyer != order.seller
    && x.commission == CommissionOf(x.amount)
  }

  ghost predicate Paired(s: Database) {
    |s.orders| == |s.escrows| && forall o | 0 <= o < |s.orders| :: PairFits(s, o)
  }

  /** The order names the bidder and amount of its auction's highest bid, WON unless the reserve handler came late. */
  ghost predicate SaleFits(s: Database, o: nat)
    requires o < |s.orders|
  {
    var order := s.orders[o];
    var a := s.auctions[order.auction];
    && a.highest.Some?
    && var b := s.bids[a.highest.value];
       && b.auction == order.auction && (b.status.Won? || b.status.Lost?)
       && order.buyer == b.bidder && order.amount == b.amount
       && order.seller == a.seller
       && (a.reserve.Some? ==> a.reserve.value <= order.amount)
       && (a.status.Settled? || a.status.Cancelled? || a.status.EndedReserveNotMet?)
  }

  ghost predicate HasOrder(s: Database, a: nat) {
    exists o :: 0 <= o < |s.orders| && s.orders[o].auction == a
  }

  ghost predicate Sold(s: Database) {
    && (forall o | 0 <= o < |s.orders| :: SaleFits(s, o))
    && (forall o, p | 0 <= o < p < |s.orders| :: s.orders[o].auction != s.orders[p].auction)
    && (forall i | 0 <= i < |s.bids| && s.bids[i].status.Won? :: HasOrder(s, s.bids[i].auction))
  }

  // ---- Events other than a settlement ----

  lemma OrderCounts(s: Database, e: Event)
    requires !e.SettleStep?
    ensures |Step(s, e).orders| == |s.orders| && |Step(s, e).escrows| == |s.escrows|
  {
    match e {
      case FulfilStep(x) => FulfilFrame(s, x);
      case CloseStep(x) => CloseFrame(s, x);
      case _ => OrdersFrame(s, e);
    }
  }

  lemma QuietPaired(s: Database, e: Event)
    requires Paired(s) && !e.SettleStep?
    ensures Paired(Step(s, e))
  {
    StepExtends(s, e);
    OrderCounts(s, e);
    var t := Step(s, e);
    forall o | 0 <= o < |t.orders| ensures PairFits(t, o) {
      assert PairFits(s, o) && SameOrder(s.orders[o], t.orders[o]) && SameEscrow(s.escrows[o], t.escrows[o]);
    }
  }

  lemma KeepsOrder(s: Database, t: Database, a: nat)
    requires HasOrder(s, a) && Extends(s, t)
    ensures HasOrder(t, a)
  {
    var o :| 0 <= o < |s.orders| && s.orders[o].auction == a;
    assert SameOrder(s.orders[o], t.orders[o]);
  }

  lemma QuietSold(s: Database, e: Event)
    requires Sold(s) && Chained(s) && !e.SettleStep? && !e.HandleStep? && !e.BidStep?
    ensures Sold(Step(s, e))
  {
    StepExtends(s, e);
    OrderCounts(s, e);
    EventEvolves(s, e);
    var t := Step(s, e);
    forall o | 0 <= o < |t.orders| ensures SaleFits(t, o) {
      var a := s.orders[o].auction;
      assert SaleFits(s, o) && SameOrder(s.orders[o], t.orders[o]);
      assert StatusFits(s, s.auctions[a].highest.value) && Evolves(s.auctions[a], t.auctions[a]);
    }
    forall i | 0 <= i < |t.bids| && t.bids[i].status.Won? ensures HasOrder(t, t.bids[i].auction) {
      KeepsOrder(s, t, s.bids[i].auction);
    }
  }

  lemma BidKeepsSale(s: Database, bidder: nat, a: nat, amount: Kobo, o: nat)
    requires Sold(s) && Chained(s) && Bids(s, bidder, a, amount) && o < |s.orders|
    ensures var t := PlaceBid(s, bidder, a, amount); t.orders == s.orders && SaleFits(t, o)
  {
    BidFields(s, bidder, a, amount);
    assert SaleFits(s, o);
  }

  lemma BidSold(s: Database, bidder: nat, a: nat, amount: Kobo)
    requires Sold(s) && Chained(s) && Bids(s, bidder, a, amount)
    ensures Sold(PlaceBid(s, bidder, a, amount))
  {
    BidFields(s, bidder, a, amount);
    BidExtends(s, bidder, a, amount);
    var t := PlaceBid(s, bidder, a, amount);
    assert t.orders == s.orders;
    forall o | 0 <= o < |t.orders| ensures SaleFits(t, o) {
      BidKeepsSale(s, bidder, a, amount, o);
    }
    forall i | 0 <= i < |t.bids| && t.bids[i].status.Won? ensures HasOrder(t, t.bids[i].auction) {
      KeepsOrder(s, t, s.bids[i].auction);
    }
  }

  // ---- A settlement ----

  lemma SettlePaired(s: Database, a: nat)
    requires Paired(s) && Chained(s)
    ensures Paired(Settle(s, a))
  {
    var t := Settle(s, a);
    if a in s.settling && a < |s.auctions| && Judge(s, a) == Verdict.Sold {
      JudgeFields(s, a);
      assert Lawful(s, s.auctions[a].highest.value);
      forall o | 0 <= o < |t.orders| ensures PairFits(t, o) {
        assert o < |s.orders| ==> PairFits(s, o);
      }
    } else {
      assert t.orders == s.orders && t.escrows == s.escrows;
      forall o | 0 <= o < |t.orders| ensures PairFits(t, o) {
        assert PairFits(s, o);
      }
    }
  }

  lemma SettleSaleFits(s: Database, a: nat, o: nat)
    requires Sold(s) && Chained(s) && o < |Settle(s, a).orders|
    ensures SaleFits(Settle(s, a), o)
  {
    SettleFields(s, a);
    if a in s.settling && a < |s.auctions| {
      JudgeFields(s, a);
    }
    assert o < |s.orders| ==> SaleFits(s, o);
  }

  lemma SettleSold(s: Database, a: nat)
    requires Sold(s) && Chained(s)
    ensures Sold(Settle(s, a))
  {
    SettleFields(s, a);
    SettleExtends(s, a);
    var t := Settle(s, a);
    if a in s.settling && a < |s.auctions| {
      JudgeFields(s, a);
    }
    forall o | 0 <= o < |t.orders| ensures SaleFits(t, o) {
      SettleSaleFits(s, a, o);
    }
    forall o, p | 0 <= o < p < |t.orders| ensures t.orders[o].auction != t.orders[p].auction {
      assert SaleFits(s, o);
    }
    forall i | 0 <= i < |t.bids| && t.bids[i].status.Won? ensures HasOrder(t, t.bids[i].auction) {
      if s.bids[i].status.Won? {
        KeepsOrder(s, t, s.bids[i].auction);
      } else {
        assert t.orders[|s.orders|].auction == s.bids[i].auction;
      }
    }
  }

  // ---- The reserve handler ----

  lemma HandleSaleFits(s: Database, a: nat, o: nat)
    requires Sold(s) && Chained(s) && o < |s.orders|
    ensures o < |Handle(s, a).orders| && SaleFits(Handle(s, a), o)
  {
    HandleFrame(s, a);
    HandleFields(s, a);
    assert SaleFits(s, o);
  }

  lemma HandleSold(s: Database, a: nat)
    requires Sold(s) && Chained(s)
    ensures Sold(Handle(s, a))
  {
    HandleFrame(s, a);
    HandleFields(s, a);
    var t := Handle(s, a);
    assert t.orders == s.orders;
    forall o | 0 <= o < |t.orders| ensures SaleFits(t, o) {
      HandleSaleFits(s, a, o);
    }
    forall i | 0 <= i < |t.bids| && t.bids[i].status.Won? ensures HasOrder(t, t.bids[i].auction) {
      var o :| 0 <= o < |s.orders| && s.orders[o].auction == s.bids[i].auction;
    }
  }

  // ---- Every event, every run ----

  lemma StepSales(s: Database, e: Event)
    requires Paired(s) && Sold(s) && Chained(s)
    ensures Paired(Step(s, e)) && Sold(Step(s, e))
  {
    if e.SettleStep? {
      SettlePaired(s, e.auction);
      SettleSold(s, e.auction);
    } else {
      QuietPaired(s, e);
      if e.HandleStep? {
        HandleSold(s, e.auction);
      } else if !e.BidStep? {
        QuietSold(s, e);
      } else if Bids(s, e.user, e.auction, e.amount) {
        BidSold(s, e.user, e.auction, e.amount);
      }
    }
  }

  lemma {:induction false} RunSales(s: Database, es: seq<Event>)
    requires Fresh(s)
    ensures Paired(Run(s, es)) && Sold(Run(s, es))
  {
    if es == [] {
    } else {
      RunSales(s, es[..|es| - 1]);
      RunChained(s, es[..|es| - 1]);
      StepSales(Run(s, es[..|es| - 1]), es[|es| - 1]);
    }
  }

  /** Main result: in every reachable state order and escrow agree and name the highest bid of their auction. */
  lemma AlwaysPaired(t: Database)
    requires Reachable(t)
    ensures Paired(t) && Sold(t)
  {
    var s, es :| ReachedBy(t, s, es);
    RunSales(s, es);
  }
}

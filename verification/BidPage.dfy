/** What the polled bid state says of the auction and of the user who polls it, in every reachable state. */
module BidPage {
  import opened Domain
  import opened Tallies
  import opened Bidding
  import opened Settlement
  import opened Protocol
  import opened BidChain
  import opened EndToEnd
  import opened Handling
  import BidLaws

  lemma CountedBid(bids: seq<Bid>, i: nat)
    requires i < |bids|
    ensures BidCount(bids, bids[i].auction) >= 1
  {
    TallyAtLeast(CountEntries(bids), i, bids[i].auction);
  }

  /** An auction has a highest bid exactly when its count of bids is positive. */
  lemma HighestCounted(t: Database, a: nat)
    requires Chained(t) && a < |t.auctions|
    ensures BidCount(t.bids, a) > 0 <==> t.auctions[a].highest.Some?
  {
    if t.auctions[a].highest.Some? {
      CountedBid(t.bids, t.auctions[a].highest.value);
    } else {
      forall i | 0 <= i < |t.bids| ensures t.bids[i].auction != a {
        assert Leads(t, i);
      }
      CountWithout(t.bids, a);
    }
  }

  /** The only bid the page's own-bid query can find is the highest one, while it is ACTIVE. */
  lemma OwnIsLeader(t: Database, a: nat, user: nat, i: nat)
    requires Chained(t) && a < |t.auctions|
    ensures OwnOn(t.bids, i, a, user) <==>
            t.auctions[a].highest == Some(i) && t.bids[i].status.Active? && t.bids[i].bidder == user
  {
    if i < |t.bids| && t.bids[i].auction == a {
      assert StatusFits(t, i) && Leads(t, i);
      if t.auctions[a].highest != Some(i) {
        OthersInactive(t, a, i);
      }
    }
  }

  lemma ActiveIsHighest(t: Database, a: nat)
    requires Chained(t) && a < |t.auctions|
    requires t.auctions[a].highest.Some? && t.bids[t.auctions[a].highest.value].status.Active?
    ensures HighestBid(t.bids, a) == t.auctions[a].highest
  {
    var h := t.auctions[a].highest.value;
    forall i | 0 <= i < |t.bids| && t.bids[i].auction == a ensures LiveOn(t.bids, i, a) <==> i == h {
      assert StatusFits(t, i) && Leads(t, i) && StatusFits(t, h);
    }
  }

  lemma OwnBidShown(t: Database, a: nat, user: nat)
    requires Chained(t) && a < |t.auctions|
    ensures var page, h := PageState(t, a, Some(user)), t.auctions[a].highest;
            if h.Some? && t.bids[h.value].status.Active? && t.bids[h.value].bidder == user
            then page.own == Some(OwnBid(h.value, t.bids[h.value].amount, true))
            else page.own.None?
  {
    var h := t.auctions[a].highest;
    forall i: nat {
      OwnIsLeader(t, a, user, i);
    }
    if h.Some? && t.bids[h.value].status.Active? && t.bids[h.value].bidder == user {
      ActiveIsHighest(t, a);
    }
  }

  /**
   Main result: the page shows the user a bid of theirs exactly while it leads and is not yet settled, and always
   as the highest. Whoever has been outbid, and even the winner of a SETTLED auction, is shown none.
   */
  lemma ShownToLeaderOnly(t: Database, a: nat, user: nat)
    requires Reachable(t) && a < |t.auctions|
    ensures var page, h := PageState(t, a, Some(user)), t.auctions[a].highest;
            && (page.own.Some? <==>
                h.Some? && t.bids[h.value].status.Active? && t.bids[h.value].bidder == user)
            && (page.own.Some? ==> page.own.value == OwnBid(h.value, t.bids[h.value].amount, true))
  {
    AlwaysChained(t);
    OwnBidShown(t, a, user);
  }

  /** While the auction runs and once it is SETTLED, the page shows a highest amount exactly when it counts a bid. */
  lemma ShownHighestIsCounted(t: Database, a: nat, user: Option<nat>)
    requires Reachable(t) && a < |t.auctions|
    requires var status := t.auctions[a].status; status.Active? || status.SettlementInProgress? || status.Settled?
    ensures var page := PageState(t, a, user); page.highest.Some? <==> page.count > 0
    ensures var page := PageState(t, a, user);
            page.highest.Some? ==>
              forall i | 0 <= i < |t.bids| && t.bids[i].auction == a :: t.bids[i].amount <= page.highest.value
  {
    AlwaysChained(t);
    ThreeHighestAgree(t, a);
    HighestCounted(t, a);
  }

  lemma LostIsNotLive(t: Database, a: nat)
    requires Chained(t) && a < |t.auctions| && t.auctions[a].status.EndedReserveNotMet?
    ensures HighestBid(t.bids, a).None? && BidCount(t.bids, a) > 0
  {
    assert AuctionFits(t, a);
    HighestCounted(t, a);
    forall i | 0 <= i < |t.bids| && t.bids[i].auction == a ensures !LiveOn(t.bids, i, a) {
      assert StatusFits(t, i);
    }
  }

  /** After an auction missed its reserve the page still counts its bids but shows no highest one. */
  lemma LostBidsAreHidden(t: Database, a: nat, user: Option<nat>)
    requires Reachable(t) && a < |t.auctions| && t.auctions[a].status.EndedReserveNotMet?
    ensures var page := PageState(t, a, user);
            && page.highest.None? && page.count > 0
            && t.auctions[a].prices != [] && page.minimum == t.auctions[a].prices[0]
  {
    AlwaysChained(t);
    assert AuctionFits(t, a);
    LostIsNotLive(t, a);
  }

  /** The positions of the auction's bids. */
  ghost function BidsOf(bids: seq<Bid>, a: nat): set<nat> {
    set i: nat | i < |bids| && bids[i].auction == a
  }

  lemma {:induction false} CountIsCardinality(bids: seq<Bid>, a: nat)
    ensures BidCount(bids, a) == |BidsOf(bids, a)|
  {
    if bids == [] {
    } else {
      var n := |bids| - 1;
      CountIsCardinality(bids[..n], a);
      assert CountEntries(bids) == CountEntries(bids[..n]) + [Entry(bids[n].auction, 1)];
      TallyAppend(CountEntries(bids[..n]), Entry(bids[n].auction, 1), a);
      assert BidsOf(bids, a) == BidsOf(bids[..n], a) + if bids[n].auction == a then {n} else {};
    }
  }

  lemma PageMeans(s: Database, a: nat, user: Option<nat>)
    requires Chained(s) && a < |s.auctions|
    requires var status := s.auctions[a].status; status.Active? || status.SettlementInProgress? || status.Settled?
    ensures s.auctions[a].highest.Some? || s.auctions[a].prices != []
    ensures var page, h := PageState(s, a, user), s.auctions[a].highest;
            && page.highest == (if h.Some? then Some(s.bids[h.value].amount) else None)
            && page.minimum == BidLaws.LeastBid(s, a)
            && page.count == |BidsOf(s.bids, a)|
  {
    assert AuctionFits(s, a);
    HighestIsLeader(s, a);
    CountIsCardinality(s.bids, a);
  }

  /**
   Main result: while the auction runs and once it is SETTLED, the page shows the amount of the bid the auction
   points at, the least bid that is accepted, and how many bids there are.
   */
  lemma PageLaw(t: Database, a: nat, user: Option<nat>)
    requires Reachable(t) && a < |t.auctions|
    requires var status := t.auctions[a].status; status.Active? || status.SettlementInProgress? || status.Settled?
    ensures t.auctions[a].highest.Some? || t.auctions[a].prices != []
    ensures var page, h := PageState(t, a, user), t.auctions[a].highest;
            && page.highest == (if h.Some? then Some(t.bids[h.value].amount) else None)
            && page.minimum == BidLaws.LeastBid(t, a)
            && page.count == |BidsOf(t.bids, a)|
  {
    AlwaysChained(t);
    PageMeans(t, a, user);
  }
}

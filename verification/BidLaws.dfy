/** Placing a bid, read off the tables of any reachable state: who may bid what, and everything that changes. */
module BidLaws {
  import opened Domain
  import opened Tiers
  import opened Bidding
  import opened Protocol
  import opened BidChain

  /** The largest bid of each tier. */
  function BidCap(tier: KycTier): Kobo {
    match tier
    case Tier1 => 50_000 * NAIRA
    case Tier2 => 500_000 * NAIRA
    case Tier3 => 999_999_999 * NAIRA
  }

  /** The least bid: an increment above the bid the auction points at, or the first item's starting price. */
  function LeastBid(t: Database, a: nat): Kobo
    requires a < |t.auctions| && (t.auctions[a].highest.Some? || t.auctions[a].prices != [])
  {
    match t.auctions[a].highest
    case Some(h) => t.bids[h].amount + IncrementFor(t.tiers, t.bids[h].amount)
    case None => t.auctions[a].prices[0]
  }

  predicate LeadsWith(t: Database, u: nat, a: nat)
    requires a < |t.auctions|
  {
    t.auctions[a].highest.Some? && t.bids[t.auctions[a].highest.value].bidder == u
  }

  predicate Open(t: Database, a: nat) {
    a < |t.auctions| && t.auctions[a].status.Active? && t.now < t.auctions[a].endsAt
  }

  /** The one who is overtaken can be paid back. */
  predicate LeaderIsLocked(t: Database, a: nat)
    requires a < |t.auctions|
  {
    match t.auctions[a].highest
    case Some(h) => t.bids[h].amount <= t.wallets[t.bids[h].bidder].locked
    case None => true
  }

  /** What a bid has to meet. Having bid before, or having been outbid, is no obstacle. */
  predicate Acceptable(t: Database, u: nat, a: nat, x: Kobo) {
    && Open(t, a)
    && u < |t.users| && u != t.auctions[a].seller && !LeadsWith(t, u, a)
    && (t.auctions[a].highest.Some? || t.auctions[a].prices != [])
    && 0 < x && LeastBid(t, a) <= x <= t.wallets[u].available && x <= BidCap(t.users[u].tier)
    && LeaderIsLocked(t, a)
  }

  /** The tables after an accepted bid that is the auction's first. */
  function AfterFirstBid(t: Database, u: nat, a: nat, x: Kobo): Store
    requires a < |t.auctions| && u < |t.users|
  {
    var w := t.wallets[u];
    t.(wallets := t.wallets[u := Wallet(w.available - x, w.locked + x, w.escrow)],
       bids := t.bids + [Bid(a, u, x, BidStatus.Active, t.now, Some(|t.ledger|))],
       auctions := t.auctions[a := t.auctions[a].(highest := Some(|t.bids|))],
       ledger := t.ledger + [Row(u, x, BidLock, Debit, AvailableBucket, BidRef(|t.bids|), BidPlaced,
                                 w.available, w.available - x, TransactionStatus.Completed, t.now)])
  }

  /** What changes besides when bid `h` is overtaken: it is RELEASED, its money is back, and a row says so. */
  function WithOvertaken(t: Database, s: Store, h: nat): Store
    requires h < |t.bids| && h < |s.bids| && t.bids[h].bidder < |s.wallets|
  {
    var b := t.bids[h];
    var w := t.wallets[b.bidder];
    s.(wallets := s.wallets[b.bidder := Wallet(w.available + b.amount, w.locked - b.amount, w.escrow)],
       bids := s.bids[h := b.(status := BidStatus.Released)],
       ledger := s.ledger + [Row(b.bidder, b.amount, BidUnlock, Credit, AvailableBucket, BidRef(h), OutbidRefund,
                                 w.available, w.available + b.amount, TransactionStatus.Completed, t.now)])
  }

  function AfterBid(t: Database, u: nat, a: nat, x: Kobo): Store
    requires a < |t.auctions| && u < |t.users|
  {
    var first := AfterFirstBid(t, u, a, x);
    match t.auctions[a].highest
    case None => first
    case Some(h) => WithOvertaken(t, first, h)
  }

  lemma AcceptedMeans(s: Database, u: nat, a: nat, x: Kobo)
    requires Chained(s)
    ensures BidError(s, u, a, x).None? <==> Acceptable(s, u, a, x)
  {
    if Open(s, a) {
      HighestIsLeader(s, a);
    }
  }

  lemma AcceptedChanges(s: Database, u: nat, a: nat, x: Kobo)
    requires Chained(s) && Acceptable(s, u, a, x)
    ensures PlaceBid(s, u, a, x) == AfterBid(s, u, a, x)
  {
    AcceptedMeans(s, u, a, x);
    HighestIsLeader(s, a);
  }

  lemma BidChanges(s: Database, u: nat, a: nat, x: Kobo)
    requires Chained(s)
    ensures PlaceBid(s, u, a, x) == if Acceptable(s, u, a, x) then AfterBid(s, u, a, x) else s
  {
    AcceptedMeans(s, u, a, x);
    if Acceptable(s, u, a, x) {
      AcceptedChanges(s, u, a, x);
    }
  }

  lemma BidIsStep(s: Database, u: nat, a: nat, x: Kobo)
    ensures Step(s, BidStep(u, a, x)) == PlaceBid(s, u, a, x)
  {
  }

  /**
   Main result: in every reachable state a bid is recorded if and only if it is acceptable as the tables stand, and
   then exactly one bid, its lock, the pointer and the refund of the one overtaken are new; otherwise nothing is.
   */
  lemma BidLaw(t: Database, u: nat, a: nat, x: Kobo)
    requires Reachable(t)
    ensures |Step(t, BidStep(u, a, x)).bids| == |t.bids| + 1 <==> Acceptable(t, u, a, x)
    ensures Step(t, BidStep(u, a, x)) == if Acceptable(t, u, a, x) then AfterBid(t, u, a, x) else t
  {
    AlwaysChained(t);
    BidIsStep(t, u, a, x);
    BidChanges(t, u, a, x);
  }

  /** The answer to a bid: the first of these that applies. An auction without items is never open. */
  function Answer(t: Database, u: nat, a: nat, x: Kobo): Option<Error> {
    if x <= 0 then Some(InvalidRequest)
    else if a >= |t.auctions| then Some(NotFound)
    else if !t.auctions[a].status.Active? then Some(AuctionNotActive)
    else if t.auctions[a].endsAt <= t.now then Some(AuctionEnded)
    else if t.auctions[a].seller == u then Some(SellerCannotBid)
    else if LeadsWith(t, u, a) then Some(AlreadyHighestBidder)
    else if t.auctions[a].highest.None? && t.auctions[a].prices == [] then Some(NoItemsAttached)
    else if x < LeastBid(t, a) then Some(InvalidBidAmount)
    else if u >= |t.users| || t.wallets[u].available < x then Some(InsufficientFunds)
    else if BidCap(t.users[u].tier) < x then Some(LimitExceeded)
    else if !LeaderIsLocked(t, a) then Some(WalletRefused)
    else None
  }

  lemma AnswerMeans(s: Database, u: nat, a: nat, x: Kobo)
    requires Chained(s)
    ensures BidError(s, u, a, x) == Answer(s, u, a, x)
    ensures Answer(s, u, a, x) != Some(NoItemsAttached)
  {
    if a < |s.auctions| && s.auctions[a].status.Active? {
      HighestIsLeader(s, a);
      assert AuctionFits(s, a);
    }
  }

  /** In every reachable state a refused bid is told the first reason that applies, as the tables stand. */
  lemma BidAnswer(t: Database, u: nat, a: nat, x: Kobo)
    requires Reachable(t)
    ensures BidError(t, u, a, x) == Answer(t, u, a, x)
    ensures Answer(t, u, a, x) != Some(NoItemsAttached)
    ensures Answer(t, u, a, x).None? <==> Acceptable(t, u, a, x)
  {
    AlwaysChained(t);
    AnswerMeans(t, u, a, x);
    AcceptedMeans(t, u, a, x);
  }

  /**
   Whoever was overtaken may come back: if the leader is somebody else now, the user's earlier bids do not matter.
   */
  lemma OutbidMayReturn(t: Database, u: nat, a: nat, x: Kobo, i: nat)
    requires Reachable(t) && Open(t, a) && i < |t.bids| && t.bids[i].auction == a && t.bids[i].bidder == u
    requires t.auctions[a].highest.Some? && !LeadsWith(t, u, a) && LeaderIsLocked(t, a)
    requires LeastBid(t, a) <= x <= t.wallets[u].available && x <= BidCap(t.users[u].tier)
    ensures Step(t, BidStep(u, a, x)) == AfterBid(t, u, a, x)
  {
    AlwaysChained(t);
    assert Lawful(t, i);
    IncrementPositive(t, t.bids[t.auctions[a].highest.value].amount);
    assert BidOk(t.bids[t.auctions[a].highest.value], |t.users|, |t.auctions|);
    BidLaw(t, u, a, x);
  }
}

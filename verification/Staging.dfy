/** Single moves on a platform with one seller and two bidders, for the scenarios. */
module Staging {
  import opened Domain
  import opened Limits
  import opened Bidding
  import opened Auctions
  import opened Commissions
  import opened Settlement
  import opened Orders
  import opened Payments
  import opened Protocol
  import opened Sessions
  import UserRepository
  import AuctionService
  import AuctionTasks
  import BidService
  import EscrowTasks
  import WalletService

  const SELLER: nat := 0
  const BUYER: nat := 1
  const RIVAL: nat := 2

  /** An auction of the seller's that started now. */
  function Lot(status: AuctionStatus, now: Time, prices: seq<Kobo>, reserve: Option<Kobo>): Auction {
    Auction(SELLER, status, None, reserve, now, now + MIN_DURATION, prices)
  }

  /** A reserve the seller may combine with the price. */
  predicate Priced(price: Kobo, reserve: Option<Kobo>) {
    price >= 0 && (reserve.Some? ==> reserve.value == 0 || reserve.value > price)
  }

  // ---- What the moves come to ----

  lemma NobodyBid(s: Database)
    ensures !HasBids(s.bids, |s.auctions|)
  {
    forall i | 0 <= i < |s.bids| ensures s.bids[i].auction != |s.auctions| {
      assert BidOk(s.bids[i], |s.users|, |s.auctions|);
    }
  }

  lemma Creating(s: Database, price: Kobo, reserve: Option<Kobo>)
    requires |s.users| > SELLER && Priced(price, reserve)
    ensures CreateAuction(s, SELLER, s.now, s.now + MIN_DURATION, reserve) ==
            s.(auctions := s.auctions + [Lot(Draft, s.now, [], reserve)])
  {
  }

  lemma Attaching(s: Database, a: nat, price: Kobo, reserve: Option<Kobo>)
    requires Priced(price, reserve) && a < |s.auctions| && s.auctions[a] == Lot(Draft, s.now, [], reserve)
    ensures AttachItem(s, SELLER, a, price) == s.(auctions := s.auctions[a := Lot(Draft, s.now, [price], reserve)])
  {
    assert [] + [price] == [price];
  }

  lemma Announcing(s: Database, a: nat, price: Kobo, reserve: Option<Kobo>)
    requires a < |s.auctions| && s.auctions[a] == Lot(Draft, s.now, [price], reserve)
    ensures Publish(s, SELLER, a) ==
            s.(auctions := s.auctions[a := Lot(AuctionStatus.Active, s.now, [price], reserve)])
  {
  }

  /** The first bid on a running auction is accepted from the starting price on, within the lowest tier's limit. */
  lemma Offering(s: Database, bidder: nat, a: nat, amount: Kobo)
    requires a < |s.auctions| && s.auctions[a].status == AuctionStatus.Active && s.now < s.auctions[a].endsAt
    requires s.auctions[a].prices != [] && 0 < s.auctions[a].prices[0] <= amount <= LimitsFor(Tier1).maxBid
    requires bidder < |s.users| && bidder != s.auctions[a].seller && s.wallets[bidder].available >= amount
    requires !HasBids(s.bids, a)
    ensures PlaceBid(s, bidder, a, amount) == WithNewBid(s, bidder, a, amount)
  {
    assert HighestBid(s.bids, a).None?;
    assert MinimumBid(s, a) == Some(s.auctions[a].prices[0]);
  }

  lemma Scanning(s: Database, a: nat)
    requires Settlement.Ended(s, a)
    ensures var t := ScanAuctions(s, {}); t == s.(scanned := t.scanned) && Claims(t, a)
  {
  }

  // ---- The moves ----

  method AddUser(db: Session)
    requires db.Clean()
    modifies db
    ensures db.Clean() && db.committed == CreateUser(old(db.committed), false)
    ensures db.users == old(db.users) + [User(Tier1, false, false, 0)]
    ensures db.wallets == old(db.wallets) + [Wallet(0, 0, 0)]
  {
    var user := UserRepository.Create(db, false);
    db.Commit();
  }

  /** The platform with `n` new users and nothing else. */
  ghost predicate Newcomers(s: Store, n: nat) {
    && s == EMPTY.(users := s.users, wallets := s.wallets) && |s.users| == |s.wallets| == n
    && forall u | 0 <= u < n :: s.users[u].tier.Tier1? && s.wallets[u] == Wallet(0, 0, 0)
  }

  method JoinPair() returns (db: Session)
    ensures fresh(db) && db.Clean() && Newcomers(db.committed, 2)
  {
    db := new Session(EMPTY);
    AddUser(db);
    AddUser(db);
  }

  /** An empty platform with its three users. */
  method Join() returns (db: Session)
    ensures fresh(db) && db.Clean() && |db.users| == 3 && db.now == 0
    ensures forall u | 0 <= u < 3 :: db.users[u].tier.Tier1? && db.wallets[u] == Wallet(0, 0, 0)
    ensures db.auctions == [] && db.bids == [] && db.orders == [] && db.escrows == [] && db.disputes == []
    ensures db.payments == [] && db.ledger == [] && db.tiers == [] && db.handling == {}
  {
    db := JoinPair();
    AddUser(db);
  }

  method Fund(db: Session, user: nat, amount: Kobo)
    requires db.Clean() && user < |db.users| && db.users[user].tier.Tier1? && db.wallets[user] == Wallet(0, 0, 0)
    requires MIN_AMOUNT <= amount <= LimitsFor(Tier1).maxBalance
    modifies db
    ensures db.Clean() && db.committed ==
              old(db.committed).(wallets := old(db.wallets)[user := Wallet(amount, 0, 0)],
                                 payments := db.payments, ledger := db.ledger)
    ensures |db.ledger| == |old(db.ledger)| + 1 && db.ledger[..|old(db.ledger)|] == old(db.ledger)
    ensures db.ledger[|old(db.ledger)|].kind.Deposit?
  {
    var p := |db.payments|;
    var error := WalletService.InitiateFunding(db, user, amount, "NGN");
    error := WalletService.HandleWebhook(db, p, Verified(true, amount, "NGN"));
  }

  method List(db: Session, price: Kobo, reserve: Option<Kobo>) returns (a: nat)
    requires db.Clean() && |db.users| > SELLER && Priced(price, reserve)
    modifies db
    ensures db.Clean() && a == |old(db.auctions)|
    ensures db.committed ==
            old(db.committed).(auctions := old(db.auctions) + [Lot(AuctionStatus.Active, db.now, [price], reserve)])
    ensures !HasBids(db.bids, a)
  {
    a := |db.auctions|;
    NobodyBid(db.committed);
    Creating(db.committed, price, reserve);
    var error := AuctionService.CreateAuction(db, SELLER, db.now, db.now + MIN_DURATION, reserve);
    Attaching(db.committed, a, price, reserve);
    error := AuctionService.AttachItem(db, SELLER, a, price);
    Announcing(db.committed, a, price, reserve);
    error := AuctionService.PublishAuction(db, SELLER, a);
  }

  method Offer(db: Session, bidder: nat, a: nat, amount: Kobo)
    requires db.Clean() && a < |db.auctions| && db.auctions[a].status == AuctionStatus.Active
    requires db.now < db.auctions[a].endsAt
    requires db.auctions[a].prices != [] && 0 < db.auctions[a].prices[0] <= amount <= LimitsFor(Tier1).maxBid
    requires bidder < |db.users| && bidder != db.auctions[a].seller && db.wallets[bidder].available >= amount
    requires !HasBids(db.bids, a)
    modifies db
    ensures db.Clean() && db.committed == WithNewBid(old(db.committed), bidder, a, amount)
  {
    Offering(db.committed, bidder, a, amount);
    var error := BidService.PlaceBid(db, bidder, a, amount);
  }

  method Wait(db: Session, elapsed: nat)
    requires db.Clean()
    modifies db
    ensures db.Clean() && db.committed == old(db.committed).(now := old(db.now) + elapsed)
  {
    db.now := db.now + elapsed;
    db.Commit();
  }

  /** A scan finds the ended auction and a worker claims it; the claim's commit may be lost. */
  method Claim(db: Session, a: nat, commits: bool)
    requires db.Clean() && Settlement.Ended(db.committed, a)
    modifies db
    ensures db.Clean() && db.committed ==
              old(db.committed).(auctions := if commits
                                 then old(db.auctions)[a := old(db.auctions[a]).(status := SettlementInProgress)]
                                 else old(db.auctions),
                                 scanned := db.scanned, settling := old(db.settling) + {a})
  {
    Scanning(db.committed, a);
    var ids := AuctionTasks.Scan(db, {});
    var claimed := AuctionTasks.Claim(db, a, commits);
  }

  method ClaimRelease(db: Session, x: nat)
    requires db.Clean() && ReleaseDue(db.committed, x)
    modifies db
    ensures db.Clean() && db.committed ==
              old(db.committed).(escrows := old(db.escrows)[x := old(db.escrows[x]).(status := Processing)],
                                 releasing := old(db.releasing) + {x})
  {
    var claimed := EscrowTasks.Claim(db, x, true);
  }

  // ---- A whole sale ----

  lemma Settling(s: Database, a: nat, b: nat)
    requires a in s.settling && a < |s.auctions| && s.auctions[a].status.SettlementInProgress?
    requires s.auctions[a].seller == SELLER && s.auctions[a].highest == Some(b)
    requires s.auctions[a].reserve.None? && s.auctions[a].prices != []
    requires b < |s.bids| && s.bids[b].auction == a && s.bids[b].bidder == BUYER
    requires s.wallets[BUYER].locked >= s.bids[b].amount
    ensures var t, price := Settle(s, a), s.bids[b].amount;
            && t.users == s.users && t.disputes == s.disputes && t.releasing == s.releasing && t.now == s.now
            && t.orders == s.orders +
                 [Order(a, BUYER, SELLER, price, PendingShipment, s.now + s.shippingTime, None)]
            && t.escrows == s.escrows +
                 [Escrow(|s.orders|, a, BUYER, SELLER, price, CommissionOf(price), Holding, s.now + AUTO_RELEASE)]
            && t.wallets == s.wallets[BUYER := Wallet(s.wallets[BUYER].available, s.wallets[BUYER].locked - price,
                                                      s.wallets[BUYER].escrow + price)]
  {
    assert HasBids(s.bids, a);
    assert BidOk(s.bids[b], |s.users|, |s.auctions|);
  }

  /** Lists a lot, sells it to the buyer and settles the sale. */
  method Sell(db: Session, price: Kobo)
    requires db.Clean() && |db.users| > BUYER && 0 < price <= LimitsFor(Tier1).maxBid
    requires db.wallets[BUYER].available >= price
    modifies db
    ensures db.Clean() && db.users == old(db.users) && db.disputes == old(db.disputes)
    ensures db.releasing == old(db.releasing)
    ensures db.wallets[BUYER].available == old(db.wallets[BUYER]).available - price
    ensures db.wallets[BUYER].escrow == old(db.wallets[BUYER]).escrow + price
    ensures db.wallets[SELLER] == old(db.wallets[SELLER])
    ensures |db.orders| == |old(db.orders)| + 1 && db.orders[..|old(db.orders)|] == old(db.orders)
    ensures var o := db.orders[|old(db.orders)|];
            o.buyer == BUYER && o.seller == SELLER && o.amount == price && o.status.PendingShipment? && o.dispute.None?
    ensures db.escrows == old(db.escrows) +
              [Escrow(|old(db.orders)|, |old(db.auctions)|, BUYER, SELLER, price, CommissionOf(price),
                      Holding, db.now + AUTO_RELEASE)]
    ensures db.now == old(db.now) + MIN_DURATION
  {
    var a := List(db, price, None);
    var b := |db.bids|;
    Offer(db, BUYER, a, price);
    Wait(db, MIN_DURATION);
    Claim(db, a, true);
    Settling(db.committed, a, b);
    var ok, handle := AuctionTasks.ProcessAuctionSettlement(db, a);
  }
}

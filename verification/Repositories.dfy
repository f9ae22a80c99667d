/** Writes to bids. */
module BidRepository {
  import opened Domain
  import opened Sessions

  method Create(db: Session, a: nat, bidder: nat, amount: Kobo) returns (bid: nat)
    modifies db`bids
    ensures bid == |old(db.bids)|
    ensures db.bids == old(db.bids) + [Bid(a, bidder, amount, BidStatus.Active, db.now, None)]
  {
    bid := |db.bids|;
    db.bids := db.bids + [Bid(a, bidder, amount, BidStatus.Active, db.now, None)];
  }

  method LinkWalletTransaction(db: Session, bid: nat, row: nat)
    modifies db`bids
    ensures db.bids ==
            if bid < |old(db.bids)| then old(db.bids)[bid := old(db.bids[bid]).(lockRow := Some(row))] else old(db.bids)
  {
    if bid < |db.bids| {
      db.bids := db.bids[bid := db.bids[bid].(lockRow := Some(row))];
    }
  }

  method UpdateStatus(db: Session, bid: nat, status: BidStatus)
    modifies db`bids
    ensures db.bids ==
            if bid < |old(db.bids)| then old(db.bids)[bid := old(db.bids[bid]).(status := status)] else old(db.bids)
  {
    if bid < |db.bids| {
      db.bids := db.bids[bid := db.bids[bid].(status := status)];
    }
  }
}

/** Writes to auctions. */
module AuctionRepository {
  import opened Domain
  import opened Sessions

  method UpdateStatus(db: Session, a: nat, status: AuctionStatus)
    modifies db`auctions
    ensures db.auctions ==
            if a < |old(db.auctions)| then old(db.auctions)[a := old(db.auctions[a]).(status := status)]
            else old(db.auctions)
  {
    if a < |db.auctions| {
      db.auctions := db.auctions[a := db.auctions[a].(status := status)];
    }
  }

  method UpdateHighestBid(db: Session, a: nat, bid: nat)
    modifies db`auctions
    ensures db.auctions ==
            if a < |old(db.auctions)| then old(db.auctions)[a := old(db.auctions[a]).(highest := Some(bid))]
            else old(db.auctions)
  {
    if a < |db.auctions| {
      db.auctions := db.auctions[a := db.auctions[a].(highest := Some(bid))];
    }
  }

  /** One conditional update: true exactly when the auction was still ACTIVE. Its end is not looked at. */
  method ClaimForSettlement(db: Session, a: nat) returns (claimed: bool)
    modifies db`auctions
    ensures claimed <==> a < |old(db.auctions)| && old(db.auctions[a]).status.Active?
    ensures db.auctions ==
            if claimed then old(db.auctions)[a := old(db.auctions[a]).(status := SettlementInProgress)]
            else old(db.auctions)
  {
    claimed := a < |db.auctions| && db.auctions[a].status.Active?;
    if claimed {
      db.auctions := db.auctions[a := db.auctions[a].(status := SettlementInProgress)];
    }
  }

  method CancelAuctionByAdmin(db: Session, a: nat) returns (found: bool)
    modifies db`auctions
    ensures found <==> a < |old(db.auctions)|
    ensures db.auctions ==
            if found then old(db.auctions)[a := old(db.auctions[a]).(status := AuctionStatus.Cancelled)]
            else old(db.auctions)
  {
    found := a < |db.auctions|;
    if found {
      db.auctions := db.auctions[a := db.auctions[a].(status := AuctionStatus.Cancelled)];
    }
  }
}

/** Writes to escrows. */
module EscrowRepository {
  import opened Domain
  import opened Sessions

  method UpdateStatus(db: Session, e: nat, status: EscrowStatus)
    modifies db`escrows
    ensures db.escrows ==
            if e < |old(db.escrows)| then old(db.escrows)[e := old(db.escrows[e]).(status := status)]
            else old(db.escrows)
  {
    if e < |db.escrows| {
      db.escrows := db.escrows[e := db.escrows[e].(status := status)];
    }
  }

  /** One conditional update: true exactly when the escrow was still HOLDING. */
  method ClaimForRelease(db: Session, e: nat) returns (claimed: bool)
    modifies db`escrows
    ensures claimed <==> e < |old(db.escrows)| && old(db.escrows[e]).status.Holding?
    ensures db.escrows ==
            if claimed then old(db.escrows)[e := old(db.escrows[e]).(status := Processing)] else old(db.escrows)
  {
    claimed := e < |db.escrows| && db.escrows[e].status.Holding?;
    if claimed {
      db.escrows := db.escrows[e := db.escrows[e].(status := Processing)];
    }
  }
}

/** Writes to orders. */
module OrderRepository {
  import opened Domain
  import opened Sessions

  method UpdateStatus(db: Session, o: nat, status: OrderStatus)
    modifies db`orders
    ensures db.orders ==
            if o < |old(db.orders)| then old(db.orders)[o := old(db.orders[o]).(status := status)] else old(db.orders)
  {
    if o < |db.orders| {
      db.orders := db.orders[o := db.orders[o].(status := status)];
    }
  }
}

/** Writes to disputes. */
module DisputeRepository {
  import opened Domain
  import opened Sessions

  method Create(db: Session, o: nat, raisedBy: nat, against: nat) returns (d: nat)
    modifies db`disputes
    ensures d == |old(db.disputes)|
    ensures db.disputes == old(db.disputes) + [Dispute(o, raisedBy, against, Open)]
  {
    d := |db.disputes|;
    db.disputes := db.disputes + [Dispute(o, raisedBy, against, Open)];
  }

  method UpdateStatus(db: Session, d: nat, status: DisputeStatus)
    modifies db`disputes
    ensures db.disputes ==
            if d < |old(db.disputes)| then old(db.disputes)[d := old(db.disputes[d]).(status := status)]
            else old(db.disputes)
  {
    if d < |db.disputes| {
      db.disputes := db.disputes[d := db.disputes[d].(status := status)];
    }
  }
}

/** Writes to users. */
module UserRepository {
  import opened Domain
  import opened Sessions

  /** A user comes with an empty wallet, at the lowest tier. */
  method Create(db: Session, admin: bool) returns (user: nat)
    modifies db`users, db`wallets
    ensures user == |old(db.users)|
    ensures db.users == old(db.users) + [User(Tier1, admin, false, 0)]
    ensures db.wallets == old(db.wallets) + [Wallet(0, 0, 0)]
  {
    user := |db.users|;
    db.users := db.users + [User(Tier1, admin, false, 0)];
    db.wallets := db.wallets + [Wallet(0, 0, 0)];
  }

  method IncrementTotalSales(db: Session, user: nat)
    modifies db`users
    ensures db.users ==
            if user < |old(db.users)|
            then old(db.users)[user := old(db.users[user]).(totalSales := old(db.users[user]).totalSales + 1)]
            else old(db.users)
  {
    if user < |db.users| {
      db.users := db.users[user := db.users[user].(totalSales := db.users[user].totalSales + 1)];
    }
  }
}

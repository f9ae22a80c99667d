/**
 A database session. The fields are the tables as the running transaction sees them; `committed` is what
 everybody else sees.
 */
module Sessions {
  import opened Domain

  class Session {
    var now: Time
    var shippingTime: Time
    var tiers: seq<Tier>
    var users: seq<User>
    var wallets: seq<Wallet>
    var auctions: seq<Auction>
    var bids: seq<Bid>
    var orders: seq<Order>
    var escrows: seq<Escrow>
    var disputes: seq<Dispute>
    var payments: seq<Payment>
    var ledger: seq<Row>
    var scanned: set<nat>
    var settling: set<nat>
    var handling: set<nat>
    var releasing: set<nat>
    var committed: Store

    function View(): Store
      reads this
    {
      Store(now, shippingTime, tiers, users, wallets, auctions, bids, orders, escrows, disputes, payments, ledger,
            scanned, settling, handling, releasing)
    }

    /** No transaction is under way. */
    ghost predicate Clean()
      reads this
    {
      View() == committed && Constraints(committed)
    }

    constructor (tables: Database)
      ensures Clean() && committed == tables
    {
      now, shippingTime, tiers := tables.now, tables.shippingTime, tables.tiers;
      users, wallets, auctions, bids := tables.users, tables.wallets, tables.auctions, tables.bids;
      orders, escrows, disputes := tables.orders, tables.escrows, tables.disputes;
      payments, ledger := tables.payments, tables.ledger;
      scanned, settling := tables.scanned, tables.settling;
      handling, releasing := tables.handling, tables.releasing;
      committed := tables;
    }

    /** Ends the transaction and keeps its changes, which must meet the database's constraints. */
    method Commit()
      requires Constraints(View())
      modifies this`committed
      ensures Clean()
    {
      committed := View();
    }

    method RestoreParties()
      modifies this`now, this`shippingTime, this`tiers, this`users, this`wallets
      ensures now == committed.now && shippingTime == committed.shippingTime && tiers == committed.tiers
      ensures users == committed.users && wallets == committed.wallets
    {
      now := committed.now;
      shippingTime := committed.shippingTime;
      tiers := committed.tiers;
      users := committed.users;
      wallets := committed.wallets;
    }

    method RestoreTrade()
      modifies this`auctions, this`bids, this`orders, this`escrows, this`disputes
      ensures auctions == committed.auctions && bids == committed.bids && orders == committed.orders
      ensures escrows == committed.escrows && disputes == committed.disputes
    {
      auctions := committed.auctions;
      bids := committed.bids;
      orders := committed.orders;
      escrows := committed.escrows;
      disputes := committed.disputes;
    }

    method RestoreMoneyAndQueues()
      modifies this`payments, this`ledger, this`scanned, this`settling, this`handling, this`releasing
      ensures payments == committed.payments && ledger == committed.ledger
      ensures scanned == committed.scanned && settling == committed.settling
      ensures handling == committed.handling && releasing == committed.releasing
    {
      payments := committed.payments;
      ledger := committed.ledger;
      scanned := committed.scanned;
      settling := committed.settling;
      handling := committed.handling;
      releasing := committed.releasing;
    }

    /** Ends the transaction and drops its changes. */
    method Rollback()
      requires Constraints(committed)
      modifies this
      ensures Clean() && committed == old(committed)
    {
      RestoreParties();
      RestoreTrade();
      RestoreMoneyAndQueues();
    }
  }
}

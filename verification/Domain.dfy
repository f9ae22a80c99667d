/**
 The tables of the marketplace and the constraints its database enforces.

 A table is a sequence and the id of a row is its position: rows are only ever appended. Amounts are in
 kobo and times in microseconds. `scanned`, `settling` and `releasing` hold the ids a worker was ever sent: a
 message is never removed, so it may be delivered any number of times. `handling` holds the auctions some
 settlement task judged to have missed their reserve and is about to hand to the reserve handler.
 */
module Domain {

  type Kobo = int
  type Time = int

  const NAIRA: Kobo := 100
  const SECOND: Time := 1_000_000
  const MINUTE: Time := 60 * SECOND
  const HOUR: Time := 60 * MINUTE
  const DAY: Time := 24 * HOUR

  datatype Option<+T> = None | Some(value: T) {
    function GetOr(default: T): T {
      if Some? then value else default
    }
  }

  datatype Error =
    | InvalidRequest
    | NotFound
    | PermissionDenied
    | AuctionNotActive
    | AuctionEnded
    | SellerCannotBid
    | AlreadyHighestBidder
    | NoItemsAttached
    | InvalidBidAmount
    | InsufficientFunds
    | LimitExceeded
    | WalletRefused
    | WrongStatus
    | TooEarly
    | AlreadyExists
    | BankDetailsMissing
    | VerificationFailed

  // ---- Rows ----

  datatype KycTier = Tier1 | Tier2 | Tier3

  datatype User = User(tier: KycTier, admin: bool, bankDetails: bool, totalSales: nat)

  datatype Wallet = Wallet(available: Kobo, locked: Kobo, escrow: Kobo)

  datatype AuctionStatus =
    | Draft
    | Scheduled
    | Active
    | EndedWithWinner
    | EndedNoBids
    | SettlementInProgress
    | EndedReserveNotMet
    | Settled
    | Cancelled
    | SettlementFailed

  /** `prices` are the starting prices of the attached items, in the order the items are read. */
  datatype Auction = Auction(
    seller: nat,
    status: AuctionStatus,
    highest: Option<nat>,
    reserve: Option<Kobo>,
    startsAt: Time,
    endsAt: Time,
    prices: seq<Kobo>)

  datatype BidStatus = Active | Outbid | Won | Lost | Released

  datatype Bid = Bid(auction: nat, bidder: nat, amount: Kobo, status: BidStatus, placedAt: Time, lockRow: Option<nat>)

  datatype OrderStatus =
    | PendingShipment
    | Shipped
    | Delivered
    | Disputed
    | Completed
    | Cancelled
    | Refunded

  datatype Order = Order(
    auction: nat,
    buyer: nat,
    seller: nat,
    amount: Kobo,
    status: OrderStatus,
    shipBy: Time,
    dispute: Option<nat>)

  datatype EscrowStatus = Holding | Processing | Released | Refunded | Disputed | Failed
  {
    /** The money is still in the buyer's escrow bucket as far as the record says. */
    predicate Held() {
      Holding? || Processing?
    }
  }

  datatype Escrow = Escrow(
    order: nat,
    auction: nat,
    winner: nat,
    seller: nat,
    amount: Kobo,
    commission: Kobo,
    status: EscrowStatus,
    autoReleaseAt: Time)

  datatype DisputeStatus = Open | UnderReview | Resolved | Dismissed | Closed
  {
    predicate Undecided() {
      Open? || UnderReview?
    }
  }

  datatype Dispute = Dispute(order: nat, raisedBy: nat, against: nat, status: DisputeStatus)

  datatype PaymentStatus = Pending | Completed | Failed | Cancelled

  datatype Payment = Payment(wallet: nat, amount: Kobo, currency: string, status: PaymentStatus)

  datatype TransactionType =
    | Deposit
    | Withdrawal
    | BidLock
    | BidUnlock
    | EscrowMove
    | EscrowRelease
    | Commission
    | Refund

  datatype Direction = Credit | Debit

  datatype Bucket = AvailableBucket | EscrowBucket | LockedBucket

  datatype TransactionStatus = Pending | Completed | Failed | Cancelled

  /** Reference type and reference id of a ledger row. */
  datatype Reference =
    | NoReference
    | BidRef(id: nat)
    | OrderRef(id: nat)
    | EscrowRef(id: nat)
    | DepositRef(id: nat)
    | WithdrawalRef

  /** Which text the description of a ledger row carries. */
  datatype Note =
    | Funding
    | BidPlaced
    | OutbidRefund
    | ReserveNotMetRefund
    | EscrowHold
    | SaleProceeds
    | PlatformCommission
    | CancelledOrderRefund
    | OverdueOrderRefund
    | DisputeRefund
    | BankWithdrawal
    | FailedWithdrawalRefund

  datatype Row = Row(
    wallet: nat,
    amount: Kobo,
    kind: TransactionType,
    direction: Direction,
    bucket: Bucket,
    ref: Reference,
    note: Note,
    before: Kobo,
    after: Kobo,
    status: TransactionStatus,
    createdAt: Time)

  datatype Tier = Tier(min: Kobo, max: Option<Kobo>, increment: Kobo, active: bool)

  // ---- The whole store ----

  datatype Store = Store(
    now: Time,
    shippingTime: Time,
    tiers: seq<Tier>,
    users: seq<User>,
    wallets: seq<Wallet>,
    auctions: seq<Auction>,
    bids: seq<Bid>,
    orders: seq<Order>,
    escrows: seq<Escrow>,
    disputes: seq<Dispute>,
    payments: seq<Payment>,
    ledger: seq<Row>,
    scanned: set<nat>,
    settling: set<nat>,
    handling: set<nat>,
    releasing: set<nat>)

  // ---- Foreign keys and CHECK constraints ----

  predicate WalletOk(w: Wallet) {
    w.available >= 0 && w.locked >= 0 && w.escrow >= 0
  }

  predicate AuctionOk(a: Auction, users: nat, bids: nat) {
    && a.seller < users
    && a.startsAt < a.endsAt
    && (a.highest.Some? ==> a.highest.value < bids)
    && (a.reserve.Some? ==> a.reserve.value >= 0)
    && forall k | 0 <= k < |a.prices| :: a.prices[k] >= 0
  }

  predicate BidOk(b: Bid, users: nat, auctions: nat) {
    b.auction < auctions && b.bidder < users && b.amount > 0
  }

  predicate OrderOk(o: Order, users: nat, auctions: nat, disputes: nat) {
    && o.auction < auctions && o.buyer < users && o.seller < users
    && (o.dispute.Some? ==> o.dispute.value < disputes)
  }

  predicate EscrowOk(e: Escrow, users: nat, auctions: nat, orders: nat) {
    e.order < orders && e.auction < auctions && e.winner < users && e.seller < users && e.amount > 0
  }

  predicate TierOk(t: Tier) {
    t.min >= 0 && t.increment > 0
  }

  /** Everybody has one wallet, every foreign key points at a row, every CHECK constraint holds. */
  predicate Constraints(s: Store) {
    && |s.wallets| == |s.users|
    && (forall i | 0 <= i < |s.wallets| :: WalletOk(s.wallets[i]))
    && (forall i | 0 <= i < |s.tiers| :: TierOk(s.tiers[i]))
    && (forall i | 0 <= i < |s.auctions| :: AuctionOk(s.auctions[i], |s.users|, |s.bids|))
    && (forall i | 0 <= i < |s.bids| :: BidOk(s.bids[i], |s.users|, |s.auctions|))
    && (forall i | 0 <= i < |s.orders| :: OrderOk(s.orders[i], |s.users|, |s.auctions|, |s.disputes|))
    && (forall i | 0 <= i < |s.escrows| :: EscrowOk(s.escrows[i], |s.users|, |s.auctions|, |s.orders|))
    && (forall i | 0 <= i < |s.disputes| :: s.disputes[i].order < |s.orders|)
    && (forall i | 0 <= i < |s.payments| :: s.payments[i].wallet < |s.users| && s.payments[i].amount > 0)
    && (forall i | 0 <= i < |s.ledger| :: s.ledger[i].wallet < |s.users| && s.ledger[i].amount > 0)
  }

  const EMPTY := Store(0, 0, [], [], [], [], [], [], [], [], [], [], {}, {}, {}, {})

  type Database = s: Store | Constraints(s) witness EMPTY

  /** A platform before its first user: no rows but the increment tiers. */
  predicate Fresh(s: Store) {
    s == EMPTY.(now := s.now, shippingTime := s.shippingTime, tiers := s.tiers)
  }

  // ---- Wallet buckets ----

  /** The wallet repository's guarded update: refused when any bucket would become negative. */
  function UpdateBalances(w: Wallet, available: int, locked: int, escrow: int): (r: Option<Wallet>)
    ensures r.None? <==> w.available + available < 0 || w.locked + locked < 0 || w.escrow + escrow < 0
    ensures r.Some? ==> WalletOk(r.value)
  {
    var moved := Wallet(w.available + available, w.locked + locked, w.escrow + escrow);
    if WalletOk(moved) then Some(moved) else None
  }
}

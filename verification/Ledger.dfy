/**
 Reading the ledger: what every row says about each bucket, and how many rows speak of a bid, an order,
 an escrow or a payment.
 */
module Ledgers {
  import opened Domain
  import opened Tallies

  /** The questions asked of the ledger; each is answered per user, or per row of another table. */
  datatype Measure =
    // per user
    | Available
    | Locked
    | InEscrow
    | Sales
    | BankRefunds
    | FailedWithdrawals
    // per bid
    | LocksOf
    | UnlocksOf
    // per order
    | MovesOf
    // per escrow
    | ReleasesOf
    | CommissionsOf
    | RefundsOf
    // per payment
    | DepositsOf
    // over everything, filed under key 0
    | AllDeposits
    | AllCommission
    | AllWithdrawn

  /** Who gave up the escrowed money a row speaks of: the winner of the escrow. */
  function Payer(r: Row, winners: seq<nat>): nat {
    if r.ref.EscrowRef? && r.ref.id < |winners| then winners[r.ref.id] else r.wallet
  }

  function Effect(m: Measure, r: Row, winners: seq<nat>): Entry {
    match m
    case Available =>
      match r.kind {
        case Deposit | BidUnlock | EscrowRelease | Refund => Entry(r.wallet, r.amount)
        case BidLock | Withdrawal => Entry(r.wallet, -r.amount)
        case EscrowMove | Commission => NOTHING
      }
    case Locked =>
      match r.kind {
        case BidLock => Entry(r.wallet, r.amount)
        case BidUnlock | EscrowMove => Entry(r.wallet, -r.amount)
        case _ => NOTHING
      }
    case InEscrow =>
      match r.kind {
        case EscrowMove => Entry(r.wallet, r.amount)
        case EscrowRelease | Commission => Entry(Payer(r, winners), -r.amount)
        case Refund => if r.ref.EscrowRef? then Entry(r.wallet, -r.amount) else NOTHING
        case _ => NOTHING
      }
    case Sales => if r.kind.EscrowRelease? then Entry(r.wallet, 1) else NOTHING
    case BankRefunds => if r.kind.Refund? && r.ref.NoReference? then Entry(r.wallet, r.amount) else NOTHING
    case FailedWithdrawals => if r.kind.Withdrawal? && r.status.Failed? then Entry(r.wallet, r.amount) else NOTHING
    case LocksOf => if r.kind.BidLock? && r.ref.BidRef? then Entry(r.ref.id, 1) else NOTHING
    case UnlocksOf => if r.kind.BidUnlock? && r.ref.BidRef? then Entry(r.ref.id, 1) else NOTHING
    case MovesOf => if r.kind.EscrowMove? && r.ref.OrderRef? then Entry(r.ref.id, 1) else NOTHING
    case ReleasesOf => if r.kind.EscrowRelease? && r.ref.EscrowRef? then Entry(r.ref.id, 1) else NOTHING
    case CommissionsOf => if r.kind.Commission? && r.ref.EscrowRef? then Entry(r.ref.id, 1) else NOTHING
    case RefundsOf => if r.kind.Refund? && r.ref.EscrowRef? then Entry(r.ref.id, 1) else NOTHING
    case DepositsOf => if r.kind.Deposit? && r.ref.DepositRef? then Entry(r.ref.id, 1) else NOTHING
    case AllDeposits => if r.kind.Deposit? then Entry(0, r.amount) else NOTHING
    case AllCommission => if r.kind.Commission? then Entry(0, r.amount) else NOTHING
    case AllWithdrawn => if r.kind.Withdrawal? && !r.status.Failed? then Entry(0, r.amount) else NOTHING
  }

  function Effects(m: Measure, ledger: seq<Row>, winners: seq<nat>): (es: seq<Entry>)
    ensures |es| == |ledger|
    ensures forall i | 0 <= i < |ledger| :: es[i] == Effect(m, ledger[i], winners)
  {
    seq(|ledger|, i requires 0 <= i < |ledger| => Effect(m, ledger[i], winners))
  }

  /** The ledger's answer for one key. */
  function Total(m: Measure, ledger: seq<Row>, winners: seq<nat>, key: nat): int {
    Tally(Effects(m, ledger, winners), key)
  }

  /** What one row adds to the answer. */
  function Adds(m: Measure, r: Row, winners: seq<nat>, key: nat): int {
    Share(Effect(m, r, winners), key)
  }

  function Winners(escrows: seq<Escrow>): (ws: seq<nat>)
    ensures |ws| == |escrows|
    ensures forall i | 0 <= i < |escrows| :: ws[i] == escrows[i].winner
  {
    seq(|escrows|, i requires 0 <= i < |escrows| => escrows[i].winner)
  }

  lemma TotalAppend(m: Measure, ledger: seq<Row>, r: Row, winners: seq<nat>, key: nat)
    ensures Total(m, ledger + [r], winners, key) == Total(m, ledger, winners, key) + Adds(m, r, winners, key)
  {
    assert Effects(m, ledger + [r], winners) == Effects(m, ledger, winners) + [Effect(m, r, winners)];
    TallyAppend(Effects(m, ledger, winners), Effect(m, r, winners), key);
  }

  lemma TotalUpdate(m: Measure, ledger: seq<Row>, i: nat, r: Row, winners: seq<nat>, key: nat)
    requires i < |ledger|
    ensures Total(m, ledger[i := r], winners, key) ==
            Total(m, ledger, winners, key) - Adds(m, ledger[i], winners, key) + Adds(m, r, winners, key)
  {
    assert Effects(m, ledger[i := r], winners) == Effects(m, ledger, winners)[i := Effect(m, r, winners)];
    TallyUpdate(Effects(m, ledger, winners), i, Effect(m, r, winners), key);
  }

  /** Rows that only speak of escrows already there do not change their meaning when escrows are added. */
  lemma TotalMoreWinners(m: Measure, ledger: seq<Row>, winners: seq<nat>, more: seq<nat>, key: nat)
    requires forall i | 0 <= i < |ledger| :: ledger[i].ref.EscrowRef? ==> ledger[i].ref.id < |winners|
    ensures Total(m, ledger, winners + more, key) == Total(m, ledger, winners, key)
  {
    assert Effects(m, ledger, winners + more) == Effects(m, ledger, winners);
  }

  // ---- Conservation, read off the ledger alone ----

  /** What a row brings into the platform: deposits in, commission and withdrawals out, bank refunds back in. */
  lemma RowBalance(r: Row, winners: seq<nat>)
    requires r.kind.Refund? ==> r.ref.EscrowRef? || r.ref.NoReference?
    ensures Effect(Available, r, winners).value + Effect(Locked, r, winners).value +
            Effect(InEscrow, r, winners).value ==
            Effect(AllDeposits, r, winners).value - Effect(AllCommission, r, winners).value
            - Effect(AllWithdrawn, r, winners).value - Effect(FailedWithdrawals, r, winners).value
            + Effect(BankRefunds, r, winners).value
  {
  }

  function Sum(m: Measure, ledger: seq<Row>, winners: seq<nat>): int {
    Values(Effects(m, ledger, winners))
  }

  lemma {:induction false} LedgerBalance(ledger: seq<Row>, winners: seq<nat>)
    requires forall i | 0 <= i < |ledger| ::
               ledger[i].kind.Refund? ==> ledger[i].ref.EscrowRef? || ledger[i].ref.NoReference?
    ensures Sum(Available, ledger, winners) + Sum(Locked, ledger, winners) + Sum(InEscrow, ledger, winners) ==
            Sum(AllDeposits, ledger, winners) - Sum(AllCommission, ledger, winners)
            - Sum(AllWithdrawn, ledger, winners) - Sum(FailedWithdrawals, ledger, winners)
            + Sum(BankRefunds, ledger, winners)
  {
    if ledger == [] {
    } else {
      var n := |ledger| - 1;
      LedgerBalance(ledger[..n], winners);
      RowBalance(ledger[n], winners);
      forall m: Measure ensures Effects(m, ledger, winners)[..n] == Effects(m, ledger[..n], winners) {
      }
      forall m: Measure
        ensures Sum(m, ledger, winners) == Sum(m, ledger[..n], winners) + Effect(m, ledger[n], winners).value
      {
        assert Effects(m, ledger, winners)[..n] == Effects(m, ledger[..n], winners);
      }
    }
  }

  /** A measure filed under key 0 throughout has its whole sum there. */
  lemma {:induction false} TotalAtZero(es: seq<Entry>)
    requires forall i | 0 <= i < |es| :: es[i].key == 0
    ensures Tally(es, 0) == Values(es)
  {
    if es == [] {
    } else {
      TotalAtZero(es[..|es| - 1]);
    }
  }
}

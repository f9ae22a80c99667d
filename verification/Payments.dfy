/** Money entering and leaving the platform: deposits by webhook, withdrawals by bank transfer. */
module Payments {
  import opened Domain
  import opened Limits

  const MIN_AMOUNT: Kobo := 100 * NAIRA

  // ---- Deposits ----

  function InitiateFunding(s: Database, user: nat, amount: Kobo, currency: string): Database {
    if amount < MIN_AMOUNT || user >= |s.users| then s
    else if s.wallets[user].available + amount > LimitsFor(s.users[user].tier).maxBalance then s
    else s.(payments := s.payments + [Payment(user, amount, currency, PaymentStatus.Pending)])
  }

  /** What asking the provider about a payment answers. */
  datatype Verification = Unverified | Verified(success: bool, amount: Kobo, currency: string)

  /** The delivery gets past the amount and currency checks. */
  predicate Matches(p: Payment, v: Verification) {
    v.Verified? && v.amount >= p.amount && v.currency == p.currency
  }

  function DepositRow(s: Database, p: nat): Row
    requires p < |s.payments|
  {
    var pay := s.payments[p];
    var before := s.wallets[pay.wallet].available;
    Row(pay.wallet, pay.amount, Deposit, Credit, AvailableBucket, DepositRef(p), Funding,
        before, before + pay.amount, TransactionStatus.Completed, s.now)
  }

  /** Credits what the user asked for, not what the provider charged. */
  function Credited(s: Database, p: nat): Database
    requires p < |s.payments|
  {
    var pay := s.payments[p];
    var w := s.wallets[pay.wallet];
    s.(payments := s.payments[p := pay.(status := PaymentStatus.Completed)],
       wallets := s.wallets[pay.wallet := w.(available := w.available + pay.amount)],
       ledger := s.ledger + [DepositRow(s, p)])
  }

  function HandleWebhook(s: Database, p: nat, v: Verification): Database {
    if p >= |s.payments| || s.payments[p].status.Completed? || !Matches(s.payments[p], v) then s
    else if v.success then Credited(s, p)
    else s.(payments := s.payments[p := s.payments[p].(status := PaymentStatus.Failed)])
  }

  // ---- Withdrawals ----

  function DayOf(t: Time): int {
    t / DAY
  }

  predicate WithdrawalOn(r: Row, user: nat, day: int) {
    r.kind.Withdrawal? && r.wallet == user && DayOf(r.createdAt) == day
  }

  /** The daily total: every withdrawal row of the wallet since midnight, whatever became of it. */
  function WithdrawnSince(ledger: seq<Row>, user: nat, midnight: Time): int {
    if ledger == [] then 0
    else
      var r := ledger[|ledger| - 1];
      WithdrawnSince(ledger[..|ledger| - 1], user, midnight)
      + if r.kind.Withdrawal? && r.wallet == user && r.createdAt >= midnight then r.amount else 0
  }

  function WithdrawalError(s: Database, user: nat, amount: Kobo): Option<Error> {
    if amount < MIN_AMOUNT then Some(InvalidRequest)
    else if user >= |s.users| then Some(NotFound)
    else if !s.users[user].bankDetails then Some(BankDetailsMissing)
    else if s.users[user].tier.Tier1? then Some(LimitExceeded)
    else if WithdrawnSince(s.ledger, user, DayOf(s.now) * DAY) + amount >
            LimitsFor(s.users[user].tier).maxDailyWithdrawal then Some(LimitExceeded)
    else if s.wallets[user].available < amount then Some(InsufficientFunds)
    else None
  }

  function WithdrawalRow(s: Database, user: nat, amount: Kobo): Row
    requires user < |s.users|
  {
    var before := s.wallets[user].available;
    Row(user, amount, Withdrawal, Debit, AvailableBucket, WithdrawalRef, BankWithdrawal,
        before, before - amount, TransactionStatus.Pending, s.now)
  }

  function Withdraw(s: Database, user: nat, amount: Kobo): Database {
    if WithdrawalError(s, user, amount).Some? then s
    else
      var w := s.wallets[user];
      s.(wallets := s.wallets[user := w.(available := w.available - amount)],
         ledger := s.ledger + [WithdrawalRow(s, user, amount)])
  }

  predicate PendingWithdrawal(s: Database, row: nat) {
    row < |s.ledger| && s.ledger[row].kind.Withdrawal? && s.ledger[row].status.Pending?
  }

  /** The transfer step of a pending withdrawal raises: no bank details any more, or the provider refused. */
  predicate TransferFails(s: Database, row: nat, transferred: bool)
    requires PendingWithdrawal(s, row)
  {
    !s.users[s.ledger[row].wallet].bankDetails || !transferred
  }

  function MarkRow(s: Database, row: nat, status: TransactionStatus): Database
    requires row < |s.ledger|
  {
    s.(ledger := s.ledger[row := s.ledger[row].(status := status)])
  }

  function FailedTransferRow(s: Database, row: nat): Row
    requires row < |s.ledger|
  {
    var r := s.ledger[row];
    var before := s.wallets[r.wallet].available;
    Row(r.wallet, r.amount, TransactionType.Refund, Credit, AvailableBucket, NoReference, FailedWithdrawalRefund,
        before, before + r.amount, TransactionStatus.Completed, s.now)
  }

  /** Credits the wallet back and marks the withdrawal FAILED. */
  function RefundWithdrawal(s: Database, row: nat): Database
    requires row < |s.ledger|
  {
    var r := s.ledger[row];
    var w := s.wallets[r.wallet];
    MarkRow(s, row, TransactionStatus.Failed).(
      wallets := s.wallets[r.wallet := w.(available := w.available + r.amount)],
      ledger := s.ledger[row := r.(status := TransactionStatus.Failed)] + [FailedTransferRow(s, row)])
  }

  /** The service method, for a caller that keeps what its session holds when the method raises. */
  function TransferService(s: Database, row: nat, transferred: bool): Database {
    if !PendingWithdrawal(s, row) then s
    else if TransferFails(s, row, transferred) then RefundWithdrawal(s, row)
    else MarkRow(s, row, TransactionStatus.Completed)
  }

  /** The worker task: its session rolls back whatever the raising service method did. */
  function TransferTask(s: Database, row: nat, transferred: bool): Database {
    if PendingWithdrawal(s, row) && !TransferFails(s, row, transferred)
    then MarkRow(s, row, TransactionStatus.Completed)
    else s
  }
}

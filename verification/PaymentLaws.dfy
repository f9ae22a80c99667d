/**
 Accounts, deposits and withdrawals, read off the tables of any reachable state: what is accepted, and everything
 that changes.
 */
module PaymentLaws {
  import opened Domain
  import opened Limits
  import opened Payments
  import opened Protocol
  import opened Withdrawals
  import BidLaws

  // ---- Accounts ----

  lemma AccountLaw(t: Database, admin: bool, u: nat, tier: KycTier, present: bool)
    ensures Step(t, AccountStep(Register(admin))) ==
            t.(users := t.users + [User(Tier1, admin, false, 0)], wallets := t.wallets + [Wallet(0, 0, 0)])
    ensures Step(t, AccountStep(ChangeTier(u, tier))) ==
            if u < |t.users| then t.(users := t.users[u := t.users[u].(tier := tier)]) else t
    ensures Step(t, AccountStep(ChangeBank(u, present))) ==
            if u < |t.users| then t.(users := t.users[u := t.users[u].(bankDetails := present)]) else t
  {
  }

  // ---- Deposits ----

  /** The most a wallet of each tier may hold after funding. */
  function BalanceCap(tier: KycTier): Kobo {
    match tier
    case Tier1 => 100_000 * NAIRA
    case Tier2 => 2_000_000 * NAIRA
    case Tier3 => 999_999_999 * NAIRA
  }

  lemma FundLaw(t: Database, u: nat, amount: Kobo, currency: string)
    ensures Step(t, AccountStep(Fund(u, amount, currency))) ==
            if && 100 * NAIRA <= amount && u < |t.users|
               && t.wallets[u].available + amount <= BalanceCap(t.users[u].tier)
            then t.(payments := t.payments + [Payment(u, amount, currency, PaymentStatus.Pending)])
            else t
  {
  }

  /** The provider confirms at least the amount asked for, in the currency asked for. */
  predicate Confirmed(p: Payment, v: Verification) {
    v.Verified? && p.amount <= v.amount && v.currency == p.currency
  }

  function WithPayment(t: Database, p: nat, status: PaymentStatus): Store
    requires p < |t.payments|
  {
    t.(payments := t.payments[p := t.payments[p].(status := status)])
  }

  /** The payment's own amount is credited, whatever more the provider confirmed. */
  function AfterDeposit(t: Database, p: nat): Store
    requires p < |t.payments|
  {
    var x := t.payments[p];
    var w := t.wallets[x.wallet];
    WithPayment(t, p, PaymentStatus.Completed).(
      wallets := t.wallets[x.wallet := w.(available := w.available + x.amount)],
      ledger := t.ledger +
        [Row(x.wallet, x.amount, Deposit, Credit, AvailableBucket, DepositRef(p), Funding,
             w.available, w.available + x.amount, TransactionStatus.Completed, t.now)])
  }

  /**
   Main result: a webhook credits a payment exactly if it is not COMPLETED yet and the provider confirms success, at
   least the amount and the currency; a confirmed failure only marks the payment FAILED; anything else, an
   underpaid or foreign deposit among it, changes nothing.
   */
  lemma WebhookLaw(t: Database, p: nat, v: Verification)
    ensures Step(t, PayStep(Webhook(p, v))) ==
            if p >= |t.payments| || t.payments[p].status.Completed? || !Confirmed(t.payments[p], v) then t
            else if v.success then AfterDeposit(t, p)
            else WithPayment(t, p, PaymentStatus.Failed)
  {
  }

  /** One kobo too few, or another currency, and the whole state stays as it is. */
  lemma UnderpaidChangesNothing(t: Database, p: nat, v: Verification)
    requires p < |t.payments| && v.Verified?
    requires v.amount < t.payments[p].amount || v.currency != t.payments[p].currency
    ensures Step(t, PayStep(Webhook(p, v))) == t
  {
  }

  // ---- Withdrawals ----

  /** The most a user of each tier may take out in a day; the lowest tier may take out nothing. */
  function DailyCap(tier: KycTier): Kobo {
    match tier
    case Tier1 => 0
    case Tier2 => 500_000 * NAIRA
    case Tier3 => 5_000_000 * NAIRA
  }

  /** These caps are the limits of the tiers. */
  lemma CapsAreLimits(tier: KycTier)
    ensures LimitsFor(tier) == TierLimits(BidLaws.BidCap(tier), BalanceCap(tier), DailyCap(tier))
  {
  }

  predicate MayTakeOut(t: Database, u: nat, amount: Kobo) {
    && 100 * NAIRA <= amount && u < |t.users| && t.users[u].bankDetails
    && WithdrawnOn(t.ledger, u, DayOf(t.now)) + amount <= DailyCap(t.users[u].tier)
    && amount <= t.wallets[u].available
  }

  function AfterTakingOut(t: Database, u: nat, amount: Kobo): Store
    requires u < |t.users|
  {
    var w := t.wallets[u];
    t.(wallets := t.wallets[u := w.(available := w.available - amount)],
       ledger := t.ledger +
         [Row(u, amount, Withdrawal, Debit, AvailableBucket, WithdrawalRef, BankWithdrawal,
              w.available, w.available - amount, TransactionStatus.Pending, t.now)])
  }

  lemma {:induction false} TakenOutNotNegative(ledger: seq<Row>, u: nat, day: int)
    requires forall i | 0 <= i < |ledger| :: ledger[i].amount > 0
    ensures WithdrawnOn(ledger, u, day) >= 0
  {
    if ledger == [] {
    } else {
      TakenOutNotNegative(ledger[..|ledger| - 1], u, day);
    }
  }

  lemma TakingOutChanges(s: Database, u: nat, amount: Kobo)
    requires NotInFuture(s)
    ensures Withdraw(s, u, amount) == if MayTakeOut(s, u, amount) then AfterTakingOut(s, u, amount) else s
  {
    SinceMidnightIsToday(s.ledger, s.now, u);
    TakenOutNotNegative(s.ledger, u, DayOf(s.now));
  }

  lemma AlwaysInThePast(t: Database)
    requires Reachable(t)
    ensures NotInFuture(t)
  {
    var s, es :| ReachedBy(t, s, es);
    RunNotInFuture(s, es);
  }

  lemma TakeOutIsStep(s: Database, u: nat, amount: Kobo)
    ensures Step(s, PayStep(TakeOut(u, amount))) == Withdraw(s, u, amount)
  {
  }

  /**
   Main result: in every reachable state a withdrawal is accepted if and only if the user has bank details, the
   money, and room for it below the tier's cap for the day; and then it is debited and PENDING.
   */
  lemma TakeOutLaw(t: Database, u: nat, amount: Kobo)
    requires Reachable(t)
    ensures Step(t, PayStep(TakeOut(u, amount))) ==
            if MayTakeOut(t, u, amount) then AfterTakingOut(t, u, amount) else t
  {
    AlwaysInThePast(t);
    TakeOutIsStep(t, u, amount);
    TakingOutChanges(t, u, amount);
  }

  predicate AwaitsTransfer(t: Database, r: nat) {
    r < |t.ledger| && t.ledger[r].kind.Withdrawal? && t.ledger[r].status.Pending?
  }

  function WithRow(t: Database, r: nat, status: TransactionStatus): Store
    requires r < |t.ledger|
  {
    t.(ledger := t.ledger[r := t.ledger[r].(status := status)])
  }

  function AfterReturn(t: Database, r: nat): Store
    requires r < |t.ledger|
  {
    var x := t.ledger[r];
    var w := t.wallets[x.wallet];
    WithRow(t, r, TransactionStatus.Failed).(
      wallets := t.wallets[x.wallet := w.(available := w.available + x.amount)],
      ledger := WithRow(t, r, TransactionStatus.Failed).ledger +
        [Row(x.wallet, x.amount, TransactionType.Refund, Credit, AvailableBucket, NoReference, FailedWithdrawalRefund,
             w.available, w.available + x.amount, TransactionStatus.Completed, t.now)])
  }

  /** A transfer goes through if the bank takes it and there are details to send it to. */
  lemma TransferLaw(t: Database, r: nat, taken: bool)
    ensures Step(t, PayStep(RunTransfer(r, taken))) ==
            if AwaitsTransfer(t, r) && taken && t.users[t.ledger[r].wallet].bankDetails
            then WithRow(t, r, TransactionStatus.Completed) else t
    ensures Step(t, PayStep(CallTransfer(r, taken))) ==
            if !AwaitsTransfer(t, r) then t
            else if taken && t.users[t.ledger[r].wallet].bankDetails then WithRow(t, r, TransactionStatus.Completed)
            else AfterReturn(t, r)
  {
  }

  lemma TimeLaw(t: Database, elapsed: nat)
    ensures Step(t, Tick(elapsed)) == t.(now := t.now + elapsed)
  {
  }

  lemma TakeOutAnswered(s: Database, u: nat, amount: Kobo)
    requires NotInFuture(s)
    ensures WithdrawalError(s, u, amount) ==
            if amount < 100 * NAIRA then Some(InvalidRequest)
            else if u >= |s.users| then Some(NotFound)
            else if !s.users[u].bankDetails then Some(BankDetailsMissing)
            else if WithdrawnOn(s.ledger, u, DayOf(s.now)) + amount > DailyCap(s.users[u].tier) then Some(LimitExceeded)
            else if s.wallets[u].available < amount then Some(InsufficientFunds)
            else None
  {
    SinceMidnightIsToday(s.ledger, s.now, u);
    TakenOutNotNegative(s.ledger, u, DayOf(s.now));
  }

  /** A refused withdrawal is told the first reason that applies. */
  lemma TakeOutAnswer(t: Database, u: nat, amount: Kobo)
    requires Reachable(t)
    ensures WithdrawalError(t, u, amount) ==
            if amount < 100 * NAIRA then Some(InvalidRequest)
            else if u >= |t.users| then Some(NotFound)
            else if !t.users[u].bankDetails then Some(BankDetailsMissing)
            else if WithdrawnOn(t.ledger, u, DayOf(t.now)) + amount > DailyCap(t.users[u].tier) then Some(LimitExceeded)
            else if t.wallets[u].available < amount then Some(InsufficientFunds)
            else None
  {
    AlwaysInThePast(t);
    TakeOutAnswered(t, u, amount);
  }
}

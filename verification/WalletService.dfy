/** Deposits and withdrawals. */
module WalletService {
  import opened Domain
  import opened Limits
  import opened Sessions
  import opened Payments
  import WalletRepository

  method InitiateFunding(db: Session, user: nat, amount: Kobo, currency: string) returns (error: Option<Error>)
    requires db.Clean()
    modifies db
    ensures db.Clean() && db.committed == Payments.InitiateFunding(old(db.committed), user, amount, currency)
    ensures error.None? <==> db.payments == old(db.payments) + [Payment(user, amount, currency, PaymentStatus.Pending)]
  {
    if amount < MIN_AMOUNT {
      return Some(InvalidRequest);
    }
    if user >= |db.wallets| {
      return Some(NotFound);
    }
    if db.wallets[user].available + amount > LimitsFor(db.users[user].tier).maxBalance {
      return Some(LimitExceeded);
    }
    db.payments := db.payments + [Payment(user, amount, currency, PaymentStatus.Pending)];
    db.Commit();
    return None;
  }

  /** Credits the payment's wallet with what its owner asked for and records the deposit. */
  method CreditDeposit(db: Session, p: nat)
    requires p < |db.payments| && db.payments[p].wallet < |db.wallets| && db.payments[p].amount > 0
    requires WalletOk(db.wallets[db.payments[p].wallet])
    modifies db`wallets, db`ledger
    ensures var pay, w := db.payments[p], old(db.wallets[db.payments[p].wallet]);
            && db.wallets == old(db.wallets)[pay.wallet := w.(available := w.available + pay.amount)]
            && db.ledger == old(db.ledger) +
                 [Row(pay.wallet, pay.amount, Deposit, Credit, AvailableBucket, DepositRef(p), Funding,
                      w.available, w.available + pay.amount, TransactionStatus.Completed, db.now)]
  {
    var pay := db.payments[p];
    var before := db.wallets[pay.wallet].available;
    var ok := WalletRepository.UpdateBalances(db, pay.wallet, pay.amount, 0, 0);
    assert ok;
    ok := WalletRepository.CreateTransaction(db,
      Row(pay.wallet, pay.amount, Deposit, Credit, AvailableBucket, DepositRef(p), Funding,
          before, db.wallets[pay.wallet].available, TransactionStatus.Completed, db.now));
    assert ok;
  }

  /** What the payment provider confirms must match the payment. */
  method Verify(pay: Payment, v: Verification) returns (error: Option<Error>)
    ensures error.None? <==> v.Verified? && pay.amount <= v.amount && v.currency == pay.currency
  {
    if v.Unverified? {
      return Some(VerificationFailed);
    }
    if v.amount < pay.amount {
      return Some(VerificationFailed);
    }
    if v.currency != pay.currency {
      return Some(VerificationFailed);
    }
    return None;
  }

  /** The payment's outcome and, on success, its credit, inside the caller's transaction. */
  method Record(db: Session, p: nat, success: bool)
    requires db.Clean() && p < |db.payments|
    modifies db`payments, db`wallets, db`ledger
    ensures db.View() ==
            if success then Credited(db.committed, p)
            else
              var s: Database := db.committed;
              s.(payments := s.payments[p := s.payments[p].(status := PaymentStatus.Failed)])
  {
    WalletRepository.UpdatePaymentStatus(db, p, if success then PaymentStatus.Completed else PaymentStatus.Failed);
    if success {
      CreditDeposit(db, p);
    }
  }

  /** One webhook delivery; `v` is what asking the provider answers. */
  method HandleWebhook(db: Session, p: nat, v: Verification) returns (error: Option<Error>)
    requires db.Clean()
    modifies db
    ensures db.Clean() && db.committed == Payments.HandleWebhook(old(db.committed), p, v)
    ensures error.None? <==>
              && p < |old(db.payments)|
              && var pay := old(db.payments[p]);
                 pay.status.Completed? || (v.Verified? && pay.amount <= v.amount && v.currency == pay.currency)
  {
    ghost var s: Database := db.committed;
    if p >= |db.payments| {
      return Some(NotFound);
    }
    var pay := db.payments[p];
    if pay.status.Completed? {
      return None;
    }
    error := Verify(pay, v);
    if error.Some? {
      return;
    }
    Record(db, p, v.success);
    db.Commit();
    return None;
  }

  /** Debits the wallet and leaves a PENDING withdrawal for the worker. */
  method InitiateWithdrawal(db: Session, user: nat, amount: Kobo) returns (error: Option<Error>)
    requires db.Clean()
    modifies db
    ensures db.Clean() && db.committed == Withdraw(old(db.committed), user, amount)
    ensures error == WithdrawalError(old(db.committed), user, amount)
  {
    ghost var s: Database := db.committed;
    if amount < MIN_AMOUNT {
      return Some(InvalidRequest);
    }
    if user >= |db.users| {
      return Some(NotFound);
    }
    if !db.users[user].bankDetails {
      return Some(BankDetailsMissing);
    }
    if db.users[user].tier.Tier1? {
      return Some(LimitExceeded);
    }
    var today := WithdrawnSince(db.ledger, user, DayOf(db.now) * DAY);
    if today + amount > LimitsFor(db.users[user].tier).maxDailyWithdrawal {
      return Some(LimitExceeded);
    }
    var before := db.wallets[user].available;
    if before < amount {
      return Some(InsufficientFunds);
    }
    assert WalletOk(db.wallets[user]);
    var ok := WalletRepository.UpdateBalances(db, user, -amount, 0, 0);
    assert ok;
    ok := WalletRepository.CreateTransaction(db,
      Row(user, amount, Withdrawal, Debit, AvailableBucket, WithdrawalRef, BankWithdrawal,
          before, db.wallets[user].available, TransactionStatus.Pending, db.now));
    assert ok;
    assert db.View() == Withdraw(s, user, amount);
    db.Commit();
    return None;
  }

  /** Credits the wallet back and marks the withdrawal FAILED, inside the caller's transaction. */
  method RefundFailedWithdrawal(db: Session, row: nat)
    requires Constraints(db.View()) && row < |db.ledger|
    modifies db`wallets, db`ledger
    ensures db.View() == RefundWithdrawal(old(db.View()), row)
  {
    ghost var s: Database := db.View();
    var transaction := db.ledger[row];
    var ok := WalletRepository.CreditWallet(db, transaction.wallet, transaction.amount);
    assert ok;
    db.ledger := db.ledger[row := transaction.(status := TransactionStatus.Failed)];
    assert db.ledger == RefundWithdrawal(s, row).ledger;
  }

  /** The transfer of a withdrawal; `ok` is false when it raises, and what it wrote is left to the caller. */
  method ProcessWithdrawalTransferDirect(db: Session, row: nat, transferred: bool) returns (ok: bool)
    requires Constraints(db.View()) && row < |db.ledger|
    modifies db`wallets, db`ledger
    ensures db.View() == TransferService(old(db.View()), row, transferred)
    ensures ok <==> PendingWithdrawal(old(db.View()), row) && !TransferFails(old(db.View()), row, transferred)
  {
    var transaction := db.ledger[row];
    if transaction.kind != Withdrawal {
      return false;
    }
    if transaction.status != TransactionStatus.Pending {
      return false;
    }
    if !db.users[transaction.wallet].bankDetails {
      RefundFailedWithdrawal(db, row);
      return false;
    }
    if !transferred {
      RefundFailedWithdrawal(db, row);
      return false;
    }
    db.ledger := db.ledger[row := transaction.(status := TransactionStatus.Completed)];
    return true;
  }
}

/** The withdrawal worker: its session rolls back when the transfer raises. */
module WalletTasks {
  import opened Domain
  import opened Sessions
  import opened Payments
  import WalletService

  method ProcessWithdrawalTransfer(db: Session, row: nat, transferred: bool) returns (ok: bool)
    requires db.Clean()
    modifies db
    ensures db.Clean() && db.committed == TransferTask(old(db.committed), row, transferred)
  {
    if row >= |db.ledger| {
      return true;
    }
    ghost var s: Database := db.committed;
    ok := WalletService.ProcessWithdrawalTransferDirect(db, row, transferred);
    if ok {
      assert db.View() == TransferTask(s, row, transferred);
      db.Commit();
    } else {
      db.Rollback();
    }
  }
}

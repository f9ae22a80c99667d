/** Writes to wallets, ledger rows and payments. A refused write is an exception for the caller to roll back. */
module WalletRepository {
  import opened Domain
  import opened Sessions

  /** Refused when the wallet does not exist or any bucket would become negative. */
  method UpdateBalances(db: Session, w: nat, available: int, locked: int, escrow: int) returns (ok: bool)
    modifies db`wallets
    ensures ok <==> w < |old(db.wallets)| && Domain.UpdateBalances(old(db.wallets[w]), available, locked, escrow).Some?
    ensures db.wallets ==
            if ok then old(db.wallets)[w := Domain.UpdateBalances(old(db.wallets[w]), available, locked, escrow).value]
            else old(db.wallets)
  {
    if w >= |db.wallets| {
      return false;
    }
    var wallet := db.wallets[w];
    var newAvailable := wallet.available + available;
    var newLocked := wallet.locked + locked;
    var newEscrow := wallet.escrow + escrow;
    if newAvailable < 0 {
      return false;
    }
    if newLocked < 0 {
      return false;
    }
    if newEscrow < 0 {
      return false;
    }
    db.wallets := db.wallets[w := Wallet(newAvailable, newLocked, newEscrow)];
    return true;
  }

  /** Appends a ledger row; the database refuses an amount that is not positive. */
  method CreateTransaction(db: Session, row: Row) returns (ok: bool)
    modifies db`ledger
    ensures ok <==> row.amount > 0
    ensures db.ledger == if ok then old(db.ledger) + [row] else old(db.ledger)
  {
    if row.amount <= 0 {
      return false;
    }
    db.ledger := db.ledger + [row];
    return true;
  }

  /** Adds to the available funds without the balance guard, and records it as a refund. */
  method CreditWallet(db: Session, user: nat, amount: Kobo) returns (ok: bool)
    modifies db`wallets, db`ledger
    ensures ok <==> user < |old(db.wallets)| && amount > 0
    ensures ok ==>
              var w := old(db.wallets[user]);
              && db.wallets == old(db.wallets)[user := w.(available := w.available + amount)]
              && db.ledger == old(db.ledger) +
                   [Row(user, amount, TransactionType.Refund, Credit, AvailableBucket, NoReference,
                        FailedWithdrawalRefund, w.available, w.available + amount, TransactionStatus.Completed, db.now)]
  {
    if user >= |db.wallets| {
      return false;
    }
    var before := db.wallets[user].available;
    db.wallets := db.wallets[user := db.wallets[user].(available := before + amount)];
    ok := CreateTransaction(db, Row(user, amount, TransactionType.Refund, Credit, AvailableBucket, NoReference,
                                    FailedWithdrawalRefund, before, db.wallets[user].available,
                                    TransactionStatus.Completed, db.now));
  }

  method UpdatePaymentStatus(db: Session, p: nat, status: PaymentStatus)
    modifies db`payments
    ensures db.payments ==
            if p < |old(db.payments)| then old(db.payments)[p := old(db.payments[p]).(status := status)]
            else old(db.payments)
  {
    if p < |db.payments| {
      db.payments := db.payments[p := db.payments[p].(status := status)];
    }
  }
}

/** No money is made or lost: what is in the wallets is what came in minus what went out. */
module Conservation {
  import opened Domain
  import opened Tallies
  import opened Ledgers
  import opened Protocol
  import opened Sales
  import opened Books

  /** All three buckets of the first `n` wallets. */
  function Buckets(wallets: seq<Wallet>, n: nat): int
    requires n <= |wallets|
  {
    if n == 0 then 0
    else Buckets(wallets, n - 1) + wallets[n - 1].available + wallets[n - 1].locked + wallets[n - 1].escrow
  }

  function MoneyHeld(s: Database): int {
    Buckets(s.wallets, |s.wallets|)
  }

  /** Amounts over the whole ledger, by type; a withdrawal counts unless it FAILED. */
  function Deposited(s: Database): int { Total(AllDeposits, s.ledger, [], 0) }
  function CommissionEarned(s: Database): int { Total(AllCommission, s.ledger, [], 0) }
  function PaidOutToBanks(s: Database): int { Total(AllWithdrawn, s.ledger, [], 0) }

  lemma {:induction false} BucketsAreTallies(s: Database, n: nat)
    requires Balanced(s) && n <= |s.users|
    ensures var w := Winners(s.escrows);
            Buckets(s.wallets, n) == TallyBelow(Effects(Available, s.ledger, w), n)
              + TallyBelow(Effects(Locked, s.ledger, w), n) + TallyBelow(Effects(InEscrow, s.ledger, w), n)
  {
    if n == 0 {
    } else {
      BucketsAreTallies(s, n - 1);
      assert BucketsAgree(s.wallets[n - 1], s.users[n - 1].totalSales, s.ledger, Winners(s.escrows), n - 1);
    }
  }

  lemma {:induction false} RefundsAreFailures(s: Database, n: nat)
    requires Balanced(s) && n <= |s.users|
    ensures var w := Winners(s.escrows);
            TallyBelow(Effects(BankRefunds, s.ledger, w), n) == TallyBelow(Effects(FailedWithdrawals, s.ledger, w), n)
  {
    if n == 0 {
    } else {
      RefundsAreFailures(s, n - 1);
      assert BucketsAgree(s.wallets[n - 1], s.users[n - 1].totalSales, s.ledger, Winners(s.escrows), n - 1);
    }
  }

  /** Summed over everybody, a per-user measure is its sum over the rows. */
  lemma EverybodysTotal(s: Database, m: Measure)
    requires PerUser(m)
    ensures TallyBelow(Effects(m, s.ledger, Winners(s.escrows)), |s.users|) == Sum(m, s.ledger, Winners(s.escrows))
  {
    var es := Effects(m, s.ledger, Winners(s.escrows));
    forall i | 0 <= i < |s.ledger| ensures es[i].key < |s.users| || es[i].value == 0 {
      EffectKey(s, m, i);
    }
    TallyExchange(es, |s.users|);
  }

  lemma KeyZero(m: Measure, ledger: seq<Row>, winners: seq<nat>)
    requires m.AllDeposits? || m.AllCommission? || m.AllWithdrawn?
    ensures Total(m, ledger, [], 0) == Sum(m, ledger, winners)
  {
    assert Effects(m, ledger, []) == Effects(m, ledger, winners);
    TotalAtZero(Effects(m, ledger, winners));
  }

  lemma MoneyHeldIsSum(s: Database)
    requires Balanced(s)
    ensures var w := Winners(s.escrows);
            MoneyHeld(s) == Sum(Available, s.ledger, w) + Sum(Locked, s.ledger, w) + Sum(InEscrow, s.ledger, w)
  {
    BucketsAreTallies(s, |s.users|);
    EverybodysTotal(s, Available);
    EverybodysTotal(s, Locked);
    EverybodysTotal(s, InEscrow);
  }

  lemma RefundsPayFailures(s: Database)
    requires Balanced(s)
    ensures var w := Winners(s.escrows); Sum(BankRefunds, s.ledger, w) == Sum(FailedWithdrawals, s.ledger, w)
  {
    RefundsAreFailures(s, |s.users|);
    EverybodysTotal(s, BankRefunds);
    EverybodysTotal(s, FailedWithdrawals);
  }

  lemma BalancedConserves(s: Database)
    requires Balanced(s) && Referenced(s)
    ensures MoneyHeld(s) + CommissionEarned(s) + PaidOutToBanks(s) == Deposited(s)
  {
    var w := Winners(s.escrows);
    MoneyHeldIsSum(s);
    RefundsPayFailures(s);
    KeyZero(AllDeposits, s.ledger, w);
    KeyZero(AllCommission, s.ledger, w);
    KeyZero(AllWithdrawn, s.ledger, w);
    forall i | 0 <= i < |s.ledger|
      ensures s.ledger[i].kind.Refund? ==> s.ledger[i].ref.EscrowRef? || s.ledger[i].ref.NoReference?
    {
      assert RowFits(s, s.ledger[i]);
    }
    LedgerBalance(s.ledger, w);
  }

  /**
   Main result: in every reachable state, whatever was interleaved or delivered twice, buckets plus commission
   plus withdrawals not refunded equal deposits.
   */
  lemma AlwaysConserved(t: Database)
    requires Reachable(t)
    ensures MoneyHeld(t) + CommissionEarned(t) + PaidOutToBanks(t) == Deposited(t)
  {
    AlwaysBalanced(t);
    BalancedConserves(t);
  }
}

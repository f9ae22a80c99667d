/** Withdrawals over whole runs: the daily limit, and what becomes of a transfer that fails. */
module Withdrawals {
  import opened Domain
  import opened Limits
  import opened Bidding
  import opened Settlement
  import opened Payments
  import opened Protocol
  import opened History
  import opened Books
  import opened Counting

  // ---- The daily limit ----

  /** What the user has taken out on the given UTC day, whatever became of it. */
  function WithdrawnOn(ledger: seq<Row>, user: nat, day: int): int {
    if ledger == [] then 0
    else
      var r := ledger[|ledger| - 1];
      WithdrawnOn(ledger[..|ledger| - 1], user, day) + if WithdrawalOn(r, user, day) then r.amount else 0
  }

  ghost predicate NotInFuture(s: Store) {
    forall i | 0 <= i < |s.ledger| :: s.ledger[i].createdAt <= s.now
  }

  lemma DayBounds(t: Time)
    ensures DayOf(t) * DAY <= t < (DayOf(t) + 1) * DAY
  {
  }

  lemma TodayIsSinceMidnight(t: Time, now: Time)
    requires t <= now
    ensures t >= DayOf(now) * DAY <==> DayOf(t) == DayOf(now)
  {
    DayBounds(t);
    DayBounds(now);
  }

  /** The query from midnight on counts today's withdrawals, as no row lies in the future. */
  lemma {:induction false} SinceMidnightIsToday(ledger: seq<Row>, now: Time, user: nat)
    requires forall i | 0 <= i < |ledger| :: ledger[i].createdAt <= now
    ensures WithdrawnSince(ledger, user, DayOf(now) * DAY) == WithdrawnOn(ledger, user, DayOf(now))
  {
    if ledger == [] {
    } else {
      var n := |ledger| - 1;
      SinceMidnightIsToday(ledger[..n], now, user);
      TodayIsSinceMidnight(ledger[n].createdAt, now);
    }
  }

  /** Rows that are no withdrawals of the day, and the outcomes of others, do not change the total. */
  lemma {:induction false} SameDayTotal(l: seq<Row>, k: seq<Row>, user: nat, day: int)
    requires |l| <= |k| && forall i | 0 <= i < |l| :: SameRow(l[i], k[i])
    requires forall i | |l| <= i < |k| :: !WithdrawalOn(k[i], user, day)
    ensures WithdrawnOn(k, user, day) == WithdrawnOn(l, user, day)
    decreases |k|
  {
    if k == [] {
    } else {
      var n := |k| - 1;
      if |l| == |k| {
        assert SameRow(l[n], k[n]);
        SameDayTotal(l[..n], k[..n], user, day);
      } else {
        SameDayTotal(l, k[..n], user, day);
      }
    }
  }

  predicate TakesOut(s: Database, e: Event, user: nat) {
    e.PayStep? && e.pay.TakeOut? && e.pay.user == user && WithdrawalError(s, user, e.pay.amount).None?
  }

  /** The limit of the tier the user had at the last withdrawal accepted on that day; 0 before the first. */
  function LimitInForce(s: Database, es: seq<Event>, user: nat, day: int): Kobo {
    if es == [] then 0
    else
      var t := Run(s, es[..|es| - 1]);
      if TakesOut(t, es[|es| - 1], user) && DayOf(t.now) == day
      then LimitsFor(t.users[user].tier).maxDailyWithdrawal
      else LimitInForce(s, es[..|es| - 1], user, day)
  }

  /** What holds of a ledger row the event adds. */
  ghost predicate NewRow(s: Database, e: Event, r: Row) {
    && r.createdAt == s.now
    && !r.status.Failed?
    && (r.kind.Withdrawal? ==> TakesOut(s, e, r.wallet))
    && (r.kind.Refund? && r.ref.NoReference? ==> e.PayStep? && e.pay.CallTransfer?)
  }

  lemma BidNewRows(s: Database, u: nat, a: nat, amount: Kobo)
    ensures var t := PlaceBid(s, u, a, amount);
            forall i | |s.ledger| <= i < |t.ledger| :: NewRow(s, BidStep(u, a, amount), t.ledger[i])
  {
  }

  lemma SettleNewRows(s: Database, a: nat)
    ensures var t := Settle(s, a); forall i | |s.ledger| <= i < |t.ledger| :: NewRow(s, SettleStep(a), t.ledger[i])
  {
  }

  lemma HandleNewRows(s: Database, a: nat)
    ensures var t := Handle(s, a); forall i | |s.ledger| <= i < |t.ledger| :: NewRow(s, HandleStep(a), t.ledger[i])
  {
  }

  lemma PayNewRows(s: Database, e: PayEvent)
    ensures var t := DoPay(s, e); forall i | |s.ledger| <= i < |t.ledger| :: NewRow(s, PayStep(e), t.ledger[i])
  {
  }

  lemma CloseNewRows(s: Database, e: CloseEvent)
    ensures var t := DoClose(s, e); forall i | |s.ledger| <= i < |t.ledger| :: NewRow(s, CloseStep(e), t.ledger[i])
  {
  }

  lemma NewRows(s: Database, e: Event)
    ensures forall i | |s.ledger| <= i < |Step(s, e).ledger| :: NewRow(s, e, Step(s, e).ledger[i])
  {
    match e {
      case PayStep(x) => PayNewRows(s, x);
      case BidStep(u, a, amount) => BidNewRows(s, u, a, amount);
      case SettleStep(a) => SettleNewRows(s, a);
      case HandleStep(a) => HandleNewRows(s, a);
      case CloseStep(x) => CloseNewRows(s, x);
      case _ => QuietStep(s, e);
    }
  }

  lemma StepNotInFuture(s: Database, e: Event)
    requires NotInFuture(s)
    ensures NotInFuture(Step(s, e))
  {
    NewRows(s, e);
    StepExtends(s, e);
    ConfigurationFrame(s, e);
    var t := Step(s, e);
    forall i | 0 <= i < |t.ledger| ensures t.ledger[i].createdAt <= t.now {
      assert i < |s.ledger| ==> SameRow(s.ledger[i], t.ledger[i]) && s.ledger[i].createdAt <= s.now;
    }
  }

  lemma AcceptedWithinLimit(s: Database, user: nat, amount: Kobo)
    requires NotInFuture(s) && WithdrawalError(s, user, amount).None?
    ensures WithdrawnOn(Withdraw(s, user, amount).ledger, user, DayOf(s.now)) <=
            LimitsFor(s.users[user].tier).maxDailyWithdrawal
  {
    var t := Withdraw(s, user, amount);
    SinceMidnightIsToday(s.ledger, s.now, user);
    assert t.ledger[..|s.ledger|] == s.ledger;
  }

  lemma TakenWithinLimit(s: Database, e: Event, user: nat)
    requires NotInFuture(s) && TakesOut(s, e, user)
    ensures WithdrawnOn(Step(s, e).ledger, user, DayOf(s.now)) <= LimitsFor(s.users[user].tier).maxDailyWithdrawal
  {
    AcceptedWithinLimit(s, user, e.pay.amount);
  }

  lemma {:induction false} RunNotInFuture(s: Database, es: seq<Event>)
    requires Fresh(s)
    ensures NotInFuture(Run(s, es))
  {
    if es == [] {
    } else {
      RunNotInFuture(s, es[..|es| - 1]);
      StepNotInFuture(Run(s, es[..|es| - 1]), es[|es| - 1]);
    }
  }

  lemma OtherDayTotal(s: Database, e: Event, user: nat, day: int)
    requires !(TakesOut(s, e, user) && DayOf(s.now) == day)
    ensures WithdrawnOn(Step(s, e).ledger, user, day) == WithdrawnOn(s.ledger, user, day)
  {
    StepExtends(s, e);
    NewRows(s, e);
    SameDayTotal(s.ledger, Step(s, e).ledger, user, day);
  }

  /**
   Main result: over any run, what a user takes out in one UTC day never exceeds the limit in force at the
   last withdrawal accepted that day.
   */
  lemma {:induction false} DailyLimitHolds(s: Database, es: seq<Event>, user: nat, day: int)
    requires Fresh(s)
    ensures WithdrawnOn(Run(s, es).ledger, user, day) <= LimitInForce(s, es, user, day)
  {
    if es == [] {
    } else {
      var t, e := Run(s, es[..|es| - 1]), es[|es| - 1];
      DailyLimitHolds(s, es[..|es| - 1], user, day);
      RunNotInFuture(s, es[..|es| - 1]);
      if TakesOut(t, e, user) && DayOf(t.now) == day {
        TakenWithinLimit(t, e, user);
      } else {
        OtherDayTotal(t, e, user, day);
      }
    }
  }

  // ---- Refunds ----

  /** The event credits withdrawal `row` back: its transfer is called, raises, and what it wrote is kept. */
  predicate Refunds(s: Database, e: Event, row: nat) {
    && e.PayStep? && e.pay.CallTransfer? && e.pay.row == row
    && PendingWithdrawal(s, row) && TransferFails(s, row, e.pay.transferred)
  }

  /** How often the run credited the withdrawal back. */
  function RefundsMade(s: Database, es: seq<Event>, row: nat): nat {
    if es == [] then 0
    else RefundsMade(s, es[..|es| - 1], row) + if Refunds(Run(s, es[..|es| - 1]), es[|es| - 1], row) then 1 else 0
  }

  ghost predicate HasFailed(s: Store, row: nat) {
    row < |s.ledger| && s.ledger[row].status.Failed?
  }

  lemma PayFailure(s: Database, e: PayEvent, row: nat)
    requires row < |s.ledger|
    ensures HasFailed(DoPay(s, e), row) <==> HasFailed(s, row) || Refunds(s, PayStep(e), row)
  {
  }

  lemma CloseKeepsRows(s: Database, e: CloseEvent)
    ensures |s.ledger| <= |DoClose(s, e).ledger|
    ensures forall i | 0 <= i < |s.ledger| :: DoClose(s, e).ledger[i] == s.ledger[i]
  {
  }

  /** A row turns FAILED exactly when its withdrawal is credited back. */
  lemma StepFailure(s: Database, e: Event, row: nat)
    ensures HasFailed(Step(s, e), row) <==> HasFailed(s, row) || Refunds(s, e, row)
  {
    if row >= |s.ledger| {
      NewRows(s, e);
    } else {
      match e {
        case PayStep(x) => PayFailure(s, x, row);
        case BidStep(u, a, amount) =>
        case SettleStep(a) =>
        case HandleStep(a) =>
        case CloseStep(x) => CloseKeepsRows(s, x);
        case _ => QuietStep(s, e);
      }
    }
  }

  /** Main result: over any retries a withdrawal is credited back once if it ends FAILED, and otherwise never. */
  lemma {:induction false} RefundedOnce(s: Database, es: seq<Event>, row: nat)
    requires Fresh(s)
    ensures RefundsMade(s, es, row) == if HasFailed(Run(s, es), row) then 1 else 0
  {
    if es == [] {
    } else {
      RefundedOnce(s, es[..|es| - 1], row);
      StepFailure(Run(s, es[..|es| - 1]), es[|es| - 1], row);
    }
  }

  predicate BankRefund(r: Row) {
    r.kind.Refund? && r.ref.NoReference?
  }

  /** The event at position `n` of the run credited a withdrawal back and posted row `i` for it. */
  ghost predicate RefundedBy(s: Database, es: seq<Event>, i: nat, n: nat)
    requires n < |es|
  {
    var before, after, e := Run(s, es[..n]), Run(s, es), es[n];
    && |before.ledger| == i < |after.ledger| && BankRefund(after.ledger[i])
    && e.PayStep? && e.pay.CallTransfer? && Refunds(before, e, e.pay.row)
    && e.pay.row < i && after.ledger[i].wallet == after.ledger[e.pay.row].wallet
    && after.ledger[i].amount == after.ledger[e.pay.row].amount
  }

  /** The wallets with an amount added to what one user has available. */
  function PaidInto(s: Database, user: nat, amount: Kobo): seq<Wallet>
    requires user < |s.wallets|
  {
    s.wallets[user := s.wallets[user].(available := s.wallets[user].available + amount)]
  }

  /** What a crediting event posts. */
  lemma RefundPosts(s: Database, e: Event, row: nat)
    requires Refunds(s, e, row)
    ensures var t := Step(s, e);
            && |t.ledger| == |s.ledger| + 1 && BankRefund(t.ledger[|s.ledger|])
            && t.ledger[|s.ledger|].wallet == s.ledger[row].wallet
            && t.ledger[|s.ledger|].amount == s.ledger[row].amount
            && t.ledger[row] == s.ledger[row].(status := TransactionStatus.Failed)
            && t.wallets == PaidInto(s, s.ledger[row].wallet, s.ledger[row].amount)
  {
  }

  /** Nothing else posts such a row. */
  lemma NewRefundIsRefund(s: Database, e: Event, i: nat)
    requires |s.ledger| <= i < |Step(s, e).ledger| && BankRefund(Step(s, e).ledger[i])
    ensures e.PayStep? && e.pay.CallTransfer? && Refunds(s, e, e.pay.row) && i == |s.ledger|
  {
    NewRows(s, e);
  }

  lemma RefundedNow(s: Database, es: seq<Event>, e: Event, i: nat)
    requires |Run(s, es).ledger| <= i < |Run(s, es + [e]).ledger| && BankRefund(Run(s, es + [e]).ledger[i])
    ensures RefundedBy(s, es + [e], i, |es|)
  {
    RunAppend(s, es, e);
    NewRefundIsRefund(Run(s, es), e, i);
    RefundPosts(Run(s, es), e, e.pay.row);
    assert (es + [e])[..|es|] == es;
  }

  lemma RowsKept(s: Database, es: seq<Event>, e: Event, i: nat)
    requires i < |Run(s, es).ledger|
    ensures i < |Run(s, es + [e]).ledger| && SameRow(Run(s, es).ledger[i], Run(s, es + [e]).ledger[i])
  {
    RunAppend(s, es, e);
    StepExtends(Run(s, es), e);
  }

  lemma RefundedEarlier(s: Database, es: seq<Event>, e: Event, i: nat, n: nat)
    requires n < |es| && RefundedBy(s, es, i, n)
    ensures RefundedBy(s, es + [e], i, n)
  {
    RowsKept(s, es, e, i);
    RowsKept(s, es, e, es[n].pay.row);
    assert (es + [e])[..n] == es[..n];
  }

  /** Main result: every bank refund on the ledger was posted by an event that credited back just its withdrawal. */
  lemma {:induction false} EveryRefundHasFailure(s: Database, es: seq<Event>, i: nat)
    requires Fresh(s) && i < |Run(s, es).ledger| && BankRefund(Run(s, es).ledger[i])
    ensures exists n | 0 <= n < |es| :: RefundedBy(s, es, i, n)
  {
    var k := |es| - 1;
    LastEvent(es);
    if i < |Run(s, es[..k]).ledger| {
      RowsKept(s, es[..k], es[k], i);
      EveryRefundHasFailure(s, es[..k], i);
      var n :| 0 <= n < k && RefundedBy(s, es[..k], i, n);
      RefundedEarlier(s, es[..k], es[k], i, n);
    } else {
      RefundedNow(s, es[..k], es[k], i);
    }
  }

  lemma NextLonger(s: Database, es: seq<Event>, n: nat)
    requires n < |es|
    ensures |Run(s, es[..n]).ledger| <= |Run(s, es[..n + 1]).ledger|
  {
    RunNext(s, es, n);
    StepExtends(Run(s, es[..n]), es[n]);
  }

  lemma {:induction false} LedgerGrows(s: Database, es: seq<Event>, n: nat, m: nat)
    requires n <= m <= |es|
    ensures |Run(s, es[..n]).ledger| <= |Run(s, es[..m]).ledger|
    decreases m - n
  {
    if n == m {
    } else {
      NextLonger(s, es, n);
      LedgerGrows(s, es, n + 1, m);
    }
  }

  /** A crediting event lengthens the ledger, so no later event meets it at that length. */
  lemma LongerAfter(s: Database, es: seq<Event>, n: nat, m: nat, row: nat)
    requires n < m < |es| && Refunds(Run(s, es[..n]), es[n], row)
    ensures |Run(s, es[..n]).ledger| < |Run(s, es[..m]).ledger|
  {
    RunNext(s, es, n);
    RefundPosts(Run(s, es[..n]), es[n], row);
    LedgerGrows(s, es, n + 1, m);
  }

  /** And by one such event only. */
  lemma OneRefundPerRow(s: Database, es: seq<Event>, i: nat, n: nat, m: nat)
    requires n < m < |es|
    ensures !(RefundedBy(s, es, i, n) && RefundedBy(s, es, i, m))
  {
    if RefundedBy(s, es, i, n) && RefundedBy(s, es, i, m) {
      LongerAfter(s, es, n, m, es[n].pay.row);
    }
  }

  // ---- The worker task keeps no refund ----

  ghost predicate NothingRefunded(s: Store) {
    forall i | 0 <= i < |s.ledger| :: !s.ledger[i].status.Failed? && !BankRefund(s.ledger[i])
  }

  /** The run never keeps what a raising transfer did: transfers go through the worker task only. */
  ghost predicate TasksOnly(es: seq<Event>) {
    forall i | 0 <= i < |es| :: es[i].PayStep? ==> !es[i].pay.CallTransfer?
  }

  lemma StepNothingRefunded(s: Database, e: Event)
    requires NothingRefunded(s) && (e.PayStep? ==> !e.pay.CallTransfer?)
    ensures NothingRefunded(Step(s, e))
  {
    var t := Step(s, e);
    StepExtends(s, e);
    NewRows(s, e);
    forall i | 0 <= i < |t.ledger| ensures !t.ledger[i].status.Failed? && !BankRefund(t.ledger[i]) {
      if i < |s.ledger| {
        assert SameRow(s.ledger[i], t.ledger[i]);
        StepFailure(s, e, i);
      }
    }
  }

  /**
   The failure mail says the amount has been refunded. When transfers go through the worker task, which rolls
   back what the raising service method did, no withdrawal ever fails and none is ever refunded.
   */
  lemma {:induction false} TaskRunsRefundNothing(s: Database, es: seq<Event>)
    requires Fresh(s) && TasksOnly(es)
    ensures NothingRefunded(Run(s, es))
  {
    if es == [] {
    } else {
      TaskRunsRefundNothing(s, es[..|es| - 1]);
      StepNothingRefunded(Run(s, es[..|es| - 1]), es[|es| - 1]);
    }
  }

  /** For one pending withdrawal: the money comes back exactly when the transfer fails and the caller keeps it. */
  lemma RefundNeedsCommit(s: Database, row: nat, transferred: bool)
    requires PendingWithdrawal(s, row)
    ensures TransferTask(s, row, transferred).wallets == s.wallets
    ensures TransferFails(s, row, transferred) <==>
            TransferService(s, row, transferred).wallets == PaidInto(s, s.ledger[row].wallet, s.ledger[row].amount)
    ensures TransferFails(s, row, transferred) <==>
            TransferService(s, row, transferred) != TransferTask(s, row, transferred)
  {
    if TransferFails(s, row, transferred) {
      assert |TransferService(s, row, transferred).ledger| == |s.ledger| + 1;
    }
  }
}

/** The wallet table refines the ledger: every bucket is what the rows say it is. */
module Books {
  import opened Domain
  import opened Tallies
  import opened Ledgers
  import opened Bidding
  import opened Settlement
  import opened Orders
  import opened Payments
  import opened Protocol
  import opened History
  import opened BidChain
  import opened Sales

  // ---- What a row may say ----

  /** Which types of rows are credits. */
  predicate Signed(r: Row) {
    r.direction.Credit? <==> r.kind.Deposit? || r.kind.BidUnlock? || r.kind.EscrowRelease? || r.kind.Refund?
  }

  ghost predicate RowFits(s: Store, r: Row) {
    Signed(r) &&
    match r.kind
    case BidLock | BidUnlock =>
      r.ref.BidRef? && r.ref.id < |s.bids| && r.amount == s.bids[r.ref.id].amount && r.wallet == s.bids[r.ref.id].bidder
    case EscrowMove =>
      r.ref.OrderRef? && r.ref.id < |s.orders|
      && r.amount == s.orders[r.ref.id].amount && r.wallet == s.orders[r.ref.id].buyer
    case EscrowRelease =>
      r.ref.EscrowRef? && r.ref.id < |s.escrows|
      && r.amount == s.escrows[r.ref.id].amount - s.escrows[r.ref.id].commission
      && r.wallet == s.escrows[r.ref.id].seller
    case Commission =>
      r.ref.EscrowRef? && r.ref.id < |s.escrows|
      && r.amount == s.escrows[r.ref.id].commission && r.wallet == s.escrows[r.ref.id].seller
    case Refund =>
      r.ref.NoReference?
      || (r.ref.EscrowRef? && r.ref.id < |s.escrows|
          && r.amount == s.escrows[r.ref.id].amount && r.wallet == s.escrows[r.ref.id].winner)
    case Deposit =>
      r.ref.DepositRef? && r.ref.id < |s.payments|
      && r.amount == s.payments[r.ref.id].amount && r.wallet == s.payments[r.ref.id].wallet
    case Withdrawal => r.ref.WithdrawalRef?
  }

  /** Every row carries the amount and the wallet of the bid, order, escrow or payment it refers to. */
  ghost predicate Referenced(s: Store) {
    forall i | 0 <= i < |s.ledger| :: RowFits(s, s.ledger[i])
  }

  lemma RowStillFits(s: Store, t: Store, r: Row, q: Row)
    requires RowFits(s, r) && Extends(s, t) && SameRow(r, q)
    ensures RowFits(t, q)
  {
    if r.ref.BidRef? && r.ref.id < |s.bids| {
      assert SameBid(s.bids[r.ref.id], t.bids[r.ref.id]);
    } else if r.ref.OrderRef? && r.ref.id < |s.orders| {
      assert SameOrder(s.orders[r.ref.id], t.orders[r.ref.id]);
    } else if r.ref.EscrowRef? && r.ref.id < |s.escrows| {
      assert SameEscrow(s.escrows[r.ref.id], t.escrows[r.ref.id]);
    } else if r.ref.DepositRef? && r.ref.id < |s.payments| {
      assert SamePayment(s.payments[r.ref.id], t.payments[r.ref.id]);
    }
  }

  /** The rows an event adds. */
  ghost predicate NewRowsFit(s: Store, t: Store) {
    |s.ledger| <= |t.ledger| && forall i | |s.ledger| <= i < |t.ledger| :: RowFits(t, t.ledger[i])
  }

  lemma BidRowsFit(s: Database, bidder: nat, a: nat, amount: Kobo)
    ensures NewRowsFit(s, PlaceBid(s, bidder, a, amount))
  {
  }

  lemma SettleRowsFit(s: Database, a: nat)
    ensures NewRowsFit(s, Settle(s, a))
  {
  }

  lemma HandleRowsFit(s: Database, a: nat)
    ensures NewRowsFit(s, Handle(s, a))
  {
  }

  lemma PayRowsFit(s: Database, e: PayEvent)
    ensures NewRowsFit(s, DoPay(s, e))
  {
  }

  lemma PayoutRowsFit(s: Database, e: nat)
    requires CanPayOut(s, e)
    ensures NewRowsFit(s, PayOut(s, e))
  {
  }

  lemma FoundEscrow(s: Database, o: nat)
    requires Paired(s)
    ensures FindEscrow(s.escrows, o) == if o < |s.orders| then Some(o) else None
  {
    forall i | 0 <= i < |s.escrows| ensures s.escrows[i].order == i {
      assert PairFits(s, i);
    }
    if o < |s.orders| {
      assert s.escrows[o].order == o;
    }
  }

  lemma RefundRowsFit(s: Database, o: nat, status: OrderStatus, note: Note)
    requires Paired(s) && CanRefund(s, o)
    ensures NewRowsFit(s, RefundBuyer(s, o, status, note))
  {
    FoundEscrow(s, o);
    assert PairFits(s, o);
  }

  lemma ConfirmRowsFit(s: Database, buyer: nat, o: nat)
    ensures NewRowsFit(s, ConfirmDelivery(s, buyer, o))
  {
    if CanConfirm(s, buyer, o) {
      PayoutRowsFit(s, FindEscrow(s.escrows, o).value);
    }
  }

  lemma ReleaseRowsFit(s: Database, e: nat)
    ensures NewRowsFit(s, ReleaseTask(s, e))
  {
    if CanRelease(s, e) {
      PayoutRowsFit(s, e);
    }
  }

  lemma CancelRowsFit(s: Database, buyer: nat, o: nat)
    requires Paired(s)
    ensures NewRowsFit(s, CancelOrder(s, buyer, o))
    ensures NewRowsFit(s, CancelOverdue(s, o))
  {
    if CanRefund(s, o) {
      RefundRowsFit(s, o, OrderStatus.Cancelled, CancelledOrderRefund);
      RefundRowsFit(s, o, OrderStatus.Cancelled, OverdueOrderRefund);
    }
  }

  lemma ResolveRowsFit(s: Database, admin: nat, d: nat, forBuyer: bool)
    requires Paired(s)
    ensures NewRowsFit(s, ResolveDispute(s, admin, d, forBuyer))
  {
    if CanResolve(s, admin, d, forBuyer) {
      var o := s.disputes[d].order;
      if forBuyer {
        RefundRowsFit(s, o, OrderStatus.Refunded, DisputeRefund);
      } else {
        PayoutRowsFit(s, FindEscrow(s.escrows, o).value);
      }
    }
  }

  lemma CloseRowsFit(s: Database, e: CloseEvent)
    requires Paired(s)
    ensures NewRowsFit(s, DoClose(s, e))
  {
    match e {
      case Confirm(u, o) => ConfirmRowsFit(s, u, o);
      case BuyerCancel(u, o) => CancelRowsFit(s, u, o);
      case SweepCancel(o) => CancelRowsFit(s, 0, o);
      case Release(x) => ReleaseRowsFit(s, x);
      case Resolve(u, d, forBuyer) => ResolveRowsFit(s, u, d, forBuyer);
    }
  }

  lemma StepRowsFit(s: Database, e: Event)
    requires Paired(s)
    ensures NewRowsFit(s, Step(s, e))
  {
    match e {
      case PayStep(x) => PayRowsFit(s, x);
      case BidStep(u, a, amount) => BidRowsFit(s, u, a, amount);
      case SettleStep(a) => SettleRowsFit(s, a);
      case HandleStep(a) => HandleRowsFit(s, a);
      case CloseStep(x) => CloseRowsFit(s, x);
      case _ => QuietStep(s, e);
    }
  }

  lemma StepReferenced(s: Database, e: Event)
    requires Referenced(s) && Paired(s)
    ensures Referenced(Step(s, e))
  {
    var t := Step(s, e);
    StepExtends(s, e);
    StepRowsFit(s, e);
    forall i | 0 <= i < |t.ledger| ensures RowFits(t, t.ledger[i]) {
      if i < |s.ledger| {
        RowStillFits(s, t, s.ledger[i], t.ledger[i]);
      }
    }
  }

  // ---- The refinement ----

  /** `owed` is what failed withdrawals the ledger shows without their refund. */
  ghost predicate BucketsOwe(w: Wallet, sales: int, owed: int, ledger: seq<Row>, winners: seq<nat>, u: nat) {
    && w.available == Total(Available, ledger, winners, u)
    && w.locked == Total(Locked, ledger, winners, u)
    && w.escrow == Total(InEscrow, ledger, winners, u)
    && sales == Total(Measure.Sales, ledger, winners, u)
    && Total(BankRefunds, ledger, winners, u) + owed == Total(FailedWithdrawals, ledger, winners, u)
  }

  ghost predicate BucketsAgree(w: Wallet, sales: int, ledger: seq<Row>, winners: seq<nat>, u: nat) {
    BucketsOwe(w, sales, 0, ledger, winners, u)
  }

  /**
   Every user's buckets and sales counter are the fold of the ledger, and every failed withdrawal was
   refunded in full.
   */
  ghost predicate Balanced(s: Database) {
    forall u | 0 <= u < |s.users| :: BucketsAgree(s.wallets[u], s.users[u].totalSales, s.ledger, Winners(s.escrows), u)
  }

  /** One more row, moving user `u`'s numbers by what the row says. */
  lemma PostRowOwing(w: Wallet, v: Wallet, sales: int, more: int, owed: int, owes: int,
                     ledger: seq<Row>, r: Row, winners: seq<nat>, u: nat)
    requires BucketsOwe(w, sales, owed, ledger, winners, u)
    requires v.available == w.available + Adds(Available, r, winners, u)
    requires v.locked == w.locked + Adds(Locked, r, winners, u)
    requires v.escrow == w.escrow + Adds(InEscrow, r, winners, u)
    requires more == sales + Adds(Measure.Sales, r, winners, u)
    requires owes == owed + Adds(FailedWithdrawals, r, winners, u) - Adds(BankRefunds, r, winners, u)
    ensures BucketsOwe(v, more, owes, ledger + [r], winners, u)
  {
    TotalAppend(Available, ledger, r, winners, u);
    TotalAppend(Locked, ledger, r, winners, u);
    TotalAppend(InEscrow, ledger, r, winners, u);
    TotalAppend(Measure.Sales, ledger, r, winners, u);
    TotalAppend(BankRefunds, ledger, r, winners, u);
    TotalAppend(FailedWithdrawals, ledger, r, winners, u);
  }

  lemma PostRow(w: Wallet, v: Wallet, sales: int, more: int, ledger: seq<Row>, r: Row, winners: seq<nat>, u: nat)
    requires BucketsAgree(w, sales, ledger, winners, u)
    requires v.available == w.available + Adds(Available, r, winners, u)
    requires v.locked == w.locked + Adds(Locked, r, winners, u)
    requires v.escrow == w.escrow + Adds(InEscrow, r, winners, u)
    requires more == sales + Adds(Measure.Sales, r, winners, u)
    requires Adds(BankRefunds, r, winners, u) == Adds(FailedWithdrawals, r, winners, u)
    ensures BucketsAgree(v, more, ledger + [r], winners, u)
  {
    PostRowOwing(w, v, sales, more, 0, 0, ledger, r, winners, u);
  }

  /** Marking a pending withdrawal leaves the buckets' reading alone; a failure is owed until refunded. */
  lemma MarkWithdrawal(w: Wallet, sales: int, ledger: seq<Row>, row: nat, status: TransactionStatus,
      winners: seq<nat>, u: nat)
    requires BucketsAgree(w, sales, ledger, winners, u)
    requires row < |ledger| && ledger[row].kind.Withdrawal? && ledger[row].status.Pending?
    ensures var owed := if status.Failed? && ledger[row].wallet == u then ledger[row].amount else 0;
            BucketsOwe(w, sales, owed, ledger[row := ledger[row].(status := status)], winners, u)
  {
    var q := ledger[row].(status := status);
    TotalUpdate(Available, ledger, row, q, winners, u);
    TotalUpdate(Locked, ledger, row, q, winners, u);
    TotalUpdate(InEscrow, ledger, row, q, winners, u);
    TotalUpdate(Measure.Sales, ledger, row, q, winners, u);
    TotalUpdate(BankRefunds, ledger, row, q, winners, u);
    TotalUpdate(FailedWithdrawals, ledger, row, q, winners, u);
  }

  lemma NewBidBalanced(s: Database, bidder: nat, a: nat, amount: Kobo)
    requires Balanced(s)
    requires a < |s.auctions| && bidder < |s.users| && 0 < amount <= s.wallets[bidder].available
    ensures Balanced(WithNewBid(s, bidder, a, amount))
  {
    var t := WithNewBid(s, bidder, a, amount);
    forall u | 0 <= u < |t.users|
      ensures BucketsAgree(t.wallets[u], t.users[u].totalSales, t.ledger, Winners(t.escrows), u)
    {
      PostRow(s.wallets[u], t.wallets[u], s.users[u].totalSales, t.users[u].totalSales,
              s.ledger, LockRow(s, bidder, amount), Winners(s.escrows), u);
    }
  }

  lemma ReleasedBidBalanced(s: Database, b: nat, status: BidStatus, note: Note, bucket: Bucket)
    requires Balanced(s)
    requires b < |s.bids| && s.bids[b].amount <= s.wallets[s.bids[b].bidder].locked
    ensures Balanced(WithReleasedBid(s, b, status, note, bucket))
  {
    var t := WithReleasedBid(s, b, status, note, bucket);
    forall u | 0 <= u < |t.users|
      ensures BucketsAgree(t.wallets[u], t.users[u].totalSales, t.ledger, Winners(t.escrows), u)
    {
      PostRow(s.wallets[u], t.wallets[u], s.users[u].totalSales, t.users[u].totalSales,
              s.ledger, UnlockRow(s, b, note, bucket), Winners(s.escrows), u);
    }
  }

  lemma BidBalanced(s: Database, bidder: nat, a: nat, amount: Kobo)
    requires Balanced(s)
    ensures Balanced(PlaceBid(s, bidder, a, amount))
  {
    if BidError(s, bidder, a, amount).None? {
      NewBidBalanced(s, bidder, a, amount);
      var h := HighestBid(s.bids, a);
      if h.Some? {
        ReleasedBidBalanced(WithNewBid(s, bidder, a, amount), h.value, BidStatus.Released, OutbidRefund,
            AvailableBucket);
      }
    }
  }

  lemma MoreWinners(s: Database, more: seq<nat>, u: nat)
    requires Balanced(s) && Referenced(s) && u < |s.users|
    ensures BucketsAgree(s.wallets[u], s.users[u].totalSales, s.ledger, Winners(s.escrows) + more, u)
  {
    forall i | 0 <= i < |s.ledger| ensures s.ledger[i].ref.EscrowRef? ==> s.ledger[i].ref.id < |s.escrows| {
      assert RowFits(s, s.ledger[i]);
    }
    var winners := Winners(s.escrows);
    TotalMoreWinners(Available, s.ledger, winners, more, u);
    TotalMoreWinners(Locked, s.ledger, winners, more, u);
    TotalMoreWinners(InEscrow, s.ledger, winners, more, u);
    TotalMoreWinners(Measure.Sales, s.ledger, winners, more, u);
    TotalMoreWinners(BankRefunds, s.ledger, winners, more, u);
    TotalMoreWinners(FailedWithdrawals, s.ledger, winners, more, u);
    assert BucketsAgree(s.wallets[u], s.users[u].totalSales, s.ledger, Winners(s.escrows), u);
  }

  lemma SoldBalancedFor(s: Database, a: nat, u: nat)
    requires Balanced(s) && Referenced(s) && a < |s.auctions| && Judge(s, a) == Verdict.Sold && u < |s.users|
    ensures var t := CloseSold(s, a);
            BucketsAgree(t.wallets[u], t.users[u].totalSales, t.ledger, Winners(t.escrows), u)
  {
    var t := CloseSold(s, a);
    var winner := EscrowFor(s, a).winner;
    assert Winners(t.escrows) == Winners(s.escrows) + [winner];
    MoreWinners(s, [winner], u);
    PostRow(s.wallets[u], t.wallets[u], s.users[u].totalSales, t.users[u].totalSales,
            s.ledger, MoveRow(s, a), Winners(t.escrows), u);
  }

  lemma SoldBalanced(s: Database, a: nat)
    requires Balanced(s) && Referenced(s) && a < |s.auctions| && Judge(s, a) == Verdict.Sold
    ensures Balanced(CloseSold(s, a))
  {
    var t := CloseSold(s, a);
    forall u | 0 <= u < |t.users|
      ensures BucketsAgree(t.wallets[u], t.users[u].totalSales, t.ledger, Winners(t.escrows), u)
    {
      SoldBalancedFor(s, a, u);
    }
  }

  /** The books depend on wallets, sales counters, ledger and escrow winners only. */
  lemma SameBooks(s: Database, t: Database)
    requires Balanced(s)
    requires t.wallets == s.wallets && t.ledger == s.ledger && |t.escrows| == |s.escrows|
    requires forall i | 0 <= i < |s.escrows| :: s.escrows[i].winner == t.escrows[i].winner
    requires |t.users| == |s.users| && forall u | 0 <= u < |s.users| :: s.users[u].totalSales == t.users[u].totalSales
    ensures Balanced(t)
  {
    assert Winners(t.escrows) == Winners(s.escrows);
    forall u | 0 <= u < |t.users|
      ensures BucketsAgree(t.wallets[u], t.users[u].totalSales, t.ledger, Winners(t.escrows), u)
    {
      assert BucketsAgree(s.wallets[u], s.users[u].totalSales, s.ledger, Winners(s.escrows), u);
    }
  }

  lemma SettleBalanced(s: Database, a: nat)
    requires Balanced(s) && Referenced(s)
    ensures Balanced(Settle(s, a))
  {
    if a in s.settling && a < |s.auctions| {
      if Judge(s, a) == Verdict.Sold {
        SoldBalanced(s, a);
      } else {
        SameBooks(s, Settle(s, a));
      }
    }
  }

  lemma HandleBalanced(s: Database, a: nat)
    requires Balanced(s)
    ensures Balanced(Handle(s, a))
  {
    if Handles(s, a) {
      var h := s.auctions[a].highest.value;
      ReleasedBidBalanced(s, h, BidStatus.Lost, ReserveNotMetRefund, LockedBucket);
      SameBooks(WithReleasedBid(s, h, BidStatus.Lost, ReserveNotMetRefund, LockedBucket), Handle(s, a));
    } else {
      SameBooks(s, Handle(s, a));
    }
  }

  lemma PayoutBalancedFor(s: Database, e: nat, u: nat)
    requires Balanced(s) && CanPayOut(s, e) && u < |s.users|
    ensures var t := PayOut(s, e);
            BucketsAgree(t.wallets[u], t.users[u].totalSales, t.ledger, Winners(t.escrows), u)
  {
    var t := PayOut(s, e);
    var x := s.escrows[e];
    var rows := PayoutRows(s, e);
    assert Winners(t.escrows) == Winners(s.escrows);
    assert t.ledger == (s.ledger + [rows[0]]) + [rows[1]];
    // the wallets between the two rows: only the payout has left escrow
    var w := t.wallets[u];
    var between := if u == x.winner then w.(escrow := w.escrow + x.commission) else w;
    PostRow(s.wallets[u], between, s.users[u].totalSales, t.users[u].totalSales, s.ledger, rows[0],
        Winners(s.escrows), u);
    PostRow(between, w, t.users[u].totalSales, t.users[u].totalSales, s.ledger + [rows[0]], rows[1],
        Winners(s.escrows), u);
  }

  lemma PayoutBalanced(s: Database, e: nat)
    requires Balanced(s) && CanPayOut(s, e)
    ensures Balanced(PayOut(s, e))
  {
    var t := PayOut(s, e);
    forall u | 0 <= u < |t.users|
      ensures BucketsAgree(t.wallets[u], t.users[u].totalSales, t.ledger, Winners(t.escrows), u)
    {
      PayoutBalancedFor(s, e, u);
    }
  }

  lemma RefundBalanced(s: Database, o: nat, status: OrderStatus, note: Note)
    requires Balanced(s) && CanRefund(s, o)
    ensures Balanced(RefundBuyer(s, o, status, note))
  {
    var t := RefundBuyer(s, o, status, note);
    assert Winners(t.escrows) == Winners(s.escrows);
    forall u | 0 <= u < |t.users|
      ensures BucketsAgree(t.wallets[u], t.users[u].totalSales, t.ledger, Winners(t.escrows), u)
    {
      PostRow(s.wallets[u], t.wallets[u], s.users[u].totalSales, t.users[u].totalSales,
              s.ledger, RefundRow(s, o, note), Winners(s.escrows), u);
    }
  }

  lemma PaidOrderBalanced(s: Database, e: nat, o: nat)
    requires Balanced(s) && CanPayOut(s, e) && o < |s.orders|
    ensures Balanced(SetOrder(PayOut(s, e), o, OrderStatus.Completed))
  {
    PayoutBalanced(s, e);
    SameBooks(PayOut(s, e), SetOrder(PayOut(s, e), o, OrderStatus.Completed));
  }

  lemma ResolveBalanced(s: Database, admin: nat, d: nat, forBuyer: bool)
    requires Balanced(s)
    ensures Balanced(ResolveDispute(s, admin, d, forBuyer))
  {
    if CanResolve(s, admin, d, forBuyer) {
      var o := s.disputes[d].order;
      var e := FindEscrow(s.escrows, o).value;
      if forBuyer {
        RefundBalanced(s, o, OrderStatus.Refunded, DisputeRefund);
        SameBooks(RefundBuyer(s, o, OrderStatus.Refunded, DisputeRefund), ResolveDispute(s, admin, d, forBuyer));
      } else {
        PaidOrderBalanced(s, e, o);
        SameBooks(SetOrder(PayOut(s, e), o, OrderStatus.Completed), ResolveDispute(s, admin, d, forBuyer));
      }
    }
  }

  lemma ConfirmBalanced(s: Database, buyer: nat, o: nat)
    requires Balanced(s)
    ensures Balanced(ConfirmDelivery(s, buyer, o))
  {
    if CanConfirm(s, buyer, o) {
      PaidOrderBalanced(s, FindEscrow(s.escrows, o).value, o);
    }
  }

  lemma ReleaseBalanced(s: Database, e: nat)
    requires Balanced(s)
    ensures Balanced(ReleaseTask(s, e))
  {
    if CanRelease(s, e) {
      PaidOrderBalanced(s, e, s.escrows[e].order);
    }
  }

  lemma CancelBalanced(s: Database, buyer: nat, o: nat)
    requires Balanced(s)
    ensures Balanced(CancelOrder(s, buyer, o))
  {
    if CanRefund(s, o) {
      RefundBalanced(s, o, OrderStatus.Cancelled, CancelledOrderRefund);
    }
  }

  lemma OverdueBalanced(s: Database, o: nat)
    requires Balanced(s)
    ensures Balanced(CancelOverdue(s, o))
  {
    if CanRefund(s, o) {
      RefundBalanced(s, o, OrderStatus.Cancelled, OverdueOrderRefund);
    }
  }

  lemma CloseBalanced(s: Database, e: CloseEvent)
    requires Balanced(s)
    ensures Balanced(DoClose(s, e))
  {
    match e {
      case Confirm(u, o) => ConfirmBalanced(s, u, o);
      case BuyerCancel(u, o) => CancelBalanced(s, u, o);
      case SweepCancel(o) => OverdueBalanced(s, o);
      case Release(x) => ReleaseBalanced(s, x);
      case Resolve(u, d, forBuyer) => ResolveBalanced(s, u, d, forBuyer);
    }
  }

  lemma WebhookBalanced(s: Database, p: nat, v: Verification)
    requires Balanced(s)
    ensures Balanced(HandleWebhook(s, p, v))
  {
    var t := HandleWebhook(s, p, v);
    if t.ledger == s.ledger {
      SameBooks(s, t);
    } else {
      forall u | 0 <= u < |t.users|
        ensures BucketsAgree(t.wallets[u], t.users[u].totalSales, t.ledger, Winners(t.escrows), u)
      {
        PostRow(s.wallets[u], t.wallets[u], s.users[u].totalSales, t.users[u].totalSales,
                s.ledger, DepositRow(s, p), Winners(s.escrows), u);
      }
    }
  }

  lemma WithdrawBalanced(s: Database, user: nat, amount: Kobo)
    requires Balanced(s)
    ensures Balanced(Withdraw(s, user, amount))
  {
    var t := Withdraw(s, user, amount);
    if WithdrawalError(s, user, amount).None? {
      forall u | 0 <= u < |t.users|
        ensures BucketsAgree(t.wallets[u], t.users[u].totalSales, t.ledger, Winners(t.escrows), u)
      {
        PostRow(s.wallets[u], t.wallets[u], s.users[u].totalSales, t.users[u].totalSales,
                s.ledger, WithdrawalRow(s, user, amount), Winners(s.escrows), u);
      }
    }
  }

  /** A withdrawal that completes says the same about every bucket as when it was pending. */
  lemma CompletedBalanced(s: Database, row: nat)
    requires Balanced(s) && PendingWithdrawal(s, row)
    ensures Balanced(MarkRow(s, row, TransactionStatus.Completed))
  {
    var t := MarkRow(s, row, TransactionStatus.Completed);
    forall u | 0 <= u < |t.users|
      ensures BucketsAgree(t.wallets[u], t.users[u].totalSales, t.ledger, Winners(t.escrows), u)
    {
      MarkWithdrawal(s.wallets[u], s.users[u].totalSales, s.ledger, row, TransactionStatus.Completed,
          Winners(s.escrows), u);
    }
  }

  lemma BankRefundAdds(q: Row, winners: seq<nat>, u: nat)
    requires q.kind.Refund? && q.ref.NoReference?
    ensures var owed := if q.wallet == u then q.amount else 0;
            && Adds(Available, q, winners, u) == owed
            && Adds(BankRefunds, q, winners, u) == owed
            && Adds(Locked, q, winners, u) == 0
            && Adds(InEscrow, q, winners, u) == 0
            && Adds(Measure.Sales, q, winners, u) == 0
            && Adds(FailedWithdrawals, q, winners, u) == 0
  {
  }

  /** A withdrawal marked FAILED together with its refund row: the debt is paid as soon as it arises. */
  lemma FailAndRefund(w: Wallet, sales: int, ledger: seq<Row>, row: nat, q: Row, winners: seq<nat>, u: nat)
    requires BucketsAgree(w, sales, ledger, winners, u)
    requires row < |ledger| && ledger[row].kind.Withdrawal? && ledger[row].status.Pending?
    requires q.kind.Refund? && q.ref.NoReference? && q.wallet == ledger[row].wallet && q.amount == ledger[row].amount
    ensures var v := if q.wallet == u then w.(available := w.available + q.amount) else w;
            BucketsAgree(v, sales, ledger[row := ledger[row].(status := TransactionStatus.Failed)] + [q], winners, u)
  {
    var owed := if q.wallet == u then q.amount else 0;
    MarkWithdrawal(w, sales, ledger, row, TransactionStatus.Failed, winners, u);
    BankRefundAdds(q, winners, u);
    PostRowOwing(w, w.(available := w.available + owed), sales, sales, owed, 0,
                 ledger[row := ledger[row].(status := TransactionStatus.Failed)], q, winners, u);
  }

  lemma RefundedBalanced(s: Database, row: nat)
    requires Balanced(s) && PendingWithdrawal(s, row)
    ensures Balanced(RefundWithdrawal(s, row))
  {
    var t := RefundWithdrawal(s, row);
    var r, q, winners := s.ledger[row], FailedTransferRow(s, row), Winners(s.escrows);
    assert Winners(t.escrows) == winners && t.users == s.users;
    assert t.ledger == s.ledger[row := r.(status := TransactionStatus.Failed)] + [q];
    forall u | 0 <= u < |t.users| ensures BucketsAgree(t.wallets[u], t.users[u].totalSales, t.ledger, winners, u) {
      assert t.wallets[u] ==
             if q.wallet == u then s.wallets[u].(available := s.wallets[u].available + q.amount) else s.wallets[u];
      FailAndRefund(s.wallets[u], s.users[u].totalSales, s.ledger, row, q, winners, u);
    }
  }

  lemma TransferBalanced(s: Database, row: nat, transferred: bool)
    requires Balanced(s)
    ensures Balanced(TransferTask(s, row, transferred)) && Balanced(TransferService(s, row, transferred))
  {
    if PendingWithdrawal(s, row) {
      CompletedBalanced(s, row);
      RefundedBalanced(s, row);
    }
  }

  lemma PayBalanced(s: Database, e: PayEvent)
    requires Balanced(s)
    ensures Balanced(DoPay(s, e))
  {
    match e {
      case Webhook(p, v) => WebhookBalanced(s, p, v);
      case TakeOut(u, amount) => WithdrawBalanced(s, u, amount);
      case RunTransfer(r, ok) => TransferBalanced(s, r, ok);
      case CallTransfer(r, ok) => TransferBalanced(s, r, ok);
    }
  }

  ghost predicate PerUser(m: Measure) {
    m.Available? || m.Locked? || m.InEscrow? || m.Sales? || m.BankRefunds? || m.FailedWithdrawals?
  }

  /** A per-user measure files a row under a user who exists. */
  lemma EffectKey(s: Database, m: Measure, i: nat)
    requires PerUser(m) && i < |s.ledger|
    ensures var e := Effect(m, s.ledger[i], Winners(s.escrows)); e == NOTHING || e.key < |s.users|
  {
    var r := s.ledger[i];
    if r.ref.EscrowRef? && r.ref.id < |s.escrows| {
      assert EscrowOk(s.escrows[r.ref.id], |s.users|, |s.auctions|, |s.orders|);
    }
  }

  lemma StrangerTotal(s: Database, m: Measure, u: nat)
    requires PerUser(m) && u >= |s.users|
    ensures Total(m, s.ledger, Winners(s.escrows), u) == 0
  {
    forall i | 0 <= i < |s.ledger|
      ensures var e := Effects(m, s.ledger, Winners(s.escrows))[i]; e.key != u || e.value == 0
    {
      EffectKey(s, m, i);
    }
    NoRowOf(Effects(m, s.ledger, Winners(s.escrows)), u);
  }

  /** The ledger says nothing about users who do not exist yet. */
  lemma StrangerBalanced(s: Database, u: nat)
    requires u >= |s.users|
    ensures BucketsAgree(Wallet(0, 0, 0), 0, s.ledger, Winners(s.escrows), u)
  {
    StrangerTotal(s, Available, u);
    StrangerTotal(s, Locked, u);
    StrangerTotal(s, InEscrow, u);
    StrangerTotal(s, Measure.Sales, u);
    StrangerTotal(s, BankRefunds, u);
    StrangerTotal(s, FailedWithdrawals, u);
  }

  lemma QuietBalanced(s: Database, e: Event)
    requires Balanced(s) && !MovesMoney(e)
    ensures Balanced(Step(s, e))
  {
    QuietStep(s, e);
    var t := Step(s, e);
    assert Winners(t.escrows) == Winners(s.escrows);
    forall u | 0 <= u < |t.users|
      ensures BucketsAgree(t.wallets[u], t.users[u].totalSales, t.ledger, Winners(t.escrows), u)
    {
      if u < |s.users| {
        assert BucketsAgree(s.wallets[u], s.users[u].totalSales, s.ledger, Winners(s.escrows), u);
      } else {
        StrangerBalanced(s, u);
      }
    }
  }

  lemma StepBalanced(s: Database, e: Event)
    requires Balanced(s) && Referenced(s)
    ensures Balanced(Step(s, e))
  {
    match e {
      case PayStep(x) => PayBalanced(s, x);
      case BidStep(u, a, amount) => BidBalanced(s, u, a, amount);
      case SettleStep(a) => SettleBalanced(s, a);
      case HandleStep(a) => HandleBalanced(s, a);
      case CloseStep(x) => CloseBalanced(s, x);
      case _ => QuietBalanced(s, e);
    }
  }

  // ---- Every run ----

  lemma {:induction false} RunBooks(s: Database, es: seq<Event>)
    requires Fresh(s)
    ensures Referenced(Run(s, es)) && Balanced(Run(s, es))
  {
    if es == [] {
    } else {
      RunBooks(s, es[..|es| - 1]);
      RunSales(s, es[..|es| - 1]);
      StepReferenced(Run(s, es[..|es| - 1]), es[|es| - 1]);
      StepBalanced(Run(s, es[..|es| - 1]), es[|es| - 1]);
    }
  }

  /** Main result: in every reachable state every bucket is the fold of the ledger. */
  lemma AlwaysBalanced(t: Database)
    requires Reachable(t)
    ensures Referenced(t) && Balanced(t)
  {
    var s, es :| ReachedBy(t, s, es);
    RunBooks(s, es);
  }
}

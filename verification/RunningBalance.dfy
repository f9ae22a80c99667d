/** The balances printed on the ledger rows are right: each row shows its wallet's available funds as they then were. */
module RunningBalance {
  import opened Domain
  import opened Tallies
  import opened Ledgers
  import opened Bidding
  import opened Settlement
  import opened Orders
  import opened Payments
  import opened Protocol
  import opened History
  import opened BidChain
  import opened Sales
  import opened Books

  /** A bucket as the first `n` rows tell it. */
  function After(s: Database, m: Measure, n: nat, user: nat): int
    requires n <= |s.ledger|
  {
    Total(m, s.ledger[..n], Winners(s.escrows), user)
  }

  /**
   `balance_after` is the available funds after the row. `balance_before` is the available funds before it,
   except on a dispute refund, which shows the escrow funds before it.
   */
  ghost predicate Printed(s: Database, i: nat)
    requires i < |s.ledger|
  {
    var r := s.ledger[i];
    && r.after == After(s, Available, i + 1, r.wallet)
    && r.before == After(s, if r.note.DisputeRefund? then InEscrow else Available, i, r.wallet)
  }

  ghost predicate AllPrinted(s: Database) {
    forall i | 0 <= i < |s.ledger| :: Printed(s, i)
  }

  // ---- Old rows keep their reading ----

  lemma PrefixStable(s: Database, t: Database, m: Measure, n: nat, user: nat)
    requires Referenced(s) && Extends(s, t) && n <= |s.ledger| && (m.Available? || m.InEscrow?)
    ensures After(t, m, n, user) == After(s, m, n, user)
  {
    forall i | 0 <= i < n
      ensures Effect(m, t.ledger[i], Winners(t.escrows)) == Effect(m, s.ledger[i], Winners(s.escrows))
    {
      assert RowFits(s, s.ledger[i]) && SameRow(s.ledger[i], t.ledger[i]);
      var r := s.ledger[i];
      assert r.ref.EscrowRef? ==> SameEscrow(s.escrows[r.ref.id], t.escrows[r.ref.id]);
    }
    assert Effects(m, t.ledger[..n], Winners(t.escrows)) == Effects(m, s.ledger[..n], Winners(s.escrows));
  }

  lemma StillPrinted(s: Database, t: Database, i: nat)
    requires Referenced(s) && Extends(s, t) && i < |s.ledger| && Printed(s, i)
    ensures Printed(t, i)
  {
    var r := s.ledger[i];
    assert SameRow(r, t.ledger[i]);
    PrefixStable(s, t, Available, i + 1, r.wallet);
    PrefixStable(s, t, Available, i, r.wallet);
    PrefixStable(s, t, InEscrow, i, r.wallet);
  }

  // ---- A new row shows the wallet before and after ----

  /** The bucket a row's balance before is taken from. */
  function Shown(w: Wallet, note: Note): Kobo {
    if note.DisputeRefund? then w.escrow else w.available
  }

  lemma WholeLedger(s: Database, user: nat)
    requires Balanced(s) && user < |s.users|
    ensures After(s, Available, |s.ledger|, user) == s.wallets[user].available
    ensures After(s, InEscrow, |s.ledger|, user) == s.wallets[user].escrow
  {
    assert s.ledger[..|s.ledger|] == s.ledger;
    assert BucketsAgree(s.wallets[user], s.users[user].totalSales, s.ledger, Winners(s.escrows), user);
  }

  /** The last row of `t`, posted on `s`, prints what the two wallet tables show. */
  lemma LastPrinted(s: Database, t: Database)
    requires Balanced(s) && Referenced(s) && Balanced(t) && Extends(s, t) && |t.ledger| == |s.ledger| + 1
    requires var r := t.ledger[|s.ledger|];
             && r.wallet < |s.users| && r.before == Shown(s.wallets[r.wallet], r.note)
             && r.after == t.wallets[r.wallet].available
    ensures Printed(t, |s.ledger|)
  {
    var r := t.ledger[|s.ledger|];
    WholeLedger(s, r.wallet);
    WholeLedger(t, r.wallet);
    PrefixStable(s, t, Available, |s.ledger|, r.wallet);
    PrefixStable(s, t, InEscrow, |s.ledger|, r.wallet);
  }

  lemma OneRowPrinted(s: Database, t: Database)
    requires AllPrinted(s) && Balanced(s) && Referenced(s) && Balanced(t) && Extends(s, t)
    requires |t.ledger| == |s.ledger| + 1
    requires var r := t.ledger[|s.ledger|];
             && r.wallet < |s.users| && r.before == Shown(s.wallets[r.wallet], r.note)
             && r.after == t.wallets[r.wallet].available
    ensures AllPrinted(t)
  {
    LastPrinted(s, t);
    forall i | 0 <= i < |t.ledger| ensures Printed(t, i) {
      if i < |s.ledger| {
        StillPrinted(s, t, i);
      }
    }
  }

  lemma NoRowPrinted(s: Database, t: Database)
    requires AllPrinted(s) && Referenced(s) && Extends(s, t) && |t.ledger| == |s.ledger|
    ensures AllPrinted(t)
  {
    forall i | 0 <= i < |t.ledger| ensures Printed(t, i) {
      StillPrinted(s, t, i);
    }
  }

  // ---- Events ----

  lemma NewBidExtends(s: Database, bidder: nat, a: nat, amount: Kobo)
    requires a < |s.auctions| && bidder < |s.users| && 0 < amount <= s.wallets[bidder].available
    ensures Extends(s, WithNewBid(s, bidder, a, amount))
    ensures Referenced(s) ==> Referenced(WithNewBid(s, bidder, a, amount))
  {
    var t := WithNewBid(s, bidder, a, amount);
    if Referenced(s) {
      forall i | 0 <= i < |t.ledger| ensures RowFits(t, t.ledger[i]) {
        if i < |s.ledger| {
          RowStillFits(s, t, s.ledger[i], t.ledger[i]);
        }
      }
    }
  }

  lemma ReleasedBidExtends(s: Database, b: nat, status: BidStatus, note: Note, bucket: Bucket)
    requires b < |s.bids| && s.bids[b].amount <= s.wallets[s.bids[b].bidder].locked
    ensures Extends(s, WithReleasedBid(s, b, status, note, bucket))
  {
  }

  lemma BidPrinted(s: Database, bidder: nat, a: nat, amount: Kobo)
    requires AllPrinted(s) && Balanced(s) && Referenced(s)
    ensures AllPrinted(PlaceBid(s, bidder, a, amount))
  {
    if BidError(s, bidder, a, amount).None? {
      var placed := WithNewBid(s, bidder, a, amount);
      NewBidBalanced(s, bidder, a, amount);
      NewBidExtends(s, bidder, a, amount);
      OneRowPrinted(s, placed);
      var h := HighestBid(s.bids, a);
      if h.Some? {
        ReleasedBidBalanced(placed, h.value, BidStatus.Released, OutbidRefund, AvailableBucket);
        ReleasedBidExtends(placed, h.value, BidStatus.Released, OutbidRefund, AvailableBucket);
        OneRowPrinted(placed, PlaceBid(s, bidder, a, amount));
      }
    }
  }

  lemma SettlePrinted(s: Database, a: nat)
    requires AllPrinted(s) && Balanced(s) && Referenced(s)
    ensures AllPrinted(Settle(s, a))
  {
    var t := Settle(s, a);
    SettleExtends(s, a);
    SettleBalanced(s, a);
    if t.ledger == s.ledger {
      NoRowPrinted(s, t);
    } else {
      OneRowPrinted(s, t);
    }
  }

  lemma HandlePrinted(s: Database, a: nat)
    requires AllPrinted(s) && Balanced(s) && Referenced(s)
    ensures AllPrinted(Handle(s, a))
  {
    var t := Handle(s, a);
    HandleExtends(s, a);
    HandleBalanced(s, a);
    if Handles(s, a) {
      OneRowPrinted(s, t);
    } else {
      NoRowPrinted(s, t);
    }
  }

  lemma WebhookPrinted(s: Database, p: nat, v: Verification)
    requires AllPrinted(s) && Balanced(s) && Referenced(s)
    ensures AllPrinted(HandleWebhook(s, p, v))
  {
    var t := HandleWebhook(s, p, v);
    WebhookExtends(s, p, v);
    WebhookBalanced(s, p, v);
    if |t.ledger| == |s.ledger| {
      NoRowPrinted(s, t);
    } else {
      OneRowPrinted(s, t);
    }
  }

  lemma WithdrawPrinted(s: Database, user: nat, amount: Kobo)
    requires AllPrinted(s) && Balanced(s) && Referenced(s)
    ensures AllPrinted(Withdraw(s, user, amount))
  {
    var t := Withdraw(s, user, amount);
    WithdrawExtends(s, user, amount);
    WithdrawBalanced(s, user, amount);
    if |t.ledger| == |s.ledger| {
      NoRowPrinted(s, t);
    } else {
      OneRowPrinted(s, t);
    }
  }

  lemma RefundedPrinted(s: Database, row: nat, transferred: bool)
    requires AllPrinted(s) && Balanced(s) && Referenced(s)
    requires PendingWithdrawal(s, row) && TransferFails(s, row, transferred)
    ensures AllPrinted(TransferService(s, row, transferred))
  {
    var t := TransferService(s, row, transferred);
    TransferExtends(s, row, transferred);
    TransferBalanced(s, row, transferred);
    OneRowPrinted(s, t);
  }

  lemma MarkedExtends(s: Database, row: nat)
    requires PendingWithdrawal(s, row)
    ensures Extends(s, MarkRow(s, row, TransactionStatus.Completed))
  {
  }

  lemma CompletedPrinted(s: Database, row: nat)
    requires AllPrinted(s) && Balanced(s) && Referenced(s) && PendingWithdrawal(s, row)
    ensures AllPrinted(MarkRow(s, row, TransactionStatus.Completed))
  {
    var t := MarkRow(s, row, TransactionStatus.Completed);
    CompletedBalanced(s, row);
    MarkedExtends(s, row);
    NoRowPrinted(s, t);
  }

  lemma TransferPrinted(s: Database, row: nat, transferred: bool)
    requires AllPrinted(s) && Balanced(s) && Referenced(s)
    ensures AllPrinted(TransferService(s, row, transferred)) && AllPrinted(TransferTask(s, row, transferred))
  {
    if PendingWithdrawal(s, row) {
      if TransferFails(s, row, transferred) {
        RefundedPrinted(s, row, transferred);
      } else {
        CompletedPrinted(s, row);
      }
    }
  }

  lemma PayPrinted(s: Database, e: PayEvent)
    requires AllPrinted(s) && Balanced(s) && Referenced(s)
    ensures AllPrinted(DoPay(s, e))
  {
    match e {
      case Webhook(p, v) => WebhookPrinted(s, p, v);
      case TakeOut(u, amount) => WithdrawPrinted(s, u, amount);
      case RunTransfer(r, ok) => TransferPrinted(s, r, ok);
      case CallTransfer(r, ok) => TransferPrinted(s, r, ok);
    }
  }

  /** A closing event that refunds posts one row; one that pays out posts two. */
  lemma RefundPrinted(s: Database, t: Database, o: nat, note: Note)
    requires AllPrinted(s) && Balanced(s) && Referenced(s) && CanRefund(s, o)
    requires Balanced(t) && Extends(s, t)
    requires t.ledger == s.ledger + [RefundRow(s, o, note)]
    requires t.wallets[s.orders[o].buyer].available == RefundRow(s, o, note).after
    ensures AllPrinted(t)
  {
    OneRowPrinted(s, t);
  }

  lemma FundsBefore(s: Database, t: Database, user: nat)
    requires Balanced(s) && Referenced(s) && Extends(s, t) && user < |s.users|
    ensures After(t, Available, |s.ledger|, user) == s.wallets[user].available
  {
    WholeLedger(s, user);
    PrefixStable(s, t, Available, |s.ledger|, user);
  }

  lemma AfterNext(s: Database, m: Measure, n: nat, user: nat)
    requires n < |s.ledger|
    ensures After(s, m, n + 1, user) == After(s, m, n, user) + Adds(m, s.ledger[n], Winners(s.escrows), user)
  {
    assert s.ledger[..n + 1] == s.ledger[..n] + [s.ledger[n]];
    TotalAppend(m, s.ledger[..n], s.ledger[n], Winners(s.escrows), user);
  }

  /** The payout row adds what it says to the seller's available funds; the commission row adds nothing. */
  lemma TwoRowsPrinted(s: Database, t: Database, user: nat)
    requires Balanced(s) && Referenced(s) && Extends(s, t) && |t.ledger| == |s.ledger| + 2 && user < |s.users|
    requires var r, q := t.ledger[|s.ledger|], t.ledger[|s.ledger| + 1];
             && r.wallet == q.wallet == user && r.kind.EscrowRelease? && q.kind.Commission?
             && !r.note.DisputeRefund? && !q.note.DisputeRefund?
             && r.before == s.wallets[user].available && r.after == r.before + r.amount == q.before == q.after
    ensures Printed(t, |s.ledger|) && Printed(t, |s.ledger| + 1)
  {
    FundsBefore(s, t, user);
    AfterNext(t, Available, |s.ledger|, user);
    AfterNext(t, Available, |s.ledger| + 1, user);
  }

  lemma PayoutPrinted(s: Database, t: Database, x: nat)
    requires AllPrinted(s) && Balanced(s) && Referenced(s) && CanPayOut(s, x)
    requires Extends(s, t) && t.ledger == s.ledger + PayoutRows(s, x)
    ensures AllPrinted(t)
  {
    TwoRowsPrinted(s, t, s.escrows[x].seller);
    forall i | 0 <= i < |t.ledger| ensures Printed(t, i) {
      if i < |s.ledger| {
        StillPrinted(s, t, i);
      }
    }
  }

  lemma CancelPrinted(s: Database, buyer: nat, o: nat)
    requires AllPrinted(s) && Balanced(s) && Referenced(s)
    ensures AllPrinted(CancelOrder(s, buyer, o))
  {
    CancelExtends(s, buyer, o);
    CancelBalanced(s, buyer, o);
    if CancelOrder(s, buyer, o).ledger == s.ledger {
      NoRowPrinted(s, CancelOrder(s, buyer, o));
    } else {
      RefundPrinted(s, CancelOrder(s, buyer, o), o, CancelledOrderRefund);
    }
  }

  lemma OverduePrinted(s: Database, o: nat)
    requires AllPrinted(s) && Balanced(s) && Referenced(s)
    ensures AllPrinted(CancelOverdue(s, o))
  {
    OverdueExtends(s, o);
    OverdueBalanced(s, o);
    if CancelOverdue(s, o).ledger == s.ledger {
      NoRowPrinted(s, CancelOverdue(s, o));
    } else {
      RefundPrinted(s, CancelOverdue(s, o), o, OverdueOrderRefund);
    }
  }

  lemma ConfirmPrinted(s: Database, buyer: nat, o: nat)
    requires AllPrinted(s) && Balanced(s) && Referenced(s)
    ensures AllPrinted(ConfirmDelivery(s, buyer, o))
  {
    ConfirmExtends(s, buyer, o);
    if CanConfirm(s, buyer, o) {
      PayoutPrinted(s, ConfirmDelivery(s, buyer, o), FindEscrow(s.escrows, o).value);
    }
  }

  lemma ReleasePrinted(s: Database, x: nat)
    requires AllPrinted(s) && Balanced(s) && Referenced(s)
    ensures AllPrinted(ReleaseTask(s, x))
  {
    ReleaseExtends(s, x);
    if CanRelease(s, x) {
      PayoutPrinted(s, ReleaseTask(s, x), x);
    }
  }

  /** What a decision posts. */
  lemma ResolveRows(s: Database, admin: nat, d: nat, forBuyer: bool)
    requires CanResolve(s, admin, d, forBuyer)
    ensures var t, o := ResolveDispute(s, admin, d, forBuyer), s.disputes[d].order;
            if forBuyer then
              && t.ledger == s.ledger + [RefundRow(s, o, DisputeRefund)]
              && t.wallets[s.orders[o].buyer].available == RefundRow(s, o, DisputeRefund).after
            else t.ledger == s.ledger + PayoutRows(s, FindEscrow(s.escrows, o).value)
  {
  }

  lemma ResolvePrinted(s: Database, admin: nat, d: nat, forBuyer: bool)
    requires AllPrinted(s) && Balanced(s) && Referenced(s)
    ensures AllPrinted(ResolveDispute(s, admin, d, forBuyer))
  {
    var t := ResolveDispute(s, admin, d, forBuyer);
    ResolveExtends(s, admin, d, forBuyer);
    if CanResolve(s, admin, d, forBuyer) {
      ResolveRows(s, admin, d, forBuyer);
      if forBuyer {
        ResolveBalanced(s, admin, d, forBuyer);
        RefundPrinted(s, t, s.disputes[d].order, DisputeRefund);
      } else {
        PayoutPrinted(s, t, FindEscrow(s.escrows, s.disputes[d].order).value);
      }
    }
  }

  lemma ClosePrinted(s: Database, e: CloseEvent)
    requires AllPrinted(s) && Balanced(s) && Referenced(s)
    ensures AllPrinted(DoClose(s, e))
  {
    match e {
      case Confirm(u, o) => ConfirmPrinted(s, u, o);
      case BuyerCancel(u, o) => CancelPrinted(s, u, o);
      case SweepCancel(o) => OverduePrinted(s, o);
      case Release(x) => ReleasePrinted(s, x);
      case Resolve(u, d, forBuyer) => ResolvePrinted(s, u, d, forBuyer);
    }
  }

  lemma StepPrinted(s: Database, e: Event)
    requires AllPrinted(s) && Balanced(s) && Referenced(s)
    ensures AllPrinted(Step(s, e))
  {
    match e {
      case PayStep(x) => PayPrinted(s, x);
      case BidStep(u, a, amount) => BidPrinted(s, u, a, amount);
      case SettleStep(a) => SettlePrinted(s, a);
      case HandleStep(a) => HandlePrinted(s, a);
      case CloseStep(x) => ClosePrinted(s, x);
      case _ =>
        QuietStep(s, e);
        StepExtends(s, e);
        NoRowPrinted(s, Step(s, e));
    }
  }

  /** After any run every ledger row still shows the right balances. */
  lemma {:induction false} RunPrinted(s: Database, es: seq<Event>)
    requires Fresh(s)
    ensures AllPrinted(Run(s, es))
  {
    if es == [] {
    } else {
      RunPrinted(s, es[..|es| - 1]);
      RunBooks(s, es[..|es| - 1]);
      StepPrinted(Run(s, es[..|es| - 1]), es[|es| - 1]);
    }
  }

  /** Main result: in every reachable state every ledger row still shows the right balances. */
  lemma AlwaysPrinted(t: Database)
    requires Reachable(t)
    ensures AllPrinted(t)
  {
    var s, es :| ReachedBy(t, s, es);
    RunPrinted(s, es);
  }
}

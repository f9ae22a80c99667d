/**
 The money in escrow. A user's escrow bucket never exceeds what their held escrows say, whatever is delivered
 when; it falls short of it by exactly what was paid out for escrows no longer held.
 */
module Escrows {
  import opened Domain
  import opened Tallies
  import opened Bidding
  import opened Settlement
  import opened Orders
  import opened Protocol
  import opened BidChain
  import opened Sales
  import opened Books

  // ---- What the escrow records say is held ----

  function HeldEntry(x: Escrow): Entry {
    if x.status.Held() then Entry(x.winner, x.amount) else NOTHING
  }

  function HeldEntries(escrows: seq<Escrow>): (es: seq<Entry>)
    ensures |es| == |escrows| && forall i | 0 <= i < |escrows| :: es[i] == HeldEntry(escrows[i])
  {
    seq(|escrows|, i requires 0 <= i < |escrows| => HeldEntry(escrows[i]))
  }

  /** The sum of the amounts of the HOLDING and PROCESSING escrows the user won. */
  function HeldTotal(escrows: seq<Escrow>, user: nat): int {
    Tally(HeldEntries(escrows), user)
  }

  /** What the user's held escrows exceed their escrow bucket by. */
  function Shortfall(s: Database, u: nat): int {
    HeldTotal(s.escrows, u) - if u < |s.users| then s.wallets[u].escrow else 0
  }

  // ---- The events that close an escrow ----

  /** The escrow an accepted closing event pays out or refunds. */
  function Closes(s: Database, e: CloseEvent): Option<nat> {
    match e
    case Confirm(u, o) => if CanConfirm(s, u, o) then FindEscrow(s.escrows, o) else None
    case BuyerCancel(u, o) =>
      if Overdue(s, o) && s.orders[o].buyer == u && CanRefund(s, o) then FindEscrow(s.escrows, o) else None
    case SweepCancel(o) => if Overdue(s, o) && CanRefund(s, o) then FindEscrow(s.escrows, o) else None
    case Release(x) => if CanRelease(s, x) then Some(x) else None
    case Resolve(u, d, forBuyer) =>
      if CanResolve(s, u, d, forBuyer) then FindEscrow(s.escrows, s.disputes[d].order) else None
  }

  /** The event gives the money back to the buyer; otherwise it pays the seller. */
  predicate Refunds(e: CloseEvent) {
    e.BuyerCancel? || e.SweepCancel? || (e.Resolve? && e.forBuyer)
  }

  /** Escrow `x` gets the given status and its amount leaves its winner's escrow bucket, and nobody else's. */
  ghost predicate Closed(s: Database, t: Database, x: nat, status: EscrowStatus) {
    && x < |s.escrows|
    && t.escrows == s.escrows[x := s.escrows[x].(status := status)]
    && |t.users| == |s.users|
    && forall u | 0 <= u < |s.users| ::
         t.wallets[u].escrow == s.wallets[u].escrow - if u == s.escrows[x].winner then s.escrows[x].amount else 0
  }

  lemma PayoutCloses(s: Database, x: nat, o: nat)
    requires CanPayOut(s, x) && o < |s.orders|
    ensures Closed(s, SetOrder(PayOut(s, x), o, OrderStatus.Completed), x, EscrowStatus.Released)
  {
  }

  lemma RefundCloses(s: Database, o: nat, status: OrderStatus, note: Note)
    requires Paired(s) && CanRefund(s, o)
    ensures Closed(s, RefundBuyer(s, o, status, note), FindEscrow(s.escrows, o).value, EscrowStatus.Refunded)
  {
    FoundEscrow(s, o);
    assert PairFits(s, o);
  }

  lemma ResolveCloses(s: Database, admin: nat, d: nat, forBuyer: bool)
    requires Paired(s) && CanResolve(s, admin, d, forBuyer)
    ensures Closed(s, ResolveDispute(s, admin, d, forBuyer), FindEscrow(s.escrows, s.disputes[d].order).value,
                   if forBuyer then EscrowStatus.Refunded else EscrowStatus.Released)
  {
    var o := s.disputes[d].order;
    if forBuyer {
      RefundCloses(s, o, OrderStatus.Refunded, DisputeRefund);
    } else {
      PayoutCloses(s, FindEscrow(s.escrows, o).value, o);
    }
  }

  /** Whichever way an escrow is closed, its record and the winner's bucket change together. */
  lemma CloseFields(s: Database, e: CloseEvent)
    requires Paired(s)
    ensures Closes(s, e).None? ==> DoClose(s, e) == s
    ensures Closes(s, e).Some? ==>
              Closed(s, DoClose(s, e), Closes(s, e).value,
                     if Refunds(e) then EscrowStatus.Refunded else EscrowStatus.Released)
  {
    if Closes(s, e).Some? {
      match e {
        case Confirm(u, o) => PayoutCloses(s, Closes(s, e).value, o);
        case BuyerCancel(u, o) => RefundCloses(s, o, OrderStatus.Cancelled, CancelledOrderRefund);
        case SweepCancel(o) => RefundCloses(s, o, OrderStatus.Cancelled, OverdueOrderRefund);
        case Release(x) => PayoutCloses(s, x, s.escrows[x].order);
        case Resolve(u, d, forBuyer) => ResolveCloses(s, u, d, forBuyer);
      }
    }
  }

  // ---- The shortfall ----

  /** What the event pays out of the user's escrow bucket for an escrow that is not held any more. */
  function Overpaid(s: Database, e: Event, u: nat): Kobo {
    if e.CloseStep? && Closes(s, e.close).Some? && Closes(s, e.close).value < |s.escrows| then
      var x := s.escrows[Closes(s, e.close).value];
      if u == x.winner && !x.status.Held() then x.amount else 0
    else 0
  }

  lemma ClosedHeld(s: Database, t: Database, x: nat, status: EscrowStatus, u: nat)
    requires Closed(s, t, x, status) && !status.Held()
    ensures HeldTotal(t.escrows, u) == HeldTotal(s.escrows, u) - Share(HeldEntry(s.escrows[x]), u)
  {
    assert HeldEntries(t.escrows) == HeldEntries(s.escrows)[x := NOTHING];
    TallyUpdate(HeldEntries(s.escrows), x, NOTHING, u);
  }

  lemma CloseShortfall(s: Database, e: CloseEvent, u: nat)
    requires Paired(s)
    ensures Shortfall(DoClose(s, e), u) == Shortfall(s, u) + Overpaid(s, CloseStep(e), u)
  {
    CloseFields(s, e);
    if Closes(s, e).Some? {
      var x := Closes(s, e).value;
      ClosedHeld(s, DoClose(s, e), x, if Refunds(e) then EscrowStatus.Refunded else EscrowStatus.Released, u);
      assert EscrowOk(s.escrows[x], |s.users|, |s.auctions|, |s.orders|);
    }
  }

  lemma SettleShortfall(s: Database, a: nat, u: nat)
    ensures Shortfall(Settle(s, a), u) == Shortfall(s, u)
  {
    if a in s.settling && a < |s.auctions| && Judge(s, a) == Verdict.Sold {
      var x := EscrowFor(s, a);
      assert HeldEntries(Settle(s, a).escrows) == HeldEntries(s.escrows) + [HeldEntry(x)];
      TallyAppend(HeldEntries(s.escrows), HeldEntry(x), u);
    }
  }

  lemma PayKeepsEscrow(s: Database, e: PayEvent)
    ensures forall u | 0 <= u < |s.users| :: DoPay(s, e).wallets[u].escrow == s.wallets[u].escrow
  {
  }

  lemma BidKeepsEscrow(s: Database, bidder: nat, a: nat, amount: Kobo)
    ensures forall u | 0 <= u < |s.users| :: PlaceBid(s, bidder, a, amount).wallets[u].escrow == s.wallets[u].escrow
  {
  }

  lemma HandleKeepsEscrow(s: Database, a: nat)
    ensures forall u | 0 <= u < |s.users| :: Handle(s, a).wallets[u].escrow == s.wallets[u].escrow
  {
  }

  lemma QuietShortfall(s: Database, e: Event, u: nat)
    requires !MovesMoney(e)
    ensures Shortfall(Step(s, e), u) == Shortfall(s, u)
  {
    QuietStep(s, e);
    var t := Step(s, e);
    forall i | 0 <= i < |s.escrows| ensures HeldEntry(t.escrows[i]) == HeldEntry(s.escrows[i]) {
      assert SameMoney(s.escrows[i], t.escrows[i]);
    }
    assert HeldEntries(t.escrows) == HeldEntries(s.escrows);
  }

  /** Exact accounting: only a payout for an escrow no longer held changes anybody's shortfall. */
  lemma StepShortfall(s: Database, e: Event, u: nat)
    requires Paired(s)
    ensures Shortfall(Step(s, e), u) == Shortfall(s, u) + Overpaid(s, e, u)
  {
    match e {
      case PayStep(x) =>
        PayFrame(s, x);
        PayKeepsEscrow(s, x);
      case BidStep(bidder, a, amount) =>
        BidFrame(s, bidder, a, amount);
        BidKeepsEscrow(s, bidder, a, amount);
      case SettleStep(a) => SettleShortfall(s, a, u);
      case HandleStep(a) =>
        HandleFrame(s, a);
        HandleKeepsEscrow(s, a);
      case CloseStep(x) => CloseShortfall(s, x, u);
      case _ => QuietShortfall(s, e, u);
    }
  }

  function OverpaidInRun(s: Database, es: seq<Event>, u: nat): Kobo {
    if es == [] then 0
    else OverpaidInRun(s, es[..|es| - 1], u) + Overpaid(Run(s, es[..|es| - 1]), es[|es| - 1], u)
  }

  lemma OverpaidNonNegative(s: Database, e: Event, u: nat)
    ensures Overpaid(s, e, u) >= 0
  {
    if e.CloseStep? && Closes(s, e.close).Some? && Closes(s, e.close).value < |s.escrows| {
      assert EscrowOk(s.escrows[Closes(s, e.close).value], |s.users|, |s.auctions|, |s.orders|);
    }
  }

  /**
   Main result, with no side condition: over any run a user's held escrows exceed their escrow bucket by
   exactly the payouts made for escrows no longer held, so the bucket is never the larger.
   */
  lemma {:induction false} RunShortfall(s: Database, es: seq<Event>, u: nat)
    requires Fresh(s)
    ensures Shortfall(Run(s, es), u) == OverpaidInRun(s, es, u) >= 0
  {
    if es == [] {
    } else {
      var before := es[..|es| - 1];
      RunShortfall(s, before, u);
      RunSales(s, before);
      StepShortfall(Run(s, before), es[|es| - 1], u);
      OverpaidNonNegative(Run(s, before), es[|es| - 1], u);
    }
  }

  /** So in every reachable state no bucket is negative and no escrow bucket exceeds the user's held escrows. */
  lemma NeverOverdrawn(t: Database, u: nat)
    requires Reachable(t) && u < |t.users|
    ensures WalletOk(t.wallets[u]) && t.wallets[u].escrow <= HeldTotal(t.escrows, u)
  {
    var s, es :| ReachedBy(t, s, es);
    RunShortfall(s, es, u);
  }
}

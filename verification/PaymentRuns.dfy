/** Deposits over whole runs: any webhook deliveries, in any order, duplicated, failing, interleaved with anything. */
module PaymentRuns {
  import opened Domain
  import opened Ledgers
  import opened Payments
  import opened Protocol
  import opened History
  import opened Sales
  import opened Books
  import opened Counting

  /** The event delivers the payment's webhook, verified as successful, for enough money in the right currency. */
  predicate GoodDelivery(s: Database, e: Event, p: nat) {
    && e.PayStep? && e.pay.Webhook? && e.pay.payment == p && p < |s.payments|
    && var pay, v := s.payments[p], e.pay.verification;
       v.Verified? && v.success && v.amount >= pay.amount && v.currency == pay.currency
  }

  /** Some delivery of the run was good when it arrived. */
  predicate Delivered(s: Database, es: seq<Event>, p: nat) {
    es != [] && (Delivered(s, es[..|es| - 1], p) || GoodDelivery(Run(s, es[..|es| - 1]), es[|es| - 1], p))
  }

  /** COMPLETED is entered by a good delivery only, and never left. */
  lemma StepCompletes(s: Database, e: Event, p: nat)
    requires p < |s.payments|
    ensures p < |Step(s, e).payments|
    ensures Step(s, e).payments[p].status.Completed? <==> s.payments[p].status.Completed? || GoodDelivery(s, e, p)
  {
    StepExtends(s, e);
    if !(e.PayStep? && e.pay.Webhook?) {
      NoDeposits(s, e);
      assert Step(s, e).payments[..|s.payments|][p] == s.payments[p];
    }
  }

  lemma NewPaymentPending(s: Database, e: Event, p: nat)
    requires |s.payments| <= p < |Step(s, e).payments|
    ensures Step(s, e).payments[p].status.Pending? && !GoodDelivery(s, e, p)
  {
    if !(e.PayStep? && e.pay.Webhook?) {
      NoDeposits(s, e);
    }
  }

  lemma {:induction false} NotDeliveredBefore(s: Database, es: seq<Event>, p: nat)
    requires p >= |Run(s, es).payments|
    ensures !Delivered(s, es, p)
  {
    if es == [] {
    } else {
      StepExtends(Run(s, es[..|es| - 1]), es[|es| - 1]);
      NotDeliveredBefore(s, es[..|es| - 1], p);
    }
  }

  lemma {:induction false} CompletedIffDelivered(s: Database, es: seq<Event>, p: nat)
    requires Fresh(s) && p < |Run(s, es).payments|
    ensures Run(s, es).payments[p].status.Completed? <==> Delivered(s, es, p)
  {
    var t, e := Run(s, es[..|es| - 1]), es[|es| - 1];
    if p < |t.payments| {
      CompletedIffDelivered(s, es[..|es| - 1], p);
      StepCompletes(t, e, p);
    } else {
      NewPaymentPending(t, e, p);
      NotDeliveredBefore(s, es[..|es| - 1], p);
    }
  }

  /**
   Main result: a payment is credited by exactly one ledger row of its own amount, to its own wallet, if some
   delivery was good, and by none otherwise.
   */
  lemma CreditedOnce(s: Database, es: seq<Event>, p: nat)
    requires Fresh(s) && p < |Run(s, es).payments|
    ensures var t := Run(s, es);
            && Count(DepositsOf, t.ledger, p) == (if Delivered(s, es, p) then 1 else 0)
            && forall i | 0 <= i < |t.ledger| && t.ledger[i].kind.Deposit? && t.ledger[i].ref == DepositRef(p) ::
                 t.ledger[i].amount == t.payments[p].amount && t.ledger[i].wallet == t.payments[p].wallet
  {
    var t := Run(s, es);
    CompletedIffDelivered(s, es, p);
    RunCounts(s, es);
    RunBooks(s, es);
    forall i | 0 <= i < |t.ledger| && t.ledger[i].kind.Deposit? && t.ledger[i].ref == DepositRef(p)
      ensures t.ledger[i].amount == t.payments[p].amount && t.ledger[i].wallet == t.payments[p].wallet
    {
      assert RowFits(t, t.ledger[i]);
    }
  }
}

/**
 What goes wrong without the side condition. The release task reads no status, so a second delivery of its
 message, or a delivery while a dispute is open, is accepted whenever the buyer's escrow bucket covers it.
 */
module Redelivery {
  import opened Domain
  import opened Tallies
  import opened Ledgers
  import opened Commissions
  import opened Settlement
  import opened Orders
  import opened Protocol
  import opened BidChain
  import opened Sales
  import opened Books
  import opened Counting
  import opened Escrows
  import opened Lockstep

  // ---- Any number of deliveries ----

  /** `n` deliveries of the release message, one after the other. */
  function Deliveries(x: nat, n: nat): seq<Event> {
    seq(n, _ => CloseStep(Release(x)))
  }

  lemma NextDelivery(s: Database, x: nat, n: nat)
    ensures Run(s, Deliveries(x, n + 1)) == ReleaseTask(Run(s, Deliveries(x, n)), x)
  {
    assert Deliveries(x, n + 1) == Deliveries(x, n) + [CloseStep(Release(x))];
    RunAppend(s, Deliveries(x, n), CloseStep(Release(x)));
  }

  function Least(n: nat, m: nat): nat {
    if n <= m then n else m
  }

  function Times(k: nat, amount: Kobo): Kobo {
    if k == 0 then 0 else Times(k - 1, amount) + amount
  }

  /** How often the amount can be taken out of the bucket. */
  function Covered(bucket: Kobo, amount: Kobo): nat
    requires amount > 0
    decreases bucket
  {
    if bucket < amount then 0 else 1 + Covered(bucket - amount, amount)
  }

  lemma {:induction false} TimesIsProduct(k: nat, amount: Kobo)
    ensures Times(k, amount) == k * amount
  {
    if k == 0 {
    } else {
      TimesIsProduct(k - 1, amount);
    }
  }

  lemma {:induction false} TimesFromBelow(k: nat, amount: Kobo)
    requires k > 0
    ensures Times(k, amount) == amount + Times(k - 1, amount)
  {
    if k == 1 {
    } else {
      TimesFromBelow(k - 1, amount);
    }
  }

  lemma {:induction false} CoveredFits(bucket: Kobo, amount: Kobo)
    requires 0 < amount && 0 <= bucket
    ensures Times(Covered(bucket, amount), amount) <= bucket < Times(Covered(bucket, amount) + 1, amount)
    decreases bucket
  {
    if bucket < amount {
    } else {
      CoveredFits(bucket - amount, amount);
      TimesFromBelow(Covered(bucket, amount), amount);
      TimesFromBelow(Covered(bucket, amount) + 1, amount);
    }
  }

  /** After `k` withdrawals one more fits exactly while fewer than all have been made. */
  lemma {:induction false} OneMoreFits(bucket: Kobo, amount: Kobo, k: nat)
    requires amount > 0 && k <= Covered(bucket, amount)
    ensures k < Covered(bucket, amount) <==> amount <= bucket - Times(k, amount)
    decreases k
  {
    if k == 0 {
    } else {
      OneMoreFits(bucket - amount, amount, k - 1);
      TimesFromBelow(k, amount);
    }
  }

  lemma ReleasedPaired(s: Database, x: nat)
    requires Paired(s)
    ensures Paired(ReleaseTask(s, x))
  {
    var t := ReleaseTask(s, x);
    forall o | 0 <= o < |t.orders| ensures PairFits(t, o) {
      assert PairFits(s, o);
    }
  }

  lemma ReleaseShortfall(s: Database, x: nat, u: nat)
    requires Paired(s) && CanRelease(s, x)
    ensures Shortfall(ReleaseTask(s, x), u) ==
            Shortfall(s, u) + if u == s.escrows[x].winner && !s.escrows[x].status.Held() then s.escrows[x].amount else 0
  {
    CloseShortfall(s, Release(x), u);
  }

  /** One delivery: accepted exactly when the bucket covers the amount, whatever the statuses say. */
  lemma DeliveredOnce(s: Database, x: nat)
    requires Paired(s) && x in s.releasing && x < |s.escrows| && s.escrows[x].amount >= 11
    ensures CanRelease(s, x) <==> s.escrows[x].amount <= s.wallets[s.escrows[x].winner].escrow
    ensures var t, e := ReleaseTask(s, x), s.escrows[x];
            && x in t.releasing && |t.escrows| == |s.escrows| && |t.wallets| == |s.wallets|
            && t.escrows[x] == e.(status := if CanRelease(s, x) then EscrowStatus.Released else e.status)
            && t.wallets[e.winner].escrow == s.wallets[e.winner].escrow - (if CanRelease(s, x) then e.amount else 0)
  {
    if s.escrows[x].amount <= s.wallets[s.escrows[x].winner].escrow {
      CoveredPays(s, x);
    }
  }

  /** Where deliveries get to when `k` of them were accepted. */
  ghost predicate Accepted(s: Database, t: Database, x: nat, k: nat)
    requires x < |s.escrows| && s.escrows[x].winner < |s.wallets|
  {
    var e := s.escrows[x];
    && Paired(t) && x in t.releasing && |t.escrows| == |s.escrows| && |t.wallets| == |s.wallets|
    && t.escrows[x] == e.(status := if k == 0 then e.status else EscrowStatus.Released)
    && t.wallets[e.winner].escrow == s.wallets[e.winner].escrow - Times(k, e.amount)
    && Count(ReleasesOf, t.ledger, x) == Count(ReleasesOf, s.ledger, x) + k
    && Shortfall(t, e.winner) == Shortfall(s, e.winner) + if k == 0 then 0 else Times(k - 1, e.amount)
  }

  lemma AcceptedOnceMore(s: Database, t: Database, x: nat, k: nat)
    requires x < |s.escrows| && s.escrows[x].amount >= 11 && s.escrows[x].status.Held() && Accepted(s, t, x, k)
    ensures Accepted(s, ReleaseTask(t, x), x, if CanRelease(t, x) then k + 1 else k)
    ensures CanRelease(t, x) <==>
            s.escrows[x].amount <= s.wallets[s.escrows[x].winner].escrow - Times(k, s.escrows[x].amount)
  {
    DeliveredOnce(t, x);
    ReleasedPaired(t, x);
    if CanRelease(t, x) {
      ReleaseShortfall(t, x, s.escrows[x].winner);
      PayoutCounts(t, x, x);
    }
  }

  /** How many of `n` deliveries of the release message are accepted. */
  function Payouts(bucket: Kobo, amount: Kobo, n: nat): nat
    requires amount > 0
  {
    Least(n, Covered(bucket, amount))
  }

  lemma AcceptedNone(s: Database, x: nat)
    requires Paired(s) && x in s.releasing && x < |s.escrows|
    ensures Accepted(s, s, x, 0)
  {
    assert s.escrows[x].(status := s.escrows[x].status) == s.escrows[x];
  }

  lemma AcceptedNext(s: Database, t: Database, x: nat, bucket: Kobo, n: nat)
    requires x < |s.escrows| && s.escrows[x].amount >= 11 && s.escrows[x].status.Held()
    requires s.wallets[s.escrows[x].winner].escrow == bucket
    requires Accepted(s, t, x, Payouts(bucket, s.escrows[x].amount, n))
    ensures Accepted(s, ReleaseTask(t, x), x, Payouts(bucket, s.escrows[x].amount, n + 1))
  {
    var k := Payouts(bucket, s.escrows[x].amount, n);
    AcceptedOnceMore(s, t, x, k);
    OneMoreFits(bucket, s.escrows[x].amount, k);
  }

  lemma {:induction false} AcceptedTimes(s: Database, x: nat, bucket: Kobo, n: nat)
    requires Paired(s) && x in s.releasing && x < |s.escrows|
    requires s.escrows[x].amount >= 11 && s.escrows[x].status.Held()
    requires s.wallets[s.escrows[x].winner].escrow == bucket
    ensures Accepted(s, Run(s, Deliveries(x, n)), x, Payouts(bucket, s.escrows[x].amount, n))
  {
    if n == 0 {
      AcceptedNone(s, x);
    } else {
      AcceptedTimes(s, x, bucket, n - 1);
      AcceptedNext(s, Run(s, Deliveries(x, n - 1)), x, bucket, n - 1);
      NextDelivery(s, x, n - 1);
    }
  }

  lemma PaidTimes(s: Database, x: nat, n: nat)
    requires Paired(s) && OncePaid(s) && x in s.releasing && x < |s.escrows|
    requires s.escrows[x].amount >= 11 && s.escrows[x].status.Held()
    requires s.wallets[s.escrows[x].winner].escrow == HeldTotal(s.escrows, s.escrows[x].winner)
    ensures var e, v := s.escrows[x], Run(s, Deliveries(x, n));
            var paid := Payouts(HeldTotal(s.escrows, e.winner), e.amount, n);
            && Count(ReleasesOf, v.ledger, x) == paid
            && Shortfall(v, e.winner) == if paid == 0 then 0 else Times(paid - 1, e.amount)
  {
    AcceptedTimes(s, x, HeldTotal(s.escrows, s.escrows[x].winner), n);
    assert PaidAsSaid(s.ledger, x, s.escrows[x].status);
  }

  /**
   Main result on the need for the side condition: after any run that met it, `n` deliveries of the release
   message of a held escrow pay its seller as often as what is held for the buyer covers the amount, up to `n`
   times; every payment after the first is short of what is still held for the buyer.
   */
  lemma RedeliveryPays(t: Database, x: nat, n: nat)
    requires ReachableGuarded(t) && x < |t.escrows| && x in t.releasing
    requires t.escrows[x].status.Held() && t.escrows[x].amount >= 11
    ensures var e, v := t.escrows[x], Run(t, Deliveries(x, n));
            var paid := Payouts(HeldTotal(t.escrows, e.winner), e.amount, n);
            && Count(ReleasesOf, v.ledger, x) == paid
            && Shortfall(v, e.winner) == if paid == 0 then 0 else Times(paid - 1, e.amount)
  {
    GuardedIsReachable(t);
    AlwaysPaired(t);
    assert OncePaid(t) by {
      AlwaysInStep(t);
    }
    EscrowExact(t, t.escrows[x].winner);
    PaidTimes(t, x, n);
  }

  lemma CoveredTwice(bucket: Kobo, amount: Kobo)
    requires amount > 0
    ensures Payouts(bucket, amount, 2) == 2 <==> 2 * amount <= bucket
  {
    assert bucket >= amount ==> Covered(bucket, amount) == 1 + Covered(bucket - amount, amount);
  }

  /** So a second delivery pays again exactly when what is held for the buyer is twice the amount. */
  lemma SecondDeliveryPaysAgain(t: Database, x: nat)
    requires ReachableGuarded(t) && x < |t.escrows| && x in t.releasing
    requires t.escrows[x].status.Held() && t.escrows[x].amount >= 11
    ensures Count(ReleasesOf, Run(t, Deliveries(x, 2)).ledger, x) == 2 <==>
            2 * t.escrows[x].amount <= HeldTotal(t.escrows, t.escrows[x].winner)
  {
    RedeliveryPays(t, x, 2);
    CoveredTwice(HeldTotal(t.escrows, t.escrows[x].winner), t.escrows[x].amount);
  }

  // ---- A delivery while the order is disputed ----

  lemma HeldIfDisputed(s: Database, x: nat)
    requires Paired(s) && AllInStep(s) && x < |s.escrows| && s.orders[s.escrows[x].order].status.Disputed?
    ensures s.escrows[x].order == x && s.escrows[x].status.Held() && DisputeOf(s, x, true)
  {
    assert PairFits(s, x) && InStep(s, x);
  }

  lemma DisputeStaysOpen(s: Database, x: nat)
    requires CanRelease(s, x) && s.escrows[x].order == x && x < |s.orders| && DisputeOf(s, x, true)
    ensures var t := ReleaseTask(s, x); t.orders[x].status.Completed? && DisputeOf(t, x, true)
  {
  }

  /** A delivery while the order is disputed completes the order over its open dispute. */
  lemma CompletedOverDispute(t: Database, x: nat)
    requires ReachableGuarded(t)
    requires x < |t.escrows| && x in t.releasing && t.escrows[x].amount >= 11
    requires t.orders[t.escrows[x].order].status.Disputed?
    ensures var v, o := ReleaseTask(t, x), t.escrows[x].order;
            && v.orders[o].status.Completed? && v.orders[o].dispute.Some?
            && v.disputes[v.orders[o].dispute.value].status.Undecided()
  {
    GuardedIsReachable(t);
    AlwaysPaired(t);
    AlwaysInStep(t);
    HeldIfDisputed(t, x);
    HeldEscrowPays(t, x);
    DisputeStaysOpen(t, x);
  }
}

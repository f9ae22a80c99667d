/** How often the ledger speaks of a row of another table: every order moved once, every payment credited once. */
module Counting {
  import opened Domain
  import opened Tallies
  import opened Ledgers
  import opened Bidding
  import opened Settlement
  import opened Orders
  import opened Payments
  import opened Protocol
  import opened History
  import opened BidChain
  import opened Sales
  import opened Books

  // ---- Counting rows ----

  ghost predicate Counts(m: Measure) {
    || m.LocksOf? || m.UnlocksOf? || m.MovesOf?
    || m.ReleasesOf? || m.CommissionsOf? || m.RefundsOf? || m.DepositsOf?
  }

  /** How many rows of the measure's type refer to the given id. */
  function Count(m: Measure, ledger: seq<Row>, id: nat): int {
    Total(m, ledger, [], id)
  }

  /** Whether the row is one of those counted. */
  function Ones(m: Measure, r: Row, id: nat): int {
    Adds(m, r, [], id)
  }

  lemma CountAppend(m: Measure, ledger: seq<Row>, r: Row, id: nat)
    ensures Count(m, ledger + [r], id) == Count(m, ledger, id) + Ones(m, r, id)
  {
    TotalAppend(m, ledger, r, [], id);
  }

  /** Rows that do not speak of the id do not change its count, and neither do outcomes of withdrawals. */
  lemma {:induction false} SameCount(m: Measure, l: seq<Row>, k: seq<Row>, id: nat)
    requires Counts(m)
    requires |l| <= |k| && forall i | 0 <= i < |l| :: SameRow(l[i], k[i])
    requires forall i | |l| <= i < |k| :: Ones(m, k[i], id) == 0
    ensures Count(m, k, id) == Count(m, l, id)
  {
    if |l| == |k| {
      assert Effects(m, k, []) == Effects(m, l, []);
    } else {
      var n := |k| - 1;
      SameCount(m, l, k[..n], id);
      CountAppend(m, k[..n], k[n], id);
      assert k == k[..n] + [k[n]];
    }
  }

  /** Nothing refers to a row that does not exist. */
  lemma Unmentioned(s: Database, m: Measure, id: nat)
    requires Referenced(s) && Counts(m)
    requires m.LocksOf? || m.UnlocksOf? ==> id >= |s.bids|
    requires m.MovesOf? ==> id >= |s.orders|
    requires m.ReleasesOf? || m.CommissionsOf? || m.RefundsOf? ==> id >= |s.escrows|
    requires m.DepositsOf? ==> id >= |s.payments|
    ensures Count(m, s.ledger, id) == 0
  {
    var es := Effects(m, s.ledger, []);
    forall i | 0 <= i < |es| ensures es[i].key != id || es[i].value == 0 {
      assert RowFits(s, s.ledger[i]);
    }
    NoRowOf(es, id);
  }

  // ---- Which types of rows an event may add ----

  lemma BidRows(s: Database, u: nat, a: nat, amount: Kobo)
    ensures var t := PlaceBid(s, u, a, amount);
            forall i | |s.ledger| <= i < |t.ledger| :: t.ledger[i].kind.BidLock? || t.ledger[i].kind.BidUnlock?
  {
  }

  lemma SettleRows(s: Database, a: nat)
    ensures var t := Settle(s, a);
            forall i | |s.ledger| <= i < |t.ledger| :: t.ledger[i].kind.EscrowMove?
  {
  }

  lemma HandleRows(s: Database, a: nat)
    ensures var t := Handle(s, a);
            forall i | |s.ledger| <= i < |t.ledger| :: t.ledger[i].kind.BidUnlock? && t.ledger[i].ref.BidRef?
  {
  }

  lemma PayRows(s: Database, e: PayEvent)
    ensures var t := DoPay(s, e);
            forall i | |s.ledger| <= i < |t.ledger| ::
              t.ledger[i].kind.Deposit? || t.ledger[i].kind.Withdrawal? ||
              (t.ledger[i].kind.Refund? && t.ledger[i].ref.NoReference?)
  {
  }

  lemma CloseRows(s: Database, e: CloseEvent)
    ensures var t := DoClose(s, e);
            forall i | |s.ledger| <= i < |t.ledger| ::
              t.ledger[i].kind.EscrowRelease? || t.ledger[i].kind.Commission? || t.ledger[i].kind.Refund?
  {
  }

  // ---- Orders: one move into escrow each ----

  ghost predicate OrdersMoved(s: Database) {
    forall o | 0 <= o < |s.orders| :: Count(MovesOf, s.ledger, o) == 1
  }

  lemma StillMoved(s: Database, t: Database)
    requires OrdersMoved(s) && Extends(s, t) && |t.orders| == |s.orders|
    requires forall i | |s.ledger| <= i < |t.ledger| :: !t.ledger[i].kind.EscrowMove?
    ensures OrdersMoved(t)
  {
    forall o | 0 <= o < |t.orders| ensures Count(MovesOf, t.ledger, o) == 1 {
      SameCount(MovesOf, s.ledger, t.ledger, o);
    }
  }

  lemma SettleMoved(s: Database, a: nat)
    requires OrdersMoved(s) && Referenced(s)
    ensures OrdersMoved(Settle(s, a))
  {
    var t := Settle(s, a);
    if a in s.settling && a < |s.auctions| && Judge(s, a) == Verdict.Sold {
      Unmentioned(s, MovesOf, |s.orders|);
      forall o | 0 <= o < |t.orders| ensures Count(MovesOf, t.ledger, o) == 1 {
        CountAppend(MovesOf, s.ledger, MoveRow(s, a), o);
      }
    } else {
      SettleExtends(s, a);
      StillMoved(s, t);
    }
  }

  lemma NoMoves(s: Database, e: Event)
    requires !e.SettleStep?
    ensures forall i | |s.ledger| <= i < |Step(s, e).ledger| :: !Step(s, e).ledger[i].kind.EscrowMove?
  {
    match e {
      case BidStep(u, a, amount) => BidRows(s, u, a, amount);
      case HandleStep(a) => HandleRows(s, a);
      case PayStep(x) => PayRows(s, x);
      case CloseStep(x) => CloseRows(s, x);
      case _ => QuietStep(s, e);
    }
  }

  lemma StepMoved(s: Database, e: Event)
    requires OrdersMoved(s) && Referenced(s)
    ensures OrdersMoved(Step(s, e))
  {
    match e {
      case SettleStep(a) => SettleMoved(s, a);
      case _ =>
        StepExtends(s, e);
        OrderCounts(s, e);
        NoMoves(s, e);
        StillMoved(s, Step(s, e));
    }
  }

  // ---- Payments: credited once, when COMPLETED ----

  ghost predicate PaymentsCredited(s: Database) {
    forall p | 0 <= p < |s.payments| ::
      Count(DepositsOf, s.ledger, p) == if s.payments[p].status.Completed? then 1 else 0
  }

  lemma StillCredited(s: Database, t: Database)
    requires PaymentsCredited(s) && Referenced(s) && Extends(s, t)
    requires forall p | 0 <= p < |s.payments| :: t.payments[p].status.Completed? <==> s.payments[p].status.Completed?
    requires forall p | |s.payments| <= p < |t.payments| :: !t.payments[p].status.Completed?
    requires forall i | |s.ledger| <= i < |t.ledger| :: !t.ledger[i].kind.Deposit?
    ensures PaymentsCredited(t)
  {
    forall p | 0 <= p < |t.payments|
      ensures Count(DepositsOf, t.ledger, p) == if t.payments[p].status.Completed? then 1 else 0
    {
      SameCount(DepositsOf, s.ledger, t.ledger, p);
      if p >= |s.payments| {
        Unmentioned(s, DepositsOf, p);
      }
    }
  }

  lemma WebhookCredited(s: Database, p: nat, v: Verification)
    requires PaymentsCredited(s) && Referenced(s)
    ensures PaymentsCredited(HandleWebhook(s, p, v))
  {
    var t := HandleWebhook(s, p, v);
    if t.ledger == s.ledger {
      StillCredited(s, t);
    } else {
      forall q | 0 <= q < |t.payments|
        ensures Count(DepositsOf, t.ledger, q) == if t.payments[q].status.Completed? then 1 else 0
      {
        CountAppend(DepositsOf, s.ledger, DepositRow(s, p), q);
      }
    }
  }

  lemma PaymentsKept(s: Database, e: PayEvent)
    requires !e.Webhook?
    ensures var t := DoPay(s, e);
            t.payments == s.payments && forall i | |s.ledger| <= i < |t.ledger| :: !t.ledger[i].kind.Deposit?
  {
  }

  lemma QuietPayments(s: Database, e: Event)
    requires !MovesMoney(e)
    ensures var t := Step(s, e);
            && t.ledger == s.ledger
            && |s.payments| <= |t.payments| && t.payments[..|s.payments|] == s.payments
            && forall p | |s.payments| <= p < |t.payments| :: t.payments[p].status.Pending?
  {
    QuietStep(s, e);
    match e {
      case Tick(_) =>
      case AccountStep(x) =>
      case DraftStep(x) => DraftFrame(s, x);
      case ManageStep(x) => ManageFrame(s, x);
      case QueueStep(x) => QueueFrame(s, x);
      case FulfilStep(x) => FulfilFrame(s, x);
      case _ => assert false;
    }
  }

  lemma NoDeposits(s: Database, e: Event)
    requires e.PayStep? ==> !e.pay.Webhook?
    ensures var t := Step(s, e);
            && (forall i | |s.ledger| <= i < |t.ledger| :: !t.ledger[i].kind.Deposit?)
            && |s.payments| <= |t.payments| && t.payments[..|s.payments|] == s.payments
            && forall p | |s.payments| <= p < |t.payments| :: t.payments[p].status.Pending?
  {
    match e {
      case BidStep(u, a, amount) =>
        BidRows(s, u, a, amount);
        BidFrame(s, u, a, amount);
      case HandleStep(a) =>
        HandleRows(s, a);
        HandleFrame(s, a);
      case SettleStep(a) =>
        SettleRows(s, a);
        SettleFrame(s, a);
      case PayStep(x) => PaymentsKept(s, x);
      case CloseStep(x) =>
        CloseRows(s, x);
        CloseFrame(s, x);
      case _ => QuietPayments(s, e);
    }
  }

  lemma StepCredited(s: Database, e: Event)
    requires PaymentsCredited(s) && Referenced(s)
    ensures PaymentsCredited(Step(s, e))
  {
    if e.PayStep? && e.pay.Webhook? {
      WebhookCredited(s, e.pay.payment, e.pay.verification);
    } else {
      StepExtends(s, e);
      NoDeposits(s, e);
      var t := Step(s, e);
      forall p | 0 <= p < |s.payments| ensures t.payments[p] == s.payments[p] {
        assert t.payments[..|s.payments|][p] == s.payments[p];
      }
      StillCredited(s, t);
    }
  }

  // ---- Every run ----

  lemma {:induction false} RunCounts(s: Database, es: seq<Event>)
    requires Fresh(s)
    ensures OrdersMoved(Run(s, es)) && PaymentsCredited(Run(s, es))
  {
    if es == [] {
    } else {
      var before := es[..|es| - 1];
      RunCounts(s, before);
      RunBooks(s, before);
      StepMoved(Run(s, before), es[|es| - 1]);
      StepCredited(Run(s, before), es[|es| - 1]);
    }
  }

  /**
   Main result: in every reachable state every order moved once into escrow and every payment was credited once if
   COMPLETED and never otherwise.
   */
  lemma AlwaysCounted(t: Database)
    requires Reachable(t)
    ensures OrdersMoved(t) && PaymentsCredited(t)
  {
    var s, es :| ReachedBy(t, s, es);
    RunCounts(s, es);
  }
}

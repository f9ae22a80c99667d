/** What the periodic sweeps come to: one transaction per id, over the ids a scan found. */
module Sweeps {
  import opened Domain
  import opened Settlement
  import opened Orders
  import opened Protocol

  ghost predicate Distinct(ids: seq<nat>) {
    forall i, j | 0 <= i < j < |ids| :: ids[i] != ids[j]
  }

  lemma LastIsNew(ids: seq<nat>)
    requires Distinct(ids) && ids != []
    ensures var n := |ids| - 1; Distinct(ids[..n]) && ids[n] !in ids[..n] && ids[..n] + [ids[n]] == ids
  {
  }

  // ---- Claiming auctions ----

  function ClaimEach(s: Database, ids: seq<nat>): Database {
    if ids == [] then s else ClaimAuction(ClaimEach(s, ids[..|ids| - 1]), ids[|ids| - 1])
  }

  /** How many of the claims succeeded. */
  function Queued(s: Database, ids: seq<nat>): nat {
    if ids == [] then 0
    else Queued(s, ids[..|ids| - 1]) + if Claims(ClaimEach(s, ids[..|ids| - 1]), ids[|ids| - 1]) then 1 else 0
  }

  /** Exactly the auctions of `done` went from ACTIVE into settlement and were queued. */
  ghost predicate Swept(s: Database, t: Database, done: set<nat>) {
    && |t.auctions| == |s.auctions|
    && (forall a | 0 <= a < |s.auctions| ::
          t.auctions[a] == if a in done then s.auctions[a].(status := SettlementInProgress) else s.auctions[a])
    && t.settling == s.settling + done
    && t == s.(auctions := t.auctions, settling := t.settling)
  }

  lemma ClaimSweeps(s: Database, t: Database, done: set<nat>, a: nat)
    requires Swept(s, t, done) && a in s.scanned && a < |s.auctions| && a !in done
    ensures Claims(t, a) <==> s.auctions[a].status.Active?
    ensures Swept(s, ClaimAuction(t, a), if Claims(t, a) then done + {a} else done)
  {
  }

  function ActiveAmong(s: Database, ids: seq<nat>): set<nat> {
    set a | a in ids && a < |s.auctions| && s.auctions[a].status.Active?
  }

  lemma OneMoreActive(s: Database, ids: seq<nat>, a: nat)
    requires a < |s.auctions| && a !in ids
    ensures ActiveAmong(s, ids + [a]) == ActiveAmong(s, ids) + if s.auctions[a].status.Active? then {a} else {}
    ensures a !in ActiveAmong(s, ids)
  {
  }

  lemma ClaimOneMore(s: Database, t: Database, ids: seq<nat>, a: nat)
    requires Swept(s, t, ActiveAmong(s, ids)) && a in s.scanned && a < |s.auctions| && a !in ids
    ensures Swept(s, ClaimAuction(t, a), ActiveAmong(s, ids + [a]))
    ensures |ActiveAmong(s, ids + [a])| == |ActiveAmong(s, ids)| + if Claims(t, a) then 1 else 0
  {
    ClaimSweeps(s, t, ActiveAmong(s, ids), a);
    OneMoreActive(s, ids, a);
  }

  /** Of the scanned ids those still ACTIVE are claimed, each once; a stale one in progress is passed over. */
  lemma {:induction false} ClaimEachSweeps(s: Database, ids: seq<nat>)
    requires Distinct(ids) && forall i | 0 <= i < |ids| :: ids[i] < |s.auctions| && ids[i] in s.scanned
    ensures Swept(s, ClaimEach(s, ids), ActiveAmong(s, ids)) && Queued(s, ids) == |ActiveAmong(s, ids)|
  {
    if ids == [] {
    } else {
      var n := |ids| - 1;
      ClaimEachSweeps(s, ids[..n]);
      LastIsNew(ids);
      ClaimOneMore(s, ClaimEach(s, ids[..n]), ids[..n], ids[n]);
    }
  }

  // ---- Claiming escrows ----

  function ClaimEachEscrow(s: Database, ids: seq<nat>): Database {
    if ids == [] then s else ClaimEscrow(ClaimEachEscrow(s, ids[..|ids| - 1]), ids[|ids| - 1])
  }

  /** The claims move no release date and remove no escrow. */
  lemma {:induction false} ClaimEachEscrowKeeps(s: Database, ids: seq<nat>)
    ensures var t := ClaimEachEscrow(s, ids);
            && t.now == s.now && |t.escrows| == |s.escrows|
            && forall x | 0 <= x < |s.escrows| :: t.escrows[x].autoReleaseAt == s.escrows[x].autoReleaseAt
  {
    if ids == [] {
    } else {
      ClaimEachEscrowKeeps(s, ids[..|ids| - 1]);
    }
  }

  function Dispatched(s: Database, ids: seq<nat>): nat {
    if ids == [] then 0
    else
      Dispatched(s, ids[..|ids| - 1]) +
      if ReleaseDue(ClaimEachEscrow(s, ids[..|ids| - 1]), ids[|ids| - 1]) then 1 else 0
  }

  /** Exactly the escrows of `done` went from HOLDING to PROCESSING and were queued. */
  ghost predicate Collected(s: Database, t: Database, done: set<nat>) {
    && |t.escrows| == |s.escrows|
    && (forall x | 0 <= x < |s.escrows| ::
          t.escrows[x] == if x in done then s.escrows[x].(status := Processing) else s.escrows[x])
    && t.releasing == s.releasing + done
    && t == s.(escrows := t.escrows, releasing := t.releasing)
  }

  lemma ClaimCollects(s: Database, t: Database, done: set<nat>, x: nat)
    requires Collected(s, t, done) && x !in done
    ensures ReleaseDue(t, x) <==> ReleaseDue(s, x)
    ensures Collected(s, ClaimEscrow(t, x), if ReleaseDue(s, x) then done + {x} else done)
  {
  }

  function DueAmong(s: Database, ids: seq<nat>): set<nat> {
    set x | x in ids && ReleaseDue(s, x)
  }

  lemma CollectOneMore(s: Database, t: Database, ids: seq<nat>, x: nat)
    requires Collected(s, t, DueAmong(s, ids)) && x !in ids
    ensures Collected(s, ClaimEscrow(t, x), DueAmong(s, ids + [x]))
    ensures |DueAmong(s, ids + [x])| == |DueAmong(s, ids)| + if ReleaseDue(t, x) then 1 else 0
  {
    ClaimCollects(s, t, DueAmong(s, ids), x);
    assert DueAmong(s, ids + [x]) == DueAmong(s, ids) + if ReleaseDue(s, x) then {x} else {};
  }

  /** Of the ids those due are claimed, each once. */
  lemma {:induction false} ClaimEachCollects(s: Database, ids: seq<nat>)
    requires Distinct(ids)
    ensures Collected(s, ClaimEachEscrow(s, ids), DueAmong(s, ids)) && Dispatched(s, ids) == |DueAmong(s, ids)|
  {
    if ids == [] {
    } else {
      var n := |ids| - 1;
      ClaimEachCollects(s, ids[..n]);
      LastIsNew(ids);
      CollectOneMore(s, ClaimEachEscrow(s, ids[..n]), ids[..n], ids[n]);
    }
  }

  // ---- Cancelling overdue orders ----

  function CancelEach(s: Database, ids: seq<nat>): Database {
    if ids == [] then s else CancelOverdue(CancelEach(s, ids[..|ids| - 1]), ids[|ids| - 1])
  }

  /** Changing an escrow's status does not change which escrow belongs to an order. */
  lemma {:induction false} FindAfter(escrows: seq<Escrow>, e: nat, status: EscrowStatus, o: nat)
    requires e < |escrows|
    ensures FindEscrow(escrows[e := escrows[e].(status := status)], o) == FindEscrow(escrows, o)
  {
    var changed, last := escrows[e := escrows[e].(status := status)], |escrows| - 1;
    if e < last {
      FindAfter(escrows[..last], e, status, o);
      assert changed[..last] == escrows[..last][e := escrows[e].(status := status)];
    } else {
      assert changed[..last] == escrows[..last];
    }
  }

  /** The passes keep every deadline, and an order that was not overdue as it was. */
  lemma {:induction false} CancelEachKeeps(s: Database, ids: seq<nat>)
    ensures var t := CancelEach(s, ids);
            && t.now == s.now && |t.orders| == |s.orders|
            && forall o | 0 <= o < |s.orders| ::
                 t.orders[o].shipBy == s.orders[o].shipBy && (!Overdue(s, o) ==> t.orders[o] == s.orders[o])
  {
    if ids == [] {
    } else {
      CancelEachKeeps(s, ids[..|ids| - 1]);
    }
  }

  /** A sweep pass over one order makes no other order's refund possible and no other order overdue. */
  lemma PassKeepsRefusals(s: Database, o: nat, p: nat)
    ensures |CancelOverdue(s, o).orders| == |s.orders|
    ensures Overdue(CancelOverdue(s, o), p) ==> Overdue(s, p)
    ensures Overdue(CancelOverdue(s, o), p) && CanRefund(CancelOverdue(s, o), p) ==> CanRefund(s, p)
  {
    if Overdue(s, o) && CanRefund(s, o) {
      var e := FindEscrow(s.escrows, o).value;
      FindAfter(s.escrows, e, EscrowStatus.Refunded, p);
      assert EscrowOk(s.escrows[e], |s.users|, |s.auctions|, |s.orders|);
      if Overdue(CancelOverdue(s, o), p) && FindEscrow(s.escrows, p).Some? {
        assert OrderOk(s.orders[p], |s.users|, |s.auctions|, |s.disputes|);
      }
    }
  }

  lemma PassSettles(s: Database, o: nat)
    ensures !(Overdue(CancelOverdue(s, o), o) && CanRefund(CancelOverdue(s, o), o))
  {
  }

  lemma InLastOrBefore(ids: seq<nat>, o: nat)
    requires ids != []
    ensures o in ids <==> o in ids[..|ids| - 1] || o == ids[|ids| - 1]
  {
  }

  /** The sweep leaves no order it could have cancelled, and makes none overdue that was not. */
  lemma {:induction false} CancelEachExhausts(s: Database, ids: seq<nat>, o: nat)
    ensures Overdue(CancelEach(s, ids), o) ==> Overdue(s, o)
    ensures o in ids ==> !(Overdue(CancelEach(s, ids), o) && CanRefund(CancelEach(s, ids), o))
  {
    if ids == [] {
    } else {
      var n := |ids| - 1;
      var t := CancelEach(s, ids[..n]);
      CancelEachExhausts(s, ids[..n], o);
      PassKeepsRefusals(t, ids[n], o);
      InLastOrBefore(ids, o);
      PassSettles(t, o);
    }
  }

  // ---- The sweeps are runs ----

  function ClaimEvents(ids: seq<nat>): seq<Event> {
    if ids == [] then [] else ClaimEvents(ids[..|ids| - 1]) + [QueueStep(Claim(ids[|ids| - 1]))]
  }

  lemma ClaimAppends(s: Database, es: seq<Event>, a: nat)
    ensures Run(s, es + [QueueStep(Claim(a))]) == ClaimAuction(Run(s, es), a)
  {
    RunAppend(s, es, QueueStep(Claim(a)));
  }

  lemma {:induction false} ClaimEachIsRun(s: Database, ids: seq<nat>)
    ensures ClaimEach(s, ids) == Run(s, ClaimEvents(ids))
  {
    if ids == [] {
    } else {
      var n := |ids| - 1;
      ClaimEachIsRun(s, ids[..n]);
      ClaimAppends(s, ClaimEvents(ids[..n]), ids[n]);
    }
  }

  function CollectEvents(ids: seq<nat>): seq<Event> {
    if ids == [] then [] else CollectEvents(ids[..|ids| - 1]) + [FulfilStep(ClaimRelease(ids[|ids| - 1]))]
  }

  lemma CollectAppends(s: Database, es: seq<Event>, a: nat)
    ensures Run(s, es + [FulfilStep(ClaimRelease(a))]) == ClaimEscrow(Run(s, es), a)
  {
    RunAppend(s, es, FulfilStep(ClaimRelease(a)));
  }

  lemma {:induction false} ClaimEachEscrowIsRun(s: Database, ids: seq<nat>)
    ensures ClaimEachEscrow(s, ids) == Run(s, CollectEvents(ids))
  {
    if ids == [] {
    } else {
      var n := |ids| - 1;
      ClaimEachEscrowIsRun(s, ids[..n]);
      CollectAppends(s, CollectEvents(ids[..n]), ids[n]);
    }
  }

  function CancelEvents(ids: seq<nat>): seq<Event> {
    if ids == [] then [] else CancelEvents(ids[..|ids| - 1]) + [CloseStep(SweepCancel(ids[|ids| - 1]))]
  }

  lemma CancelAppends(s: Database, es: seq<Event>, a: nat)
    ensures Run(s, es + [CloseStep(SweepCancel(a))]) == CancelOverdue(Run(s, es), a)
  {
    RunAppend(s, es, CloseStep(SweepCancel(a)));
  }

  lemma {:induction false} CancelEachIsRun(s: Database, ids: seq<nat>)
    ensures CancelEach(s, ids) == Run(s, CancelEvents(ids))
  {
    if ids == [] {
    } else {
      var n := |ids| - 1;
      CancelEachIsRun(s, ids[..n]);
      CancelAppends(s, CancelEvents(ids[..n]), ids[n]);
    }
  }
}

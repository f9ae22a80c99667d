/** The escrow workers: auto-release with its claims, the queued release task, and the overdue sweep. */
module EscrowTasks {
  import opened Domain
  import opened Sessions
  import opened Orders
  import opened Sweeps
  import OrderService
  import OrderRepository
  import EscrowRepository

  /** The ids of the HOLDING escrows whose auto-release time has come. */
  method PendingAutoReleases(db: Session) returns (ids: seq<nat>)
    requires db.Clean()
    ensures forall i, j | 0 <= i < j < |ids| :: ids[i] < ids[j]
    ensures forall x: nat :: x in ids <==> ReleaseDue(db.committed, x)
  {
    ids := [];
    for x := 0 to |db.escrows|
      invariant forall i | 0 <= i < |ids| :: ids[i] < x
      invariant forall i, j | 0 <= i < j < |ids| :: ids[i] < ids[j]
      invariant forall y: nat :: y in ids <==> y < x && ReleaseDue(db.committed, y)
    {
      if db.escrows[x].status.Holding? && db.escrows[x].autoReleaseAt <= db.now {
        ids := ids + [x];
      }
    }
  }

  /** One worker's attempt on one escrow found due. The task is sent before the commit, which may be lost. */
  method Claim(db: Session, x: nat, commits: bool) returns (claimed: bool)
    requires db.Clean() && x < |db.escrows| && db.escrows[x].autoReleaseAt <= db.now
    modifies db
    ensures db.Clean() && claimed == ReleaseDue(old(db.committed), x)
    ensures db.committed == if commits then ClaimEscrow(old(db.committed), x) else LoseRelease(old(db.committed), x)
  {
    claimed := EscrowRepository.ClaimForRelease(db, x);
    if claimed {
      var sent := db.releasing + {x};
      if !commits {
        db.Rollback();
      }
      db.releasing := sent;
      db.Commit();
    }
  }

  lemma DueIsAll(s: Database, ids: seq<nat>)
    requires forall x | 0 <= x < |s.escrows| && ReleaseDue(s, x) :: x in ids
    ensures DueAmong(s, ids) == set x | 0 <= x < |s.escrows| && ReleaseDue(s, x)
  {
  }

  /** The sweep, undisturbed: every escrow due is claimed and queued once, and nothing else is. */
  method ProcessAutoReleases(db: Session) returns (queued: nat)
    requires db.Clean()
    modifies db
    ensures db.Clean()
    ensures var s := old(db.committed);
            var due := set x | 0 <= x < |s.escrows| && ReleaseDue(s, x);
            Collected(s, db.committed, due) && queued == |due|
  {
    ghost var s: Database := db.committed;
    var ids := PendingAutoReleases(db);
    queued := 0;
    for i := 0 to |ids|
      invariant db.Clean() && db.committed == ClaimEachEscrow(s, ids[..i]) && queued == Dispatched(s, ids[..i])
    {
      ClaimEachEscrowKeeps(s, ids[..i]);
      assert ids[..i + 1][..i] == ids[..i] && ids[i] in ids;
      var claimed := Claim(db, ids[i], true);
      if claimed {
        queued := queued + 1;
      }
    }
    assert ids[..|ids|] == ids;
    ClaimEachCollects(s, ids);
    DueIsAll(s, ids);
  }

  /** A delivered release message. Neither the escrow's nor the order's status is looked at. */
  method ReleaseSingleEscrow(db: Session, x: nat) returns (ok: bool)
    requires db.Clean() && x in db.releasing
    modifies db
    ensures db.Clean() && db.committed == ReleaseTask(old(db.committed), x)
    ensures ok <==> x >= |old(db.escrows)| || CanRelease(old(db.committed), x)
  {
    ghost var s: Database := db.committed;
    if x >= |db.escrows| {
      return true;
    }
    var order := db.escrows[x].order;
    assert EscrowOk(db.escrows[x], |db.users|, |db.auctions|, |db.orders|);
    ok := OrderService.ReleaseEscrowToSeller(db, x);
    if !ok {
      db.Rollback();
      return;
    }
    OrderRepository.UpdateStatus(db, order, OrderStatus.Completed);
    assert db.View() == SetOrder(PayOut(s, x), order, OrderStatus.Completed);
    db.Commit();
  }

  method OverdueShipments(db: Session) returns (ids: seq<nat>)
    requires db.Clean()
    ensures forall o: nat :: o in ids <==> Overdue(db.committed, o)
    ensures forall i, j | 0 <= i < j < |ids| :: ids[i] < ids[j]
  {
    ids := [];
    for o := 0 to |db.orders|
      invariant forall i | 0 <= i < |ids| :: ids[i] < o
      invariant forall i, j | 0 <= i < j < |ids| :: ids[i] < ids[j]
      invariant forall p: nat :: p in ids <==> p < o && Overdue(db.committed, p)
    {
      if db.orders[o].status.PendingShipment? && db.orders[o].shipBy <= db.now {
        ids := ids + [o];
      }
    }
  }

  /** One pass: the order may have moved on since the scan, and a refusal is logged and skipped. */
  method CancelOne(db: Session, o: nat) returns (cancelled: bool)
    requires db.Clean() && o < |db.orders| && db.orders[o].shipBy <= db.now
    modifies db
    ensures db.Clean() && db.committed == CancelOverdue(old(db.committed), o)
    ensures cancelled <==> Overdue(old(db.committed), o) && CanRefund(old(db.committed), o)
  {
    if db.orders[o].status != PendingShipment {
      return false;
    }
    cancelled := OrderService.RefundToBuyer(db, o, OrderStatus.Cancelled, OverdueOrderRefund);
    if cancelled {
      db.Commit();
    } else {
      db.Rollback();
    }
  }

  /**
   The sweep, undisturbed: it tries to cancel and refund exactly the overdue orders, each once, and leaves none that
   is overdue and could be refunded.
   */
  method ProcessOverdueShipments(db: Session) returns (ghost found: seq<nat>)
    requires db.Clean()
    modifies db
    ensures db.Clean() && db.committed == CancelEach(old(db.committed), found)
    ensures forall o: nat :: o in found <==> Overdue(old(db.committed), o)
    ensures forall i, j | 0 <= i < j < |found| :: found[i] < found[j]
    ensures forall o: nat :: !(Overdue(db.committed, o) && CanRefund(db.committed, o))
    ensures forall o | 0 <= o < |old(db.orders)| && !Overdue(old(db.committed), o) ::
              o < |db.orders| && db.orders[o] == old(db.orders[o])
  {
    ghost var s: Database := db.committed;
    var ids := OverdueShipments(db);
    found := ids;
    for i := 0 to |ids|
      invariant db.Clean() && db.committed == CancelEach(s, ids[..i])
    {
      CancelEachKeeps(s, ids[..i]);
      assert ids[..i + 1][..i] == ids[..i] && ids[i] in ids;
      var cancelled := CancelOne(db, ids[i]);
    }
    assert ids[..|ids|] == ids;
    CancelEachKeeps(s, ids);
    forall o: nat ensures !(Overdue(db.committed, o) && CanRefund(db.committed, o)) {
      CancelEachExhausts(s, ids, o);
    }
  }
}

/** Orders, escrow payouts and disputes. */
module Orders {
  import opened Domain

  // ---- Lookups ----

  function FindEscrow(escrows: seq<Escrow>, order: nat): (r: Option<nat>)
    ensures r.None? <==> forall i | 0 <= i < |escrows| :: escrows[i].order != order
    ensures r.Some? ==> r.value < |escrows| && escrows[r.value].order == order
  {
    if escrows == [] then None
    else
      var last := |escrows| - 1;
      if escrows[last].order == order then Some(last)
      else
        var r := FindEscrow(escrows[..last], order);
        assert forall i | 0 <= i < last :: escrows[..last][i] == escrows[i];
        r
  }

  function FindDispute(disputes: seq<Dispute>, order: nat): (r: Option<nat>)
    ensures r.None? <==> forall i | 0 <= i < |disputes| :: disputes[i].order != order
    ensures r.Some? ==> r.value < |disputes| && disputes[r.value].order == order
  {
    if disputes == [] then None
    else
      var last := |disputes| - 1;
      if disputes[last].order == order then Some(last)
      else
        var r := FindDispute(disputes[..last], order);
        assert forall i | 0 <= i < last :: disputes[..last][i] == disputes[i];
        r
  }

  function SetOrder(s: Database, o: nat, status: OrderStatus): Database
    requires o < |s.orders|
  {
    s.(orders := s.orders[o := s.orders[o].(status := status)])
  }

  // ---- The two ways money leaves escrow ----

  /** The wallets can make the payout and the ledger accepts both of its rows. */
  predicate CanPayOut(s: Database, e: nat) {
    && e < |s.escrows|
    && var x := s.escrows[e];
       && x.amount <= s.wallets[x.winner].escrow
       && 0 < x.commission < x.amount
  }

  function PayoutRows(s: Database, e: nat): (r: seq<Row>)
    requires CanPayOut(s, e)
    ensures |r| == 2
  {
    var x := s.escrows[e];
    var before := s.wallets[x.seller].available;
    var after := before + x.amount - x.commission;
    [Row(x.seller, x.amount - x.commission, EscrowRelease, Credit, AvailableBucket, EscrowRef(e), SaleProceeds,
         before, after, TransactionStatus.Completed, s.now),
     Row(x.seller, x.commission, Commission, Debit, AvailableBucket, EscrowRef(e), PlatformCommission,
         after, after, TransactionStatus.Completed, s.now)]
  }

  /** The winner's wallet after it gave up the escrowed amount. */
  function Drained(s: Database, e: nat): (r: seq<Wallet>)
    requires CanPayOut(s, e)
  {
    var x := s.escrows[e];
    s.wallets[x.winner := s.wallets[x.winner].(escrow := s.wallets[x.winner].escrow - x.amount)]
  }

  /** Pays the seller amount minus commission out of the winner's escrow bucket. The escrow's status is not read. */
  function PayOut(s: Database, e: nat): Database
    requires CanPayOut(s, e)
  {
    var x := s.escrows[e];
    var drained := Drained(s, e);
    var paid := drained[x.seller].(available := drained[x.seller].available + x.amount - x.commission);
    s.(wallets := drained[x.seller := paid],
       ledger := s.ledger + PayoutRows(s, e),
       escrows := s.escrows[e := x.(status := EscrowStatus.Released)],
       users := s.users[x.seller := s.users[x.seller].(totalSales := s.users[x.seller].totalSales + 1)])
  }

  predicate CanRefund(s: Database, o: nat) {
    && o < |s.orders|
    && FindEscrow(s.escrows, o).Some?
    && s.escrows[FindEscrow(s.escrows, o).value].amount <= s.wallets[s.orders[o].buyer].escrow
  }

  function RefundRow(s: Database, o: nat, note: Note): Row
    requires CanRefund(s, o)
  {
    var e := FindEscrow(s.escrows, o).value;
    var buyer := s.orders[o].buyer;
    var w := s.wallets[buyer];
    // a dispute refund records the escrow bucket as its balance before
    Row(buyer, s.escrows[e].amount, TransactionType.Refund, Credit, AvailableBucket, EscrowRef(e), note,
        if note.DisputeRefund? then w.escrow else w.available, w.available + s.escrows[e].amount,
        TransactionStatus.Completed, s.now)
  }

  /** Gives the whole amount back to the buyer and closes the order with the given status. */
  function RefundBuyer(s: Database, o: nat, status: OrderStatus, note: Note): Database
    requires CanRefund(s, o)
  {
    var e := FindEscrow(s.escrows, o).value;
    var x := s.escrows[e];
    var buyer := s.orders[o].buyer;
    var w := s.wallets[buyer];
    s.(wallets := s.wallets[buyer := Wallet(w.available + x.amount, w.locked, w.escrow - x.amount)],
       ledger := s.ledger + [RefundRow(s, o, note)],
       escrows := s.escrows[e := x.(status := EscrowStatus.Refunded)],
       orders := s.orders[o := s.orders[o].(status := status)])
  }

  // ---- Orders ----

  predicate CanShip(s: Database, seller: nat, o: nat) {
    o < |s.orders| && s.orders[o].seller == seller && s.orders[o].status.PendingShipment?
  }

  function ShipOrder(s: Database, seller: nat, o: nat): Database {
    if CanShip(s, seller, o) then SetOrder(s, o, Shipped) else s
  }

  predicate CanConfirm(s: Database, buyer: nat, o: nat) {
    && o < |s.orders| && s.orders[o].buyer == buyer && s.orders[o].status.Shipped?
    && FindEscrow(s.escrows, o).Some?
    && CanPayOut(s, FindEscrow(s.escrows, o).value)
  }

  /** DELIVERED is written and overwritten inside one transaction: only COMPLETED is committed. */
  function ConfirmDelivery(s: Database, buyer: nat, o: nat): Database {
    if CanConfirm(s, buyer, o)
    then SetOrder(PayOut(s, FindEscrow(s.escrows, o).value), o, OrderStatus.Completed)
    else s
  }

  predicate Overdue(s: Database, o: nat) {
    o < |s.orders| && s.orders[o].status.PendingShipment? && s.orders[o].shipBy <= s.now
  }

  function CancelOrder(s: Database, buyer: nat, o: nat): Database {
    if Overdue(s, o) && s.orders[o].buyer == buyer && CanRefund(s, o)
    then RefundBuyer(s, o, OrderStatus.Cancelled, CancelledOrderRefund)
    else s
  }

  /** One pass of the overdue sweep. Deadlines never move, so an order scanned as overdue stays so. */
  function CancelOverdue(s: Database, o: nat): Database {
    if Overdue(s, o) && CanRefund(s, o)
    then RefundBuyer(s, o, OrderStatus.Cancelled, OverdueOrderRefund)
    else s
  }

  // ---- Auto-release ----

  predicate ReleaseDue(s: Database, e: nat) {
    e < |s.escrows| && s.escrows[e].status.Holding? && s.escrows[e].autoReleaseAt <= s.now
  }

  function ClaimEscrow(s: Database, e: nat): Database {
    if !ReleaseDue(s, e) then s
    else s.(escrows := s.escrows[e := s.escrows[e].(status := Processing)], releasing := s.releasing + {e})
  }

  /** The task is sent before the claim commits; here the commit is lost and only the message remains. */
  function LoseRelease(s: Database, e: nat): Database {
    if !ReleaseDue(s, e) then s else s.(releasing := s.releasing + {e})
  }

  predicate CanRelease(s: Database, e: nat) {
    e in s.releasing && CanPayOut(s, e)
  }

  /** The queued release task: neither the escrow's nor the order's status is looked at. */
  function ReleaseTask(s: Database, e: nat): Database {
    if CanRelease(s, e) then SetOrder(PayOut(s, e), s.escrows[e].order, OrderStatus.Completed) else s
  }

  // ---- Disputes ----

  predicate CanDispute(s: Database, buyer: nat, o: nat) {
    && o < |s.orders| && s.orders[o].buyer == buyer
    && (s.orders[o].status.Shipped? || s.orders[o].status.Delivered?)
    && FindDispute(s.disputes, o).None?
  }

  /** The escrow is left as it is. */
  function RaiseDispute(s: Database, buyer: nat, o: nat): Database {
    if !CanDispute(s, buyer, o) then s
    else s.(disputes := s.disputes + [Dispute(o, buyer, s.orders[o].seller, Open)],
            orders := s.orders[o := s.orders[o].(status := OrderStatus.Disputed, dispute := Some(|s.disputes|))])
  }

  predicate IsAdmin(s: Database, user: nat) {
    user < |s.users| && s.users[user].admin
  }

  function SetDispute(s: Database, d: nat, status: DisputeStatus): Database
    requires d < |s.disputes|
  {
    s.(disputes := s.disputes[d := s.disputes[d].(status := status)])
  }

  function MarkUnderReview(s: Database, admin: nat, d: nat): Database {
    if d < |s.disputes| && IsAdmin(s, admin) && s.disputes[d].status.Open? then SetDispute(s, d, UnderReview) else s
  }

  predicate CanResolve(s: Database, admin: nat, d: nat, forBuyer: bool) {
    && d < |s.disputes| && IsAdmin(s, admin) && s.disputes[d].status.Undecided()
    && var o := s.disputes[d].order;
       && FindEscrow(s.escrows, o).Some?
       && if forBuyer then CanRefund(s, o) else CanPayOut(s, FindEscrow(s.escrows, o).value)
  }

  function ResolveDispute(s: Database, admin: nat, d: nat, forBuyer: bool): Database {
    if !CanResolve(s, admin, d, forBuyer) then s
    else
      var o := s.disputes[d].order;
      var paid :=
        if forBuyer then RefundBuyer(s, o, OrderStatus.Refunded, DisputeRefund)
        else SetOrder(PayOut(s, FindEscrow(s.escrows, o).value), o, OrderStatus.Completed);
      SetDispute(paid, d, Resolved)
  }
}

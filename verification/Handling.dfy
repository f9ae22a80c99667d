/**
 When the reserve handler comes in time. The settlement task judges in one transaction and the handler closes the
 auction in another, which looks at the auction's status only to see whether the handler has been there before.
 What happened in between, a cancellation or a sale, it does not see.
 */
module Handling {
  import opened Domain
  import opened Bidding
  import opened Settlement
  import opened Protocol
  import opened BidChain

  /** A handler that goes through finds the bid it is to unlock still ACTIVE. */
  ghost predicate Timely(s: Database, e: Event) {
    e.HandleStep? && Handles(s, e.auction) ==> s.bids[s.auctions[e.auction].highest.value].status.Active?
  }

  /** A handler that goes through finds its bid sold. */
  ghost predicate FindsWon(s: Database, e: Event) {
    e.HandleStep? && Handles(s, e.auction) && s.bids[s.auctions[e.auction].highest.value].status.Won?
  }

  /** A handler that goes through finds its bid closed by an earlier handler. */
  ghost predicate FindsLost(s: Database, e: Event) {
    e.HandleStep? && Handles(s, e.auction) && s.bids[s.auctions[e.auction].highest.value].status.Lost?
  }

  ghost predicate TimelyAfter(s: Database, es: seq<Event>, e: Event) {
    Timely(Run(s, es), e)
  }

  ghost predicate TimelyRun(s: Database, es: seq<Event>) {
    es == [] || (TimelyRun(s, es[..|es| - 1]) && TimelyAfter(s, es[..|es| - 1], es[|es| - 1]))
  }

  ghost predicate TimelyBy(t: Database, s: Database, es: seq<Event>) {
    ReachedBy(t, s, es) && TimelyRun(s, es)
  }

  /** Some run in which every handler came in time ends here. */
  ghost predicate ReachableTimely(t: Database) {
    exists s: Database, es: seq<Event> :: TimelyBy(t, s, es)
  }

  lemma TimelyIsReachable(t: Database)
    requires ReachableTimely(t)
    ensures Reachable(t)
  {
    var s, es :| TimelyBy(t, s, es);
    assert ReachedBy(t, s, es);
  }

  lemma FreshIsTimely(t: Database)
    requires Fresh(t)
    ensures ReachableTimely(t)
  {
    assert TimelyBy(t, t, []);
  }

  lemma TimelyAppend(s: Database, es: seq<Event>, e: Event)
    requires TimelyRun(s, es) && TimelyAfter(s, es, e)
    ensures TimelyRun(s, es + [e])
  {
    ButLast(es, e);
  }

  lemma TimelyByAppend(t: Database, s: Database, es: seq<Event>, e: Event)
    requires TimelyBy(t, s, es) && Timely(t, e)
    ensures TimelyBy(Step(t, e), s, es + [e])
  {
    ReachedByAppend(t, s, es, e);
    TimelyAppend(s, es, e);
  }

  /** These states are those got from a fresh platform by events with timely handlers. */
  lemma StepIsTimely(t: Database, e: Event)
    requires ReachableTimely(t) && Timely(t, e)
    ensures ReachableTimely(Step(t, e))
  {
    var s, es :| TimelyBy(t, s, es);
    TimelyByAppend(t, s, es, e);
  }

  // ---- What the handler finds ----

  /**
   The status of the auction decides, but for a cancelled one: while it runs or is being settled the handler is in
   time, after a sale it is not.
   */
  lemma StatusTells(s: Database, a: nat)
    requires Chained(s) && Handles(s, a)
    ensures var status := s.auctions[a].status;
            && (status.Active? || status.SettlementInProgress? ==> Timely(s, HandleStep(a)))
            && (status.Settled? ==> !Timely(s, HandleStep(a)))
            && (status.Active? || status.SettlementInProgress? || status.Settled? || status.Cancelled?)
  {
    assert AuctionFits(s, a) && StatusFits(s, s.auctions[a].highest.value);
  }

  /** There are two ways to be late, and no other. */
  lemma LateMeansClosed(s: Database, e: Event)
    requires Chained(s)
    ensures Timely(s, e) <==> !FindsWon(s, e) && !FindsLost(s, e)
  {
    if e.HandleStep? && Handles(s, e.auction) {
      assert StatusFits(s, s.auctions[e.auction].highest.value);
    }
  }

  /** In every reachable state a handler is in time exactly if it finds its bid neither sold nor closed before. */
  lemma TwoWaysLate(t: Database, e: Event)
    requires Reachable(t)
    ensures Timely(t, e) <==> !FindsWon(t, e) && !FindsLost(t, e)
  {
    AlwaysChained(t);
    LateMeansClosed(t, e);
  }

  /** No bid of the auction but its highest is ever ACTIVE. */
  lemma OthersInactive(s: Database, a: nat, i: nat)
    requires Chained(s) && a < |s.auctions| && i < |s.bids| && s.bids[i].auction == a &&
             s.auctions[a].highest != Some(i)
    ensures !s.bids[i].status.Active?
    ensures s.auctions[a].highest.Some? && s.bids[s.auctions[a].highest.value].status.Active? ==>
            s.bids[i].status.Released?
  {
    assert StatusFits(s, i) && Leads(s, i) && StatusFits(s, s.auctions[a].highest.value);
  }

  // ---- Handlers that run at once ----

  predicate Unmet(s: Database, a: nat) {
    a in s.settling && a < |s.auctions| && Judge(s, a) == ReserveNotMet
  }

  /** If `e` is a handler that goes through, then the event just before it judged that the reserve was not met. */
  ghost predicate AtOnce(s: Database, es: seq<Event>, e: Event) {
    e.HandleStep? && Handles(Run(s, es), e.auction) ==>
      es != [] && es[|es| - 1] == SettleStep(e.auction) && Unmet(Run(s, es[..|es| - 1]), e.auction)
  }

  /** No event comes between a judgement and the handler it calls. */
  ghost predicate HandlesAtOnce(s: Database, es: seq<Event>) {
    es == [] || (HandlesAtOnce(s, es[..|es| - 1]) && AtOnce(s, es[..|es| - 1], es[|es| - 1]))
  }

  lemma JudgedIsTimely(s: Database, a: nat)
    requires Chained(s) && Unmet(s, a)
    ensures Timely(Settle(s, a), HandleStep(a))
  {
    JudgeFields(s, a);
  }

  lemma AfterSettling(s: Database, es: seq<Event>, a: nat)
    requires es != [] && es[|es| - 1] == SettleStep(a)
    ensures Run(s, es) == Settle(Run(s, es[..|es| - 1]), a)
  {
  }

  lemma AtOnceIsTimely(s: Database, es: seq<Event>, a: nat)
    requires Fresh(s) && AtOnce(s, es, HandleStep(a))
    ensures TimelyAfter(s, es, HandleStep(a))
  {
    if Handles(Run(s, es), a) {
      RunChained(s, es[..|es| - 1]);
      AfterSettling(s, es, a);
      JudgedIsTimely(Run(s, es[..|es| - 1]), a);
    }
  }

  /** So a deployment in which judging and handling are not interrupted has timely handlers in all its runs. */
  lemma {:induction false} AtOnceRunIsTimely(s: Database, es: seq<Event>)
    requires Fresh(s) && HandlesAtOnce(s, es)
    ensures TimelyRun(s, es)
  {
    if es == [] {
    } else {
      var before, e := es[..|es| - 1], es[|es| - 1];
      AtOnceRunIsTimely(s, before);
      match e {
        case HandleStep(a) => AtOnceIsTimely(s, before, a);
        case _ =>
      }
    }
  }
}

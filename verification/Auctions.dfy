/** The life of an auction before settlement: drafting, publishing, extending, cancelling. */
module Auctions {
  import opened Domain
  import opened Bidding

  const MIN_DURATION: Time := 30 * MINUTE
  const MAX_DURATION: Time := 24 * HOUR
  const IMMINENT: Time := 30 * SECOND

  /** The request validator on times given together. */
  predicate ValidDuration(starts: Time, ends: Time) {
    starts + MIN_DURATION <= ends <= starts + MAX_DURATION
  }

  predicate ValidReserve(reserve: Option<Kobo>) {
    reserve.Some? ==> reserve.value >= 0
  }

  function CreateAuction(s: Database, seller: nat, starts: Time, ends: Time, reserve: Option<Kobo>): Database {
    if seller >= |s.users| || starts < s.now || !ValidDuration(starts, ends) || !ValidReserve(reserve) then s
    else s.(auctions := s.auctions + [Auction(seller, Draft, None, reserve, starts, ends, [])])
  }

  /** What every change of a draft checks first. */
  function DraftError(s: Database, seller: nat, a: nat): Option<Error> {
    if a >= |s.auctions| then Some(NotFound)
    else if s.auctions[a].seller != seller then Some(PermissionDenied)
    else if !s.auctions[a].status.Draft? then Some(WrongStatus)
    else None
  }

  function AttachItem(s: Database, seller: nat, a: nat, price: Kobo): Database {
    if DraftError(s, seller, a).Some? || price < 0 then s
    else
      var auction := s.auctions[a];
      // a reserve of zero counts as no reserve here
      if auction.reserve.Some? && auction.reserve.value != 0 && auction.reserve.value <= price then s
      else s.(auctions := s.auctions[a := auction.(prices := auction.prices + [price])])
  }

  function DetachItem(s: Database, seller: nat, a: nat, item: nat): Database {
    if DraftError(s, seller, a).Some? || item >= |s.auctions[a].prices| then s
    else
      var auction := s.auctions[a];
      s.(auctions := s.auctions[a := auction.(prices := auction.prices[..item] + auction.prices[item + 1..])])
  }

  /** Fields left out keep their value; the database refuses an end that is not after the start. */
  function UpdateAuction(s: Database, seller: nat, a: nat, starts: Option<Time>, ends: Option<Time>,
                         reserve: Option<Kobo>): Database
  {
    if starts.Some? && ends.Some? && !ValidDuration(starts.value, ends.value) then s
    else if !ValidReserve(reserve) || DraftError(s, seller, a).Some? then s
    else
      var auction := s.auctions[a];
      var newStart, newEnd := starts.GetOr(auction.startsAt), ends.GetOr(auction.endsAt);
      if newEnd <= newStart then s
      else s.(auctions := s.auctions[a := auction.(
          startsAt := newStart, endsAt := newEnd, reserve := if reserve.Some? then reserve else auction.reserve)])
  }

  function PublishError(s: Database, seller: nat, a: nat): Option<Error> {
    if DraftError(s, seller, a).Some? then DraftError(s, seller, a)
    else if s.auctions[a].prices == [] then Some(NoItemsAttached)
    else if s.auctions[a].startsAt < s.now then Some(InvalidRequest)
    else if s.auctions[a].endsAt - s.auctions[a].startsAt > MAX_DURATION then Some(InvalidRequest)
    else None
  }

  function Publish(s: Database, seller: nat, a: nat): Database {
    if PublishError(s, seller, a).Some? then s
    else
      var auction := s.auctions[a];
      var status := if auction.startsAt > s.now + IMMINENT then Scheduled else AuctionStatus.Active;
      s.(auctions := s.auctions[a := auction.(status := status)])
  }

  predicate Due(a: Auction, now: Time) {
    a.status.Scheduled? && a.startsAt <= now
  }

  function Activated(a: Auction, now: Time): Auction {
    if Due(a, now) then a.(status := AuctionStatus.Active) else a
  }

  /** The activation task: one transaction over every scheduled auction whose start has come. */
  function ActivateScheduled(s: Database): Database {
    s.(auctions := seq(|s.auctions|, i requires 0 <= i < |s.auctions| => Activated(s.auctions[i], s.now)))
  }

  function ExtendError(s: Database, seller: nat, a: nat, ends: Time): Option<Error> {
    if a >= |s.auctions| then Some(NotFound)
    else if s.auctions[a].seller != seller then Some(PermissionDenied)
    else if !s.auctions[a].status.Active? && !s.auctions[a].status.Scheduled? then Some(WrongStatus)
    else if ends <= s.now || ends <= s.auctions[a].endsAt then Some(InvalidRequest)
    else if ends > s.auctions[a].startsAt + MAX_DURATION then Some(InvalidRequest)
    else None
  }

  function Extend(s: Database, seller: nat, a: nat, ends: Time): Database {
    if ExtendError(s, seller, a, ends).Some? then s
    else s.(auctions := s.auctions[a := s.auctions[a].(endsAt := ends)])
  }

  function CancelError(s: Database, seller: nat, a: nat): Option<Error> {
    if a >= |s.auctions| then Some(NotFound)
    else if s.auctions[a].seller != seller then Some(PermissionDenied)
    else if HasBids(s.bids, a) then Some(WrongStatus)
    else None
  }

  /** The seller's cancellation looks at the bids only, not at the auction's status. */
  function CancelAuction(s: Database, seller: nat, a: nat): Database {
    if CancelError(s, seller, a).Some? then s
    else s.(auctions := s.auctions[a := s.auctions[a].(status := AuctionStatus.Cancelled)])
  }

  /** The administrator's cancellation looks at nothing and moves no money. */
  function CancelAuctionAdmin(s: Database, a: nat): Database {
    if a >= |s.auctions| then s
    else s.(auctions := s.auctions[a := s.auctions[a].(status := AuctionStatus.Cancelled)])
  }
}

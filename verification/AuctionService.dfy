/** Drafting, publishing, extending and cancelling auctions. */
module AuctionService {
  import opened Domain
  import opened Sessions
  import opened Bidding
  import opened Auctions
  import AuctionRepository

  /** `error` is empty exactly when the draft was created. */
  method CreateAuction(db: Session, seller: nat, starts: Time, ends: Time, reserve: Option<Kobo>)
      returns (error: Option<Error>)
    requires db.Clean()
    modifies db
    ensures db.Clean() && db.committed == Auctions.CreateAuction(old(db.committed), seller, starts, ends, reserve)
    ensures error.None? <==> db.auctions == old(db.auctions) + [Auction(seller, Draft, None, reserve, starts, ends, [])]
    ensures error.None? <==>
              && seller < |db.users| && db.now <= starts && 30 * MINUTE <= ends - starts <= 24 * HOUR
              && (reserve.Some? ==> 0 <= reserve.value)
  {
    if starts < db.now || !ValidDuration(starts, ends) || !ValidReserve(reserve) {
      return Some(InvalidRequest);
    }
    if seller >= |db.users| {
      return Some(NotFound);
    }
    db.auctions := db.auctions + [Auction(seller, Draft, None, reserve, starts, ends, [])];
    db.Commit();
    return None;
  }

  method CheckDraft(db: Session, seller: nat, a: nat) returns (error: Option<Error>)
    requires db.Clean()
    ensures error == DraftError(db.committed, seller, a)
  {
    if a >= |db.auctions| {
      return Some(NotFound);
    }
    if db.auctions[a].seller != seller {
      return Some(PermissionDenied);
    }
    if db.auctions[a].status != Draft {
      return Some(WrongStatus);
    }
    return None;
  }

  method AttachItem(db: Session, seller: nat, a: nat, price: Kobo) returns (error: Option<Error>)
    requires db.Clean()
    modifies db
    ensures db.Clean() && db.committed == Auctions.AttachItem(old(db.committed), seller, a, price)
    ensures error.Some? ==> db.committed == old(db.committed)
    ensures error.None? ==>
              a < |old(db.auctions)| == |db.auctions| && |db.auctions[a].prices| == |old(db.auctions[a]).prices| + 1
  {
    error := CheckDraft(db, seller, a);
    if error.Some? {
      return;
    }
    if price < 0 {
      return Some(InvalidRequest);
    }
    var auction := db.auctions[a];
    if auction.reserve.Some? && auction.reserve.value != 0 {
      if auction.reserve.value <= price {
        return Some(InvalidRequest);
      }
    }
    assert AuctionOk(auction, |db.users|, |db.bids|);
    db.auctions := db.auctions[a := auction.(prices := auction.prices + [price])];
    db.Commit();
  }

  method DetachItem(db: Session, seller: nat, a: nat, item: nat) returns (error: Option<Error>)
    requires db.Clean()
    modifies db
    ensures db.Clean() && db.committed == Auctions.DetachItem(old(db.committed), seller, a, item)
    ensures error.Some? ==> db.committed == old(db.committed)
    ensures error.None? ==>
              a < |old(db.auctions)| == |db.auctions| && |db.auctions[a].prices| == |old(db.auctions[a]).prices| - 1
  {
    ghost var s: Database := db.committed;
    error := CheckDraft(db, seller, a);
    if error.Some? {
      return;
    }
    var auction := db.auctions[a];
    if item >= |auction.prices| {
      return Some(NotFound);
    }
    db.auctions := db.auctions[a := auction.(prices := auction.prices[..item] + auction.prices[item + 1..])];
    assert db.View() == Auctions.DetachItem(s, seller, a, item);
    db.Commit();
  }

  /** Times given together are checked as a duration; one alone is only held against the other by the database. */
  method UpdateAuction(db: Session, seller: nat, a: nat, starts: Option<Time>, ends: Option<Time>,
      reserve: Option<Kobo>)
    returns (error: Option<Error>)
    requires db.Clean()
    modifies db
    ensures db.Clean() && db.committed == Auctions.UpdateAuction(old(db.committed), seller, a, starts, ends, reserve)
    ensures error.Some? ==> db.committed == old(db.committed)
    ensures error.None? ==>
              && a < |db.auctions|
              && (starts.Some? ==> db.auctions[a].startsAt == starts.value)
              && (ends.Some? ==> db.auctions[a].endsAt == ends.value)
              && (reserve.Some? ==> db.auctions[a].reserve == reserve)
  {
    ghost var s: Database := db.committed;
    if starts.Some? && ends.Some? && !ValidDuration(starts.value, ends.value) {
      return Some(InvalidRequest);
    }
    if !ValidReserve(reserve) {
      return Some(InvalidRequest);
    }
    error := CheckDraft(db, seller, a);
    if error.Some? {
      return;
    }
    var auction := db.auctions[a];
    if starts.Some? {
      auction := auction.(startsAt := starts.value);
    }
    if ends.Some? {
      auction := auction.(endsAt := ends.value);
    }
    if reserve.Some? {
      auction := auction.(reserve := reserve);
    }
    if auction.endsAt <= auction.startsAt {
      return Some(InvalidRequest);
    }
    db.auctions := db.auctions[a := auction];
    assert db.View() == Auctions.UpdateAuction(s, seller, a, starts, ends, reserve);
    db.Commit();
  }

  method PublishAuction(db: Session, seller: nat, a: nat) returns (error: Option<Error>)
    requires db.Clean()
    modifies db
    ensures db.Clean() && db.committed == Publish(old(db.committed), seller, a)
    ensures error == PublishError(old(db.committed), seller, a)
    ensures error.None? <==>
              && a < |old(db.auctions)|
              && var x := old(db.auctions[a]);
                 && x.seller == seller && x.status.Draft? && x.prices != []
                 && db.now <= x.startsAt && x.endsAt <= x.startsAt + MAX_DURATION
    ensures error.None? ==>
              var x := old(db.auctions[a]);
              db.auctions == old(db.auctions)[a := x.(
                status := if x.startsAt <= db.now + 30 * SECOND then AuctionStatus.Active else Scheduled)]
  {
    error := CheckDraft(db, seller, a);
    if error.Some? {
      return;
    }
    var auction := db.auctions[a];
    if auction.prices == [] {
      return Some(NoItemsAttached);
    }
    if auction.startsAt < db.now {
      return Some(InvalidRequest);
    }
    if auction.endsAt - auction.startsAt > MAX_DURATION {
      return Some(InvalidRequest);
    }
    if auction.startsAt > db.now + IMMINENT {
      AuctionRepository.UpdateStatus(db, a, Scheduled);
    } else {
      AuctionRepository.UpdateStatus(db, a, AuctionStatus.Active);
    }
    db.Commit();
  }

  method ExtendAuction(db: Session, seller: nat, a: nat, ends: Time) returns (error: Option<Error>)
    requires db.Clean()
    modifies db
    ensures db.Clean() && db.committed == Extend(old(db.committed), seller, a, ends)
    ensures error == ExtendError(old(db.committed), seller, a, ends)
  {
    if a >= |db.auctions| {
      return Some(NotFound);
    }
    var auction := db.auctions[a];
    if auction.seller != seller {
      return Some(PermissionDenied);
    }
    if auction.status != AuctionStatus.Active && auction.status != Scheduled {
      return Some(WrongStatus);
    }
    if ends <= db.now {
      return Some(InvalidRequest);
    }
    if ends <= auction.endsAt {
      return Some(InvalidRequest);
    }
    if ends > auction.startsAt + MAX_DURATION {
      return Some(InvalidRequest);
    }
    assert AuctionOk(auction, |db.users|, |db.bids|);
    db.auctions := db.auctions[a := auction.(endsAt := ends)];
    db.Commit();
    return None;
  }

  /** The seller's own cancellation: only while there is no bid, whatever the auction's status. */
  method CancelAuction(db: Session, seller: nat, a: nat) returns (error: Option<Error>)
    requires db.Clean()
    modifies db
    ensures db.Clean() && db.committed == Auctions.CancelAuction(old(db.committed), seller, a)
    ensures error == CancelError(old(db.committed), seller, a)
    ensures error.None? <==>
              && a < |old(db.auctions)| && old(db.auctions[a]).seller == seller
              && forall i | 0 <= i < |old(db.bids)| :: old(db.bids[i]).auction != a
  {
    if a >= |db.auctions| {
      return Some(NotFound);
    }
    if db.auctions[a].seller != seller {
      return Some(PermissionDenied);
    }
    if HasBids(db.bids, a) {
      return Some(WrongStatus);
    }
    AuctionRepository.UpdateStatus(db, a, AuctionStatus.Cancelled);
    db.Commit();
    return None;
  }

  /** The administrator's cancellation: no check at all, and no money moves. */
  method CancelAuctionAdmin(db: Session, a: nat) returns (error: Option<Error>)
    requires db.Clean()
    modifies db
    ensures db.Clean() && db.committed == Auctions.CancelAuctionAdmin(old(db.committed), a)
    ensures error.None? <==> a < |old(db.auctions)|
  {
    var found := AuctionRepository.CancelAuctionByAdmin(db, a);
    if !found {
      return Some(NotFound);
    }
    db.Commit();
    return None;
  }
}

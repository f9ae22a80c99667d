# The money protocol of the auction marketplace

A wallet has three buckets, available, locked and escrow, and an append-only ledger. Bidding, settlement, orders
with escrow and disputes, and payments move money between the buckets and write the ledger. Nothing in the code
recomputes a bucket from bids, escrows or rows, so that they agree is a property of all the code together. This
project models the code that moves money and proves that they do agree, after any sequence of requests, worker
tasks, redelivered messages and lost commits.

## How it is laid out

- `Domain.dfy` has the tables, with the database's foreign keys and CHECK constraints as the type `Database`.
- `Bidding.dfy`, `Auctions.dfy`, `Settlement.dfy`, `Orders.dfy`, `Payments.dfy`, with `Tiers.dfy`, `Limits.dfy`
  and `Commission.dfy`, say what each transaction makes of a store: its checks in order and its new state.
- `Protocol.dfy` makes each transaction an event and defines runs: any events in any order. Claiming and
  processing, and judging and handling a missed reserve, are separate events because the code commits between
  them. A queue is the set of ids ever sent to it, so a message may be delivered at any time, any number of times.
- The `*Laws.dfy` files say it once more, in plain fields of the tables of any reachable state: who may do what and
  everything that changes, for every event. `AuctionRuns.dfy` and `OrderRuns.dfy` draw from them how every status
  came about.
- `Session.dfy` is the database session with the tables as fields; `WalletRepository.dfy`, `Repositories.dfy` and
  the `*Service.dfy` and `*Tasks.dfy` files are the code step by step, with its loops, commits and rollbacks,
  proved to be those transactions. `Platform.dfy` ties them to runs.
- The other files prove the invariants and the results about runs. `Reachable(t)` says that some run from a
  platform without users ends in `t`; the lemmas named `Always...` and `Never...` hold of every such state, or of
  those a side condition below allows. `Tally.dfy` and `Ledger.dfy` are the sums they are stated with.

Amounts are whole kobo, times are microseconds. A user's wallet has the user's own id. A transaction is atomic.
What a provider answers, which auctions are stale, and which commits are lost are inputs.

## The two side conditions

Most results hold of every run. Two of the code's transactions do not look at what happened before they start,
and what this can break is proved of exactly the runs in which it does not happen.

- [S] Every accepted delivery of the release task finds its escrow HOLDING or PROCESSING and its order not
  DISPUTED (`ReachableGuarded`). The task reads neither status (`backend/apps/escrow/tasks.py:128-142`,
  `backend/apps/orders/service.py:297-312`). `Lockstep.ReleaseNeedsGuard` and `Lockstep.GuardedIffSound` show the
  condition is exact, `Lockstep.AtOnceIsGuarded` that claiming and releasing in one step meets it, `Redelivery`
  and `Scenario` what happens without it.
- [H] Every reserve handler finds the bid it unlocks still ACTIVE (`ReachableTimely`). The settlement task judges
  in one session and the handler closes the auction in another, which reads the status only to see whether it has
  been there before (`backend/apps/auctions/tasks.py:217-232`, `449-465`). The condition has two halves
  (`Handling.TwoWaysLate`, `LateHandler.TimelyIffNeither`), and what each guards is proved exactly of the runs that
  meet it: sales stand if and only if no handler finds its bid WON (`LateHandler.StandingIffClosedUnsold`), locks
  and unlocks pair if and only if none finds it LOST (`Pairing.PairedIffClosedOnce`), and locked funds are the
  ACTIVE bids if and only if neither happens (`Locks.LocksAgreeIffTimely`, `LateHandler.LocksNeedBoth`).
  `Handling.AtOnceRunIsTimely` shows that judging and handling in one step meets it, `LateHandler` and `Scenario`
  what happens without it.

## Where the code is not what it says

- The failure mail of a withdrawal says the amount was refunded. The worker's session rolls the refund back when
  the transfer raises, so the withdrawal stays PENDING and its money is gone from the wallet
  (`backend/apps/wallet/tasks.py:161-219`; `Withdrawals.TaskRunsRefundNothing`, `Withdrawals.RefundNeedsCommit`,
  `Scenario.LostWithdrawal`).
- A reserve handler that starts after its auction was prolonged, overtaken and sold ends it as unsold, leaves the
  order, and unlocks money that backs another bid of the winner; one that starts after a cancellation takes the
  cancellation back; and one that starts after another handler and a cancellation unlocks the same bid a second time
  (`backend/apps/auctions/tasks.py:217-262`; `LateHandler.SoldThenHandled`, `LateHandler.CancelledThenHandled`,
  `Scenario.LateHandler`, `Scenario.HandlerAfterCancel`, `Scenario.DoubleUnlock`).
- An administrator's cancellation leaves the highest bid ACTIVE and its money locked for good, exactly when a bid
  was placed and settlement is not through (`backend/apps/auctions/service.py:918-937`; `Cancellation.CancelLocks`,
  `Cancellation.CancelledStaysLocked`, `Scenario.CancelledWithBid`). Locked funds are therefore summed by bid
  status.
- The scan collects auctions stuck in settlement so that they are recovered; the claim asks for ACTIVE, so they
  never are (`backend/apps/auctions/repository.py:497-552`; `AuctionTasks.SettleEndedAuctions`).
- The settlement and release messages are sent before the claim commits, so a message can outlive a claim that
  was rolled back. Judging it is still safe (`Claims.RedeliveryChangesNothing`, `Claims.DeliverySettles`).
- A sale of ten kobo or less cannot be released: its commission rounds to zero and the ledger takes no zero row
  (`backend/apps/wallet/models.py:110`; `Commissions.CommissionPositive`, `Lockstep.HeldEscrowPays`,
  `Scenario.TenKoboSale`).
- The page looks for a user's own bid among ACTIVE and OUTBID ones. OUTBID is never committed, so whoever has been
  outbid is shown no bid (`backend/apps/bids/repository.py:96-118`; `EndToEnd.NeverOutbid`,
  `BidPage.ShownToLeaderOnly`, `Scenario.OutbidShownNothing`).
- A dispute refund writes the escrow bucket into `balance_before` (`backend/apps/disputes/service.py:281-293`);
  `RunningBalance.Printed` says so for that row alone.
- With a reserve of zero, `reserve_progress_percent` divides by zero once there is a bid
  (`backend/apps/auctions/schemas.py:281-296`; `Scenario.ZeroReserve`).
- The increment table is not monotone on kobo: in its gaps the 500 naira fallback can undercut the tier below
  (`Tiers.IncrementOrder`, `Tiers.NextBidOrder`, `Tiers.OneKoboLess`).
- The winner's mail calls the shipping deadline hours; it is added in minutes
  (`backend/apps/auctions/tasks.py:495-496`). The model's `shippingTime` is any duration.

## Model

| member | source | states |
|---|---|---|
| `WalletRepository.UpdateBalances` | backend/apps/wallet/repository.py:88-140 | The guarded update is refused exactly when the wallet is missing or a bucket would become negative, and then leaves all wallets alone |
| `WalletRepository.CreateTransaction` | backend/apps/wallet/repository.py:142-160 | One row is appended; the ledger refuses exactly the amounts that are not positive |
| `WalletRepository.CreditWallet` | backend/apps/wallet/repository.py:240-282 | Credits the available bucket outside the guard and appends a refund row without reference carrying both balances |
| `AuctionRepository.ClaimForSettlement` | backend/apps/auctions/repository.py:533-552 | Compare-and-set: wins exactly when the auction is still ACTIVE, whatever its end |
| `EscrowRepository.ClaimForRelease` | backend/apps/escrow/repository.py:127-149 | Compare-and-set: wins exactly when the escrow is still HOLDING |
| `BidService.Validate` | backend/apps/bids/service.py:100-139 | The checks of a bid, in order, end in the refusal that `BidLaws.BidAnswer` reads off the tables; the one left over is a refund the wallet refuses later |
| `BidService.LockFunds` | backend/apps/bids/service.py:152-185 | New bid, locked money, ledger row, link and pointer together are the state `WithNewBid` |
| `BidService.RefundOutbid` | backend/apps/bids/service.py:187-215 | Through OUTBID to RELEASED, with the money returned and a row; refused exactly when the locked bucket does not cover it |
| `BidService.PlaceBid` | backend/apps/bids/service.py:71-221 | All or nothing: committed tables and answer are those of `BidLaws.BidLaw` and `BidLaws.BidAnswer`, and any refusal leaves everything as it was |
| `AuctionTasks.ActivateScheduledAuctions` | backend/apps/auctions/tasks.py:639-659 | After the loop exactly the scheduled auctions whose start has come are ACTIVE |
| `AuctionTasks.Scan` | backend/apps/auctions/repository.py:497-531 | The ids found are exactly the ended ACTIVE auctions and the stale ones in progress, each once |
| `AuctionTasks.Claim` | backend/apps/auctions/tasks.py:190-203 | One worker's attempt; the message is sent before the commit and survives when the commit is lost |
| `AuctionTasks.SettleEndedAuctions` | backend/apps/auctions/tasks.py:182-205 | The sweep claims and queues every ended auction once and nothing else; the count returned is their number |
| `AuctionTasks.MarkBids` | backend/apps/auctions/tasks.py:543-546 | The loop over an auction's bids leaves the winner WON, the others LOST, and no bid of another auction touched |
| `AuctionTasks.HandleReserveNotMet` | backend/apps/auctions/tasks.py:208-303 | The handler's own transaction, guarded against repetition alone: all bids LOST and the highest bid's money unlocked, or nothing at all exactly when the locked bucket does not cover it |
| `AuctionTasks.ProcessAuctionSettlement` | backend/apps/auctions/tasks.py:336-551 | A delivered message does what `AuctionLaws.SettlementLaw` says; without a bid the auction is ENDED_NO_BIDS; the task raises, and changes nothing, exactly when the judgement is an abort |
| `AuctionTasks.DeliverSettlement` | backend/apps/auctions/tasks.py:449-465 | With nothing in between, task and handler together are the judgement followed by closing the auction unsold |
| `OrderService.ReleaseEscrowToSeller` | backend/apps/orders/service.py:275-374 | Succeeds exactly when the winner's bucket covers the amount and both ledger rows are positive; the escrow's status plays no part |
| `OrderService.RefundToBuyer` | backend/apps/orders/service.py:488-524 | Succeeds exactly when the buyer's escrow bucket covers the escrow of the order; full refund, REFUNDED, order closed |
| `OrderService.ShipOrder` | backend/apps/orders/service.py:240-259 | Accepted exactly from the order's seller while PENDING_SHIPMENT |
| `OrderService.ConfirmDelivery` | backend/apps/orders/service.py:397-425 | Accepted exactly from the buyer of a SHIPPED order whose escrow can be paid out; DELIVERED, payout and COMPLETED commit together or not at all |
| `OrderService.CancelOrder` | backend/apps/orders/service.py:467-528 | Accepted exactly from the buyer, while PENDING_SHIPMENT, past the deadline, with the money there |
| `EscrowTasks.PendingAutoReleases` | backend/apps/escrow/repository.py:108-125 | The ids are exactly the HOLDING escrows that are due, each once |
| `EscrowTasks.Claim` | backend/apps/escrow/tasks.py:91-103 | One worker's attempt on a due escrow; the message survives a lost commit |
| `EscrowTasks.ProcessAutoReleases` | backend/apps/escrow/tasks.py:82-105 | The sweep moves every due escrow to PROCESSING and queues it once, and nothing else; the count is their number |
| `EscrowTasks.ReleaseSingleEscrow` | backend/apps/escrow/tasks.py:121-151 | A delivered message pays the seller and completes the order, or rolls back; no status is looked at |
| `EscrowTasks.CancelOne` | backend/apps/escrow/tasks.py:209-260 | One pass of the overdue sweep: cancelled exactly if still PENDING_SHIPMENT and refundable |
| `EscrowTasks.ProcessOverdueShipments` | backend/apps/escrow/tasks.py:191-290 | The sweep tries to cancel and refund exactly the overdue orders, each once; none is left that is overdue and could be refunded; orders not overdue are untouched |
| `DisputeService.RaiseDispute` | backend/apps/disputes/service.py:111-148 | Accepted exactly from the buyer of a shipped order without a dispute; order and dispute point at each other, the escrow stays |
| `DisputeService.MarkUnderReview` | backend/apps/disputes/service.py:370-384 | Accepted exactly from an administrator while OPEN |
| `DisputeService.ResolveDispute` | backend/apps/disputes/service.py:255-326 | Money, order and dispute change together or not at all; accepted exactly from an administrator, undecided, with the money there |
| `WalletService.InitiateFunding` | backend/apps/wallet/service.py:133-177 | Adds a PENDING payment exactly when no check refuses |
| `WalletService.HandleWebhook` | backend/apps/wallet/service.py:252-411 | Accepted exactly for a payment already COMPLETED, or confirmed for at least its amount in its currency; a success credits the payment's own amount |
| `WalletService.InitiateWithdrawal` | backend/apps/wallet/service.py:484-551 | Debit and PENDING row, or the first failing check |
| `WalletService.RefundFailedWithdrawal` | backend/apps/wallet/service.py:675-705 | Credits the amount back and marks the withdrawal FAILED |
| `WalletService.ProcessWithdrawalTransferDirect` | backend/apps/wallet/service.py:594-673 | Succeeds exactly for a PENDING withdrawal with bank details and an accepted transfer; otherwise leaves a refund for its caller to keep or drop |
| `WalletTasks.ProcessWithdrawalTransfer` | backend/apps/wallet/tasks.py:118-219 | The worker keeps only successes: what a raising transfer wrote is rolled back |
| `AuctionService.UpdateAuction` | backend/apps/auctions/service.py:772-790 | Times given alone are held only against each other; the draft changes exactly as specified |
| `AuctionService.PublishAuction` | backend/apps/auctions/service.py:574-619 | Accepted exactly from the seller of a draft with an item, a start not past and at most a day; ACTIVE if it starts within half a minute and SCHEDULED otherwise |
| `AuctionService.ExtendAuction` | backend/apps/auctions/service.py:960-996 | The end moves forward within the maximum duration, or the first failing check |
| `AuctionService.CancelAuction` | backend/apps/auctions/service.py:721-747 | Refused exactly when unknown, not the seller's, or bid on; the auction's status is not looked at |
| `AuctionService.CancelAuctionAdmin` | backend/apps/auctions/service.py:918-937 | Any auction becomes CANCELLED; bids and wallets stay as they are |
| `Tiers.Seed` | backend/scripts/seed_bid_increment_tiers.py:50-64 | The loop inserts the table's rows, all of them, in order |
| `Platforms.Perform` | backend/apps/auctions/tasks.py:55-78 | Every service method and task is one step of the protocol, whatever the event |
| `Platforms.Platform.Transact` | backend/apps/auctions/tasks.py:55-78 | After any calls the committed tables are the result of a run from a fresh platform |
| `Platforms.BooksAgree` | backend/apps/wallet/repository.py:88-160 | Between any two calls all invariants below that need no side condition hold of the object |
| `Platforms.LocksFollowHandlers` | backend/apps/auctions/tasks.py:217-232 | And its locked funds are the ACTIVE bids if and only if every reserve handler so far came in time |
| `Domain.UpdateBalances` | backend/apps/wallet/repository.py:111-134 | No accepted update leaves a negative bucket |
| `Bidding.HighestBid` | backend/apps/bids/repository.py:76-94 | The ACTIVE or WON bid of largest amount, the earliest of equals; none exactly when there is no such bid |
| `BidService.GetAuctionBidState` | backend/apps/bids/service.py:248-312 | The polled state, from its own queries and its own second computation of the least next bid: no bid is refused as too low that reaches it and none passes below it |
| `BidPage.ShownToLeaderOnly` | backend/apps/bids/repository.py:96-118 | The page shows a user a bid of theirs exactly while it leads and is unsettled, always as the highest; the outbid, and the winner of a SETTLED auction, are shown none |
| `Scenario.OutbidShownNothing` | backend/apps/bids/repository.py:96-118 | Concretely: a bidder who was outbid polls the page and is shown no bid of theirs |
| `BidPage.ShownHighestIsCounted` | backend/apps/bids/service.py:271-288 | While an auction runs or is SETTLED the page shows a highest amount exactly when it counts a bid, and no bid of any status exceeds it |
| `BidPage.PageLaw` | backend/apps/bids/service.py:248-312 | While an auction runs or is SETTLED the page shows the amount of the bid it points at, the least bid that is accepted and the number of its bids |
| `BidPage.LostBidsAreHidden` | backend/apps/bids/repository.py:76-94 | After a missed reserve the page counts bids but shows none as highest and falls back to the starting price |
| `Tiers.FindTier` | backend/apps/auctions/repository.py:811-832 | Among the covering active tiers the one with the largest lower bound; none exactly when none covers |
| `Tiers.IncrementLaw` | backend/apps/auctions/repository.py:797-832 | The increment is that of an active tier with the amount in its range and the largest such lower bound; 500 naira if there is none |
| `Tiers.SeedLookup` | backend/scripts/seed_bid_increment_tiers.py:16-47 | With the seeded table at most one tier covers an amount and the fallback answers exactly in the gaps |
| `Tiers.SeedGaps` | backend/scripts/seed_bid_increment_tiers.py:16-47 | The gaps are five sub-naira intervals; whole naira never fall in one |
| `Tiers.SeedMonotone` | backend/scripts/seed_bid_increment_tiers.py:16-47 | On whole naira the increment never falls and amount plus increment strictly rises |
| `Tiers.SeedIncrements` | backend/scripts/seed_bid_increment_tiers.py:16-47 | The increment of every whole-naira amount, in numbers |
| `Tiers.IncrementOrder` | backend/apps/auctions/repository.py:826-832 | On kobo the increment can fall: exactly when the larger amount is in a gap and the smaller in a tier above 500 naira |
| `Tiers.NextBidOrder` | backend/apps/auctions/repository.py:826-832 | The least next bid itself falls exactly when moreover the amounts are closer than the two increments |
| `Tiers.OneKoboLess` | backend/scripts/seed_bid_increment_tiers.py:16-47 | Concretely: one kobo above 100,000 naira lowers the least next bid |
| `Tiers.SeedSteps` | backend/scripts/seed_bid_increment_tiers.py:16-47 | Every increment of the seeded table, and the fallback, is at least 100 naira |
| `Commissions.CommissionOf` | backend/apps/auctions/tasks.py:474-475 | Within half a kobo of five per cent, ties to even |
| `Commissions.CommissionUnique` | backend/apps/auctions/tasks.py:474-475 | Those two conditions leave one possible commission |
| `Commissions.CommissionMonotone` | backend/apps/escrow/schemas.py:35-37 | Commission and payout both rise with the price and add up to it |
| `Commissions.CommissionPositive` | backend/apps/wallet/models.py:110 | A commission can be recorded exactly for prices of at least 11 kobo |
| `Commissions.CommissionDrift` | backend/apps/auctions/tasks.py:474-475 | Over n sales the rounding error is at most n half kobos |
| `Protocol.FreshIsReachable` | backend/apps/auctions/tasks.py:55-78 | A platform without users is a reachable state |
| `Protocol.StepIsReachable` | backend/apps/auctions/tasks.py:55-78 | The reachable states are closed under every transaction |
| `BidChain.AlwaysChained` | backend/apps/bids/service.py:106-215 | In every reachable state: amounts rise strictly, consecutive bidders differ, the pointer is the last bid, every status fits its auction's, every bid was lawful |
| `BidChain.HighestIsLeader` | backend/apps/bids/service.py:115-132 | While an auction runs or is SETTLED, the status-filtered query answers the pointer |
| `BidChain.BidOvertakes` | backend/apps/bids/service.py:120-132 | The next bid is somebody else's and a full increment higher |
| `EndToEnd.ThreeHighestAgree` | backend/apps/auctions/repository.py:715-733 | Pointer, query and maximum over all bids of any status are one bid |
| `EndToEnd.NeverOutbid` | backend/apps/bids/service.py:188-215 | OUTBID is never committed |
| `EndToEnd.EveryBidWasAccepted` | backend/apps/bids/service.py:106-139 | Every bid on record was placed by one event that passed every check while the end then in force lay ahead |
| `EndToEnd.SettledMeansSold` | backend/apps/auctions/tasks.py:449-551 | A SETTLED auction was sold to the strict maximum over all its bids, at no less than starting price and reserve, by order and escrow that agree, to somebody else than the seller |
| `EndToEnd.BiddingIsFinite` | backend/apps/bids/service.py:120-139 | The highest of n bids is at least first + (n - 1)d and at most the KYC cap |
| `EndToEnd.BidUsesUpRoom` | backend/apps/users/kyc_service.py:154-165 | Each accepted bid takes at least an increment off the room below the cap |
| `EndToEnd.RunWindow` | backend/apps/auctions/service.py:596-619 | From publication on start, prices and reserve are fixed, and the end only grows, within the maximum duration |
| `Reserve.FullIffMet` | backend/apps/auctions/schemas.py:271-296 | The progress bar is full exactly when the reserve is met, except that a reserve of zero divides by zero |
| `Reserve.ProgressIsShare` | backend/apps/auctions/schemas.py:281-296 | Short of full, the bar shows the whole percentage the bid is of the reserve |
| `Scenario.ZeroReserve` | backend/apps/auctions/schemas.py:281-296 | Concretely: a published auction with a reserve of zero and a bid, whose progress divides by zero |
| `Reserve.ProgressMonotone` | backend/apps/auctions/schemas.py:281-296 | A higher bid never moves the bar back |
| `Reserve.ShownIsJudged` | backend/apps/auctions/schemas.py:271-277 | What the page shows of a claimed auction with bids is what its settlement judges |
| `Reserve.ShownIsDecidedIfLocked` | backend/apps/auctions/schemas.py:271-277 | With no side condition: a delivery sells, or ends the auction unsold, exactly as the page says, provided the bidder's locked bucket covers the highest bid |
| `Reserve.ShownIsDecided` | backend/apps/auctions/schemas.py:271-277 | [H] So what the page shows is what is decided: SETTLED, or ended by the handler called at once |
| `Settlement.SettleTwice` | backend/apps/auctions/tasks.py:379-395 | Settling twice in a row is settling once, from any state |
| `Claims.ClaimedAtMostOnce` | backend/apps/auctions/repository.py:533-552 | However many workers scan and claim, an auction is claimed at most once |
| `Claims.ClaimFollowsEnd` | backend/apps/auctions/repository.py:515-531 | What was scanned has left ACTIVE or was past its end when some scan found it |
| `Claims.NeverClaimedAgain` | backend/apps/auctions/repository.py:533-552 | An auction that has left ACTIVE, as a stale one has, stays so and is never claimed in any later run |
| `Claims.OneSalePerAuction` | backend/apps/auctions/tasks.py:379-551 | At most one order, escrow and escrow move per auction; they exist if it is SETTLED, and only if it is, was cancelled since or was closed by a late handler |
| `Claims.DeliverySettlesIfLocked` | backend/apps/auctions/tasks.py:379-465 | With no side condition: judging a message and letting its handler run at once ends in a terminal status exactly if the auction was terminal, has no bid, or the bidder's locked bucket covers the highest one |
| `Claims.DeliverySettles` | backend/apps/auctions/tasks.py:379-465 | [H] So it always does, whichever claim sent the message |
| `Claims.RedeliveryChangesNothing` | backend/apps/auctions/tasks.py:387-395 | Once an auction is terminal, judging any message again at any later time changes nothing |
| `Cancellation.CancelLocks` | backend/apps/auctions/service.py:918-937 | Cancelling leaves a bid of the auction ACTIVE if and only if a bid was placed and settlement is not through |
| `Cancellation.CancelledStaysLocked` | backend/apps/auctions/service.py:918-937 | Such a bid stays ACTIVE over every later run if no reserve handler was called before, and, its money being there, only then |
| `Cancellation.CancelledMoneyLocked` | backend/apps/auctions/service.py:918-937 | [H] Its amount is in the bidder's locked bucket at every later time |
| `Scenario.CancelledWithBid` | backend/apps/auctions/service.py:918-937 | Concretely: from an empty platform to a cancelled auction with an ACTIVE bid and its money locked |
| `Handling.FreshIsTimely` | backend/apps/auctions/tasks.py:217-232 | [H] A platform without users meets the condition on handlers |
| `Handling.StepIsTimely` | backend/apps/auctions/tasks.py:217-232 | [H] The states it allows are closed under every event that meets it |
| `Handling.TwoWaysLate` | backend/apps/auctions/tasks.py:217-232 | In every reachable state a handler is in time exactly if it finds its bid neither WON nor LOST |
| `Handling.StatusTells` | backend/apps/auctions/tasks.py:217-232 | The auction's status tells: a handler is in time while the auction runs or is being settled, and late after a sale |
| `Handling.AtOnceRunIsTimely` | backend/apps/auctions/tasks.py:449-465 | Runs in which each handler follows its judgement at once meet the condition |
| `Locks.RunLocks` | backend/apps/auctions/tasks.py:240-262 | With no side condition: a user's ACTIVE bids exceed their locked bucket by exactly what late handlers unlocked |
| `Locks.NeverOverlocked` | backend/apps/bids/service.py:152-215 | So no locked bucket ever holds more than the user's ACTIVE bids |
| `Locks.LocksAgreeIffTimely` | backend/apps/auctions/tasks.py:217-262 | Over any run: locked funds are the sum of the ACTIVE bids if and only if every handler came in time |
| `Locks.AlwaysLocked` | backend/apps/bids/service.py:152-215 | [H] Locked funds are the sum of the user's ACTIVE bids over all auctions |
| `Locks.ClosedEntries` | backend/apps/auctions/tasks.py:240-277 | Marking every bid LOST but unlocking only the highest is right: no other was still ACTIVE |
| `Locks.AbortsIfShort` | backend/apps/auctions/tasks.py:449-523 | With no side condition: a claimed auction's settlement aborts exactly if it is open, its highest bid meets the reserve and the bidder's locked bucket is short of it |
| `Locks.SettlementNeverAborts` | backend/apps/auctions/tasks.py:449-523 | [H] A claimed auction's settlement finds pointer, item and locked money |
| `LateHandler.HandleKeepsLocks` | backend/apps/auctions/tasks.py:217-262 | The handler keeps locked funds equal to ACTIVE bids if and only if it comes in time |
| `LateHandler.CancelledThenHandled` | backend/apps/auctions/tasks.py:217-262 | A handler that starts after a cancellation takes it back (ended as unsold, bid LOST, money returned) if the locked bucket covers the bid, and is refused otherwise |
| `LateHandler.SoldThenHandled` | backend/apps/auctions/tasks.py:217-262 | A handler that starts after the sale is refused if the winner's locked bucket is too small; otherwise it takes the sale's status back and unlocks the money of other bids |
| `LateHandler.HandleKeepsSales` | backend/apps/auctions/tasks.py:217-262 | One handler leaves every sale standing if and only if it does not find its bid WON |
| `LateHandler.StandingIffClosedUnsold` | backend/apps/auctions/tasks.py:217-262 | Over any run: every order's bid is WON and its auction SETTLED or cancelled since, if and only if no handler found its bid WON |
| `LateHandler.TimelyIffNeither` | backend/apps/auctions/tasks.py:217-262 | The handlers of a run come in time if and only if none finds its bid WON and none finds it LOST |
| `LateHandler.LocksNeedBoth` | backend/apps/auctions/tasks.py:217-262 | In every reachable state locked funds are the ACTIVE bids if and only if every sale stands and every lock is answered once |
| `Scenario.LateHandler` | backend/apps/auctions/tasks.py:449-465 | Concretely: a sold auction ends as unsold with its order in place, and the winner's ACTIVE bid on another auction loses its money |
| `Scenario.HandlerAfterCancel` | backend/apps/auctions/tasks.py:449-465 | Concretely: a handler undoes an administrator's cancellation |
| `Books.AlwaysBalanced` | backend/apps/wallet/repository.py:88-160 | Every bucket and the sales counter are the fold of the ledger; every row carries amount and wallet of what it refers to; failed withdrawals were refunded in full |
| `History.RunExtends` | backend/apps/wallet/models.py:101-105 | Over any run rows are only added and keep everything but their status; of ledger rows only a pending withdrawal changes |
| `RunningBalance.AlwaysPrinted` | backend/apps/wallet/repository.py:142-160 | `balance_before` and `balance_after` of every row are the bucket as the earlier rows tell it |
| `Conservation.AlwaysConserved` | backend/apps/wallet/service.py:340-382 | Buckets plus commission plus withdrawals not refunded equal deposits, in every reachable state |
| `Counting.AlwaysCounted` | backend/apps/wallet/service.py:340-382 | Per order one escrow move; per payment one deposit exactly if COMPLETED |
| `Pairing.AlwaysLockedOnce` | backend/apps/bids/service.py:162-180 | Every bid was locked by exactly one row of the ledger, the one it links to |
| `Pairing.RunUnlocks` | backend/apps/auctions/tasks.py:226-277 | With no side condition: one unlock if a bid is RELEASED or LOST, none if ACTIVE or WON, and one more for every handler that found it closed before |
| `Pairing.HandleKeepsPairing` | backend/apps/auctions/tasks.py:226-277 | One handler keeps locks and unlocks paired if and only if it does not find its bid LOST |
| `Pairing.PairedIffClosedOnce` | backend/apps/auctions/tasks.py:226-277 | Over any run: one lock per bid, and one unlock exactly if RELEASED or LOST, if and only if no handler found its bid LOST |
| `Scenario.DoubleUnlock` | backend/apps/auctions/tasks.py:226-277 | Concretely: two deliveries judge, the first handler ends the auction, it is cancelled, and the second handler unlocks the same bid again |
| `Sales.AlwaysPaired` | backend/apps/auctions/tasks.py:488-511 | Order and escrow agree in every field they share and name the highest bid, which is WON, or LOST to a late handler |
| `Escrows.RunShortfall` | backend/apps/orders/service.py:297-331 | With no side condition: held escrows exceed the bucket by exactly the payouts made for escrows no longer held |
| `Escrows.NeverOverdrawn` | backend/apps/wallet/repository.py:111-134 | So no bucket is negative and no escrow bucket exceeds the held escrows, for every interleaving |
| `Deadlines.AlwaysWaits` | backend/apps/auctions/tasks.py:488-511 | Auto-release is queued no sooner than 48 hours after the sale, and no order is cancelled before its shipping deadline |
| `Lockstep.FreshIsGuarded` | backend/apps/escrow/tasks.py:91-103 | [S] A platform without users meets the side condition |
| `Lockstep.StepIsGuarded` | backend/apps/escrow/tasks.py:91-103 | [S] The states the side condition allows are closed under every event that meets it |
| `Lockstep.AlwaysInStep` | backend/apps/orders/service.py:402-524 | [S] Order, escrow and dispute agree, and every escrow is paid out once, to the seller or back to the buyer |
| `Lockstep.InStepBothWays` | backend/apps/disputes/service.py:117-145 | [S] The agreement as equivalences, one dispute per order |
| `Lockstep.EscrowExact` | backend/apps/orders/service.py:275-374 | [S] The escrow bucket is exactly the user's held escrows |
| `Lockstep.HeldEscrowPays` | backend/apps/orders/service.py:301-363 | [S] A held escrow can be paid out exactly if its price is at least 11 kobo |
| `Lockstep.ReleaseNeedsGuard` | backend/apps/escrow/tasks.py:128-151 | The side condition is exact for one event: a release keeps agreement and single payout if and only if it meets it |
| `Lockstep.GuardedIffSound` | backend/apps/escrow/tasks.py:128-151 | And for whole runs: a run meets it if and only if agreement and single payout hold after every one of its events |
| `Lockstep.AtOnceIsGuarded` | backend/apps/escrow/tasks.py:91-103 | Runs that release right after claiming, with no open dispute, meet the side condition |
| `Redelivery.RedeliveryPays` | backend/apps/escrow/tasks.py:128-142 | Without it: n deliveries of one message pay as often as what is held for the buyer covers the amount, up to n times, and all but the first leave the bucket short |
| `Redelivery.SecondDeliveryPaysAgain` | backend/apps/escrow/tasks.py:128-142 | A second delivery pays again if and only if twice the amount is held for the buyer |
| `Redelivery.CompletedOverDispute` | backend/apps/disputes/service.py:128-145 | Without it: a delivery completes an order over its open dispute |
| `Scenario.DoubleRelease` | backend/apps/escrow/tasks.py:108-151 | Concretely: from an empty platform the seller is paid for two sales with one escrow released |
| `Scenario.ReleaseOverDispute` | backend/apps/escrow/tasks.py:108-151 | Concretely: the order is COMPLETED and the seller paid while the dispute is OPEN |
| `Scenario.TenKoboSale` | backend/apps/orders/service.py:340-363 | Concretely: a sale of ten kobo whose release is refused |
| `Progress.NeverDelivered` | backend/apps/orders/service.py:409-421 | DELIVERED is never committed |
| `Progress.RunBounded` | backend/apps/orders/service.py:247-259 | [S] What is visible of an order changes at most nine times: a rank falls with each change |
| `PaymentRuns.CompletedIffDelivered` | backend/apps/wallet/service.py:252-335 | A payment is COMPLETED exactly if some delivery was verified, successful, for at least its amount and in its currency |
| `PaymentRuns.CreditedOnce` | backend/apps/wallet/service.py:284-411 | Then exactly one deposit of its own amount to its own wallet, and otherwise none |
| `Withdrawals.DailyLimitHolds` | backend/apps/users/kyc_service.py:167-186 | Within a UTC day withdrawals never exceed the limit in force at the last accepted one |
| `Withdrawals.SinceMidnightIsToday` | backend/apps/users/kyc_repository.py:88-101 | The total since midnight is the day's total |
| `Withdrawals.RefundedOnce` | backend/apps/wallet/service.py:594-705 | Over any retries a withdrawal is credited back exactly once if it ends FAILED and never otherwise |
| `Withdrawals.EveryRefundHasFailure` | backend/apps/wallet/service.py:675-705 | Every bank refund on the ledger was posted by an event that credited back one withdrawal, of that wallet and amount |
| `Withdrawals.OneRefundPerRow` | backend/apps/wallet/service.py:675-705 | And by one such event only |
| `Withdrawals.TaskRunsRefundNothing` | backend/apps/wallet/tasks.py:161-219 | When transfers go through the worker only, no withdrawal ever fails or is refunded |
| `Withdrawals.RefundNeedsCommit` | backend/apps/wallet/service.py:594-673 | The money comes back exactly when the transfer fails and the caller keeps what the method wrote |
| `Scenario.LostWithdrawal` | backend/apps/wallet/tasks.py:118-219 | Concretely: the worker's transfer fails, the withdrawal stays PENDING, nothing is refunded and the money has left the wallet |
| `Sweeps.ClaimEachSweeps` | backend/apps/auctions/tasks.py:189-203 | Claiming scanned ids one by one claims exactly those still ACTIVE |
| `Sweeps.ClaimEachIsRun` | backend/apps/auctions/tasks.py:189-203 | The claims of the settlement sweep are a run of claim events |
| `Sweeps.ClaimEachCollects` | backend/apps/escrow/tasks.py:90-103 | Claiming due escrows one by one claims exactly those due |
| `Sweeps.ClaimEachEscrowIsRun` | backend/apps/escrow/tasks.py:90-103 | The claims of the auto-release sweep are a run |
| `Sweeps.CancelEachIsRun` | backend/apps/escrow/tasks.py:209-287 | The passes of the overdue sweep are a run |
| `Sweeps.CancelEachExhausts` | backend/apps/escrow/tasks.py:209-287 | The overdue passes leave nothing they could have cancelled |
| `BidLaws.BidLaw` | backend/apps/bids/service.py:100-221 | A bid is recorded if and only if the auction is ACTIVE before its end, the bidder exists, is neither its seller nor the one it points at, has the money and the tier, and reaches the increment or the starting price, and the one overtaken can be paid back; then exactly the bid, its lock, the pointer and that refund are new |
| `BidLaws.BidAnswer` | backend/apps/bids/service.py:100-139 | A refused bid is told the first reason that applies as the tables stand; an auction without items is never open for bids |
| `BidLaws.OutbidMayReturn` | backend/apps/bids/service.py:115-118 | Whoever was overtaken may bid again: only leading is an obstacle |
| `AuctionLaws.CreateLaw` | backend/apps/auctions/schemas.py:108-136 | A draft is made exactly with a start not in the past, half an hour to a day long, and no negative reserve |
| `AuctionLaws.AttachLaw` | backend/apps/auctions/service.py:501-545 | Its seller attaches an item to a draft exactly below the reserve, zero counting as none |
| `AuctionLaws.DetachLaw` | backend/apps/auctions/service.py:418-444 | Its seller takes an attached item off a draft |
| `AuctionLaws.EditLaw` | backend/apps/auctions/schemas.py:149-178 | Its seller edits a draft; the length is held to the limits only when both times are given |
| `AuctionLaws.PublishLaw` | backend/apps/auctions/service.py:574-619 | Exactly a draft with an item, a start not past and at most a day is published by its seller: ACTIVE if it starts within half a minute, SCHEDULED otherwise |
| `AuctionLaws.ActivateLaw` | backend/apps/auctions/repository.py:433-446 | After the activation sweep no scheduled auction is due, those that were are ACTIVE and nothing else has changed |
| `AuctionLaws.ExtendLaw` | backend/apps/auctions/service.py:960-996 | Its seller moves the end forward, while it waits or runs, to within a day of the start |
| `AuctionLaws.SellerCancelLaw` | backend/apps/auctions/service.py:721-747 | Its seller cancels it exactly while it points at no bid |
| `AuctionLaws.AdminCancelLaw` | backend/apps/auctions/service.py:918-937 | An administrator's cancellation changes the status and nothing else |
| `AuctionLaws.ScanLaw` | backend/apps/auctions/repository.py:497-531 | A scan adds the ended ACTIVE and the stale auctions, and changes nothing else |
| `AuctionLaws.ClaimLaw` | backend/apps/auctions/repository.py:533-552 | A claim wins a scanned ACTIVE auction; a lost one leaves its message only |
| `AuctionLaws.SettlementLaw` | backend/apps/auctions/tasks.py:379-551 | Everything a delivered settlement message changes: ENDED_NO_BIDS without a bid, the handler called below the reserve, the sale with its bids, order, escrow, buckets and row if the money is there, nothing otherwise |
| `AuctionLaws.HandlerLaw` | backend/apps/auctions/tasks.py:217-277 | Everything a reserve handler changes, and when it changes nothing |
| `AuctionLaws.ManageAnswers` | backend/apps/auctions/service.py:574-619 | A refused publication, extension or cancellation is told the first reason that applies |
| `AuctionRuns.StatusLaw` | backend/apps/auctions/tasks.py:379-551 | The status every event leaves every auction with |
| `AuctionRuns.StatusHasCause` | backend/apps/auctions/tasks.py:379-551 | Over any run, whatever status an auction has beyond DRAFT, one event of the run gave it |
| `AuctionRuns.CancelledHasCause` | backend/apps/auctions/service.py:721-747 | CANCELLED only by an administrator, or by the seller while there was no bid |
| `AuctionRuns.EndedNoBidsHasCause` | backend/apps/auctions/tasks.py:411-417 | ENDED_NO_BIDS only by the settlement of a claim without a bid |
| `AuctionRuns.AlwaysStarted` | backend/apps/auctions/service.py:613-619 | No auction runs, or has run, and no bid was placed, more than half a minute before the auction's start |
| `OrderLaws.AlwaysLinked` | backend/apps/disputes/service.py:117-145 | Dispute and order point at each other, so an order has at most one dispute |
| `OrderLaws.ShipLaw` | backend/apps/orders/service.py:240-259 | The seller and nobody else ships an order that waits for it |
| `OrderLaws.ConfirmLaw` | backend/apps/orders/service.py:397-425 | The buyer and nobody else confirms a shipped order, which pays its seller the price less commission and completes it, exactly if the price is 11 kobo or more and in the buyer's escrow bucket |
| `OrderLaws.CancelLaw` | backend/apps/orders/service.py:467-528 | A late order is cancelled by its buyer and nobody else, or by the sweep, with the whole price returned |
| `OrderLaws.ClaimReleaseLaw` | backend/apps/escrow/tasks.py:82-105 | Exactly a HOLDING escrow that is due is queued for release |
| `OrderLaws.ReleaseLaw` | backend/apps/escrow/tasks.py:121-151 | A release message, delivered whenever, pays exactly if the money is there |
| `OrderLaws.DisputeLaw` | backend/apps/disputes/service.py:111-148 | The buyer and nobody else disputes a SHIPPED order, once |
| `OrderLaws.ReviewLaw` | backend/apps/disputes/service.py:370-384 | An administrator and nobody else takes up an OPEN dispute |
| `OrderLaws.DecisionLaw` | backend/apps/disputes/service.py:255-326 | An administrator and nobody else decides an undecided dispute: the buyer has the price back, or the seller is paid |
| `OrderRuns.OrderStatusLaw` | backend/apps/orders/service.py:240-528 | The status every event leaves every order with |
| `OrderRuns.OrderHasCause` | backend/apps/orders/service.py:240-528 | Over any run, whatever status an order has beyond PENDING_SHIPMENT, one event of the run gave it |
| `OrderRuns.CompletedHasCause` | backend/apps/orders/service.py:397-425 | COMPLETED only by the buyer's confirmation, a release message or an administrator's decision for the seller |
| `OrderRuns.RefundedHasCause` | backend/apps/disputes/service.py:280-310 | REFUNDED only by an administrator's decision for the buyer |
| `OrderRuns.ResolvedHasCause` | backend/apps/disputes/service.py:260-262 | A RESOLVED dispute was decided by a user who was an administrator then |
| `PaymentLaws.AccountLaw` | backend/apps/users/kyc_service.py:140-152 | A new user starts at the lowest tier with an empty wallet; a tier or bank details change nothing else |
| `PaymentLaws.FundLaw` | backend/apps/wallet/service.py:114-177 | A payment is opened exactly from 100 naira on, within the tier's balance |
| `PaymentLaws.WebhookLaw` | backend/apps/wallet/service.py:252-411 | A payment is credited its own amount exactly if it is not COMPLETED and the provider confirms success, at least the amount, and the currency; a confirmed failure marks it FAILED; anything else changes nothing |
| `PaymentLaws.UnderpaidChangesNothing` | backend/apps/wallet/service.py:284-315 | An underpaid or foreign deposit changes nothing at all |
| `PaymentLaws.TakeOutLaw` | backend/apps/wallet/service.py:484-551 | A withdrawal is accepted if and only if the user has bank details and the money, and the day's withdrawals with it stay within the tier's cap |
| `PaymentLaws.TakeOutAnswer` | backend/apps/wallet/service.py:484-511 | A refused withdrawal is told the first reason that applies |
| `PaymentLaws.CapsAreLimits` | backend/apps/users/kyc_service.py:25-44 | The limits of the three tiers in naira |
| `PaymentLaws.TransferLaw` | backend/apps/wallet/service.py:594-705 | A pending withdrawal is COMPLETED exactly if the bank takes it and there are details; otherwise the worker changes nothing and the service method returns the money |

## Left out

- Routers, response schemas other than the reserve fields, the web front end and the administration views: plumbing. The administration views also write statuses directly, outside the protocol.
- Mail, notifications, Cloudinary, Celery and Redis themselves: foreign calls. A queue is a set of ids, a provider's answer an input.
- Login, tokens, rate limits, BVN and seller verification: only the KYC tier, the administrator flag and the presence of bank details matter here, and events set them.
- Items, except the starting prices attached to an auction: neither cancelling an auction nor approving an item checks the item, so "in one live auction" is not kept by the code.
- The order in which attached items are read: the first one attached is the first one read.
- Row locks, deadlock and what two transactions see of each other before they commit: each transaction is one atomic step, each sweep pass its own.
- Overflow of the database's numeric columns, the wallet funding cap as an invariant (it is checked only when funding starts), pagination.
- `updated_at`: which auctions in progress count as stale is an arbitrary input of the scan.
- ENDED_WITH_WINNER, SETTLEMENT_FAILED and the escrow statuses DISPUTED and FAILED: no modelled code sets them.
- AuctionTasks.SettleEndedAuctions: describes the sweep with nobody else acting between its claims; other workers' steps in between are covered by the runs, of which each claim is one event.
- EscrowTasks.ProcessAutoReleases: likewise, and so is EscrowTasks.ProcessOverdueShipments.
- BidService.Validate: leaves the refusal of the outbid user's refund to the later step that discovers it.

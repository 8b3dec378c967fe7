# Verification of the mentoring marketplace

A Dafny model of the parts of Unblock where money and concurrency meet: who gets a request,
what a session costs and when it is settled, what the balance cache means, how messages get
from one browser to another, and what a room's shared files and undo histories are. To check the whole
project, call `dafny verify dfyconfig.toml` in this directory.

| module | models |
|---|---|
| `Common` | identifiers, results, sums over maps |
| `Billing` | the arithmetic of a session: minutes, charge, split, cost of a tick |
| `Claim`, `ClaimSafety` | the claim protocol as a state machine with a clock, and its safety |
| `Matchmaker` | `AcceptSOS` as a method on stores, and its place in the protocol |
| `Wallet` | `DepositCredits` and `FinalizeRoomSession` with transaction and fallback, as methods |
| `Ledger` | sums over the append-only ledger, and when balances agree with it |
| `Marketplace`, `MarketSteps`, `MarketLaws` | the business operations as one state machine, what each step does and when, and laws over its runs |
| `LedgerSteps` | deposits and settlements one database call at a time, interleaved, with failing calls |
| `SettlementOverlap`, `RunningBalances` | what overlapping operations do to the number of rows and to running balances |
| `LoneOperations` | single calls that nothing interleaves with add up to the service's operations |
| `Ticker` | the billing goroutine: the select loop and what it drains |
| `TickerRegistry`, `TickerClock` | `activeRooms` under interleaved loads, stores, cancels and deletes; the same with a clock |
| `Rooms` | the three ways a session ends, and starting its ticker |
| `Frames` | joining and splitting text frames, the browser's `onmessage` |
| `Hub`, `HubService` | queues, eviction, write pumps and browsers end to end; the hub's objects |
| `Workspace`, `UndoRedo` | the room page's files, histories and messages; histories as zippers |
| `Replication`, `LiveEditing` | the peer's file list, in order and through the hub |
| `RateLimiter` | the fixed-window limiter and its traces |
| `Reviews` | one review per session and the mentor's average |

State machines are functions from a state and an event to a state; an event that is not
enabled changes nothing, and a run is a sequence of events from the initial state, so a lemma
about a run holds for every interleaving. Code that updates objects step by step is also
written as classes whose methods are proved equal to the functions the lemmas are about.
Remote calls that can fail take their outcome as a parameter: a write is acknowledged, lands
although its caller sees an error, or is lost (`Common.Reply`). Writes whose errors the code
drops either land or do not.

## Hypotheses

- Rates are positive where a lemma says so (the request form never sends another one,
  `frontend/src/app/(dashboard)/request/page.tsx:94`). The fee percentage is between 0 and 100.
- Users are never deleted and start with a balance of 0
  (`backend/internal/service/auth_service.go:114`).
- A claimant's status update, if it lands at all, lands at most `latency` after the lock was
  taken. Every statement about the claim protocol is relative to this number, and
  `ClaimSafety.SafeExactlyBelowTtl` says for which values the protocol is safe. When the update
  was sent does not matter: one that is sent in time and lands too late is not covered.
- Divisions by 60, by 12 and by the number of reviews are exact; the code computes them in
  floating point. Integers are unbounded.
- A broadcast is one step. In the code broadcasts close channels and delete from the map under
  a read lock, so two of them could overlap.
- Messages handed to the hub are one-line JSON texts the browser can parse. JSON encoding
  escapes line breaks, and `Frames.RoundTripIff` shows that nothing weaker suffices.
- The review's read and replacement of the mentor's user document is one step.
- New file ids are fresh. The page derives them from the clock.
- Request ids are never reused, and room names are derived from them, so a lookup by room name
  finds one session.

## Where the code differs from what is said about it

- `README.md:63` promises that a request goes to exactly one mentor. It does if and only if
  status updates land within the lock's ten seconds: `ClaimSafety.SafeExactlyBelowTtl`, with
  the failing run in `ClaimSafety.RaceIsUnsafe`. The status write does not look at the status
  it overwrites, and sessions have no unique index on the request.
- `docs/database.md:235-236` promises that a failed settlement is rolled back. A transaction
  that aborts is, but the code then makes the same five writes without one, and those are not:
  `Wallet.FailureCleanIff` and `Ledger.FinalizeFailureAgreesIff` say exactly when the promise
  holds. If the commit went through and only its reply was lost, the fallback settles a second
  time (`Wallet.NoErrorSettlesOnceIff`).
- Settlement is at most once when its calls are acknowledged and do not overlap
  (`MarketLaws.SettledOnce`). Without overlap, an end whose fallback fails late leaves the
  session ACTIVE with the money moved, and the next one charges again
  (`Rooms.LostCompletionChargesTwice`; exactly when: `Rooms.EndsSettleOnce`). The ACTIVE check
  is outside the transaction, so overlapping ones may both pass it
  (`SettlementOverlap.SettledTwice`; exactly when: `SettlementOverlap.SettledOnceIffExclusive`),
  with balances and ledger still in agreement (`LedgerSteps.FinishedAgrees`; after failures:
  `LedgerSteps.QuiescentAgreesIff`).
- A row's running balance is right in runs of whole operations (`Marketplace.RunKeeps`), not
  when two deposits of a user overlap (`RunningBalances.OverlappingDeposits`; exactly when:
  `RunningBalances.RunningBalanceIff`).
- Below 12 cents a minute the ticker, whose minimum is a cent a tick, drains more than the
  session is charged (`Billing.DrainCoveredIff`).
- Two overlapping starts leave two draining tickers (`TickerRegistry.OverlappingStarts`;
  exactly when: `TickerRegistry.StoreDecides`). A goroutine's deferred delete may remove the
  entry of the ticker that came after it (`TickerRegistry.RestartBeforeLeave`); whether a stop
  can find a ticker is decided by `TickerRegistry.FindableIff`.
- `README.md:65` and `docs/frontend.md:177-179` describe conflict-free editing by deltas. The
  room page sends whole contents and merges nothing; for one writer the peer follows exactly,
  except that an emptied file stays as it was, because the server drops an empty `code`
  (`Replication.SingleWriterReplication`, `Replication.ClearingIsLost`).
- The limiter counts keys separately but resets all counters at once
  (`RateLimiter.KeysShareWindows`): a key's requests are decided as if it were alone if and only
  if the others do not change where its counts begin (`RateLimiter.DecidedAloneIff`).
- A mentor's average lags behind when a review is stored without an acknowledgement or the
  recomputation fails, until the next review (`Reviews.CurrentIff`).
- Remote changes are dropped for fifty milliseconds after a keystroke, unless the timer of an
  earlier keystroke, which is not cancelled, lets them in sooner (`Workspace.FullWindowIff`).
- A peer's edit does not enter the local undo history, so undo may return to a text that was
  not there before (`UndoRedo.RemoteEditKeepsIff`).

## Model

| member | source | states |
|---|---|---|
| `ClaimSafety.SafeExactlyBelowTtl` | backend/internal/service/matchmaker_service.go:109-162 | The promise of one session per request holds in every run if and only if status updates land less than the lock's 10 s after it was taken |
| `ClaimSafety.ClaimIsExclusive` | backend/internal/service/matchmaker_service.go:99-162 | Any number of mentors, in any interleaving, with failing calls, expiring locks and vanishing requests: at most one session per request; while the request exists it is ACCEPTED by that session's mentor; nobody mentors themself; room names are unique |
| `ClaimSafety.RunKeeps` | backend/internal/service/matchmaker_service.go:109-162 | The invariant tying lock owner, lock deadline, claimant phase and request status together holds in every prompt run |
| `ClaimSafety.AcquireKeeps` | backend/internal/repository/redis/lock_repo.go:20-27 | SETNX never gives a request a second claimant with a lock in force |
| `ClaimSafety.ReadKeeps` | backend/internal/service/matchmaker_service.go:118-130 | A claimant that goes on after the OPEN check has no rival that won and no existing session |
| `ClaimSafety.UpdateKeeps` | backend/internal/repository/mongodb/request_repo.go:99-113 | An update that lands before its lock expires makes its claimant the only winner, although the write does not look at the old status |
| `ClaimSafety.LostUpdateKeeps` | backend/internal/service/matchmaker_service.go:134-136 | An update that never lands may fail at any time |
| `ClaimSafety.CreateKeeps` | backend/internal/service/matchmaker_service.go:149-162 | Only the recorded winner inserts a session, once, even if the insert is reported as failed |
| `ClaimSafety.RequestsKeep` | backend/internal/repository/mongodb/db.go:77-90 | Publishing a request and its removal by the TTL index keep the invariant |
| `ClaimSafety.RaceIsUnsafe` | backend/internal/service/matchmaker_service.go:110-134 | If an update may land as late as the lock's life, two mentors both end up with a session for one request |
| `ClaimSafety.RoomNamesInjective` | backend/internal/service/matchmaker_service.go:146-146 | Different requests get different room names |
| `ClaimSafety.UpdatesAreBlind` | backend/internal/repository/mongodb/request_repo.go:108-112 | An update whose request has vanished is no error, and its claimant goes on to create the session |
| `Matchmaker.AcceptIsSolo` | backend/internal/service/matchmaker_service.go:99-162 | One undisturbed AcceptSOS leaves exactly the stores that the protocol's steps by one claimant leave, and succeeds exactly when that claimant gets to the end |
| `Matchmaker.AcceptOutcome` | backend/internal/service/matchmaker_service.go:99-162 | Exactly when a call succeeds; what was changed then; the session's rate is the lower of the request's maximum and the mentor's positive rate; a failed call adds a session only if the insert landed unseen |
| `Matchmaker.AcceptErrors` | backend/internal/service/matchmaker_service.go:99-162 | Which refusal gets which error: the first condition that fails, in the service's order |
| `Matchmaker.MatchmakerService.AcquireRequestLock` | backend/internal/repository/redis/lock_repo.go:20-27 | SETNX with a deadline: sets the lock exactly when it is free and the command arrives, and reports that unless the reply is an error |
| `Matchmaker.MatchmakerService.UpdateStatus` | backend/internal/repository/mongodb/request_repo.go:99-113 | Accepts for the mentor whatever the status was; an unknown id is a successful no-op |
| `Matchmaker.MatchmakerService.CreateSession` | backend/internal/repository/mongodb/session_repo.go:26-43 | Appends the session unless the insert is lost |
| `Matchmaker.MatchmakerService.AcceptSOS` | backend/internal/service/matchmaker_service.go:99-162 | The method's stores and its result, for every combination of failing calls, are those of the specified outcome |
| `Billing.MinutesIsCeiling` | backend/internal/service/wallet_service.go:118-118 | Billed minutes are the least whole number of minutes that covers the seconds |
| `Billing.TruncateIsTowardZero` | backend/internal/service/wallet_service.go:121-121 | Integer division keeps the sign and loses less than one |
| `Billing.BillSplits` | backend/internal/service/wallet_service.go:111-128 | Earnings and fee add up to the charge, both non-negative; the fee is the percentage rounded down; at least one and, below 181 s, at most three minutes are charged |
| `Billing.ThreeMinuteThreshold` | backend/internal/service/wallet_service.go:111-119 | A session costs at most three minutes if and only if it is shorter than 181 s |
| `Billing.ChargeOfMinutes` | backend/internal/service/wallet_service.go:111-119 | Every started minute is charged, one at least: m minutes from one second past m - 1 of them to one second past m |
| `Billing.ChargeThreshold` | backend/internal/service/wallet_service.go:111-119 | For every m, the charge is at most m minutes if and only if the session is shorter than 60m + 1 s |
| `Billing.RecordedSeconds` | backend/internal/service/wallet_service.go:111-115 | The recorded duration is the whole seconds that passed, and 5 at least |
| `Billing.CostOfTick` | backend/internal/service/ticker_engine.go:65-69 | A tick costs a twelfth of the rate rounded down, and one cent below 12 cents a minute |
| `Billing.BillMonotone` | backend/internal/service/wallet_service.go:111-119 | A longer session is never billed less |
| `Billing.ChargeBounds` | backend/internal/service/wallet_service.go:117-119 | The charge lies between rate times duration and rate times duration plus 59 s |
| `Billing.DrainCovered` | backend/internal/service/ticker_engine.go:65-69 | n five-second ticks never drain more than a session of at least 5n seconds is charged, at 12 cents a minute or more |
| `Billing.DrainCoveredIff` | backend/internal/service/ticker_engine.go:65-69 | 12 cents a minute is the exact threshold for that |
| `Billing.ExcessOfCharge` | backend/internal/service/ticker_engine.go:65-69 | With a duration of exactly 5n seconds the charge exceeds the drain by at most 11(n + r)/12 |
| `Billing.ExhaustedSettlement` | backend/internal/service/wallet_service.go:111-119 | Settling the 5n seconds that exhausted a balance leaves it in (-(r + 11n/12), 0] |
| `Wallet.FinalizeOutcome` | backend/internal/service/wallet_service.go:101-225 | Whichever write is lost or lands unseen, on whichever path: a finalised session is left alone; an ACTIVE one is settled in full by a transaction that persists and again by a fallback whose writes all land; it leaves ACTIVE if and only if one of them does; an error leaves what persisted and the fallback's writes that landed, and the cache alone |
| `Wallet.NoErrorSettlesOnceIff` | backend/internal/service/wallet_service.go:197-225 | A nil return means exactly one full settlement of an ACTIVE session if and only if no commit went through behind the service's back |
| `Wallet.FiveWritesSettle` | backend/internal/service/wallet_service.go:136-195 | The five writes amount to one full settlement: who gained and lost what, which two rows were added with which running balances, what became of the session, and nothing else |
| `Wallet.CompletionRecords` | backend/internal/service/wallet_service.go:107-133 | A completed session records who ended it, the whole seconds it lasted, its started minutes at its rate and the exact split, in seconds and cents |
| `Wallet.CacheAfterFinalize` | backend/internal/service/wallet_service.go:205-223 | The cache changes exactly when an ACTIVE session was settled without an error and the refresh works: it then shows the client's stored balance |
| `Wallet.FailureCleanIff` | backend/internal/service/wallet_service.go:197-225 | A failed finalisation leaves the store as it was if and only if no commit went through unseen and the very first write of the fallback is lost |
| `Wallet.WalletService.UpdateBalance` | backend/internal/repository/mongodb/user_repo.go:74-84 | $inc on one balance, for each of the three replies; an unknown user is a successful no-op |
| `Wallet.WalletService.GetBalance` | backend/internal/service/wallet_service.go:147-159 | The stored balance, 0 if the user could not be read |
| `Wallet.WalletService.CreateTransaction` | backend/internal/service/wallet_service.go:173-191 | Appends the row, acknowledged or unseen, or loses it |
| `Wallet.WalletService.CompleteSession` | backend/internal/repository/mongodb/session_repo.go:123-138 | Overwrites status, duration and summary, whatever the status was, for each of the three replies |
| `Wallet.WalletService.ExecuteSettlement` | backend/internal/service/wallet_service.go:136-195 | Leaves exactly the writes that landed up to the first error, that one included if it landed unseen; succeeds if and only if all five are acknowledged |
| `Wallet.WalletService.WithTransaction` | backend/internal/service/wallet_service.go:198-214 | All five writes or none of them; a commit may be carried out although it is reported to have failed |
| `Wallet.WalletService.RefreshCache` | backend/internal/service/wallet_service.go:206-210 | The client's cached balance becomes the stored one if both calls answer |
| `Wallet.WalletService.ComputePlan` | backend/internal/service/wallet_service.go:111-133 | Duration, charge, split and status of the settlement, with the source's truncating divisions |
| `Wallet.WalletService.FinalizeRoomSession` | backend/internal/service/wallet_service.go:101-225 | Lookup, ACTIVE check, transaction, fallback and cache refresh together have the specified outcome |
| `Wallet.WalletService.DepositCredits` | backend/internal/service/wallet_service.go:52-99 | Validation, increment, cache write and row in this order, and what is left behind when one is lost or lands unseen |
| `Wallet.DepositOutcome` | backend/internal/service/wallet_service.go:52-99 | Which check or write each error is due to; what lands adds the amount to this balance only, and one deposit row of this user and amount with the new balance and no session, which is what the caller gets |
| `Ledger.DepositAgreesIff` | backend/internal/service/wallet_service.go:70-98 | A deposit keeps balances equal to ledger sums unless, and only unless, its increment lands and its row does not: the increment's reply or the row is lost |
| `Ledger.SettledAgreesIff` | backend/internal/service/wallet_service.go:136-195 | k of the five writes keep them equal if and only if k is 0 or at least 4 (or 3, if the mentor earns nothing) |
| `Ledger.FinalizeFailureAgreesIff` | backend/internal/service/wallet_service.go:197-225 | A failed finalisation keeps them equal if and only if its fallback landed nothing or got its fourth write landed (its third, if the mentor earns nothing) |
| `Ledger.RunningSnocIff` | backend/internal/service/wallet_service.go:82-92 | A new row keeps all running balances right if and only if its own is |
| `Marketplace.RunKeeps` | backend/internal/service/wallet_service.go:70-195 | In every run of atomic operations: each balance is the sum of its rows, each row's running balance is the prefix sum of its user's rows, a finalised session has exactly one debit and one payout row that sum to minus its fee, any other room has none |
| `Marketplace.FinishRunning` | backend/internal/service/wallet_service.go:147-189 | The running balances of a settlement's two rows are right because client and mentor differ |
| `MarketSteps.OpensIffAccepted` | backend/internal/service/matchmaker_service.go:99-162 | The marketplace opens a session if and only if AcceptSOS on the same request, with all calls landing, succeeds and the mentor has an account; it is the session AcceptSOS returns |
| `MarketSteps.OpensIff` | backend/internal/service/matchmaker_service.go:100-130 | The same with its conditions written out: a mentor, an open request that still exists, of somebody else |
| `MarketSteps.PublishedIff` | backend/internal/service/matchmaker_service.go:53-77 | A request is published, and the balance cached, if and only if the balance covers three minutes |
| `MarketSteps.RegistrationOpensAccount` | backend/internal/service/auth_service.go:109-117 | A new user starts with a balance of 0 |
| `MarketSteps.RemovedOpensNothing` | backend/internal/repository/mongodb/db.go:82-85 | A request that the TTL index removed opens no session |
| `MarketSteps.TickTakes` | backend/internal/service/ticker_engine.go:78-78 | A tick takes its cost from the cached balance of the room's client and nothing else |
| `MarketSteps.DepositRows` | backend/internal/service/wallet_service.go:82-92 | In every run, the rows without a session are deposits and add up to everything that was deposited |
| `Marketplace.RequestDesk.CreateSOS` | backend/internal/service/matchmaker_service.go:53-90 | The three-minute gate on the balance that was read, its errors, and the cache write; it is the state machine's step when that balance is current and nothing fails |
| `MarketLaws.Conservation` | backend/internal/service/wallet_service.go:117-128 | In every run, the balances of all users plus the fees recorded on sessions equal the sum of all deposits |
| `MarketLaws.FinalizedStays` | backend/internal/service/wallet_service.go:107-109 | No event changes a session that has left ACTIVE, and only a settlement of a room changes its session |
| `MarketLaws.SettledOnce` | backend/internal/service/wallet_service.go:107-132 | Whatever events follow, a finalised session keeps its status and summary and has exactly one debit and one payout row |
| `MarketLaws.CacheAccounting` | backend/internal/service/ticker_engine.go:78-78 | In every reachable state: stored balance = cached balance + ticks drained + payouts credited since the last cache write |
| `MarketLaws.CacheNeverExceeds` | backend/internal/service/wallet_service.go:206-223 | With positive rates the cache never exceeds the stored balance, and equals it if and only if nothing was drained or credited since it was written |
| `MarketLaws.FundedRun` | backend/internal/service/matchmaker_service.go:54-56 | No event other than a debit of the client takes away the three minutes that the gate found |
| `MarketLaws.ThreeMinutesAreCovered` | backend/internal/service/matchmaker_service.go:138-144 | A client who passed the gate and was not debited for another session has a non-negative balance after any session of that request settled within 180 s |
| `LedgerSteps.BalanceIsLedgerPlusPending` | backend/internal/service/wallet_service.go:136-195 | With every call its own step and any of them lost or landing unseen: each balance is the sum of its rows plus the increments not yet logged |
| `LedgerSteps.RepliesDecide` | backend/internal/service/wallet_service.go:136-195 | A lost write changes nothing, one that lands unseen what an acknowledged one does, both end the operation for good; a read ends nothing |
| `LoneOperations.LoneSettlement` | backend/internal/service/wallet_service.go:136-195 | The calls of a settlement that nothing interleaves with are one pass of the five writes, for all replies |
| `LoneOperations.LoneDeposit` | backend/internal/service/wallet_service.go:70-98 | The calls of a deposit that nothing interleaves with are the service's deposit, for all replies |
| `LedgerSteps.QuiescentAgreesIff` | backend/internal/service/wallet_service.go:70-98 | With nothing in flight, balances equal ledger sums if and only if the operations that died leave nothing pending for any user |
| `LedgerSteps.FinishedAgrees` | backend/internal/service/wallet_service.go:70-98 | When all operations have run to their end, balances equal ledger sums, even if finalisers overlapped |
| `SettlementOverlap.SettledOnceIffExclusive` | backend/internal/service/wallet_service.go:107-195 | Throughout a run, the calls under way can never debit a room twice if and only if settlements of it pass the ACTIVE check only while no other is in flight and none has died between its debit row and the completion |
| `SettlementOverlap.AtMostOnceIff` | backend/internal/service/wallet_service.go:136-195 | At any moment, every continuation by calls debits the room at most once if and only if at most one settlement of it has its debit row or may still get it |
| `SettlementOverlap.ExclusiveRows` | backend/internal/service/wallet_service.go:161-191 | Under that discipline a session has at most one debit and one payout row |
| `SettlementOverlap.RowsAreCalls` | backend/internal/service/wallet_service.go:161-191 | In every run there is one debit row, and one payout row, for each settlement that got as far as that |
| `SettlementOverlap.SettledTwice` | backend/internal/service/wallet_service.go:107-109 | A run from the initial state: two finalisers check before either completes, and both debit the client and pay the mentor |
| `RunningBalances.RunningBalanceIff` | backend/internal/service/wallet_service.go:147-189 | In every interleaving of calls: all running balances are prefix sums if and only if, for every row, rows of the same total have been logged since its balance was read as increments of others were pending then |
| `RunningBalances.UndisturbedRuns` | backend/internal/service/wallet_service.go:70-96 | They are, in particular, if no other operation of a row's user was pending at the read and none has logged a row since |
| `RunningBalances.RowRightIff` | backend/internal/service/wallet_service.go:70-96 | The next row of an operation gets the right running balance if and only if the ledger has caught up with the balance it read |
| `RunningBalances.OverlappingDeposits` | backend/internal/service/wallet_service.go:70-86 | A run from the initial state: two overlapping deposits keep balance and ledger equal and write a wrong running balance |
| `Ticker.DrainSpends` | backend/internal/service/ticker_engine.go:71-101 | Every decrement that lands, answered or not, and nothing else, takes one interval's cost from the cached balance |
| `Ticker.DrainEnds` | backend/internal/service/ticker_engine.go:71-101 | The loop stops exactly at a cancellation, and runs out at the first answered tick that leaves nothing |
| `Ticker.OverdrawnByLess` | backend/internal/service/ticker_engine.go:78-99 | A positive balance is overdrawn by less than one interval, and by one more for each decrement that landed unanswered |
| `Ticker.RanOutAtCeiling` | backend/internal/service/ticker_engine.go:78-99 | A balance B runs out at the first answered tick by which ceil(B / c) decrements have landed, and at no other |
| `Ticker.ExhaustedAtCeiling` | backend/internal/service/ticker_engine.go:71-101 | An uncancelled ticker exhausts B if and only if a tick is answered after ceil(B / c) decrements; if all are answered, it is the tick of that number |
| `Ticker.SettlementCharges` | backend/internal/service/wallet_service.go:111-145 | A finalisation without error takes the charge from the client, once more after a commit that went through unseen, and sets the status its caller asked for |
| `Ticker.ExhaustionSettles` | backend/internal/service/ticker_engine.go:90-99 | From the store before the first tick to the one the goroutine leaves: undisturbed exhaustion ends EXHAUSTED with the stored balance in (-(r + 11n/12), 0], less what the session costs for lasting longer than its ticks and less a second charge after an unseen commit; the refreshed cache shows it |
| `TickerClock.TicksFit` | backend/internal/service/ticker_engine.go:62-63 | In every orderly run of the registry, however late ticks are handled, a room's tickers together handle at most one in an interval on average, restarts included |
| `TickerClock.TickCounts` | backend/internal/service/ticker_engine.go:62-78 | A tick counts exactly if its ticker is in its loop, five seconds later than the one before was due |
| `TickerClock.StoreStartsClock` | backend/internal/service/ticker_engine.go:51-62 | A ticker's clock starts when it is stored |
| `TickerClock.RestartsStayCovered` | backend/internal/service/ticker_engine.go:65-69 | However often a room's ticker is stopped and started within its session, the ticks never drain more than the final charge at 12 cents a minute or more |
| `Ticker.DecrByBalance` | backend/internal/repository/redis/balance_cache.go:37-40 | DECRBY, for each of the three replies: a missing key counts from zero |
| `Ticker.DrainLoop` | backend/internal/service/ticker_engine.go:66-101 | The select loop ends, and leaves the cache, as the specified drain does |
| `Ticker.DrainedCache` | backend/internal/service/ticker_engine.go:78-82 | The drain leaves the client's cached balance less one interval's cost per decrement that landed, and everything else as it was |
| `Ticker.BillingLoop` | backend/internal/service/ticker_engine.go:53-103 | The goroutine settles the session as exhausted if and only if the loop ran out |
| `TickerRegistry.ActiveRoomsAreAlive` | backend/internal/service/ticker_engine.go:36-119 | In every interleaving of loads, stores, cancels and deletes, an active room maps to one of its own tickers whose deferred delete has not run |
| `TickerRegistry.StoreDecides` | backend/internal/service/ticker_engine.go:37-51 | A step gives a room a second draining ticker if and only if it stores a ticker while another one of the room drains |
| `TickerRegistry.SerialRunsDrainOnce` | backend/internal/service/ticker_engine.go:36-114 | If starts begin only in quiet rooms, a room never has two draining tickers and each draining one can be found by a stop |
| `TickerRegistry.OverlappingStarts` | backend/internal/service/ticker_engine.go:37-51 | Two starts that both load before either stores leave two draining tickers |
| `TickerRegistry.FindableIff` | backend/internal/service/ticker_engine.go:36-114 | In every run, a draining ticker is the one its room is registered with, so that a stop finds it, if and only if no store, stop or deferred delete of the room took its entry away while it was draining |
| `TickerRegistry.StepRegistersIff` | backend/internal/service/ticker_engine.go:36-114 | A step leaves a draining ticker without its entry if and only if it takes the entry of one that goes on draining |
| `TickerRegistry.RestartBeforeLeave` | backend/internal/service/ticker_engine.go:54-57 | A run from the initial state: a restart before the old goroutine has left ends with a draining ticker that is reported inactive and that no stop can find |
| `Rooms.RoomHandlers.StartBillingTicker` | backend/internal/service/ticker_engine.go:36-51 | Registers the room unless it is registered |
| `Rooms.RoomHandlers.StopBillingTicker` | backend/internal/service/ticker_engine.go:107-114 | Afterwards the room is not registered; other rooms stay |
| `Rooms.RoomHandlers.ParticipantJoined` | backend/internal/handler/webhook_handler.go:51-56 | Starts a ticker exactly for an ACTIVE session without one, at its rate and against its client |
| `Rooms.RoomHandlers.RoomFinished` | backend/internal/handler/webhook_handler.go:58-60 | Stops the ticker and finalises as not exhausted, dropping the error but not the effect |
| `Rooms.RoomHandlers.EndSession` | backend/internal/handler/session_handler.go:115-152 | Who may end a session, that others and failing lookups change nothing, and that it stops the ticker and settles |
| `Rooms.EndsSettleOnce` | backend/internal/service/wallet_service.go:101-225 | A session that has ended has one debit row, one payout row, its client paid one bill and its mentor got its earnings, each if and only if that write landed in no end before the one that completed it and in only one of its passes (or nothing is earned) |
| `Rooms.EndsWrite` | backend/internal/service/wallet_service.go:101-225 | What any sequence of user ends, room_finished events and exhaustions takes, gives and writes, however their calls go: every end charges again until one completes the session |
| `Rooms.LostCompletionChargesTwice` | backend/internal/service/wallet_service.go:193-194 | A fallback whose last write is lost leaves the session ACTIVE, and the next end charges it again, without any overlap |
| `Frames.RoundTripIff` | frontend/src/hooks/use-websocket.ts:53-57 | Joining with newlines, splitting and skipping blanks is the identity if and only if every message is on one line and not blank |
| `Frames.SplitJoin` | frontend/src/hooks/use-websocket.ts:54-54 | Splitting loses nothing |
| `Frames.ParsedIsFront` | frontend/src/hooks/use-websocket.ts:55-72 | What is dispatched is the longest front part of the messages that parses |
| `Frames.SpaceIsListed` | frontend/src/hooks/use-websocket.ts:56-56 | Which characters trim removes, code point by code point |
| `Frames.MessagesAppend` | backend/internal/handler/ws_handler.go:298-303 | Adding a newline and a message to a frame adds exactly that message |
| `Frames.Browser.OnMessage` | frontend/src/hooks/use-websocket.ts:51-73 | Dispatches the frame's messages in order up to the first that does not parse |
| `Hub.EndToEnd` | backend/internal/handler/ws_handler.go:99-192 | In every interleaving of hub, pumps, networks and browsers: shown, under way and queued form a prefix of what was addressed, all of it while registered; queues never exceed 256; no channel is closed twice or sent to after closing |
| `Hub.DrainedMeansDelivered` | backend/internal/handler/ws_handler.go:283-307 | With nothing queued or under way, a registered client's browser has dispatched exactly what was addressed to it |
| `Hub.MailArrives` | backend/internal/handler/ws_handler.go:170-192 | What is addressed to a client, under the names that its own messages give it, is in order its mail since it registered; all of it while it is registered |
| `Hub.RoomMail` | backend/internal/handler/ws_handler.go:249-262 | The mail of a client that stays in a room, under any of the names that room messages carry, is exactly the messages to all, to its role or user, and those that others send to the room |
| `Hub.WhoElseHears` | backend/internal/handler/ws_handler.go:174-182 | Clients in no room hear every room, messages that name no room go to everybody else, nobody hears itself |
| `Hub.RoomInQueue` | backend/internal/handler/ws_handler.go:128-135 | An addressed client gets the message behind what is queued if fewer than 256 messages are, and is closed otherwise |
| `Hub.RegistrationEndsIff` | backend/internal/handler/ws_handler.go:109-135 | In every run, a registration ends if and only if the client unregisters or a broadcast addressed to it finds 256 messages queued |
| `Hub.PumpEnds` | backend/internal/handler/ws_handler.go:285-314 | What ends a write pump, and that nothing leaves the queue afterwards |
| `Hub.FrameArrives` | frontend/src/hooks/use-websocket.ts:51-73 | An arriving frame's messages are dispatched, up to the first that does not parse |
| `Hub.DeliverKeeps` | backend/internal/handler/ws_handler.go:128-135 | A full queue ends the client's registration instead of leaving a gap |
| `Hub.MoreMoves` | backend/internal/handler/ws_handler.go:300-303 | Moving a queued message into the open frame keeps the order |
| `Hub.FlushMoves` | backend/internal/handler/ws_handler.go:305-307 | Writing the frame keeps the order |
| `Hub.ArriveKeeps` | frontend/src/hooks/use-websocket.ts:51-73 | Dispatching a frame keeps the order |
| `HubService.FrameIsPumpSteps` | backend/internal/handler/ws_handler.go:283-307 | The pump's single steps, with nothing queued in between, send the whole queue as one joined frame |
| `HubService.EverythingDelivered` | backend/internal/handler/ws_handler.go:283-307 | From any state with an idle pump, writing one frame and letting frames arrive shows a registered client everything that was addressed to it |
| `HubService.WSClient.PumpFrame` | backend/internal/handler/ws_handler.go:285-307 | The counted loop empties the queue into one frame, its join |
| `HubService.WSHub.Register` | backend/internal/handler/ws_handler.go:103-107 | Adds the client |
| `HubService.WSHub.Unregister` | backend/internal/handler/ws_handler.go:109-116 | Removes a registered client and closes its channel; a second call does nothing |
| `HubService.WSHub.Broadcast` | backend/internal/handler/ws_handler.go:124-192 | Every addressed client with fewer than 256 messages queued gets the message and stays, one with 256 is closed and dropped; nobody else is touched |
| `Workspace.TrimIsInner` | frontend/src/app/room/[id]/page.tsx:530-532 | The file name is what was typed without the white space at both ends |
| `Workspace.ExtensionFollowsLastDot` | frontend/src/app/room/[id]/page.tsx:533-533 | The extension is what follows the last dot, or the whole name |
| `Workspace.LanguageByExtension` | frontend/src/app/room/[id]/page.tsx:533-537 | .go is Go, .ts and .js are TypeScript, everything else is text |
| `Workspace.CreationSelects` | frontend/src/app/room/[id]/page.tsx:528-556 | A new file, with its trimmed name, language and first line, is added at the end, selected and sent; a blank name creates none |
| `Workspace.DeletionSelects` | frontend/src/app/room/[id]/page.tsx:559-601 | Deletion takes exactly this file out and tells the peer, never the last one; another file's deletion leaves the selection alone, the selected one's selects the earliest left |
| `Workspace.ChoiceSelects` | frontend/src/app/room/[id]/page.tsx:1103-1103 | Choosing a file selects it and changes nothing else |
| `Workspace.EditorShows` | frontend/src/app/room/[id]/page.tsx:178-178 | The editor shows the selected file, or the first one if the selected one is gone |
| `Workspace.Room.WriteActive` | frontend/src/app/room/[id]/page.tsx:430-443 | The code goes into the active file only, and to the peer |
| `Workspace.Room.PushHistory` | frontend/src/app/room/[id]/page.tsx:420-428 | Starts a history if there is none, drops the redo part and pushes |
| `Workspace.Room.HandleCodeChange` | frontend/src/app/room/[id]/page.tsx:415-456 | An edit has the specified effect on files, histories and messages, opens the edit window and sets a timer of its own |
| `Workspace.Room.Undo` | frontend/src/app/room/[id]/page.tsx:459-479 | Undo has the specified effect |
| `Workspace.Room.Redo` | frontend/src/app/room/[id]/page.tsx:482-502 | Redo has the specified effect |
| `Workspace.Room.CreateFile` | frontend/src/app/room/[id]/page.tsx:528-556 | A blank name creates nothing; otherwise the file is added, selected and sent |
| `Workspace.Room.DeleteFile` | frontend/src/app/room/[id]/page.tsx:559-601 | The last file stays; deleting the active one selects the first that is left |
| `Workspace.Room.OnCodeChange` | frontend/src/app/room/[id]/page.tsx:332-342 | A remote change is applied unless it has no code or a local edit is recent |
| `Workspace.Room.OnFileCreate` | frontend/src/app/room/[id]/page.tsx:345-354 | A remote file is added unless its id is known or a local edit is recent |
| `Workspace.Room.OnFileDelete` | frontend/src/app/room/[id]/page.tsx:357-365 | A remote deletion removes the file unless a local edit is recent |
| `Workspace.Room.TimerFires` | frontend/src/app/room/[id]/page.tsx:445-447 | The oldest timer whose time has come shuts the edit window and is used up; nothing else changes |
| `Workspace.FullWindowIff` | frontend/src/app/room/[id]/page.tsx:445-447 | A keystroke shuts the peer out for its whole fifty milliseconds if and only if no timer of an earlier keystroke may still run before they are over: timers are not cancelled |
| `Workspace.NoTimersShut` | frontend/src/app/room/[id]/page.tsx:445-447 | Once all timers have run, remote changes are let in |
| `UndoRedo.HistoriesAreZippers` | frontend/src/app/room/[id]/page.tsx:415-502 | Any run of edits, undos, redos, selections, creations and deletions acts on each surviving file's history as a zipper of that file's own actions; its content is the zipper's present and indices stay in bounds |
| `UndoRedo.EditRefines` | frontend/src/app/room/[id]/page.tsx:419-434 | An edit is a push on the active file's zipper and nothing on any other |
| `UndoRedo.UndoRefines` | frontend/src/app/room/[id]/page.tsx:459-479 | Undo is one step back on the active file's zipper and nothing on any other |
| `UndoRedo.RedoRefines` | frontend/src/app/room/[id]/page.tsx:482-502 | Redo is one step forward on the active file's zipper and nothing on any other |
| `UndoRedo.BackForwardInverse` | frontend/src/app/room/[id]/page.tsx:459-502 | Undo and redo undo each other where they are enabled |
| `UndoRedo.EditsUndone` | frontend/src/app/room/[id]/page.tsx:415-479 | k edits and k undos restore content and past, and leave exactly those edits to redo |
| `UndoRedo.EditDiscardsRedo` | frontend/src/app/room/[id]/page.tsx:424-428 | An edit discards exactly the redo part |
| `UndoRedo.RemoteEditKeepsIff` | frontend/src/app/room/[id]/page.tsx:332-342 | A peer's edit keeps content and history in step if and only if the file has no history or already showed that content |
| `Replication.SingleWriterReplication` | frontend/src/app/room/[id]/page.tsx:330-365 | After every prefix of a single writer's messages the peer has the writer's files of that moment, distinct and in order, except contents that are empty; after all of them the lists are equal if and only if no file now empty was ever filled |
| `Replication.RunInStep` | frontend/src/app/room/[id]/page.tsx:430-601 | In any run of the writer the peer that received everything is in step, and its empty files are exactly the ones never filled |
| `Replication.PrefixMirrors` | frontend/src/app/room/[id]/page.tsx:330-365 | Every prefix of the messages is the outbox of some moment of the writer, and the peer mirrors that moment |
| `Replication.ClearingIsLost` | backend/internal/handler/ws_handler.go:41-41 | Clearing a filled file never reaches the peer: the server omits an empty code when it encodes the message again |
| `LiveEditing.PeerSeesAPastMoment` | backend/internal/handler/ws_handler.go:257-263 | Whatever else is sent to or by the peer, through queues, batching, wires and disconnects: if the file messages among its mail are one writer's, its page always shows some past moment of the writer |
| `LiveEditing.ShownIsMail` | backend/internal/handler/ws_handler.go:170-192 | What a browser has dispatched is a prefix of its mail |
| `RateLimiter.Limiter.Limit` | backend/internal/middleware/rate_limiter.go:26-46 | Counts the request in the window it falls into and admits it if and only if the counter is within the limit |
| `RateLimiter.CounterIsArrivals` | backend/internal/middleware/rate_limiter.go:34-36 | A key's counter is the number of its requests in the current window |
| `RateLimiter.FirstOfEachWindow` | backend/internal/middleware/rate_limiter.go:26-46 | Each window admits exactly the first `limit` requests of each key |
| `RateLimiter.TwoWindowsApart` | backend/internal/middleware/rate_limiter.go:29-32 | Requests two windows apart are more than a minute apart |
| `RateLimiter.AtMostTwiceTheLimit` | backend/internal/middleware/rate_limiter.go:26-46 | Any span of at most a minute admits at most twice the limit per key |
| `RateLimiter.DecidedAloneIff` | backend/internal/middleware/rate_limiter.go:29-39 | All requests of a key are decided as if the other keys were absent, under any limit, if and only if the others do not change where the key's counts begin |
| `RateLimiter.KeysIndependentIff` | backend/internal/middleware/rate_limiter.go:29-36 | The limiter's state, reset time included, looks to a key throughout a trace as if other keys were absent if and only if no other key resets the counters |
| `RateLimiter.OtherKeysDoNotCount` | backend/internal/middleware/rate_limiter.go:34-36 | Then every request of the key is also decided as if the others were absent |
| `RateLimiter.KeysShareWindows` | backend/internal/middleware/rate_limiter.go:29-32 | A request can be admitted only because another key reset the counters early |
| `Reviews.ReviewService.CreateReview` | backend/internal/service/review_service.go:33-95 | Exactly when a review is accepted, and the whole new state, for each reply to the insert and with or without the recomputation; an invalid one changes nothing |
| `Reviews.AttemptStores` | backend/internal/service/review_service.go:33-73 | When an attempt stores a review, and that it is of this session, client, mentor and rating |
| `Reviews.ReviewService.Recompute` | backend/internal/service/review_service.go:76-92 | The mentor's average and number of reviews are those of all reviews of the mentor, if the calls work; nobody else changes |
| `Reviews.ReviewsOfSnoc` | backend/internal/service/review_service.go:76-76 | A mentor's reviews are the stored ones of this mentor, in order |
| `Reviews.ReviewService.SumRatings` | backend/internal/service/review_service.go:78-81 | The loop sums the ratings |
| `Reviews.RunKeepsRatings` | backend/internal/service/review_service.go:56-92 | After any attempts, however their calls go: at most one review per session, ratings within 1 to 5, unchanged balances |
| `Reviews.CurrentIff` | backend/internal/service/review_service.go:76-92 | A profile always shows a first part of the mentor's reviews, and all of them if and only if the last one stored was followed by a recomputation |
| `Reviews.AverageIsClose` | backend/internal/service/review_service.go:82-89 | The stored average in tenths is floor((20 sum + n)/(2n)) of the first n = total reviews, lies between 10 and 50 and within half a tenth of their mean; n is the number of reviews if and only if the profile is up to date |
| `Reviews.MeanIsClose` | backend/internal/service/review_service.go:82-84 | The rounded mean of any reviews in tenths is floor((20 sum + n)/(2n)), lies between 10 and 50 and within half a tenth of the mean |
| `Reviews.RoundIsClose` | backend/internal/service/review_service.go:83-84 | Rounding moves a quotient by at most a half and respects the range |

## Left out

- 64-bit overflow of amounts, and the floating-point results of `math.Ceil`, `math.Round` and the conversion of `rate / 12.0`.
- The 24 h expiry of cached balances.
- The driver's own retries of a transaction's closure and of its commit: what counts is how the last ones end.
- `Marketplace` operations are atomic and their repositories do not fail; failures are in `Wallet`, `Ledger` and `Rooms`, single database calls in `LedgerSteps`.
- `LedgerSteps` has no balance cache and does not roll back: it is the fallback path, where every call is visible at once, and a retried operation is a new one.
- `ReleaseRequestLock`, which nothing calls, and the request's own status changes outside `AcceptSOS`.
- LiveKit tokens: an `AcceptSOS` whose token creation fails has the effect of an insert that landed unseen.
- Publishing events to Redis after an operation, and the order in which they reach the hub.
- `EndSession` tries three lookups, by id, by request id and by room name; here one of them finds the session or none does, and the user is already authenticated.
- Webhook decoding and unknown webhook events, which change nothing.
- Broadcasts that overlap under the read lock, ping frames, deadlines and the 64 KB read limit.
- Reconnecting browsers: a new connection is a new client with an empty history.
- The listeners of the browser's hook: a dispatched message counts as delivered to whoever subscribed.
- Two participants who edit at the same time: contents are overwritten, so no convergence holds; edit windows are not combined with deliveries over runs.
- Auto-save, the confirmation dialog of a deletion (one step here), chat messages, keyboard shortcuts and rendering delays between state and refs.
- Which identifiers the two pages of a room use: `Hub.RoomMail` says which ones reach whom, and `LiveEditing` speaks about the messages that reach the peer.
- HTTP, authentication, configuration, logging, dashboards and media: input and output without state worth a proof.
- The operations' log lines and warnings, such as the low-balance alert.

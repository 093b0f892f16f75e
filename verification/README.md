# Verification of the Predictify hybrid contract

A Dafny model of the stateful core of the prediction-market contract in
`contracts/predictify-hybrid`, with proofs of what it keeps over every sequence of calls.

* **Betting ledger** (`BetLedger`, `BetInvariant`, `BetRecord`, `BetCover`, `BetResolution`, `BetPayout`,
  `BetBatch`, `BetBatchRecord`, `BetRuns`, `BetCoverRuns`, `BetGuarantees`, `BetCalls`, `BetSolvency`, `BetWitnesses`,
  `BetManager`). `BetLedger` gives each call of `bets.rs` and `balances.rs` as a function from stored state to stored
  state or error. `BetManager` is the stateful contract: fields, loops and writes in the order of the source, each
  method proved to do what its function says, including the untouched state after an error, and to keep the
  accounts in order. The other modules prove the properties in three layers. Without any condition on the calls,
  over every run: the market records are in order (`BetRecord`), every token is accounted for, the contract can pay
  what it owes, and the statistics cover the Active bets, so no subtraction saturates (`BetCover`). As long as a
  market is not resolved over a cancelled bet: its statistics cover all bets not cancelled, so its payouts, with
  ties, fit in its pool.
  Where, moreover, batches name the market once and it is resolved only with all bets at stake: stored bets,
  registry, statistics and market record agree exactly. `BetCalls` says what each call changes and what each of its
  errors means, on the stored fields. A batch is shown to be the loop of single bets.
* **Circuit breaker** (`BreakerState`, `BreakerRuns`, `CircuitBreaker`). The timed machine with probe counting and
  quota window, and theorems about whole histories of calls. `CircuitBreaker.GateAgrees` ties it to the gate the
  ledger consults.
* **Audit trail** (`AuditTrail`). The hash chain, its verifier loop, and exactly which tampering is noticed.
* **Administration** (`AdminRegistry`, `AdminManager`, `Governance`, `MultisigManager`, `DisputeMultiSig`). Role
  assignments with their list and count, M-of-N actions, the delayed threshold change, dispute approval.
* **Batch statistics and payout helpers** (`BatchStatistics`, `PayoutUtils`). The drift of the re-rounded average,
  and the saturating payout helpers of the repository's top-level `utils.rs`.

`Common` holds the shared vocabulary and the arithmetic of floored division. `dafny verify dfyconfig.toml` checks
the project.

## What an error does

The host rolls back a call that returns an error or traps, so every specification function returns either a new
state or an error, and `Follows` (in `Common`) says that a method leaves its old state on an error. `Trap` stands for
a host abort: the release profile enables overflow checks (`Cargo.toml`, line 12), so a plain `+=` that overflows
aborts, and so does a refused token transfer.

## Where the code and its own words disagree

The model follows the code. Each point names a lemma saying exactly when the code does what its words say (for the
quota exit and for execution, exactly what it does instead), and one that reaches the other case from deployment.

* A maximum fee of 0 is commented as "no slippage guard", but a second check still runs (`ZeroMaxFeeBetIff`,
  `ZeroMaxFeeBatchIff`, `ZeroMaxFeeWitness`). That check also ignores the `fees_enabled` switch
  and reads another legacy key than the first (`GuardsPassIff`, `DisabledFeeWitness`).
* A batch checks duplicates against storage only and writes stale market snapshots: naming a market twice breaks
  the index, and the user pays for the replaced entry (`BatchKeepsInvIff`, `ForfeitIff`, `RepeatedMarketWitness`).
* Resolution has no status test, so it turns cancelled and refunded bets into Won or Lost ones
  (`ResolveKeepsInvIff`, `ResolveWitness`). A revived cancelled bet on a winning outcome can be paid beyond the pool
  (`RevivedBetsOverdrawPool`, `OverdrawWitness`).
* `half_open_since` is not zero in every state other than HalfOpen (`SinceKeptIff`, `SinceHoldsIff`, `StampWitness`).
* The quota exit of HalfOpen never takes effect. The admission helper closes the breaker exactly when it refuses, and
  every contract call turns a refusal into an error, so the host undoes the closing: no request ends HalfOpen
  (`QuotaNeverReopens`, `HalfOpenEndsIff`, `QuotaWitness`). The helper's other branch, which would reopen
  the breaker, is dead, because storing a state that is not HalfOpen wipes the failure count just written.
* `migrate_to_multi_admin` forgets admins added before it (`MigrateKeepsIndexIff`, `MigrateWitness`). A transfer to a
  listed lesser admin makes enumeration and lookup disagree (`TransferKeepsOriginalIff`, `TransferWitness`).
* The guards for the last SuperAdmin act on every one (`DowngradeGuardIff`, `SelfRemovalGuardIff`,
  `StepDownWitness`).
* Executing an action asks neither for permission nor for freshness; expiry only limits approvals
  (`ExecutableIff`, `StaleExecutionWitness`). Removing admins can leave the threshold out of reach
  (`RemovalStrandsThresholdIff`, `StrandedWitness`).
* `configure` of a dispute counts repeated signers, so it accepts entries nobody can ever approve (`ApprovableIff`,
  `UnapprovableWitness`).

## Model

| member | source | states |
|---|---|---|
| `BetRuns.RunConserves` | contracts/predictify-hybrid/src/bets.rs:287-904 | Over every run whatsoever of deposits, withdrawals, bets, batches, cancellations, refunds, resolutions, limit changes, market openings and declarations, clock, fee and breaker changes (failed calls rolled back): the vault keeps its surplus over internal balances and recorded pools, plus what repeated batch entries forfeited, and every user keeps wallet + balance + recorded stakes, less what that user forfeited |
| `BetRuns.RunRecords` | contracts/predictify-hybrid/src/bets.rs:357-365 | Over every run whatsoever: registry duplicate-free and equal to the stored bets, amounts inside the absolute bounds, votes and stakes with the same keys, each recorded stake the amount of a bet that was not given back, every Active bet recorded, total_staked the sum of the stakes map; no forfeit is negative |
| `BetRuns.RunKeepsBook` | contracts/predictify-hybrid/src/bets.rs:287-904 | Over every run that is sound on one market (batches name it at most once, it is resolved only while all its bets are at stake), whatever happens on the others: total_bets, unique_bettors, total_amount_locked and outcome_totals of that market equal the recomputation over its non-cancelled bets, an outcome is a key exactly when its sum is positive, votes and stakes are exactly those of the bets at stake, total_staked their sum |
| `BetRuns.RunKeeps` | contracts/predictify-hybrid/src/bets.rs:287-904 | The same for all markets at once, where every recorded pool is the sum of the Active, Won and Lost amounts |
| `BetRuns.LedgerConservation` | contracts/predictify-hybrid/src/balances.rs:57-184 | From deployment, after any run whatsoever, vault = initial vault + sum of internal balances + sum of recorded pools + forfeits of repeated batch entries |
| `BetRuns.ForfeitIff` | contracts/predictify-hybrid/src/bets.rs:453-520 | A call forfeits nothing if and only if it is not a successful batch naming a market twice |
| `BetRuns.NoForfeitsIff` | contracts/predictify-hybrid/src/bets.rs:453-520 | A run forfeits nothing if and only if none of its successful batches names a market twice |
| `BetSolvency.RunPayoutsAreCovered` | contracts/predictify-hybrid/src/bets.rs:743-787 | From deployment, after any run in which this market was not resolved over a cancelled bet (repeated batch entries and refunds included, anything on other markets): settling it once declared, with no cancelled bet on a winning outcome, its payouts fit in its pool, payouts + all internal balances + all other pools fit in the vault, whatever the historical fee rates, and no claim on it errors |
| `BetSolvency.FundedPayoutsAreCovered` | contracts/predictify-hybrid/src/bets.rs:743-787 | The same from any funded state in which this market's statistics cover its non-cancelled bets |
| `BetCoverRuns.RunCovers` | contracts/predictify-hybrid/src/bets.rs:287-904 | Over every run whatsoever counters, total_amount_locked and every outcome total are at least the number and sums of the Active bets and inside their widths; over every run that does not resolve the market over a cancelled bet they are at least those of all non-cancelled bets |
| `BetRuns.BatchKeepsInvIff` | contracts/predictify-hybrid/src/bets.rs:453-520 | A successful batch keeps the ledger invariant if and only if it names no market twice (duplicates are checked against storage only) |
| `BetRuns.ResolveKeepsInvIff` | contracts/predictify-hybrid/src/bets.rs:621-681 | Resolving keeps the ledger invariant if and only if no registered bet of the market was cancelled or refunded (the walk has no status test) |
| `BetRuns.StepRecords` | contracts/predictify-hybrid/src/bets.rs:287-904 | Any single call, sound or not, keeps the market records in order and accounts for every token |
| `BetRuns.StepKeepsBook` | contracts/predictify-hybrid/src/bets.rs:287-904 | Any single call that is sound on a market keeps that market's statistics and record in agreement with its bets |
| `BetGuarantees.RunStaysFunded` | contracts/predictify-hybrid/src/bets.rs:1200-1240 | A contract that holds at least what it owes does so after every run whatsoever, repeated batch markets and revived bets included |
| `BetGuarantees.PlaceAcceptedIff` | contracts/predictify-hybrid/src/bets.rs:301-371 | On a market in order a bet is accepted if and only if the breaker allows it, both fee checks pass on the stored fee entries (`FirstFeeCheck`, `SecondFeeCheck`), the market is active, well formed, before its effective deadline and without a result, the outcome is known, the amount is within the limits of the event, else the global, else the absolute ones, and in the wallet, there is no bet other than a cancelled one, and the 32-bit counter has room |
| `BetBatch.GuardsPassIff` | contracts/predictify-hybrid/src/bets.rs:1157-1173 | The fee guards read the stored entries so: first check passes for a non-positive maximum, switched-off fees or a percentage up to the maximum, of the contract configuration or else the fee configuration; the second compares the contract configuration's percentage whether or not fees are on, else the legacy entry, else 200 |
| `BetGuarantees.WithdrawAlwaysCovered` | contracts/predictify-hybrid/src/balances.rs:138-184 | When funded, a withdrawal succeeds if and only if the breaker admits it, withdrawals are on, the asset is supported and 0 < amount <= the internal balance |
| `BetGuarantees.CancelAlwaysCovered` | contracts/predictify-hybrid/src/bets.rs:827-875 | When funded, cancelling succeeds if and only if the breaker admits it, the bet is Active, the market exists and its end time is not reached |
| `BetGuarantees.RefundAlwaysCovered` | contracts/predictify-hybrid/src/bets.rs:693-727 | When funded, refunding succeeds if and only if the market exists |
| `BetCalls.WithdrawEffect` | contracts/predictify-hybrid/src/balances.rs:138-184 | On success the caller's balance falls by exactly the amount, that wallet rises by it, the vault falls by it, and every other wallet, balance, book, key and setting is unchanged |
| `BetCalls.WithdrawIff` | contracts/predictify-hybrid/src/balances.rs:138-184 | A withdrawal succeeds if and only if breaker and pause options allow it, the asset is supported and balance and vault cover a positive amount |
| `BetCalls.DepositEffect` | contracts/predictify-hybrid/src/balances.rs:57-107 | The same effect with the signs turned |
| `BetCalls.DepositIff` | contracts/predictify-hybrid/src/balances.rs:57-107 | A deposit succeeds if and only if the breaker allows it, the asset is supported and a positive amount of at most half the 128-bit range is in the wallet and fits on the balance |
| `BetCalls.WithdrawErrors` | contracts/predictify-hybrid/src/balances.rs:138-184 | Each error of a withdrawal names a guard that fails |
| `BetCalls.DepositErrors` | contracts/predictify-hybrid/src/balances.rs:57-107 | Each error of a deposit names a guard that fails |
| `BetCalls.PlaceEffect` | contracts/predictify-hybrid/src/bets.rs:301-371 | A bet moves exactly its amount from wallet to vault and stores exactly the bet asked for, Active and stamped with the time; every other bet, market and setting stays |
| `BetCalls.PlaceErrors` | contracts/predictify-hybrid/src/bets.rs:301-371 | Each error of a bet names a guard that fails, on the stored fields |
| `BetCalls.BatchAcceptedIff` | contracts/predictify-hybrid/src/bets.rs:410-535 | In an ordered ledger a batch, repeated markets included, is accepted if and only if breaker, both fee checks, size and key allow it, every entry is valid as it stands, the wallet covers the sum, and every market's 32-bit counter has room for the entries naming it |
| `BetGuarantees.ValidIff` | contracts/predictify-hybrid/src/bets.rs:1053-1131 | An entry is valid if and only if its market exists and takes bets at the moment, knows the outcome, the amount is within the limits in force on the stored entries, and the user has no bet there other than a cancelled one |
| `BetCalls.BatchErrors` | contracts/predictify-hybrid/src/bets.rs:410-535 | Each error of a batch names a guard that fails: breaker, used key, fee, size, one of the entries, the funds for the whole, or the third pass |
| `BetCalls.CancelEffect` | contracts/predictify-hybrid/src/bets.rs:827-875 | A cancellation pays exactly the bet's amount back and changes its status only; every other bet, market and setting stays |
| `BetCalls.CancelErrors` | contracts/predictify-hybrid/src/bets.rs:827-875 | Each error of a cancellation names a guard that fails |
| `BetCalls.RefundEffect` | contracts/predictify-hybrid/src/bets.rs:693-727 | A refund changes the status of exactly the Active bets, and nothing of other bets, other markets, internal balances or settings |
| `BetCalls.ResolveEffect` | contracts/predictify-hybrid/src/bets.rs:621-681 | A resolution settles every bet of its market and changes nothing else |
| `BetInvariant.PlaceKeepsBook` | contracts/predictify-hybrid/src/bets.rs:340-369 | A recorded bet (also one replacing a cancelled bet) keeps: registry duplicate-free and equal to the stored bets; total_bets = unique_bettors = number and total_amount_locked = sum of non-cancelled bets; an outcome is a key exactly when its sum is positive, with that sum; votes and stakes exactly of the users at stake; total_staked = their sum |
| `BetInvariant.CancelKeepsBook` | contracts/predictify-hybrid/src/bets.rs:850-904 | Cancelling an Active bet keeps the same five-view agreement, including removal of an emptied outcome key |
| `BetInvariant.RefundKeepsBook` | contracts/predictify-hybrid/src/bets.rs:697-710 | Refunding an Active bet keeps it too, although the statistics are not touched: they go on counting refunded bets while total_staked does not |
| `BetRecord.PlaceRecords` | contracts/predictify-hybrid/src/bets.rs:347-367 | Recording a bet, even over an earlier entry of the same batch and against its stale snapshot, leaves the record in order, holding the snapshot's pool plus the last bet |
| `BetRecord.LeaveRecords` | contracts/predictify-hybrid/src/bets.rs:697-710 | Giving back an Active bet takes exactly its amount off pool and stakes, with no saturation |
| `BetRecord.ResolveRecords` | contracts/predictify-hybrid/src/bets.rs:631-644 | Resolution keeps the record in order and moves no stake, even where it revives bets |
| `BetInvariant.PlaceSucceedsIff` | contracts/predictify-hybrid/src/bets.rs:582-605 | In an ordered book recording a bet within the absolute bounds fails if and only if the 32-bit bet counter is full: no 128-bit addition can overflow |
| `BetCoverRuns.LeavesExactly` | contracts/predictify-hybrid/src/bets.rs:887-898 | In every state reachable from deployment, by whatever calls, every saturating subtraction that cancelling or refunding an Active bet makes is exact |
| `BetInvariant.BookBounds` | contracts/predictify-hybrid/src/bets.rs:33-37 | 0 <= pool <= locked <= (2^32-1) * MAX_BET_AMOUNT and each outcome sum lies between 0 and locked |
| `BetInvariant.StoreTotal` | contracts/predictify-hybrid/src/bets.rs:917-988 | Storing a bet changes every recomputed sum by its weight minus that of the bet it replaces, whether or not the user was registered |
| `BetResolution.ResolvePointwise` | contracts/predictify-hybrid/src/bets.rs:632-644 | The walk over any list of registered users settles exactly their bets and nothing else, so order and repetition are irrelevant |
| `BetResolution.ResolveTwice` | contracts/predictify-hybrid/src/bets.rs:621-681 | Resolving again with the same outcomes changes nothing |
| `BetResolution.ResolveKeepsBookIff` | contracts/predictify-hybrid/src/bets.rs:631-644 | A resolved book is still in order if and only if all its bets were Active, Won or Lost |
| `BetResolution.WonAmountExactIff` | contracts/predictify-hybrid/src/bets.rs:631-644 | After resolution the Won stakes on a winning outcome add up to its outcome total if and only if no registered bet on it is cancelled |
| `BetPayout.PayoutsFitPool` | contracts/predictify-hybrid/src/bets.rs:743-787 | With market record in order, statistics covering the bets (they need not agree) and no cancelled bet on a winning outcome, all payouts over all (tied) winning outcomes sum to at most the pool for arbitrary per-timestamp fee rates within 0..10000, and no payout call fails |
| `BetPayout.PayoutsAndFeeFitPool` | contracts/predictify-hybrid/src/bets.rs:774-785 | Under the same conditions and one fee rate, payouts + fee <= pool |
| `BetPayout.PayoutsAndFeeFillPool` | contracts/predictify-hybrid/src/bets.rs:774-785 | Where the statistics agree with the bets, also the dust bound: if every winning outcome has a counted bet the undistributed rest is at most (number of winning bets - 1) |
| `BetPayout.PayoutsAtLeast` | contracts/predictify-hybrid/src/bets.rs:774-785 | With one fee rate, any number of tied outcomes each having a counted bet, and any revived bets: payouts + fee >= pool + the floored shares of the revived stakes - (number of winning bets - 1), so these shares are paid beyond the pool up to dust |
| `BetPayout.RevivedBetsOverdrawPool` | contracts/predictify-hybrid/src/bets.rs:631-641 | With the whole pool on the one winning outcome and no fee, payouts equal the pool plus the cancelled stakes that resolution revived, so they fit the pool if and only if there is no cancelled bet on it |
| `BetPayout.PayoutValue` | contracts/predictify-hybrid/src/bets.rs:776-786 | The exact value of a winner's payout as a two-level floor, with every intermediate product inside 128 bits |
| `BetCalls.PayoutCases` | contracts/predictify-hybrid/src/bets.rs:743-787 | Only a user without a bet gets NothingToClaim; every bet that is not Won is worth exactly 0 at any stage; a Won one fails for a missing market or result only, and is worth 0 without winning outcomes or outcome total |
| `BetPayout.PaidOutByOutcome` | contracts/predictify-hybrid/src/bets.rs:743-787 | Payouts and winning bets grouped by winning outcome: none lost, none counted twice |
| `BetBatch.BatchRefinesSingles` | contracts/predictify-hybrid/src/bets.rs:410-535 | For pairwise distinct markets a batch succeeds if and only if 1 <= size <= 50, its key is new and the loop of single bets would succeed; it then ends in the loop's state plus the used key |
| `BetBatch.PlaceEachIff` | contracts/predictify-hybrid/src/bets.rs:301-371 | The loop of single bets succeeds if and only if every entry is valid and recordable in the starting state and the total is affordable; its final state in one equation |
| `BetBatch.ValidateBatchIff` | contracts/predictify-hybrid/src/bets.rs:453-483 | The first pass accepts if and only if each entry is valid on its own; the market snapshots and total it returns; the checked sum cannot fail |
| `BetBatch.BatchAdmittedIff` | contracts/predictify-hybrid/src/bets.rs:417-450 | A batch gets past its guards if and only if the breaker allows it, both fee checks pass on the stored fee entries, 1 <= size <= 50 and its key is new |
| `BetBatchRecord.BatchKeepsBookIff` | contracts/predictify-hybrid/src/bets.rs:453-520 | A stored batch keeps a market's book in order if and only if it names the market at most once; otherwise total_bets counts bets that do not exist |
| `BetBatchRecord.StoredRecords` | contracts/predictify-hybrid/src/bets.rs:491-520 | After the third pass every market's record is in order and holds its old pool plus the amount of the last entry naming it |
| `BetBatchRecord.OverpaidIff` | contracts/predictify-hybrid/src/bets.rs:453-520 | The amounts the user paid and no record holds are zero if and only if the batch names no market twice |
| `BetSolvency.ReplayRefused` | contracts/predictify-hybrid/src/bets.rs:421-425 | After a successful batch and any further calls, every batch of that user under the same key is an error and changes nothing |
| `BetGuarantees.PlaceThenCancel` | contracts/predictify-hybrid/src/bets.rs:827-904 | A bet placed and cancelled at once: cancelling succeeds and statistics (emptied outcome key included), market record, every wallet, the vault and all other markets are as before; only a cancelled bet and its registry entry remain |
| `BetGuarantees.StatsRoundTrip` | contracts/predictify-hybrid/src/bets.rs:878-904 | Counting a bet and taking it out again gives back the very same statistics, outcome keys included |
| `BetGuarantees.LockThenUnlock` | contracts/predictify-hybrid/src/bets.rs:1200-1238 | Locking succeeds if and only if the wallet covers the amount; unlocking it again then succeeds and restores every wallet and the vault |
| `BetGuarantees.RefundPaysEachOnce` | contracts/predictify-hybrid/src/bets.rs:693-727 | A refund pays each Active bettor exactly the amount and nobody else, leaves no Active bet and the statistics alone, and a second refund changes nothing at all |
| `BetGuarantees.FrozenRun` | contracts/predictify-hybrid/src/bets.rs:840-846 | From the end time on no sequence of other calls changes anything in the market's book, so payouts do not depend on it |
| `BetGuarantees.FrozenPool` | contracts/predictify-hybrid/src/bets.rs:1053-1096 | With resolutions and declarations of any kind included, pool, statistics, stakes and registry of an ended market stay; only bet statuses and the declared result move |
| `BetGuarantees.OutcomesAddUp` | contracts/predictify-hybrid/src/bets.rs:594-600 | The outcome totals sum to total_amount_locked |
| `BetGuarantees.ProbabilitiesAddUp` | contracts/predictify-hybrid/src/bets.rs:1293-1304 | The implied probabilities of all outcomes sum to at most 100 and at least 100 - (number of outcomes - 1) |
| `BetCalls.ImpliedProbabilityIs` | contracts/predictify-hybrid/src/bets.rs:1293-1304 | An implied probability is the outcome's share of the locked total in percent, rounded down |
| `BetGuarantees.AnalyticsBounds` | contracts/predictify-hybrid/src/bets.rs:1293-1330 | The products of the analytics calls stay inside 128 bits |
| `BetGuarantees.ZeroMaxFeeBetIff` | contracts/predictify-hybrid/src/bets.rs:324-340 | max_fee_bps = 0, commented as no guard, works like a maximum that never binds if and only if the fee read by the second check is not positive or the bet fails anyway |
| `BetGuarantees.ZeroMaxFeeBatchIff` | contracts/predictify-hybrid/src/bets.rs:426-450 | The same for a batch |
| `BetWitnesses.RepeatedBatch` | contracts/predictify-hybrid/src/bets.rs:453-520 | Every batch that meets its own conditions but names a market twice goes through, loses the agreement and makes its user forfeit the replaced amounts |
| `BetWitnesses.RepeatedMarketWitness` | contracts/predictify-hybrid/src/bets.rs:453-520 | It happens: a two-entry batch on one open market of a fresh contract |
| `BetWitnesses.CancelledThenResolved` | contracts/predictify-hybrid/src/bets.rs:631-644 | Any bet placed and cancelled makes a later resolution lose the agreement, whatever wins |
| `BetWitnesses.ResolveWitness` | contracts/predictify-hybrid/src/bets.rs:631-644 | It happens: one bet on one open market of a fresh contract |
| `BetWitnesses.CancelledBetIsPaid` | contracts/predictify-hybrid/src/bets.rs:631-644 | If everything at stake is on one outcome, a further bet on it, cancelled and paid back, is paid once more when that outcome wins: the payouts exceed the pool |
| `BetWitnesses.OverdrawWitness` | contracts/predictify-hybrid/src/bets.rs:631-644 | It happens: two users on one open market of a fresh contract |
| `BetWitnesses.ZeroMaxFeeWitness` | contracts/predictify-hybrid/src/bets.rs:324-340 | It happens: with the default fee a maximum of zero refuses a bet that 200 lets through |
| `BetWitnesses.DisabledFeeWitness` | contracts/predictify-hybrid/src/bets.rs:1157-1173 | It happens: with fees switched off at 200 the second check refuses maxima of 0 and 100 that the first lets through |
| `BetManager.BetManager.PlaceBet` | contracts/predictify-hybrid/src/bets.rs:301-371 | State and error as `BetLedger.PlaceBet`, rolled back on failure; on success both fee checks passed on the stored entries and the returned bet is the stored one, as asked for; keeps the market records in order and every token accounted for |
| `BetManager.BetManager.PlaceBets` | contracts/predictify-hybrid/src/bets.rs:410-535 | State and error of the three passes, rolled back on failure; on success both fee checks passed on the stored entries; keeps the market records in order and accounts for every token up to the overpaid entries; returns the created bets in order |
| `BetManager.BetManager.ValidateAll` | contracts/predictify-hybrid/src/bets.rs:453-483 | The first loop computes the market snapshots and total, or the first entry's error |
| `BetManager.BetManager.StoreAll` | contracts/predictify-hybrid/src/bets.rs:491-527 | The third loop writes every entry against its snapshot, or reports the first overflow |
| `BetManager.BetManager.CancelBet` | contracts/predictify-hybrid/src/bets.rs:827-875 | State and error of a cancellation; keeps records and accounts |
| `BetManager.BetManager.ResolveMarketBets` | contracts/predictify-hybrid/src/bets.rs:621-681 | The loop settles every registered bet as `ResolveBets` says; keeps records and accounts |
| `BetManager.BetManager.RefundBettor` | contracts/predictify-hybrid/src/bets.rs:697-710 | One iteration of the refund loop on the market copy in hand |
| `BetManager.BetManager.RefundAll` | contracts/predictify-hybrid/src/bets.rs:697-722 | The refund loop over a working copy of the market equals the per-bet specification, or reports its first failed transfer |
| `BetManager.BetManager.RefundMarketBets` | contracts/predictify-hybrid/src/bets.rs:693-727 | Pays and marks each Active bet, writes the market once at the end, is rolled back on a failed transfer; keeps records and accounts |
| `BetManager.BetManager.StoreBet` | contracts/predictify-hybrid/src/bets.rs:917-925 | Stores the bet and registers the user |
| `BetManager.BetManager.AddToBetRegistry` | contracts/predictify-hybrid/src/bets.rs:965-988 | The search loop appends a user if and only if not yet listed |
| `BetManager.BetManager.UpdateMarketBetStats` | contracts/predictify-hybrid/src/bets.rs:582-605 | The statistics after a bet, or a trap on an overflowing counter |
| `BetManager.BetManager.EnterBet` | contracts/predictify-hybrid/src/bets.rs:347-367 | Store, count and enter a bet in the market record, with the caller's overflow error |
| `BetManager.BetManager.Deposit` | contracts/predictify-hybrid/src/balances.rs:57-107 | State and error of a deposit; on success wallet, vault and balance move by exactly the amount and the new balance is returned; keeps records and accounts |
| `BetManager.BetManager.Withdraw` | contracts/predictify-hybrid/src/balances.rs:138-184 | State and error of a withdrawal; on success balance, vault and wallet move by exactly the amount and the new balance is returned; keeps records and accounts |
| `BetManager.BetManager.SetGlobalBetLimits` | contracts/predictify-hybrid/src/bets.rs:108-145 | Accepted if and only if MIN_BET_AMOUNT <= min <= max <= MAX_BET_AMOUNT; then in force exactly on the markets without limits of their own |
| `BetManager.BetManager.SetEventBetLimits` | contracts/predictify-hybrid/src/bets.rs:116-145 | Accepted under the same condition; then in force on that market and no other |
| `BreakerRuns.ProbesCloseSafely` | contracts/predictify-hybrid/src/circuit_breaker.rs:651-694 | In every history, when a recorded success closes the breaker, the HalfOpen episode it ends holds exactly half_open_max_requests successes at or after entry + recovery_timeout and no failure; after automatic recovery the close is at least 2 * recovery_timeout after the last opening |
| `BreakerRuns.TriggerOutcome` | contracts/predictify-hybrid/src/circuit_breaker.rs:410-503 | With room in its counters the trigger opens the breaker if and only if the condition is a high error rate, there are requests, error_count * 100 >= max_error_rate * total_requests, and the breaker is not Open or due to recover; else a breaker due to recover is in HalfOpen from now on; else nothing changes |
| `BreakerRuns.TriggerWitness` | contracts/predictify-hybrid/src/circuit_breaker.rs:437-445 | It happens: five failures in ten requests open a breaker set to ten percent |
| `BreakerRuns.TalliesHold` | contracts/predictify-hybrid/src/circuit_breaker.rs:651-730 | In every state of every history total_requests and error_count are the numbers of recorded outcomes and recorded failures, failure_count the trips since the breaker last closed, and the two times those of the last failure or trip and of the last success or recovery |
| `BreakerRuns.RecordedIff` | contracts/predictify-hybrid/src/circuit_breaker.rs:651-730 | An outcome is recorded if and only if its counters have room |
| `BreakerRuns.OptionsHold` | contracts/predictify-hybrid/src/circuit_breaker.rs:273-313 | In every history scope and allow_withdrawals are those of the last successful pause since the last recovery, else betting only and none, also for openings by trigger or failed probe |
| `BreakerRuns.EpisodeHolds` | contracts/predictify-hybrid/src/circuit_breaker.rs:624-730 | In HalfOpen, half_open_since is the entry time of the current episode and half_open_requests the number of its timely successes; no failure is in it |
| `BreakerRuns.OpeningHolds` | contracts/predictify-hybrid/src/circuit_breaker.rs:273-503 | When Open, opened_time is the time of the last opening |
| `BreakerRuns.CounterBelowMax` | contracts/predictify-hybrid/src/circuit_breaker.rs:651-694 | The probe counter stays below half_open_max_requests while HalfOpen |
| `BreakerRuns.WindowHolds` | contracts/predictify-hybrid/src/circuit_breaker.rs:506-564 | Between calls of any history the window's failures is 0 and admitted never exceeds calls_per_minute |
| `BreakerRuns.KeptHolds` | contracts/predictify-hybrid/src/circuit_breaker.rs:252-262 | In every state of every history: the window bounds, a wiped window outside HalfOpen (each episode starts with its full quota), the probe counter below its maximum and at most 100 events |
| `BreakerRuns.QuotaNeverReopens` | contracts/predictify-hybrid/src/circuit_breaker.rs:506-564 | The admission helper admits a HalfOpen request or would close the breaker, the latter if and only if the running window's quota is spent; the reopening branch is dead; a refused request is rolled back and changes nothing |
| `BreakerRuns.AdmissionIs` | contracts/predictify-hybrid/src/circuit_breaker.rs:506-564 | A missing or expired window starts anew; a request is admitted if and only if the window has quota left, is counted once in it, and nothing else changes |
| `BreakerRuns.HalfOpenEndsIff` | contracts/predictify-hybrid/src/circuit_breaker.rs:335-397 | With refused requests rolled back, HalfOpen is left if and only if the call is a permitted pause or recovery, a trigger that fires, the closing success or a recorded failure; no request ever ends it |
| `BreakerRuns.HalfOpenLasts` | contracts/predictify-hybrid/src/circuit_breaker.rs:335-397 | In every history a HalfOpen episode lasts until a call of that kind |
| `BreakerRuns.QuotaWitness` | contracts/predictify-hybrid/src/circuit_breaker.rs:506-564 | A six-call history with the default configuration reaches HalfOpen with the quota spent; the helper would close the breaker, the refused call leaves it as it was |
| `BreakerRuns.SinceKeptIff` | contracts/predictify-hybrid/src/circuit_breaker.rs:75-78 | From a state with half_open_since zero outside HalfOpen, a call keeps that if and only if it is not a pause or firing trigger in HalfOpen with a positive entry time, nor a firing trigger on an Open breaker whose recovery is due at a positive time |
| `BreakerRuns.SinceHoldsIff` | contracts/predictify-hybrid/src/circuit_breaker.rs:75-78 | A history has the documented property in all its states if and only if none of its calls is of that kind |
| `BreakerRuns.StampWitness` | contracts/predictify-hybrid/src/circuit_breaker.rs:418-434 | It fails with the default configuration: failure, pause, then a trigger that recovers and reopens in one call |
| `BreakerRuns.StoredEventsAreRecent` | contracts/predictify-hybrid/src/circuit_breaker.rs:735-773 | In every history the stored events are the last 100 of all events its calls reported, in order |
| `CircuitBreaker.GateAgrees` | contracts/predictify-hybrid/src/circuit_breaker.rs:335-407 | The gate the betting ledger consults answers every operation, and withdrawals, as the breaker does |
| `CircuitBreaker.CircuitBreaker.PauseWithOptions` | contracts/predictify-hybrid/src/circuit_breaker.rs:273-313 | Succeeds if and only if permitted and not Open; from then on betting is refused, other calls are admitted exactly under the betting-only scope, and withdrawals exactly as asked; keeps the run invariant |
| `CircuitBreaker.CircuitBreaker.Recovery` | contracts/predictify-hybrid/src/circuit_breaker.rs:569-606 | Succeeds if and only if permitted and not Closed; from then on everything is admitted; keeps the run invariant |
| `CircuitBreaker.CircuitBreaker.RequestResume` | contracts/predictify-hybrid/src/circuit_breaker.rs:624-648 | Succeeds if and only if permitted and Open; then requests are admitted at once, but nothing closes the breaker before now + recovery_timeout; keeps the run invariant |
| `CircuitBreaker.CircuitBreaker.AutomaticTrigger` | contracts/predictify-hybrid/src/circuit_breaker.rs:410-503 | With room in the counters answers true if and only if the error rate, without rounding, has reached max_error_rate for the high-error-rate condition and the breaker is not Open or due to recover; recovery comes first, overflow rolls both back; keeps the run invariant |
| `CircuitBreaker.CircuitBreaker.RequireWriteAllowed` | contracts/predictify-hybrid/src/circuit_breaker.rs:376-397 | Answers as the breaker does; a refusal leaves no trace and the mode never changes; keeps the run invariant |
| `CircuitBreaker.CircuitBreaker.RecordSuccess` | contracts/predictify-hybrid/src/circuit_breaker.rs:651-694 | Changes the mode if and only if it is the closing success, after which everything is admitted; keeps the run invariant |
| `CircuitBreaker.CircuitBreaker.RecordFailure` | contracts/predictify-hybrid/src/circuit_breaker.rs:697-730 | Succeeds if and only if the counters have room; in HalfOpen the breaker opens now and refuses betting, otherwise the mode stays; keeps the run invariant |
| `AuditTrail.SameHeadSameRecords` | contracts/predictify-hybrid/src/audit_trail.rs:164-197 | Under a collision-free hash two stores with the same head that verify to a depth hold identical records that deep |
| `AuditTrail.ReplacementNoticedIff` | contracts/predictify-hybrid/src/audit_trail.rs:164-197 | Replacing a record of a verified trail makes verification fail if and only if the record lies within the verified depth |
| `AuditTrail.DeletionNoticedIff` | contracts/predictify-hybrid/src/audit_trail.rs:164-197 | The same for deleting a record, for any hash |
| `AuditTrail.VerifyIff` | contracts/predictify-hybrid/src/audit_trail.rs:164-197 | Verification accepts if and only if each of the latest `depth` records is stored and hashes to the back-reference above it, or the head |
| `AuditTrail.HonestTrail` | contracts/predictify-hybrid/src/audit_trail.rs:84-127 | A trail built by appending holds the payloads in order under indices 1..n, nothing else, and verifies to every depth |
| `AuditTrail.FirstRefersToGenesis` | contracts/predictify-hybrid/src/audit_trail.rs:84-127 | The first record of an honest trail refers back to the genesis hash |
| `AuditTrail.AppendVerifiesIff` | contracts/predictify-hybrid/src/audit_trail.rs:84-197 | Appending to any trail, tampered with or not: the new one verifies to depth d + 1 if and only if the old one did to depth d |
| `AuditTrail.HeadAuthenticatesHistory` | contracts/predictify-hybrid/src/audit_trail.rs:84-197 | Any store with an honest trail's head that passes full verification holds exactly the appended payloads at their places |
| `AuditTrail.AppendOnly` | contracts/predictify-hybrid/src/audit_trail.rs:84-127 | Appending never changes an earlier record |
| `AuditTrail.LatestOfHonest` | contracts/predictify-hybrid/src/audit_trail.rs:136-156 | On an honest trail the latest records are the last payloads, newest first, at most `limit` |
| `AuditTrail.AuditTrailStore.AppendRecord` | contracts/predictify-hybrid/src/audit_trail.rs:84-127 | The payload is stored under the returned next index, all other records stay, and verification reaches exactly one record further than before |
| `AuditTrail.AuditTrailStore.GetLatestRecords` | contracts/predictify-hybrid/src/audit_trail.rs:136-156 | The loop collects the stored records from the head down, at most `limit` indices |
| `AuditTrail.AuditTrailStore.VerifyIntegrity` | contracts/predictify-hybrid/src/audit_trail.rs:164-197 | The loop answers whether the chain verifies to the depth |
| `AdminRegistry.RunAgrees` | contracts/predictify-hybrid/src/admin.rs:1350-1558 | From deployment, over every run in which migrations meet no foreign assignment and transfers go to nobody listed below SuperAdmin: assignments, duplicate-free list and count agree, get_admin_roles agrees with get_admin_role_for_address for every address, and after migration the original admin has the SuperAdmin role |
| `AdminRegistry.PermittedIff` | contracts/predictify-hybrid/src/admin.rs:1485-1507 | After migration exactly the addresses whose role is SuperAdmin may manage admins |
| `AdminRegistry.AddIff` | contracts/predictify-hybrid/src/admin.rs:1350-1403 | Adding succeeds if and only if the actor has the SuperAdmin role (before migration: passes the single-admin check), the address is no admin yet and the count has room; such an actor is never refused as unauthorized |
| `AdminRegistry.RemoveIff` | contracts/predictify-hybrid/src/admin.rs:1406-1447 | Removing succeeds if and only if the actor has that role, is not the one removed, and that one is assigned |
| `AdminRegistry.UpdateIff` | contracts/predictify-hybrid/src/admin.rs:1450-1482 | Updating succeeds if and only if the actor has that role, the target is assigned, and no SuperAdmin is downgraded |
| `AdminRegistry.SetActiveIff` | contracts/predictify-hybrid/src/admin.rs:1628-1670 | Deactivating and reactivating succeed if and only if the actor has that role and the target is assigned |
| `AdminRegistry.TransferIff` | contracts/predictify-hybrid/src/admin.rs:671-693 | A transfer succeeds if and only if the original admin gives it to somebody else, and writes nothing but the original admin |
| `AdminRegistry.AssignmentEffects` | contracts/predictify-hybrid/src/admin.rs:1350-1482 | What each successful call records about the admin concerned (role, by whom, when, active), no other assignment changing |
| `AdminRegistry.FeeAdminWitness` | contracts/predictify-hybrid/src/admin.rs:505-513 | It happens: an active fee admin is refused as unauthorized where the original admin is not |
| `AdminRegistry.MigrateKeepsIndexIff` | contracts/predictify-hybrid/src/admin.rs:3545-3581 | Migration keeps list, count and assignments in agreement if and only if nobody but the original admin is assigned |
| `AdminRegistry.MigrateEffect` | contracts/predictify-hybrid/src/admin.rs:3545-3581 | A migration makes the original admin a SuperAdmin of its own making, alone on the list, and keeps the other assignments; without an original admin it does nothing |
| `AdminRegistry.MigrateWitness` | contracts/predictify-hybrid/src/admin.rs:3545-3581 | It fails: an admin added before migration is assigned but unlisted after it |
| `AdminRegistry.TransferKeepsOriginalIff` | contracts/predictify-hybrid/src/admin.rs:671-693 | A transfer keeps the original admin free of a lesser assignment if and only if the new admin is unlisted or listed as SuperAdmin |
| `AdminRegistry.TransferWitness` | contracts/predictify-hybrid/src/admin.rs:671-693 | It fails: after a transfer to a listed fee admin enumeration and lookup disagree |
| `AdminRegistry.RolesAgreeIff` | contracts/predictify-hybrid/src/admin.rs:1510-1558 | Enumeration and single lookup agree everywhere if and only if the original admin has no active assignment below SuperAdmin |
| `AdminRegistry.RemoveFirstEffect` | contracts/predictify-hybrid/src/admin.rs:1425-1440 | Cutting the first occurrence from a duplicate-free list removes exactly that address |
| `AdminRegistry.DowngradeGuardIff` | contracts/predictify-hybrid/src/admin.rs:1450-1482 | The guard against downgrading the last SuperAdmin answers as it would on the true number of SuperAdmins except exactly when a permitted downgrade would leave others: it refuses every downgrade |
| `AdminRegistry.SelfRemovalGuardIff` | contracts/predictify-hybrid/src/admin.rs:1406-1447 | The guard against the last SuperAdmin removing itself does so except exactly when a permitted admin removes itself while there are others: it refuses every self-removal |
| `AdminRegistry.StepDownWitness` | contracts/predictify-hybrid/src/admin.rs:1608-1619 | It happens: with two SuperAdmins the second can neither be downgraded nor remove itself |
| `AdminManager.AdminManager.AddAdmin` | contracts/predictify-hybrid/src/admin.rs:1350-1403 | Succeeds if and only if the actor has the SuperAdmin role (or passes the single-admin check before migration), the address is no admin yet and the count has room; then only that address changes its role, to the given one; keeps list, count and assignments in agreement |
| `AdminManager.AdminManager.RemoveAdmin` | contracts/predictify-hybrid/src/admin.rs:1406-1447 | Succeeds if and only if a permitted actor removes another, assigned admin; takes the address off the list; only its role changes, to none unless it is the original admin; keeps the agreement |
| `AdminManager.AdminManager.FirstIndexOf` | contracts/predictify-hybrid/src/admin.rs:1425-1440 | The search loop finds the first position of an address, or the end |
| `AdminManager.AdminManager.UpdateAdminRole` | contracts/predictify-hybrid/src/admin.rs:1450-1482 | Succeeds if and only if a permitted actor updates an assigned admin without downgrading a SuperAdmin; only that address changes its role, to the new one if it is active and not the original admin; keeps the agreement |
| `AdminManager.AdminManager.SetAdminActive` | contracts/predictify-hybrid/src/admin.rs:1628-1670 | Succeeds if and only if a permitted actor names an assigned admin; only that address changes its role, to none or back to the assigned one, unless it is the original admin; keeps the agreement |
| `AdminManager.AdminManager.TransferAdmin` | contracts/predictify-hybrid/src/admin.rs:671-693 | Succeeds if and only if the original admin names somebody else; the new admin is SuperAdmin, third parties keep their roles; the agreement is kept if and only if the new admin has no lesser assignment |
| `AdminManager.AdminManager.MigrateToMultiAdmin` | contracts/predictify-hybrid/src/admin.rs:3545-3581 | Nobody's role changes; the agreement is kept if and only if nobody but the original admin is assigned |
| `AdminManager.AdminManager.GetAdminRoles` | contracts/predictify-hybrid/src/admin.rs:1510-1536 | The loop builds the enumeration; under the agreement it gives every address exactly its role |
| `Governance.ActionsAreHonest` | contracts/predictify-hybrid/src/admin.rs:1785-1868 | In every history every action's approvals are distinct and start with the initiator, each further one was given by a permitted admin no later than expires_at, and an executed one was executed with exactly these approvals, at least the threshold in force at that moment |
| `Governance.ExecutedOnce` | contracts/predictify-hybrid/src/admin.rs:1817-1868 | An action never disappears and its subject never changes; once executed it is frozen and every later approval or execution fails |
| `Governance.CreateIff` | contracts/predictify-hybrid/src/admin.rs:1785-1814 | Creating succeeds if and only if the actor is permitted; the action is stored under the next id, approved by its initiator, expiring after 86400 seconds, and nothing else changes |
| `Governance.ApproveIff` | contracts/predictify-hybrid/src/admin.rs:1817-1844 | An approval is accepted if and only if the actor is permitted and has not approved and the action exists, is unexecuted and not past its expiry |
| `Governance.EnoughApprovalsCarry` | contracts/predictify-hybrid/src/admin.rs:1817-1868 | As many different SuperAdmins as the threshold, approving in time in any order, make execution succeed |
| `Governance.ApproveWitness` | contracts/predictify-hybrid/src/admin.rs:1817-1844 | It happens: a second SuperAdmin approves an hour after creation |
| `Governance.ExecutableIff` | contracts/predictify-hybrid/src/admin.rs:1847-1868 | Execution succeeds if and only if the action exists, is unexecuted and has enough approvals, whoever calls and whenever |
| `Governance.StaleExecutionWitness` | contracts/predictify-hybrid/src/admin.rs:1847-1868 | It happens: an action is executed days after its expiry |
| `Governance.IdsAreFresh` | contracts/predictify-hybrid/src/admin.rs:1888-1893 | All existing action ids are below the counter, so none is reused |
| `Governance.ThresholdChangesAreDelayed` | contracts/predictify-hybrid/src/admin.rs:1690-1770 | Every change of the threshold is a confirmation of a permitted proposal at least 86400 seconds old that stood unreplaced, uncancelled and unused all that time |
| `Governance.PendingOrigin` | contracts/predictify-hybrid/src/admin.rs:1690-1718 | A stored proposal is the latest permitted one, untouched since |
| `Governance.ThresholdInRange` | contracts/predictify-hybrid/src/admin.rs:1721-1782 | In every history 1 <= threshold <= total_admins as stored, and enabled exactly when threshold > 1 |
| `Governance.ProposeIff` | contracts/predictify-hybrid/src/admin.rs:1690-1718 | A proposal is accepted if and only if the actor is permitted and 0 < threshold <= number of admins, and is then exactly what is stored |
| `Governance.ConfirmIff` | contracts/predictify-hybrid/src/admin.rs:1721-1758 | A confirmation succeeds if and only if a proposal is stored, at least 86400 seconds old and still within the number of admins; threshold and recorded number are then those |
| `Governance.CancelIff` | contracts/predictify-hybrid/src/admin.rs:1761-1770 | A cancellation succeeds if and only if the actor is permitted and a proposal is stored |
| `Governance.RemovalStrandsThresholdIff` | contracts/predictify-hybrid/src/admin.rs:1406-1447 | After removing an admin the threshold still fits the number of admins if and only if it was below it before |
| `Governance.StrandedWitness` | contracts/predictify-hybrid/src/admin.rs:1406-1447 | It happens: five calls from deployment leave a threshold of two with one admin |
| `MultisigManager.MultisigManager.Propose` | contracts/predictify-hybrid/src/admin.rs:1690-1718 | Succeeds if and only if permitted and 0 < threshold <= number of admins; the stored proposal can be confirmed, with the admins unchanged, exactly from now + 86400 on; keeps the run invariant |
| `MultisigManager.MultisigManager.Confirm` | contracts/predictify-hybrid/src/admin.rs:1721-1758 | The proposed threshold is in force, between one and the number of admins, and nothing is left to confirm; keeps the run invariant |
| `MultisigManager.MultisigManager.Cancel` | contracts/predictify-hybrid/src/admin.rs:1761-1770 | Succeeds if and only if permitted and a proposal is stored; the threshold stays and nothing is left to confirm; keeps the run invariant |
| `MultisigManager.MultisigManager.Create` | contracts/predictify-hybrid/src/admin.rs:1785-1814 | Succeeds if and only if permitted; the id is new, other actions stay; the action can be executed at once exactly when the threshold is one, and never approved again by its initiator; keeps the run invariant |
| `MultisigManager.MultisigManager.Approve` | contracts/predictify-hybrid/src/admin.rs:1817-1844 | Succeeds if and only if the actor is permitted and has not approved and the action exists, is unexecuted and not past its expiry; the answer is whether execution would now succeed; keeps the run invariant |
| `MultisigManager.MultisigManager.Execute` | contracts/predictify-hybrid/src/admin.rs:1847-1868 | Succeeds if and only if the action exists, is unexecuted and has as many approvals as the threshold; it cannot be executed again, other actions stay; keeps the run invariant |
| `DisputeMultiSig.ApprovalsAreDistinctSigners` | contracts/predictify-hybrid/src/dispute_multisig.rs:42-52 | For every order of calls the entry holds exactly the distinct signers heard while fewer than the threshold, and is gone from then on |
| `DisputeMultiSig.ApproveReachesThresholdIff` | contracts/predictify-hybrid/src/dispute_multisig.rs:42-52 | A call answers true if and only if its caller is a signer not heard before who makes the threshold |
| `DisputeMultiSig.ConfigureIff` | contracts/predictify-hybrid/src/dispute_multisig.rs:23-40 | A configuration is accepted if and only if 0 < threshold <= number of signers listed |
| `DisputeMultiSig.ApproveIff` | contracts/predictify-hybrid/src/dispute_multisig.rs:42-52 | An approval is accepted if and only if an entry exists and the caller is a signer who has not approved; the other errors say which of the first two fails |
| `DisputeMultiSig.ApprovableIff` | contracts/predictify-hybrid/src/dispute_multisig.rs:23-40 | An accepted configuration can be approved by some calls if and only if it names at least `threshold` different signers |
| `DisputeMultiSig.UnapprovableWitness` | contracts/predictify-hybrid/src/dispute_multisig.rs:23-40 | It happens: one signer named twice with a threshold of two is accepted and never approvable |
| `DisputeMultiSig.DisputeStore.ConfigureMarket` | contracts/predictify-hybrid/src/dispute_multisig.rs:23-40 | Whatever was stored before, the new entry is approved by a list of calls if and only if they name at least `threshold` different signers |
| `DisputeMultiSig.DisputeStore.ApproveMarket` | contracts/predictify-hybrid/src/dispute_multisig.rs:42-52 | Approval, removal at the threshold, or the error; other markets untouched; every stored entry keeps fewer distinct approvals by signers than its threshold |
| `BatchStatistics.AverageDrift` | contracts/predictify-hybrid/src/batch_operations.rs:651-656 | After n batches the stored average time is at most the true mean and at most (n-1)/2 below it |
| `BatchStatistics.AverageInRange` | contracts/predictify-hybrid/src/batch_operations.rs:651-656 | It lies between the smallest and the largest sample |
| `BatchStatistics.UpdateRounds` | contracts/predictify-hybrid/src/batch_operations.rs:634-656 | One update, without division: both averages are the whole parts of the means they stand for |
| `BatchStatistics.CountersExact` | contracts/predictify-hybrid/src/batch_operations.rs:634-649 | Operations are the sum of the batches' totals and of successes and failures, batches are counted, the average size is the true one rounded down |
| `BatchStatistics.ProcessBatch` | contracts/predictify-hybrid/src/batch_operations.rs:207-252 | The loop counts every item once as success or failure and lists the failed positions with their errors in order; over the limit it is refused |
| `BatchStatistics.FailuresAre` | contracts/predictify-hybrid/src/batch_operations.rs:219-234 | Every item is counted once; the errors are exactly those of the failed items, each with its position, in order |
| `BatchStatistics.BatchProcessor.Batch` | contracts/predictify-hybrid/src/batch_operations.rs:207-252 | A batch call adds its result to those the statistics describe; a refused one leaves them |
| `BatchStatistics.BatchProcessor.UpdateBatchStatistics` | contracts/predictify-hybrid/src/batch_operations.rs:634-656 | After any sequence of batches the counters are exact and the stored average within the drift of the true mean |
| `PayoutUtils.SharesFitPool` | utils.rs:33-42 | For a non-negative pool and non-negative stakes summing to at most the winning stakes, saturating or not, the shares of all winners fit in the pool |
| `PayoutUtils.ShareIs` | utils.rs:33-42 | On all inputs a share is 0 unless all three are positive, else the whole part of the capped product over the winning stakes |
| `PayoutUtils.ShareAtMostProportional` | utils.rs:33-42 | A share is between 0 and the floored proportional share, and equal to it when the product fits 128 bits |
| `PayoutUtils.BpsWithinAmount` | utils.rs:18-23 | A fee up to 10000 basis points is between 0 and the amount, and the floored percentage when the product fits 128 bits |
| `PayoutUtils.BpsIs` | utils.rs:18-23 | On all inputs the same for basis points |

## Left out

- Host services: authorisation (`require_auth`), storage lifetimes (a batch key is refused as long as it is stored; the model keeps it for good), ledger sequence numbers, event emission, XDR encoding, and SHA-256 itself, which is any function from records to digests, assumed free of collisions where a lemma says so.
- The reentrancy guard and the token contract: a transfer is a balance move that traps when funds are short; one fixed token; the contract's own address never bets or deposits.
- Addresses, symbols, outcome strings and keys are natural numbers, so derived storage keys are taken to be distinct; what is stored per market is grouped in one book, and a bet does not repeat its market's name.
- Widths: `u64` timestamps, counters and sums of times are unbounded; the 32-bit and 128-bit limits that calls can meet are modelled, except the `u32` counters of the batch statistics.
- Votes, disputes, claims, extensions, oracles and forced resolution: markets are betting-only, with a fixed end time and with votes and stakes written by bets only; opening a market and declaring its state and result are steps of the surroundings.
- The stored resolution summary, whose code is not complete in the repository: its pool is the market's total_staked, its number of winners the length of the winning list.
- The fee history is any function from timestamps to rates; results assume rates between 0 and 10000.
- The fee lookups: the configuration that `get_config` and `get_fee_config` find is an input (the latter always finds one, so the legacy fallbacks behind it are dead code).
- BetManager.BetManager.PlaceBet: does not model that being admitted in HalfOpen counts against the breaker's quota, because that write is made by `CircuitBreaker.RequireWriteAllowed`; the ledger's gate holds the answer, and `GateAgrees` ties the two.
- The breaker's own scenario helper (circuit_breaker.rs:931-988), which asks for admission and keeps going when refused, and `with_circuit_breaker`: no contract call uses them. Recorded successes and failures are calls of their own.
- The breaker's configuration is fixed after initialisation, since the action name its update asks for maps to no permission; its reason strings, status maps and statistics are not modelled.
- Permission tables: only the emergency permission that admin management asks for is modelled; the single-slot role check before migration is an input (`legacyOk`), as are the breaker's admin checks (`permitted`).
- BatchStatistics.ProcessBatch: does not model what one item of a batch does; the results of the items are inputs. The gas-efficiency ratio (floating point) is left out.
- `analytics.rs`, `config.rs`, `lists.rs`, `capabilities.rs`, `event_topic_catalog.rs`, `audit.rs`, `edge_cases.rs`, `wrapper.rs` and the test modules: tables, range checks or placeholders that would only add easy members.

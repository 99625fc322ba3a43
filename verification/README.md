# Verification of the portfolio simulator, its auditor, and the evidence pipeline

This project models three parts of the `ashare_quant` repository in Dafny and proves what they
promise of each other.

**Simulator and auditor.** `simulate_portfolio` steps a portfolio through the trading calendar:
corporate actions, exits, equal division of all cash over new entries, marks, accounts. A separate
body of code (`accounting_evidence`, `_validate_portfolio`, `_validate_position_history`,
`_validate_trade_lifecycles`) re-derives the published tables from the ledgers alone. The central
theorem is `AuditTheorem.AuditOfStrictRun`: whatever the prices, signals and renamings, every strict
run that completes is accepted by the accounting auditor, and by the portfolio auditor exactly if
the calendar starts at the first signal and no fill bought a code on or after the day it was renamed.
The simulator's own closing replay is laxer by one day: `AuditTheorem.ClosingChecksDecide` shows that it
refuses exactly the runs with a fill on a later day than the renaming. `RenamedOnEntry` gives concrete
runs on both failing sides. `Simulation` states the simulator as a function of its inputs; `Engine` is the
simulator as it is written, an account object with position objects updated in place, every method
proved to compute the corresponding function; the invariants are in the `*Invariant` files. `Marks` and
`Execution` read the published tables off the inputs: which price every fill and mark is made at, what
becomes of every selected signal, which positions are tried for an exit and which sessions are run at
all; `Failures` and `Planning` say why a run or a migration stops. `Replay` and `Lifecycle` decide the
auditors' replays for any tables, not only those of a run.

**HTTP captures and announcement search.** `SafeHTTPClient.fetch` records attempts,
`validate_capture` accepts records on its own terms, `CaptureCache` journals them, and
`analyze_search` both decides the next request and replays frozen captures. `Fetch` proves that every
recorded trace, finished or interrupted, is accepted exactly if the transport behaved regularly, and that
transport and limits leave a fetch no choice of trace; `Acceptance` says which records are accepted at all;
`Journal` that every state of the files between two writes can be read back; `Interleaving`
exactly when concurrent saves keep what the journal promises; `Discovery` and
`Acquisition` that searches and downloads always publish what their replay accepts, and exactly which
answers are complete and which publications are accepted.

**Economic event review.** Provider rows are grouped, gated and approved. `Dividends`, `Review` and
`Revision` prove that conflicting economics are never approved, whatever the order of the rows, and
that a reconciliation binds the least conflict-closed set; `Screening` reads the review queue and every
approval off the raw rows. `Entitlement` connects the review to the
simulator: record-date ownership read off published holdings is the holding interval.

Four promises are false of the code, and are stated with their exact condition and a concrete run.
`_apply_effective_corporate_actions` says that it migrates atomically; once the chains are planned, a due
position without a positive mark stops it after earlier positions have moved
(`Engine.Simulator.ApplyActions`, `HalfMigration`). The account can be overdrawn by a sale that brings
less than the minimum commission (`Solvency.SalesCoverCosts`, `OneTrade`, which also decides which cost
policies are safe). The closing lifecycle check, meant as an internal invariant, refuses runs that bought
a code after its renaming (`AuditTheorem.ClosingChecksDecide`, `RenamedOnEntry.RenamedBeforeEntryIsRefused`).
And two fetches of one request at the same time can lose a captured answer or file a failure behind it,
after which the request loads the failure (`Interleaving.JournalIsKeptIff`, `RacingFetches`).

Modelling choices. Money, shares and rates are exact `real`s, so that tolerance checks follow from
equalities; a missing or non-finite number is `None`. Dates are integers ordered as their YYYYMMDD
strings; codes, announcement ids and row hashes are numbered in the order of their strings. A table
is a sequence of records. Hashes (including truncated ids) are injective. Reference resolution, host
allow-listing and the decoding of answers are uninterpreted functions. Dictionaries whose order
matters keep it (`Basics.Dict`). Hypotheses the simulator does not enforce itself are named
predicates: `Governed` (increasing calendar, valid costs, positive cash, holding period of at least
one, no code selected twice for one date) and `EntriesFollowSignals`, both derived from unique
signals in `Signals.EntriesAreGoverned`.

## Model

| member | source | states |
|---|---|---|
| AuditTheorem.AuditOfStrictRun | src/ashare_quant/backtest/engine.py:97-484 | every strict run that completes passes the accounting auditor, and passes the portfolio auditor if and only if the calendar starts at the first signal and no fill bought a code that was already renamed on its entry date |
| AuditTheorem.AuditAcceptsGuardedRun | src/ashare_quant/backtest/continuous_validation.py:149-307 | if every selected code is entered before its renaming takes effect, both auditors accept the completed strict run |
| AuditTheorem.ClosingChecksDecide | src/ashare_quant/backtest/engine.py:406-418 | a run that got through its sessions, and strictly ended flat, is published if and only if no fill bought a code renamed on an earlier day, and is otherwise refused for its lifecycles; the action-ledger check never fires |
| AuditTheorem.LifecyclesHold | src/ashare_quant/backtest/engine.py:1048-1106 | between any two sessions the lifecycle replay accepts the ledgers, and leaves open exactly the held positions, if and only if no fill before the last session bought a code renamed on an earlier day |
| AuditTheorem.ClosingChecksPass | src/ashare_quant/backtest/engine.py:417-418 | when no selected code was renamed on an earlier day than its entry, the ledger and lifecycle checks can never be the reason a run is refused |
| AuditTheorem.ClosedRunHistoryIff | src/ashare_quant/backtest/continuous_validation.py:310-393 | the per-position replay of holdings and actions accepts a closed run if and only if no purchase falls on or after its own renaming |
| AuditTheorem.HistoryOfOpening | src/ashare_quant/backtest/continuous_validation.py:343-380 | for each single opening, the replay accepts exactly if that code was not renamed by its entry date |
| AuditTheorem.ClosedRunReconciles | src/ashare_quant/backtest/continuous_evidence.py:31-94 | a run that ends without positions reconciles on every day: cash, holdings, costs, turnover, returns, unique holding rows, terminal ledger |
| AuditTheorem.CoverageIff | src/ashare_quant/backtest/continuous_validation.py:162-164 | the daily rows cover the calendar up to the last simulated day without a gap if and only if it starts at the first signal |
| AuditTheorem.GovernedAuditOfStrictRun | src/ashare_quant/backtest/continuous_validation.py:149-307 | with the cutoff, lockbox and signal-end dates included, a completed strict run passes the portfolio auditor if and only if it ends within them, the calendar starts at the first signal and no fill was renamed by its entry date |
| AuditTheorem.RunStaysGoverned | src/ashare_quant/backtest/continuous_validation.py:156-166 | a calendar that ends before cutoff and lockbox, with an entry on or after the last signal date, keeps every run within its governing dates even when it stops early |
| AuditTheorem.CountersAgree | src/ashare_quant/backtest/continuous_validation.py:192-222 | on every prefix of every run the counters kept online equal their recomputation from trades and holdings |
| AuditTheorem.TerminalAgrees | src/ashare_quant/backtest/continuous_validation.py:381-393 | every write-off record agrees with its closing trade and with the last published mark of the position |
| AuditTheorem.ActionsReconcile | src/ashare_quant/backtest/continuous_validation.py:260-307 | every action row is backed by a supported transition and its shares and marks multiply out |
| AuditTheorem.HoldingsAreMarked | src/ashare_quant/backtest/engine.py:354-382 | on every prefix of every run, each holding row is marked at the close of its day where the price has a positive one; otherwise at the close and price date carried over from the row before (or the entry), adjusted only by the actions carried out since, one day staler, as suspended or missing, and in a strict run only while suspended |
| AuditTheorem.QuotedRowsAreCurrent | src/ashare_quant/backtest/engine.py:886-903 | a holding row of a code with a positive close on its date has that close, that date, no stale days, and a market value of shares times close |
| Execution.ExecutionsFollowPrices | src/ashare_quant/backtest/engine.py:181-351 | on every prefix of every run: a fill is at the open of a code that the prices let trade, charged what the regime in force commands; a write-off is of a delisted code; a rejection of a code that cannot be traded; each selected signal was held, filled, turned down, delisted or without cash exactly as prices, holding rows and its cash say, on the session after its signal; the cash it found is the cash of the day plus what the day spent on purchases; benchmark and gross returns are those of inputs and equities |
| Execution.DuePositionsAreTried | src/ashare_quant/backtest/engine.py:181-250 | of the positions held overnight exactly those whose target has come are tried for an exit in the next session |
| Execution.SessionsAreRun | src/ashare_quant/backtest/engine.py:403-405 | a session of the calendar is run if and only if after no earlier session a carried run held nothing and had no entry left |
| Failures.FailureIsJustified | src/ashare_quant/backtest/engine.py:161-411 | a session that fails reports the fault of its first phase that cannot be carried out, and the inputs bear it out: an unplannable or unmarked renaming, a used-up delay of an unsellable position, no cost regime in force, a calendar that ends before the target, a close missing without suspension, or accounts below zero |
| Failures.RefusalIff | src/ashare_quant/backtest/engine.py:130-163 | a run is refused before its first session exactly for an empty calendar, two renamings of one code, a strict benchmark gap from the first signal on, or no session at all, in this order |
| AuditTheorem.FillsPrecede | src/ashare_quant/backtest/engine.py:605-618 | entries made ahead of all renamings imply fills made ahead of them, for every prefix of a run |
| RenamedOnEntry.RenamedOnEntryIsRejected | src/ashare_quant/backtest/continuous_validation.py:362-371 | a concrete three-day market whose strict run completes and whose accounting is accepted, but whose position replay is not: the code is bought on the effective day of its renaming |
| RenamedOnEntry.RenamedBeforeEntryIsRefused | src/ashare_quant/backtest/engine.py:1048-1106 | the same market with any earlier renaming: every session succeeds and everything is sold, yet the lifecycle check refuses the run |
| Runs.SessionKeepsReady | src/ashare_quant/backtest/engine.py:167-405 | one session preserves the whole invariant between sessions (book, lives, trades, money, counters, intents, ledgers) and an early stop leaves no position and no later entry |
| Runs.RunIsReady | src/ashare_quant/backtest/engine.py:161-405 | that invariant holds after every prefix of every run |
| BookInvariant.MigrationKeepsBook | src/ashare_quant/backtest/engine.py:170-179 | corporate actions keep every position sound: id, entry, target, delay bookkeeping |
| BookInvariant.SellStepKeepsBook | src/ashare_quant/backtest/engine.py:181-270 | deciding one exit keeps the delay of every survivor equal to the number of sessions past its target |
| BookInvariant.BuyKeepsBook | src/ashare_quant/backtest/engine.py:322-335 | a purchase adds a position with a fresh id and a target exactly one holding period ahead |
| LifeInvariant.MigrationKeepsLives | src/ashare_quant/backtest/engine.py:621-741 | after renaming, the replay of every open position's rows and actions still ends in its current shares and code, or is already known to fail because it was renamed at entry |
| LifeInvariant.CloseKeepsLives | src/ashare_quant/backtest/continuous_validation.py:356-380 | a closing trade turns an open life into an accepted closed one, or one rejected for a renaming at entry and nothing else |
| LifeInvariant.MarkKeepsLives | src/ashare_quant/backtest/engine.py:354-382 | the holding row of a day extends the life of exactly its own position |
| History.ClosureIsAcceptedIff | src/ashare_quant/backtest/continuous_validation.py:356-380 | with one row per session from entry, the replay of a closed position is accepted if and only if it was not renamed by its entry date |
| History.RowsSpanLife | src/ashare_quant/backtest/continuous_validation.py:345-348 | the holding dates of a closed position are exactly the sessions from entry up to, not including, closure |
| Replay.HistoryIff | src/ashare_quant/backtest/continuous_validation.py:343-380 | on any tables, the replay accepts a closed position if and only if its rows are exactly its sessions with entry and target repeated, its actions form one chain from purchase to closure, and the actions passed by its date explain every row and the closure |
| MoneyInvariant.CloseDaySettles | src/ashare_quant/backtest/engine.py:383-402 | closing a day makes its row exact: cash flow, cost, holdings, turnover and return as sums over the ledgers of that day, and all earlier rows stay exact |
| MoneyInvariant.CashIsCumulative | src/ashare_quant/backtest/continuous_evidence.py:84-84 | published cash is the initial cash plus the cumulative signed fills of every day up to it |
| CounterInvariant.DelayKeepsCounters | src/ashare_quant/backtest/engine.py:215-237 | counting one missed exit online agrees with counting rejected sells, distinct breached ids and the largest delay |
| IntentInvariant.RecordingKeepsIntents | src/ashare_quant/backtest/engine.py:275-353 | recorded intents are exactly the ranked selections of every session so far, and their filled ids those of the fills |
| EntryInvariant.EntryKeepsMid | src/ashare_quant/backtest/engine.py:272-351 | rejections and purchases of a session keep every mid-session invariant and settle one intent for each selected code |
| SessionInvariant.ExitsKeepMid | src/ashare_quant/backtest/engine.py:181-270 | the exits of a session, taken in book order, keep every mid-session invariant |
| Lifecycle.OrderlyReconciles | src/ashare_quant/backtest/engine.py:1048-1106 | on a log whose actions are ordered and whose closures sell what is held, the sorted replay (buy, action, sell within a day) succeeds and leaves open exactly the ids without a closure, if and only if no action took effect before the purchase of its position |
| Lifecycle.LifecyclesIff | src/ashare_quant/backtest/engine.py:1048-1106 | on any log, the lifecycle check passes if and only if, sorted by date and kind, every position is bought while not held, acted on and closed while held, never closed beyond its shares, and exactly the given ids stay open |
| Lifecycle.TradeEventsAre | src/ashare_quant/backtest/engine.py:1048-1079 | the replayed events are exactly the fills and closures of the trade log, buys before sells within a day |
| Lifecycle.OnlyArrangement | src/ashare_quant/backtest/engine.py:1080-1080 | the events of one position have a single sorted arrangement, so the replay does not depend on the sort |
| TradeInvariant.SaleIsSound | src/ashare_quant/backtest/engine.py:251-270 | the row of a sale is costed by the schedule in force on its shares times its price, and took the holding period plus its delays |
| ProfitAndLoss.RealisedPnlIsTotalReturn | src/ashare_quant/backtest/engine.py:576-590 | over a completed strict run the closed-trade profits and losses, write-offs included, sum to final equity minus initial cash, hence to the total return on it |
| ProfitAndLoss.ClosedTradePnl | src/ashare_quant/backtest/engine.py:576-590 | the loop computes the fold on which conservation is proved |
| ProfitAndLoss.ExitsTakePeriodPlusDelay | src/ashare_quant/backtest/engine.py:181-270 | every closure took exactly holding period plus delays, is flagged exactly if the delays exceed the maximum, and in a strict fail-at-alert run never exceeds period plus maximum delay |
| ProfitAndLoss.CompoundingTelescopesIff | src/ashare_quant/backtest/engine.py:383-402 | initial cash compounded over net returns is the equity on every prefix, exactly if a session starting without positive equity leaves it unchanged |
| Solvency.EntriesNeverOverspend | src/ashare_quant/backtest/engine.py:308-351 | while slots are being filled the cash always covers the remaining ones, so the overspending guard never rejects; a slot is refused only if nothing is affordable in it |
| Solvency.AllCashEntry | src/ashare_quant/backtest/engine.py:308-351 | a day's entry either changes nothing or buys every executable code and leaves between zero and (1 + rates) times cash over 2^64 |
| Solvency.SalesCoverCosts | src/ashare_quant/backtest/costs.py:78-92 | a sale costs at most what it brings if and only if its gross is zero, or the rates take at most the whole and the minimum commission fits beside the other rates |
| OneTrade.DustSaleOverdraws | src/ashare_quant/backtest/engine.py:251-270 | a concrete strict run that is published with negative cash: the sale brings less than its minimum commission |
| Solvency.RunSalesCoveredIff | src/ashare_quant/backtest/engine.py:251-270 | the sales of a run all cover their costs if and only if each gross meets the bound of the rates in force on its date |
| Solvency.RunIsSolvent | src/ashare_quant/backtest/engine.py:161-405 | as long as the sales of the run cover their costs, under any policy, cash is never negative after any session, everything held or published has a positive value, and zero equity is final |
| Solvency.ExhaustedIsEmpty | src/ashare_quant/backtest/engine.py:383-402 | an account without equity holds neither cash nor a position |
| Solvency.ReturnsCompound | src/ashare_quant/backtest/engine.py:383-402 | as long as the sales of the run cover their costs, initial cash compounded over net returns is the equity on every prefix |
| Solvency.ProportionalRunsCompound | src/ashare_quant/backtest/engine.py:161-405 | without a minimum commission and with rates of at most one, both hold of every run |
| OneTrade.PolicyIsSafeIff | src/ashare_quant/backtest/costs.py:24-92 | for policies whose regimes last two days and can buy something, no exit of any run can overdraw the account if and only if no regime has a minimum commission or sale rates above one |
| OneTrade.RegimeOverdraws | src/ashare_quant/backtest/engine.py:251-270 | for any other regime of a policy a market with one purchase and one sale in which the sale overdraws the account |
| Periods.PeriodsAddUp | src/ashare_quant/backtest/continuous_evidence.py:112-132 | period returns multiply back to the compounded session returns, period costs add up to the total, the last period ends with the last equity |
| Periods.PeriodReturnsReachFinalEquity | src/ashare_quant/backtest/continuous_evidence.py:112-132 | as long as the sales of the run cover their costs, initial cash compounded over months or years is its final equity |
| Costs.LastApplicableIsInForce | src/ashare_quant/backtest/costs.py:55-71 | the selected regime is the latest one in effect, and there is none exactly if all are in the future |
| Costs.CalculateIff | src/ashare_quant/backtest/costs.py:55-92 | the costs of a trade are those of the latest regime in effect: commission with its minimum, stamp duty on sales only, transfer fee and slippage; they are unknown exactly before the first regime, and a negative gross is refused |
| Costs.OutlayMonotone | src/ashare_quant/backtest/costs.py:78-92 | a larger notional never costs less, across the jump of the minimum commission |
| Costs.OutlayLipschitz | src/ashare_quant/backtest/costs.py:78-92 | above zero the outlay grows by at most one plus the rates per unit |
| Costs.MaximumAffordableIsTight | src/ashare_quant/backtest/costs.py:94-106 | the bisection returns an affordable notional and no affordable one exceeds it by more than cash over 2^64 |
| Costs.MaximumAffordableIsZeroIff | src/ashare_quant/backtest/costs.py:94-106 | it returns zero exactly if not even cash over 2^64 is affordable |
| Costs.UnspentIsSmall | src/ashare_quant/backtest/costs.py:94-106 | a positive result leaves at most (1 + rates) times cash over 2^64 unspent |
| Costs.HalvedIsDivision | src/ashare_quant/backtest/costs.py:100-105 | the final bracket width is cash over 2^64 |
| Costs.MaximumAffordableGross | src/ashare_quant/backtest/costs.py:94-106 | the 64-step loop computes that bisection, is never negative, and fits the cash under a valid policy |
| CorporateActions.WalkIsMaximal | src/ashare_quant/backtest/engine.py:638-670 | a planned chain is the maximal run of due supported transitions with strictly increasing dates, meeting no code twice |
| Planning.ClassifyIff | src/ashare_quant/backtest/corporate_actions.py:70-90 | a transition is executed exactly if it is a code change of the same listed entity with a positive ratio, and refused for the first reason otherwise |
| Planning.ChainIff | src/ashare_quant/backtest/engine.py:638-670 | the chain of a code is the one that arrives where nothing more is due; there is none exactly if a legal chain breaks, with the fault of the step at which it does |
| Planning.PlansIff | src/ashare_quant/backtest/engine.py:634-687 | planning succeeds exactly if every position can be planned after the ones before it, and then plans exactly the positions that move; otherwise it reports the fault of the first that cannot |
| CorporateActions.ChainsThatMeetEndTogether | src/ashare_quant/backtest/engine.py:671-686 | two due chains that meet at any code end at the same code, so comparing final codes finds every meeting |
| CorporateActions.PlannedChainsAreDisjoint | src/ashare_quant/backtest/engine.py:671-686 | once planning succeeds, planned chains have no code in common at all |
| CorporateActions.MutationSucceedsIff | src/ashare_quant/backtest/engine.py:688-741 | after planning, the migration succeeds if and only if every due position has a positive mark |
| CorporateActions.MigrationRelocates | src/ashare_quant/backtest/engine.py:688-741 | every position ends under the code of its own final state and nothing else is in the book |
| CorporateActions.FateIsFaithful | src/ashare_quant/backtest/engine.py:638-741 | a position moves along its maximal due chain to an undue code, keeping its mark, with one linked row per transition |
| CorporateActions.ConvertAllIsFaithful | src/ashare_quant/backtest/engine.py:690-740 | a chain of conversions keeps the mark and links old shares to new shares row by row |
| CorporateActions.MigrationRows | src/ashare_quant/backtest/engine.py:705-737 | the appended rows are for each position those of its own fate, all sound, evidenced and in force |
| CorporateActions.ChainAvoidsStart | src/ashare_quant/backtest/engine.py:645-646 | the cycle check keeps every chain away from its start |
| Conservation.MigrationConserves | src/ashare_quant/backtest/engine.py:688-741 | a migration keeps the number of positions, their ids and their total mark |
| Engine.Position.Transform | src/ashare_quant/backtest/engine.py:690-740 | one conversion in place yields the modelled position and row, or the same failure |
| Engine.Position.Revalue | src/ashare_quant/backtest/engine.py:886-903 | the in-place valuation computes the modelled one, which `AuditTheorem.HoldingsAreMarked` ties to the close of the day, and changes nothing when it fails |
| Engine.Simulator.OneChanged | src/ashare_quant/backtest/engine.py:214-222 | changing one position object changes the book at its code only: no two codes share an object |
| Engine.Simulator.PlanMoves | src/ashare_quant/backtest/engine.py:634-686 | the planning phase yields exactly the modelled plans and changes nothing |
| Engine.Simulator.ApplyActions | src/ashare_quant/backtest/engine.py:621-741 | both phases compute the modelled migration; after a failure the state is what it was if and only if planning failed; once planned, the migration succeeds if and only if every due position has a positive mark |
| HalfMigration.FailsHalfway | src/ashare_quant/backtest/engine.py:683-741 | a concrete run: of two positions due on the third session the second was bought at a close of zero; every chain is planned, the first position is moved, and the run fails |
| Engine.Simulator.SellOne | src/ashare_quant/backtest/engine.py:181-270 | one exit decision in place computes the modelled step, including which failure is raised |
| Engine.Simulator.SellDue | src/ashare_quant/backtest/engine.py:181-270 | the loop over a snapshot of the held codes computes the modelled exits |
| Engine.Simulator.BuyOne | src/ashare_quant/backtest/engine.py:310-351 | one purchase computes the modelled step and files a fresh position object |
| Engine.Simulator.EnterSelected | src/ashare_quant/backtest/engine.py:272-351 | intents, rejections and purchases compute the modelled entry |
| Engine.Simulator.MarkToMarket | src/ashare_quant/backtest/engine.py:354-382 | the marking loop computes the modelled marks, rows and counters, whose marks `AuditTheorem.HoldingsAreMarked` reads off the prices |
| Engine.Simulator.RunSession | src/ashare_quant/backtest/engine.py:167-405 | one session of the object is one session of the model, failure for failure |
| Engine.Simulator.Run | src/ashare_quant/backtest/engine.py:161-405 | the session loop of the object computes the modelled run |
| Validation.SimulatePortfolio | src/ashare_quant/backtest/engine.py:97-484 | the whole call returns the modelled report or failure, and what it returns for governed strict inputs is audited as in the central theorem |
| Validation.SignalRunIsAudited | src/ashare_quant/backtest/engine.py:97-484 | the central theorem from raw unique signals |
| Validation.ValidateTradeLifecycles | src/ashare_quant/backtest/engine.py:1048-1106 | the replay loop over the open ids decides the modelled reconciliation |
| Validation.ReplayPosition | src/ashare_quant/backtest/continuous_validation.py:343-380 | the cursor loops over rows and pending actions decide the modelled acceptance of one position |
| Signals.SignalsByEntryDate | src/ashare_quant/backtest/engine.py:605-618 | the loop over signal dates builds the modelled entries or fails on the same calendar gap |
| Signals.TopIsBest | src/ashare_quant/backtest/engine.py:611-616 | no signal left out has a greater score than one selected, or an equal score and a smaller code; fewer than n are selected only if there are no more |
| Signals.TakenIff | src/ashare_quant/backtest/engine.py:611-616 | a signal is selected exactly if fewer than n of its date come before it by score and code |
| Signals.EntriesAreDecided | src/ashare_quant/backtest/engine.py:605-618 | building the entries succeeds exactly if every signal date has a next session; they are then, on each session after a signal date and nowhere else, exactly the selected codes of that date |
| Signals.TopIsRanked | src/ashare_quant/backtest/engine.py:611-616 | selected codes come by falling score, and by code among equal scores |
| Signals.RankedIsSorted | src/ashare_quant/backtest/engine.py:611-612 | ranking permutes the signals of a date into score-then-code order |
| Signals.EntriesAreGoverned | src/ashare_quant/backtest/engine.py:605-618 | entries built from unique signals fall on the session after a signal session, without duplicates |
| Capture.ValidateCapture | src/ashare_quant/data/announcement_http.py:183-255 | the acceptor's loop decides the modelled verdict, reason for reason |
| Acceptance.AcceptsIff | src/ashare_quant/data/announcement_http.py:183-255 | a record is accepted exactly if its request is allowed and identified, its attempts are within the budget, each goes where the ones before it lead and carries an answer at hand or a listed failure, and its status says what the last one came to |
| Fetch.TraceAcceptedIff | src/ashare_quant/data/announcement_http.py:183-255 | a recorded trace, with any status a fetch can give it, is accepted if and only if its statuses are 100 to 599 and its failures listed |
| Fetch.AcceptedIsRegular | src/ashare_quant/data/announcement_http.py:194-230 | nothing irregular is ever accepted, whatever its origin |
| Fetch.NextIsExpected | src/ashare_quant/data/announcement_http.py:231-249 | following a redirect or retrying leaves the acceptor expecting exactly the next attempt |
| Fetch.TraceIsDetermined | src/ashare_quant/data/announcement_http.py:342-408 | transport, limits and request leave exactly one trace and one status: each attempt reports its exchange and goes where the ones before it lead |
| Fetch.TraceStops | src/ashare_quant/data/announcement_http.py:386-408 | a trace ends as a rejected redirect exactly if its last answer is a redirect, which then is beyond the budget, has no location, would change a POST or leaves the official hosts; it ends in a temporary failure only after all rounds |
| Fetch.SafeHTTPClient.Chase | src/ashare_quant/data/announcement_http.py:342-408 | one round follows every redirect that has to be followed and nothing else, within its budget; every prefix it journals is accepted if its exchanges were regular |
| Fetch.SafeHTTPClient.Acquire | src/ashare_quant/data/announcement_http.py:334-413 | a new capture records the one trace that the transport leaves it; it succeeds if and only if its exchanges were regular (or the cache fails), within the attempt and lifetime budgets, and is then in the journal |
| Fetch.SafeHTTPClient.Fetch | src/ashare_quant/data/announcement_http.py:328-413 | every result is accepted; a cached success is returned without an exchange or a write; anything else records the one trace that the transport leaves it; with regular exchanges the journal stays readable at every moment and ends with the success just captured; after an irregular one the result is refused and every later fetch of that request fails before any exchange |
| Fetch.IrregularBlocksRequest | src/ashare_quant/data/announcement_http.py:291-308 | one irregular capture in a history makes every later load of its request fail |
| Journal.CaptureCache.Save | src/ashare_quant/data/announcement_http.py:271-289 | the file writes of a save compute the modelled disk, and for a savable capture every state between two writes is a readable journal that has only grown |
| Journal.CaptureCache.Load | src/ashare_quant/data/announcement_http.py:291-308 | the loop re-validates the whole history and returns its last capture or the first error |
| Journal.LoadFindsLast | src/ashare_quant/data/announcement_http.py:291-308 | loading a sound journal never fails and finds the capture whose first save came last |
| Journal.PointerKeepsJournal | src/ashare_quant/data/announcement_http.py:286-289 | appending to a history keeps it free of duplicates, append-only and with a success only at its end |
| Journal.InterruptionIsSafe | src/ashare_quant/data/announcement_http.py:258-308 | an interruption between any two writes leaves a journal that loads, and what was captured by then never changes again |
| Interleaving.InterleavedSavesLoad | src/ashare_quant/data/announcement_http.py:271-308 | with the file operations of any number of saves interleaved in any order, no file is lost or changed, every history loads at every moment, and a save can only be stopped by a body that another one created first |
| Interleaving.StopsIff | src/ashare_quant/data/announcement_http.py:273-281 | the operations of a save stop if and only if the body found missing exists when it is to be created |
| Interleaving.SeparateSavesKeepJournal | src/ashare_quant/data/announcement_http.py:271-289 | interleaved saves of different requests keep the whole journal invariant: histories only grow, a success stays last, finished saves are in their histories |
| Interleaving.SharedRequestIff | src/ashare_quant/data/announcement_http.py:286-289 | for any number of saves of distinct captures, of any requests, in any interleaving: all finished saves of a request are in its history if and only if no pointer was written over a history that had changed since it was read |
| Interleaving.HistoryGrowsIff | src/ashare_quant/data/announcement_http.py:286-289 | a history is only appended to, at every step, if and only if the same holds |
| Interleaving.SuccessStaysLastIff | src/ashare_quant/data/announcement_http.py:286-289 | at every moment of any interleaving a success is the last entry of its history if and only if no pointer is appended to a history that held a success when it was read |
| Interleaving.JournalIsKeptIff | src/ashare_quant/data/announcement_http.py:258-308 | what the journal promises of single saves (readable, append-only, without duplicates, success last) holds of interleaved saves at every moment if and only if neither of the two happens for any request |
| RacingFetches.SuccessIsBuried | src/ashare_quant/data/announcement_http.py:286-308 | two concrete fetches of one request, their saves one after the other: the timeout is filed behind the answer, and the request loads the timeout |
| RacingFetches.SuccessIsLost | src/ashare_quant/data/announcement_http.py:286-308 | the same fetches with both histories read before either result is written: the answer is not in the history any more, although its save finished |
| Interleaving.LoneSave | src/ashare_quant/data/announcement_http.py:271-289 | among any other saves under way, the operations of one save done in one go compute what the save computes |
| Journal.AcceptanceIsStable | src/ashare_quant/data/announcement_http.py:183-255 | acceptance depends only on the bodies that the attempts name |
| Discovery.AnalyzeSearch | src/ashare_quant/data/cninfo_announcement_provider.py:266-402 | the pagination state machine computes the modelled analysis, issue for issue; which answers are complete and which issue each deviation gives is decided by the four rows below |
| Discovery.PageKeepsScan | src/ashare_quant/data/cninfo_announcement_provider.py:325-396 | a page with more to come leaves exactly that many full pages of distinct records; a last page completes exactly the declared count; a failed page adds nothing |
| Discovery.AnalysisIsHonest | src/ashare_quant/data/cninfo_announcement_provider.py:311-402 | COMPLETE means: every page declares exactly as many announcements as were found, and these are the rows of all required pages in order, each id once; otherwise the records are exactly the rows of the pages that passed, and the page after them, if any, did not; the total can never mismatch |
| Discovery.CompleteIff | src/ashare_quant/data/cninfo_announcement_provider.py:311-402 | a search is COMPLETE with given records if and only if the captures are the organisation answer and all required pages, each captured for its own request, all pages repeat one count and one allowed page number with the right rows and the right continuation, ids are distinct, the identity is verified or something was found, and the page budget suffices |
| Discovery.DeviationDecides | src/ashare_quant/data/cninfo_announcement_provider.py:325-396 | the first page that deviates decides the issue of a partial result, by what is wrong with it |
| Discovery.InterruptionDecides | src/ashare_quant/data/cninfo_announcement_provider.py:311-402 | pages that fit but end early give the interruption, with the next page asked for, or beyond the budget the page limit |
| Discovery.FirstAnswerDecides | src/ashare_quant/data/cninfo_announcement_provider.py:266-310 | what the organisation answer alone decides: not attempted, failed, forbidden or the first page |
| Discovery.NextCaptureIff | src/ashare_quant/data/cninfo_announcement_provider.py:266-402 | one more capture passes the structural checks exactly if it answers the request asked for after the captures before it |
| Discovery.NextCaptureFits | src/ashare_quant/data/cninfo_announcement_provider.py:266-402 | a capture of the request asked for never fails a structural check of the replay |
| Discovery.Search | src/ashare_quant/data/cninfo_announcement_provider.py:409-418 | a search only fails in a fetch, makes at most one request per page and one more, each being the one that the replay of the captures before it asks for, and returns what its replay computes, all of it accepted |
| Acquisition.DiscoveryIsDerivable | src/ashare_quant/data/announcement_sources.py:298-306 | every search result is accepted when it is read again |
| Acquisition.Acquire | src/ashare_quant/data/announcement_sources.py:331-371 | the captures built while downloading, in ascending order and up to the first refusal, are accepted by derive and extend the discovery; a selection is refused exactly if the discovery is incomplete, or it is empty, repeated or too long, or names an announcement that was not found |
| Acquisition.AcquiredIsDerivable | src/ashare_quant/data/announcement_sources.py:119-184 | the shape acquire stops with satisfies every structural check of derive |
| Acquisition.DeriveIff | src/ashare_quant/data/announcement_sources.py:119-184 | a publication is accepted exactly if its bodies are those its captures name, every capture is accepted, the search replays, and its documents are ascending records of a complete discovery, all asked for or cut short by a refusal |
| Acquisition.SortAscends | src/ashare_quant/data/announcement_sources.py:354-354 | sorting a distinct selection makes it strictly ascending and loses nothing |
| Dividends.NormalizeDividends | src/ashare_quant/data/economic_events.py:240-371 | the loops compute the order-free meaning of normalization, each event once; `Dividends.CatalogIff` and `Dividends.HashesAreRetained` say what that is, on rows and reviews |
| Dividends.CatalogIff | src/ashare_quant/data/economic_event_evidence.py:292-299 | an event is catalogued if and only if it describes an implemented row that a review approved, with all fields readable, all amounts given and consistent, its dates in order, due by the cutoff, paying something and disputed by no implemented row; it carries the hashes of all approved clean rows that say the same |
| Dividends.ReviewsAreListed | src/ashare_quant/data/economic_events.py:247-253 | the decision on a row is that of its own review |
| Dividends.CatalogIsUnique | src/ashare_quant/data/economic_event_evidence.py:292-299 | the catalog holds at most one event for each code and ex-date |
| Dividends.CatalogIsUncontested | src/ashare_quant/data/economic_events.py:342-346 | no implemented row, whatever its review state, disagrees with a catalogued event |
| Dividends.HashesAreRetained | src/ashare_quant/data/economic_events.py:347-371 | every implemented row stands behind an event with its own code and values, whose component, status, issues and support are those of the row, its review and its disputes; if no other row shares its hash, behind no other event |
| Dividends.HashesAreOwn | src/ashare_quant/data/economic_events.py:347-371 | an event refers only to implemented rows of its own code and values |
| Dividends.GateAll | src/ashare_quant/data/economic_events.py:342-346 | gating by code and ex-date marks exactly the rows some other row disagrees with |
| Dividends.IndexReviews | src/ashare_quant/data/economic_events.py:247-253 | reviews are indexed exactly if no row is reviewed twice and every reviewed row exists |
| Review.RevisionGroups | src/ashare_quant/data/economic_event_review.py:175-219 | the grouping loop builds one group per identity with all its rows |
| Review.GroupsArePermutationInvariant | src/ashare_quant/data/economic_event_review.py:175-219 | the groups do not depend on the order of the rows |
| Review.GroupsPartitionRows | src/ashare_quant/data/economic_event_review.py:175-219 | every implemented row is a member of exactly one group |
| Screening.TogetherIff | src/ashare_quant/data/economic_event_review.py:175-191 | two rows are in one group exactly if they have the same code, period and terms and are readable, or are the same unreadable row |
| Screening.FindingIff | src/ashare_quant/data/economic_event_review.py:116-172 | a group carries exactly the findings its rows show |
| Screening.GroupIsOf | src/ashare_quant/data/economic_event_review.py:192-219 | a group lists exactly the hashes, source codes and announcement dates of its rows |
| Screening.RowsAreCounted | src/ashare_quant/data/economic_event_review.py:192-219 | one more row adds one to the row count of its own group and changes no other |
| Review.ConflictIsSymmetric | src/ashare_quant/data/economic_event_review.py:220-231 | a group lists another as conflicting exactly if the other lists it |
| Review.BuildTriage | src/ashare_quant/data/economic_event_review.py:244-375 | the loops build exactly the audit, reverse-coverage and undated queue rows |
| Screening.TriageIff | src/ashare_quant/data/economic_event_review.py:390-405 | the status of a queue row, read off its matching raw rows: conflicting, nearby only, none, incomplete, without economics, revised or unique |
| Screening.QueueIsDecided | src/ashare_quant/data/economic_event_review.py:244-375 | the queue asks about exactly the audited boundaries, the held entitlements without a factor change, and the undated rows of held codes; each row of it has exactly the matching and suggested groups, date and status that the raw rows command |
| Screening.ApprovalIff | src/ashare_quant/data/economic_event_review.py:244-507 | a decision approves a group exactly if it names the group and all row hashes of a sound row with economics, due by the cutoff, matching the event, and the only economics reported for its code and date and for its period |
| Review.ApprovableIsAlone | src/ashare_quant/data/economic_event_review.py:378-405 | an approvable match is the only provider group for its code and ex-date and conflicts with no group, although reverse coverage sees only entitled groups with economics |
| Review.ApplyDecisions | src/ashare_quant/data/economic_event_review.py:460-526 | the first faulty decision is reported, each fault stated on the fields of the decision; decisions without fault are contradictory if and only if one approves a group for an event that another withholds; otherwise a group is approved if and only if a decision approves it, names it with all its hashes, and it is an eligible exact match within the cutoff |
| Review.JudgeDecides | src/ashare_quant/data/economic_event_review.py:475-507 | one decision approves a group, or is faulty in a given way, exactly if its own fields say so |
| Review.ApprovalIsSafe | src/ashare_quant/data/economic_event_review.py:475-507 | a group that a decision approves binds all its rows, has no finding, lies within the cutoff, and no other group shares its code and ex-date or conflicts with it |
| Revision.ConflictClosure | src/ashare_quant/data/economic_event_revision_resolution.py:120-128 | the worklist yields the least conflict-closed superset of the exact groups, and fails exactly if there is none |
| Revision.CheckClosure | src/ashare_quant/data/economic_event_revision_resolution.py:107-158 | for any conflict table, a proposal passes if and only if it binds an audited event with several disagreeing exact groups that are conflict-closed, and exactly these groups, their rows and supplements and their identity; otherwise the first fault is reported |
| Revision.AcceptedBindsAllConflicts | src/ashare_quant/data/economic_event_revision_resolution.py:129-132 | no provider group outside an accepted proposal conflicts with one inside, whichever groups the table leaves out |
| Entitlement.PositionCoverage | src/ashare_quant/data/economic_event_evidence.py:175-238 | the nested loops compute the modelled coverage rows |
| Entitlement.HeldIffInside | src/ashare_quant/data/economic_event_evidence.py:177-184 | in a report whose rows span its holding intervals, a holding row on a date exists if and only if the date is a session with entry <= date < closure |
| Entitlement.EligibilityIff | src/ashare_quant/data/economic_event_evidence.py:206-217 | whatever rows the holdings lack, each answer means what it says: a holding row decides, a day inside the interval without one is missing history |
| Entitlement.EntitlementIsDecided | src/ashare_quant/data/economic_event_evidence.py:206-217 | for such reports the entitlement is a function of the dates alone: history is insufficient only outside the calendar, the second such branch is unreachable |
| Entitlement.AcceptedReportDecides | src/ashare_quant/data/economic_event_evidence.py:206-217 | in any report whose position replay is accepted, wherever it came from, ownership on a date is decided by the holding interval |
| Entitlement.RunDecidesEntitlements | src/ashare_quant/data/economic_event_evidence.py:206-217 | for every completed strict run, whatever its renamings and whether or not its replay is accepted, ownership on a date is decided by the holding interval |
| Entitlement.CoverageIsDecided | src/ashare_quant/data/economic_event_evidence.py:185-238 | the coverage table consists of exactly the supported events against the positions they concern, each with the entitlement its dates decide |

## Left out

- Rounding: money is exact, so floating-point error, NaN propagation and the size of tolerances play no role; the overspending guard and the closeness checks are modelled but hold with equality.
- Constant columns: the Top-N size, policy versions, transition hashes and provenance fields are the same in every row and are not repeated; the execution audit tables are always recorded.
- Inputs: price, benchmark and calendar loading, scoring and identity-transition resolution; the benchmark enters as given returns, missing ones being a strict failure.
- Statistics: drawdown, win rates, quantiles, annualised figures and the evidence summary; only the return, profit-and-loss and period parts are modelled.
- Hypotheses: `Governed` excludes a code selected twice for one date; the code would then overwrite a position, and its lifecycle check refuses the run if both fills go through.
- Solvency.RunIsSolvent: assumes that no buyable price has a zero or negative close; a missing close needs no assumption.
- Aliasing: position objects are distinct and private to the simulator object; the tables it returns are values.
- Fetch.SafeHTTPClient.Fetch: sleeping, sockets, TLS and the size accounting of the wire are replaced by an arbitrary reply or listed failure for each exchange; an exception outside the listed ones, such as a malformed length header or location, ends a fetch without a result and is not modelled.
- Journal.CaptureCache.Save: is about one save at a time, `Interleaving` about several; in both each file appears whole, while the source writes bodies without an atomic rename, so that another process could read one half-written.
- Interleaving.SharedRequestIff: the captures being saved are distinct; a second save of the very same capture could restore an entry that was overwritten.
- Worklist registration and cache directories shared between clients with different limits.
- Org identity, page requests and announcement rows are decoded by uninterpreted functions; keyword, exchange and title evidence is not modelled.
- Acquisition.Acquire: PDF inspection, document statuses, publication manifests and parent checks.
- Dividends.NormalizeDividends: the final order of events follows their hashes in the source and is not modelled; reviews carry only a row and a decision.
- Review.BuildTriage: capital, priority and factor diagnostics of a queue row; who decided, why and when.
- Revision.CheckClosure: the row-by-row repetition of identity fields, requests and announcement dates, and the official terms cited from documents.
- Settings validation, command line, reports, databases, label joins and model scoring.

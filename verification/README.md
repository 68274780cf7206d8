# Verified models of the backtest engine and the session, dispatch, cache and limiter services

This project models the stateful core of a quantitative research platform and proves what it keeps over
whole runs. Five components are covered.

- **The T+1 backtest engine and its cost model** (`CostModel`, `EngineTypes`, `Execution`, `Ledger`,
  `BuySelection`, `TradingSession`, `SessionLaws`, `SessionCauses`, `Purchases`, `RunLaws`, `MarkLaws`, `Engine`).
  `Engine` holds the imperative engine: a `PortfolioState` object that every order updates in place, the loops over
  orders, codes and sessions, and the shrinking loop of a purchase. Each method is proved to compute the function of
  the same step in `Execution` and `TradingSession`. `Ledger` and `SessionLaws` prove what single fills and whole
  sessions keep, `SessionCauses` why each trade is made and what must or must not be sold, `Purchases` what is bought;
  `RunLaws` and `MarkLaws` prove what holds in every state of every backtest.
- **Refresh-token rotation** (`AuthSessions`, `AuthRuns`, `AuthTimes`): the two tables, the operations on them, and
  all runs of logins, rotations and logouts with arbitrary presented tokens. The pattern is rotation with replay
  detection, as in section 4.14.2 of RFC 9700.
- **Idempotent rerun dispatch** (`RerunDispatch`): the request table and the interleaved steps of any number of
  callers that may fail, wait, recover a job or crash.
- **The AI cache, its lock registry and the usage ledger** (`LockRegistry`, `AiService`, `AiRuns`): one invocation as
  a method, and all interleavings of the steps of concurrent invocations.
- **The sliding-window limiter and the one-pass drawdown** (`RateLimit`, `Drawdown`): loops proved equal to their
  declarative definitions.

## Conventions

Money, prices, rates, volumes and clock readings are `real`; shares are integers. Stock codes are numbers whose order
stands for the string order; session, family, token, experiment, job and caller identifiers are numbers too, with
`NO_ID` for the empty string. A price row is a map in which a missing quotation is a missing key. The holdings
dictionary is a map together with the insertion order of its keys, because the engine iterates over it. Generated
identifiers, clock readings, provider answers and broker outcomes are parameters; generated identifiers are required
to be new. A stored token proof determines its token (an injective hash), and nothing is assumed about presented
tokens. Each committed transaction is one step. Fee rates and the minimum commission are nonnegative, as
`backend/strategies/base.py:245-262` enforces for the configurations it builds; that check also keeps the rates well
below a sum of 1, which the cash floor asks for. `Wrappers` and `Numbers` hold option types and facts about rounding
and products.

## Findings

- `calc_shares` is documented as the number of shares the money can buy, but it can overspend when the minimum
  commission applies: with the default rates 1005.7 buys 1000 shares at 1.0, which cost 1006
  (`CostModel.CalcSharesCanOverspend`). `CalcSharesAffordableIff` gives the exact condition on the capital, the price
  and the rates; the overspend is bounded, and the engine's shrinking loop repairs it.
- The engine's documentation says that the signal-driven mode never changes a holding without a signal
  (`backend/core/engine.py:59-62`). With point-in-time eligibility it sells codes that leave the index without one
  (`SessionLaws.SoldWithoutASignal`). A holding without a signal stays as it is exactly when there is no eligibility
  list, it is on the list, or its forced exit can fill no share (`SessionLaws.NothingMovesWithoutASignal`).
- A rejected refresh token revokes its session by id, user and family, but tokens by user and family alone. Claims
  that pair a family with another session id therefore revoke live tokens and leave their session active
  (`AuthRuns.MismatchedClaimsRevokeTokens`), which can then never rotate again (`RevokedTipEndsRotation`); no issued
  token has such claims (`IssuedClaimsMatch`).
- A rerun request whose owner crashes after claiming it and before a job is persisted, or after a failed submission
  and before the release, stays marked as dispatching for good: no later caller with the same key is ever answered
  (`RerunDispatch.OwnerCrashWedges`, `WedgedForever`). The recovery that the code documents covers only a crash after
  the job is persisted. This is the only way to get stuck: no other step does it (`OnlyCrashesWedge`), and in every
  other state a new caller can still be answered (`AnswerableUnlessWedged`).
- The second operand of the test that removes a lock entry, `not entry.lock.locked()`, is redundant: when the last
  user leaves, the lock is free (`LockRegistry.LastUserFindsLockFree`).
- The branch of a rotation that rolls back when the token update changes no row, and the branch of a rerun that
  claims nothing although it read NULL, cannot be reached inside their transactions and are not modelled
  (`AuthRuns.ConsumingUpdatesOneRow`, `RerunDispatch.ClaimMakesAnOwner`).

## Model

| member | source | states |
|---|---|---|
| CostModel.CalcShares | backend/core/cost_model.py:65-89 | for every capital, price and nonnegative rates the answer is a nonnegative multiple of 100 |
| CostModel.BuyCostIsLargerOfTwoLines | backend/core/cost_model.py:34-47 | the cost of a purchase is the larger of a proportional and a minimum-commission line |
| CostModel.BuyCostInRates | backend/core/cost_model.py:34-47 | the two lines of a purchase in terms of price, shares and rates alone |
| CostModel.BuyCostMonotone | backend/core/cost_model.py:34-47 | more shares never cost less |
| CostModel.MaxAffordableExact | backend/core/cost_model.py:34-47 | a positive multiple of 100 fits the capital if and only if it is at most a closed form of the inputs |
| CostModel.CalcSharesBranch | backend/core/cost_model.py:79-89 | a multiple of 100 is within the answer if and only if it fits the capital, less the missing part of the minimum commission when the first estimate pays less |
| CostModel.CalcSharesNeverTooFew | backend/core/cost_model.py:65-89 | the next hundred shares are always out of reach, so the answer is never below the most that is affordable |
| CostModel.CalcSharesSpendsWithinCapital | backend/core/cost_model.py:65-89 | on every branch price times shares is at most the capital |
| CostModel.CalcSharesAffordableAboveMinimum | backend/core/cost_model.py:81-88 | when the first estimate's commission reaches the minimum the answer is the largest affordable one |
| CostModel.CalcSharesAffordableIff | backend/core/cost_model.py:65-89 | the answer is affordable if and only if the first hundred beyond the affordable ones fails the test of the branch, a condition on capital, price and rates alone |
| CostModel.CalcSharesCanOverspend | backend/core/cost_model.py:82-88 | a concrete capital whose answer costs more than it |
| CostModel.CalcSharesOverspendBound | backend/core/cost_model.py:65-89 | the overspend is at most 2(1 + commission rate) times the minimum commission |
| CostModel.SellProceedsFloor | backend/core/cost_model.py:49-63 | with rates summing to at most 1 a sale never brings in less than minus the minimum commission |
| CostModel.SellProceedsIsSmallerOfTwoLines | backend/core/cost_model.py:49-63 | the proceeds of a sale are the smaller of a line that pays all three rates and a line that pays stamp duty, slippage and the minimum commission |
| CostModel.FeesAtLeastMinimum | backend/core/cost_model.py:34-63 | every order pays at least the minimum commission |
| CostModel.FeesAreCharged | backend/core/cost_model.py:34-63 | what a purchase costs beyond its amount and a sale brings in below it is the fee schedule's charge on the amount; only sales pay stamp duty |
| Execution.ExecutableSharesProps | backend/core/engine.py:533-566 | fills are whole lots within the request and the participation cap |
| Execution.ExecutableSharesIsMaximal | backend/core/engine.py:541-566 | no larger whole number of lots respects the request and the participation cap |
| Execution.CompleteFill | backend/core/engine.py:533-566 | a request for whole lots within the cap fills completely |
| Execution.SellFillIsMaximal | backend/core/engine.py:500-510 | a sale is whole lots within the request, the holding and the participation cap, and the most that is all this |
| Execution.ShrinkIsMaximal | backend/core/engine.py:380-400 | the shrinking loop ends at the largest whole number of lots within the request whose cost fits the cash |
| Execution.BuyFillProps | backend/core/engine.py:348-408 | a purchase is whole lots, affordable, within the caps, within the position limit, and leaves the code within its target value |
| Execution.BuyFillSpendsAllItCan | backend/core/engine.py:355-400 | a purchase fills at least every number of whole lots within some hundreds whose cost fits both the cash and what the code lacks of its target value, if the cap admits it |
| Ledger.WithoutProps | backend/core/engine.py:513-519 | popping a code removes it and nothing else from the ordered holdings |
| Ledger.SellKeepsShape | backend/core/engine.py:487-531 | a sale keeps holdings positive whole lots with matching cost and close keys |
| Ledger.BuyKeepsShape | backend/core/engine.py:348-408 | a purchase keeps the same, and at most max_positions codes |
| Ledger.SellKeepsAccounts | backend/core/engine.py:511-531 | after a sale, replaying the log still gives the cash, every share count and every average cost |
| Ledger.BuyKeepsAccounts | backend/core/engine.py:401-425 | the same after a purchase |
| Ledger.SellKeepsCosts | backend/core/engine.py:511-519 | after a sale, average cost times shares is the replayed cost of every position, of which the sale took its part |
| Ledger.BuyKeepsCosts | backend/core/engine.py:401-409 | after a purchase, average cost times shares is the replayed cost of every position, to which the purchase added what it paid |
| Ledger.SellKeepsOrder | backend/core/engine.py:513-519 | after a sale the holdings are still listed in the order in which the log opened their positions |
| Ledger.BuyKeepsOrder | backend/core/engine.py:401-409 | after a purchase too: a new position goes to the end, an old one keeps its place |
| Ledger.SellCostsItsFee | backend/core/engine.py:511-531 | a sale lowers the value at the open by exactly its logged fee |
| Ledger.BuyCostsItsFee | backend/core/engine.py:380-425 | a purchase lowers the value at the open by exactly its logged fee |
| Ledger.SellKeepsFloor | backend/core/engine.py:511-512 | a sale keeps the cash above minus (sales so far) times the minimum commission, and above 0 if sales cover their fees |
| Ledger.BuyKeepsFloor | backend/core/engine.py:384-404 | a purchase never takes the cash below 0 |
| BuySelection.SortByScoreIsStableSort | backend/core/engine.py:276-289 | the batch is sorted by score, highest first, is a permutation, and keeps ties in order |
| BuySelection.ChosenAreDistinct | backend/core/engine.py:290-298 | at most one signal per code and at most max_positions of them, all from the batch |
| BuySelection.ChosenAreTheBest | backend/core/engine.py:290-298 | a signal is dropped only for a better one of its code or for max_positions at least as good |
| BuySelection.ChosenAreFirst | backend/core/engine.py:290-298 | a chosen signal is the first of its code in the sorted batch |
| BuySelection.TargetWeightsAreProportional | backend/core/engine.py:572-582 | requested weights, clipped at 0, are granted if they sum to at most 1.000001, else divided by their sum, so that they sum to 1 |
| BuySelection.TargetWeightsAreEqual | backend/core/engine.py:578-579 | without a positive request all weights are equal and sum to 1 |
| BuySelection.SortCodesSorts | backend/core/engine.py:222 | forced exits go in ascending order of code, a permutation of the codes |
| SessionLaws.FillsAreSound | backend/core/engine.py:212-425 | all phases of a session keep shape, accounts and cash floor, and the value at the open drops by the fees |
| SessionLaws.SessionIsTPlusOne | backend/core/engine.py:199-425 | sales come before purchases, no more of a code is sold than was held at the previous close, at most one purchase per code, only eligible ones, all dated today and decided on the signal date |
| SessionLaws.SellManyTakesOnce | backend/core/engine.py:487-519 | orders for different codes fill independently of each other |
| SessionLaws.EligibleBuysAreEligible | backend/core/engine.py:276-286 | the batch takes exactly the BUY signals whose code is a member on both dates |
| SessionLaws.OutsidersAreGone | backend/core/engine.py:212-235 | a non-member still held had no valid open, or more of it was held at the previous close than the participation cap lets a fill take |
| SessionLaws.TargetSharesWithinValue | backend/core/engine.py:318-324 | a target is the largest whole number of lots worth at most its value |
| SessionLaws.TrimReachesTarget | backend/core/engine.py:313-343 | trimming leaves a holding whose shares are within the cap at its target, or where it was when below |
| SessionLaws.RebalancedWithinTargets | backend/core/engine.py:299-408 | after a rebalancing session holdings whose shares were within the cap are within equity times weight, and omitted ones are gone |
| SessionLaws.SellSignalIsHonoured | backend/core/engine.py:256-274 | a SELL signal leaves no more of a code than what a sale within today's cap can leave, none if the whole holding is within the cap |
| SessionLaws.MonthlyLiquidationClears | backend/core/engine.py:237-254 | the monthly liquidation leaves no more of any code than what a sale within today's cap can leave |
| SessionLaws.NothingMovesWithoutASignal | backend/core/engine.py:59-62 | with signal-driven event orders a holding without a signal is unchanged if and only if there is no eligibility list, it is on it, or its forced exit fills no share |
| SessionLaws.SoldWithoutASignal | backend/core/engine.py:212-235 | an input on which a holding that left the index is sold although there is no signal |
| SessionLaws.OpenWorthIsWorth | backend/core/engine.py:584-594 | holdings before the open are worth their open, or their last close where no open is quoted, and nothing at a price that is not positive |
| SessionLaws.EquityAtOpenIsValue | backend/core/engine.py:584-594 | the equity at the open is the cash and the holdings at those prices |
| SessionLaws.SessionEquity | backend/core/engine.py:299-305 | with an open for every holding, targets are sized by the value of the portfolio at the opens less the fees of the session's sales |
| SessionCauses.SessionIsCaused | backend/core/engine.py:212-425 | every trade of a session is a forced exit of a non-member, a liquidation when the month begins, a SELL signal's, a trim under target weights with a followable BUY signal, or the purchase of a BUY signal's code with its score |
| SessionCauses.SessionGoesInPhases | backend/core/engine.py:212-425 | exits come first, by ascending code, then the liquidation, by age of the positions, then the strategy's sales, then its purchases by descending score |
| SessionCauses.SessionSellsWhatIsDue | backend/core/engine.py:212-274 | what is outside the index, held when a month begins in the liquidating mode, or has a SELL signal is sold at least as far as one sale within the cap may go |
| SessionCauses.SessionSparesTheRest | backend/core/engine.py:212-274 | nothing else is sold, unless target weights trim it |
| Purchases.BatchIsBest | backend/core/engine.py:276-298 | the batch has descending scores, and an eligible BUY signal is left out only for its code's own signal or max_positions others that score no less |
| Purchases.BuyManyMissesNothing | backend/core/engine.py:344-425 | whatever the cash left after all purchases could have bought towards a code's target was bought |
| Purchases.NoPurchaseIsMissed | backend/core/engine.py:299-425 | the same for the batch and the targets of a session |
| RunLaws.RunIsSound | backend/core/engine.py:168-460 | in every reachable state the portfolio is well formed, the log replays to it exactly, and the cash is above its floor |
| RunLaws.RunHoldsFewPositions | backend/core/engine.py:348-353 | at most max_positions codes are ever held |
| RunLaws.SnapshotsAddUp | backend/core/engine.py:427-452 | a session's snapshots add up to the holdings at their last closes |
| RunLaws.UnrealizedIsGainOverCost | backend/core/engine.py:436-452 | unrealized profits add up to the gain of the holdings over their average costs |
| RunLaws.CurveIsEquity | backend/core/engine.py:454-460 | every equity record has the date of its session (the day before the first for the baseline) and is the cash plus the holdings at their last closes |
| RunLaws.DailyAttribution | backend/core/engine.py:404-460 | the change of equity is the overnight gain of old holdings plus the intraday gain of new ones minus the logged fees |
| RunLaws.ConstantPricesLoseOnlyFees | backend/core/engine.py:404-460 | at constant prices the equity is the initial capital minus all fees |
| RunLaws.RunFillsAreDated | backend/core/engine.py:185-425 | every trade of a run is a fill of one of its sessions, within that session's participation cap |
| RunLaws.RunTradesAreTPlusOne | backend/core/engine.py:199-209 | every trade executes at an open at the fees of the schedule, its cause is in the signals filed under the session before it, the index or the calendar, and purchases are members on both dates |
| RunLaws.RunLogIsDayOrdered | backend/core/engine.py:212-425 | in the log of a run no sale follows a purchase of the same date and no code is bought twice on one date |
| RunLaws.RunSessionGoesInPhases | backend/core/engine.py:185-425 | each session of a run trades phase by phase |
| RunLaws.RunSellsWhatIsDue | backend/core/engine.py:199-274 | over a run, what is outside the index that day, held in the first session of a month in the liquidating mode, or named by a SELL signal filed under the preceding session is sold as far as one sale may go |
| RunLaws.RunSparesTheRest | backend/core/engine.py:199-274 | over a run, nothing else is sold, unless target weights trim it |
| RunLaws.RunCountsSignals | backend/core/engine.py:199-210 | the signals counted are those filed under the preceding sessions |
| RunLaws.RunLeavesNoSellableOutsider | backend/core/engine.py:212-235 | over a run, a non-member held at a close had no valid open that day, or exceeded at the previous close what that day's cap lets a fill take |
| RunLaws.NoLookAhead | backend/core/engine.py:182-210 | backtests that agree up to a session are identical up to it |
| RunLaws.RunGrows | backend/core/engine.py:185-460 | later sessions only append to the log, the snapshots and the curve |
| RunLaws.TradingDaysExact | backend/core/engine.py:604-614 | the sessions are exactly the days of the tape within the two dates, in order |
| RunLaws.LastBeforeIsLatest | backend/core/engine.py:201-203 | the first session takes its signals from the latest earlier day of the tape |
| RunLaws.ExtendingEndDateKeepsPrefix | backend/core/engine.py:604-614 | a later end date leaves the earlier result as an exact prefix |
| RunLaws.BacktestFailsExactly | backend/core/engine.py:150-222 | a backtest fails if and only if a session within the dates has no row of the tape, or else no index members |
| RunLaws.BacktestReports | backend/core/engine.py:149-158 | the result is the state after the last session: final equity is its value at the last closes; without a session, the initial capital |
| MarkLaws.CloseIsCarried | backend/core/engine.py:427-434 | a holding is valued at the day's valid close, else at its previous last close if the session did not sell it out, else not at all |
| MarkLaws.SnapshotsAreExact | backend/core/engine.py:427-452 | each session has one snapshot for each holding with a last close, in the order of opening, with its shares, average cost, last close, market value and unrealized profit |
| Engine.BacktestEngine.ExecuteSell | backend/core/engine.py:487-531 | the new portfolio and the trade record are those of the sell step |
| Engine.BacktestEngine.ExecuteBuy | backend/core/engine.py:348-425 | the new portfolio and the trade record are those of the buy step |
| Engine.BacktestEngine.AffordableShares | backend/core/engine.py:384-398 | the loop returns the largest affordable whole number of lots |
| Engine.BacktestEngine.LiquidateCodes | backend/core/engine.py:222-254 | the loop sells everything of each code in order |
| Engine.BacktestEngine.SellOnSignals | backend/core/engine.py:261-274 | the loop carries out the SELL signals in order |
| Engine.BacktestEngine.TrimHoldings | backend/core/engine.py:313-343 | the loop carries out the trims computed from the holdings before it |
| Engine.BacktestEngine.BuyOnSignals | backend/core/engine.py:344-425 | the loop carries out the batch in order |
| Engine.BacktestEngine.SelectBuys | backend/core/engine.py:290-298 | the loop with its seen set and early exit makes the choice whose optimality is proved |
| Engine.BacktestEngine.PortfolioEquityAtOpen | backend/core/engine.py:584-594 | the accumulated value is the cash and the holdings, each at its open or else its last close |
| Engine.BacktestEngine.TradeSession | backend/core/engine.py:212-425 | all phases on one portfolio give the session's book |
| Engine.BacktestEngine.MarkToMarket | backend/core/engine.py:427-452 | last closes, snapshots and market value of the close |
| Engine.BacktestEngine.RunDay | backend/core/engine.py:185-460 | one session gives its fills, its snapshots and its equity record |
| Engine.BacktestEngine.Run | backend/core/engine.py:129-470 | the result, or the error, of the whole backtest |
| AuthSessions.AuthStore.IssueNewSession | backend/auth/sessions.py:96-140 | inserts one session and its first token |
| AuthSessions.AuthStore.RotateRefreshToken | backend/auth/sessions.py:143-250 | consumes a valid token and issues its successor, or revokes, or ignores malformed claims |
| AuthSessions.AuthStore.RevokeSession | backend/auth/sessions.py:272-300 | the new tables and the number of sessions newly revoked |
| AuthSessions.AuthStore.SessionIsActive | backend/auth/sessions.py:253-269 | whether the session exists for the user, unrevoked and unexpired |
| AuthRuns.StepKeepsInv | backend/auth/sessions.py:96-300 | every operation keeps the table and chain invariants |
| AuthRuns.RotationChain | backend/auth/sessions.py:143-250 | in every run a session has at most one unused token, each token is accepted at most once, and acceptances form one chain |
| AuthRuns.AcceptedExactly | backend/auth/sessions.py:172-190 | a token is accepted if and only if it is the last one issued by a session, and neither is revoked nor the session expired |
| AuthRuns.ReplayKillsItsFamily | backend/auth/sessions.py:191-207 | a used token revokes its session and all its tokens and changes nothing else |
| AuthRuns.LogoutRevokesExactly | backend/auth/sessions.py:272-300 | a logout revokes exactly the selected sessions with their tokens |
| AuthRuns.RejectedTokenReachesExactly | backend/auth/sessions.py:191-207 | a rejected token changes exactly the session it names by id, user and family, and exactly the unrevoked tokens of its user and family |
| AuthRuns.UnnamedSessionsAreSpared | backend/auth/sessions.py:191-200 | a token that names no session changes no session |
| AuthRuns.MismatchedClaimsRevokeTokens | backend/auth/sessions.py:201-205 | claims with the right user and family and another session id revoke a live token while its session stays active |
| AuthRuns.IssuedClaimsMatch | backend/auth/sessions.py:83-93 | an issued token never has such claims: the family it reaches is that of the session it names |
| AuthRuns.ConsumingUpdatesOneRow | backend/auth/sessions.py:209-216 | the conditional update of an accepted token matches exactly its own row |
| AuthRuns.RevocationIsForever | backend/auth/sessions.py:110-134 | in every continuation a revocation keeps its time and reason, no token of the session is accepted, and no session outlives its original expiry |
| AuthRuns.TokensPersist | backend/auth/sessions.py:201-213 | in every continuation a token row keeps its owner, family and proof and the times of its first use and first revocation |
| AuthRuns.RevokedTipEndsRotation | backend/auth/sessions.py:172-207 | a session whose last token is revoked accepts no token in any continuation, even while the session row is active |
| AuthTimes.LoginsKeepTheirDates | backend/auth/sessions.py:109-129 | in every run the session of a login keeps its user, its creation time and an expiry one lifetime later |
| AuthTimes.SessionsComeFromLogins | backend/auth/sessions.py:123-129 | every session comes from a login |
| AuthTimes.RevokedExactly | backend/auth/sessions.py:191-300 | a session is revoked if and only if a logout selected it or a rejected token named it; time and reason are those of the first that did |
| AuthTimes.ActiveExactly | backend/auth/sessions.py:253-269 | the session of a login is active if and only if the user is its own, less than one lifetime has passed and nothing has revoked it |
| AuthTimes.TokensKeepTheirDates | backend/auth/sessions.py:129-238 | in every run an issued token keeps its owner, its issue time and an expiry one lifetime later, and an accepted token is marked as used at the time it was accepted |
| AuthTimes.TokenRevokedExactly | backend/auth/sessions.py:191-300 | an unrevoked token is revoked by exactly the logouts that select its session and the rejected tokens of its user and family, at their time |
| AuthTimes.LastSeenIsLastUse | backend/auth/sessions.py:236-241 | a session was last seen at its login or at its last accepted rotation |
| RerunDispatch.RerunTables.BeginRerun | backend/api/research.py:396-489 | the first transaction: insert, conflict, wait, answer or claim; a conflict if and only if the key is stored with another source or drift setting |
| RerunDispatch.RerunTables.SettleDispatch | backend/api/research.py:521-563 | binds or releases only a request still marked as dispatching |
| RerunDispatch.RerunTables.FindJob | backend/api/research.py:95-111 | the latest job of the experiment and user, None exactly when there is none |
| RerunDispatch.StepKeepsInv | backend/api/research.py:65-135 | every step of every caller keeps the protocol invariant |
| RerunDispatch.ExactlyOnce | backend/api/research.py:388-572 | one owner at a time, one experiment per request, at most one job, and one answer for all callers |
| RerunDispatch.BoundForever | backend/api/research.py:504-572 | a bound job, a given answer, a persisted job and a request's experiment never change |
| RerunDispatch.AnswersAreBacked | backend/api/research.py:92-125 | an answer is a persisted job to which its request is bound, also when recovery races the owner |
| RerunDispatch.ConflictExactly | backend/api/research.py:403-415 | in every run a caller that opened and did not crash was turned away if and only if its key is stored with another source or drift setting |
| RerunDispatch.GivesUpAfterLooking | backend/api/research.py:73-136 | a waiter gives up only after it has looked for the job 40 times |
| RerunDispatch.BoundIsSeen | backend/api/research.py:76-90 | a waiter that reads a bound request is answered with its job |
| RerunDispatch.OwnerCrashWedges | backend/api/research.py:504-550 | the crash of an owner wedges its request if and only if its job is not persisted: before the submission, or after a failed one and before the release |
| RerunDispatch.OnlyCrashesWedge | backend/api/research.py:504-563 | among all steps only the crash of an owner without a persisted job wedges a request |
| RerunDispatch.WedgedIsReachable | backend/api/research.py:504-550 | both crashes are runs of a single caller |
| RerunDispatch.ClaimMakesAnOwner | backend/api/research.py:421-429 | a claim inside its transaction always changes its one row and makes an owner |
| RerunDispatch.WedgedForever | backend/api/research.py:65-135 | a wedged request is never answered again |
| RerunDispatch.AnswerableUnlessWedged | backend/api/research.py:388-572 | a stored request that is not wedged has a continuation that answers a new caller |
| LockRegistry.LockTable.Enter | backend/ai/cache.py:206-212 | shares the entry of a key or creates it, and counts the user |
| LockRegistry.LockTable.Leave | backend/ai/cache.py:216-220 | uncounts the user and removes an unused unlocked entry |
| LockRegistry.LastUserFindsLockFree | backend/ai/cache.py:217-220 | the last user to leave finds the lock free |
| LockRegistry.StepKeepsInv | backend/ai/cache.py:203-220 | every step, also of a cancelled waiter, keeps the registry invariant |
| LockRegistry.Exclusion | backend/ai/cache.py:203-220 | callers of a key share one entry, which counts them and exists exactly while there are any, and at most one is inside |
| AiService.AiService.Get | backend/ai/cache.py:134-166 | what a lookup returns and evicts |
| AiService.AiService.RecordUsage | backend/ai/service.py:91-138 | appends one row, charging nothing for hits and failed calls |
| AiService.AiService.Invoke | backend/ai/service.py:161-263 | one usage row, the answer or error, and the cache after it; other keys are untouched |
| AiRuns.SingleFlight | backend/ai/service.py:184-219 | at most one invocation per key is in flight, and it calls the provider only if nothing could be served |
| AiRuns.ProviderIsCalledForAReason | backend/ai/service.py:184-219 | with a clock that never goes back, the provider is called while the last stored answer is alive only after a validator rejected that answer |
| AiRuns.LookupKeepsWhatItServes | backend/ai/cache.py:134-166 | a lookup whose second clock reading is no earlier keeps the row of its key if and only if it serves it, and all other rows |
| AiRuns.MissesLeaveNoRow | backend/ai/service.py:184-263 | in every run the table has no row of a key from the lookup that served nothing, or the rejection of what it served, until a new answer is stored |
| AiRuns.HitsAreTheLastStored | backend/ai/service.py:184-212 | a hit is the last answer stored for its key, read within its time to live, given by the provider and accepted by its caller's validator (or an unexpired row from before), and this caller's validator accepted it |
| AiRuns.OnlyAcceptedAnswersAreStored | backend/ai/service.py:232-248 | every stored answer was given by the provider and accepted by a validator, and every new row is one of them with its expiry |
| AiRuns.OneRowPerInvocation | backend/ai/service.py:91-138 | no invocation has two usage rows and every completed one has one |
| AiRuns.HitsStayFree | backend/ai/service.py:112-122 | in every run each usage row marked as a hit charges no tokens |
| AiRuns.TokensAreConserved | backend/ai/service.py:184-263 | recorded tokens are the provider's less those in flight and those of cancelled invocations |
| AiRuns.UninterruptedRunIsInvocation | backend/ai/service.py:184-263 | the steps of an uninterrupted caller do to the table and the ledger what one invocation does |
| RateLimit.AuthRateLimiter.EnforceAuthRateLimit | backend/auth/rate_limit.py:39-52 | the decision and the new deque of the key, all others unchanged |
| RateLimit.PruneIsNewer | backend/auth/rate_limit.py:43-45 | on a sorted deque, pruning the front keeps exactly the newer attempts |
| RateLimit.DecidesByHistory | backend/auth/rate_limit.py:41-52 | an attempt is refused if and only if the admitted attempts of the last window of max(window_seconds, 1) have reached max(limit, 1) |
| RateLimit.NoWindowExceedsLimit | backend/auth/rate_limit.py:41-52 | no interval of max(window_seconds, 1) seconds admits more than max(limit, 1) |
| RateLimit.KeysDoNotInterfere | backend/auth/rate_limit.py:40-42 | a key fares as if its own attempts were the only ones |
| Drawdown.CompoundsAcross | backend/api/trading.py:1964-1970 | the value of two periods in a row is the product of their values |
| Drawdown.MaxDrawdown | backend/api/trading.py:1964-1970 | for any returns, the lowest decline from the running peak; above -1 if and only if the value never reaches zero; the all-pairs drawdown for returns above -1 |
| Drawdown.RunningPeakIsAllPairs | backend/api/trading.py:1964-1970 | for returns above -1 it is the minimum change over all pairs of days, in (-1, 0] |

## Left out

- Floating-point rounding, NaN and infinity, and the extraction of price rows from data frames.
- A volume cap per day and code across phases: the engine caps each fill separately, and so does the model.
- Negative fee rates, which would let the cost formulas divide by zero.
- RunLaws.RunIsSound: the cash floor is stated for commission, stamp duty and slippage rates that sum to at most 1.
- JWT encoding, signatures and expiry at decoding, SHA-256, bcrypt, and the text format of timestamps, whose string order differs from time order within a second that has no microseconds.
- Deletion of users and the cascades it causes; listing of sessions; permissions and access tokens.
- The checks of a rerun request before its transaction, experiment status fields, and jobs of the same experiment submitted by other endpoints.
- A broker that persists a job and then raises: submission either persists one job or fails without persisting.
- Cache keys from nested values (`normalize_cache_value`), the JSON round trip of a cached answer, model names, endpoints and latencies.
- Storage failures of the AI service; a failed write of a usage row loses that row.
- Locks shared by several event loops or threads beyond the guarded registry.
- The Sharpe, Sortino and annualised figures of `_strategy_metrics`.
- The portfolio, factor, data and point-in-time HTTP layers, the job scheduler, the remote worker and the frontend.

# Verified model of the trading backend's risk and coverage admission

This project models, in Dafny, the parts of the trading platform that decide how much risk may be
taken and what may be streamed, and proves what they keep.

- **Capital allocator.** Candidates are screened into plans, duplicates and opposite directions are
  resolved, and the survivors spend overlapping budgets greedily: portfolio, cycle, strategy, family,
  instrument, both currencies, position counts, per-trade notional and gross notional
  (`Allocator`, `AllocationCycle`, `Screening`, `PlanSelection`, `PlanRanking`, `Competition`,
  `BudgetBounds`, `LimitConditions`, `GrantCompleteness`, `RefusalReasons`, `SizingCoherence`,
  `NotionalBounds`, `SpendingSums`, `CycleAccounting`, `CycleCounts`).
- **Admission protocol.** Many workers take the allocation lock, rebuild the open state from the
  stored book with two queries, run a cycle, store what it selected, and release, while fills, closings,
  repricings and adopted positions change the book outside the lock. An instrument has at most one
  unclosed intent (`OpenBook`, `OpenBookSums`, `StoredBook`, `ZeroGrants`, `AdmissionProtocol`,
  `AdmissionInvariant`, `ReachableWorlds`, `SampleRuns`, `AdmissionConditions`, `QuietRuns`).
- **IG adapter.** Order sizing with its rounding, the limiter for non-trading requests, and the
  market-details cache with its batched read (`IgSizing`, `RepeatedRounding`, `StopSizing`,
  `RateLimiter`, `AllowancePauses`, `LaggedCalls`, `MarketCache`).
- **Coverage.** The streaming plan under a cap and per-class budgets, and the promotion requests
  under a per-minute budget (`StreamingPlan`, `StreamingOrder`, `Promotions`).
- **Reporting.** The exposure summary and the console's sums over it, the allocation alerts, and the
  grouping of the activity feed (`Exposure`, `ExposureTotals`, `Alerts`, `AlertContents`,
  `AlertMarks`, `AlertRuns`, `ActivityGroups`).

`Basics`, `Rounding` and `Ordering` hold what the others share, and `SamplePlans` the plans on which
conditions are shown to be exact: plans that the screening and an IG quote do produce. Python floats
and JavaScript numbers are exact reals; the roundings to six and eight digits that the code performs are explicit
functions, with ties to the even neighbour. Code that changes state step by step is a method or a
class whose contract ties the new state to a specification function; the theorems are lemmas about
those functions, over every input, every cycle, every run or every interleaving. What a specification
function computes is stated again in plain terms, in sums over the inputs or conditions on them that
do not use it (`SpendingSums`, `OpenBookSums`, `StopSizing`, `AllowancePauses`, `Screening`, `Competition`,
`RefusalReasons`, `CycleCounts`, `StreamingOrder`, `ExposureTotals`, `AlertContents`), and proved to agree.

## What was found

Where a property that the code looks meant to have is false, the model keeps the code as it is and
the exact condition is proved.

- IG size normalisation can enlarge an order, because it rounds to eight digits after stepping down.
  It never does so exactly when the instrument has a size step that is a whole number of 1e-8 units.
  Off that grid an accepted size of at least m is enlarged by at most the factor m / (m - 5e-9), so by
  twice at worst and by next to nothing on an instrument with an ordinary minimum. The risk limits are
  kept, up to half a unit of the sixth digit, exactly on instruments with such a step, whether or not they
  have a minimum (`IgSizing.NeverEnlargesIffStepOnGrid`, `IgSizing.NormalizationLift`,
  `LimitConditions.KeepsLimitsIffStepOnGrid`). Normalising twice is normalising once exactly without a
  step, with one on the grid, with one of at most 5e-9, or with one of p / (2p - 1) times 1e-8
  (`RepeatedRounding.NormalizationIdempotentIff`).
- With a price increment of at least 1e-9 a quoted size loses no more than the risk amount at its stop, and exactly
  that if and only if the stop reaches the broker's minimum and the 1e-9 floors do not bite. With a smaller
  increment, which the quote replaces by 1e-9, it can lose more; when it does not is stated for all positive
  increments (`StopSizing.LossAtStop`, `RiskKeptIff`, `SmallIncrementOverspends`).
- A selected order can be refused when it is placed, because its size is rounded once more. That never
  happens exactly when the rounded minimum order still reaches the minimum, or no normalised size is
  below it (`LimitConditions.AlwaysPlaceableIff`).
- A signal with a negative percent asks for nothing and is rejected as if a budget were exhausted
  (`GrantCompleteness.ExhaustionIsReal`, `AllocationCycle.NothingAskedIff`).
- The open state is rebuilt from two queries, positions first, and fills happen outside the lock. A fill
  that completes in between is in neither answer, and the worker can grant the whole limit again, for
  another instrument. A listing returns the 250 most recently updated intents, partial fills among them,
  and can leave out one that counts. The bound on the book holds exactly when all workers share one lock,
  either intents are listed first or no fill is settled between the two queries, and no listing leaves out
  a counted intent; each failure is reached from an empty book with grants for distinct instruments
  (`AdmissionConditions.KeepsBoundIff`). With one lock the excess is never more than what the workers missed
  in these two ways (`AdmissionInvariant.AdmissionBound`).
- Outside PostgreSQL the lock belongs to one process: the workers exclude each other exactly when they
  contend for one lock (`AdmissionConditions.MutualExclusionIff`).
- A grant worth at most half of the sixth digit is reserved at zero percent, and a stored zero is taken for
  a missing value: the book then carries the requested percent. That happens for an ordinary request as
  soon as the book is nearly full (`ZeroGrants.ZeroGrantIff`, `RebuildExactIff`, `ZeroGrantOverstatesIff`,
  `ZeroGrantOccurs`).
- The open state is rebuilt faithfully exactly when no intent past the 250 most recently updated ones
  is counted (`StoredBook.RebuildFaithfulIff`).
- The limiter reads the clock before it takes its lock. Every run, in whatever order the readings arrive,
  keeps the window exactly when one call a minute is allowed; for any larger allowance a call that is
  overtaken by however little can be one too many (`RateLimiter.OrderMattersIff`, `OvertakenExceeds`).
  When no call lags by more than d, exactly the windows of up to a minute less d are kept
  (`LaggedCalls.LagBoundIff`).
- The greedy streaming plan is optimal exactly when there is no room for an entry of negative priority
  (`StreamingPlan.GreedyOptimalIff`).
- An alert refresh leaves exactly the current conditions active only if they and the stale alerts
  together fit in a listing of 500. Every refresh of a run does so when refreshes complete and only active
  alerts are acknowledged; once resolved ones are acknowledged, fewer than 500 stored alerts are not enough
  (`Alerts.RefreshMatchesIff`, `AlertRuns.EveryRefreshMatches`, `StaleAlertSurvives`). An active alert still carries a resolution mark
  exactly when an acknowledgement made it active again, and those are exactly the recurrences that are
  not counted (`AlertMarks.ResolutionMarkIff`, `MissedRecurrences`).
- The long and short sides of a currency make up its total exactly when no entry without a usable
  direction brings risk to it (`Exposure.DirectionalGrossIff`).
- Two different activity items share a group key exactly when one id goes on into the tone and the title
  of the other; alert items never do, nor do instruments and strategies whose names have no colon
  (`ActivityGroups.KeysCollideIff`, `FeedKeysAgreeIff`).

## Model

| member | source | states |
|---|---|---|
| Rounding.Round8Fixpoint | backend/app/core/ig_broker.py:910 | rounding to eight digits leaves a number alone exactly when it is a whole number of 1e-8 units |
| Ordering.SortStable | backend/app/services/capital_allocator_service.py:873-880 | the sort behind `sorted` keeps the order of elements that may precede one another |
| IgSizing.NeverEnlargesIffStepOnGrid | backend/app/core/ig_broker.py:904-910 | normalisation enlarges no size at all if and only if the size step is positive and on the eight-digit grid |
| IgSizing.NormalizationMonotone | backend/app/core/ig_broker.py:904-910 | asking for more never yields a smaller normalised size |
| IgSizing.NormalizationIdempotent | backend/app/core/ig_broker.py:904-910 | with a step on the grid, or none, or one of at most 5e-9, normalising twice is normalising once |
| RepeatedRounding.NormalizationIdempotentIff | backend/app/core/ig_broker.py:904-910 | normalising twice is normalising once for all requests if and only if there is no step, or it is on the grid, at most 5e-9, or p / (2p - 1) times 1e-8 for a whole p |
| IgSizing.NormalizationLift | backend/app/core/ig_broker.py:904-924 | an accepted size is at most the request times a factor: one on the grid, else m / (m - 5e-9) for m the larger of the minimum and 1e-8 |
| IgSizing.LiftReached | backend/app/core/ig_broker.py:904-924 | that factor is reached: without a step, a request half a unit below an even minimum is rounded up to it |
| IgSizing.NormalizationLosesLessThanOneStep | backend/app/core/ig_broker.py:904-910 | with a step on the grid the normalised size is within one step below the request |
| IgSizing.NormalizationAtMostDoubles | backend/app/core/ig_broker.py:904-924 | whatever the step, an accepted size is at least 1e-8 and at most twice the request |
| IgSizing.RoundUpLands | backend/app/services/capital_allocator_service.py:1221-1226 | the rounded-up minimum is a multiple of the step in (value - 1e-9, value + step) |
| RefusalReasons.NormalizationIs | backend/app/core/ig_broker.py:899-945 | with the nearest eight-digit number, ties to even, of the whole steps in a size as the size to send: it is accepted when positive and not under the minimum, else it is rounded to nothing or below the minimum |
| RefusalReasons.OneSent | backend/app/core/ig_broker.py:904-910 | there is one such size for each request |
| RefusalReasons.MinimumOrderIs | backend/app/services/capital_allocator_service.py:559-566 | the least order is the minimum, or the next whole number of steps, or the minimum itself where such a number is less than 1e-9 below it |
| IgSizing.QuotedSizeSpendsRisk | backend/app/core/ig_broker.py:867-869 | the quoted size spends exactly the money asked for at the unit risk the quote divides by |
| IgSizing.QuoteRespectsMinimumStop | backend/app/core/ig_broker.py:861-869 | whatever the stop asked for, no quote is larger than the broker's minimum stop distance allows, in a quote that `StopSizing` pins to the stop itself |
| StopSizing.StopDistanceIs | backend/app/core/ig_broker.py:1350-1372 | the distance sized for is the greatest of the stop's distance from the entry, or the fallback without a stop, the broker's minimum and 1e-9 |
| StopSizing.LossAtStop | backend/app/core/ig_broker.py:861-870 | at the stop the quoted size loses at most the risk amount, and exactly it if and only if the distance reaches the minimum and 1e-9 and a unit loses at least 1e-9 |
| StopSizing.RiskKeptIff | backend/app/core/ig_broker.py:861-870 | for any positive increment and value, the quoted size loses at most the risk amount at the stop if and only if the asked distance loses at most 1e-9 a unit, or is no larger part of the distance sized for than the increment is of the one divided by |
| StopSizing.SmallIncrementOverspends | backend/app/core/ig_broker.py:867-869 | with a price increment under 1e-9 the loss is the risk amount times 1e-9 over the increment |
| Allocator.ChargeRaisesByShare | backend/app/services/capital_allocator_service.py:680-703 | reserving a decision raises every budget by exactly that plan's share and no other by anything |
| Allocator.ShareBounds | backend/app/services/capital_allocator_service.py:700-703 | no account, a currency included, receives more than the whole risk of a plan |
| Allocator.RunningLedger.Add | backend/app/services/capital_allocator_service.py:680-703 | the in-place update of all the running totals is the charge of one exposure |
| BudgetBounds.OfferWithin | backend/app/services/capital_allocator_service.py:366-456 | an offer takes at most the room of the tightest budget, times the factor that covers the instrument's rounding |
| BudgetBounds.StepKeepsBudget | backend/app/services/capital_allocator_service.py:325-456 | one candidate leaves every budget at most at its old value or its limit, lifted by that factor, plus half a micro-percent |
| LimitConditions.KeepsLimitsIffStepOnGrid | backend/app/core/ig_broker.py:904-910 | an instrument, with or without a minimum, can push no budget past its limit, under any settings, ledgers and quoted plan, if and only if its step is on the grid |
| LimitConditions.AlwaysPlaceableIff | backend/app/services/capital_allocator_service.py:559-584 | every order selected on an instrument, under any settings, ledgers and quoted plan, passes the minimum at placement if and only if its rounded minimum order does or no normalised size is below the minimum |
| BudgetBounds.CycleKeepsBudget | backend/app/services/capital_allocator_service.py:172-187 | over a cycle of any length each budget, every currency included, ends at most at its initial value or its limit, lifted by the largest factor of the cycle's instruments, plus one rounding: overshoots do not accumulate |
| BudgetBounds.CycleKeepsCounts | backend/app/services/capital_allocator_service.py:333-364 | position counts, in total, per strategy and per cycle, never pass their limit or their initial value |
| GrantCompleteness.SelectedIff | backend/app/services/capital_allocator_service.py:325-456 | a plan is selected if and only if no count limit is reached, it asks for risk and size at a price, no account it draws on is used up, gross room is left and the broker takes the size |
| GrantCompleteness.OfferedIff | backend/app/services/capital_allocator_service.py:366-452 | the same for the sizing alone, without the count limits |
| GrantCompleteness.ExhaustedIff | backend/app/services/capital_allocator_service.py:333-386 | a plan past the position limits is rejected for an exhausted budget if and only if one of its budgets is used up or it asks for no risk |
| GrantCompleteness.ExhaustionIsReal | backend/app/services/capital_allocator_service.py:373-386 | such a rejection names a used-up budget of the plan if and only if there is one; otherwise the plan asked for no risk |
| AllocationCycle.NothingAskedIff | backend/app/services/capital_allocator_service.py:620-625 | a plan asks for no risk if and only if its signal carries a negative percent |
| GrantCompleteness.GrantIsMaximal | backend/app/services/capital_allocator_service.py:388-424 | before broker rounding a grant is the whole request, or all the room of the tightest budget, or is worth the trade cap or the gross room |
| SizingCoherence.OfferIsCoherent | backend/app/services/capital_allocator_service.py:388-424 | before the final rounding size, percent and money of an offer are one quantity: size times unit risk is the money, which is that percent of equity |
| SizingCoherence.OfferCoherentIff | backend/app/core/ig_broker.py:861-870 | at the instrument's own unit risk this holds if and only if that reaches 1e-9 |
| SizingCoherence.FitSizeAboveFloor | backend/app/services/capital_allocator_service.py:539-543 | the 1e-9 floor of the divisor is never reached by an accepted size |
| SizingCoherence.SelectedSizeIsPlaceable | backend/app/core/ig_broker.py:197-204 | every selected size passes the minimum check at order placement when the minimum order survives the rounding, in any ledger state |
| LimitConditions.MinimumIsRefused | backend/app/services/capital_allocator_service.py:559-584 | on any other instrument some quoted plan is selected at a size that is refused at placement |
| SizingCoherence.DecisionRoundsOffer | backend/app/services/capital_allocator_service.py:444-490 | a selected decision carries the offered size to eight digits and its percent and money to six, each on its grid and within half a unit |
| RefusalReasons.DecidedBecause | backend/app/services/capital_allocator_service.py:325-470 | a plan is decided for the one reason that holds, spelled out from plan, limits and ledgers in the order of the checks, names the budget that bound it, and is given nothing unless it is selected |
| RefusalReasons.OneReason | backend/app/services/capital_allocator_service.py:325-470 | no two of these reasons hold of one plan |
| RefusalReasons.AvailableIs | backend/app/services/capital_allocator_service.py:627-678 | what is available to a plan is what is left, at least nothing, of a budget it draws on that has least left, each limit less open and cycle use and the cycle's less the cycle's |
| NotionalBounds.SelectedNotionalWithin | backend/app/services/capital_allocator_service.py:403-424 | a selected notional is within the round-up tolerance of both the per-trade cap and the gross room, plus half a unit of the eighth digit times the price where sizes are off the grid |
| NotionalBounds.CycleKeepsGross | backend/app/services/capital_allocator_service.py:853-866 | over a cycle the gross field of the ledger ends at most at its initial value or the tolerated gross limit, plus half a unit of size at the price where sizes are off the grid; `SpendingSums` ties that field to what is selected |
| SpendingSums.SpendAddsUp | backend/app/services/capital_allocator_service.py:680-703 | over a cycle gross notional grows by the absolute worth, size times price, of the selected decisions, every account by their percents on it and every count by their number |
| SpendingSums.SelectedNotionalWithinLimit | backend/app/services/capital_allocator_service.py:853-866 | so what a cycle selects is worth at most what the tolerated gross limit leaves over the open book |
| SpendingSums.SelectedPercentWithinLimit | backend/app/services/capital_allocator_service.py:172-187 | and its percents on an account come to at most what the account's setting, lifted by the rounding of sizes, leaves, plus one rounding |
| SpendingSums.SelectedCountWithinLimit | backend/app/services/capital_allocator_service.py:333-364 | and it selects no more positions, in total and for a strategy, than the three count limits leave |
| NotionalBounds.NothingSelectedPastGrossLimit | backend/app/services/capital_allocator_service.py:403-431 | once the gross limit is used up nothing more is selected and the ledger stays as it is |
| PlanSelection.SuppressWeakerDuplicates | backend/app/services/capital_allocator_service.py:868-893 | the loop keeps the first plan per instrument and direction in ranking order and appends one rejection for each other |
| PlanSelection.ResolveDirectionConflicts | backend/app/services/capital_allocator_service.py:895-919 | the grouped loop keeps the first plan per instrument and appends one rejection for each other |
| PlanSelection.GroupByInstrument | backend/app/services/capital_allocator_service.py:898-900 | the dictionary of lists holds each instrument's plans in order, keys in order of first occurrence |
| PlanSelection.TwoStagesAreOnePass | backend/app/services/capital_allocator_service.py:169-170 | duplicate suppression followed by conflict resolution is one pass that keeps the first plan per instrument |
| PlanSelection.SuppressedIsSorted | backend/app/services/capital_allocator_service.py:868-893 | what the first stage keeps is still in ranking order |
| PlanSelection.SurvivorsAreBest | backend/app/services/capital_allocator_service.py:868-919 | exactly one survivor per instrument that has a plan, none of its rivals ranking or scoring above it |
| PlanSelection.LaterSortIsNoOp | backend/app/services/capital_allocator_service.py:172-179 | sorting the survivors again before allocation changes nothing |
| PlanSelection.EveryPlanDecidedOnce | backend/app/services/capital_allocator_service.py:868-919 | survivors, suppressed and conflicting plans together are the plans, each exactly once |
| PlanRanking.SurvivorsInOrder | backend/app/services/capital_allocator_service.py:172-179 | survivors are allocated by descending score, then strategy, then instrument in code-point order |
| Competition.TurnedAway | backend/app/services/capital_allocator_service.py:868-919 | a plan that does not reach the budgets is refused in favour of a plan it does not beat: as a weaker duplicate for one of its instrument and direction, or in conflict for the survivor of the opposite direction |
| AllocationCycle.PlansOfPlannable | backend/app/services/capital_allocator_service.py:134-286 | the plans of a cycle are, in order and each once, those of its fresh entry signals with positive equity, market details and an available quote, exact or approximate outside live accounts, each with its candidate's names, direction and score, the signal's percent, and the broker's equity, details and quote |
| Screening.ScreenedOutFinally | backend/app/services/capital_allocator_service.py:134-286 | in the decisions of a cycle a signal that is no entry is selected as it is, and an entry that cannot be planned is refused for the first of six obstacles, nothing else deciding it |
| Screening.DecisionOf | backend/app/services/capital_allocator_service.py:134-191 | every candidate has a decision in that list, at one place only |
| AllocationCycle.ContendersAreWellFormed | backend/app/services/capital_allocator_service.py:202-323 | the plans that reach the budgets have positive equity, ask for nothing negative, and have a family name that survives being read back |
| AllocationCycle.Allocate | backend/app/services/capital_allocator_service.py:101-200 | the whole cycle: decisions and final ledger are those of the specification, all carrying the cycle id |
| AllocationCycle.SpendAll | backend/app/services/capital_allocator_service.py:172-187 | the loop over the ranked plans, reserving in place, is the greedy pass whose ledger `SpendingSums.SpendAddsUp` adds up |
| CycleAccounting.EveryCandidateDecidedOnce | backend/app/services/capital_allocator_service.py:134-191 | the decisions' candidates are the candidates of the cycle, each once |
| CycleAccounting.DecisionsOf | backend/app/services/capital_allocator_service.py:134-191 | so a candidate has exactly one decision, and nothing else has any |
| CycleAccounting.Summarise | backend/app/services/capital_allocator_service.py:1031-1080 | the counting loop yields the tally of the entry decisions |
| CycleCounts.CountersAre | backend/app/services/capital_allocator_service.py:1031-1097 | every counter is the number of entry decisions it is about, each rejection reason and binding budget is counted as often as it occurs, and the requested risk is what they asked for |
| CycleAccounting.SummaryBalances | backend/app/services/capital_allocator_service.py:1047-1097 | approved and rejected make up the candidates, reasons make up the rejections, and the five blocked counters add up to no more than the rejections |
| CycleAccounting.SummaryMatchesLedger | backend/app/services/capital_allocator_service.py:1101-1107 | allocated risk, before it is rounded, is the selected risk of the cycle's ledger |
| CycleAccounting.CycleBalances | backend/app/services/capital_allocator_service.py:134-200 | all of these at once for the decisions reported, none of which stays unassigned |
| CycleAccounting.AllocationKeepsBudget | backend/app/services/capital_allocator_service.py:101-187 | from the candidates on, a whole cycle leaves every budget at most at its old value or its lifted limit plus one rounding |
| OpenBook.BuildOpenState | backend/app/services/capital_allocator_service.py:768-834 | the two loops charge every position and every intent not represented by one |
| OpenBook.OpenStateWeighsBook | backend/app/services/capital_allocator_service.py:768-834 | every reading of the rebuilt state is the sum over positions and counted intents |
| OpenBookSums.OpenStateAddsUp | backend/app/services/capital_allocator_service.py:768-834 | every account, the gross notional and the position counts of the rebuilt state, as sums over the positions and the intents that none of them represents of percents, marks times sizes and rows, with the fallbacks spelled out |
| OpenBook.OpenStatePartitioned | backend/app/services/capital_allocator_service.py:768-834 | strategies, families and instruments each account for the whole open risk |
| OpenBook.CyclePartitioned | backend/app/services/capital_allocator_service.py:680-703 | so they do for the risk selected by a cycle |
| ZeroGrants.ZeroGrantIff | backend/app/services/capital_allocator_service.py:366-456 | a selected plan is reserved at zero if and only if its percent per unit, times the size ordered for the room left by the tightest budget, the trade cap and the gross room, is at most half of the sixth digit |
| ZeroGrants.RebuildExactIff | backend/app/services/capital_allocator_service.py:801-803 | the total risk rebuilt after storing a cycle is the old total, what the cycle reserved and all that its zero grants asked for; it is exact if and only if there is none |
| ZeroGrants.ZeroGrantOverstatesIff | backend/app/services/capital_allocator_service.py:801-803 | storing a zero grant of a cycle takes the book past its cap if and only if the cap has no room for the whole percent asked for |
| ZeroGrants.ZeroGrantOccurs | backend/app/services/capital_allocator_service.py:801-803 | a quoted plan that asks for half a percent of a nearly full book is selected at zero and takes the book past the cap |
| ReachableWorlds.OneIntentPerInstrument | backend/app/models/trade.py:222-228 | in every run, whatever the locks, each instrument is owned by at most one unclosed intent, across grants, fills, partial fills and closings |
| AdmissionInvariant.StepKeepsInvariant | backend/app/services/capital_allocator_service.py:116-122 | under one lock every step of a worker and every event of the book keeps the bound on book plus pending grants, up to what entered otherwise and what the workers missed |
| AdmissionInvariant.AdmissionBound | backend/app/services/trade_decision_service.py:120-142 | under one lock, in every interleaving, also in the order of the code, no risk total or position count of the book is above both its initial value and its cap by more than what entered it otherwise than by grants, the weight of the intents settled unseen while a worker was between its listings, and that of the counted intents its listing left out |
| AdmissionConditions.AdmissionSafety | backend/app/services/capital_allocator_service.py:116-122 | where workers share one lock, intents are listed first or no fill is settled between the listings, and no listing leaves out a counted intent, only what entered otherwise can take the book above both |
| AdmissionConditions.KeepsBoundIff | backend/app/services/capital_allocator_service.py:116-122 | a deployment keeps that bound in all runs if and only if its workers share one lock, either intents are listed first or no fill is settled between the two listings, and no listing leaves out a counted intent |
| SampleRuns.TornReadOverspends | backend/app/services/strategy_service.py:2790-2940 | a run in the order of the code, from an empty book, in which a fill for one instrument completes between the two listings and the worker grants the whole limit again for another |
| SampleRuns.OverflowOverspends | backend/app/services/trade_service.py:149-176 | a run of one worker from an empty book that fills it with 251 intents for distinct instruments and then grants one more past the limit |
| SampleRuns.TwoLocksOverspend | backend/app/services/allocation_admission_lock.py:20-23 | a run in which two workers behind different locks each grant the whole limit, for two instruments |
| QuietRuns.QuietRunsKeepBound | backend/app/services/strategy_service.py:2790-2940 | under one lock, with grants stored above zero, fills at no more than was reserved, and no upward repricing or adoption, nothing enters the book otherwise, and it stays within its initial value or its cap up to what the workers missed; in a deployment where they miss nothing, exactly within |
| QuietRuns.AdoptionDrifts | backend/app/services/capital_allocator_service.py:768-800 | adopting a position of no intent raises the book by its whole weight, all of it outside what the bound covers |
| AdmissionConditions.MutualExclusionIff | backend/app/services/allocation_admission_lock.py:11-30 | at most one worker is past its lock in every run if and only if the dialect is PostgreSQL or all workers run in one process |
| StoredBook.RebuildAddsCycle | backend/app/services/capital_allocator_service.py:768-834 | rebuilding from the book plus a cycle's stored grants reads, on every gauge, the old open state plus the cycle state |
| StoredBook.StoredWorth | backend/app/services/capital_allocator_service.py:801-805 | a stored grant is read back at its size times the price observed for its signal |
| StoredBook.RebuildFaithfulIff | backend/app/services/trade_service.py:149-176 | a book is rebuilt faithfully on every gauge if and only if no intent past the 250 most recently updated ones is counted |
| AdmissionProtocol.LatestIsListed | backend/app/services/trade_service.py:149-176 | the intent stored or updated last is in the listing, and so are all as long as they fit |
| StreamingPlan.ComputeStreamingPlan | backend/app/services/aimee_read_service.py:303-334 | the loop selects, pins and caps what the greedy choice says, and its usage counters count the chosen entries of each class |
| StreamingPlan.GreedyIsFeasible | backend/app/services/aimee_read_service.py:303-334 | every pinned entry is in, and others only where the pinned ones leave room in total and in each budgeted class |
| StreamingPlan.GreedyAhead | backend/app/services/aimee_read_service.py:303-334 | on every prefix of the ranking the greedy choice has taken at least as many entries as any feasible one |
| StreamingPlan.GreedyTakes | backend/app/services/aimee_read_service.py:303-334 | the pinned entries are taken, and of the others exactly those preceded by less than a budget of their class and less than a cap of entries that fit their class |
| StreamingPlan.GreedyOptimalIff | backend/app/services/aimee_read_service.py:303-334 | the total priority is the greatest of all feasible choices if and only if there is no such room for an unpinned entry of negative priority |
| StreamingPlan.StreamingPlanIsOptimal | backend/app/services/aimee_read_service.py:93-113 | for any entries with scores of at least zero, sorted as the summary sorts them, the streamed set is feasible and optimal |
| StreamingOrder.EntriesInOrder | backend/app/services/aimee_read_service.py:101-108 | the entries are ranked pinned first, then by descending score, then by age, then by instrument |
| StreamingOrder.ClassesAgreeIff | backend/app/services/aimee_read_service.py:315 | two entries share a class budget if and only if their class names, or UNCLASSIFIED for an absent or empty one, agree up to the case of letters |
| StreamingOrder.ClassIsNamed | backend/app/services/aimee_read_service.py:298-315 | a class goes by its name in capitals, which is what budgets are looked up under |
| StreamingOrder.LeftOutIff | backend/app/services/aimee_read_service.py:314-333 | an entry is left out if and only if it is not pinned and entries ranked no later fill the cap or the budget of its class |
| StreamingOrder.OvertakenOnlyWhenFull | backend/app/services/aimee_read_service.py:314-333 | an unpinned entry is streamed instead of one that precedes it only when their classes differ and the other class is full |
| RateLimiter.Limiter.ApplyBudget | backend/app/core/ig_broker.py:1496-1531 | the deque loop, in place, is the specified request |
| RateLimiter.Limiter.RecordAllowanceError | backend/app/core/ig_broker.py:1551-1560 | an allowance error in place is the specified one, which sets the end of the pause and nothing else |
| AllowancePauses.ErrorPauses | backend/app/core/ig_broker.py:1498-1560 | after any run and an allowance error at t, any number of calls reading less than t plus the breaker's length are refused with exactly the time left as their wait and leave window, pause and log alone |
| AllowancePauses.DecidedAfterError | backend/app/core/ig_broker.py:1498-1560 | from t plus that length on, a call is admitted if and only if fewer than the allowed number were admitted in the last minute |
| RateLimiter.AdmittedIff | backend/app/core/ig_broker.py:1507-1531 | outside a pause, after any run in clock order, a call is admitted if and only if fewer than the allowed number were admitted in the last minute |
| RateLimiter.WindowBound | backend/app/core/ig_broker.py:1496-1560 | over every such run, allowance errors anywhere, no half-open minute holds more admissions than allowed |
| RateLimiter.OrderMattersIff | backend/app/core/ig_broker.py:1496-1498 | every run, in any order of its readings, keeps the window if and only if one call a minute is allowed |
| RateLimiter.OvertakenExceeds | backend/app/core/ig_broker.py:1496-1498 | for any larger allowance and any lag up to a minute, a call overtaken by that lag is one admission too many |
| LaggedCalls.LagBound | backend/app/core/ig_broker.py:1496-1531 | over every run in which no call lags by more than d, no window of a minute less d holds more admissions than allowed |
| LaggedCalls.LagBoundIff | backend/app/core/ig_broker.py:1496-1531 | these are exactly the windows kept by all such runs, and the whole minute when one call is allowed |
| RateLimiter.RetryAfterBounds | backend/app/core/ig_broker.py:1513-1529 | an exhausted window asks for a wait of more than zero and at most sixty seconds |
| AllowancePauses.ExhaustedWait | backend/app/core/ig_broker.py:1513-1529 | it asks for a wait until the oldest of the last allowed admissions is a minute old, and for the breaker's length or a minute, whichever is shorter, at least |
| RateLimiter.WaitingIsEnough | backend/app/core/ig_broker.py:1498-1531 | after an exhausted call, any number of calls before the end of the pause change nothing, and a call at or after it is admitted |
| MarketCache.RequestedOrder | backend/app/core/ig_broker.py:576 | the requested instruments are those of the call, each once, in order of first occurrence |
| MarketCache.ChunksPartition | backend/app/core/ig_broker.py:1132-1136 | the chunks are the input cut in order into pieces of one to fifty |
| MarketCache.IgMarkets.GetMarketDetails | backend/app/core/ig_broker.py:692-724 | it returns normally if and only if the entry is fresh, the broker answers with details that parse, or it fails with a temporary error while a usable entry is held; no request for a fresh entry and one otherwise; the error is the broker's own or a malformed answer; only a fetched value is cached |
| MarketCache.IgMarkets.LoadMarketDetailsBatch | backend/app/core/ig_broker.py:726-752 | the answer's last parsed entry for each instrument asked for is returned and cached; a malformed entry stops the call with the earlier ones cached |
| MarketCache.IgMarkets.LoadChunk | backend/app/core/ig_broker.py:588-606 | a chunk's error is raised unchanged, or covered by stale entries exactly for temporary errors with every member found usable |
| MarketCache.IgMarkets.GetMarketDetailsMany | backend/app/core/ig_broker.py:573-620 | it returns normally if and only if every chunk left to fetch is answered without error or is covered by usable entries after a temporary one, and every requested instrument is fresh, delivered or covered; then the keys are the requested instruments in order, with such values, after one request per chunk. Otherwise the error is that of the first chunk that fails or, when none does, names exactly the instruments not served, at least one |
| MarketCache.IgMarkets.GetOneByOne | backend/app/core/broker.py:199-205 | the inherited loop returns normally if and only if each read in turn does, else with the error of the first that fails; for a broker that answers from one world it returns that world's table |
| MarketCache.ReadBothWays | backend/app/core/ig_broker.py:573-620 | against an unchanging broker, from caches that hold what it answers, the batched and the one-at-a-time read return the same table whenever both return, and each returns that table when the broker answers it for every instrument it asks about |
| Promotions.RequestTable.AllocatePending | backend/app/services/coverage_allocator_service.py:32-150 | the loop updates the rows, counters and budget as the specification says |
| Promotions.CallDecidesAll | backend/app/services/coverage_allocator_service.py:56-150 | one call decides and counts every pending request once, touches no other row, and promotes distinct requests within the budget |
| Promotions.FirstEligiblePromoted | backend/app/services/coverage_allocator_service.py:43-145 | the promoted requests are, in ranking order and as many as the budget allows, those that are not overdue, whose instrument is not streamed and not cooling down, and whose score is at least the threshold |
| Promotions.RankedOrder | backend/app/services/coverage_allocator_service.py:44-46 | requests are decided by descending score, then age, then id |
| Promotions.RequestOutcome | backend/app/services/coverage_allocator_service.py:56-145 | an overdue request expires, one whose instrument is streamed is accepted, an eligible one is accepted while there is budget, any other is rejected, and nothing else of it changes |
| Promotions.PassedOver | backend/app/services/coverage_allocator_service.py:51-54 | an eligible request is passed over only when the promotions of the call and the acceptances of the last minute reach the limit, and only for requests that outrank it |
| Promotions.CountersTell | backend/app/services/coverage_allocator_service.py:48-150 | the counters are the numbers of overdue requests, of those already streamed, of promotions and of all others |
| Promotions.StepKeepsRate | backend/app/services/coverage_allocator_service.py:152-166 | a call keeps every past promotion visible to the recomputed budget, and the rate |
| Promotions.PromotionRate | backend/app/services/coverage_allocator_service.py:51-54 | over every run no closed minute holds more real promotions than configured, although skipped requests use up the budget too |
| Exposure.ExposureBook.AddExposure | backend/app/services/allocation_read_service.py:1054-1118 | the in-place update enters one item in the totals and in every bucket it belongs to |
| Exposure.GetExposureSummary | backend/app/services/allocation_read_service.py:485-569 | the summary is what entering the counted intents and then the positions gives |
| ExposureTotals.SummaryAddsUp | backend/app/services/allocation_read_service.py:485-569 | in the totals and in every bucket, reserved risk and amount are the sums over the intents without a position or filled in part, the latter for what is left, and live ones the sums over the positions, whole under strategy, family and instrument and half under each currency, its long side for the base of a buyer and the quote of a seller |
| Exposure.AllConserved | backend/app/services/allocation_read_service.py:1073-1104 | strategies, families and instruments each sum to the totals, and over all currencies the long legs weigh what the short legs weigh |
| Exposure.CurrencyIsDirectionalPlusUndirected | backend/app/services/allocation_read_service.py:1088-1118 | each currency's total is its long plus its short side plus what has no direction |
| Exposure.DirectionalGrossIff | backend/app/services/allocation_read_service.py:607-613 | in a non-negative book long plus short is the currency's total if and only if no entry without a direction brings risk to it |
| Exposure.NetWithinGross | backend/app/services/allocation_read_service.py:607-619 | a currency's net risk lies within its gross risk |
| Exposure.RoundedGrossNear | backend/app/services/allocation_read_service.py:620-621 | the sum of the rounded gross values is within half a unit of the sixth digit per bucket of the exact one |
| Exposure.ConsoleBalances | frontend/lib/risk-allocation.ts:420-432 | the console's long and short totals are equal, its net is zero, and its gross is their sum up to that rounding |
| Alerts.AlertStore.RefreshAlerts | backend/app/services/allocation_alert_service.py:37-108 | the refresh leaves the table of the specification and tells whether it completed or hit the unique key |
| AlertContents.RefreshRecords | backend/app/services/allocation_alert_service.py:54-107 | every candidate handled has a row that shows its content and times, continued from the stored alert under its key or begun anew; any other row is as before or has only lapsed |
| Alerts.RefreshCompletesIff | backend/app/services/allocation_alert_service.py:49-53 | with distinct candidates it completes if and only if no candidate's stored alert fell outside the first listing |
| Alerts.RefreshMatchesIff | backend/app/services/allocation_alert_service.py:98-107 | after a completed refresh the active keys are the candidates' keys if and only if candidates and stale alerts number at most 500 |
| Alerts.SmallTableRefresh | backend/app/services/allocation_alert_service.py:37-108 | in a table of at most 500 rows every refresh completes, and matches when candidates and stale alerts fit, whatever the clock |
| Alerts.FewRowsMatch | backend/app/services/allocation_alert_service.py:98-107 | a completed refresh that leaves at most 500 rows always matches |
| AlertRuns.EveryRefreshMatches | backend/app/services/allocation_alert_service.py:37-145 | in every run in which refreshes complete and only active alerts are acknowledged, each refresh leaves exactly its candidates' keys active, however many alerts are stored and whatever the clock |
| AlertRuns.StaleAlertSurvives | backend/app/services/allocation_alert_service.py:98-133 | a run of three refreshes and 400 acknowledgements of resolved alerts after which 499 alerts are active and a refresh with two new conditions does not match |
| Alerts.RecurrenceCounts | backend/app/services/allocation_alert_service.py:78-84 | over every run an alert's recurrence count is one plus the number of refreshes that found it resolved |
| Alerts.RepeatChangesNothing | backend/app/services/allocation_alert_service.py:54-107 | when the active keys are the candidates' keys a further refresh changes no state or recurrence count and adds no row |
| Alerts.SecondRefreshIsNeutral | backend/app/services/allocation_alert_service.py:37-108 | so a refresh repeated with the same candidates is neutral |
| Alerts.RunMarks | backend/app/services/allocation_alert_service.py:78-145 | in every run an open alert carries no acknowledgement or resolution mark, an acknowledged or resolved one carries its own |
| AlertMarks.ResolutionMarkIff | backend/app/services/allocation_alert_service.py:123-133 | in every run an active alert carries a resolution mark if and only if, since it was last resolved, an acknowledgement and not a refresh made it active |
| AlertMarks.MissedRecurrences | backend/app/services/allocation_alert_service.py:78-133 | in every run an alert became active again as often as it counts recurrences and as it was acknowledged while resolved |
| Alerts.AlertStore.AcknowledgeAlert | backend/app/services/allocation_alert_service.py:123-133 | changes the one row, or nothing and answers None for an unknown id |
| Alerts.AlertStore.ResolveAlert | backend/app/services/allocation_alert_service.py:135-145 | changes the one row, or nothing and answers None for an unknown id |
| AlertContents.OperatorsWrite | backend/app/services/allocation_alert_service.py:123-145 | an acknowledgement or a resolution writes who and when on the one row and changes nothing else of it, no other row, and nothing at all for an unknown id |
| ActivityGroups.AggregateActivity | frontend/lib/live-system-view.ts:367-389 | the answer is the first 24 heads of the recursive grouping, the very items, with grown counts, all other items untouched |
| ActivityGroups.HeadsPartition | frontend/lib/live-system-view.ts:370-386 | every folded item has its head's key and lies within 180 s of it, and no head could join the group before it |
| ActivityGroups.GroupsAre | frontend/lib/live-system-view.ts:363-386 | past its head, up to the next one, a group holds exactly the items that share the head's key, spelled out by its parts, and lie within three minutes of it |
| ActivityGroups.OnlyPartition | frontend/lib/live-system-view.ts:370-386 | no other cut of the items has these properties |
| ActivityGroups.CountsConserved | frontend/lib/live-system-view.ts:380-382 | before the cut the group counts add up to the number of items |
| ActivityGroups.SortedGroupsAreClose | frontend/lib/live-system-view.ts:967-969 | in a feed sorted newest first any two items of one group are within 180 s |
| ActivityGroups.KeysCollideIff | frontend/lib/live-system-view.ts:363-365 | two items share a key if and only if they agree on all four parts, or are of one type and one id goes on into the tone and the title of the other |
| ActivityGroups.FeedKeysAgreeIff | frontend/lib/live-system-view.ts:892-965 | items of the feed, alerts with their numbered ids and instruments or strategies named without a colon, share a key if and only if they agree on all four parts |
| ActivityGroups.BiasMeaning | frontend/lib/live-system-view.ts:391-410 | the bias of a non-empty list is long exactly when every position buys, short exactly when none does |

## Left out

- Binary floating point: reals stand for floats, and only the roundings written in the code are modelled.
- HTTP, login, tokens, payload parsing and order confirmation: the broker's answers are inputs of the model.
- Database sessions, commits and rollbacks, audit rows and domain events: stored rows are sequences or maps.
- Priority scores: `_score_components` is not part of this model, a plan's score is given.
- Cycle summary fields for resized and degraded candidates and the remaining portfolio risk, and the texts of reasons and notes.
- A cycle without entry candidates writes no summary; the model tallies an empty one.
- The defensive rejection `allocation_plan_unavailable`, which no path of the preparation reaches.
- Upper-casing: currency codes are taken as already upper-case, and asset classes are upper-cased for ASCII letters only.
- AdmissionInvariant.AdmissionBound: counts as drift, and does not bound, what enters the book otherwise than by grants at their reserved weight: fills above the recorded risk, repricing, adopted or recovered positions, closings that make an unsettled intent count again, zero grants, and currencies that broker and catalogue name differently; `QuietRuns.QuietRunsKeepBound` gives the steps that have none. Stored risk percents are taken to be non-negative.
- ReachableWorlds.OneIntentPerInstrument: an intent's way from proposed to approved is one step, so that the checks for a conflict made on the way are one check; adopted positions and their intents are separate steps.
- AdmissionConditions.KeepsBoundIff: each query reads the committed book as it is; transaction isolation and rows cached in a session are not modelled.
- StoredBook.RebuildAddsCycle: assumes that no grant is reserved at zero percent, the condition of `ZeroGrants.RebuildExactIff`, and for a currency that broker and catalogue name the same ones; that a plan's family name survives being read back is proved for every screened plan (`AllocationCycle.ContendersAreWellFormed`).
- Re-entry of the local lock by one worker, which no caller makes.
- Gross notional across cycles: stored intents are priced differently from plans, so that bound is for one cycle.
- RateLimiter.WindowBound: covers the account requests that the limiter counts; which paths those are is not modelled.
- RateLimiter.WaitingIsEnough: supposes that no allowance error comes in between.
- MarketCache.ReadBothWays: compares the two reads against a broker that answers; against a failing one each read's errors are stated by itself.
- Promotions.RequestOutcome: the reason codes that a rejected request is given are not part of the model, nor is the watchlist entry that a promotion writes.
- Promotions.PromotionRate: assumes that calls do not overlap, that decision times do not decrease and that no other code rewrites accepted rows; it counts the promotions of the run.
- Exposure: the counts and risk bases of the buckets, the provisional live totals, utilisation, hotspots, the listing limit of 1000 intents and the top-instrument list.
- Agreement between the allocator's open state and the exposure summary: they treat partial fills differently.
- Alerts: the computation of candidates and of their keys, the list a refresh returns, and the sanitising of texts; ids are positions, so rows that a history reset deletes are not modelled.
- Alerts.RefreshMatchesIff: supposes that the clock readings of the refresh are later than every stored change, and at most 200 candidates, as the caller asks for.
- ActivityGroups: the building of the items and the sort before grouping; timestamps are whole milliseconds.
- ActivityGroups.FeedKeysAgreeIff: names of instruments and strategies are taken to have no colon, which the code does not check; `KeysCollideIff` says what happens otherwise.
- Identifier redaction, dashboards, chart tables and React components.

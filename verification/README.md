# Proofs about the backtest accounting and execution core

The repository replays trading strategies over historical bars and keeps the books of what they
would have bought and sold. Several pieces of code work out the same economics independently of one
another, so that a result can be audited from the records it leaves behind. This project models
those pieces and proves how they relate.

* **The ledger and its auditors.** `Ledger` is the in-memory ledger: a broker outcome is checked on
  scratch balances and then committed. `Atomicity` says exactly which outcomes are refused, recorded
  or stop the program, and how far the commit can end from the check, and `Outcomes` what each fill
  may spend and what it leaves in the books. `Renames`, `Runs`, `Conservation` and `Reconciliation`
  are about whole histories of outcomes and symbol renames. `Replay` is the independent replay of
  the recorded fills, `Refinement` says exactly when it rebuilds the ledger, `UncoveredSells` has
  the history for which it does not, and `Primitives` is what it hands on. `Residual` is the audit
  of the closing inventory and `Marks` what it marks at, `Decomposition` is what the two audits say
  together about profit and cost, `LedgerProfit` carries that back to the ledger's own profit, and
  `NoFillAudit` is the audit that every order came to an end.
* **Exact arithmetic.** `Rounding` has both implementations of half-away-from-zero rounding,
  `DecimalText` the printer and parser of 18-place decimals, `DecimalReading` which texts it accepts
  and what they stand for, `BasisRelease` the proportional release of cost basis, `FillCosts` the
  broker's price and fee and the audit that re-derives them, `VolumeCap` the all-or-none cap of
  execution policy v4 in the three places that compute it, and `V4Admission` the whole v4 admission
  of a fill, and exactly which of the broker's own fills pass it.
* **Allocation and execution.** `Redistribution` spreads portfolio weights under a cap, `Volatility`
  says how they depend on volatility, `Sizing` turns weights into quantities, `Rebalance` submits
  the reductions and additions, `Turns` says exactly which and where they lead, and `Allocation`
  bounds what a plan for the selected assets can cost.
* **Market data.** `MarketData` has the as-of queries, `FillPrices` says exactly what the fills and
  liquidations among them are, `Causality` shows that they do not look ahead, `Fallback` says for
  which data they do when execution data is optional, `Coverage` is the validation their
  precondition comes from, `Benchmark` has the forward-moving cursors, `Intrabar` the stop and
  target scan and `Aggregation` the merging of bars.

`Orders`, `RealMath`, `FiniteSums`, `TextOrder` and `Sequences` are the sides of an order, the
arithmetic, the sums over maps, the order of strings and the sequence facts that the other modules
share.

Amounts that the program keeps as `float64` are exact reals; its small comparison constants (1e-8 to
1e-12) are parameters, so that a statement reads "exact when the slack is zero, and off by at most
this much otherwise". Decimals are integer counts of 10^-18 units. Instants are integer nanoseconds
and bar times integer milliseconds. Code that updates fields is a class, and code that loops over
locals is a method; each is proved equal to a function, and the lemmas are about that function.
Where the program walks a map, the model walks the keys in an arbitrary order, or takes the order as
a parameter.

## What turned out differently from what one might expect

* With a dust threshold the check and the commit of an outcome disagree: a remainder at or below the
  threshold is deleted by the commit but not by the check, so a second sell of the symbol can pass the
  check and then find no position (`Atomicity.DustPanics`). An outcome stops the program exactly when
  it is acceptable and some sell finds nothing held by then, a size that follows from the earlier
  fills alone (`Atomicity.CommitStopsExactly`, `Atomicity.RecordIsAtomic`). Sells above dust rule that
  out for every outcome exactly when the threshold is zero (`Atomicity.NeverPanicsIffNoDust`); for
  any threshold it is enough that besides no symbol is sold again in an outcome once a sell has brought
  its checked size down to dust, which leaves partial sells free (`Atomicity.PromiseIsEnough`).
* The ledger can record a history that its own replay refuses. After a deleted remainder the check
  still counts it, so it can let a sell through that exceeds what is held by more than dust; the
  ledger records the sell and the replay does not accept it (`UncoveredSells.RecordedYetRefused`).
  The replay accepts exactly the histories whose sells are all covered by what is held, up to dust
  (`Refinement.ReplayRefinesLedger`).
* Deleted remainders are never logged, so the ledger's own audit drifts by up to one threshold per
  sell. It is sure to accept exactly as long as that many remainders fit in its slack; with the
  program's constants, up to 100 sells of an asset (`AuditLimits.AuditAbsorbsExactly`).
* A rename onto a symbol that is already held discards the position held there. A sweep keeps every
  asset's quantity exactly when each of its moves goes to a symbol not held by then
  (`Renames.SweepKeepsQuantitiesIffFree`). One held symbol per asset is enough for that
  (`Renames.OneHeldIsFree`).
* When execution data is optional, cutting off data after the run's end can change an answer inside
  the run. Next fills are blind to later data, whatever the data, exactly when execution data is
  required (`Causality.NextFillBlindIffRequired`). For given data they are blind exactly when no
  symbol loses all its execution bars to the cut while decision bars of the run stand in
  (`Fallback.NextFillBlindIff`), and likewise for the final liquidation (`Fallback.LiquidationBlindIff`).
* Coverage validation yields ordered bars exactly for decision and execution data at a positive
  interval other than one millisecond (`Coverage.CleanOrdersIff`).
* The v4 audits insist on one-minute bars while the broker takes the configured interval. They agree
  exactly when that interval is one minute (`VolumeCap.AgreementIffMinuteBars`).
* The v4 broker and its audit read one bar close through different texts: the broker its 18-place text,
  the audit its shortest one. For most closes these are different numbers, so a fill the broker makes
  passes the v4 replay exactly when the cost rates are whole basis points, the shortest text has at
  most 18 places, and both readings slip to the same tick, or to the same price without a tick
  (`V4Admission.BrokerFillIsAdmittedIff`). Equal readings are enough (`V4Admission.EqualReadingsSuffice`).
  At a close of 100.37 and 5 basis points they are not equal, and the replay refuses the fill
  (`V4Admission.BrokerFillIsRefused`); without slippage on a close that is a tick, a buy passes exactly
  when the broker's reading is not above it and a sell when it is not below
  (`FillCosts.UnslippedSameSlipIff`). Runs with fractional rates are refused before they start
  (internal/backtest/stage05.go:347).

## Model

| member | source | states |
|---|---|---|
| Rounding.RoundQuotientMeaning | internal/accounting/decimal.go:112-124 | a number is the rounded quotient if and only if it is the nearest integer, of two equally near ones the one further from zero |
| Rounding.RoundQuotientIsOdd | internal/accounting/decimal.go:112-124 | changing the sign of either side changes the sign of the result |
| Rounding.RoundQuotientIsMonotone | internal/accounting/decimal.go:112-124 | a larger numerator never rounds to less |
| Rounding.EqualFractionsRoundAlike | internal/accounting/decimal.go:112-124 | equal fractions round alike whatever factor they share |
| Rounding.WholeQuotientIsExact | internal/accounting/decimal.go:112-124 | a whole quotient is returned unchanged |
| Rounding.RoundRat18IsRoundQuotient | internal/backtest/stage07_attribution.go:228-241 | rounding a rational to 18 places is rounding its scaled numerator by its denominator |
| Rounding.RoundingsAgree | internal/backtest/stage07_attribution.go:228-241 | for every fraction n/d the audit's rounding of it in lowest terms is the decimal's rounding of n scaled by 10^18 over d |
| DecimalText.ParseOfPrint | internal/accounting/decimal.go:131-148 | whatever is printed parses back to the same number |
| DecimalText.PrintIsCanonical | internal/accounting/decimal.go:131-148 | printed text has no padding, no trailing fraction zeros and no "-0" |
| DecimalText.PrintOfCanonical | internal/accounting/decimal.go:23-57 | every canonical text is accepted and prints as itself |
| DecimalText.CanonicalIffPrinted | internal/accounting/decimal.go:131-148 | the printable texts are exactly the canonical ones |
| DecimalText.CanonicalTextDecides | internal/accounting/decimal.go:23-57 | two accepted inputs are one number if and only if they have one canonical text, and that text parses to the number |
| DecimalReading.AcceptedIff | internal/accounting/decimal.go:23-57 | a text is accepted if and only if it is space, an optional sign, digits, an optional point with at most 18 more digits, and space |
| DecimalReading.ShapedIsRead | internal/accounting/decimal.go:23-57 | the units of an accepted text times ten to the length of its fraction are plus or minus its digits times 10^18 |
| DecimalReading.PaddingDoesNotCount | internal/accounting/decimal.go:23-57 | space around a number, a plus sign, zeros before it and zeros behind its fraction do not change it |
| DecimalReading.ScaleExceededIff | internal/accounting/decimal.go:40-42 | the scale error is for a text in two parts whose fraction is longer than 18 bytes |
| DecimalReading.MagnitudeIff | internal/accounting/decimal.go:36-56 | a text without sign and space is read as a number of units if and only if it is so written and its digits stand for that number |
| DecimalText.Read | internal/accounting/decimal.go:23-57 | the parsing loop computes the parse function, errors included |
| DecimalText.Format | internal/accounting/decimal.go:131-148 | the padding loop computes the printed text |
| DecimalText.Cell.Value | internal/accounting/decimal.go:164-169 | a null cell is written as null, any other as its printed text |
| DecimalText.Cell.Scan | internal/accounting/decimal.go:171-191 | scanning sets the cell to the parsed number or null, and leaves it alone on error |
| DecimalText.Cell.CopyThroughColumn | internal/accounting/decimal.go:164-191 | writing a cell and scanning it elsewhere copies it, null or not |
| BasisRelease.OneRoundingLosesNothing | internal/accounting/decimal.go:89-110 | multiplying and dividing by one amount in a single rounding step returns the amount; rounding in between can lose all of it |
| BasisRelease.ReleaseWithinBasis | internal/accounting/decimal.go:101-110 | a release lies between zero and the basis, and a full release is the whole basis |
| BasisRelease.ApplyKeepsSound | internal/ledger/service.go:386-392 | buys and sells keep the basis nonnegative, and zero when nothing is held |
| BasisRelease.BasisIsConserved | internal/ledger/service.go:337-392 | over any buys and sells what was paid is basis or was released; a sold-out position released exactly all of it |
| BasisRelease.PartialSellsStayProportional | internal/accounting/decimal.go:101-110 | after k partial sells the basis left is within k/2 units of the exact proportion |
| FillCosts.ExpectedIsBrokerPrice | internal/tradingcore/brokers.go:210-228 | the audit's expected price is the price the broker computes, with and without a tick |
| FillCosts.RatDecimalIsRoundRat18 | internal/tradingcore/exact.go:26-39 | the broker's conversion to 18 places is the audit's |
| FillCosts.AuditAcceptsBrokerFills | internal/backtest/stage07_attribution.go:182-226 | the audit accepts a fill if and only if its price and fee are those the broker would compute from the close as the audit reads it |
| FillCosts.AuditAcceptsReadingIff | internal/backtest/stage07_attribution.go:182-226 | a fill the broker priced from its own reading of the close is accepted if and only if that reading and the audit's slip to one price |
| FillCosts.UnslippedSameSlipIff | internal/backtest/stage07_attribution.go:197-217 | without slippage readings slip alike if and only if they are equal, or, for a close on a tick read less than a tick off, if a buy is not read high nor a sell low |
| FillCosts.ReadingsDiffer | internal/backtest/shared_engine.go:463-501 | closes of 100.37 and 100.2 whose 18-place texts slip at 5 basis points to another price than their shortest texts |
| FillCosts.ExpectedPriceMeaning | internal/backtest/stage07_attribution.go:197-217 | the expected price is on the tick, on the adverse side of the slipped close and less than a tick from it |
| FillCosts.SlippedIsAdverse | internal/backtest/stage07_attribution.go:197-204 | rounding never makes a slipped buy cheaper or a slipped sell dearer than the close |
| FillCosts.AcceptedFillIsAdverse | internal/backtest/stage07_attribution.go:182-226 | an accepted buy is at least the close and a sell at most the close, less than a tick beyond the slipped price, and the fee is rounded once |
| FillCosts.FeeMeaning | internal/backtest/stage07_attribution.go:221-224 | the expected fee is the once-rounded fee on quantity times price, whatever terms the rationals are in |
| VolumeCap.CapIsGreatestMultiple | internal/backtest/stage05.go:1893-1914 | the cap exists exactly for sound inputs of at most 18 places, and its text reads back without loss as the greatest multiple of the lot within a tenth of the volume |
| VolumeCap.LimitsInForce | internal/backtest/shared_engine.go:370-409 | constraints in force are refused only where the manifest requires figures they lack, and otherwise give lot, tick and minimums |
| VolumeCap.NothingInForce | internal/backtest/shared_engine.go:382-387 | without constraints in force there is only the default lot, and only when none are required or resolved |
| VolumeCap.AuditsAgreeWithBroker | internal/backtest/stage05.go:1850-1883 | on a selected minute bar the broker cancels if and only if the no-fill audit's capacity check holds, and passes the order on if and only if the fill audit's does |
| VolumeCap.AgreementIffMinuteBars | internal/backtest/stage05.go:1786-1803 | on data without overlaps the audits side with the broker if and only if the configured interval is one minute |
| VolumeCap.AuditsExclude | internal/backtest/stage07_no_fill.go:91-104 | where the no-fill audit accepts a cancellation the fill audit refuses every fill of that order at that instant |
| VolumeCap.V3AuditsAgreeWithBroker | internal/backtest/stage05.go:1880-1883 | on a bar the v3 broker selects it passes an order on if and only if the replay takes a fill there, and on minute bars cancels if and only if the no-fill audit finds no trades |
| VolumeCap.AcceptedRunRespectsCap | internal/backtest/stage07_attribution.go:81-111 | in an accepted v4 replay no fill exceeds a tenth of its minute's volume and no order fills twice |
| V4Admission.ReadAcceptances | internal/backtest/stage07_attribution.go:63-68 | the decision loop counts accepting decisions per order and keeps the last quantity |
| V4Admission.AcceptancesCounted | internal/backtest/stage07_attribution.go:63-68 | an order counts once if and only if just one decision accepts it, and then the kept quantity is that decision's |
| V4Admission.EconomicPrimitivesV4 | internal/backtest/stage07_attribution.go:46-111 | under v4 the replay needs constraints and orders with ids of their own, and admits a fill exactly when it is bound to its order, acceptance, bar, cap and costs, its texts read exactly and as numbers alike |
| V4Admission.CostsVerifiedIff | internal/backtest/stage07_attribution.go:182-226 | the broker's own price and fee are verified if and only if cost rates are whole, the close's shortest text has at most 18 places, and it slips to the price the 18-place text slips to |
| V4Admission.BrokerFillIsAdmittedIff | internal/backtest/stage07_attribution.go:81-111 | a fill the v4 broker passes on, at its price and fee and recorded with its order and decision, is admitted under that same condition and no other |
| V4Admission.BrokerFillIsRefused | internal/backtest/stage07_attribution.go:107-109 | a fully recorded broker fill at a close of 100.37 that the replay does not admit |
| V4Admission.RunIsGoodEvidenceIff | internal/backtest/stage07_attribution.go:70-111 | the fills of a v4 run are evidence the replay takes if and only if the condition holds for every deal |
| V4Admission.V4ReplayRefinesLedger | internal/backtest/stage07_attribution.go:32-180 | for a v4 run that meets the condition throughout, the replay accepts the ledger's history if and only if every sell was covered up to dust, and mirrors the ledger |
| V4Admission.AcceptedFillsAreAdverse | internal/backtest/stage07_attribution.go:182-226 | in every replay accepted under v4 each buy is at its bar's close or above and each sell at the close or below |
| V4Admission.AcceptedFillsAnswer | internal/backtest/stage07_attribution.go:91-100 | in every replay accepted under v4 each fill answers to an order of the trace and to the one decision that accepted just its quantity |
| Ledger.MemoryLedger.constructor | internal/backtest/shared_engine.go:182-189 | a new ledger holds the initial balance and nothing else |
| Ledger.MemoryLedger.Check | internal/backtest/shared_engine.go:206-257 | the checking loops compute the dry run and touch nothing |
| Ledger.MemoryLedger.CheckFills | internal/backtest/shared_engine.go:230-247 | the inner loop computes the dry run of one order's fills |
| Ledger.MemoryLedger.CheckRejections | internal/backtest/shared_engine.go:249-254 | each rejection must name an approved, unresolved intent |
| Ledger.MemoryLedger.RecordBrokerOutcome | internal/backtest/shared_engine.go:201-290 | on any error the books are unchanged; otherwise they are the dry run's actions committed in order, up to the turnover and cash already booked where the commit stops |
| Ledger.MemoryLedger.CommitAction | internal/backtest/shared_engine.go:258-288 | one turn of the commit loop: cash, averaged or reduced position, trade, event and turnover; at a missing position turnover and cash only |
| Atomicity.DryRunExact | internal/backtest/shared_engine.go:206-257 | an outcome passes the check if and only if it is complete, resolves every approved intent once and is affordable fill by fill |
| Outcomes.FundIff | internal/backtest/shared_engine.go:226-247 | the check funds some fills if and only if no buy overdraws cash and no sell exceeds what the fills before it leave, and ends with their sums |
| Outcomes.AcceptableIff | internal/backtest/shared_engine.go:201-257 | an outcome is acceptable if and only if it is complete, resolves every approved intent once and each fill is affordable after those before |
| Atomicity.CommitStopsExactly | internal/backtest/shared_engine.go:275-284 | the commit meets a missing position if and only if some sell finds nothing held by then, judged by the starting size and the earlier fills |
| Atomicity.CommitFollowsFund | internal/backtest/shared_engine.go:258-288 | whatever the check funded, a commit that goes through ends with the check's cash and, up to dust per closing of a symbol, its sizes |
| Atomicity.RecordIsAtomic | internal/backtest/shared_engine.go:201-290 | for every outcome, the exact conditions under which it is refused with the books untouched, stops the program, or is recorded whole with the checked balances |
| Atomicity.RecordIsExactWithoutDust | internal/backtest/shared_engine.go:201-290 | without a dust threshold every acceptable outcome is recorded, with exactly the cash and sizes checked |
| Outcomes.RecordWrites | internal/backtest/shared_engine.go:258-288 | a recorded outcome leaves one event per fill, field by field and with the cash after it, one trade per sell, and cash and turnover moved by the fills' sums |
| Outcomes.StoppedWrites | internal/backtest/shared_engine.go:258-281 | where the program stops the fills before are written, and of the one that finds nothing only cash and turnover |
| Atomicity.PromiseIsEnough | internal/backtest/shared_engine.go:240-284 | funded sells above dust that do not sell a symbol again after closing it are all covered by what is held, partial sells included |
| Atomicity.DustPanics | internal/backtest/shared_engine.go:240-284 | for every positive dust threshold there is an accepted outcome whose commit finds no position |
| Atomicity.NeverPanicsIffNoDust | internal/backtest/shared_engine.go:240-284 | sells above dust keep every outcome from panicking if and only if the threshold is zero |
| Renames.RenameCandidates | internal/backtest/stage05.go:942-955 | the candidates are the wanted symbols that are live or unlisted and every live symbol, in ascending order |
| Renames.AliasIsLeast | internal/backtest/stage05.go:956-970 | a held position's target is the least candidate of its asset |
| Renames.TransitionEconomicPositions | internal/backtest/stage05.go:956-970 | the sweep moves each held position to the first candidate of its asset |
| Renames.SweepKeepsQuantitiesIffFree | internal/backtest/stage05.go:956-970 | a sweep keeps every asset's quantity if and only if each of its moves, taken in order, goes to a symbol not then held |
| Renames.OneHeldIsFree | internal/backtest/stage05.go:956-970 | with one held symbol per asset every move of a sweep is free |
| Renames.RenameAllKeeps | internal/backtest/stage05.go:956-970 | a sweep whose moves are all free keeps every total that depends on the asset only |
| Renames.RenameAllKeepsQuantities | internal/backtest/stage05.go:956-970 | with one held symbol per asset a sweep keeps every asset's quantity |
| Runs.SubmitCommits | internal/backtest/shared_engine.go:201-290 | an acceptable submission whose sells all find something held commits its funded actions; any other leaves the books alone |
| Runs.LegalIffSurvives | internal/backtest/shared_engine.go:201-290 | the submissions histories are made of are exactly those that do not stop the program |
| Runs.ExactRunIsCovered | internal/backtest/shared_engine.go:240-284 | without a dust threshold every sell of every history is covered |
| Conservation.BuyConserves | internal/backtest/shared_engine.go:265-274 | a buy turns cash into cost basis one for one, fee included |
| Conservation.SellConserves | internal/backtest/shared_engine.go:275-286 | a sell turns basis into cash and booked profit, less what a deleted remainder cost |
| Conservation.CommitConserves | internal/backtest/shared_engine.go:258-288 | over a funded commit the money changes by the drift of its closing sells, each at most dust times unit cost for itself and each earlier closing of its symbol |
| Conservation.MoneyIsConserved | internal/backtest/shared_engine.go:258-288 | after any history that does not stop, cash plus open cost less booked profit is the initial balance less the drift of closing sells; that is at most dust times unit cost per closing and earlier closing of the symbol in its outcome, per closing alone when sells are covered, and zero without dust |
| Conservation.TurnoverIsLogged | internal/backtest/shared_engine.go:258-288 | after any such history the ledger's turnover is the total notional of its events |
| Reconciliation.Rebuild | internal/backtest/stage05.go:2163-2192 | the event loop computes cash and quantity per asset, or fails at an invalid event |
| Reconciliation.ReconcileLedger | internal/backtest/stage05.go:2162-2213 | the audit answers true if and only if every event is valid and the rebuilt balances are within slack of the live ones |
| Reconciliation.ReconcilesIff | internal/backtest/stage05.go:2162-2213 | the audit's verdict from the events' own figures: sound events, cash within slack of what they leave, and of each asset held what was bought less sold |
| Reconciliation.EveryRunReconciles | internal/backtest/stage05.go:2162-2213 | every ledger reached by outcomes that do not stop and sweeps that do not collide reconciles while its deleted remainders fit in the slack |
| Reconciliation.EveryRunReconcilesExactly | internal/backtest/stage05.go:2162-2213 | without a dust threshold every such ledger reconciles with no slack at all |
| AuditLimits.LeakyRun | internal/backtest/shared_engine.go:281-284 | there are legal histories that delete one unlogged remainder per sell, any number of times |
| AuditLimits.AuditAbsorbsExactly | internal/backtest/stage05.go:2193-2211 | the audit accepts every history of at most n sells per asset if and only if n remainders fit in its slack, which for the program's constants is n at most 100 |
| Refinement.BuildArtifacts | internal/backtest/stage03.go:698-701 | each event becomes one fill artifact and one recorded cash balance, in order |
| Replay.Auditor.AdmitFill | internal/backtest/stage07_attribution.go:70-125 | the admission checks on one fill in the program's order, and the totals it adds to |
| Replay.Auditor.EnterFill | internal/backtest/stage07_attribution.go:126-142 | a replayed buy pays, refuses to overspend, and averages into the holding |
| Replay.Auditor.ExitFill | internal/backtest/stage07_attribution.go:143-167 | a replayed sell must match the next closed trade and releases its share of entry fee and slippage |
| Replay.EconomicPrimitives | internal/backtest/stage07_attribution.go:32-180 | for any admission rule the replay loop computes the replay function, ending with the count and metric checks |
| Refinement.ReplayTotals | internal/backtest/stage07_attribution.go:118-120 | the totals of any accepted replay are the sums over its fills of quantity times price, of fee, and of quantity times the distance of price and reference |
| Primitives.AcceptedAreSound | internal/backtest/stage07_attribution.go:70-90 | the fills of an accepted replay have positive figures, names of their own, times in order and a bar that traded |
| Primitives.AcceptedReplayHandsOn | internal/backtest/stage07_attribution.go:112-167 | each fill primitive repeats its fill with notional and liquidity, and each trade primitive has the entries carried up to its sell and costs its share of their fees and slippage plus its own |
| Primitives.AcceptedMetricsAreNear | internal/backtest/stage07_attribution.go:168-173 | an accepted replay's reported turnover, fees and slippage are near the sums over its fills |
| Primitives.MetricsAreEventSums | internal/backtest/stage05.go:2050 | the metrics reported for a ledger are sums over its events' own fields |
| Refinement.ReplayPairsTrades | internal/backtest/stage07_attribution.go:143-167 | in any accepted replay the k-th closed trade is the k-th sell with the k-th recorded trade's profit |
| Refinement.ReplayFollows | internal/backtest/stage07_attribution.go:70-167 | from any mirrored state the replay of a commit's artifacts takes every fill if and only if every sell was covered, and then ends mirrored |
| Refinement.RunIsOneCommit | internal/backtest/shared_engine.go:201-290 | a rename-free history of outcomes that do not stop is one long commit, covered if and only if the history is |
| Refinement.ReplayRefinesLedger | internal/backtest/stage07_attribution.go:32-180 | for every rename-free history with good evidence that does not stop, the replay accepts if and only if every sell was covered up to dust, always without dust; it then ends with the ledger's cash, quantities, entry prices and fees, pairing sells with trades in order |
| UncoveredSells.RecordedYetRefused | internal/backtest/stage07_attribution.go:143-147 | for every positive dust threshold there is a history that is recorded whole, with good evidence, and refused by its replay |
| Residual.IndexExposures | internal/backtest/stage07_residual.go:37-46 | exposures are indexed if and only if each has a name, the right status and its own symbol |
| Residual.ResidualPrimitives | internal/backtest/stage07_residual.go:15-95 | the audit accepts if and only if cash, exposures, order, marks and final equity all agree, and then returns one marked residual per position |
| Marks.AcceptsAtLastCloses | internal/backtest/stage07_residual.go:15-95 | the audit accepts if and only if cash, exposures and positions are in order and equity is cash plus every quantity at its symbol's last close before the final point |
| Marks.AcceptedIsMarkedToClose | internal/backtest/stage07_residual.go:77-93 | each residual of an accepted trace is marked at that close, its value, basis and unrealized profit worked out from quantity, close, entry price and fee |
| Marks.AcceptedIsShown | internal/backtest/stage07_residual.go:19-76 | of an accepted trace every position is shown by an exposure at the last close of its time, and replayed cash is the ledger's |
| Residual.ExposuresMatchInventory | internal/backtest/stage07_residual.go:47-62 | accepted inventories and exposures name exactly the same symbols, each once |
| Residual.ValueIsCostAndProfit | internal/backtest/stage07_residual.go:81-90 | marked value is open cost, fees included, plus unrealized profit |
| Decomposition.ReplayMovesStake | internal/backtest/stage07_attribution.go:112-167 | over an accepted replay cash plus holding cost less booked profit, and fees and slippage not yet placed, move by exactly the computed gaps |
| Decomposition.GapsBounded | internal/backtest/stage07_attribution.go:143-167 | the gaps are at most dust times unit cost per closing sell plus the comparison slack per trade |
| Decomposition.ExactBounds | internal/backtest/stage07_attribution.go:143-167 | without dust and with exact comparisons the gaps are zero |
| Decomposition.EquityDecomposition | internal/backtest/stage07_residual.go:81-95 | when both audits accept, final equity less starting capital is realised plus unrealised profit, exactly without slack and within the stated bounds otherwise |
| Decomposition.CostDecomposition | internal/backtest/stage07_attribution.go:112-167 | all fees and slippage are in a closed trade's cost or on an open position, up to deleted remainders |
| LedgerProfit.LedgerEquityDecomposes | internal/backtest/stage07_residual.go:81-95 | for every rename-free history with good evidence, accepted final equity is capital plus the ledger's booked profit plus unrealized profit, within the audits' slack |
| NoFillAudit.ReadDecisions | internal/backtest/stage07_no_fill.go:47-61 | the decision loop computes the folded outcomes |
| NoFillAudit.NoFillsMean | internal/backtest/stage07_no_fill.go:51-61 | the folded no-fill counts are how often each order has a no-fill decision |
| NoFillAudit.RejectionsMean | internal/backtest/stage07_no_fill.go:51-61 | an order counts as risk-rejected or otherwise rejected if and only if some decision says so |
| NoFillAudit.IndexOrders | internal/backtest/stage07_no_fill.go:40-46 | orders are indexed if and only if each has an id of its own, shared with its intent |
| NoFillAudit.CheckRecord | internal/backtest/stage07_no_fill.go:69-111 | a record passes if and only if it is new, in signal order, unconflicted and matches its order, bar and amounts |
| NoFillAudit.NoFillPrimitives | internal/backtest/stage07_no_fill.go:16-126 | the audit accepts if and only if the trace meets the declarative conditions, and then returns the records |
| NoFillAudit.AcceptedRecordsAreDecisions | internal/backtest/stage07_no_fill.go:69-119 | under v3 and v4 the records are one for one the broker's no-fill decisions, no order twice; under other policies there are none |
| NoFillAudit.AcceptedRecordsAreExclusive | internal/backtest/stage07_no_fill.go:69-83 | a recorded order exists and neither filled nor was rejected |
| NoFillAudit.AcceptedRecordShows | internal/backtest/stage07_no_fill.go:69-111 | every accepted record agrees with an order of the trace, lies in the run and shows a bar of its symbol, with a capacity of at most a tenth under v4 |
| NoFillAudit.EveryOrderEnds | internal/backtest/stage07_no_fill.go:120-124 | every order of an accepted trace filled, was rejected or is recorded as not filled |
| NoFillAudit.AcceptedNoFillsCannotFill | internal/backtest/stage07_no_fill.go:95-104 | under v4 every accepted no-fill is over its cap, and no fill of that order passes the fill audit there |
| NoFillAudit.AcceptedZeroTradesCannotFill | internal/backtest/stage07_no_fill.go:86-94 | under v3 every accepted no-fill is on a bar without trades, where the replay admits no fill |
| MarketData.SearchFindsBoundary | internal/backtest/stage07_source.go:522-525 | on a monotone test the binary search returns the boundary |
| MarketData.NextFillPrices | internal/backtest/stage05.go:1750-1771 | the loop returns the common next open of all symbols and its prices, or fails |
| MarketData.FinalLiquidationPrices | internal/backtest/stage05.go:1939-1974 | the loops return the last common bar before the end with the close before it, or fail |
| FillPrices.NextFillIff | internal/backtest/stage05.go:1750-1771 | on ordered bars the answer is the first opening of all symbols after the signal, inside the run, at exactly their opening prices, and missing if and only if there is none |
| FillPrices.NextFillIgnoresTrading | internal/backtest/stage05.go:1750-1771 | a next fill does not depend on highs, lows, closes, volumes or closing times |
| FillPrices.LiquidationIff | internal/backtest/stage05.go:1939-1974 | a final liquidation is every symbol's last bar of the run, opening at one instant after one signal, at exactly the opening prices |
| FillPrices.LiquidationIgnoresTrading | internal/backtest/stage05.go:1939-1974 | it does not depend on highs, lows, closing prices or volumes |
| FillPrices.SelectedIff | internal/backtest/stage05.go:1786-1803 | a selected bar is the symbol's bar that opens at the instant, if it has the width, is sound and is over when the run ends |
| FillPrices.BarAtIff | internal/backtest/stage07_source.go:526-533 | the bar found at an instant is the one that opens there |
| FillPrices.AvailableHaveClosed | internal/backtest/stage05.go:1987-1990 | the bars available at an instant are exactly those that have closed |
| Causality.MarksUnchanged | internal/backtest/stage05.go:1976-1985 | marks before a cut do not depend on bars that open from it on |
| Marks.MarkIsLastClose | internal/backtest/stage05.go:1976-1985 | a mark is the close of the last bar closed by then, and missing exactly when none has |
| Causality.BarsAvailableUnchanged | internal/backtest/stage05.go:1987-1990 | nor do the bars available |
| Causality.NextFillUnchanged | internal/backtest/stage05.go:1750-1771 | with required execution data next fills do not depend on bars from the cut on |
| Causality.SelectedBarUnchanged | internal/backtest/stage05.go:1786-1803 | nor does the selected bar |
| Causality.LiquidationUnchanged | internal/backtest/stage05.go:1939-1974 | nor do the final liquidation prices |
| Causality.TruncateMeaning | internal/backtest/stage07_source.go:515-525 | truncation keeps exactly the bars that open before the cut |
| Causality.NoLookAhead | internal/backtest/stage07_source.go:515-525 | truncating all data at or after the run's end changes none of the five queries anywhere in the run |
| Causality.NextFillLands | internal/backtest/stage05.go:1750-1771 | a next fill is strictly after its signal, strictly inside the run, and the first opening of every symbol since the signal |
| Causality.FallbackLooksAhead | internal/backtest/stage05.go:1754-1757 | with optional execution data there is ordered data whose truncation changes a next fill |
| Causality.NextFillBlindIffRequired | internal/backtest/stage05.go:1754-1757 | next fills are blind to data after the run for all ordered data if and only if execution data is required |
| Fallback.NextFillBlindIff | internal/backtest/stage05.go:1750-1771 | for given data a cut at or after the run's end is invisible to next fills if and only if no symbol loses all execution bars to it while decision bars of the run stand in |
| Fallback.LiquidationBlindIff | internal/backtest/stage05.go:1939-1974 | the same for the final liquidation, where the stand-in bars must be ones to liquidate on |
| Coverage.ScanBars | internal/backtest/stage03.go:305-334 | the scan is clean if and only if every bar spans its interval and openings increase, otherwise names the last fault of the last faulty bar, and counts the gaps |
| Coverage.ValidateBarCoverage | internal/backtest/stage03.go:297-352 | a series is not rejected if and only if it is present, clean, within the gap allowance and within the requested bounds, and the reason is the first of these that fails |
| Coverage.GapsAreEmptySlots | internal/backtest/stage03.go:325-330 | the gaps of bars on a grid are the intervals between the first and the last that have none |
| Coverage.RegularSeriesPasses | internal/backtest/stage03.go:305-334 | a series without a hole, each bar an interval wide or a millisecond less, is clean and has no gaps |
| Coverage.BoundsMissingIff | internal/backtest/stage03.go:336-341 | a series reaches the bounds if and only if it starts by the start and ends within a millisecond of the end or later |
| Coverage.CleanIsOrdered | internal/backtest/stage03.go:305-334 | a clean series at more than a millisecond is ordered, as the no-look-ahead results need |
| Coverage.CleanOrdersIff | internal/backtest/stage03.go:309-316 | coverage orders every series if and only if the data is not feature data and the interval is positive and not one millisecond |
| Benchmark.SymbolState.Advance | internal/backtest/engine.go:65-73 | the cursor moves past exactly the bars that have closed |
| Benchmark.CursorAgreesWithSearch | internal/backtest/engine.go:65-73 | a cursor stepped through any clock that never runs back stands where the as-of search points |
| Benchmark.AlignBenchmark | internal/backtest/stage07_source.go:296-314 | the cursor loop computes the alignment of any two curves, or fails |
| Benchmark.AlignmentIsLatest | internal/backtest/stage07_source.go:299-314 | on curves in time order each candidate point gets the benchmark's latest value and never a later one, and it fails exactly when the benchmark does not span the candidate |
| Redistribution.TargetWeights | internal/backtest/stage06.go:653-685 | the loops compute one allocation, whatever order the map is walked in |
| Redistribution.RaiseTotal | internal/backtest/stage06.go:679-684 | a pass adds at most its share to each open weight, and exactly that when none meets the cap |
| Redistribution.PassProgress | internal/backtest/stage06.go:668-685 | a pass stays within cap and target, lowers nothing, and reaches the target or fills an open weight |
| Redistribution.AllocationConverges | internal/backtest/stage06.go:663-685 | within one pass per position the total is the smaller of the target and n caps, exactly without slack, and no weight is above the cap or below its capped share |
| Redistribution.AllocationKeepsOrder | internal/backtest/stage06.go:663-685 | an asset with no larger raw weight never ends with a larger weight, up to the slack |
| Redistribution.SelectedRowsAreAllocated | internal/backtest/stage06.go:653-685 | all of this holds for whatever rows are selected, repeated symbols included |
| Volatility.SharesAreInverse | internal/backtest/stage06.go:653-665 | before capping each asset's part of the target is inversely proportional to its volatility, never taken below the floor |
| Volatility.CalmerGetsNoLess | internal/backtest/stage06.go:653-685 | a more volatile asset ends with no larger weight, up to the slack |
| Sizing.DecisionEquity | internal/backtest/stage05.go:981-992 | the loop adds each position at its valuation price, or fails at the first that has none |
| Sizing.EquityIsCashAndPositions | internal/backtest/stage05.go:981-992 | decision equity is cash plus every size at its valuation price, and missing if and only if some position has none |
| Sizing.TargetQuantities | internal/backtest/stage05.go:993-1028 | the loop sizes each target from its weight in whole lots, kept to so many places, or fails at the first without mark, constraints or price |
| Sizing.UnitCostIsAdverse | internal/backtest/stage05.go:1012-1023 | a unit costs the adverse price and the fee on it, and the adverse price is the slipped one, not below the plain one, or up to a tick above |
| Sizing.EqualWeightsShareGross | internal/backtest/stage05.go:994-1002 | without weights of their own the targets share the gross exposure |
| Sizing.RoundedUpMeaning | internal/backtest/stage05.go:1019-1022 | the adverse price is a whole number of ticks, at the slipped price or less than a tick above it |
| Sizing.QuantityFillsShare | internal/backtest/stage05.go:1023-1026 | a quantity in whole lots costs at most its share of equity and one lot more would not |
| Sizing.SizesAreWholeLots | internal/backtest/stage05.go:1023-1027 | where the lot is a multiple of the places kept, keeping a quantity to them changes nothing |
| Sizing.TargetsAreAffordable | internal/backtest/stage05.go:993-1028 | all targets at adverse prices and fees cost at most decision equity times the sum of weights, plus the forgiven roundings |
| Rebalance.Desk.Reduce | internal/backtest/stage05.go:1041-1094 | one turn of the reduction loop: skipped, trimmed to the budget, or mandatory in full |
| Rebalance.Desk.Add | internal/backtest/stage05.go:1098-1128 | one turn of the addition loop |
| Rebalance.Desk.RebalanceTo | internal/backtest/stage05.go:973-1129 | the whole rebalance is the two phases run on the sized targets, stopping at the first failure |
| Rebalance.RequestsAreDisciplined | internal/backtest/stage05.go:1029-1129 | for every broker, sells precede buys, each request is measured against what is held by then and passes no target, and discretionary requests stay within the turnover budget |
| Turns.RequestsAreTurns | internal/backtest/stage05.go:1041-1128 | in a rebalance that does not stop each held symbol and then each target has its turn, and is asked for exactly when its gap is worth it, in full or by what the budget left pays for |
| Turns.MandatoryExitsAreSent | internal/backtest/stage05.go:1041-1074 | every mandatory exit above the threshold is asked for in full, whatever the budget and the minimum |
| Turns.FilledRebalanceReachesTargets | internal/backtest/stage05.go:1041-1128 | without a budget and a minimum, and when everything is filled, every holding ends at its target up to threshold and dust |
| Rebalance.HoldingsMoveTowardTargets | internal/backtest/stage05.go:1041-1128 | for every broker that fills within its requests each holding ends between its start and its target, up to dust |
| Rebalance.PlannedBudgetHolds | internal/backtest/stage05.go:981-1129 | the budget and the cost of the targets hold for the plan made from decision equity |
| Turns.PlanIsMadeOf | internal/backtest/stage05.go:1029-1034 | the minimum and the budget of a plan are the given parts of decision equity |
| Allocation.PlanMeetsCaps | internal/backtest/stage05.go:981-1028 | a plan for the selected assets costs at most decision equity times the smaller of target exposure and n caps, fees and adverse prices included |
| Intrabar.RatchetPercentTrailingStop | internal/services/exit_rules.go:130-146 | the result is the higher of the stop and the percent candidate, if there is one |
| Intrabar.RatchetATRTrailingStop | internal/services/exit_rules.go:150-168 | the result is the higher of the stop and the ATR candidate, if there is one |
| Intrabar.PositionState.CheckMinute | internal/backtest/engine.go:1339-1391 | one minute's exit, if it touches: price, times and reason |
| Intrabar.PositionState.EvaluateIntrabarProtectiveExit | internal/backtest/engine.go:1313-1401 | the scan exits at the one minute that is first to touch, at the higher stop level or the target or a worse or better open, or runs out ratcheted by every minute; on ordered minutes it exits if and only if some minute in scope touches |
| Intrabar.ScanCovers | internal/backtest/engine.go:1320-1340 | on ordered minutes the scan covers exactly those that open no earlier than the entry and the decision bar and close within that bar |
| Intrabar.ExitsOnlyTouched | internal/backtest/engine.go:1334-1400 | on ordered minutes it exits only if one of those touches |
| Intrabar.RunsOutUntouched | internal/backtest/engine.go:1334-1400 | on ordered minutes it runs out only if none of those touches |
| Intrabar.TouchesIff | internal/backtest/engine.go:1339-1391 | a minute touches if and only if its low reaches either stop or its high the target |
| Intrabar.TrailIsHighestBefore | internal/backtest/engine.go:1392-1397 | the stop in force is the highest of the initial one and the candidates of strictly earlier minutes |
| Intrabar.TrailNeverFalls | internal/backtest/engine.go:1392-1397 | it never falls from one minute to a later one |
| Intrabar.PercentTrailFollowsHighs | internal/services/exit_rules.go:130-146 | a percent trail is never further behind any high above entry since the start, and just that far behind one of them or unmoved |
| Intrabar.AtrTrailFollowsHighs | internal/services/exit_rules.go:150-168 | an ATR trail follows the highest high, or entry, so by a fixed distance |
| Intrabar.FirstTouchIgnoresLater | internal/backtest/engine.go:1334-1400 | the exit does not depend on what follows the deciding minute |
| Aggregation.AggregateByBars | internal/backtest/engine.go:1196-1227 | the nested loops compute the buckets |
| Aggregation.MergedExtremes | internal/backtest/engine.go:1208-1223 | a bucket's high and low are attained by members and bound them all, and it opens with its first and closes with its last |
| Aggregation.BucketHolds | internal/backtest/engine.go:1203-1225 | bucket k holds exactly the bars from k widths on to the next, or to the end |
| Aggregation.AggregateKeepsVolume | internal/backtest/engine.go:1196-1227 | total volume is kept |
| Aggregation.MergedAggregate | internal/backtest/engine.go:1196-1227 | merging the buckets of a stretch is merging the stretch |
| Aggregation.AggregationComposes | internal/backtest/engine.go:1196-1227 | aggregating by a and then by b is aggregating by their product, for all lengths and widths |

## Left out

- Rounding of `float64` itself, and its infinities and not-a-number: amounts are exact reals, prices the numbers of their shortest texts. `stage05EconomicFloat` is modelled where a target quantity is sized and `decimalString` where the v4 broker reads a close or a tick; elsewhere the two, which round to 12 and 18 places, are the identity.
- Refinement.ReplayRefinesLedger: histories without renames, because the replay goes by symbol and does not know about them.
- Replay.EconomicPrimitives: the strategy regime label of a trade is left out.
- V4Admission.EconomicPrimitivesV4: which v4 condition a refused fill failed is not told apart, `canonicalTime` is any function from instants to texts, the 18-place text of a price is any function of the price, and the number `ParseFloat` reads from a text is the one `big.Rat` reads.
- V4Admission.BrokerFillIsAdmittedIff: on minute bars; with another interval the audits refuse (`VolumeCap.AgreementIffMinuteBars`).
- Decomposition.EquityDecomposition: the closing inventory is any listing of the replayed holdings; that `sort.Slice` produces the ascending one is the library's promise.
- Sizing.TargetQuantities: stops at a target without a positive unit cost, where the program divides by zero and goes on with an infinite quantity or none.
- Rebalance.Desk.RebalanceTo: the broker, the risk engine, the per-order underfill rules of `runStage05Target` and the check of a mandatory exit's residual are one arbitrary reply that fills part of the request and succeeds or fails; the closing check of achieved allocation is left out.
- VolumeCap.CapIsGreatestMultiple: a float is identified with the decimal it prints as; `big.Rat` quotients are formed on integers directly.
- NoFillAudit.NoFillPrimitives: numbers and times are given as parsed or not, and record digests and manifests as plain fields.
- Intrabar.PositionState.EvaluateIntrabarProtectiveExit: prices are read once; the program reads them through references that nothing else writes during the scan.
- Positions, trades and events carry only the fields that enter the accounting; reasons, metadata, factor traces and JSON encodings are left out.
- Except for rename candidates, sorting is not modelled: where the program sorts map keys, the order is a parameter and the results hold for every order.
- The database, HTTP and websocket layers, the web front end, command line tools, progress reports and telemetry.
- Exchange fetching, decision models and the indicator library.
- Statistics over equity curves (Sharpe, Sortino, bootstrap intervals) and digest or manifest identity checks.
- Report assembly (`CoverageReport.add` and the remaining artifacts of `buildBacktestArtifacts`), which only copies and counts.

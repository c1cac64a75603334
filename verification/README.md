# Rekt: the ledgers, the order manager and the loops around them

Rekt keeps one transaction log and derives everything else from it. This project models, in Dafny, the parts of the
server and its core library whose correctness is not visible from any one function:

* **The book ledger** (`crates/rekt-core/src/portfolio.rs`) replays the log into FIFO lots, cash and realized profit.
  `Portfolio.dfy` has the replay as a function on values and as a class that updates its fields in place, and proves
  that quantities, cost bases and cash stay exact. `BookTotals.dfy` says what the book owes the log, every column
  written out, and `Fifo.dfy` proves the closed form of FIFO: the basis of a sell is a segment of the cumulative cost
  curve of everything bought.
* **The wash-sale tax ledger** (`crates/rekt-core/src/taxes.rs`) replays the same log under section 1091 of the
  Internal Revenue Code (26 U.S.C.). `TaxLots`, `Allocation`, `WashSale` and `TaxLedger` hold the loops and the
  functions they compute; `Capacity`, `Carrying`, `Tacking`, `Selling` and `LedgerInvariant` hold the invariant that the
  code never writes down; `TaxLaws`, `TaxReport`, `Verdicts`, `Refinement`, `Apportioning` and `Provenance` hold what
  follows for every log: no deferred loss is lost or created, both engines accept the same logs, keep the same lots and
  end with the same profit, every sell's rows share its proceeds to the half micro-dollar, and every holding period is
  explained by its buy's date or by a loss reported earlier. `WashWindow` and `LotOrder` say the same ledger in other
  words: which shares every losing row replaces and what it disallows, read off the capacities alone, and what each
  operation does to the x-th share of a symbol.
* **The order manager** (`crates/rekt-server/src/trading.rs`). `OrderTables` has one function per SQL statement,
  `OrderRuns` the step system in which submissions, broker replies, stream events, reconcile statements, cancels and
  crashes interleave freely, `OrderManager` the handlers as methods over the tables, `Handlers` the proof that each
  handler is a run, `Convergence` the exact condition under which one reconciliation pass repairs the tables,
  `Unlocking` the exact condition under which a pass completes at all, `Recovery` the proof that every run against a
  truthful broker ends where such a pass may start, and `FillProgress` exactly when a run undoes what an order says has
  filled. `Guardrails` (`crates/rekt-core/src/orders.rs`) is the ticket check they all rely on, and `Intents` the proof
  that no order of ours ever came about without it.
* **The loops that must equal something simpler.** `Import`, `ImportOrder`, `InstantTotals`, `AmpleLog` and
  `ImportOrderExact` (`crates/rekt-server/src/api.rs`), `History` and `Returns` (`crates/rekt-core/src/history.rs`),
  `LiveCache` (`crates/rekt-server/src/live.rs`) and `Signals` (`crates/rekt-core/src/signals.rs`). `Benchmark`,
  `UnitPrice` and `Weights` say what their recursions come to: which days' money buys the benchmark at which close, a
  return as the growth of a unit's price and the rate of an account that ends up empty, an average as a weighted sum.

Conventions. Money and quantities are exact reals. `round_dp(6)` is any rounding function where only conservation is
at stake, and one within half a micro-dollar where closeness is (`Allocation.RoundDp6` is such a function). New York
dates are an arbitrary monotone function of the instant, above an arbitrary floor; UTC days divide the instant.
Symbols are already trimmed and upper-cased, and a blank one counts as missing. Logs are strictly ordered by
(ts, id), as `crates/rekt-server/src/repo.rs:89-95` leaves them. Random values, clock readings and broker answers are
parameters.

Four things a reader might expect are not so; the model follows the code.

* After an import the merged log need not replay: `Import.ImportMayBreakALaterSell` gives the family of inputs for
  which it does not, and `Import.ReconcileImport` states exactly when it does, namely when the single pass over the
  merge meets no stored row that fails.
* Putting acquisitions first within an instant is not always the best order. For every file of well-formed rows it is
  the best over every stored log if and only if two things hold at each instant for each symbol
  (`ImportOrderExact.OptimalExactlyWhenWellPlaced`). In the importer's order no buy stands behind a forward split nor in
  front of a reverse one. And there is no sell, or no reverse split, or the splits together shrink nothing and the
  shares bought, grown by the forward splits, cover the shares sold.
* A partly filled order can read as not filled at all again. The comment at `crates/rekt-server/src/trading.rs:251-252`
  says that `partially_filled` never regresses, and of the one guarded update it stands over that is so. Over a run it
  is not: a cancel in between takes the order out of the state that the guard protects.
  `FillProgress.StepUndoesExactlyWhen` gives the exact step (an answer saying that nothing filled reaches the row while
  it is pending cancel, and no other row has its broker id), `FillProgress.RegressesExactlyWhen` says that a run
  regresses an order if and only if it has such a step, and `FillProgress.CancelLetsAFillRegress` does it to any partly
  filled order.
* That trading is unlocked does not say that a reconciliation pass got anything from the broker, although the comment at
  `crates/rekt-server/src/trading.rs:494-501` reads as if the phases had to succeed. Whichever of the calls fail, a pass
  against a broker that tells the truth completes (`Unlocking.PassCompletes`; after any history,
  `Recovery.EveryPassCompletes`). Against any broker it completes exactly when no clash can be read off the rows before
  it, the list and the lookup answers (`Unlocking.CompletesExactlyWhen`), and unlocking proves that the mass status was
  obtained exactly when some pending row is answered a broker id that another row stores, or that a pending row in front
  of it was answered (`Unlocking.UnlockingProvesMassStatus`).

`dafny verify dfyconfig.toml` checks everything.

## Model

| member | source | states |
|---|---|---|
| Portfolio.StepGood | crates/rekt-core/src/portfolio.rs:179-283 | every transaction, failed ones included, keeps qty equal to the sum of its lots, cost basis equal to the sum of lot costs, lots positive, and cash + open cost = deposited − withdrawn + dividends + realized profit, each of which `BookTotals` reads off the log |
| Portfolio.ReplayGood | crates/rekt-core/src/portfolio.rs:168-174 | the same for the book of every log that replays |
| Portfolio.ConsumeQty | crates/rekt-core/src/portfolio.rs:231-243 | taking q shares leaves exactly q fewer, in positive lots, so the front lot the code expects is always there |
| Portfolio.ConsumeCost | crates/rekt-core/src/portfolio.rs:231-243 | the basis handed to the sell is exactly the cost that left the open lots |
| Portfolio.ScaleCost | crates/rekt-core/src/portfolio.rs:257-271 | a split changes no lot's cost, nor their sum |
| Portfolio.ConsumeFifo | crates/rekt-core/src/portfolio.rs:231-243 | the removal loop computes the FIFO split of the lots and never runs out of them |
| Portfolio.ComputeBasis | crates/rekt-core/src/portfolio.rs:168-174 | the fold over a mutable book returns the book of the replay, or the error of the first transaction that fails |
| Portfolio.PortfolioBasis.ApplyTx | crates/rekt-core/src/portfolio.rs:179-283 | one transaction in place: the new fields and the error are the specified step, which `BookTotals` reads off the log's columns, and the book stays consistent even on errors |
| Portfolio.PortfolioBasis.ApplySell | crates/rekt-core/src/portfolio.rs:214-250 | a sell in place, including the empty position that a refused sell leaves behind |
| Portfolio.ReplayAppend | crates/rekt-core/src/portfolio.rs:176-178 | replaying in two goes is replaying once, so an incremental replay may stand for a fresh one |
| Portfolio.RealizedSinceIsTheDifference | crates/rekt-core/src/portfolio.rs:153-162 | profit realized since a moment is all realized profit less what the log before that moment had realized |
| BookTotals.BookIsTheSumOfTheLog | crates/rekt-core/src/portfolio.rs:179-283 | after every log that replays, cash is the signed sum of its rows with quantity, price, fees and taxes written out, deposits and withdrawals are the sums of their rows, and a symbol's dividends are the sum of its dividend rows |
| BookTotals.RefusedForCause | crates/rekt-core/src/portfolio.rs:179-283 | a transaction is refused if and only if it lacks its symbol, has a quantity or ratio that is not positive, or sells more than the position holds; the error says so with the numbers, and at most an empty position is left behind |
| BookTotals.RefusedLog | crates/rekt-core/src/portfolio.rs:168-174 | a log that does not replay stops at a row with such a cause, over the book of the rows before it |
| Fifo.OpenLotsAreTheUnsoldTail | crates/rekt-core/src/portfolio.rs:195-281 | after any valid log the open lots of a symbol are everything bought, in split-adjusted shares, less the first shares sold |
| Fifo.SellConsumesCurveSegment | crates/rekt-core/src/portfolio.rs:214-250 | a sell of q shares after S earlier ones realizes its proceeds less C(S+q) − C(S), where C is the cumulative cost curve of everything bought |
| Fifo.ConsumeTwice | crates/rekt-core/src/portfolio.rs:231-243 | taking a and then b shares takes the same basis and leaves the same lots as taking a + b |
| Fifo.ConsumeScaled | crates/rekt-core/src/portfolio.rs:257-271 | a split commutes with taking shares from the front |
| Fifo.CuttingASellChangesNothing | crates/rekt-core/src/portfolio.rs:214-250 | cutting a sell into any number of sells with the same shares and net proceeds in all changes neither whether it goes through nor the positions and the cash it leaves |
| TaxLots.TakeHeld | crates/rekt-core/src/taxes.rs:348-364 | for every buy, the shares a sell takes of it and those still held are the shares held before |
| TaxLots.TakeBasis | crates/rekt-core/src/taxes.rs:348-364 | basis is only moved from the lots into the chunks |
| TaxLots.TakeFifo | crates/rekt-core/src/taxes.rs:348-364 | the consuming loop computes the FIFO chunks and never runs out of lots |
| TaxLots.AdjustedHeld | crates/rekt-core/src/taxes.rs:470-501 | designating replacement shares changes how many shares of no buy are held |
| TaxLots.AdjustedBasis | crates/rekt-core/src/taxes.rs:470-501 | when enough shares are held, exactly qty × add of basis is placed, none of it lost |
| TaxLots.AdjustHeldLots | crates/rekt-core/src/taxes.rs:470-501 | the loop that inserts into the vector by index computes that adjustment, adjusted part first |
| LotOrder.TakesFromTheFront | crates/rekt-core/src/taxes.rs:348-364 | a sell of q shares closes the first q shares of the symbol, each from its own buy with its own clock and at its own basis; every other share moves up by q as it is |
| LotOrder.DesignatesTheFirst | crates/rekt-core/src/taxes.rs:470-501 | designation gives the added basis and the new clock to exactly the first qty shares of that buy, wherever they stand, and leaves every other share alone |
| LotOrder.BuysAtTheBack | crates/rekt-core/src/taxes.rs:241-274 | a buy's shares enter behind all others, first those owed an adjustment in the order owed, then the rest with the buy's date, all at the price paid with fees and taxes spread over its shares; nothing else moves and nothing is owed to it any more |
| LotOrder.SplitStretches | crates/rekt-core/src/taxes.rs:295-310 | a split moves the share at x to x times the ratio, with its buy, its clock and its unit basis divided by the ratio |
| Allocation.PiecesSumExactly | crates/rekt-core/src/taxes.rs:374-382 | pro-rata pieces add up to the total for any rounding function whatever; `Apportioning` shows that the ledger's splits are such pieces |
| Allocation.ExactAllocation | crates/rekt-core/src/taxes.rs:374-427 | exact total; every piece but the last within half a micro-dollar of its share; the last of n within (n − 1)/2 micro-dollars |
| Apportioning.ChunkRows | crates/rekt-core/src/taxes.rs:374-382 | the rows a sell appends report its chunks' shares and, as proceeds, exactly those pieces of its net proceeds |
| Apportioning.EverySellApportions | crates/rekt-core/src/taxes.rs:331-460 | in every log that replays each sell appends rows for its shares in full, whose proceeds add up to its net proceeds and stay that close to their shares of it; nothing else touches the report |
| Apportioning.CarriedPieces | crates/rekt-core/src/taxes.rs:413-427 | what the matched buys receive of a disallowed loss are exactly its pieces by matched shares |
| Apportioning.LossApportions | crates/rekt-core/src/taxes.rs:407-447 | so the amounts a washed chunk carries add up to its row's disallowed loss and stay that close to their shares of it |
| Apportioning.EverySellCarries | crates/rekt-core/src/taxes.rs:331-460 | in every log that replays, each row a sell reports in turn either disallows nothing and changes nothing else, or hands the matched buys such amounts of its disallowed loss |
| Allocation.RoundDp6RoundsToMicro | crates/rekt-core/src/taxes.rs:380 | rounding half to even at six decimals is within half a micro-dollar of its input |
| Allocation.RoundsHalfToEven | crates/rekt-core/src/taxes.rs:380 | the result is a whole number of micro-dollars, the nearest one, and the even one of two equally near |
| WashSale.BurnCapacity | crates/rekt-core/src/taxes.rs:366-372 | the burn loop lowers the capacity of each sold lot's own buy and no other |
| WashSale.MatchWindow | crates/rekt-core/src/taxes.rs:386-406 | the window loop with its early exit computes the matches in log order and their total; which ones those are is `WashWindow.MatchesExactly` |
| WashSale.CarryMatches | crates/rekt-core/src/taxes.rs:413-446 | the carrying loop places each part in held lots or in the pending map as the replay order decides |
| WashSale.SellAndWash | crates/rekt-core/src/taxes.rs:331-460 | the whole sell computes the specified lots, capacities, pending map and report rows; what it disallows is `WashWindow.EverySellWashes` |
| WashWindow.MatchesExactly | crates/rekt-core/src/taxes.rs:386-406 | for a chunk of q shares, the buys of the symbol dated thirty days before through thirty days after the sale give up, in log order, their positive capacities until q shares are covered: exactly those are the matches, exactly those capacities fall, and the total is the smaller of q and all that is on offer |
| WashWindow.EverySellWashes | crates/rekt-core/src/taxes.rs:331-460 | at every sell of every log that replays, each buy's capacity first falls by the shares of it sold; then each row, over the capacities the rows before it left, disallows nothing if it made no loss or nothing is on offer, its loss if all its shares are replaced, and otherwise the rounded loss times replaced shares over its shares |
| WashWindow.CapsAreBuys | crates/rekt-core/src/taxes.rs:206-221 | the capacities a run starts with are the buys of the whole log, in order, each with its symbol, New York date and all its shares |
| WashWindow.OtherStepCaps | crates/rekt-core/src/taxes.rs:295-316 | between sells a split scales the capacities of its symbol's buys before it, and no other transaction moves any |
| Capacity.BurnAt | crates/rekt-core/src/taxes.rs:366-372 | each buy's capacity falls by what was sold of it, but never below zero |
| Capacity.MatchAt | crates/rekt-core/src/taxes.rs:386-406 | each buy's capacity falls by exactly what was matched against it |
| Capacity.MatchTakesAll | crates/rekt-core/src/taxes.rs:386-406 | a chunk is matched for the smaller of its size and the capacity on offer in the window, of which `WashWindow.MatchesExactly` says what it is |
| Capacity.BurnKeepsCapacity | crates/rekt-core/src/taxes.rs:348-372 | after a sell's shares are taken and burnt, every capacity is again covered by shares still held |
| Capacity.MatchKeepsCapacity | crates/rekt-core/src/taxes.rs:386-406 | matching only turns capacity into matches that are still due |
| Carrying.CarryOne | crates/rekt-core/src/taxes.rs:421-446 | one carried amount raises the symbol's open and owed basis by exactly that amount |
| Carrying.CarryAllExact | crates/rekt-core/src/taxes.rs:407-447 | all carried parts together raise it by exactly the disallowed loss and settle every match |
| Tacking.AdjustedClocks | crates/rekt-core/src/taxes.rs:470-501 | designation sets the clock of the designated part of that buy only; every other lot keeps the clock it had |
| Tacking.WashChunkTacks | crates/rekt-core/src/taxes.rs:413-446 | after a washed chunk every held lot keeps its clock or was set back from a matched buy by the days the sold shares were held, and so was everything newly owed |
| Provenance.SellTraces | crates/rekt-core/src/taxes.rs:331-460 | through a whole sell every lot, owed adjustment and row keeps a clock that rows reported before it explain |
| Provenance.EveryClockIsExplained | crates/rekt-core/src/taxes.rs:203-501 | at every point of every valid run each clock is its buy's own date, or that date less the holding days of a losing row of the same symbol sold within thirty days of the buy, whose own clock was explained before it |
| Selling.WashChunkKeeps | crates/rekt-core/src/taxes.rs:376-459 | each chunk's row reports its own dates, proceeds and basis, disallows the loss in proportion to the replaced shares (which those are is `WashWindow.MatchesExactly`), and the disallowed part reappears as basis |
| Selling.SellKeeps | crates/rekt-core/src/taxes.rs:331-460 | a sell keeps the capacity invariant, reports its net proceeds in full, only moves basis, and leaves other symbols alone |
| TaxLedger.EnteringQty | crates/rekt-core/src/taxes.rs:251-273 | a buy owed adjustments enters with exactly its own quantity, in positive lots |
| TaxLedger.SellQty | crates/rekt-core/src/taxes.rs:331-460 | a sell leaves exactly its quantity fewer shares, however lots were split on the way |
| TaxLedger.CollectCaps | crates/rekt-core/src/taxes.rs:206-221 | capacity is collected over all buys, future ones included |
| TaxLedger.EnterBuy | crates/rekt-core/src/taxes.rs:241-274 | the loop that enters a buy computes its pre-adjusted lots |
| TaxLedger.ScaleCapacities | crates/rekt-core/src/taxes.rs:311-316 | a split scales exactly the capacities of the earlier buys of its symbol |
| TaxLedger.ApplyTrade | crates/rekt-core/src/taxes.rs:240-322 | one trade computes the specified ledger or error |
| TaxLedger.TaxDisposals | crates/rekt-core/src/taxes.rs:203-325 | the whole loop returns the rows of the replay, or the error of the first transaction that fails |
| Verdicts.SameStep | crates/rekt-core/src/portfolio.rs:180-181 | from ledgers that hold the same shares, both engines accept or refuse a transaction with the same error and hold the same shares afterwards |
| Verdicts.SameVerdict | crates/rekt-core/src/taxes.rs:200-202 | on every log whatsoever both engines succeed, or both fail with the same error |
| LedgerInvariant.BuyKeeps | crates/rekt-core/src/taxes.rs:241-274 | a buy keeps the ledger invariant |
| LedgerInvariant.BuyWorth | crates/rekt-core/src/taxes.rs:241-274 | a buy adds exactly its cost to what the ledger carries, whatever it was owed |
| LedgerInvariant.BuyOwedFits | crates/rekt-core/src/taxes.rs:253-265 | what a buy is owed never exceeds its quantity, so no pending adjustment is cut short |
| LedgerInvariant.SplitKeeps | crates/rekt-core/src/taxes.rs:295-317 | a split keeps the ledger invariant, because lots and earlier capacities scale together |
| LedgerInvariant.SplitWorth | crates/rekt-core/src/taxes.rs:295-317 | a split changes no symbol's carried worth |
| LedgerInvariant.SellKeepsLedger | crates/rekt-core/src/taxes.rs:275-294 | a sell keeps the ledger invariant for its symbol and every other |
| LedgerInvariant.SellWorth | crates/rekt-core/src/taxes.rs:275-294 | a sell reports its net proceeds and leaves every symbol's carried worth unchanged |
| TaxLaws.BasisConservation | crates/rekt-core/src/taxes.rs:203-501 | after every prefix of a valid log: buy cost + disallowed = reported basis + open basis + basis owed to buys to come |
| TaxLaws.NothingOwedAtTheEnd | crates/rekt-core/src/taxes.rs:223-254 | after a whole valid log the pending map is empty |
| TaxLaws.CapacityInvariant | crates/rekt-core/src/taxes.rs:170-186 | at every point a replayed buy can replace at most what is held of it and is owed nothing; a later buy's quantity is its capacity plus what it is owed |
| TaxLaws.HoldingPeriods | crates/rekt-core/src/taxes.rs:254-273 | at every point no lot or owed adjustment is dated after its own buy, and every row is acquired no later than sold |
| TaxLaws.BookProfit | crates/rekt-core/src/portfolio.rs:195-250 | the book's realized profit is proceeds less purchases plus the cost still open |
| TaxLaws.TaxableVersusEconomic | crates/rekt-core/src/taxes.rs:331-460 | gain plus disallowed over all rows exceeds the book's realized profit by exactly open tax basis less open book basis |
| TaxReport.BuildReport | crates/rekt-core/src/taxes.rs:112-154 | the rows are exactly the disposals sold in the year, in order, each with its disposal's columns, gain as proceeds less basis, washed if something is disallowed, and long-term if sold after the anniversary of its acquisition; each column of `long` is the sum over the long-term rows to the cent, of `short` over the rest; or else the replay's error |
| TaxReport.ScheduleDIsTheSumOfFiledRows | crates/rekt-core/src/taxes.rs:79-96 | of every such report both terms together are exactly the sum of the rows at filing precision, and each total's columns are consistent |
| TaxReport.FlatSymbolAgrees | crates/rekt-core/src/taxes.rs:203-325 | for a symbol sold out completely, taxable profit equals the book's realized profit |
| TaxReport.AllFlatTotalsAgree | crates/rekt-core/src/portfolio.rs:147-161 | once every position is flat, all tax rows and all realized events add up to the same profit |
| Refinement.TaxTakes | crates/rekt-core/src/taxes.rs:348-364 | taking shares off tax lots and then merging by buy is taking them off the merged lots |
| Refinement.AdjustedMerged | crates/rekt-core/src/taxes.rs:470-501 | splitting and adjusting lots is invisible once lots of the same buy are merged |
| Refinement.LotsRefine | crates/rekt-core/src/taxes.rs:156-168 | after every prefix, merging neighbouring tax lots of the same buy gives the book's lot quantities, in order |
| OrderTables.InsertKeeps | crates/rekt-server/src/trading.rs:199-240 | persisting an intent keeps ids and client ids unique and ties the client id to mode, nonce and row id |
| OrderTables.ApplyKeeps | crates/rekt-server/src/trading.rs:251-284 | applying a broker state keeps every table invariant |
| OrderTables.MaterializeKeeps | crates/rekt-server/src/trading.rs:286-335 | adopting a foreign order keeps client and broker ids unique |
| OrderTables.CancelKeeps | crates/rekt-server/src/trading.rs:807-826 | a cancel never leaves an unacknowledged row in a state only the broker can give it |
| OrderTables.IngestKeeps | crates/rekt-server/src/trading.rs:344-404 | an execution is booked exactly when its order is known and its id is new, by one fill and one row that say all of it: buy or sell, symbol, shares, price and instant; fills and broker-fill rows stay one to one |
| Guardrails.PassesExactlyWhen | crates/rekt-core/src/orders.rs:254-333 | a ticket passes exactly when every rail holds on its own, in whatever order they are checked |
| Guardrails.RefusesTheFirst | crates/rekt-core/src/orders.rs:235-333 | a ticket is refused for a reason if and only if that rail is broken and none looked at before it is, and it passes with a notional if and only if every rail holds and that is quantity times price |
| OrderRuns.NextKeeps | crates/rekt-server/src/trading.rs:199-404 | every step of every handler keeps the whole-system invariant |
| OrderRuns.RunExtends | crates/rekt-server/src/trading.rs:251-284 | over any run no row loses its keys or its broker id, terminal rows are frozen, and no fill or mirrored transaction is lost |
| OrderRuns.TerminalForever | crates/rekt-core/src/orders.rs:114-124 | an order once terminal reads the same at every later point of every run |
| OrderRuns.CrashSafeIntent | crates/rekt-server/src/trading.rs:698-780 | after any interleaving and any crashes each client id was submitted at most once and has one row; a row without a broker id is pending, rejected or failed; and no day exceeds max_orders_per_day |
| Intents.EveryOrderWasChecked | crates/rekt-server/src/trading.rs:648-780 | every row of ours that a run adds stems from one of its steps, taken while trading was unlocked and not paused, whose ticket passed every rail with the day's rows counted one by one, and says what the ticket says |
| Intents.DailyCapHolds | crates/rekt-server/src/trading.rs:698-780 | in every reachable state the rows of ours submitted on any one day are at most max_orders_per_day |
| Intents.ShutMeansNoIntent | crates/rekt-server/src/trading.rs:648-740 | over a run that starts locked and has no finished reconciliation, or starts paused and is never resumed, no row of ours is added |
| Intents.NothingIsSentAfterACrash | crates/rekt-server/src/trading.rs:596-655 | from a crash until a reconciliation has finished nothing is sent to the broker |
| OrderRuns.FillsMirrorTransactions | crates/rekt-server/src/trading.rs:364-402 | in every reachable state fills, broker-fill transactions and the executions taken in match one to one, each row a buy or a sell of its execution's own symbol as its side says; no execution id is booked twice and none that was not delivered |
| OrderRuns.LogIdsAreUnique | migrations/0001_init.sql:15-16 | in every reachable state, whatever was ingested, added or deleted, the ids of the log rows ascend, so no two share one |
| OrderRuns.PaperNeverTouchesLive | crates/rekt-server/src/trading.rs:396-400 | over any run of a paper broker the live-mode log is exactly what the user's own edits make of it |
| FillProgress.StepUndoesExactlyWhen | crates/rekt-server/src/trading.rs:251-270 | a row that does not read as unfilled reads so after a step if and only if it is pending cancel and the step applies to it an answer that does, whose broker id no other row has |
| FillProgress.RegressesExactlyWhen | crates/rekt-server/src/trading.rs:251-270 | over any run a row that does not read as unfilled at the start, a partly filled one included, reads so at some point if and only if that happens at some step |
| FillProgress.CancelLetsAFillRegress | crates/rekt-server/src/trading.rs:843-850 | cancelling everything and then applying an older answer of the broker does that to any partly filled order, where the answer alone would have been refused |
| OrderManager.Manager.InsertPendingOrder | crates/rekt-server/src/trading.rs:199-240 | appends one pending row whose id is above every other and whose client id no row had, made of mode, the nonce minted once, and that id |
| OrderManager.Manager.Apply | crates/rekt-server/src/trading.rs:251-284 | only the row with the order's client id changes: updated means it was open to the update and now has the broker's state, stale that it is over (filled, canceled, rejected, expired, replaced or failed) or partly filled while the state has it unfilled, unknown that there is none, conflict that another row has the broker id |
| OrderManager.Manager.MaterializeExternal | crates/rekt-server/src/trading.rs:289-335 | appends a row with the broker's own ids and description exactly when it is described and no row carries either id |
| OrderManager.Manager.IngestExecution | crates/rekt-server/src/trading.rs:344-404 | exactly when the order is known and the execution id new, appends a fill of that order and a transaction that book the execution column by column |
| OrderManager.Manager.ApplyEvent | crates/rekt-server/src/trading.rs:428-472 | a stream event applies the state and then ingests its fill under the local row's symbol and side, unless the order is unknown or the update conflicts |
| OrderManager.Manager.SubmitOrder | crates/rekt-server/src/trading.rs:648-780 | an intent is persisted exactly when trading is unlocked and every rail holds on its own, a sell within what the checked basis holds; otherwise nothing changes and a refusal names the first broken rail; the new row's id is above every other |
| OrderManager.Manager.CancelOrder | crates/rekt-server/src/trading.rs:787-834 | the order of that id becomes pending cancel exactly when it is not terminal and has a broker id; every other row stays, and the refusals say which of the three conditions failed |
| OrderManager.Manager.CancelAll | crates/rekt-server/src/trading.rs:843-850 | a row becomes pending cancel exactly when it was submitted, accepted or partly filled, every other row stays, and nothing but a status changes |
| OrderManager.Manager.SyncOrders | crates/rekt-server/src/trading.rs:520-533 | the mass-status loop computes phase one and stops at a conflict |
| OrderManager.Manager.ResolvePending | crates/rekt-server/src/trading.rs:537-565 | the lookup loop computes phase two over the rows pending when it started |
| OrderManager.Manager.Backfill | crates/rekt-server/src/trading.rs:578-591 | the backfill loop computes phase three and reports whether anything was new |
| OrderManager.Manager.Reconcile | crates/rekt-server/src/trading.rs:502-601 | one pass computes the three phases in order and unlocks trading even when broker calls failed; what it asks the broker for is `Convergence.CursorOverlapsAnHour` |
| Convergence.CursorOverlapsAnHour | crates/rekt-server/src/trading.rs:567-579 | the broker is asked for everything when no fill is booked, and otherwise for exactly the executions less than an hour older than every booked fill |
| Handlers.SubmitIsARun | crates/rekt-server/src/trading.rs:698-780 | a submission is persist, send once, record the answer; the sent id is the stored row's |
| Handlers.SubmissionAddsOneRow | crates/rekt-server/src/trading.rs:698-780 | a submission adds one row with the ticket's columns: rejected if the broker declined, pending submit without an answer, in the broker's state if it took the order, unless another row has the broker id; nothing else changes |
| Handlers.LookupSettlesOneRow | crates/rekt-server/src/trading.rs:537-565 | looking up a pending order fails it if the broker has never seen it, gives it the broker's state if it has, and leaves it without an answer; no other row changes, and the pass aborts exactly when another row has the broker id |
| Handlers.EventIsARun | crates/rekt-server/src/trading.rs:428-472 | a stream event is at most two steps of the system |
| Handlers.RedeliveryIsHarmless | crates/rekt-server/src/trading.rs:337-343 | a stream event delivered twice leaves the tables as one delivery does |
| Handlers.BookedOnceForAll | crates/rekt-server/src/trading.rs:337-343 | an execution booked at any moment is booked for good: after any steps whatever, neither an event that carries it nor its backfill adds a fill or a transaction |
| Handlers.ReconcileIsARun | crates/rekt-server/src/trading.rs:499-601 | a whole reconciliation pass, aborted or not, is a run, so all run safety holds through it, and it unlocks trading exactly when it completes |
| Handlers.CancelIsARun | crates/rekt-server/src/trading.rs:787-834 | the cancel step puts the one order of its id that has a broker id and is not over into pending cancel, and leaves every other row |
| Handlers.CancelAllIsARun | crates/rekt-server/src/trading.rs:843-850 | the kill-switch step does so to exactly the submitted, accepted and partly filled orders |
| Convergence.ResolveFinds | crates/rekt-server/src/trading.rs:537-565 | a pending row the list omits and the lookup finds carries its broker id after phase two |
| Convergence.OrdersResolved | crates/rekt-server/src/trading.rs:518-565 | phases one and two end without a conflict on any truthful list and leave the order of every execution known, whether it was listed and could be brought in, known before, or pending and found by lookup |
| Convergence.PassAdds | crates/rekt-server/src/trading.rs:567-591 | a missing execution is booked by the pass if and only if it is less than an hour older than every fill booked before |
| Convergence.ReconcileConverges | crates/rekt-server/src/trading.rs:494-601 | after the pass the broker-fill rows say of every execution what the broker says, side and symbol included, if and only if every missing one was less than an hour older than every fill booked; the list may name any other orders besides |
| Convergence.ConvergedRows | crates/rekt-server/src/trading.rs:364-402 | then, row by row, each execution has its fill and transaction and each of those books one execution |
| Unlocking.ListedRowsAreSynced | crates/rekt-server/src/trading.rs:518-565 | after a completed pass each of our rows that a list with one entry per order names has the listed state, unless it was terminal or a partial fill the list would undo, and then it is as before |
| Unlocking.PassCompletes | crates/rekt-server/src/trading.rs:502-601 | whichever of its three kinds of calls fail, a pass over truthful tables whose answers are true completes |
| Unlocking.SyncsExactlyWhen | crates/rekt-server/src/trading.rs:518-535 | phase one over a list with one entry per order runs through if and only if no listed order of ours that updates its row has a broker id which, by the initial rows and the entries before it, another row carries or an adopted foreign order took |
| Unlocking.ResolvesExactlyWhen | crates/rekt-server/src/trading.rs:537-565 | phase two runs through if and only if no pending, unlisted and found row is answered a broker id that another row stores, or was answered if it is such a row and stands in front |
| Unlocking.CompletesExactlyWhen | crates/rekt-server/src/trading.rs:502-601 | against any broker a pass completes if and only if neither clash occurs, both read off the rows before the pass, the list and the answers |
| Unlocking.UnlockingProvesMassStatus | crates/rekt-server/src/trading.rs:494-601 | every completed pass with these lookups had its mass status if and only if some pending row is answered a broker id that another row stores, or that a pending row in front of it was answered |
| Unlocking.SilentBrokerUnlocks | crates/rekt-server/src/trading.rs:502-601 | when every call to the broker fails the pass changes nothing and still completes |
| Recovery.TruthfulRunIsFaithful | crates/rekt-server/src/trading.rs:409-601 | over any run in which the broker only told the truth the rows and the ledger never hold anything it would deny, and no row of a real order is given up |
| Recovery.ReconcileAfterAnyRun | crates/rekt-server/src/trading.rs:494-601 | after any such run from the empty database one pass ends with exactly the broker's executions, if and only if every missing one is less than an hour older than every fill held |
| Recovery.EveryPassCompletes | crates/rekt-server/src/trading.rs:502-601 | after any such run every pass completes, whichever of its calls fail |
| Recovery.EventBooksTheExecution | crates/rekt-server/src/trading.rs:428-472 | although a stream event names neither symbol nor side, what the handler books under the local row is exactly the broker's execution |
| Import.ReconcileImport | crates/rekt-server/src/api.rs:172-242 | the drop-and-replay loop terminates and decides exactly what one pass over the sorted merge decides: kept rows, dropped rows in order, or the malformed row it refuses |
| Import.DroppingIsSkipping | crates/rekt-server/src/api.rs:216-230 | dropping the candidate sell a replay failed at and starting over is the same as skipping it and going on |
| Import.FailureStopsThePass | crates/rekt-server/src/api.rs:209-239 | any other first failure is where the pass stops, with nothing dropped before it |
| Import.FailureAdvances | crates/rekt-server/src/api.rs:188-241 | after a drop the next failing row is strictly later in (ts, id) order |
| Import.OnlySellsAreDropped | crates/rekt-server/src/api.rs:216-239 | only imported sells are ever dropped, and a stop is never an oversold candidate |
| Import.PassKeepsCleanRows | crates/rekt-server/src/api.rs:162-171 | what is kept replays cleanly, and without a stop kept and dropped rows are all rows |
| Import.MergedRetain | crates/rekt-server/src/api.rs:190-205 | removing one candidate and sorting again removes exactly its row from the sorted merge |
| Import.ImportMayBreakALaterSell | crates/rekt-server/src/api.rs:209-214 | a candidate sell can take the shares a later stored sell needs, and then the merge does not replay |
| LogOrder.SortWithout | crates/rekt-server/src/api.rs:205 | removing a row before or after sorting by (ts, id) is the same |
| LogOrder.SortedUnique | crates/rekt-server/src/repo.rs:89-95 | a log has only one arrangement sorted by (ts, id) |
| ImportOrderExact.AcquisitionsFirstIsOptimal | crates/rekt-server/src/api.rs:381-400 | for a file that meets the condition, over any stored log: if any arrangement of the imported rows replays cleanly then so does the importer's, and it ends with no less of any symbol |
| ImportOrderExact.ComesInBeforeItGoesOut | crates/rekt-server/src/api.rs:388-400 | the importer's order holds the file's rows and no others, by time, at one instant everything else before sells and withdrawals, and otherwise as the file has them |
| ImportOrderExact.OptimalExactlyWhenWellPlaced | crates/rekt-server/src/api.rs:381-400 | the importer's order is best over every stored log if and only if the file meets the condition at each instant and symbol, or has a malformed row, with which no order replays |
| InstantTotals.BestLeavesMost | crates/rekt-server/src/api.rs:384-387 | for rows whose sells come last and that meet the condition, no other order leaves more of the symbol, whatever was held before |
| InstantTotals.BetterOrder | crates/rekt-server/src/api.rs:388-400 | for rows whose sells come last and that do not, some other order leaves more, whatever was held before |
| AmpleLog.RicherBeats | crates/rekt-server/src/api.rs:172-242 | an arrangement that always leaves more of some symbol replays over some stored log over which the other does not |
| ImportOrder.MoreSharesNeverHurt | crates/rekt-core/src/portfolio.rs:179-283 | whether a log replays depends on the shares held at its start alone, and more of them never hurt |
| ImportOrder.ReverseSplitSpoilsTheOrder | crates/rekt-server/src/api.rs:388-400 | with a reverse split among the rows the importer's order can fail where another replays |
| History.CloseAtIsTheLatest | crates/rekt-core/src/history.rs:42-45 | the price used is the last close at or before the day, absent exactly when every close is later |
| History.ValueBook | crates/rekt-core/src/history.rs:97-110 | the loop over positions, in any order, adds to cash for each position its shares at the last close up to the date, or its cost basis when every close is later or there is none |
| History.UnquotedBookIsWorthItsCost | crates/rekt-core/src/history.rs:47-50 | a book without any quote is worth its cash plus its open cost basis |
| History.PlayDay | crates/rekt-core/src/history.rs:82-96 | the inner loop replays exactly one day's transactions and adds up their external flow, or stops at the first that fails |
| History.EquitySeries | crates/rekt-core/src/history.rs:51-145 | every point is that of a from-scratch replay of everything dated up to its day: its cash, its net deposits, and as equity the cash plus every position at its last close, or else at cost; days are consecutive from the first transaction; the series ends at the end date or the day before the first failing transaction |
| History.FlowsAreNetDeposits | crates/rekt-core/src/history.rs:24-30 | the charted flows through any day add up to the net deposits charted on that day |
| History.FailureDay | crates/rekt-core/src/history.rs:90-94 | a day's prefix fails to replay exactly when the first failing transaction is dated by then |
| History.BenchWaits | crates/rekt-core/src/history.rs:112-117 | until the benchmark has a positive close it holds nothing and everything deposited is still waiting |
| Benchmark.DayOfAnInstant | crates/rekt-core/src/history.rs:67-83 | the day a transaction counts for is the one of twenty-four hours from midnight UTC that holds its instant |
| Benchmark.BuysAtTheNextClose | crates/rekt-core/src/history.rs:112-126 | at every date the benchmark holds, for each day with a close since, that day's net money divided by the first positive close from that day on, plus the most by which withdrawals have overdrawn it; the money of the days without one waits |
| Benchmark.NeverShort | crates/rekt-core/src/history.rs:120-124 | however much is withdrawn the benchmark never holds fewer than no shares |
| Benchmark.ChartedAtTheClose | crates/rekt-core/src/history.rs:115-126 | charted is the value of its shares on days with a positive close, and nothing on the others |
| History.FlatBenchmarkIsNetDeposits | crates/rekt-core/src/history.rs:115-126 | a benchmark whose price never moves is worth exactly the money put in |
| Returns.TwrChains | crates/rekt-core/src/history.rs:159-179 | over two windows that share a day, return factors multiply and validity is joint |
| Returns.TwrTelescopes | crates/rekt-core/src/history.rs:170-176 | without flows and with positive equity the return is last over first |
| Returns.TwrScales | crates/rekt-core/src/history.rs:170-176 | measuring everything in another currency unit changes nothing |
| Returns.TwrExistsExactlyWhen | crates/rekt-core/src/history.rs:159-179 | the return is absent exactly when some day moved through zero or negative equity |
| UnitPrice.ReturnIsUnitPriceGrowth | crates/rekt-core/src/history.rs:159-179 | with any flows whatever, the return is the growth of the price of one unit of an account in which every day's flow buys or sells units at the price before that day |
| UnitPrice.EmptyDayGrowsNothing | crates/rekt-core/src/history.rs:170-179 | a day that starts or ends without equity leaves the factor as it was |
| UnitPrice.BenchmarkIsAnAccount | crates/rekt-core/src/history.rs:176-183 | where the benchmark has a value every day its return is that of an account worth as much |
| UnitPrice.UnvaluedDayCountsNothing | crates/rekt-core/src/history.rs:176-183 | a day without a benchmark value, or right behind one, counts for nothing |
| Returns.ChainReturns | crates/rekt-core/src/history.rs:150-187 | the loop over neighbouring days computes both chains, and nothing for fewer than two days |
| Returns.CollectFlows | crates/rekt-core/src/history.rs:189-206 | no flows exactly when the window opens in negative equity; otherwise the opening equity, each day's flow turned round and the closing equity, in that order, and nothing for a day without a flow |
| Returns.FlowsByDay | crates/rekt-core/src/history.rs:189-206 | each day contributes its own flow, the first also the opening and the last the closing equity |
| Returns.FlowsSumToProfit | crates/rekt-core/src/history.rs:189-206 | all flows add up to the window's profit |
| Returns.Xirr | crates/rekt-core/src/history.rs:219-260 | an answer exists exactly for flows of both signs whose present value changes sign between the rates −0.9999 and 1000, and it is within a billionth of zero or lies where the sign changes within the last of 200 halvings |
| UnitPrice.PresentValueIsTheBalance | crates/rekt-core/src/history.rs:231-240 | present value times growth from first to last date is the final balance of an account that takes each flow on its date and grows at the rate in between |
| UnitPrice.RateEmptiesTheAccount | crates/rekt-core/src/history.rs:231-240 | so a rate is a zero of the present value if and only if that account ends up empty |
| UnitPrice.HalvedIs | crates/rekt-core/src/history.rs:247-259 | the last of so many halvings times as many powers of two is the whole range |
| LiveCache.NextKeepsCoherence | crates/rekt-server/src/live.rs:106-133 | every atomic action of writers and readers keeps every cached, fetched and answered value coherent with its revision |
| LiveCache.HitsReflectCountedWrites | crates/rekt-server/src/live.rs:195-208 | under any interleaving a hit returns data that reflects every write whose bump its revision counts |
| LiveCache.AnswersReflectCountedWrites | crates/rekt-server/src/live.rs:211-225 | so does every answer a reader ever got, from the cache or from its own query |
| LiveCache.SettledHitIsCurrent | crates/rekt-server/src/live.rs:496-516 | once every write has been followed by its bump, a hit at the current revision is exactly the current data |
| LiveCache.AnsweredExactlyWhenFiled | crates/rekt-server/src/live.rs:195-204 | a lookup is answered at once exactly when what is cached was filed under the revision the reader loaded, and then with that |
| LiveCache.BumpRetiresTheCache | crates/rekt-server/src/live.rs:106-110 | after a bump a reader that loads the new revision is not answered from what was cached before |
| LiveCache.FiledAnswersTheNext | crates/rekt-server/src/live.rs:205-208 | what is filed under the current revision answers the next reader when no bump comes in between |
| LiveCache.RevisionCache.BumpRevision | crates/rekt-server/src/live.rs:106-110 | a bump is one step of the protocol, raises the revision by one, covers writes the database has taken, and marks the snapshot dirty |
| LiveCache.RevisionCache.Cached | crates/rekt-server/src/live.rs:195-204 | a lookup hits only on an equal revision, and then coherently |
| LiveCache.RevisionCache.File | crates/rekt-server/src/live.rs:205-208 | data is filed under the revision loaded before the query |
| LiveCache.RevisionCache.Read | crates/rekt-server/src/live.rs:195-208 | one reader answers the hit or what its query fetched, files only a fetched answer, is coherent with the revision it loaded, and current once every write has been bumped |
| Signals.MaxDrawdownPct | crates/rekt-core/src/signals.rs:56-71 | for any series the largest fall of any day from the highest close before it, once that is positive; zero exactly when the series never falls once positive; without negative closes the largest fall between any two days |
| Signals.Rsi | crates/rekt-core/src/signals.rs:19-53 | between 0 and 100; the gap to 100 is the losses' share of smoothed movement; 100 exactly without falls and 0 exactly with falls but no rise among the changes that weigh in |
| Signals.WilderSigns | crates/rekt-core/src/signals.rs:36-45 | a smoothed average is zero exactly when no change that weighs in went its way |
| Weights.WilderIsAWeightedMean | crates/rekt-core/src/signals.rs:19-45 | after k changes each average is the sum of all k rises, or falls, with weights that add up to one: 1/n for the newest, and ((n − 1)/n) to the power of the changes since for each older one, the first n sharing theirs |

## Left out

Not modelled:

* The 28-digit precision of `Decimal`: all amounts are exact reals, so drift below that precision does not appear.
* Rounding to cents inside messages, `round_dp(2)` of percentages (`Returns.ChainReturns` gives the factors before
  rounding) and f64 rounding, `powf` and signed zero in the rate search (growth is any function with positive values).
* Time-zone tables, month arithmetic and the end of the calendar; dates are integers.
* The text of errors, drop reasons, notes and order types, and the limit price, time in force and `updated_ts` columns.
* The network: what brokers and price providers answer is a parameter, and so are the account equity, last price and
  inconsistent-log refusal that precede the ticket check.
* A broker fill deleted by the user and the demo reseed, which break the fill-to-transaction correspondence by design.
* A reconcile pass that overlaps an in-flight submission may mark it failed; the runs include that step, but
  convergence is stated for a quiet broker.
* The day cap compares days where the SQL compares timestamps with the start of the New York day.
* Weak memory ordering of the revision counters: steps are interleaved, each atomic.
* The signals cache, whose default entry counts as a hit at revision zero, and the history and fallback-price caches.
* The validation of a single new transaction, which is one replay of the merge without any dropping.
* Parsing of CSV files, alerts, screening, analyst, market hours and candle backfill, and the simple moving average.

Stated on other terms than the source's form, or more weakly:

- TaxLedger.TaxDisposals: the local vectors and maps are values the loop reassigns, so aliasing is not modelled.
- WashSale.SellAndWash: the mutable borrows of one sell are one record passed from loop to loop.
- History.EquitySeries: the loop body is cut into one method per phase of the day.
- ImportOrderExact.OptimalExactlyWhenWellPlaced: the file has fewer rows than there are ids below the first candidate's.
- Unlocking.CompletesExactlyWhen: the broker's list names each order once, and a lookup answers about the order it was
  asked for.
- Convergence.ReconcileConverges: the broker is quiet during the pass, and its list, lookups and executions agree.
- Recovery.ReconcileAfterAnyRun: a broker that once declined, or did not find, an order it later executes is not
  truthful in the sense assumed.
- LiveCache.RevisionCache.Read: nothing happens between its actions; interleavings are those of the protocol's runs.

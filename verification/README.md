# Portfolio analytics: the ledger, its valuation and the services around it

A Dafny model of the deterministic part of a portfolio-analytics API, with proofs. It covers

* the **valuation replay** that walks market dates and ledger rows together (`Transactions`,
  `Holdings`, `Replay`, `Solvency`, `Valuation`, `ValuationEngine`, `PriceSeries`), when it
  completes and what its reports mean (`Completion`, `Worth`, `EndState`, `EmptiedPortfolio`,
  `Reconciliation`, `NoLookAhead`, `LaterPurchase`, `Funding`, `Redenomination`);
* the **return metrics** (`Analytics`);
* **ledger admission**: one `create` (`Admission`, `Store`), many concurrent ones
  (`Serializability`), and CSV import with its dry run (`Import`, `ImportLaws`,
  `ImportCodes`, `ImportRows`);
* the **market-data cache** with its codec, its retries and its protocol over a shared TTL store
  (`CacheCodec`, `Retry`, `CacheProtocol`, `CachedProvider`);
* the **fixed-window rate limiter** (`RateLimit`) and the **nearest-rank percentiles** of the
  load-test report (`Percentile`).

`Wrappers`, `Sorting`, `Text` and `Arithmetic` hold shared vocabulary: results, a stable sort with its
laws, ASCII strip/upper and text order, signs of products.

Code that updates state in place is a class or a method with loops, proved equal to a function or
to a step of a state machine; the laws are then lemmas about that function or machine. The
valuation is specified from scratch, date by date, with no carried state: `Valuate` values each
market date by replaying the rows dated by then. The forward pass is proved to compute exactly
that, so every law of `Valuate` is a law of the pass.

Decimals are exact reals (or not finite), instants are integer microseconds with dates by floor
division, identifiers are naturals, and exceptions are constructors of `Result` errors. Clock
readings, drawn identifiers, provider replies, and store failures are parameters.

## Where the code departs from what one would expect

* A portfolio emptied on its last market date skips that date, while the weights are still taken
  from the emptied book: the reported value and the weights describe different dates.
  `EmptiedPortfolio.WeightsDescribeAnotherDate` is an instance; `EndState.CashPlusMarketValueIff`
  says exactly when the identity holds.
* Values and cash never depend on later rows, but which dates are visited does: pricing a symbol that
  is only bought later can make one more early date a market date, and a flow is then reported there
  instead of on a later date. `LaterPurchase.FlowMovesToAnEarlierDate` is an instance;
  `NoLookAhead.SameUpToIff` says exactly when two reports agree in every flow and return.
* A row that would oversell is `invalid_ledger` in a preview but `invalid_transaction` in a commit,
  and it is the only kind of row whose codes differ (`ImportCodes.CodesDifferIff`; an instance is
  `ImportCodes.OversellingRow`). The statuses still correspond.
* `_histogram_percentile` does not check its percentile, unlike `percentile`; its "must resolve"
  assertion fails exactly for values above 100 (`Percentile.UnresolvedIff`).
* The limiter's retry hint comes from a TTL that Redis rounds to the nearest second, so it may fall
  short of the next bucket, by up to half a second. `RateLimit.RetryAfterFallsShort` is an instance;
  `RateLimit.RetryAfterReachesIff` says exactly when the hint suffices.


## Model

| member | source | states |
|---|---|---|
| ValuationEngine.BuildPortfolioValuation | src/portfolio_analytics_api/domain/valuation.py:46-158 | The two-pointer forward pass (transaction index, positions, cash, latest prices, pending flow, skipped dates) returns exactly what the date-by-date definition gives, in which every date is valued from a fresh replay of the rows dated by then and the price at the greatest observed date; errors included |
| ValuationEngine.WalkDates | src/portfolio_analytics_api/domain/valuation.py:77-123 | After the loop the points are those of the date-by-date definition, and the book and the latest prices are those of the last market date; or the loop stops with the error of the replay |
| ValuationEngine.ProcessDate | src/portfolio_analytics_api/domain/valuation.py:85-123 | One date keeps the loop relation: rows consumed so far, book, latest prices, points emitted, and pending flow = flow so far less the flow already reported |
| ValuationEngine.ApplyDue | src/portfolio_analytics_api/domain/valuation.py:91-99 | Applying the due rows one by one gives the replay of exactly the rows dated on or before the date, and accumulates the unreported flow |
| ValuationEngine.ObservePrices | src/portfolio_analytics_api/domain/valuation.py:86-89 | Refreshing only on dates with a bar keeps, for every symbol, the price at the greatest observed date so far |
| ValuationEngine.LatestPriceStep | src/portfolio_analytics_api/domain/valuation.py:86-89 | Between two consecutive market dates the latest price of a symbol changes exactly when it has a bar on the later one |
| ValuationEngine.ApplyTransaction | src/portfolio_analytics_api/domain/valuation.py:201-242 | Updates the positions in place and returns cash and external flow for each of the four kinds; on an error nothing but the error is promised |
| ValuationEngine.Positions.ApplyPositionChange | src/portfolio_analytics_api/domain/valuation.py:245-264 | Adds a BUY, subtracts a SELL, refuses a SELL larger than the position without changing anything, ignores transfers |
| ValuationEngine.OrderTransactions | src/portfolio_analytics_api/domain/valuation.py:285-293 | Validation in input order, then the rows up to the end date in ledger order |
| ValuationEngine.RequiredPriceSymbols | src/portfolio_analytics_api/domain/valuation.py:21-43 | The symbols are, in text order, exactly those with a nonzero opening position or traded from the start date on |
| ValuationEngine.OpeningPositions | src/portfolio_analytics_api/domain/valuation.py:28-35 | The opening loop gives the positions after the rows dated before the start |
| ValuationEngine.ValidatedPricesLoop | src/portfolio_analytics_api/domain/valuation.py:161-198 | The price table keeps the in-range bars per symbol and raises the first error met in source order (symbol mismatch, non-positive price, duplicate date, none in range) |
| PriceSeries.SeriesAcceptedIff | src/portfolio_analytics_api/domain/valuation.py:169-190 | Bars of a symbol are accepted exactly when each, in range or not, has the symbol and a positive finite price and no two in range share a date; the series is then exactly the bars in range |
| PriceSeries.TableAcceptedIff | src/portfolio_analytics_api/domain/valuation.py:161-198 | The table is accepted exactly when every required symbol has an accepted, non-empty series, and holds those |
| PriceSeries.SeriesRefusal | src/portfolio_analytics_api/domain/valuation.py:173-192 | Bars are refused for the first offending one: for its symbol, else its price, else its repeated date |
| PriceSeries.TableRefusal | src/portfolio_analytics_api/domain/valuation.py:172-197 | The table is refused for the first symbol with refused bars or none in range |
| ValuationEngine.CashFlowAdjustedReturns | src/portfolio_analytics_api/domain/valuation.py:267-282 | The loop over consecutive points gives the flow-adjusted returns or the first error |
| ValuationEngine.Conclude | src/portfolio_analytics_api/domain/valuation.py:125-158 | Report or error made from points, final book and latest prices |
| Completion.RequiredSymbolsIff | src/portfolio_analytics_api/domain/valuation.py:21-43 | The symbols are found if and only if the range is not reversed, every row is valid and the rows before it never oversell; they are then, each once in text order, exactly those with a nonzero net before the range or a trade dated in it |
| Completion.BarsForLast | src/portfolio_analytics_api/domain/valuation.py:167-170 | The bars of a symbol are those of the last mapping entry whose upper-cased key it is |
| Completion.PrepareIff | src/portfolio_analytics_api/domain/valuation.py:53-83 | Everything before the date loop succeeds if and only if the symbols are found, there is one, and each has acceptable bars of which one is in range; the loop then works on the rows up to the end in ledger order, exactly the bars in range, and exactly their dates in ascending order |
| Completion.PrepareRefusal | src/portfolio_analytics_api/domain/valuation.py:53-75 | Otherwise the first thing wrong decides the error: range, first invalid row, oversold opening position, nothing to price, prices |
| Completion.FirstInvalidIs | src/portfolio_analytics_api/domain/valuation.py:285-290 | The row that decides is the first invalid one in the order given, refused for its own reason |
| Completion.CompletesIff | src/portfolio_analytics_api/domain/valuation.py:91-158 | A prepared valuation completes if and only if the replay through the last market date succeeds, some date has a value and every later value exceeds its own flow; it then reports those points, the value and cash of the last, and one return per period, (value - flow) / previous value - 1; each way of failing has its own error |
| Completion.ReturnsIff | src/portfolio_analytics_api/domain/valuation.py:267-282 | The same of any list of positive points: returns exist if and only if every later value exceeds its flow, and are those quotients |
| Worth.ReportedExactly | src/portfolio_analytics_api/domain/valuation.py:85-123 | A market date of a completed valuation is reported if and only if every symbol with a nonzero net by then has been observed and cash plus net shares at latest prices is positive; the point has that total and that cash |
| Worth.ValueIs | src/portfolio_analytics_api/domain/valuation.py:101-113 | The value of a market date is cash plus the sum over the required symbols of net shares times latest price |
| Solvency.RunCompletesIff | src/portfolio_analytics_api/domain/valuation.py:201-264 | A replay completes if and only if every row is valid, no prefix oversells, and every row other than a BUY leaves the stated cash at or above that of some earlier prefix; no cash is carried in the statement |
| Solvency.FirstFailure | src/portfolio_analytics_api/domain/valuation.py:201-264 | The first row to fail does so with its validation error, else as an oversized SELL, else as a withdrawal or fees beyond the cash |
| Valuation.LatestPrice | src/portfolio_analytics_api/domain/valuation.py:86-89 | The price at the greatest date observed on or before the day, None exactly when there is no such date |
| Valuation.PointsFacts | src/portfolio_analytics_api/domain/valuation.py:85-123 | Points are in strictly ascending date order, each for a market date, each positive and equal to the value and cash of that date |
| Valuation.PointsComplete | src/portfolio_analytics_api/domain/valuation.py:101-123 | No market date that has a value is left out |
| Transactions.ThroughSort | src/portfolio_analytics_api/domain/valuation.py:285-293 | Cutting a ledger at a date commutes with sorting it |
| Transactions.ThroughIsPrefix | src/portfolio_analytics_api/domain/valuation.py:91-99 | In ledger order the rows dated by a day are exactly the prefix the two-pointer index stands at |
| Transactions.TwoCuts | src/portfolio_analytics_api/domain/valuation.py:91-99 | The cuts at two dates are nested prefixes, and the rows between them carry the dates between |
| Replay.Conservation | src/portfolio_analytics_api/domain/valuation.py:201-264 | After any replayed prefix cash = flows + SELL proceeds - BUY costs - all fees, and cash and every position are non-negative |
| Replay.FlowIsStatedPlusImplicit | src/portfolio_analytics_api/domain/valuation.py:208-230 | The external flow is deposits less withdrawals plus the implicit contributions, which are never negative |
| Replay.ImplicitFundingIsLargestDeficit | src/portfolio_analytics_api/domain/valuation.py:221-230 | The implicit contributions of a replay total exactly the largest cash deficit any prefix would have without them, neither more nor less |
| EndState.FlowsAddUp | src/portfolio_analytics_api/domain/valuation.py:98-123 | The flows reported through the last point add up to every flow dated by then; skipped dates lose none |
| EndState.ReportedConservation | src/portfolio_analytics_api/domain/valuation.py:82-123 | At every reported point: flows reported so far = stated flows plus implicit contributions dated by then, cash = those + sales - purchases - fees, and cash >= 0 |
| EndState.UnreachableErrors | src/portfolio_analytics_api/domain/valuation.py:72-75 | For every ledger, price input and range the errors "no market dates", "no usable price" and "previous value not positive" (lines 72-75, 133-137, 272-275) never occur |
| EndState.ActiveIsRequired | src/portfolio_analytics_api/domain/valuation.py:36-42 | Whatever is held on a date of the range was held at its start or traded since, so it was priced |
| EndState.LastDateFullyPriced | src/portfolio_analytics_api/domain/valuation.py:193-197 | By the last market date every required symbol has a price |
| EndState.LastDateValue | src/portfolio_analytics_api/domain/valuation.py:101-113 | On the last market date everything held is priced, and the date has no value exactly when cash is zero and nothing is held; otherwise the value is cash plus all asset values |
| EndState.LastDateReported | src/portfolio_analytics_api/domain/valuation.py:101-123 | The last market date yields the last point if and only if the book is not empty at its end |
| EndState.WeightIdentities | src/portfolio_analytics_api/domain/valuation.py:139-158 | When the last market date is reported: cash + market values = portfolio value, weights sum to 1 - cash share, each weight in (0, 1] |
| EndState.ReportedDate | src/portfolio_analytics_api/domain/valuation.py:101-139 | The report is as of the greatest market date that has a value |
| EndState.WeightsAreHoldings | src/portfolio_analytics_api/domain/valuation.py:130-151 | The weights of any completed valuation are, in symbol order, exactly the symbols with a nonzero net on the last market date, each worth net shares times its latest price, and weight times portfolio value is that market value |
| EndState.CashPlusMarketValueIff | src/portfolio_analytics_api/domain/valuation.py:130-158 | For every completed valuation: cash + market values = portfolio value if and only if the book is not empty on the last market date or nothing was held on the last market date that has a value; both dates are read off the inputs |
| EmptiedPortfolio.WeightsDescribeAnotherDate | src/portfolio_analytics_api/domain/valuation.py:112-151 | A concrete ledger, emptied on its last date, whose report has value 100, cash 0 and no weights |
| EndState.PeriodReturnsExceedMinusOne | src/portfolio_analytics_api/domain/valuation.py:276-281 | Every period return of a completed valuation exceeds -1 |
| EndState.AcceptedLedgerNeverOversells | src/portfolio_analytics_api/domain/valuation.py:245-264 | A ledger accepted by `derive_positions` never triggers "SELL exceeds" in a valuation, for any range and prices |
| Replay.AcceptedNeverSellExceeds | src/portfolio_analytics_api/domain/valuation.py:245-264 | A replay reports an oversold position only if the positions alone are oversold |
| Reconciliation.ValuesReconcile | src/portfolio_analytics_api/domain/valuation.py:267-282 | Last value = first value compounded by all period returns + each later flow compounded by the returns after it |
| Reconciliation.CompoundedReturnWithoutFlows | src/portfolio_analytics_api/domain/analytics.py:73-80 | With no flow after the first point the compounded return is last / first - 1 |
| Reconciliation.ValuationDrawdown | src/portfolio_analytics_api/domain/analytics.py:83-92 | The drawdown of a completed valuation is the worst decline over all pairs, in (-1, 0] |
| NoLookAhead.NoLookAheadAcrossPrices | src/portfolio_analytics_api/domain/valuation.py:60-123 | Same ledger and range, prices agreeing up to d: the points up to d and the returns between them are identical |
| NoLookAhead.NoLookAheadAcrossLedgers | src/portfolio_analytics_api/domain/valuation.py:21-43 | Ledgers and prices agreeing up to d, two completed runs with possibly different ends: a date up to d visited by both is skipped by both or emitted by both with equal value and cash |
| NoLookAhead.SameUpToIff | src/portfolio_analytics_api/domain/valuation.py:46-123 | For the same two runs: all points up to d, flows included, and the returns between them are identical if and only if every market date up to d that only one run visits has no value |
| LaterPurchase.FlowMovesToAnEarlierDate | src/portfolio_analytics_api/domain/valuation.py:66-123 | A concrete pair of completed runs with the same rows and prices up to day 3: a purchase on day 4 makes day 2 a market date, and the flow of 50 reported on day 3 is reported on day 2 instead |
| Funding.ExplicitFundingPreservesValuation | docs/methodology.md:83-88 | A deposit of exactly the shortfall before every under-funded BUY leaves the whole report (points, returns, weights) or the error unchanged |
| Funding.ExplicitRun | src/portfolio_analytics_api/domain/valuation.py:208-230 | The two ledgers replay to the same book or the same error |
| Funding.ExplicitHasNoImplicitFunding | src/portfolio_analytics_api/domain/valuation.py:221-230 | The explicit ledger has no implicit contribution left |
| Funding.ExplicitTwinExists | src/portfolio_analytics_api/domain/valuation.py:300-302 | Every valid ledger with distinct positive ids has such a twin, of valid rows, that the ledger order really places before each BUY |
| Funding.ExplicitTwinValuation | docs/methodology.md:83-88 | That twin has the same valuation or error, over any prices and start, and its replay needs no implicit contribution |
| Redenomination.RedenominationInvariance | src/portfolio_analytics_api/domain/valuation.py:46-158 | Multiplying prices, unit prices, cash amounts and fees by any k > 0 scales values, cash and flows by k, keeps returns and weights, and fails exactly when, and with the error with which, the original fails |
| Redenomination.ScaleRunLedger | src/portfolio_analytics_api/domain/valuation.py:201-242 | The same for the replay of any list of rows |
| Redenomination.ScalePointsOn | src/portfolio_analytics_api/domain/valuation.py:85-123 | The same for the points on any dates |
| Holdings.DerivePositionsLoop | src/portfolio_analytics_api/domain/holdings.py:59-87 | The loop over the quantities dict returns the specified positions or error |
| Holdings.DeriveAcceptsIff | src/portfolio_analytics_api/domain/holdings.py:59-81 | Accepts exactly the ledgers of valid rows whose ledger-order prefixes never sell more of a symbol than they bought |
| Holdings.AcceptedIffNeverOversold | src/portfolio_analytics_api/domain/holdings.py:63-81 | The same for a replay of valid rows in any given order |
| Holdings.QuantityIsNet | src/portfolio_analytics_api/domain/holdings.py:68-81 | Every replayed quantity is shares bought less shares sold, and not negative |
| Holdings.DeriveReportsNet | src/portfolio_analytics_api/domain/holdings.py:83-87 | The report holds exactly the symbols with nonzero net, each with that positive net |
| Holdings.DeriveListsNets | src/portfolio_analytics_api/domain/holdings.py:83-87 | The report lists each symbol with a nonzero net once, in text order, with that net |
| Holdings.ListsNetsUnique | src/portfolio_analytics_api/domain/holdings.py:83-87 | Only one list does, so those clauses determine the report |
| Holdings.DeriveOrderIndependent | src/portfolio_analytics_api/domain/holdings.py:63-92 | With distinct ids acceptance, and on valid rows the whole result, does not depend on input order |
| Holdings.AddingNonSellAccepted | src/portfolio_analytics_api/domain/holdings.py:59-87 | Adding a valid BUY, DEPOSIT or WITHDRAWAL at any instant never breaks an accepted ledger |
| Transactions.ValidFields | src/portfolio_analytics_api/domain/holdings.py:16-56 | What an accepted row guarantees about its fields |
| Transactions.ValidIff | src/portfolio_analytics_api/domain/holdings.py:16-56 | Validation accepts exactly the rows with a non-blank external id, aware timestamps, finite non-negative fees, and either a normalised symbol with positive quantity and price or a positive cash amount, and none of the other kind of fields |
| Transactions.RefusedForFirst | src/portfolio_analytics_api/domain/holdings.py:16-56 | An invalid row is refused for the first of these demands, in source order, that it does not meet |
| Transactions.LedgerOrderIs | src/portfolio_analytics_api/domain/holdings.py:90-92 | Rows are ordered by occurrence, then by recording time (the occurrence where there is none), then by id |
| Transactions.DateContains | src/portfolio_analytics_api/domain/valuation.py:296-297 | The UTC day contains the instant, before the epoch too |
| Text.NormalizeIs | src/portfolio_analytics_api/application/services.py:779-783 | A symbol is normalised by cutting white space off both ends and making each small letter left the capital of the same place in the alphabet |
| Text.StripCuts | src/portfolio_analytics_api/application/services.py:779-783 | Stripping cuts white space off both ends and nothing else |
| Text.TextLeIsLexicographic | src/portfolio_analytics_api/domain/holdings.py:83-87 | Texts are ordered by extension or by the first character that differs |
| Text.NormalizeIdempotent | src/portfolio_analytics_api/domain/holdings.py:28 | A stripped and upper-cased symbol is normalised, so built symbols pass the ledger check |
| Analytics.ValidateAndOrderLoop | src/portfolio_analytics_api/domain/analytics.py:95-109 | The loop over the sorted bars, filling the set of seen dates, returns the specified order or the first error |
| Analytics.OrderedSeries | src/portfolio_analytics_api/domain/analytics.py:95-109 | A series is accepted exactly when closes are positive and dates distinct, and the answer is a permutation in date order |
| Analytics.RefusedForFirstBar | src/portfolio_analytics_api/domain/analytics.py:95-109 | A series is refused for its first bad bar in date order: for a date seen before, else for its close |
| Analytics.CalculateCompoundedReturn | src/portfolio_analytics_api/domain/analytics.py:73-80 | The product loop; None exactly for no returns |
| Analytics.CalculateMaxDrawdownFromReturns | src/portfolio_analytics_api/domain/analytics.py:83-92 | The one-pass wealth/peak loop computes the drawdown the next two lemmas are about |
| Analytics.CalculateMaxDrawdown | src/portfolio_analytics_api/domain/analytics.py:32-44 | The one-pass price/peak loop computes the price drawdown |
| Analytics.DrawdownIsWorstPair | src/portfolio_analytics_api/domain/analytics.py:83-92 | When returns exceed -1 the one-pass drawdown is the minimum of W_j / W_i - 1 over all i <= j, attained, and in (-1, 0] |
| Analytics.PriceDrawdownIsWorstPair | src/portfolio_analytics_api/domain/analytics.py:32-44 | For every accepted non-empty series the price drawdown is the minimum of p_j / p_i - 1 over all i <= j, attained, and in (-1, 0] |
| Analytics.DrawdownsAgree | src/portfolio_analytics_api/domain/analytics.py:32-44 | For every accepted non-empty series, in any input order, the price drawdown equals the return drawdown of its simple returns |
| Admission.QuantizeExactIff | src/portfolio_analytics_api/application/services.py:833-848 | A number passes exactly when it is an integer of at most 28 digits at the scale, and is then unchanged |
| Admission.LimitIs28Digits | src/portfolio_analytics_api/application/services.py:833-848 | The limit of the coefficient is ten to the power of 28 |
| Admission.QuantizeRefusal | src/portfolio_analytics_api/application/services.py:833-848 | A number is refused for its magnitude, as rounded half to even, before its scale |
| Admission.BuildsIff | src/portfolio_analytics_api/application/services.py:772-806 | A request builds if and only if its four numbers are exact and the row that carries it is valid; that row has the request's kind, time, numbers and fees, its stripped external id and normalised symbol, and the drawn id and time |
| Admission.BuildRefusal | src/portfolio_analytics_api/application/services.py:772-806 | Otherwise its first inexact number is the reason, else what validation says of that row |
| Admission.SamePayloadIsPayload | src/portfolio_analytics_api/application/services.py:809-830 | The field-by-field comparison is equality of everything but id and creation time |
| Admission.BuildDraws | src/portfolio_analytics_api/application/services.py:772-806 | Building twice from one request differs in the drawn id and time only; what is built is valid, of the portfolio, with the stripped external id |
| Admission.CheckedLedger | src/portfolio_analytics_api/application/services.py:518-519 | Checking the listed (sorted) ledger plus the row accepts exactly when the stored ledger plus the row is acceptable |
| Admission.AdmitAnswers | src/portfolio_analytics_api/application/services.py:500-522 | The answer to any request: invalid if it does not build; for a known external id the stored row if the payload is the same and a conflict otherwise; for a new one created if and only if the ledger with it is valid and never oversells, and else invalid for the symbol oversold |
| Admission.AdmitKeepsGood | src/portfolio_analytics_api/application/services.py:500-522 | Whatever is asked, a ledger of valid rows with unique external ids that never oversells stays one |
| Admission.AdmitReplays | src/portfolio_analytics_api/application/services.py:508-516 | A request answered once is answered with the same stored row whenever it is repeated, after any further rows |
| Admission.AdmitNeverRecreates | src/portfolio_analytics_api/application/services.py:508-516 | An external id that is stored is never created again |
| Store.TransactionService.Create | src/portfolio_analytics_api/application/services.py:489-522 | The service method on the store answers as specified and appends exactly the created row, which carries every field of the request |
| Store.CreateIsLocal | src/portfolio_analytics_api/application/services.py:489-522 | A create changes its own portfolio as specified and no other |
| Store.InMemoryTransactionRepository.Add | src/portfolio_analytics_api/infrastructure/memory.py:122-123 | Appends the row |
| Store.InMemoryTransactionRepository.GetByExternalId | src/portfolio_analytics_api/infrastructure/memory.py:125-136 | The first row of the portfolio with the id, in insertion order |
| Store.InMemoryTransactionRepository.ListForPortfolio | src/portfolio_analytics_api/infrastructure/memory.py:138-152 | Exactly the portfolio's own stored rows, with their multiplicity, in ledger order with ties in insertion order |
| Serializability.Serializable | src/portfolio_analytics_api/application/services.py:489-522 | In every state of every interleaving, with aborts anywhere, each committed ledger and all answers equal a one-at-a-time run in lock order |
| Serializability.AnswersAreRight | src/portfolio_analytics_api/application/services.py:489-522 | Every answer in a reachable state is right for a good ledger the request met, between the initial and the present one: not found for anyone but the owner, the stored row or a conflict for a known external id, a created row exactly when acceptable, and that row comes next |
| Serializability.ReachableLedgersGood | src/portfolio_analytics_api/application/services.py:489-522 | In every reachable state every ledger has valid rows, unique external ids, never oversells, and extends the initial one |
| Serializability.UniqueConstraintNeverFires | src/portfolio_analytics_api/infrastructure/database/models.py:103-105 | The look-up made under the lock still holds at the insert |
| Serializability.MutualExclusion | src/portfolio_analytics_api/infrastructure/database/repositories.py:121-127 | Two requests inside the critical section belong to different portfolios |
| Serializability.LedgersGrow | src/portfolio_analytics_api/infrastructure/database/unit_of_work.py:32-46 | Between any two states of a run committed rows are neither changed nor lost |
| Serializability.RunsEnd | src/portfolio_analytics_api/application/services.py:489-522 | A run of n requests has at most 6 n steps |
| Serializability.NoDeadlock | src/portfolio_analytics_api/application/services.py:489-522 | While a request is unanswered, some request can start or go on |
| Serializability.WorkNeverAborts | src/portfolio_analytics_api/application/services.py:500-522 | In every reachable state the lock holder's own step brings it closer to its answer and never aborts it |
| Import.TransactionImportService.Preview | src/portfolio_analytics_api/application/services.py:547-654 | The row loop returns the specified results and leaves the store unchanged |
| Import.TransactionImportService.Commit | src/portfolio_analytics_api/application/services.py:656-727 | The row loop over `create` gives the specified results and ledger, and touches no other portfolio |
| ImportLaws.PreviewSimulatesCommit | src/portfolio_analytics_api/application/services.py:547-727 | With no writes in between and clocks past every stored row, ready/replay/invalid map exactly to created/replayed/failed, and the simulated ledger equals the committed one up to ids and creation times |
| ImportLaws.ChecksAgree | src/portfolio_analytics_api/application/services.py:620-632 | The simulation and the commit accept the same rows although their ledgers are ordered and stamped differently |
| ImportCodes.CodesDifferIff | src/portfolio_analytics_api/application/services.py:547-727 | Over a stored ledger of valid rows, a row carries different issues in preview and commit if and only if it is usable, builds, has an unknown external id and is refused by the ledger check; then both name the same oversold symbol, as invalid_ledger and as invalid_transaction |
| ImportCodes.OversellingRow | src/portfolio_analytics_api/application/services.py:618-632 | A concrete such row: a sale out of an empty ledger |
| ImportRows.PreviewTells | src/portfolio_analytics_api/application/services.py:547-654 | Every previewed row repeats its candidate's number and id; an unusable candidate is invalid with its own issues, a usable one has exactly one issue when it does not build, conflicts or is refused by the ledger, and none when it is a replay or ready; a ready row joins the simulated ledger |
| ImportRows.CommitTells | src/portfolio_analytics_api/application/services.py:656-727 | The same of every committed row and the committed ledger |
| ImportLaws.RetryReplays | src/portfolio_analytics_api/application/services.py:656-727 | On recommitting, after any later rows, every row created or replayed before is replayed with the same transaction |
| ImportLaws.RepeatsStabilise | src/portfolio_analytics_api/application/services.py:656-727 | Over any number of passes each external id is stored at most once, and at most as many passes create anything as there are wanted ids |
| ImportLaws.PassOutcomeIndependentOfDraws | src/portfolio_analytics_api/application/services.py:656-727 | The statuses of a pass do not depend on the ids and clock readings drawn |
| ImportLaws.QuietPassIsFixedPoint | src/portfolio_analytics_api/application/services.py:656-727 | A pass that creates nothing is repeated forever with the same statuses and an unchanged ledger |
| Retry.RetryingMarketDataProvider.Attempt | src/portfolio_analytics_api/infrastructure/market_data/resilience.py:49-67 | k <= max_attempts calls, the last one decides, and the sleeps between are b, 2b, 4b, ..., in all b * (2^(k-1) - 1) |
| Retry.CallsUnique | src/portfolio_analytics_api/infrastructure/market_data/resilience.py:49-67 | k is the only number of calls with transient failures before it and, unless it is the maximum, none at it |
| Retry.TotalBackoff | src/portfolio_analytics_api/infrastructure/market_data/resilience.py:65-66 | k sleeps last b * (2^k - 1) together |
| CacheCodec.KeyInjective | src/portfolio_analytics_api/infrastructure/market_data/cache.py:171-175 | Keys determine symbol, start and end, even when symbols contain a colon |
| CacheCodec.FreshIsNeverStale | src/portfolio_analytics_api/infrastructure/market_data/cache.py:177-179 | No fresh key equals a stale key |
| CacheCodec.StaleKeyInjective | src/portfolio_analytics_api/infrastructure/market_data/cache.py:177-179 | Stale keys determine the query |
| CacheCodec.IsoRoundTrip | src/portfolio_analytics_api/infrastructure/market_data/cache.py:193-213 | A printed date parses back |
| CacheCodec.DeserializePriceBars | src/portfolio_analytics_api/infrastructure/market_data/cache.py:216-263 | The loop over the bars, filling bars and seen dates, decodes or raises the first error |
| CacheCodec.DecodeIsSafe | src/portfolio_analytics_api/infrastructure/market_data/cache.py:216-263 | Any payload is rejected or gives non-empty, strictly ascending, in-range, positive bars of the queried symbol |
| CacheCodec.DecodesIff | src/portfolio_analytics_api/infrastructure/market_data/cache.py:216-263 | A payload decodes to a series if and only if it is an object about the query whose items depict the bars one by one and the series honours the contract |
| CacheCodec.ParsedIsPrinted | src/portfolio_analytics_api/infrastructure/market_data/cache.py:238 | Only the printed form of a date is read as it |
| CacheCodec.KeyOfApple | src/portfolio_analytics_api/infrastructure/market_data/cache.py:171-175 | One key written out |
| CacheCodec.CodecRoundTrip | src/portfolio_analytics_api/infrastructure/market_data/cache.py:193-263 | Decoding an encoded valid series gives it back |
| CacheProtocol.HitsAreEarlierAnswers | src/portfolio_analytics_api/infrastructure/market_data/cache.py:66-138 | In every run of interleaved calls with failing reads and writes, half-done double writes, expiry and corruption: a hit is an earlier answer to the same normalised query, within the lifetime chosen by the date the clock showed between the answer and the write, so less than the short lifetime old if the range was still open then, with no provider call |
| CacheProtocol.StaleOnlyAfterTransientFailure | src/portfolio_analytics_api/infrastructure/market_data/cache.py:140-169 | A stale answer occurs only after this call failed transiently after its retries, and is an earlier answer within the stale lifetime |
| CacheProtocol.OtherAnswersAreOwnReplies | src/portfolio_analytics_api/infrastructure/market_data/cache.py:98-138 | Fresh bars and failures are this call's own reply, after 1 to max_attempts provider calls |
| CacheProtocol.CallKeeps | src/portfolio_analytics_api/infrastructure/market_data/cache.py:66-169 | Every step of a call keeps the invariant on entries, log and calls |
| CacheProtocol.EnvironmentKeeps | src/portfolio_analytics_api/infrastructure/market_data/cache.py:66-169 | So do time, eviction and corruption |
| CachedProvider.CachedMarketDataProvider.GetPriceBars | src/portfolio_analytics_api/infrastructure/market_data/cache.py:66-138 | The method on the store ends in the state and answer the state machine gives for one call, with that number of provider calls; from a valid state, which an empty store is, it leaves a valid one, an outcome that obeys the laws of the machine's runs, and does what it must: a readable intact fresh copy is served and the provider left alone; else the provider is asked, its answer returned and both copies stored with their lifetimes; after a transient failure a readable intact stale copy is served |
| CachedProvider.CachedMarketDataProvider.AskAndConclude | src/portfolio_analytics_api/infrastructure/market_data/cache.py:98-138 | The part after an unsuccessful look-up |
| CachedProvider.CachedMarketDataProvider.AskProvider | src/portfolio_analytics_api/infrastructure/market_data/cache.py:98-103 | The provider call with its retries, and the answer it adds to the history |
| CachedProvider.CachedMarketDataProvider.ReadStale | src/portfolio_analytics_api/infrastructure/market_data/cache.py:140-169 | The stale copy or the transient failure |
| CachedProvider.CachedMarketDataProvider.StoreBoth | src/portfolio_analytics_api/infrastructure/market_data/cache.py:128-138 | The two writes, the second only after the first succeeded |
| CachedProvider.CallEndReached | src/portfolio_analytics_api/infrastructure/market_data/cache.py:66-138 | That call is a path of the state machine that ends with the call answered for its own query |
| CachedProvider.CallEndKeeps | src/portfolio_analytics_api/infrastructure/market_data/cache.py:66-138 | From any state that satisfies the machine's invariant the call ends in one, with an outcome that the laws of the runs allow |
| CachedProvider.CallServes | src/portfolio_analytics_api/infrastructure/market_data/cache.py:66-169 | The same of the call as the state machine takes it, with every outcome, store entry and provider call accounted for |
| CachedProvider.AskTwice | src/portfolio_analytics_api/infrastructure/market_data/cache.py:82-138 | Two calls in a row: once the first is answered and its fresh copy stored, the second, within both lifetimes, is served that answer without asking the provider |
| RateLimit.RedisFixedWindowRateLimiter.Eval | src/portfolio_analytics_api/infrastructure/rate_limit.py:16-23 | The script on the counters: increment, expiry on the first hit, time to live |
| RateLimit.RedisFixedWindowRateLimiter.Enforce | src/portfolio_analytics_api/infrastructure/rate_limit.py:53-83 | One request against the counters; an unhealthy Redis lets it through and changes nothing |
| RateLimit.LivesToWindowEnd | src/portfolio_analytics_api/infrastructure/rate_limit.py:54-57 | The chosen expiry reaches the end of the bucket |
| RateLimit.CountersAreHits | src/portfolio_analytics_api/infrastructure/rate_limit.py:16-23 | After any traffic every counter holds its number of hits and never expires inside its bucket |
| RateLimit.AdmittedIffWithinLimit | src/portfolio_analytics_api/infrastructure/rate_limit.py:53-83 | A request is let through exactly when it is among the first `limit` of its bucket |
| RateLimit.AdmittedIffFewShare | src/portfolio_analytics_api/infrastructure/rate_limit.py:53-83 | A request is let through exactly when, itself included, at most `limit` of its client and scope have come in its window, the windows being [m * length, (m + 1) * length) |
| RateLimit.BucketAdmitsExactly | src/portfolio_analytics_api/infrastructure/rate_limit.py:53-83 | Each bucket admits exactly min(requests, limit) |
| RateLimit.SlidingIntervalBound | src/portfolio_analytics_api/infrastructure/rate_limit.py:53-83 | Any half-open interval of one window length admits at most 2 * limit |
| RateLimit.SlidingIntervalBoundReached | src/portfolio_analytics_api/infrastructure/rate_limit.py:53-83 | Concrete traffic that reaches 2 * limit |
| RateLimit.RetryAfterReachesIff | src/portfolio_analytics_api/infrastructure/rate_limit.py:82-83 | For any traffic: waiting as long as a refusal says reaches the next bucket if and only if the refusal falls, within its second, at most half a second later than the request that opened the counter did within its own, or in the last second of the window |
| RateLimit.RetryAfterFallsShort | src/portfolio_analytics_api/infrastructure/rate_limit.py:82-83 | Concrete traffic, at 0.25 and 0.875 in a window of ten seconds, whose hint of 9 ends at 9.875 |
| RateLimit.RetryAfterReachesNextBucket | src/portfolio_analytics_api/infrastructure/rate_limit.py:82-83 | A refusal says at least one second, and that plus half a second always reaches the next bucket |
| RateLimit.ExpiryOfFirstHit | src/portfolio_analytics_api/infrastructure/rate_limit.py:16-23 | A counter keeps the expiry its first request gave it |
| Percentile.HistogramPercentile | benchmarks/reporting.py:110-120 | The cumulative scan stops at the first key that reaches the target, or nowhere |
| Percentile.HistogramMatchesList | benchmarks/reporting.py:100-120 | For non-negative counts, positive total and p in 1..100 the scan resolves, to the element nearest-rank indexing picks from any list with those counts |
| Percentile.PercentileIsNearestRank | benchmarks/reporting.py:100-107 | The percentile is one of the values, at least p percent of the values are no greater and fewer than p percent are smaller; refused for p outside 1..100, missing for no values |
| Percentile.UnresolvedIff | benchmarks/reporting.py:110-120 | The final assertion is reached if and only if p > 100 |
| Percentile.RankInRange | benchmarks/reporting.py:100-107 | The nearest rank is a position of the list, so the clamp to 0 never acts |

## Left out

- Rounding: the 28-digit Decimal context and binary floats; all arithmetic is exact. `round(..., 3)` of percentiles is display only.
- Text: strip and upper act on ASCII; other Unicode white space and case mapping are not modelled.
- Date and Decimal text: dates are read in the form YYYY-MM-DD only, a decimal string stands for its value, and the tuple form Decimal also accepts is refused.
- JSON and CSV syntax, and Pydantic schemas: the codec starts from a structured payload and the import from parsed candidates; summary counts of import results are not modelled.
- Error message texts: each message is a constructor.
- Ordering of a naive against an aware timestamp: rows with naive timestamps are refused by validation before any comparison.
- Sample volatility, annualisation and the Sharpe ratio: floating-point formulas without an invariant.
- HTTP routes, authentication, settings, logging, analysis snapshots and insight generation.
- User, portfolio and snapshot repositories: plain look-ups.
- SQLAlchemy and the database: only the exclusive row lock, the atomic commit and the uniqueness of (portfolio, external id) are kept, as steps of the state machine; reads under the lock see the last committed ledger.
- `asyncio.timeout` around the retries: a deadline is at most a transient reply; cancelled sleeps are not modelled.
- Provider adapters: a provider is a list of replies whose answers honour the bar contract, not flagged stale.
- Caches with different namespaces, providers or lifetimes on one store; nobody but the modelled calls writes well-formed payloads.
- The limiter's key text: a counter is named by scope, bucket and identifier, with the digest taken as injective; a script that fails after incrementing is not modelled.
- CachedProvider.CachedMarketDataProvider.GetPriceBars: one clock shows the date at each instant of the store's time, and it runs one call with no other worker between its steps; interleaved calls are covered by the state machine.
- Store.TransactionService.Create: one request at a time; interleaved requests are covered by `Serializability`.
- Holdings.DeriveOrderIndependent: with several invalid rows the error raised is that of the first in input order, so only refusal, not the error, is independent of the order.
- NoLookAhead.NoLookAheadAcrossLedgers: compares value and cash only; flows and returns are the subject of NoLookAhead.SameUpToIff.
- ImportCodes.CodesDifferIff: assumes stored rows that pass validation, which admission guarantees; over other rows both checks may name different errors.
- CachedProvider.CachedMarketDataProvider.constructor: valid from the start only on an empty store; a store already filled by another worker is covered by the state machine.
- Funding.ExplicitTwinExists: identifiers are naturals, and a deposit takes the one below its BUY, so they must be positive.
- Percentile.HistogramPercentile: keys and values are exact reals.

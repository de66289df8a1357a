# Portfolio engine model

A Dafny model of the portfolio engine inside the Streamlit script
`portfolio.py` of the Portfolio-management repository. The script keeps one
table of stock purchases per session. Each row holds a symbol, a quantity,
the price fetched when the row was added, and a timestamp. Around that table
the script provides:

- an add form that checks its inputs, fetches a price and appends one row;
- a remove form that drops every row of one symbol;
- a derived "Total Value" column and two metrics, Total Investment and Total Stocks Held;
- the distinct symbols in first-seen order, which feed the remove menu, the per-symbol loops and the diversity rule;
- a three-way recommendation rule;
- a risk assessment with a fixed volatility threshold per symbol.

Modules, one per component:

- `Holdings` (holdings.dfy): the `Holding` record and the two boolean masks by
  symbol (`WithoutSymbol`, the remove filter, and `OfSymbol`, its complement),
  with the lemmas about removal.
- `Valuation` (valuation.dfy): the row value, the "Total Value" column, the
  Total Investment and Total Stocks metrics, and how they add up.
- `Symbols` (symbols.dfy): `Distinct`, the column's `unique()`, and its order.
- `Advice` (advice.dfy): the recommendation chain, with its thresholds 5000 and 3.
- `Risk` (risk.dfy): the 0.05 threshold and the risk report as a function of the symbols.
- `Engine` (engine.dfy): class `Portfolio`. Its field `holdings: seq<Holding>`
  is replaced by `Add` and `Remove`. Its `RiskReport` method is the loop that
  builds the report.

The model values holdings at the price stored when each row was added, as the
script does. It does not use a fresh quote.

Inputs that come from outside the script are parameters:

- the price lookup on add is an `Option<real>` (`None` for a failed fetch);
- the history lookup is a function `string -> Option<seq<real>>`;
- the volatility measure is a function `seq<real> -> real`;
- the "Date Added" timestamp is an opaque string.

Prices are `real`; quantities are `int`.

Three facts about the script that the model keeps:

- The add path only checks that a price was obtained (`price is not None`).
  It does not check that the price is positive, so `Add` accepts any fetched price.
- Remove does not report how many rows it dropped, so `Remove` returns nothing.
- AAPL 10 @ 150 plus GOOGL 5 @ 100 totals 2000, which is below 5000. The
  chain's first rule fires and the advice is "increase investment"
  (`Engine.TwoPurchasesThenRemove`).

## Model

| member | source | states |
|---|---|---|
| `Holdings.WellFormed` | portfolio.py:26 | the add guard: a row is admitted only with a non-empty symbol and a quantity above zero |
| `Holdings.WithoutSymbol` | portfolio.py:91 | the filtered table is no longer than the original, none of its rows has the removed symbol and each is an original row, and every original row of another symbol is kept |
| `Holdings.WithoutSymbolConcat` | portfolio.py:91 | the remove filter works row by row: filtering a concatenation is concatenating the filtered parts |
| `Holdings.WithoutAbsentSymbol` | portfolio.py:90-91 | removing a symbol that no row carries leaves the table unchanged |
| `Holdings.RemovedSymbolIsGone` | portfolio.py:91 | after removing `s`, no row has symbol `s` |
| `Holdings.RemoveIsIdempotent` | portfolio.py:91 | removing the same symbol twice gives the same table as removing it once |
| `Holdings.RemoveKeepsOtherSymbols` | portfolio.py:91 | for every other symbol `t`, the rows of `t` survive the removal of `s`, all of them and in their original relative order |
| `Holdings.RemovePartitions` | portfolio.py:91 | the kept rows plus the removed rows are exactly the original rows, as a multiset |
| `Holdings.RemoveKeepsWellFormed` | portfolio.py:91 | the filter keeps the add guard's invariant (non-empty symbol, positive quantity) on every remaining row |
| `Holdings.RemoveUndoesAddOfNewSymbol` | portfolio.py:44 | appending a row whose symbol was absent and then removing that symbol gives back the original table |
| `Valuation.RowTotal` | portfolio.py:64 | a row's value is its quantity times the price stored when it was added, not a fresh quote |
| `Valuation.TotalInvestment` | portfolio.py:77 | Total Investment is the sum of the "Total Value" column, zero for an empty table; its additivity is stated by the lemmas below |
| `Valuation.TotalStocks` | portfolio.py:78 | Total Stocks Held is the sum of the Quantity column, zero for an empty table; its additivity and lower bound are stated by the lemmas below |
| `Valuation.TotalValueColumn` | portfolio.py:64 | the "Total Value" column has one entry per row, and each entry is that row's quantity times its stored price |
| `Valuation.TotalInvestmentConcat` | portfolio.py:77 | Total Investment is additive over concatenating tables |
| `Valuation.TotalInvestmentAppend` | portfolio.py:77 | appending one row raises Total Investment by exactly that row's quantity times price |
| `Valuation.TotalStocksConcat` | portfolio.py:78 | Total Stocks Held is additive over concatenating tables |
| `Valuation.TotalStocksAtLeastRows` | portfolio.py:78 | when every row has a positive quantity, Total Stocks Held is at least the number of rows |
| `Valuation.TotalInvestmentSplitsBySymbol` | portfolio.py:91 | Total Investment equals that of the rows kept by removing `s` plus that of the rows of `s`, so a removal lowers it by exactly the value held in `s` |
| `Valuation.TotalStocksSplitsBySymbol` | portfolio.py:91 | the same split holds for Total Stocks Held |
| `Symbols.Distinct` | portfolio.py:86 | the distinct-symbol list has no repeats, is no longer than the table, and contains exactly the symbols that some row carries |
| `Symbols.DistinctAppend` | portfolio.py:44 | appending a row extends the list by its symbol exactly when that symbol is new, and otherwise leaves it unchanged |
| `Symbols.DistinctInFirstSeenOrder` | portfolio.py:132 | for entries `i < j` of the list, the first row of entry `i` comes before the first row of entry `j` |
| `Symbols.DistinctAfterRemove` | portfolio.py:86-91 | after removing `s`, the list is the old list with `s` erased and every other symbol kept in its place |
| `Advice.Recommend` | portfolio.py:123-128 | exactly one of three results is chosen. The result is "increase investment" iff the total is below 5000, whatever the diversity. It is "limited diversity" iff the total is at least 5000 and there are fewer than 3 distinct symbols. It is "well diversified" iff the total is at least 5000 and there are at least 3 |
| `Advice.RecommendIsMonotone` | portfolio.py:123-128 | a larger total or more distinct symbols never gives a worse recommendation |
| `Advice.PortfolioAdvice` | portfolio.py:95-128 | there is no recommendation for an empty table. For a non-empty table, each of the three messages is given iff its rule holds for the table's Total Investment and distinct-symbol count, in priority order |
| `Advice.AddNeverWorsensAdvice` | portfolio.py:123-128 | appending a row of non-negative value to a non-empty table never lowers the recommendation |
| `Risk.Classify` | portfolio.py:136 | the level is High iff volatility > 0.05, and Low iff volatility <= 0.05 |
| `Risk.ClassifyIsMonotone` | portfolio.py:136 | a higher volatility never gives a lower risk level |
| `Risk.HasData` | portfolio.py:134 | a history counts as data when the fetch returned something and it holds at least one close |
| `Risk.Report` | portfolio.py:132-137 | each report line belongs to a symbol whose history is present and non-empty, and carries that history's volatility and its classification. The reported symbols are exactly the input symbols with data |
| `Risk.ReportConcat` | portfolio.py:132-137 | the report over a concatenation of symbol lists is the concatenation of the reports, so lines follow the symbols' order |
| `Risk.ReportSingle` | portfolio.py:133-137 | one symbol yields one line with its volatility and level when its history has data, and no line otherwise |
| `Risk.SkipsSymbolWithoutData` | portfolio.py:134 | a symbol whose history is missing or empty contributes nothing: the report is as if it were not in the list |
| `Risk.ReportHasNoRepeats` | portfolio.py:132 | over a repeat-free symbol list (such as the distinct symbols), no symbol is reported twice |
| `Engine.Portfolio.constructor` | portfolio.py:14-15 | a new session's table is empty |
| `Engine.Portfolio.Add` | portfolio.py:25-50 | An empty symbol or a quantity <= 0 is rejected as invalid input. With valid inputs and no price, the add fails as quote-unavailable. Both failures leave the table unchanged. Otherwise the new table is the old one plus exactly one row at the end, with the given symbol, quantity, price and timestamp; rows for an existing symbol are never merged. The add-guard invariant is kept |
| `Engine.Portfolio.Remove` | portfolio.py:90-91 | the new table is the old one filtered by `Symbol != s` (an empty choice changes nothing). The add-guard invariant is kept |
| `Engine.Portfolio.RiskReport` | portfolio.py:132-137 | the loop over the distinct symbols builds exactly `Report` of those symbols in first-seen order |
| `Engine.TwoPurchasesThenRemove` | portfolio.py:44-91 | AAPL 10 @ 150 gives total 1500 and 10 shares. Adding GOOGL 5 @ 100 gives total 2000, 15 shares, distinct symbols [AAPL, GOOGL] and the "increase investment" advice. Removing AAPL leaves the GOOGL row alone: total 500, 5 shares |

## Left out

- Streamlit page layout, forms, tables, metrics widgets and success, error and info banners: presentation only. The messages are modelled as the `AddOutcome` and `Recommendation` values.
- The yfinance price and history lookups: network I/O through a foreign library. They are parameters: an `Option<real>` price for `Add`, and a history function for `RiskReport`.
- The Altair pie chart and the per-symbol historical line charts (the loop at lines 108-119): rendering only. The symbol order that loop visits is `Symbols.Distinct`.
- The volatility formula `np.std / np.mean`: floating-point numerics in a foreign library. Volatility is a caller-supplied function of the closes, and only the threshold is modelled.
- The `datetime.now()` timestamp: an opaque string supplied by the caller.
- The `.upper()` normalisation of the typed symbol: the model takes the normalised symbol as given.
- The per-symbol allocation mapping: the script computes none beyond what the pie chart draws.
- The "Total Value" column is written into the table in place at line 64. The model treats it as a derived column (`Valuation.TotalValueColumn`) recomputed from the rows, not as stored state.
- The script computes `total_investment` at line 77, before the removal at line 91. Line 123 reads it in the same rerun, so after a removal it is stale. This comes from the order of Streamlit reruns; the model computes the recommendation from the current table.
- Float rounding and formatting of prices (`:.2f`, `:,.2f`): prices are exact reals.

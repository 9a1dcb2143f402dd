# Sentiment and moving-average allocation rule

This project models the decision rule of `TradingStrategy.run` in
`main.py`, a daily strategy for a fixed list of tickers (`AAPL`, `TSLA`).
For each ticker, `run` reads:

- the social-sentiment history;
- the 20-bar and 50-bar simple moving averages (SMA) of the close;
- the latest close.

It then writes one entry of a dictionary from ticker to target fraction of
capital:

- 0 when sentiment is missing or empty;
- 0 when either SMA is unavailable;
- otherwise, bullish gives 0.5/N, bearish gives 0, and neutral gives 0.25/N,
  checked in that order, where N is the number of tickers.

The Dafny model is in two files:

- `wrappers.dfy` holds `Option`, which stands for Python's `None` or a value.
- `strategy.dfy` (module `SentimentStrategy`) holds:
  - the data model: sentiment records, price bars, the data bundle, and the
    SMA collaborator as a function-typed parameter `(ticker, ohlcv, window)`;
  - the decision table as functions (`Classify`, `Decide`, `Share`);
  - the returned dictionary and the log as specification functions
    (`Allocation`, `Diagnostics`);
  - the class `TradingStrategy`, whose `Run` method fills the map in a loop
    and is proved equal to those functions;
  - the lemmas for the properties the rule promises.

Prices, averages and sentiment are Dafny `real` values.

Two places in the source text cannot run as written. The model gives each
its evident meaning:

- `main.py:38` reads `sma_long is not thereof`. Because `and` short-circuits,
  that raises a NameError only when a ticker has sentiment data and its 20-bar
  SMA is present. The model tests `sma_long is not None`.
- `main.py:60` reads `return TargetAllocation(allocation):`. That is a syntax
  error and names an undefined variable. The model returns the dictionary
  `allocation_dict` that the loop builds.

In any case, the syntax error at line 60 stops the file from parsing, so as
written none of it runs.

`run` relies on some facts without checking them. `Readable` states them as a
precondition:

- The key `("social_sentiment", ticker)` exists. Otherwise Python raises a
  KeyError.
- When both averages are present, they are non-empty.
- When both averages are present, the OHLCV history is non-empty. Otherwise
  `ohlcv_data[-1]` raises an IndexError (`main.py:39`).
- When both averages are present, the last OHLCV bar has an entry for the
  ticker. Otherwise the `[ticker]` lookup raises a KeyError (`main.py:39`).

The two `log` calls are modelled as tags returned in a sequence
(`Diagnostic`), in the order they are emitted. Their text is not modelled.

## Model

| member | source | states |
|---|---|---|
| SentimentStrategy.TradingStrategy.constructor | bdc50ced-1eb5-4b13-bbf5-188f01a217f0/main.py:7-8 | the strategy tracks exactly the tickers AAPL and TSLA |
| SentimentStrategy.DefaultTickersDistinct | bdc50ced-1eb5-4b13-bbf5-188f01a217f0/main.py:8 | the fixed ticker list has two distinct entries, so the dictionary gets two keys |
| SentimentStrategy.FixedStrategyHasTwoEntries | bdc50ced-1eb5-4b13-bbf5-188f01a217f0/main.py:8 | the strategy built by the constructor returns a dictionary with exactly two keys, AAPL and TSLA |
| SentimentStrategy.Decide | bdc50ced-1eb5-4b13-bbf5-188f01a217f0/main.py:29-58 | no-sentiment exactly when the sentiment list is None or empty; insufficient SMA exactly when sentiment is present and an SMA is None; otherwise the data is complete and the signal is `Classify` of the latest sentiment, latest close and latest SMA values |
| SentimentStrategy.Note | bdc50ced-1eb5-4b13-bbf5-188f01a217f0/main.py:53-57 | a ticker logs at most one note: the no-sentiment note exactly on the no-sentiment path, the insufficient-SMA note exactly on the missing-SMA path, and nothing when the data is complete |
| SentimentStrategy.Diagnostics | bdc50ced-1eb5-4b13-bbf5-188f01a217f0/main.py:26-57 | every logged note names a ticker of the list (the log itself is each ticker's `Note`, in list order) |
| SentimentStrategy.TradingStrategy.Run | bdc50ced-1eb5-4b13-bbf5-188f01a217f0/main.py:23-60 | the dictionary the loop builds is exactly `Allocation` of the tracked tickers, and the log is exactly `Diagnostics` of them, in ticker order |
| SentimentStrategy.EvaluateTicker | bdc50ced-1eb5-4b13-bbf5-188f01a217f0/main.py:27-58 | one loop iteration writes the share of that ticker's decision and logs that decision's note (none, no sentiment, or insufficient SMA) |
| SentimentStrategy.Classify | bdc50ced-1eb5-4b13-bbf5-188f01a217f0/main.py:44-52 | bullish exactly when sentiment > 0.5 and short SMA > long SMA; neutral exactly when sentiment >= 0.5, price >= long SMA and the bullish test fails; bearish otherwise |
| SentimentStrategy.Share | bdc50ced-1eb5-4b13-bbf5-188f01a217f0/main.py:46-58 | a decision's fraction lies in [0, 0.5/N]; it is 0.5/N exactly for bullish, 0.25/N exactly for neutral, and 0 for bearish and both missing-data outcomes |
| SentimentStrategy.Allocation | bdc50ced-1eb5-4b13-bbf5-188f01a217f0/main.py:24-58 | the key set of the result is exactly the set of tracked tickers |
| SentimentStrategy.NoSentimentGivesZero | bdc50ced-1eb5-4b13-bbf5-188f01a217f0/main.py:29-58 | a ticker whose sentiment list is None or empty gets allocation 0 |
| SentimentStrategy.MissingSmaGivesZero | bdc50ced-1eb5-4b13-bbf5-188f01a217f0/main.py:38-55 | a ticker with sentiment but a missing 20- or 50-bar SMA gets allocation 0 |
| SentimentStrategy.BullishGivesHalfShare | bdc50ced-1eb5-4b13-bbf5-188f01a217f0/main.py:44-46 | with complete data, sentiment > 0.5 and short SMA > long SMA, the allocation is 0.5/N |
| SentimentStrategy.BearishGivesZero | bdc50ced-1eb5-4b13-bbf5-188f01a217f0/main.py:47-49 | with complete data, when the bullish test fails and sentiment < 0.5 or price < long SMA, the allocation is 0; this includes strong sentiment with the price below the long SMA |
| SentimentStrategy.NeutralExactly | bdc50ced-1eb5-4b13-bbf5-188f01a217f0/main.py:44-52 | the allocation is 0.25/N if and only if data is complete, sentiment >= 0.5, price >= long SMA and the bullish test fails |
| SentimentStrategy.AllocationValues | bdc50ced-1eb5-4b13-bbf5-188f01a217f0/main.py:46-58 | every entry is one of 0, 0.25/N and 0.5/N, hence within [0, 0.5/N] |
| SentimentStrategy.TotalAtMostHalf | bdc50ced-1eb5-4b13-bbf5-188f01a217f0/main.py:46-52 | the entries summed over the ticker list lie in [0, 0.5] |
| SentimentStrategy.FixedStrategyTotalAtMostHalf | bdc50ced-1eb5-4b13-bbf5-188f01a217f0/main.py:8-58 | for the constructed strategy, the sum over the list equals the dictionary's total AAPL + TSLA, which lies in [0, 0.5] |
| SentimentStrategy.EntryDependsOnlyOnOwnInputs | bdc50ced-1eb5-4b13-bbf5-188f01a217f0/main.py:26-58 | a ticker's entry depends only on its own sentiment, its two SMA results, its latest close and N; other tickers' data and the list order do not change it |
| SentimentStrategy.OrderIrrelevant | bdc50ced-1eb5-4b13-bbf5-188f01a217f0/main.py:26 | any reordering of the ticker list gives the same dictionary |
| SentimentStrategy.NoSentimentLoggedExactly | bdc50ced-1eb5-4b13-bbf5-188f01a217f0/main.py:56-57 | a "no sentiment" diagnostic is logged for a ticker if and only if it is tracked and its sentiment is None or empty |
| SentimentStrategy.InsufficientSmaLoggedExactly | bdc50ced-1eb5-4b13-bbf5-188f01a217f0/main.py:53-54 | an "insufficient SMA" diagnostic is logged for a ticker if and only if it is tracked, has sentiment, and lacks an SMA |
| SentimentStrategy.DiagnosticsAtMostOnePerTicker | bdc50ced-1eb5-4b13-bbf5-188f01a217f0/main.py:26-58 | the log has at most one entry per ticker visited |
| SentimentStrategy.DecisionTableExamples | bdc50ced-1eb5-4b13-bbf5-188f01a217f0/main.py:44-52 | worked cases, as (sentiment, price, short SMA, long SMA): (0.7, 100, 110, 100) is bullish; (0.2, 200, 110, 100) is bearish; (0.6, 90, 95, 100) and (0.9, 90, 95, 100) are bearish; (0.55, 105, 90, 100) and (0.5, 100, 110, 100) are neutral; because bullish is tested first, (0.6, 90, 110, 100) is bullish even with the price below the long SMA, and (0.5, 90, 110, 100) is bearish |

## Left out

- The `assets`, `interval` and `data` properties (`main.py:11-21`) only return configuration. The `SocialSentiment` feed list built at `main.py:9` is likewise not modelled.
- The surmount framework is foreign code whose source is not part of this model. This covers the `Strategy` base class, `SocialSentiment`, `log`, the SMA computation and the construction of `TargetAllocation`. The SMA results are an opaque function parameter. The returned value is the plain dictionary.
- The text of the log messages is not modelled; only which diagnostic is emitted, for which ticker and in what order.
- IEEE floating point is not modelled: all values are exact reals. The rule only compares values and divides by N.
- The NameError at `main.py:38` and the syntax error at `main.py:60` are not modelled. The model uses the evident intent described above.
- The failing lookups (a missing sentiment key, an empty SMA series, an empty OHLCV history, a last OHLCV bar without the ticker) are preconditions (`Readable`), not error results. The source does not handle them: they raise.
- TotalAtMostHalf: sums over the ticker list rather than over the dictionary's keys. The two are the same for a list without repeats, such as the fixed one; `FixedStrategyTotalAtMostHalf` states the bound on the dictionary's total for that list.

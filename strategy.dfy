/**
 * A daily rebalancing rule that combines social sentiment with two simple
 * moving averages (SMA) of the closing price. For every tracked ticker it
 * picks one of three target fractions of capital, or 0 when data is missing.
 */
module SentimentStrategy {

  import opened Wrappers

  type Ticker = string

  /** One observation of the social-sentiment feed; only the score is read. */
  datatype SentimentRecord = SentimentRecord(twitterSentiment: real)

  /** One OHLCV bar of one ticker; only the closing price is read. */
  datatype PriceBar = PriceBar(close: real)

  /** The shared OHLCV history: one map from ticker to bar per interval, oldest first. */
  type Ohlcv = seq<map<Ticker, PriceBar>>

  /** What the framework hands to `run`: the sentiment history of each ticker and the OHLCV history. */
  datatype DataBundle = DataBundle(
    sentiment: map<Ticker, Option<seq<SentimentRecord>>>,
    ohlcv: Ohlcv)

  /** The moving-average collaborator: (ticker, history, window) to a series, or None when history is short. */
  type SmaProvider = (Ticker, Ohlcv, nat) -> Option<seq<real>>

  const ShortWindow: nat := 20
  const LongWindow: nat := 50
  const SentimentThreshold: real := 0.5
  const BullishShare: real := 0.5
  const NeutralShare: real := 0.25

  /** Diagnostic tags for the two log calls; the message text is not modelled. */
  datatype Diagnostic = NoSentimentNote(ticker: Ticker) | InsufficientSmaNote(ticker: Ticker)

  datatype Signal = Bullish | Bearish | Neutral

  /** The outcome for one ticker: a signal, or the missing-data reason that forced 0. */
  datatype Decision = Allocate(signal: Signal) | NoSentimentData | InsufficientSmaData

  function Latest<T>(s: seq<T>): T
    requires |s| > 0
  {
    s[|s| - 1]
  }

  /** Python truthiness of the sentiment list: neither None nor empty. */
  predicate HasSentiment(s: Option<seq<SentimentRecord>>)
  {
    s.Some? && |s.value| > 0
  }

  function ShortSma(t: Ticker, data: DataBundle, sma: SmaProvider): Option<seq<real>>
  {
    sma(t, data.ohlcv, ShortWindow)
  }

  function LongSma(t: Ticker, data: DataBundle, sma: SmaProvider): Option<seq<real>>
  {
    sma(t, data.ohlcv, LongWindow)
  }

  /** All inputs the rule needs for ticker `t` are present. */
  predicate Complete(t: Ticker, data: DataBundle, sma: SmaProvider)
    requires t in data.sentiment
  {
    HasSentiment(data.sentiment[t]) && ShortSma(t, data, sma).Some? && LongSma(t, data, sma).Some?
  }

  /**
   * What `run` relies on without checking: the sentiment key of `t` exists,
   * and once both averages are present they are non-empty and the last bar
   * has a close for `t`.
   */
  predicate Readable(t: Ticker, data: DataBundle, sma: SmaProvider)
  {
    t in data.sentiment &&
    (Complete(t, data, sma) ==>
       |ShortSma(t, data, sma).value| > 0 && |LongSma(t, data, sma).value| > 0 &&
       |data.ohlcv| > 0 && t in Latest(data.ohlcv))
  }

  predicate ReadableAll(tickers: seq<Ticker>, data: DataBundle, sma: SmaProvider)
  {
    forall t :: t in tickers ==> Readable(t, data, sma)
  }

  function LatestSentiment(t: Ticker, data: DataBundle): real
    requires t in data.sentiment && HasSentiment(data.sentiment[t])
  {
    Latest(data.sentiment[t].value).twitterSentiment
  }

  function LatestClose(t: Ticker, data: DataBundle): real
    requires |data.ohlcv| > 0 && t in Latest(data.ohlcv)
  {
    Latest(data.ohlcv)[t].close
  }

  /** The three-way test, bullish first, then bearish, otherwise neutral. */
  function Classify(sentiment: real, price: real, shortSma: real, longSma: real): (s: Signal)
    ensures s == Bullish <==> sentiment > SentimentThreshold && shortSma > longSma
    ensures s == Neutral <==>
              sentiment >= SentimentThreshold && price >= longSma &&
              !(sentiment > SentimentThreshold && shortSma > longSma)
  {
    if sentiment > SentimentThreshold && shortSma > longSma then Bullish
    else if sentiment < SentimentThreshold || price < longSma then Bearish
    else Neutral
  }

  /** The decision `run` takes for one ticker. */
  function Decide(t: Ticker, data: DataBundle, sma: SmaProvider): (d: Decision)
    requires Readable(t, data, sma)
    ensures d == NoSentimentData <==> !HasSentiment(data.sentiment[t])
    ensures d == InsufficientSmaData <==>
              HasSentiment(data.sentiment[t]) && (ShortSma(t, data, sma).None? || LongSma(t, data, sma).None?)
    ensures d.Allocate? <==> Complete(t, data, sma)
    ensures d.Allocate? ==>
              d.signal == Classify(LatestSentiment(t, data), LatestClose(t, data),
                                   Latest(ShortSma(t, data, sma).value), Latest(LongSma(t, data, sma).value))
  {
    if !HasSentiment(data.sentiment[t]) then NoSentimentData
    else if !(ShortSma(t, data, sma).Some? && LongSma(t, data, sma).Some?) then InsufficientSmaData
    else Allocate(Classify(LatestSentiment(t, data), LatestClose(t, data),
                           Latest(ShortSma(t, data, sma).value), Latest(LongSma(t, data, sma).value)))
  }

  /** The fraction of capital a decision stands for, with `n` tracked tickers. */
  function Share(d: Decision, n: nat): (r: real)
    requires n > 0
    ensures 0.0 <= r <= BullishShare / n as real
    ensures r == BullishShare / n as real <==> d == Allocate(Bullish)
    ensures r == NeutralShare / n as real <==> d == Allocate(Neutral)
    ensures r == 0.0 <==> !(d == Allocate(Bullish) || d == Allocate(Neutral))
  {
    match d
    case Allocate(Bullish) => BullishShare / n as real
    case Allocate(Neutral) => NeutralShare / n as real
    case _ => 0.0
  }

  /** The dictionary `run` returns: one entry per tracked ticker. */
  function Allocation(tickers: seq<Ticker>, data: DataBundle, sma: SmaProvider): (r: map<Ticker, real>)
    requires ReadableAll(tickers, data, sma)
    ensures r.Keys == set t | t in tickers
  {
    map t | t in tickers :: Share(Decide(t, data, sma), |tickers|)
  }

  /** The diagnostic one ticker logs, if any. */
  function Note(t: Ticker, data: DataBundle, sma: SmaProvider): (r: seq<Diagnostic>)
    requires Readable(t, data, sma)
    ensures |r| <= 1
    ensures r == [NoSentimentNote(t)] <==> !HasSentiment(data.sentiment[t])
    ensures r == [InsufficientSmaNote(t)] <==>
              HasSentiment(data.sentiment[t]) && (ShortSma(t, data, sma).None? || LongSma(t, data, sma).None?)
    ensures r == [] <==> Complete(t, data, sma)
  {
    match Decide(t, data, sma)
    case NoSentimentData => [NoSentimentNote(t)]
    case InsufficientSmaData => [InsufficientSmaNote(t)]
    case Allocate(_) => []
  }

  /** The diagnostics `run` logs, in ticker order. */
  function Diagnostics(tickers: seq<Ticker>, data: DataBundle, sma: SmaProvider): (r: seq<Diagnostic>)
    requires ReadableAll(tickers, data, sma)
    ensures forall k :: 0 <= k < |r| ==> r[k].ticker in tickers
  {
    if tickers == [] then []
    else Diagnostics(tickers[..|tickers| - 1], data, sma) + Note(Latest(tickers), data, sma)
  }

  lemma ReadablePrefix(tickers: seq<Ticker>, data: DataBundle, sma: SmaProvider, k: nat)
    requires ReadableAll(tickers, data, sma) && k <= |tickers|
    ensures ReadableAll(tickers[..k], data, sma)
  {
    forall t | t in tickers[..k] ensures Readable(t, data, sma) {
      var j :| 0 <= j < k && tickers[..k][j] == t;
      assert tickers[j] == t;
    }
  }

  /** `m` holds exactly the first `i` tickers, each with its share. */
  ghost predicate FilledUpTo(m: map<Ticker, real>, tickers: seq<Ticker>, i: nat, data: DataBundle, sma: SmaProvider)
    requires ReadableAll(tickers, data, sma) && i <= |tickers|
  {
    (forall t :: t in m <==> t in tickers[..i]) &&
    (forall t :: t in m ==> t in tickers && m[t] == Share(Decide(t, data, sma), |tickers|))
  }

  lemma StepFills(m: map<Ticker, real>, tickers: seq<Ticker>, i: nat, data: DataBundle, sma: SmaProvider)
    requires ReadableAll(tickers, data, sma) && i < |tickers|
    requires FilledUpTo(m, tickers, i, data, sma)
    ensures FilledUpTo(m[tickers[i] := Share(Decide(tickers[i], data, sma), |tickers|)], tickers, i + 1, data, sma)
  {
    assert tickers[..i + 1] == tickers[..i] + [tickers[i]];
  }

  lemma DiagnosticsStep(tickers: seq<Ticker>, data: DataBundle, sma: SmaProvider, i: nat)
    requires ReadableAll(tickers, data, sma) && i < |tickers|
    ensures ReadableAll(tickers[..i], data, sma) && ReadableAll(tickers[..i + 1], data, sma)
    ensures Diagnostics(tickers[..i + 1], data, sma) == Diagnostics(tickers[..i], data, sma) + Note(tickers[i], data, sma)
  {
    ReadablePrefix(tickers, data, sma, i);
    ReadablePrefix(tickers, data, sma, i + 1);
    assert tickers[..i + 1][..i] == tickers[..i];
  }

  /** A map with the tickers as keys and each ticker's share as value is the allocation. */
  lemma AllocationExtensional(tickers: seq<Ticker>, data: DataBundle, sma: SmaProvider, m: map<Ticker, real>)
    requires ReadableAll(tickers, data, sma)
    requires forall t :: t in m <==> t in tickers
    requires forall t :: t in m ==> t in tickers && m[t] == Share(Decide(t, data, sma), |tickers|)
    ensures m == Allocation(tickers, data, sma)
  {
  }

  /** The strategy object; its ticker list is fixed when it is built. */
  class TradingStrategy {

    const tickers: seq<Ticker>

    constructor ()
      ensures tickers == ["AAPL", "TSLA"]
    {
      tickers := ["AAPL", "TSLA"];
    }

    /**
     * Builds the allocation dictionary one ticker at a time and collects the
     * diagnostics logged on the two missing-data paths.
     */
    method Run(data: DataBundle, sma: SmaProvider) returns (allocation: map<Ticker, real>, log: seq<Diagnostic>)
      requires ReadableAll(tickers, data, sma)
      ensures allocation == Allocation(tickers, data, sma)
      ensures log == Diagnostics(tickers, data, sma)
    {
      var n := |tickers|;
      allocation := map[];
      log := [];
      for i := 0 to n
        invariant ReadableAll(tickers[..i], data, sma)
        invariant FilledUpTo(allocation, tickers, i, data, sma)
        invariant log == Diagnostics(tickers[..i], data, sma)
      {
        var ticker := tickers[i];
        assert ticker in tickers;
        ReadablePrefix(tickers, data, sma, i + 1);
        DiagnosticsStep(tickers, data, sma, i);
        StepFills(allocation, tickers, i, data, sma);
        var share, note := EvaluateTicker(ticker, n, data, sma);
        allocation := allocation[ticker := share];
        log := log + note;
      }
      assert tickers[..n] == tickers;
      AllocationExtensional(tickers, data, sma, allocation);
    }
  }

  /**
   * The body of the loop in `run` for one ticker: the share it writes into
   * the dictionary and the diagnostic it logs, if any.
   */
  method EvaluateTicker(ticker: Ticker, n: nat, data: DataBundle, sma: SmaProvider)
    returns (share: real, note: seq<Diagnostic>)
    requires n > 0 && Readable(ticker, data, sma)
    ensures share == Share(Decide(ticker, data, sma), n)
    ensures note == Note(ticker, data, sma)
  {
    note := [];
    var sentimentList := data.sentiment[ticker];
    if sentimentList.Some? && |sentimentList.value| > 0 {
      var latestSentiment := sentimentList.value[|sentimentList.value| - 1].twitterSentiment;
      var ohlcvData := data.ohlcv;
      var smaShort := sma(ticker, ohlcvData, ShortWindow);
      var smaLong := sma(ticker, ohlcvData, LongWindow);
      if smaShort.Some? && smaLong.Some? {
        var currentPrice := ohlcvData[|ohlcvData| - 1][ticker].close;
        var shortSmaValue := smaShort.value[|smaShort.value| - 1];
        var longSmaValue := smaLong.value[|smaLong.value| - 1];
        if latestSentiment > SentimentThreshold && shortSmaValue > longSmaValue {
          share := BullishShare / n as real;
        } else if latestSentiment < SentimentThreshold || currentPrice < longSmaValue {
          share := 0.0;
        } else {
          share := NeutralShare / n as real;
        }
      } else {
        note := [InsufficientSmaNote(ticker)];
        share := 0.0;
      }
    } else {
      note := [NoSentimentNote(ticker)];
      share := 0.0;
    }
  }

  // ---------------------------------------------------------------------------
  // Properties of the rule
  // ---------------------------------------------------------------------------

  /** The fixed ticker list has no repeats, so its dictionary has exactly two entries. */
  lemma DefaultTickersDistinct()
    ensures |set t | t in ["AAPL", "TSLA"]| == 2
  {
    var s: seq<Ticker> := ["AAPL", "TSLA"];
    assert (set t | t in s) == {"AAPL", "TSLA"};
    assert "AAPL" != "TSLA" by { assert "AAPL"[0] != "TSLA"[0]; }
  }

  /** The strategy as constructed returns a dictionary with exactly the keys AAPL and TSLA. */
  lemma FixedStrategyHasTwoEntries(s: TradingStrategy, data: DataBundle, sma: SmaProvider)
    requires s.tickers == ["AAPL", "TSLA"] && ReadableAll(s.tickers, data, sma)
    ensures Allocation(s.tickers, data, sma).Keys == {"AAPL", "TSLA"}
    ensures |Allocation(s.tickers, data, sma).Keys| == 2
  {
    DefaultTickersDistinct();
    assert (set t | t in s.tickers) == {"AAPL", "TSLA"};
  }

  lemma NoSentimentGivesZero(tickers: seq<Ticker>, data: DataBundle, sma: SmaProvider, t: Ticker)
    requires ReadableAll(tickers, data, sma) && t in tickers
    requires data.sentiment[t].None? || data.sentiment[t].value == []
    ensures Allocation(tickers, data, sma)[t] == 0.0
  {
  }

  lemma MissingSmaGivesZero(tickers: seq<Ticker>, data: DataBundle, sma: SmaProvider, t: Ticker)
    requires ReadableAll(tickers, data, sma) && t in tickers
    requires HasSentiment(data.sentiment[t])
    requires ShortSma(t, data, sma).None? || LongSma(t, data, sma).None?
    ensures Allocation(tickers, data, sma)[t] == 0.0
  {
  }

  lemma BullishGivesHalfShare(tickers: seq<Ticker>, data: DataBundle, sma: SmaProvider, t: Ticker)
    requires ReadableAll(tickers, data, sma) && t in tickers && Complete(t, data, sma)
    requires LatestSentiment(t, data) > 0.5
    requires Latest(ShortSma(t, data, sma).value) > Latest(LongSma(t, data, sma).value)
    ensures Allocation(tickers, data, sma)[t] == 0.5 / |tickers| as real
  {
  }

  lemma BearishGivesZero(tickers: seq<Ticker>, data: DataBundle, sma: SmaProvider, t: Ticker)
    requires ReadableAll(tickers, data, sma) && t in tickers && Complete(t, data, sma)
    requires !(LatestSentiment(t, data) > 0.5 &&
               Latest(ShortSma(t, data, sma).value) > Latest(LongSma(t, data, sma).value))
    requires LatestSentiment(t, data) < 0.5 || LatestClose(t, data) < Latest(LongSma(t, data, sma).value)
    ensures Allocation(tickers, data, sma)[t] == 0.0
  {
  }

  /** The neutral fraction is given exactly when the data is complete and the residual case holds. */
  lemma NeutralExactly(tickers: seq<Ticker>, data: DataBundle, sma: SmaProvider, t: Ticker)
    requires ReadableAll(tickers, data, sma) && t in tickers
    ensures Allocation(tickers, data, sma)[t] == 0.25 / |tickers| as real <==>
              Complete(t, data, sma) &&
              LatestSentiment(t, data) >= 0.5 &&
              LatestClose(t, data) >= Latest(LongSma(t, data, sma).value) &&
              !(LatestSentiment(t, data) > 0.5 &&
                Latest(ShortSma(t, data, sma).value) > Latest(LongSma(t, data, sma).value))
  {
    assert t in data.sentiment;
    var d := Decide(t, data, sma);
    if Complete(t, data, sma) {
      assert d.Allocate?;
    }
  }

  /** Every entry is one of 0, 0.25/N and 0.5/N. */
  lemma AllocationValues(tickers: seq<Ticker>, data: DataBundle, sma: SmaProvider, t: Ticker)
    requires ReadableAll(tickers, data, sma) && t in tickers
    ensures var n := |tickers| as real;
            Allocation(tickers, data, sma)[t] in {0.0, 0.25 / n, 0.5 / n}
    ensures 0.0 <= Allocation(tickers, data, sma)[t] <= 0.5 / |tickers| as real
  {
    var d := Decide(t, data, sma);
    assert d == Allocate(Bullish) || d == Allocate(Neutral) || Share(d, |tickers|) == 0.0;
  }

  /** The sum of the entries of `m` at `keys`, in order. */
  function SumAt(m: map<Ticker, real>, keys: seq<Ticker>): real
    requires forall k :: k in keys ==> k in m
  {
    if keys == [] then 0.0 else m[keys[0]] + SumAt(m, keys[1..])
  }

  lemma {:induction false} SumAtBounded(m: map<Ticker, real>, keys: seq<Ticker>, bound: real)
    requires forall k :: k in keys ==> k in m && 0.0 <= m[k] <= bound
    ensures 0.0 <= SumAt(m, keys) <= |keys| as real * bound
  {
    if keys != [] {
      SumAtBounded(m, keys[1..], bound);
    }
  }

  lemma TimesShare(n: real, x: real)
    requires n > 0.0
    ensures n * (x / n) == x
  {
  }

  /** Shares of at most one half over the number of keys add up to at most one half. */
  lemma SumOfSharesBounded(m: map<Ticker, real>, keys: seq<Ticker>)
    requires keys != []
    requires forall k :: k in keys ==> k in m && 0.0 <= m[k] <= BullishShare / |keys| as real
    ensures 0.0 <= SumAt(m, keys) <= BullishShare
  {
    var n := |keys| as real;
    SumAtBounded(m, keys, BullishShare / n);
    TimesShare(n, BullishShare);
  }

  lemma SharesBounded(tickers: seq<Ticker>, data: DataBundle, sma: SmaProvider)
    requires ReadableAll(tickers, data, sma) && tickers != []
    ensures forall k :: k in tickers ==>
              k in Allocation(tickers, data, sma) &&
              0.0 <= Allocation(tickers, data, sma)[k] <= BullishShare / |tickers| as real
  {
  }

  /**
   * The allocations add up to at most one half of the capital. The sum is
   * taken over the ticker list; for a list without repeats, such as the fixed
   * one, that is the total of the dictionary.
   */
  lemma TotalAtMostHalf(tickers: seq<Ticker>, data: DataBundle, sma: SmaProvider)
    requires ReadableAll(tickers, data, sma)
    ensures 0.0 <= SumAt(Allocation(tickers, data, sma), tickers) <= 0.5
  {
    var m := Allocation(tickers, data, sma);
    if tickers != [] {
      SharesBounded(tickers, data, sma);
      SumOfSharesBounded(m, tickers);
    }
  }

  /** For the constructed strategy, the total of the two-key dictionary lies in [0, 0.5]. */
  lemma FixedStrategyTotalAtMostHalf(s: TradingStrategy, data: DataBundle, sma: SmaProvider)
    requires s.tickers == ["AAPL", "TSLA"] && ReadableAll(s.tickers, data, sma)
    ensures var m := Allocation(s.tickers, data, sma);
            "AAPL" in m && "TSLA" in m &&
            SumAt(m, s.tickers) == m["AAPL"] + m["TSLA"] &&
            0.0 <= m["AAPL"] + m["TSLA"] <= 0.5
  {
    FixedStrategyHasTwoEntries(s, data, sma);
    TotalAtMostHalf(s.tickers, data, sma);
    var m := Allocation(s.tickers, data, sma);
    assert s.tickers[1..] == ["TSLA"];
    assert SumAt(m, s.tickers) == m["AAPL"] + SumAt(m, ["TSLA"]);
    assert SumAt(m, ["TSLA"]) == m["TSLA"] + SumAt(m, []);
  }

  /** What `run` reads for one ticker: its sentiment, its two averages and its latest close. */
  datatype TickerInputs = TickerInputs(
    sentiment: Option<seq<SentimentRecord>>,
    shortSma: Option<seq<real>>,
    longSma: Option<seq<real>>,
    close: Option<real>)

  function InputsOf(t: Ticker, data: DataBundle, sma: SmaProvider): TickerInputs
    requires t in data.sentiment
  {
    TickerInputs(data.sentiment[t], ShortSma(t, data, sma), LongSma(t, data, sma),
                 if |data.ohlcv| > 0 && t in Latest(data.ohlcv) then Some(LatestClose(t, data)) else None)
  }

  /**
   * An entry depends only on that ticker's own inputs and the number of
   * tickers: neither the order of the list nor the other tickers' data
   * changes it.
   */
  lemma EntryDependsOnlyOnOwnInputs(
    tickers1: seq<Ticker>, data1: DataBundle, sma1: SmaProvider,
    tickers2: seq<Ticker>, data2: DataBundle, sma2: SmaProvider, t: Ticker)
    requires ReadableAll(tickers1, data1, sma1) && ReadableAll(tickers2, data2, sma2)
    requires t in tickers1 && t in tickers2 && |tickers1| == |tickers2|
    requires InputsOf(t, data1, sma1) == InputsOf(t, data2, sma2)
    ensures Allocation(tickers1, data1, sma1)[t] == Allocation(tickers2, data2, sma2)[t]
  {
    assert Decide(t, data1, sma1) == Decide(t, data2, sma2);
  }

  /** Reordering the ticker list does not change the dictionary. */
  lemma OrderIrrelevant(tickers1: seq<Ticker>, tickers2: seq<Ticker>, data: DataBundle, sma: SmaProvider)
    requires ReadableAll(tickers1, data, sma)
    requires multiset(tickers1) == multiset(tickers2)
    ensures ReadableAll(tickers2, data, sma)
    ensures Allocation(tickers1, data, sma) == Allocation(tickers2, data, sma)
  {
    assert |tickers1| == |multiset(tickers1)| == |tickers2|;
    forall t ensures t in tickers1 <==> t in tickers2 {
      assert t in tickers1 <==> t in multiset(tickers1);
      assert t in tickers2 <==> t in multiset(tickers2);
    }
  }

  /** A ticker is logged as lacking sentiment exactly when its sentiment is missing or empty. */
  lemma {:induction false} NoSentimentLoggedExactly(
    tickers: seq<Ticker>, data: DataBundle, sma: SmaProvider, t: Ticker)
    requires ReadableAll(tickers, data, sma)
    ensures NoSentimentNote(t) in Diagnostics(tickers, data, sma) <==>
              t in tickers && !HasSentiment(data.sentiment[t])
  {
    if tickers != [] {
      var init := tickers[..|tickers| - 1];
      assert ReadableAll(init, data, sma) by {
        forall k | k in init ensures Readable(k, data, sma) { assert k in tickers; }
      }
      NoSentimentLoggedExactly(init, data, sma, t);
      assert tickers == init + [Latest(tickers)];
    }
  }

  /** A ticker is logged as lacking averages exactly when it has sentiment but an average is absent. */
  lemma {:induction false} InsufficientSmaLoggedExactly(
    tickers: seq<Ticker>, data: DataBundle, sma: SmaProvider, t: Ticker)
    requires ReadableAll(tickers, data, sma)
    ensures InsufficientSmaNote(t) in Diagnostics(tickers, data, sma) <==>
              t in tickers && HasSentiment(data.sentiment[t]) &&
              (ShortSma(t, data, sma).None? || LongSma(t, data, sma).None?)
  {
    if tickers != [] {
      var init := tickers[..|tickers| - 1];
      assert ReadableAll(init, data, sma) by {
        forall k | k in init ensures Readable(k, data, sma) { assert k in tickers; }
      }
      InsufficientSmaLoggedExactly(init, data, sma, t);
      assert tickers == init + [Latest(tickers)];
    }
  }

  /** At most one diagnostic is logged per ticker. */
  lemma {:induction false} DiagnosticsAtMostOnePerTicker(tickers: seq<Ticker>, data: DataBundle, sma: SmaProvider)
    requires ReadableAll(tickers, data, sma)
    ensures |Diagnostics(tickers, data, sma)| <= |tickers|
  {
    if tickers != [] {
      var init := tickers[..|tickers| - 1];
      assert ReadableAll(init, data, sma) by {
        forall k | k in init ensures Readable(k, data, sma) { assert k in tickers; }
      }
      DiagnosticsAtMostOnePerTicker(init, data, sma);
    }
  }

  /** The worked cases of the decision table, including strong sentiment with the price below the long average. */
  lemma DecisionTableExamples()
    ensures Classify(0.7, 100.0, 110.0, 100.0) == Bullish
    ensures Classify(0.2, 200.0, 110.0, 100.0) == Bearish
    ensures Classify(0.6, 90.0, 95.0, 100.0) == Bearish
    ensures Classify(0.9, 90.0, 95.0, 100.0) == Bearish
    ensures Classify(0.55, 105.0, 90.0, 100.0) == Neutral
    ensures Classify(0.5, 100.0, 110.0, 100.0) == Neutral
    ensures Classify(0.6, 90.0, 110.0, 100.0) == Bullish
    ensures Classify(0.5, 90.0, 110.0, 100.0) == Bearish
  {
  }
}

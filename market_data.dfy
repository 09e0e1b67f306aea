/** The market-data collector: the validator, the first-success fallback loop
    over the providers, and the shaping of the Alpha Vantage daily series into
    the newest 365 bars. */
module MarketData {
  import opened Json
  import opened Lex
  import opened Sorting
  import opened Outcomes

  /** `us_market`: the daily history and the current-quote metrics. */
  datatype UsMarket = UsMarket(history: Option<seq<Json>>, info: Option<map<string, Json>>)

  /** The dict a market provider adapter returns. A `None` field is a key the dict
      does not have; `others` holds the keys no modelled code reads
      (`collection_time`, `data_source`). */
  datatype MarketRecord = MarketRecord(usMarket: Option<UsMarket>, hkMarket: Option<Json>, others: map<string, Json>)
  {
    /** The dict is empty, hence falsy. */
    predicate IsEmpty() {
      usMarket.None? && hkMarket.None? && others == map[]
    }
  }

  // ---------------------------------------------------------------------------
  // Validation (market_data.py:161-179)

  function ValidateData(data: MarketRecord): (ok: bool)
    ensures ok ==> data.usMarket.Some? && data.usMarket.value.history.Some?
                   && data.usMarket.value.history.value != []
  {
    if data.IsEmpty() then false
    else if data.usMarket.None? then false
    else if !(data.usMarket.value.history.Some? && data.usMarket.value.history.value != []) then false
    else
      var latest := data.usMarket.value.info.GetOr(map[]);
      if !Truthy(Get(latest, "price")) && !Truthy(Get(latest, "market_cap")) then false
      else true
  }

  /** The four rejection rules, each one on its own. */
  lemma ValidateDataRules(data: MarketRecord)
    ensures data.IsEmpty() ==> !ValidateData(data)
    ensures data.usMarket.None? ==> !ValidateData(data)
    ensures data.usMarket.Some? && data.usMarket.value.history.GetOr([]) == [] ==> !ValidateData(data)
    ensures data.usMarket.Some? ==>
              var info := data.usMarket.value.info.GetOr(map[]);
              (!Truthy(Get(info, "price")) && !Truthy(Get(info, "market_cap")) ==> !ValidateData(data))
    ensures data.usMarket.Some? && data.usMarket.value.history.GetOr([]) != [] ==>
              var info := data.usMarket.value.info.GetOr(map[]);
              (Truthy(Get(info, "price")) || Truthy(Get(info, "market_cap")) ==> ValidateData(data))
  {
  }

  /** The Hong Kong market is never inspected. */
  lemma HongKongIgnored(data: MarketRecord, hk: Option<Json>)
    ensures ValidateData(data.(hkMarket := hk)) == ValidateData(data)
  {
  }

  // ---------------------------------------------------------------------------
  // The first-success collector (market_data.py:20-54)

  /** The collector stops at a result that is not None, not empty and valid. */
  predicate Succeeds(o: Outcome<MarketRecord>)
  {
    o.Returned? && o.value.Some? && !o.value.value.IsEmpty() && ValidateData(o.value.value)
  }

  /** The index of the first succeeding source, or `|sources|` when none succeeds. */
  function FirstSuccess(sources: seq<Outcome<MarketRecord>>): (i: nat)
    ensures i <= |sources|
    ensures i < |sources| ==> Succeeds(sources[i])
    ensures forall j :: 0 <= j < i ==> !Succeeds(sources[j])
  {
    if sources == [] then 0
    else if Succeeds(sources[0]) then 0
    else 1 + FirstSuccess(sources[1..])
  }

  /** How many adapters the collector calls. */
  function Invoked(sources: seq<Outcome<MarketRecord>>): nat
  {
    var i := FirstSuccess(sources);
    if i < |sources| then i + 1 else |sources|
  }

  /** `market_data` after a run of sources: the value of the last call that did
      not raise (None before any did). */
  function LastReturned(sources: seq<Outcome<MarketRecord>>): Option<MarketRecord>
  {
    if sources == [] then None
    else
      match sources[|sources| - 1]
      case Raised => LastReturned(sources[..|sources| - 1])
      case Returned(v) => v
  }

  /** `invoked` counts the provider calls, `written` is the market document once
      the run is over; the result is returned whether or not the save succeeded. */
  method Collect(sources: seq<Outcome<MarketRecord>>, save: SaveOutcome)
    returns (result: Option<MarketRecord>, invoked: nat, written: Document<MarketRecord>)
    ensures invoked == Invoked(sources)
    ensures result == LastReturned(sources[..invoked])
    ensures written == if result.Some? && !result.value.IsEmpty() then AfterSave(save, result.value) else Previous
  {
    var marketData: Option<MarketRecord> := None;
    invoked := 0;
    var i := 0;
    while i < |sources|
      invariant 0 <= i <= |sources| && invoked == i
      invariant forall j :: 0 <= j < i ==> !Succeeds(sources[j])
      invariant marketData == LastReturned(sources[..i])
    {
      assert sources[..i + 1][..i] == sources[..i];
      invoked := invoked + 1;
      var outcome := sources[i];
      if outcome.Returned? {
        marketData := outcome.value;
        if marketData.Some? && !marketData.value.IsEmpty() && ValidateData(marketData.value) {
          NoEarlierSuccess(sources, i);
          break;
        }
      }
      i := i + 1;
    }
    if i == |sources| {
      assert sources[..|sources|] == sources;
      NoSuccessAtAll(sources);
    }
    result, written := marketData, Previous;
    if marketData.Some? && !marketData.value.IsEmpty() {
      written := AfterSave(save, marketData.value);
    }
  }

  lemma {:induction false} NoEarlierSuccess(sources: seq<Outcome<MarketRecord>>, i: int)
    requires 0 <= i < |sources| && Succeeds(sources[i])
    requires forall j :: 0 <= j < i ==> !Succeeds(sources[j])
    ensures FirstSuccess(sources) == i
  {
    if i > 0 {
      NoEarlierSuccess(sources[1..], i - 1);
    }
  }

  lemma NoSuccessAtAll(sources: seq<Outcome<MarketRecord>>)
    requires forall j :: 0 <= j < |sources| ==> !Succeeds(sources[j])
    ensures FirstSuccess(sources) == |sources|
  {
  }

  /** First-success short circuit: the first succeeding source's record is the
      result, unmodified, and no later source is called. */
  lemma ShortCircuit(sources: seq<Outcome<MarketRecord>>, i: int)
    requires 0 <= i < |sources| && Succeeds(sources[i])
    requires forall j :: 0 <= j < i ==> !Succeeds(sources[j])
    ensures Invoked(sources) == i + 1
    ensures LastReturned(sources[..Invoked(sources)]) == sources[i].value
  {
    NoEarlierSuccess(sources, i);
  }

  /** A source that raises leaves `market_data` as it was; one that returns,
      valid or not, overwrites it. So the result is the value of the last called
      source that did not raise. */
  lemma {:induction false} LastReturnedIs(sources: seq<Outcome<MarketRecord>>, j: int)
    requires 0 <= j < |sources| && sources[j].Returned?
    requires forall k :: j < k < |sources| ==> sources[k].Raised?
    ensures LastReturned(sources) == sources[j].value
  {
    if j < |sources| - 1 {
      var init := sources[..|sources| - 1];
      assert init[j] == sources[j];
      LastReturnedIs(init, j);
    }
  }

  /** When every called source raised, the result is None. */
  lemma {:induction false} AllRaisedGivesNone(sources: seq<Outcome<MarketRecord>>)
    requires forall k :: 0 <= k < |sources| ==> sources[k].Raised?
    ensures LastReturned(sources) == None
  {
    if sources != [] {
      AllRaisedGivesNone(sources[..|sources| - 1]);
    }
  }

  /** With no valid source every adapter is called, and when the last one returns
      None (as the placeholder web scraper does) the result is None. */
  lemma NoValidSourceEndsInNone(sources: seq<Outcome<MarketRecord>>)
    requires forall j :: 0 <= j < |sources| ==> !Succeeds(sources[j])
    requires sources != [] && sources[|sources| - 1] == Returned(None)
    ensures Invoked(sources) == |sources|
    ensures LastReturned(sources[..Invoked(sources)]) == None
  {
    NoSuccessAtAll(sources);
    assert sources[..|sources|] == sources;
  }

  // ---------------------------------------------------------------------------
  // Alpha Vantage history shaping (market_data.py:123-134)

  /** One daily bar; prices and volume are kept as the provider's raw values. */
  datatype Bar = Bar(date: string, open: Json, high: Json, low: Json, close: Json, volume: Json)

  const PriceFields: seq<string> := ["1. open", "2. high", "3. low", "4. close", "5. volume"]

  /** The most bars the history keeps. */
  const MaxHistory: nat := 365

  predicate HasPriceFields(values: map<string, Json>)
  {
    forall f :: f in PriceFields ==> f in values
  }

  function BarOf(date: string, values: map<string, Json>): Bar
    requires HasPriceFields(values)
  {
    Bar(date, values["1. open"], values["2. high"], values["3. low"], values["4. close"], values["5. volume"])
  }

  function BarDate(b: Bar): string
  {
    b.date
  }

  /** `series` is `Time Series (Daily)` when the response has it. `None` as a
      result stands for the KeyError a day without one of the five price fields
      raises, which the adapter turns into a None record. */
  method ShapeHistory(series: Option<map<string, map<string, Json>>>) returns (history: Option<seq<Bar>>)
    ensures series.None? ==> history == Some([])
    ensures history.None? <==> series.Some? && exists d :: d in series.value && !HasPriceFields(series.value[d])
    ensures history.Some? && series.Some? ==>
              |history.value| == (if |series.value| < MaxHistory then |series.value| else MaxHistory)
    ensures history.Some? ==> StrictlyDescendingBy(history.value, BarDate)
    ensures history.Some? && series.Some? ==>
              forall b :: b in history.value ==>
                b.date in series.value && HasPriceFields(series.value[b.date]) && b == BarOf(b.date, series.value[b.date])
    ensures history.Some? && series.Some? ==>
              forall d, b :: d in series.value && b in history.value && BarOf(d, series.value[d]) !in history.value
                ==> Less(d, b.date)
  {
    if series.None? {
      return Some([]);
    }
    var days := series.value;
    var historyData := DailyBars(days);
    if historyData.None? {
      return None;
    }
    var sorted := SortDescending(historyData.value, BarDate);
    var kept := if |sorted| <= MaxHistory then sorted else sorted[..MaxHistory];
    NewestKept(historyData.value, sorted, kept, days);
    history := Some(kept);
  }

  /** The loop that turns every day of the series into a bar, in whatever order
      the dict yields them. */
  method DailyBars(days: map<string, map<string, Json>>) returns (bars: Option<seq<Bar>>)
    ensures bars.None? <==> exists d :: d in days && !HasPriceFields(days[d])
    ensures bars.Some? ==> |bars.value| == |days| && KeysDistinct(bars.value, BarDate)
    ensures bars.Some? ==> forall d :: d in days ==> HasPriceFields(days[d]) && BarOf(d, days[d]) in bars.value
    ensures bars.Some? ==> forall b :: b in bars.value ==>
              b.date in days && HasPriceFields(days[b.date]) && b == BarOf(b.date, days[b.date])
  {
    var historyData: seq<Bar> := [];
    var seen: set<string> := {};
    while seen != days.Keys
      invariant seen <= days.Keys
      invariant |historyData| == |seen|
      invariant BarsOfDays(historyData, seen, days)
      decreases |days.Keys - seen|
    {
      var date :| date in days.Keys - seen;
      var values := days[date];
      if !HasPriceFields(values) {
        return None;
      }
      BarsOfDaysStep(historyData, seen, days, date);
      historyData := historyData + [BarOf(date, values)];
      seen := seen + {date};
    }
    bars := Some(historyData);
  }

  /** `bars` holds one bar per day of `seen`, each built from that day's values. */
  ghost predicate BarsOfDays(bars: seq<Bar>, seen: set<string>, days: map<string, map<string, Json>>)
  {
    && (forall d :: d in seen ==> d in days && HasPriceFields(days[d]) && BarOf(d, days[d]) in bars)
    && (forall b :: b in bars ==> b.date in seen && b.date in days && HasPriceFields(days[b.date])
                                  && b == BarOf(b.date, days[b.date]))
    && KeysDistinct(bars, BarDate)
  }

  lemma BarsOfDaysStep(bars: seq<Bar>, seen: set<string>, days: map<string, map<string, Json>>, date: string)
    requires BarsOfDays(bars, seen, days)
    requires date in days && date !in seen && HasPriceFields(days[date])
    ensures BarsOfDays(bars + [BarOf(date, days[date])], seen + {date}, days)
  {
    var bars' := bars + [BarOf(date, days[date])];
    forall i, j | 0 <= i < j < |bars'| ensures BarDate(bars'[i]) != BarDate(bars'[j]) {
      if j == |bars| {
        assert bars'[i] in bars;
      }
    }
  }

  lemma NewestKept(historyData: seq<Bar>, sorted: seq<Bar>, kept: seq<Bar>, days: map<string, map<string, Json>>)
    requires multiset(sorted) == multiset(historyData)
    requires StrictlyDescendingBy(sorted, BarDate)
    requires kept == if |sorted| <= MaxHistory then sorted else sorted[..MaxHistory]
    requires forall d :: d in days ==> HasPriceFields(days[d]) && BarOf(d, days[d]) in historyData
    requires forall b :: b in historyData ==>
               b.date in days && HasPriceFields(days[b.date]) && b == BarOf(b.date, days[b.date])
    ensures StrictlyDescendingBy(kept, BarDate)
    ensures forall b :: b in kept ==>
              b.date in days && HasPriceFields(days[b.date]) && b == BarOf(b.date, days[b.date])
    ensures forall d, b :: d in days && b in kept && BarOf(d, days[d]) !in kept ==> Less(d, b.date)
  {
    forall b | b in kept ensures b in historyData {
      assert b in sorted;
      assert b in multiset(sorted);
    }
    forall d, b | d in days && b in kept && BarOf(d, days[d]) !in kept ensures Less(d, b.date) {
      var bar := BarOf(d, days[d]);
      assert bar in multiset(historyData);
      assert bar in sorted;
      var k :| 0 <= k < |sorted| && sorted[k] == bar;
      var i :| 0 <= i < |kept| && kept[i] == b;
      assert k >= |kept|;
      assert sorted[i] == b;
    }
  }

  /** A record whose US history is an empty list is rejected by the validator,
      whatever its quote metrics. */
  lemma EmptyHistoryRejected(info: Option<map<string, Json>>, hk: Option<Json>, others: map<string, Json>)
    ensures !ValidateData(MarketRecord(Some(UsMarket(Some([]), info)), hk, others))
  {
  }
}

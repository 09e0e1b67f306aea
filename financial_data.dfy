/** The financial-statement collector: the validator, the accumulate-all
    fallback loop over the providers, and the merge that reconciles their
    overlapping reports into one deduplicated, newest-first dataset. */
module FinancialData {
  import opened Json
  import opened Lex
  import opened Sorting
  import opened Outcomes

  /** One statement for one reporting period, as a provider delivers it. */
  type Report = map<string, Json>

  /** The dict stored under `quarterly_data` or `annual_data`: report-type name to reports. */
  type Tables = map<string, seq<Report>>

  datatype ReportType = IncomeStatement | BalanceSheet | CashFlow {
    function Name(): string {
      match this
      case IncomeStatement => "income_statement"
      case BalanceSheet => "balance_sheet"
      case CashFlow => "cash_flow"
    }

    /** Position in the fixed iteration order `ReportTypes`. */
    function Index(): (i: nat)
      ensures i < |ReportTypes| && ReportTypes[i] == this
    {
      match this
      case IncomeStatement => 0
      case BalanceSheet => 1
      case CashFlow => 2
    }
  }

  /** The order in which every loop of the collector visits the report types. */
  const ReportTypes: seq<ReportType> := [IncomeStatement, BalanceSheet, CashFlow]

  datatype Granularity = Quarterly | Annual

  /** One value per report type: the three report lists of one granularity, or their sizes. */
  datatype ByType<T> = ByType(incomeStatement: T, balanceSheet: T, cashFlow: T) {
    function Get(t: ReportType): T {
      match t
      case IncomeStatement => incomeStatement
      case BalanceSheet => balanceSheet
      case CashFlow => cashFlow
    }

    /** Replaces the value for `t` and keeps the other two. */
    function Set(t: ReportType, v: T): (r: ByType<T>)
      ensures r.Get(t) == v
      ensures forall u: ReportType :: u != t ==> r.Get(u) == Get(u)
    {
      match t
      case IncomeStatement => this.(incomeStatement := v)
      case BalanceSheet => this.(balanceSheet := v)
      case CashFlow => this.(cashFlow := v)
    }
  }

  datatype Earnings = Earnings(historical: Option<seq<Json>>, upcoming: Option<seq<Json>>)

  /** The dict a financial provider adapter returns. A `None` field is a key the
      dict does not have; `others` holds the keys no modelled code reads (such as
      `collection_time`). */
  datatype FinancialRecord = FinancialRecord(
    quarterlyData: Option<Tables>,
    annualData: Option<Tables>,
    earnings: Option<Earnings>,
    keyMetrics: Option<map<string, Json>>,
    dataSource: Option<Json>,
    others: map<string, Json>)
  {
    /** The dict is empty, hence falsy. */
    predicate IsEmpty() {
      quarterlyData.None? && annualData.None? && earnings.None? && keyMetrics.None?
      && dataSource.None? && others == map[]
    }

    function Data(g: Granularity): Option<Tables> {
      if g == Quarterly then quarterlyData else annualData
    }
  }

  datatype DataQuality = DataQuality(
    numberOfSources: nat,
    sources: seq<Json>,
    quarterlyDataPoints: ByType<nat>,
    annualDataPoints: ByType<nat>,
    lastUpdate: string)

  /** The reconciled document that is persisted as `financial_data.json`. */
  datatype MergedRecord = MergedRecord(
    quarterlyData: ByType<seq<Report>>,
    annualData: ByType<seq<Report>>,
    historical: seq<Json>,
    upcoming: seq<Json>,
    keyMetrics: map<string, Json>,
    collectionTime: string,
    dataSources: seq<Json>,
    dataQuality: DataQuality)
  {
    function Data(g: Granularity): ByType<seq<Report>> {
      if g == Quarterly then quarterlyData else annualData
    }
  }

  // ---------------------------------------------------------------------------
  // What each provider record contributes

  /** `tables.get(t, [])` on a granularity that may be missing. */
  function Listed(tables: Option<Tables>, t: ReportType): seq<Report>
  {
    match tables
    case Some(m) => if t.Name() in m then m[t.Name()] else []
    case None => []
  }

  /** The reports `d` contributes to the (granularity, report type) list:
      `d[g][t]` when both keys are present, nothing otherwise. */
  function Contributed(d: FinancialRecord, g: Granularity, t: ReportType): seq<Report>
  {
    Listed(d.Data(g), t)
  }

  /** All reports of one (granularity, report type) list, record after record. */
  function Concatenated(dataList: seq<FinancialRecord>, g: Granularity, t: ReportType): seq<Report>
  {
    if dataList == [] then []
    else Concatenated(dataList[..|dataList| - 1], g, t) + Contributed(dataList[|dataList| - 1], g, t)
  }

  function Historical(dataList: seq<FinancialRecord>): seq<Json>
  {
    if dataList == [] then []
    else
      var d := dataList[|dataList| - 1];
      Historical(dataList[..|dataList| - 1])
      + (if d.earnings.Some? then d.earnings.value.historical.GetOr([]) else [])
  }

  function Upcoming(dataList: seq<FinancialRecord>): seq<Json>
  {
    if dataList == [] then []
    else
      var d := dataList[|dataList| - 1];
      Upcoming(dataList[..|dataList| - 1])
      + (if d.earnings.Some? then d.earnings.value.upcoming.GetOr([]) else [])
  }

  /** `key_metrics` after one `dict.update` per record, left to right. */
  function KeyMetrics(dataList: seq<FinancialRecord>): map<string, Json>
  {
    if dataList == [] then map[]
    else KeyMetrics(dataList[..|dataList| - 1]) + dataList[|dataList| - 1].keyMetrics.GetOr(map[])
  }

  /** `data.get('data_source', 'unknown')` of every record, in order. */
  function SourceNames(dataList: seq<FinancialRecord>): seq<Json>
  {
    if dataList == [] then []
    else SourceNames(dataList[..|dataList| - 1]) + [dataList[|dataList| - 1].dataSource.GetOr(JStr("unknown"))]
  }

  // ---------------------------------------------------------------------------
  // Identity keys

  /** `report.get('fiscalDateEnding') or report.get('Date')`: a truthy
      `fiscalDateEnding` wins, otherwise the `Date` alias is used, and the key
      is usable (truthy) iff one of the two is. */
  function KeyValue(r: Report): (v: Json)
    ensures Truthy(Get(r, "fiscalDateEnding")) ==> v == Get(r, "fiscalDateEnding")
    ensures !Truthy(Get(r, "fiscalDateEnding")) ==> v == Get(r, "Date")
    ensures Truthy(v) <==> Truthy(Get(r, "fiscalDateEnding")) || Truthy(Get(r, "Date"))
  {
    if Truthy(Get(r, "fiscalDateEnding")) then Get(r, "fiscalDateEnding") else Get(r, "Date")
  }

  /** A usable (truthy) identity key is a string. */
  predicate KeyIsText(r: Report)
  {
    Truthy(KeyValue(r)) ==> KeyValue(r).JStr?
  }

  /** Every report `d` carries has a string identity key or none. */
  ghost predicate DatesAreText(d: FinancialRecord)
  {
    forall g: Granularity, t: ReportType, r :: r in Contributed(d, g, t) ==> KeyIsText(r)
  }

  /** The identity key, or `None` when the report has no usable one: a key is
      a non-empty string taken from `fiscalDateEnding` or, failing that, `Date`. */
  function Key(r: Report): (k: Option<string>)
    ensures k.Some? <==> Truthy(KeyValue(r)) && KeyValue(r).JStr?
    ensures k.Some? ==> k.value != "" && KeyValue(r) == JStr(k.value)
    ensures k.Some? ==> Get(r, "fiscalDateEnding") == JStr(k.value) || Get(r, "Date") == JStr(k.value)
  {
    var v := KeyValue(r);
    if Truthy(v) && v.JStr? then Some(v.s) else None
  }

  function KeyOf(r: Report): string
  {
    Key(r).GetOr("")
  }

  /** The identity keys that occur in `rs`. */
  function UsableKeys(rs: seq<Report>): set<string>
  {
    if rs == [] then {}
    else
      var last := rs[|rs| - 1];
      UsableKeys(rs[..|rs| - 1]) + (if Key(last).Some? then {Key(last).value} else {})
  }

  /** The last report of `rs` whose identity key is `k`. */
  function LastWithKey(rs: seq<Report>, k: string): (r: Report)
    requires k in UsableKeys(rs)
    ensures Key(r) == Some(k)
    ensures r in rs
  {
    var last := rs[|rs| - 1];
    if Key(last) == Some(k) then last else LastWithKey(rs[..|rs| - 1], k)
  }

  /** `out` is what deduplicating `rs` by identity key (last writer wins) and
      sorting newest first makes of it. */
  ghost predicate IsReconciled(rs: seq<Report>, out: seq<Report>)
  {
    && StrictlyDescendingBy(out, KeyOf)
    && KeySet(out, KeyOf) == UsableKeys(rs)
    && forall i :: 0 <= i < |out| ==>
         Key(out[i]).Some? && Key(out[i]).value in UsableKeys(rs)
         && out[i] == LastWithKey(rs, Key(out[i]).value)
  }

  // ---------------------------------------------------------------------------
  // Validation (financial_data.py:243-264)

  ghost predicate IsValid(d: FinancialRecord)
  {
    exists g: Granularity, t: ReportType :: Contributed(d, g, t) != []
  }

  /** Whether `tables` holds a non-empty list under some report-type name. */
  method HasReports(tables: Option<Tables>, ghost g: Granularity, ghost d: FinancialRecord) returns (found: bool)
    requires tables == d.Data(g)
    ensures found <==> exists t: ReportType :: Contributed(d, g, t) != []
  {
    found := false;
    if tables.Some? {
      var i := 0;
      while i < |ReportTypes|
        invariant 0 <= i <= |ReportTypes|
        invariant forall t: ReportType :: t.Index() < i ==> Contributed(d, g, t) == []
      {
        var name := ReportTypes[i].Name();
        if name in tables.value && tables.value[name] != [] {
          assert Contributed(d, g, ReportTypes[i]) != [];
          found := true;
          break;
        }
        i := i + 1;
      }
    }
  }

  method ValidateData(data: FinancialRecord) returns (ok: bool)
    ensures data.IsEmpty() ==> !ok
    ensures ok <==> IsValid(data)
  {
    if data.IsEmpty() {
      return false;
    }
    var hasQuarterly := HasReports(data.quarterlyData, Quarterly, data);
    var hasAnnual := HasReports(data.annualData, Annual, data);
    ok := hasQuarterly || hasAnnual;
  }

  // ---------------------------------------------------------------------------
  // Deduplication and sorting of one list (financial_data.py:213-222)

  method DedupAndSort(rs: seq<Report>) returns (out: seq<Report>)
    requires forall r :: r in rs ==> KeyIsText(r)
    ensures IsReconciled(rs, out)
  {
    // `unique_reports`: the dict, with its keys in insertion order
    var unique: map<string, Report> := map[];
    var order: seq<string> := [];
    for i := 0 to |rs|
      invariant unique.Keys == UsableKeys(rs[..i])
      invariant forall k :: k in unique ==> unique[k] == LastWithKey(rs[..i], k)
      invariant forall k :: k in unique <==> k in order
      invariant forall j, j' :: 0 <= j < j' < |order| ==> order[j] != order[j']
    {
      DedupStep(rs, i);
      var k := Key(rs[i]);
      if k.Some? {
        if k.value !in unique {
          order := order + [k.value];
        }
        unique := unique[k.value := rs[i]];
      }
    }
    assert rs[..|rs|] == rs;
    var values := seq(|order|, j requires 0 <= j < |order| => unique[order[j]]);
    ValuesKeys(rs, unique, order, values);
    out := SortDescending(values, KeyOf);
    SortedValuesReconciled(rs, values, out);
  }

  /** Sorting the deduplicated values newest first completes the reconciliation. */
  lemma SortedValuesReconciled(rs: seq<Report>, values: seq<Report>, out: seq<Report>)
    requires KeysDistinct(values, KeyOf)
    requires KeySet(values, KeyOf) == UsableKeys(rs)
    requires forall v :: v in values ==>
               Key(v).Some? && Key(v).value in UsableKeys(rs) && v == LastWithKey(rs, Key(v).value)
    requires out == SortDescending(values, KeyOf)
    ensures IsReconciled(rs, out)
  {
    SortedKeySet(values, KeyOf);
    forall i | 0 <= i < |out|
      ensures Key(out[i]).Some? && Key(out[i]).value in UsableKeys(rs)
      ensures out[i] == LastWithKey(rs, Key(out[i]).value)
    {
      assert out[i] in multiset(values);
    }
  }

  /** How one more report changes the keys seen so far and the last report per key. */
  lemma DedupStep(rs: seq<Report>, i: int)
    requires 0 <= i < |rs|
    ensures UsableKeys(rs[..i + 1])
            == UsableKeys(rs[..i]) + (if Key(rs[i]).Some? then {Key(rs[i]).value} else {})
    ensures forall k :: k in UsableKeys(rs[..i + 1]) ==>
              LastWithKey(rs[..i + 1], k) == if Key(rs[i]) == Some(k) then rs[i] else LastWithKey(rs[..i], k)
  {
    assert rs[..i + 1][..i] == rs[..i];
  }

  /** The dict's values, listed in key insertion order, carry each usable key once
      and hold the last report for it. */
  lemma ValuesKeys(rs: seq<Report>, unique: map<string, Report>, order: seq<string>, values: seq<Report>)
    requires unique.Keys == UsableKeys(rs)
    requires forall k :: k in unique ==> unique[k] == LastWithKey(rs, k)
    requires forall k :: k in unique <==> k in order
    requires forall j, j' :: 0 <= j < j' < |order| ==> order[j] != order[j']
    requires |values| == |order| && forall j :: 0 <= j < |order| ==> values[j] == unique[order[j]]
    ensures KeysDistinct(values, KeyOf)
    ensures KeySet(values, KeyOf) == UsableKeys(rs)
    ensures forall v :: v in values ==>
              Key(v).Some? && Key(v).value in UsableKeys(rs) && v == LastWithKey(rs, Key(v).value)
  {
    assert forall j :: 0 <= j < |order| ==> KeyOf(values[j]) == order[j];
    forall k | k in UsableKeys(rs) ensures k in KeySet(values, KeyOf) {
      var j :| 0 <= j < |order| && order[j] == k;
      assert KeyOf(values[j]) == k;
    }
  }

  // ---------------------------------------------------------------------------
  // Properties of a reconciled list

  /** The reconciled list of `rs` is unique: the specification pins the result. */
  lemma ReconciledUnique(rs: seq<Report>, a: seq<Report>, b: seq<Report>)
    requires IsReconciled(rs, a) && IsReconciled(rs, b)
    ensures a == b
  {
    StrictlyDescendingUnique(a, b, KeyOf);
    forall i | 0 <= i < |a| ensures a[i] == b[i] {
      assert KeyOf(a[i]) == KeyOf(b[i]);
    }
  }

  /** No two reports of a reconciled list share an identity key, and none lacks one. */
  lemma ReconciledKeysDistinct(rs: seq<Report>, out: seq<Report>, i: int, j: int)
    requires IsReconciled(rs, out)
    requires 0 <= i < |out| && 0 <= j < |out| && i != j
    ensures Key(out[i]).Some? && Key(out[j]).Some?
    ensures Key(out[i]) != Key(out[j])
  {
    if i < j {
      LessIrreflexive(KeyOf(out[i]));
    } else {
      LessIrreflexive(KeyOf(out[j]));
    }
  }

  /** Every identity key of the input appears in the reconciled list, and only those do. */
  lemma ReconciledKeyAppears(rs: seq<Report>, out: seq<Report>, k: string)
    requires IsReconciled(rs, out)
    ensures k in UsableKeys(rs) <==> exists i :: 0 <= i < |out| && Key(out[i]) == Some(k)
  {
    if k in UsableKeys(rs) {
      assert k in KeySet(out, KeyOf);
      var r :| r in out && KeyOf(r) == k;
      var i :| 0 <= i < |out| && out[i] == r;
      assert Key(out[i]) == Some(k);
    }
  }

  lemma {:induction false} UsableKeysMember(rs: seq<Report>, k: string)
    ensures k in UsableKeys(rs) <==> exists i :: 0 <= i < |rs| && Key(rs[i]) == Some(k)
  {
    if rs != [] {
      var init := rs[..|rs| - 1];
      UsableKeysMember(init, k);
      if k in UsableKeys(init) {
        var i :| 0 <= i < |init| && Key(init[i]) == Some(k);
        assert rs[i] == init[i];
      }
      if exists i :: 0 <= i < |rs| && Key(rs[i]) == Some(k) {
        var i :| 0 <= i < |rs| && Key(rs[i]) == Some(k);
        if i < |rs| - 1 { assert init[i] == rs[i]; }
      }
    }
  }

  /** Last writer wins: a report whose key no later report repeats is the one kept. */
  lemma {:induction false} LastWriterWins(rs: seq<Report>, i: int)
    requires 0 <= i < |rs| && Key(rs[i]).Some?
    requires forall j :: i < j < |rs| ==> Key(rs[j]) != Key(rs[i])
    ensures Key(rs[i]).value in UsableKeys(rs)
    ensures LastWithKey(rs, Key(rs[i]).value) == rs[i]
  {
    UsableKeysMember(rs, Key(rs[i]).value);
    if i < |rs| - 1 {
      var init := rs[..|rs| - 1];
      assert init[i] == rs[i];
      LastWriterWins(init, i);
    }
  }

  /** Keys of a concatenation are the union of the parts' keys. */
  lemma {:induction false} UsableKeysAppend(a: seq<Report>, b: seq<Report>)
    ensures UsableKeys(a + b) == UsableKeys(a) + UsableKeys(b)
  {
    if b != [] {
      assert (a + b)[..|a + b| - 1] == a + b[..|b| - 1];
      UsableKeysAppend(a, b[..|b| - 1]);
    } else {
      assert a + b == a;
    }
  }

  lemma {:induction false} ConcatenatedAppend(xs: seq<FinancialRecord>, ys: seq<FinancialRecord>, g: Granularity, t: ReportType)
    ensures Concatenated(xs + ys, g, t) == Concatenated(xs, g, t) + Concatenated(ys, g, t)
  {
    if ys == [] {
      assert xs + ys == xs;
    } else {
      var zs, init, last := xs + ys, ys[..|ys| - 1], ys[|ys| - 1];
      assert zs[..|zs| - 1] == xs + init && zs[|zs| - 1] == last;
      assert ys[..|ys| - 1] == init && ys[|ys| - 1] == last;
      ConcatenatedAppend(xs, init, g, t);
      AppendAssociative(Concatenated(xs, g, t), Concatenated(init, g, t), Contributed(last, g, t));
    }
  }

  lemma AppendAssociative<T>(a: seq<T>, b: seq<T>, c: seq<T>)
    ensures (a + b) + c == a + (b + c)
  {
  }

  lemma {:induction false} ConcatenatedMember(dataList: seq<FinancialRecord>, g: Granularity, t: ReportType, r: Report)
    requires r in Concatenated(dataList, g, t)
    ensures exists d :: d in dataList && r in Contributed(d, g, t)
  {
    var n := |dataList|;
    if r in Concatenated(dataList[..n - 1], g, t) {
      ConcatenatedMember(dataList[..n - 1], g, t, r);
      var d :| d in dataList[..n - 1] && r in Contributed(d, g, t);
      assert d in dataList;
    } else {
      assert dataList[n - 1] in dataList;
    }
  }

  /** Earnings lists are plain concatenations, with no deduplication. */
  lemma {:induction false} HistoricalAppend(xs: seq<FinancialRecord>, ys: seq<FinancialRecord>)
    ensures Historical(xs + ys) == Historical(xs) + Historical(ys)
    ensures Upcoming(xs + ys) == Upcoming(xs) + Upcoming(ys)
  {
    if ys == [] {
      assert xs + ys == xs;
    } else {
      var zs, init, last := xs + ys, ys[..|ys| - 1], ys[|ys| - 1];
      assert zs[..|zs| - 1] == xs + init && zs[|zs| - 1] == last;
      HistoricalAppend(xs, init);
      var h := if last.earnings.Some? then last.earnings.value.historical.GetOr([]) else [];
      var u := if last.earnings.Some? then last.earnings.value.upcoming.GetOr([]) else [];
      AppendAssociative(Historical(xs), Historical(init), h);
      AppendAssociative(Upcoming(xs), Upcoming(init), u);
    }
  }

  /** A metric name maps to the value of the last record that reports it. */
  lemma {:induction false} KeyMetricsLastWins(dataList: seq<FinancialRecord>, i: int, k: string)
    requires 0 <= i < |dataList|
    requires dataList[i].keyMetrics.Some? && k in dataList[i].keyMetrics.value
    requires forall j :: i < j < |dataList| ==> k !in dataList[j].keyMetrics.GetOr(map[])
    ensures k in KeyMetrics(dataList)
    ensures KeyMetrics(dataList)[k] == dataList[i].keyMetrics.value[k]
  {
    if i < |dataList| - 1 {
      var init := dataList[..|dataList| - 1];
      assert init[i] == dataList[i];
      KeyMetricsLastWins(init, i, k);
    }
  }

  /** A metric name is present iff some record reports it. */
  lemma {:induction false} KeyMetricsNames(dataList: seq<FinancialRecord>, k: string)
    ensures k in KeyMetrics(dataList) <==> exists i :: 0 <= i < |dataList| && k in dataList[i].keyMetrics.GetOr(map[])
  {
    if dataList != [] {
      var init := dataList[..|dataList| - 1];
      KeyMetricsNames(init, k);
      if k in KeyMetrics(init) {
        var i :| 0 <= i < |init| && k in init[i].keyMetrics.GetOr(map[]);
        assert dataList[i] == init[i];
      }
      if exists i :: 0 <= i < |dataList| && k in dataList[i].keyMetrics.GetOr(map[]) {
        var i :| 0 <= i < |dataList| && k in dataList[i].keyMetrics.GetOr(map[]);
        if i < |dataList| - 1 { assert init[i] == dataList[i]; }
      }
    }
  }

  /** `data_sources` names every record, in order, defaulting to 'unknown'. */
  lemma {:induction false} SourceNamesAt(dataList: seq<FinancialRecord>, i: int)
    requires 0 <= i < |dataList|
    ensures |SourceNames(dataList)| == |dataList|
    ensures SourceNames(dataList)[i] == dataList[i].dataSource.GetOr(JStr("unknown"))
  {
    SourceNamesLength(dataList);
    if i < |dataList| - 1 {
      var init := dataList[..|dataList| - 1];
      assert init[i] == dataList[i];
      SourceNamesAt(init, i);
    }
  }

  lemma {:induction false} SourceNamesLength(dataList: seq<FinancialRecord>)
    ensures |SourceNames(dataList)| == |dataList|
  {
    if dataList != [] {
      SourceNamesLength(dataList[..|dataList| - 1]);
    }
  }

  // ---------------------------------------------------------------------------
  // The merge (financial_data.py:153-241)

  /** `m` is the merge of `dataList` stamped with the two clock readings. */
  ghost predicate IsMergeOf(dataList: seq<FinancialRecord>, collectionTime: string, lastUpdate: string, m: MergedRecord)
  {
    && (forall g: Granularity, t: ReportType :: IsReconciled(Concatenated(dataList, g, t), m.Data(g).Get(t)))
    && m.historical == Historical(dataList)
    && m.upcoming == Upcoming(dataList)
    && m.keyMetrics == KeyMetrics(dataList)
    && m.collectionTime == collectionTime
    && m.dataSources == SourceNames(dataList)
    && m.dataQuality == DataQuality(|dataList|, SourceNames(dataList),
                                    Sizes(m.quarterlyData), Sizes(m.annualData), lastUpdate)
  }

  function Sizes(tables: ByType<seq<Report>>): ByType<nat>
  {
    ByType(|tables.incomeStatement|, |tables.balanceSheet|, |tables.cashFlow|)
  }

  /** Extends each accumulated list with what `d` holds under granularity `g`. */
  method ExtendTables(acc: ByType<seq<Report>>, d: FinancialRecord, g: Granularity) returns (r: ByType<seq<Report>>)
    ensures forall t: ReportType :: r.Get(t) == acc.Get(t) + Contributed(d, g, t)
  {
    r := acc;
    var tables := d.Data(g);
    if tables.Some? {
      for i := 0 to |ReportTypes|
        invariant forall t: ReportType :: r.Get(t) == acc.Get(t) + (if t.Index() < i then Contributed(d, g, t) else [])
      {
        var t := ReportTypes[i];
        if t.Name() in tables.value {
          r := r.Set(t, r.Get(t) + tables.value[t.Name()]);
        }
      }
    }
  }

  /** Deduplicates and sorts each of the three lists. */
  method ReconcileTables(tables: ByType<seq<Report>>) returns (r: ByType<seq<Report>>)
    requires forall t: ReportType, x :: x in tables.Get(t) ==> KeyIsText(x)
    ensures forall t: ReportType :: IsReconciled(tables.Get(t), r.Get(t))
  {
    r := tables;
    for i := 0 to |ReportTypes|
      invariant forall t: ReportType :: t.Index() < i ==> IsReconciled(tables.Get(t), r.Get(t))
    {
      var t := ReportTypes[i];
      assert t.Index() == i;
      var sorted := DedupAndSort(tables.Get(t));
      r := r.Set(t, sorted);
    }
  }

  method MergeFinancialData(dataList: seq<FinancialRecord>, collectionTime: string, lastUpdate: string)
    returns (merged: MergedRecord)
    requires forall d :: d in dataList ==> DatesAreText(d)
    ensures IsMergeOf(dataList, collectionTime, lastUpdate, merged)
  {
    var empty := ByType([], [], []);
    var quarterly, annual := empty, empty;
    var historical: seq<Json> := [];
    var upcoming: seq<Json> := [];
    var keyMetrics: map<string, Json> := map[];
    var dataSources: seq<Json> := [];
    for i := 0 to |dataList|
      invariant forall t: ReportType :: quarterly.Get(t) == Concatenated(dataList[..i], Quarterly, t)
      invariant forall t: ReportType :: annual.Get(t) == Concatenated(dataList[..i], Annual, t)
      invariant historical == Historical(dataList[..i]) && upcoming == Upcoming(dataList[..i])
      invariant keyMetrics == KeyMetrics(dataList[..i])
      invariant dataSources == SourceNames(dataList[..i])
    {
      assert dataList[..i + 1][..i] == dataList[..i];
      var data := dataList[i];
      dataSources := dataSources + [data.dataSource.GetOr(JStr("unknown"))];
      quarterly := ExtendTables(quarterly, data, Quarterly);
      annual := ExtendTables(annual, data, Annual);
      if data.earnings.Some? {
        historical := historical + data.earnings.value.historical.GetOr([]);
        upcoming := upcoming + data.earnings.value.upcoming.GetOr([]);
      }
      if data.keyMetrics.Some? {
        keyMetrics := keyMetrics + data.keyMetrics.value;
      }
    }
    assert dataList[..|dataList|] == dataList;
    forall g: Granularity, t: ReportType, x | x in Concatenated(dataList, g, t) ensures KeyIsText(x) {
      ConcatenatedMember(dataList, g, t, x);
    }
    quarterly := ReconcileTables(quarterly);
    annual := ReconcileTables(annual);
    var quality := DataQuality(|dataList|, dataSources, Sizes(quarterly), Sizes(annual), lastUpdate);
    merged := MergedRecord(quarterly, annual, historical, upcoming, keyMetrics, collectionTime, dataSources, quality);
  }

  /** The merge specification leaves no freedom: it determines the record. */
  lemma MergeUnique(dataList: seq<FinancialRecord>, collectionTime: string, lastUpdate: string, a: MergedRecord, b: MergedRecord)
    requires IsMergeOf(dataList, collectionTime, lastUpdate, a)
    requires IsMergeOf(dataList, collectionTime, lastUpdate, b)
    ensures a == b
  {
    forall g: Granularity, t: ReportType ensures a.Data(g).Get(t) == b.Data(g).Get(t) {
      ReconciledUnique(Concatenated(dataList, g, t), a.Data(g).Get(t), b.Data(g).Get(t));
    }
    ByTypeEquality(a.Data(Quarterly), b.Data(Quarterly));
    ByTypeEquality(a.Data(Annual), b.Data(Annual));
  }

  lemma ByTypeEquality<T>(x: ByType<T>, y: ByType<T>)
    requires forall t: ReportType :: x.Get(t) == y.Get(t)
    ensures x == y
  {
    assert x.Get(IncomeStatement) == y.Get(IncomeStatement);
    assert x.Get(BalanceSheet) == y.Get(BalanceSheet);
    assert x.Get(CashFlow) == y.Get(CashFlow);
  }

  /** Merging keeps, per list, exactly the union of the dates each group of
      records brings, and for a date the later group brings, the report that
      group brings last: a later provider's report replaces an earlier one. */
  lemma MergedKeysAreUnion(xs: seq<FinancialRecord>, ys: seq<FinancialRecord>, g: Granularity, t: ReportType,
                           collectionTime: string, lastUpdate: string, m: MergedRecord)
    requires IsMergeOf(xs + ys, collectionTime, lastUpdate, m)
    ensures KeySet(m.Data(g).Get(t), KeyOf) == UsableKeys(Concatenated(xs, g, t)) + UsableKeys(Concatenated(ys, g, t))
    ensures forall k :: k in UsableKeys(Concatenated(ys, g, t)) ==>
              LastWithKey(Concatenated(ys, g, t), k) in m.Data(g).Get(t)
  {
    var a, b := Concatenated(xs, g, t), Concatenated(ys, g, t);
    ConcatenatedAppend(xs, ys, g, t);
    UsableKeysAppend(a, b);
    forall k | k in UsableKeys(b) ensures LastWithKey(b, k) in m.Data(g).Get(t) {
      var out := m.Data(g).Get(t);
      LastWithKeyAppend(a, b, k);
      ReconciledKeyAppears(a + b, out, k);
      var i :| 0 <= i < |out| && Key(out[i]) == Some(k);
      assert out[i] == LastWithKey(a + b, k);
    }
  }

  /** A key the second part brings is last brought by the second part. */
  lemma {:induction false} LastWithKeyAppend(a: seq<Report>, b: seq<Report>, k: string)
    requires k in UsableKeys(b)
    ensures k in UsableKeys(a + b)
    ensures LastWithKey(a + b, k) == LastWithKey(b, k)
  {
    UsableKeysAppend(a, b);
    var last := b[|b| - 1];
    assert (a + b)[|a + b| - 1] == last;
    if Key(last) != Some(k) {
      assert (a + b)[..|a + b| - 1] == a + b[..|b| - 1];
      LastWithKeyAppend(a, b[..|b| - 1], k);
    }
  }

  /** A date occurs in a concatenated list iff some record brings a report with it. */
  lemma {:induction false} ConcatenatedKeys(dataList: seq<FinancialRecord>, g: Granularity, t: ReportType, k: string)
    ensures k in UsableKeys(Concatenated(dataList, g, t)) <==>
              exists d :: d in dataList && k in UsableKeys(Contributed(d, g, t))
  {
    if dataList != [] {
      var init := dataList[..|dataList| - 1];
      var last := dataList[|dataList| - 1];
      ConcatenatedKeys(init, g, t, k);
      UsableKeysAppend(Concatenated(init, g, t), Contributed(last, g, t));
      assert dataList == init + [last];
    }
  }

  /** Which dates a merged list holds does not depend on the order of the records;
      only which report wins a shared date does. */
  lemma MergedKeysOrderFree(xs: seq<FinancialRecord>, ys: seq<FinancialRecord>, g: Granularity, t: ReportType,
                            collectionTime: string, lastUpdate: string, a: MergedRecord, b: MergedRecord)
    requires multiset(xs) == multiset(ys)
    requires IsMergeOf(xs, collectionTime, lastUpdate, a)
    requires IsMergeOf(ys, collectionTime, lastUpdate, b)
    ensures KeySet(a.Data(g).Get(t), KeyOf) == KeySet(b.Data(g).Get(t), KeyOf)
  {
    forall k ensures k in UsableKeys(Concatenated(xs, g, t)) <==> k in UsableKeys(Concatenated(ys, g, t)) {
      ConcatenatedKeys(xs, g, t, k);
      ConcatenatedKeys(ys, g, t, k);
      if exists d :: d in xs && k in UsableKeys(Contributed(d, g, t)) {
        var d :| d in xs && k in UsableKeys(Contributed(d, g, t));
        assert d in multiset(ys);
      }
      if exists d :: d in ys && k in UsableKeys(Contributed(d, g, t)) {
        var d :| d in ys && k in UsableKeys(Contributed(d, g, t));
        assert d in multiset(xs);
      }
    }
  }

  // ---------------------------------------------------------------------------
  // The accumulate-all collector (financial_data.py:19-52)

  /** The collector keeps a result that is not None, not empty and valid. */
  ghost predicate Accepts(o: Outcome<FinancialRecord>)
  {
    o.Returned? && o.value.Some? && !o.value.value.IsEmpty() && IsValid(o.value.value)
  }

  /** The results the collector keeps, in source order. */
  ghost function Accepted(sources: seq<Outcome<FinancialRecord>>): seq<FinancialRecord>
  {
    if sources == [] then []
    else
      var o := sources[|sources| - 1];
      Accepted(sources[..|sources| - 1]) + (if Accepts(o) then [o.value.value] else [])
  }

  /** Every provider is called (`invoked`), every accepted result is merged, and
      the merged record is returned only if saving it succeeded; `written` is the
      financial document once the run is over. */
  method Collect(sources: seq<Outcome<FinancialRecord>>, save: SaveOutcome, collectionTime: string, lastUpdate: string)
    returns (result: Option<MergedRecord>, invoked: nat, written: Document<MergedRecord>)
    requires forall o :: o in sources && o.Returned? && o.value.Some? ==> DatesAreText(o.value.value)
    ensures invoked == |sources|
    ensures result.Some? <==> Accepted(sources) != [] && save.Saved?
    ensures result.Some? ==> IsMergeOf(Accepted(sources), collectionTime, lastUpdate, result.value)
    ensures written.Holds? <==> result.Some?
    ensures written.Holds? ==> written.doc == result.value
    ensures written.Truncated? <==> Accepted(sources) != [] && save.DumpFailed?
  {
    var allFinancialData: seq<FinancialRecord> := [];
    invoked := 0;
    for i := 0 to |sources|
      invariant invoked == i
      invariant allFinancialData == Accepted(sources[..i])
      invariant forall d :: d in allFinancialData ==> DatesAreText(d)
    {
      assert sources[..i + 1][..i] == sources[..i];
      invoked := invoked + 1;
      var outcome := sources[i];
      if outcome.Raised? {
        continue;
      }
      var financialData := outcome.value;
      if financialData.Some? && !financialData.value.IsEmpty() {
        var ok := ValidateData(financialData.value);
        if ok {
          allFinancialData := allFinancialData + [financialData.value];
        }
      }
    }
    assert sources[..|sources|] == sources;
    result, written := None, Previous;
    if allFinancialData != [] {
      var mergedData := MergeFinancialData(allFinancialData, collectionTime, lastUpdate);
      written := AfterSave(save, mergedData);
      if save.Saved? {
        result := Some(mergedData);
      }
    }
  }

  /** Every accepted record is valid, so a non-empty accumulation hands the merge
      at least one report. */
  lemma {:induction false} AcceptedBringReports(sources: seq<Outcome<FinancialRecord>>)
    requires Accepted(sources) != []
    ensures exists g: Granularity, t: ReportType :: Concatenated(Accepted(sources), g, t) != []
  {
    var init := sources[..|sources| - 1];
    var o := sources[|sources| - 1];
    if Accepts(o) {
      var g: Granularity, t: ReportType :| Contributed(o.value.value, g, t) != [];
      ConcatenatedAppend(Accepted(init), [o.value.value], g, t);
      assert Concatenated([o.value.value], g, t) == Contributed(o.value.value, g, t) by {
        assert [o.value.value][..0] == [];
      }
    } else {
      assert Accepted(sources) == Accepted(init);
      AcceptedBringReports(init);
    }
  }
}

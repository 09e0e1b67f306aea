/** The read API's query logic over the persisted financial document: the
    annual and quarterly period filters and the list of available periods.
    Loading the document and the HTTP framing are not part of this module;
    `ServerError` and `NotFound` stand for the 500 and 404 answers. */
module ReadApi {
  import opened Json
  import opened Lex
  import opened Sorting
  import opened FinancialData

  /** The parts of `financial_data.json` the endpoints read: `annual_data` and
      `quarterly_data`, each `None` when the document lacks the key. */
  datatype FinancialDocument = FinancialDocument(annualData: Option<Tables>, quarterlyData: Option<Tables>)

  datatype Response = Found(tables: ByType<seq<Report>>) | NotFound | ServerError

  // ---------------------------------------------------------------------------
  // Period filters (server.py:41-103)

  /** Python's `q in s` on two strings. */
  function Contains(s: string, q: string): bool
  {
    q <= s || (s != [] && Contains(s[1..], q))
  }

  /** `q` occurs in `s` starting at position `i`. */
  ghost predicate OccursAt(s: string, q: string, i: int)
  {
    0 <= i <= |s| - |q| && s[i..i + |q|] == q
  }

  /** `Contains` finds `q` exactly when `q` occurs at some position of `s`. */
  lemma {:induction false} ContainsIsSubstring(s: string, q: string)
    ensures Contains(s, q) <==> exists i :: OccursAt(s, q, i)
  {
    if q <= s {
      assert OccursAt(s, q, 0);
    } else if s == [] {
    } else {
      ContainsIsSubstring(s[1..], q);
      if exists i :: OccursAt(s[1..], q, i) {
        var i :| OccursAt(s[1..], q, i);
        assert s[i + 1..i + 1 + |q|] == s[1..][i..i + |q|];
        assert OccursAt(s, q, i + 1);
      }
      if exists i :: OccursAt(s, q, i) {
        var i :| OccursAt(s, q, i);
        assert i != 0;
        assert s[1..][i - 1..i - 1 + |q|] == s[i..i + |q|];
        assert OccursAt(s[1..], q, i - 1);
      }
    }
  }

  /** `period in report.get('fiscalDateEnding', '')`: a substring test on a
      string, element membership on a list, key membership on a dict; `None`
      where Python raises TypeError (null, number, boolean). */
  function PeriodIn(report: Report, period: string): (b: Option<bool>)
    ensures b.None? <==> "fiscalDateEnding" in report
                         && (report["fiscalDateEnding"].JNull? || report["fiscalDateEnding"].JNum?
                             || report["fiscalDateEnding"].JBool?)
    ensures "fiscalDateEnding" !in report ==> b == Some(period == "")
    ensures "fiscalDateEnding" in report && report["fiscalDateEnding"].JStr? ==>
              b == Some(Contains(report["fiscalDateEnding"].s, period))
  {
    match (if "fiscalDateEnding" in report then report["fiscalDateEnding"] else JStr(""))
    case JStr(s) => Some(Contains(s, period))
    case JArr(items) => Some(JStr(period) in items)
    case JObj(fields) => Some(period in fields)
    case _ => None
  }

  /** The reports the filter keeps, in stored order. */
  function Matching(reports: seq<Report>, period: string): seq<Report>
  {
    if reports == [] then []
    else
      var last := reports[|reports| - 1];
      Matching(reports[..|reports| - 1], period) + (if PeriodIn(last, period) == Some(true) then [last] else [])
  }

  /** Some report makes the membership test raise. */
  ghost predicate Raises(reports: seq<Report>, period: string)
  {
    exists r :: r in reports && PeriodIn(r, period).None?
  }

  /** A report is kept iff it is stored and its `fiscalDateEnding` holds the period. */
  lemma {:induction false} MatchingMember(reports: seq<Report>, period: string, r: Report)
    ensures r in Matching(reports, period) <==> r in reports && PeriodIn(r, period) == Some(true)
  {
    if reports != [] {
      var init := reports[..|reports| - 1];
      MatchingMember(init, period, r);
      assert reports == init + [reports[|reports| - 1]];
    }
  }

  /** The filter keeps stored order: it distributes over concatenation. */
  lemma {:induction false} MatchingAppend(a: seq<Report>, b: seq<Report>, period: string)
    ensures Matching(a + b, period) == Matching(a, period) + Matching(b, period)
  {
    if b == [] {
      assert a + b == a;
    } else {
      var ab, init, last := a + b, b[..|b| - 1], b[|b| - 1];
      assert ab[..|ab| - 1] == a + init && ab[|ab| - 1] == last;
      MatchingAppend(a, init, period);
      AppendAssociative(Matching(a, period), Matching(init, period),
                        if PeriodIn(last, period) == Some(true) then [last] else []);
    }
  }

  /** Filters one stored list; `None` when the membership test raises. */
  method FilterReports(reports: seq<Report>, period: string) returns (selected: Option<seq<Report>>)
    ensures selected.None? <==> Raises(reports, period)
    ensures selected.Some? ==> selected.value == Matching(reports, period)
  {
    var kept: seq<Report> := [];
    for j := 0 to |reports|
      invariant kept == Matching(reports[..j], period)
      invariant forall r :: r in reports[..j] ==> PeriodIn(r, period).Some?
    {
      assert reports[..j + 1][..j] == reports[..j];
      var inPeriod := PeriodIn(reports[j], period);
      if inPeriod.None? {
        return None;
      }
      if inPeriod.value {
        kept := kept + [reports[j]];
      }
    }
    assert reports[..|reports|] == reports;
    selected := Some(kept);
  }

  /** The loop over the three report types; `None` when the membership test raises. */
  method FilterTables(tables: Option<Tables>, period: string) returns (result: Option<ByType<seq<Report>>>)
    ensures result.None? <==> exists t: ReportType :: Raises(Listed(tables, t), period)
    ensures result.Some? ==> forall t: ReportType :: result.value.Get(t) == Matching(Listed(tables, t), period)
  {
    var filtered: ByType<seq<Report>> := ByType([], [], []);
    for i := 0 to |ReportTypes|
      invariant forall t: ReportType :: t.Index() < i ==> !Raises(Listed(tables, t), period)
      invariant forall t: ReportType :: t.Index() < i ==> filtered.Get(t) == Matching(Listed(tables, t), period)
    {
      var t := ReportTypes[i];
      assert t.Index() == i;
      var selected := FilterReports(Listed(tables, t), period);
      if selected.None? {
        return None;
      }
      filtered := filtered.Set(t, selected.value);
    }
    result := Some(filtered);
  }

  /** Filters one granularity's three lists; 404 when all three come out empty,
      500 when the membership test raises on some stored report. */
  method QueryPeriod(tables: Option<Tables>, period: string) returns (resp: Response)
    ensures resp.ServerError? <==> exists t: ReportType :: Raises(Listed(tables, t), period)
    ensures resp.NotFound? <==>
              (forall t: ReportType :: !Raises(Listed(tables, t), period))
              && (forall t: ReportType :: Matching(Listed(tables, t), period) == [])
    ensures resp.Found? ==> forall t: ReportType :: resp.tables.Get(t) == Matching(Listed(tables, t), period)
  {
    var result := FilterTables(tables, period);
    if result.None? {
      return ServerError;
    }
    AnyNonEmpty(result.value);
    if result.value.incomeStatement == [] && result.value.balanceSheet == [] && result.value.cashFlow == [] {
      resp := NotFound;
    } else {
      resp := Found(result.value);
    }
  }

  /** `any(result.values())` on the three lists. */
  lemma AnyNonEmpty<T>(result: ByType<seq<T>>)
    ensures (result.incomeStatement == [] && result.balanceSheet == [] && result.cashFlow == [])
            <==> forall t: ReportType :: result.Get(t) == []
  {
    if !(result.incomeStatement == [] && result.balanceSheet == [] && result.cashFlow == []) {
      if result.incomeStatement != [] { assert result.Get(IncomeStatement) != []; }
      else if result.balanceSheet != [] { assert result.Get(BalanceSheet) != []; }
      else { assert result.Get(CashFlow) != []; }
    }
  }

  method GetAnnualFinancialData(doc: FinancialDocument, fiscalYear: string) returns (resp: Response)
    ensures resp.ServerError? <==> exists t: ReportType :: Raises(Listed(doc.annualData, t), fiscalYear)
    ensures resp.NotFound? <==>
              (forall t: ReportType :: !Raises(Listed(doc.annualData, t), fiscalYear))
              && (forall t: ReportType :: Matching(Listed(doc.annualData, t), fiscalYear) == [])
    ensures resp.Found? ==>
              forall t: ReportType :: resp.tables.Get(t) == Matching(Listed(doc.annualData, t), fiscalYear)
  {
    resp := QueryPeriod(doc.annualData, fiscalYear);
  }

  method GetQuarterlyFinancialData(doc: FinancialDocument, yearQuarter: string) returns (resp: Response)
    ensures resp.ServerError? <==> exists t: ReportType :: Raises(Listed(doc.quarterlyData, t), yearQuarter)
    ensures resp.NotFound? <==>
              (forall t: ReportType :: !Raises(Listed(doc.quarterlyData, t), yearQuarter))
              && (forall t: ReportType :: Matching(Listed(doc.quarterlyData, t), yearQuarter) == [])
    ensures resp.Found? ==>
              forall t: ReportType :: resp.tables.Get(t) == Matching(Listed(doc.quarterlyData, t), yearQuarter)
  {
    resp := QueryPeriod(doc.quarterlyData, yearQuarter);
  }

  // ---------------------------------------------------------------------------
  // Available periods (server.py:105-134)

  datatype PeriodsResponse = Periods(annualPeriods: seq<string>, quarterlyPeriods: seq<string>) | PeriodsError

  /** The `fiscalDateEnding` values stored in one granularity's three lists. */
  ghost function PeriodValues(tables: Option<Tables>): set<Json>
  {
    set t, r | t in ReportTypes && r in Listed(tables, t) && "fiscalDateEnding" in r :: r["fiscalDateEnding"]
  }

  function Identity(s: string): string
  {
    s
  }

  /** The `fiscalDateEnding` values stored in one list. */
  ghost function ListedPeriods(reports: seq<Report>): set<Json>
  {
    set r | r in reports && "fiscalDateEnding" in r :: r["fiscalDateEnding"]
  }

  /** Adds every stored `fiscalDateEnding` value of one granularity to a set. */
  method CollectPeriods(tables: Option<Tables>) returns (periods: set<Json>)
    ensures periods == PeriodValues(tables)
  {
    periods := {};
    for i := 0 to |ReportTypes|
      invariant periods == set t, r | t in ReportTypes[..i] && r in Listed(tables, t) && "fiscalDateEnding" in r
                                     :: r["fiscalDateEnding"]
    {
      var t := ReportTypes[i];
      ghost var before := periods;
      periods := AddPeriods(periods, Listed(tables, t));
      assert ReportTypes[..i + 1] == ReportTypes[..i] + [t];
    }
    assert ReportTypes[..|ReportTypes|] == ReportTypes;
  }

  /** The inner loop: `periods.add(report['fiscalDateEnding'])` for each report that has one. */
  method AddPeriods(periods: set<Json>, reports: seq<Report>) returns (r: set<Json>)
    ensures r == periods + ListedPeriods(reports)
  {
    r := periods;
    for j := 0 to |reports|
      invariant r == periods + ListedPeriods(reports[..j])
    {
      assert reports[..j + 1] == reports[..j] + [reports[j]];
      if "fiscalDateEnding" in reports[j] {
        r := r + {reports[j]["fiscalDateEnding"]};
      }
    }
    assert reports[..|reports|] == reports;
  }

  /** `sorted(list(periods), reverse=True)`; `None` when a value is not a string. */
  method SortPeriods(periods: set<Json>) returns (sorted: Option<seq<string>>)
    ensures sorted.None? <==> exists v :: v in periods && !v.JStr?
    ensures sorted.Some? ==> StrictlyDescendingBy(sorted.value, Identity)
    ensures sorted.Some? ==> forall s :: s in sorted.value <==> JStr(s) in periods
  {
    var list: seq<string> := [];
    var rest := periods;
    while rest != {}
      invariant rest <= periods
      invariant forall v :: v in periods && v !in rest ==> v.JStr?
      invariant forall s :: s in list <==> JStr(s) in periods && JStr(s) !in rest
      invariant KeysDistinct(list, Identity)
      decreases rest
    {
      var v :| v in rest;
      if !v.JStr? {
        return None;
      }
      forall i, j | 0 <= i < j < |list + [v.s]| ensures (list + [v.s])[i] != (list + [v.s])[j] {
        if j == |list| { assert (list + [v.s])[i] in list; }
      }
      list := list + [v.s];
      rest := rest - {v};
    }
    var r := SortDescending(list, Identity);
    forall s ensures s in r <==> s in list {
      assert s in r <==> s in multiset(r);
      assert s in list <==> s in multiset(list);
    }
    sorted := Some(r);
  }

  /** Each granularity's periods come from its own lists only; 500 when a stored
      value cannot be sorted as a string. */
  method GetAvailablePeriods(doc: FinancialDocument) returns (resp: PeriodsResponse)
    ensures resp.PeriodsError? <==>
              exists v :: (v in PeriodValues(doc.annualData) || v in PeriodValues(doc.quarterlyData)) && !v.JStr?
    ensures resp.Periods? ==>
              && StrictlyDescendingBy(resp.annualPeriods, Identity)
              && StrictlyDescendingBy(resp.quarterlyPeriods, Identity)
              && (forall s :: s in resp.annualPeriods <==> JStr(s) in PeriodValues(doc.annualData))
              && (forall s :: s in resp.quarterlyPeriods <==> JStr(s) in PeriodValues(doc.quarterlyData))
  {
    var annualPeriods := CollectPeriods(doc.annualData);
    var quarterlyPeriods := CollectPeriods(doc.quarterlyData);
    var annual := SortPeriods(annualPeriods);
    var quarterly := SortPeriods(quarterlyPeriods);
    if annual.None? || quarterly.None? {
      resp := PeriodsError;
    } else {
      resp := Periods(annual.value, quarterly.value);
    }
  }

  /** A strictly descending list names each period once. */
  lemma PeriodsDistinct(periods: seq<string>, i: int, j: int)
    requires StrictlyDescendingBy(periods, Identity)
    requires 0 <= i < j < |periods|
    ensures periods[i] != periods[j]
  {
    LessIrreflexive(periods[i]);
  }

  const Dec2023: Report := map["fiscalDateEnding" := JStr("2023-12-31")]
  const Sep2023: Report := map["fiscalDateEnding" := JStr("2023-09-30")]
  const Dec2022: Report := map["fiscalDateEnding" := JStr("2022-12-31")]

  /** Three dated annual income statements: a query for a year keeps the two
      reports of that year in stored order. */
  lemma YearQueryExample(doc: FinancialDocument, year: string)
    requires doc.annualData == Some(map["income_statement" := [Dec2023, Sep2023, Dec2022]])
    requires year == "2023"
    ensures Matching(Listed(doc.annualData, IncomeStatement), year) == [Dec2023, Sep2023]
  {
    ExampleListed(doc);
    ExampleMembership(year, "2099");
    FilterThree(Dec2023, Sep2023, Dec2022, year);
  }

  /** On the same document a year with no reports raises nowhere and matches
      nothing in any list. */
  lemma MissingYearExample(doc: FinancialDocument, year: string)
    requires doc.annualData == Some(map["income_statement" := [Dec2023, Sep2023, Dec2022]])
    requires year == "2099"
    ensures forall t: ReportType :: !Raises(Listed(doc.annualData, t), year)
    ensures forall t: ReportType :: Matching(Listed(doc.annualData, t), year) == []
  {
    ExampleListed(doc);
    ExampleMembership("2023", year);
    FilterThree(Dec2023, Sep2023, Dec2022, year);
    ExampleNeverRaises(doc, year);
  }

  lemma ExampleNeverRaises(doc: FinancialDocument, period: string)
    requires doc.annualData == Some(map["income_statement" := [Dec2023, Sep2023, Dec2022]])
    ensures forall t: ReportType :: !Raises(Listed(doc.annualData, t), period)
  {
    ExampleListed(doc);
    forall t: ReportType ensures !Raises(Listed(doc.annualData, t), period) {
      TextDatesNeverRaise(Listed(doc.annualData, t), period);
    }
  }

  /** So the annual endpoint answers that query with 404. */
  method MissingYearResponse(doc: FinancialDocument, year: string) returns (resp: Response)
    requires doc.annualData == Some(map["income_statement" := [Dec2023, Sep2023, Dec2022]])
    requires year == "2099"
    ensures resp == NotFound
  {
    resp := GetAnnualFinancialData(doc, year);
    MissingYearExample(doc, year);
  }

  /** Stored reports whose `fiscalDateEnding` is a string or absent never make
      the filter fail. */
  lemma TextDatesNeverRaise(reports: seq<Report>, period: string)
    requires forall r: Report :: r in reports && "fiscalDateEnding" in r ==> r["fiscalDateEnding"].JStr?
    ensures !Raises(reports, period)
  {
  }

  lemma ExampleListed(doc: FinancialDocument)
    requires doc.annualData == Some(map["income_statement" := [Dec2023, Sep2023, Dec2022]])
    ensures Listed(doc.annualData, IncomeStatement) == [Dec2023, Sep2023, Dec2022]
    ensures Listed(doc.annualData, BalanceSheet) == [] && Listed(doc.annualData, CashFlow) == []
  {
  }

  lemma FilterThree(r1: Report, r2: Report, r3: Report, period: string)
    ensures Matching([r1, r2, r3], period)
            == (if PeriodIn(r1, period) == Some(true) then [r1] else [])
             + (if PeriodIn(r2, period) == Some(true) then [r2] else [])
             + (if PeriodIn(r3, period) == Some(true) then [r3] else [])
  {
    assert [r1, r2, r3] == [r1] + [r2] + [r3];
    MatchingSingle(r1, period);
    MatchingSingle(r2, period);
    MatchingSingle(r3, period);
    MatchingAppend([r1], [r2], period);
    MatchingAppend([r1] + [r2], [r3], period);
  }

  lemma MatchingSingle(r: Report, period: string)
    ensures Matching([r], period) == if PeriodIn(r, period) == Some(true) then [r] else []
  {
    assert [r][..0] == [];
  }

  lemma ExampleMembership(year: string, otherYear: string)
    requires year == "2023" && otherYear == "2099"
    ensures PeriodIn(Dec2023, year) == Some(true) && PeriodIn(Sep2023, year) == Some(true)
    ensures PeriodIn(Dec2022, year) == Some(false)
    ensures PeriodIn(Dec2023, otherYear) == Some(false) && PeriodIn(Sep2023, otherYear) == Some(false)
    ensures PeriodIn(Dec2022, otherYear) == Some(false)
  {
    DatedMembership(Dec2023, "2023-12-31", year);
    DatedMembership(Sep2023, "2023-09-30", year);
    DatedMembership(Dec2022, "2022-12-31", year);
    DatedMembership(Dec2023, "2023-12-31", otherYear);
    DatedMembership(Sep2023, "2023-09-30", otherYear);
    DatedMembership(Dec2022, "2022-12-31", otherYear);
    YearPresent();
    Dec2022Lacks2023();
    DatesLack2099(otherYear);
  }

  lemma YearPresent()
    ensures Contains("2023-12-31", "2023") && Contains("2023-09-30", "2023")
  {
    assert "2023" <= "2023-12-31" && "2023" <= "2023-09-30";
  }

  /** A report dated by a string matches exactly the substrings of its date. */
  lemma DatedMembership(r: Report, date: string, period: string)
    requires r == map["fiscalDateEnding" := JStr(date)]
    ensures PeriodIn(r, period) == Some(Contains(date, period))
  {
  }

  lemma Dec2022Lacks2023()
    ensures !Contains("2022-12-31", "2023")
  {
    YearAbsent("2022-12-31", "2023", 3);
  }

  /** None of the three example dates contains `2099`: its second character
      `0` is never followed two places later by `9`. */
  lemma DatesLack2099(year: string)
    requires year == "2099"
    ensures !Contains("2022-12-31", year) && !Contains("2023-12-31", year) && !Contains("2023-09-30", year)
  {
    YearAbsent("2022-12-31", year, 2);
    YearAbsent("2023-12-31", year, 2);
    YearAbsent("2023-09-30", year, 2);
  }

  /** A four-character year is absent from `date` when, wherever its first
      character occurs, its `k`-th character does not follow. */
  lemma YearAbsent(date: string, year: string, k: nat)
    requires |year| == 4 && 0 < k < 4
    requires forall i :: 0 <= i < |date| && date[i] == year[0] ==> i + k >= |date| || date[i + k] != year[k]
    ensures !Contains(date, year)
  {
    forall i | 0 <= i < |date| && date[i] == year[0] ensures !(year <= date[i..]) {
      if i + k < |date| { assert date[i..][k] == date[i + k]; }
    }
    NotContained(date, year);
  }

  /** `q` is not in `s` when it starts at no position of `s`. */
  lemma {:induction false} NotContained(s: string, q: string)
    requires q != []
    requires forall i :: 0 <= i < |s| && s[i] == q[0] ==> !(q <= s[i..])
    ensures !Contains(s, q)
  {
    if s != [] {
      assert s[0] != q[0] || !(q <= s[0..]);
      forall i | 0 <= i < |s[1..]| && s[1..][i] == q[0] ensures !(q <= s[1..][i..]) {
        assert s[1..][i..] == s[i + 1..];
      }
      NotContained(s[1..], q);
    }
  }
}

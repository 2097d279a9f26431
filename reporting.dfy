/** The data side of `handleExportPDF`: the refusal on an empty list, the
    summary figures, the department detail table and the insight lines
    handed to the PDF renderer. */
module Reporting {
  import opened Entities
  import opened Seqs
  import opened Scoring
  import opened Aggregation
  import opened Ranking

  datatype Summary = Summary(
    totalDocuments: nat,
    totalPendingActionPoints: nat,
    totalUsers: nat,
    totalDepartments: nat,
    overloadedDepartments: nat,
    disengagedDepartments: nat)

  /** Everything the export hands to the renderer apart from the title, the
      date and the styling. */
  datatype Report = Report(
    summary: Summary,
    summaryTable: seq<seq<string>>,
    details: seq<seq<string>>,
    insights: seq<string>)

  /** `alert('No data available to export')` or a finished report. */
  datatype ExportOutcome = NoDataToExport | Exported(report: Report)

  function PendingOf(d: DepartmentEngagement): nat
  {
    d.pendingActionPoints
  }

  function UsersOf(d: DepartmentEngagement): nat
  {
    d.totalUsers
  }

  /** `d => d.status === st`. */
  function HasStatus(st: Status): DepartmentEngagement -> bool
  {
    (d: DepartmentEngagement) => d.status == st
  }

  /** The positions of the departments with status `st`. */
  ghost function StatusPositions(data: seq<DepartmentEngagement>, st: Status): set<int>
  {
    set i | 0 <= i < |data| && data[i].status == st
  }

  ghost predicate HasAny(data: seq<DepartmentEngagement>, st: Status)
  {
    exists i :: 0 <= i < |data| && data[i].status == st
  }

  /** The summary figures: three `reduce` sums, the length, and two
      `filter(...).length` counts. No department is both overloaded and
      disengaged, so the two counts never exceed the number of departments. */
  function Summarize(data: seq<DepartmentEngagement>): (s: Summary)
    ensures s.totalDocuments == SumOf(data, DocumentsOf)
    ensures s.totalPendingActionPoints == SumOf(data, PendingOf)
    ensures s.totalUsers == SumOf(data, UsersOf)
    ensures s.totalDepartments == |data|
    ensures s.overloadedDepartments == |StatusPositions(data, Overloaded)|
    ensures s.disengagedDepartments == |StatusPositions(data, Disengaged)|
    ensures s.overloadedDepartments + s.disengagedDepartments <= s.totalDepartments
  {
    var overloaded := Filter(data, HasStatus(Overloaded));
    var disengaged := Filter(data, HasStatus(Disengaged));
    FilterCountsPositions(data, HasStatus(Overloaded));
    assert Positions(data, HasStatus(Overloaded)) == StatusPositions(data, Overloaded);
    FilterCountsPositions(data, HasStatus(Disengaged));
    assert Positions(data, HasStatus(Disengaged)) == StatusPositions(data, Disengaged);
    var flagged := (d: DepartmentEngagement) => d.status == Overloaded || d.status == Disengaged;
    FilterDisjointUnion(data, HasStatus(Overloaded), HasStatus(Disengaged), flagged);
    Summary(
      SumOf(data, DocumentsOf), SumOf(data, PendingOf), SumOf(data, UsersOf),
      |data|, |overloaded|, |disengaged|)
  }

  /** The decimal digit `d`. */
  function Digit(d: nat): (c: char)
    requires d < 10
    ensures '0' <= c <= '9' && (c as int - '0' as int) == d
  {
    ('0' as int + d) as char
  }

  predicate AllDigits(s: string)
  {
    forall i :: 0 <= i < |s| ==> '0' <= s[i] <= '9'
  }

  /** `n.toString()` for a count: its decimal digits, without leading zeros. */
  function NatToString(n: nat): (s: string)
    ensures |s| >= 1 && AllDigits(s)
    ensures n == 0 <==> s == "0"
    ensures s[0] == '0' ==> n == 0
  {
    if n < 10 then [Digit(n)] else NatToString(n / 10) + [Digit(n % 10)]
  }

  /** The number a string of decimal digits denotes. */
  function DecimalValue(s: string): nat
    requires AllDigits(s)
  {
    if s == [] then 0 else DecimalValue(s[..|s| - 1]) * 10 + (s[|s| - 1] as int - '0' as int)
  }

  /** Reading the digits of a count gives the count back. */
  lemma {:induction false} NatToStringRoundTrip(n: nat)
    ensures DecimalValue(NatToString(n)) == n
  {
    if n >= 10 {
      NatToStringRoundTrip(n / 10);
      var s := NatToString(n);
      assert s[..|s| - 1] == NatToString(n / 10);
    }
  }

  /** `engagementScore.toString()`. Every score the engine produces is a
      whole number of hundredths, and for those this is the text JavaScript
      prints: the integer part, then a point and one or two decimals unless
      they are zero, without trailing zeros. */
  function ScoreText(score: real): (text: string)
    ensures |text| > 0 && (text[0] == '-' <==> score < 0.0)
    ensures 0.0 <= score ==>
      && AllDigits(WholePart(text)) && AllDigits(FractionPart(text)) && |FractionPart(text)| <= 2
      && (FractionPart(text) != [] ==> FractionPart(text)[|FractionPart(text)| - 1] != '0')
  {
    var hundredths := (score * 100.0).Floor;
    if hundredths < 0 then "-" + HundredthsText(-hundredths) else HundredthsText(hundredths)
  }

  /** The text of `h` hundredths: the whole part in decimal, then a point
      and the shortest run of one or two decimals, or no point at all when
      there are no cents. */
  function HundredthsText(h: nat): (text: string)
    ensures |text| > 0 && '0' <= text[0] <= '9'
    ensures WholePart(text) == NatToString(h / 100)
    ensures AllDigits(FractionPart(text)) && |FractionPart(text)| <= 2
    ensures FractionPart(text) == [] <==> h % 100 == 0
    ensures FractionPart(text) != [] ==> FractionPart(text)[|FractionPart(text)| - 1] != '0'
  {
    var whole, cents := NatToString(h / 100), h % 100;
    var fraction := if cents % 10 == 0 then [Digit(cents / 10)] else [Digit(cents / 10), Digit(cents % 10)];
    SplitAtPoint(whole, fraction);
    if cents == 0 then whole else whole + "." + fraction
  }

  /** The digits before the first `.`. */
  function WholePart(s: string): string
  {
    if s == [] || s[0] == '.' then [] else [s[0]] + WholePart(s[1..])
  }

  /** The text after the first `.`, empty if there is none. */
  function FractionPart(s: string): string
  {
    if s == [] then [] else if s[0] == '.' then s[1..] else FractionPart(s[1..])
  }

  lemma {:induction false} SplitAtPoint(whole: string, fraction: string)
    requires AllDigits(whole)
    ensures WholePart(whole) == whole && FractionPart(whole) == []
    ensures WholePart(whole + "." + fraction) == whole && FractionPart(whole + "." + fraction) == fraction
  {
    if whole != [] {
      SplitAtPoint(whole[1..], fraction);
      assert (whole + "." + fraction)[1..] == whole[1..] + "." + fraction;
    } else {
      assert whole + "." + fraction == ['.'] + fraction;
    }
  }

  function Pow10(k: nat): (p: real)
    ensures p >= 1.0
  {
    if k == 0 then 1.0 else 10.0 * Pow10(k - 1)
  }

  /** The value of a numeral `w` or `w.f` in decimal notation. */
  function NumeralValue(s: string): real
    requires AllDigits(WholePart(s)) && AllDigits(FractionPart(s))
  {
    var fraction := FractionPart(s);
    DecimalValue(WholePart(s)) as real + DecimalValue(fraction) as real / Pow10(|fraction|)
  }

  /** The text of a non-negative score reads back as the score itself. */
  lemma ScoreTextRoundTrip(score: real)
    requires 0.0 <= score && WholeHundredths(score)
    ensures AllDigits(WholePart(ScoreText(score))) && AllDigits(FractionPart(ScoreText(score)))
    ensures NumeralValue(ScoreText(score)) == score
  {
    var h := (score * 100.0).Floor;
    assert h as real == score * 100.0;
    HundredthsTextRoundTrip(h);
  }

  lemma HundredthsTextRoundTrip(h: nat)
    ensures AllDigits(WholePart(HundredthsText(h))) && AllDigits(FractionPart(HundredthsText(h)))
    ensures NumeralValue(HundredthsText(h)) == h as real / 100.0
  {
    var whole, cents := NatToString(h / 100), h % 100;
    NatToStringRoundTrip(h / 100);
    WholeAndCents(h);
    if cents == 0 {
      SplitAtPoint(whole, "");
    } else if cents % 10 == 0 {
      OneDecimal(cents);
      NumeralWithFraction(whole, [Digit(cents / 10)]);
    } else {
      TwoDecimals(cents);
      NumeralWithFraction(whole, [Digit(cents / 10), Digit(cents % 10)]);
    }
  }

  lemma WholeAndCents(h: nat)
    ensures h as real / 100.0 == (h / 100) as real + (h % 100) as real / 100.0
  {
    assert h == (h / 100) * 100 + h % 100;
  }

  lemma NumeralWithFraction(whole: string, fraction: string)
    requires AllDigits(whole) && AllDigits(fraction)
    ensures AllDigits(WholePart(whole + "." + fraction)) && AllDigits(FractionPart(whole + "." + fraction))
    ensures NumeralValue(whole + "." + fraction) == DecimalValue(whole) as real + DecimalValue(fraction) as real / Pow10(|fraction|)
  {
    SplitAtPoint(whole, fraction);
  }

  lemma OneDecimal(cents: nat)
    requires cents < 100 && cents % 10 == 0
    ensures AllDigits([Digit(cents / 10)])
    ensures DecimalValue([Digit(cents / 10)]) as real / Pow10(1) == cents as real / 100.0
  {
    var fraction := [Digit(cents / 10)];
    assert fraction[..0] == [];
    assert DecimalValue(fraction) == cents / 10;
  }

  lemma TwoDecimals(cents: nat)
    requires cents < 100
    ensures AllDigits([Digit(cents / 10), Digit(cents % 10)])
    ensures DecimalValue([Digit(cents / 10), Digit(cents % 10)]) as real / Pow10(2) == cents as real / 100.0
  {
    var fraction := [Digit(cents / 10), Digit(cents % 10)];
    assert fraction[..1] == [Digit(cents / 10)] && fraction[..1][..0] == [];
    assert DecimalValue(fraction[..1]) == cents / 10;
    assert DecimalValue(fraction) == (cents / 10) * 10 + cents % 10;
  }

  /** The status as the source spells it. */
  function StatusName(st: Status): string
  {
    match st
    case Overloaded => "overloaded"
    case Normal => "normal"
    case Disengaged => "disengaged"
  }

  function UpperChar(c: char): char
  {
    if 'a' <= c <= 'z' then (c as int - 'a' as int + 'A' as int) as char else c
  }

  /** `toUpperCase()` on ASCII text. */
  function ToUpperCase(s: string): (r: string)
    ensures |r| == |s|
    ensures forall i :: 0 <= i < |s| ==>
      if 'a' <= s[i] <= 'z' then 'A' <= r[i] <= 'Z' && r[i] as int - 'A' as int == s[i] as int - 'a' as int
      else r[i] == s[i]
  {
    seq(|s|, i requires 0 <= i < |s| => UpperChar(s[i]))
  }

  /** Reads a status label back. */
  function StatusOfLabel(text: string): Option<Status>
  {
    if text == "OVERLOADED" then Some(Overloaded)
    else if text == "NORMAL" then Some(Normal)
    else if text == "DISENGAGED" then Some(Disengaged)
    else None
  }

  /** The status column: `dept.status.toUpperCase()`. These are the three
      labels the renderer colours by, and the label read back names the
      status, so distinct statuses get distinct labels. */
  function StatusLabel(st: Status): (text: string)
    ensures st == Overloaded ==> text == "OVERLOADED"
    ensures st == Normal ==> text == "NORMAL"
    ensures st == Disengaged ==> text == "DISENGAGED"
    ensures StatusOfLabel(text) == Some(st)
  {
    ToUpperCase(StatusName(st))
  }

  /** One detail row: name, documents, pending action points, users, score, status. */
  function DetailRow(d: DepartmentEngagement): seq<string>
  {
    [ d.departmentName,
      NatToString(d.totalDocuments),
      NatToString(d.pendingActionPoints),
      NatToString(d.totalUsers),
      ScoreText(d.engagementScore),
      StatusLabel(d.status) ]
  }

  /** `departmentData.map(dept => [...])`: one row per department, in the
      given (ranked) order, and each row reads back as its department. */
  function DetailRows(data: seq<DepartmentEngagement>): (rows: seq<seq<string>>)
    ensures |rows| == |data|
    ensures forall i :: 0 <= i < |data| ==> ReadsBackAs(rows[i], data[i])
  {
    EveryRowReadsBack(data);
    seq(|data|, i requires 0 <= i < |data| => DetailRow(data[i]))
  }

  /** `row` has six cells that read back as the department's name, its
      three counts, its score (when it is one the engine produces:
      non-negative, whole hundredths) and its status. */
  ghost predicate ReadsBackAs(row: seq<string>, d: DepartmentEngagement)
  {
    && |row| == 6 && row[0] == d.departmentName
    && AllDigits(row[1]) && DecimalValue(row[1]) == d.totalDocuments
    && AllDigits(row[2]) && DecimalValue(row[2]) == d.pendingActionPoints
    && AllDigits(row[3]) && DecimalValue(row[3]) == d.totalUsers
    && (0.0 <= d.engagementScore && WholeHundredths(d.engagementScore) ==>
          AllDigits(WholePart(row[4])) && AllDigits(FractionPart(row[4]))
          && NumeralValue(row[4]) == d.engagementScore)
    && StatusOfLabel(row[5]) == Some(d.status)
  }

  lemma EveryRowReadsBack(data: seq<DepartmentEngagement>)
    ensures forall i :: 0 <= i < |data| ==> ReadsBackAs(DetailRow(data[i]), data[i])
  {
    forall i | 0 <= i < |data| ensures ReadsBackAs(DetailRow(data[i]), data[i]) {
      DetailRowReadsBack(data[i]);
    }
  }

  /** A detail row loses none of its department's figures. */
  lemma DetailRowReadsBack(d: DepartmentEngagement)
    ensures ReadsBackAs(DetailRow(d), d)
  {
    var row := DetailRow(d);
    assert row[1] == NatToString(d.totalDocuments) && row[2] == NatToString(d.pendingActionPoints);
    assert row[3] == NatToString(d.totalUsers) && row[4] == ScoreText(d.engagementScore);
    assert row[5] == StatusLabel(d.status);
    NatToStringRoundTrip(d.totalDocuments);
    NatToStringRoundTrip(d.pendingActionPoints);
    NatToStringRoundTrip(d.totalUsers);
    if 0.0 <= d.engagementScore && WholeHundredths(d.engagementScore) {
      ScoreTextRoundTrip(d.engagementScore);
    }
  }

  /** The six rows of the summary table: a metric name and its value in
      decimal digits. */
  function SummaryTable(s: Summary): (table: seq<seq<string>>)
    ensures |table| == 6
    ensures forall i :: 0 <= i < 6 ==> |table[i]| == 2 && AllDigits(table[i][1])
    ensures table[0][0] == "Total Documents" && table[1][0] == "Total Pending Action Points"
    ensures table[2][0] == "Total Users" && table[3][0] == "Total Departments"
    ensures table[4][0] == "Overloaded Departments" && table[5][0] == "Disengaged Departments"
  {
    [ ["Total Documents", NatToString(s.totalDocuments)],
      ["Total Pending Action Points", NatToString(s.totalPendingActionPoints)],
      ["Total Users", NatToString(s.totalUsers)],
      ["Total Departments", NatToString(s.totalDepartments)],
      ["Overloaded Departments", NatToString(s.overloadedDepartments)],
      ["Disengaged Departments", NatToString(s.disengagedDepartments)] ]
  }

  /** Each figure of the summary table reads back as the summary's value. */
  lemma SummaryTableReadsBack(s: Summary)
    ensures DecimalValue(SummaryTable(s)[0][1]) == s.totalDocuments
    ensures DecimalValue(SummaryTable(s)[1][1]) == s.totalPendingActionPoints
    ensures DecimalValue(SummaryTable(s)[2][1]) == s.totalUsers
    ensures DecimalValue(SummaryTable(s)[3][1]) == s.totalDepartments
    ensures DecimalValue(SummaryTable(s)[4][1]) == s.overloadedDepartments
    ensures DecimalValue(SummaryTable(s)[5][1]) == s.disengagedDepartments
  {
    var table := SummaryTable(s);
    assert table[0][1] == NatToString(s.totalDocuments);
    assert table[1][1] == NatToString(s.totalPendingActionPoints);
    assert table[2][1] == NatToString(s.totalUsers);
    assert table[3][1] == NatToString(s.totalDepartments);
    assert table[4][1] == NatToString(s.overloadedDepartments);
    assert table[5][1] == NatToString(s.disengagedDepartments);
    NatToStringRoundTrip(s.totalDocuments);
    NatToStringRoundTrip(s.totalPendingActionPoints);
    NatToStringRoundTrip(s.totalUsers);
    NatToStringRoundTrip(s.totalDepartments);
    NatToStringRoundTrip(s.overloadedDepartments);
    NatToStringRoundTrip(s.disengagedDepartments);
  }

  const OverloadedInsight: string := "Overloaded Departments: "
  const DisengagedInsight: string := "Potentially Disengaged: "
  const NameSeparator: string := ", "

  function Names(data: seq<DepartmentEngagement>): (names: seq<string>)
    ensures |names| == |data|
  {
    seq(|data|, i requires 0 <= i < |data| => data[i].departmentName)
  }

  /** The names of the departments with status `st`, in list order. */
  function NamesWith(data: seq<DepartmentEngagement>, st: Status): seq<string>
  {
    Names(Filter(data, HasStatus(st)))
  }

  /** The insight lines: one naming the overloaded departments if there are
      any, then one naming the disengaged departments if there are any. */
  function InsightLines(data: seq<DepartmentEngagement>): (lines: seq<string>)
    ensures |lines| <= 2
    ensures forall i :: 0 <= i < |lines| ==> OverloadedInsight <= lines[i] || DisengagedInsight <= lines[i]
  {
    var overloaded := NamesWith(data, Overloaded);
    var disengaged := NamesWith(data, Disengaged);
    (if |overloaded| > 0 then [OverloadedInsight + Join(overloaded, NameSeparator)] else [])
      + (if |disengaged| > 0 then [DisengagedInsight + Join(disengaged, NameSeparator)] else [])
  }

  /** `insights.push(...)` under the two tests. */
  method BuildInsights(data: seq<DepartmentEngagement>) returns (insights: seq<string>)
    ensures insights == InsightLines(data)
  {
    insights := [];
    var overloaded := Filter(data, HasStatus(Overloaded));
    var disengaged := Filter(data, HasStatus(Disengaged));
    if |overloaded| > 0 {
      insights := insights + [OverloadedInsight + Join(Names(overloaded), NameSeparator)];
    }
    if |disengaged| > 0 {
      insights := insights + [DisengagedInsight + Join(Names(disengaged), NameSeparator)];
    }
  }

  /** `NamesWith` lists the name of every department with status `st` and
      no other, one entry per such department. */
  lemma NamesWithListsExactly(data: seq<DepartmentEngagement>, st: Status, name: string)
    ensures |NamesWith(data, st)| == |StatusPositions(data, st)|
    ensures name in NamesWith(data, st) <==> exists i :: 0 <= i < |data| && data[i].status == st && data[i].departmentName == name
  {
    var kept := Filter(data, HasStatus(st));
    FilterCountsPositions(data, HasStatus(st));
    assert Positions(data, HasStatus(st)) == StatusPositions(data, st);
    if name in NamesWith(data, st) {
      var k :| 0 <= k < |kept| && kept[k].departmentName == name;
      FilterKeeps(data, HasStatus(st), kept[k]);
    }
    if i :| 0 <= i < |data| && data[i].status == st && data[i].departmentName == name {
      FilterKeeps(data, HasStatus(st), data[i]);
      var k :| 0 <= k < |kept| && kept[k] == data[i];
      assert NamesWith(data, st)[k] == name;
    }
  }

  /** The names keep the list order: those from an earlier part of the
      list come before those from a later part. */
  lemma NamesWithInOrder(a: seq<DepartmentEngagement>, b: seq<DepartmentEngagement>, st: Status)
    ensures NamesWith(a + b, st) == NamesWith(a, st) + NamesWith(b, st)
  {
    FilterAppend(a, b, HasStatus(st));
  }

  /** An insight line appears exactly when some department has its status,
      the overloaded line first, and each names exactly those departments. */
  lemma InsightLinesListExactly(data: seq<DepartmentEngagement>)
    ensures |InsightLines(data)| == (if HasAny(data, Overloaded) then 1 else 0) + (if HasAny(data, Disengaged) then 1 else 0)
    ensures HasAny(data, Overloaded) ==>
      InsightLines(data)[0] == OverloadedInsight + Join(NamesWith(data, Overloaded), NameSeparator)
    ensures HasAny(data, Disengaged) ==>
      InsightLines(data)[|InsightLines(data)| - 1] == DisengagedInsight + Join(NamesWith(data, Disengaged), NameSeparator)
  {
    AnyIffNamed(data, Overloaded);
    AnyIffNamed(data, Disengaged);
  }

  lemma AnyIffNamed(data: seq<DepartmentEngagement>, st: Status)
    ensures HasAny(data, st) <==> |NamesWith(data, st)| > 0
  {
    FilterCountsPositions(data, HasStatus(st));
    assert Positions(data, HasStatus(st)) == StatusPositions(data, st);
    if HasAny(data, st) {
      var i :| 0 <= i < |data| && data[i].status == st;
      assert i in StatusPositions(data, st);
    }
    if |StatusPositions(data, st)| > 0 {
      var i :| i in StatusPositions(data, st);
    }
  }

  /** `handleExportPDF`: refuses an empty list; otherwise the summary, its
      table, the detail rows and the insight lines of the list as given. */
  method ExportReport(data: seq<DepartmentEngagement>) returns (outcome: ExportOutcome)
    ensures outcome.NoDataToExport? <==> |data| == 0
    ensures outcome.Exported? ==>
      outcome.report == Report(Summarize(data), SummaryTable(Summarize(data)), DetailRows(data), InsightLines(data))
  {
    if |data| == 0 {
      return NoDataToExport;
    }
    var summary := Summarize(data);
    var details := DetailRows(data);
    var insights := BuildInsights(data);
    outcome := Exported(Report(summary, SummaryTable(summary), details, insights));
  }

  /** For the engine's own output, with distinct category ids: one
      department per category, and the document total counts each document
      of a known category once. */
  lemma EngineSummaryTotals(categories: seq<Category>, documents: seq<Document>, users: seq<User>, ranked: seq<DepartmentEngagement>)
    requires DistinctIds(categories)
    requires StableRankingOf(ranked, ClassifyEach(Aggregate(categories, documents, users)))
    ensures Summarize(ranked).totalDepartments == |categories|
    ensures Summarize(ranked).totalDocuments == |Filter(documents, HasKnownCategory(categories))|
  {
    RankingKeepsTotals(categories, documents, users, ranked);
    DocumentsAccountedFor(categories, documents, users);
  }

  /** Classifying and ranking the per-category records leaves the three
      summary sums as they are over the records in category order. */
  lemma RankingKeepsTotals(categories: seq<Category>, documents: seq<Document>, users: seq<User>, ranked: seq<DepartmentEngagement>)
    requires StableRankingOf(ranked, ClassifyEach(Aggregate(categories, documents, users)))
    ensures |ranked| == |categories|
    ensures Summarize(ranked).totalDocuments == SumOf(Aggregate(categories, documents, users), DocumentsOf)
    ensures Summarize(ranked).totalPendingActionPoints == SumOf(Aggregate(categories, documents, users), PendingOf)
    ensures Summarize(ranked).totalUsers == SumOf(Aggregate(categories, documents, users), UsersOf)
  {
    var aggregated := Aggregate(categories, documents, users);
    var classified := ClassifyEach(aggregated);
    TiesKeepRecords(ranked, classified);
    assert |ranked| == |multiset(ranked)| == |multiset(classified)| == |classified|;
    SumOfPermutation(ranked, classified, DocumentsOf);
    SumOfPointwise(classified, DocumentsOf, aggregated, DocumentsOf);
    SumOfPermutation(ranked, classified, PendingOf);
    SumOfPointwise(classified, PendingOf, aggregated, PendingOf);
    SumOfPermutation(ranked, classified, UsersOf);
    SumOfPointwise(classified, UsersOf, aggregated, UsersOf);
  }

  /** No categories: the engine yields no departments, every summary figure
      is zero, and (by `ExportReport`) export is refused. */
  lemma NoCategoriesNoExport(documents: seq<Document>, users: seq<User>, ranked: seq<DepartmentEngagement>)
    requires StableRankingOf(ranked, ClassifyEach(Aggregate([], documents, users)))
    ensures ranked == []
    ensures Summarize(ranked) == Summary(0, 0, 0, 0, 0, 0)
  {
    TiesKeepRecords(ranked, ClassifyEach(Aggregate([], documents, users)));
    assert |ranked| == |multiset(ranked)| == 0;
  }
}

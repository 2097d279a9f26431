# Departmental engagement engine

This project models the admin dashboard's departmental engagement report
in Dafny. The report reads three snapshots: the categories (departments),
the documents (each filed under one category, with optional action points)
and the users (each listing the categories they belong to). From them it
builds one record per department:
- the number of its documents;
- the number of pending action points;
- the number of members;
- an engagement score: documents per member, plus half the pending action
  points per member, rounded to hundredths;
- a status from fixed thresholds: overloaded above 8, disengaged below 2.

It then ranks the records by descending score. The export turns that list
into a summary, a detail table and insight lines, and refuses to export an
empty list.

Modules:
- `Entities`: the records read and the derived `DepartmentEngagement`
  record.
- `Seqs`: `filter`, `reduce`-style sums and `join` over sequences, with
  their laws.
- `Scoring`: `Math.round(x * 100) / 100` as `Round2`, the score and the
  status rule.
- `Aggregation`: the `categories.map` that builds one record per category.
- `Ranking`:
  - the status `forEach`, as a loop over an array of records;
  - the stable sort, as an in-place insertion sort on that array;
  - the whole computation, `CalculateDepartmentEngagement`.
- `Reporting`: the data `handleExportPDF` hands to the PDF renderer.
- `Scenarios`: three worked departments, one per status, and one run
  through the whole engine to its summary.

## Model

| member | source | states |
|---|---|---|
| Seqs.Filter | src/components/admin/departmental-engagement-report.tsx:68 | a filter is never longer than its input |
| Seqs.FilterKeeps | src/components/admin/departmental-engagement-report.tsx:68 | a filter keeps each element as often as it occurs when the predicate holds, not at all otherwise; an element is in the result iff it is in the input and passes |
| Seqs.FilterMembers | src/components/admin/departmental-engagement-report.tsx:68-71 | the elements of a filter are exactly the input elements that pass |
| Seqs.FilterCountsPositions | src/components/admin/departmental-engagement-report.tsx:68 | the filter's length is the number of input positions whose element passes |
| Seqs.FilterAppend | src/components/admin/departmental-engagement-report.tsx:68 | filtering a concatenation filters each part in order |
| Seqs.FilterDisjointUnion | src/components/admin/departmental-engagement-report.tsx:143-144 | for two predicates that never both hold, the filter by their disjunction is as long as the two filters together |
| Seqs.SumOf | src/components/admin/departmental-engagement-report.tsx:74-76 | the `reduce` sum starting at 0: an empty list sums to 0 and a single term to itself; with `SumOfAppend` this fixes the sum of every list |
| Seqs.SumOfAppend | src/components/admin/departmental-engagement-report.tsx:140-142 | the sum over a concatenation is the sum of the two sums |
| Seqs.SumOfPermutation | src/components/admin/departmental-engagement-report.tsx:140-142 | a `reduce` sum does not depend on the order of the records |
| Seqs.SumOfMonotone | src/components/admin/departmental-engagement-report.tsx:74-76 | a summand that is smaller term by term gives a smaller sum |
| Seqs.Join | src/components/admin/departmental-engagement-report.tsx:209-212 | `join` of no parts is the empty string, and of one part is that part |
| Seqs.JoinConcat | src/components/admin/departmental-engagement-report.tsx:209-212 | joining two non-empty lists of parts joins each and puts one separator between them |
| Seqs.JoinLength | src/components/admin/departmental-engagement-report.tsx:209-212 | a join is as long as its parts together plus one separator between each pair of neighbours |
| Scoring.Round2 | src/components/admin/departmental-engagement-report.tsx:92 | the result is a whole number of hundredths within half a hundredth of the input, with ties going up; a non-negative input gives a non-negative result |
| Scoring.Round2Unique | src/components/admin/departmental-engagement-report.tsx:92 | exactly one value meets `Round2`'s contract, so the contract pins the rounding down |
| Scoring.Round2Monotone | src/components/admin/departmental-engagement-report.tsx:92 | rounding keeps order |
| Scoring.EngagementScore | src/components/admin/departmental-engagement-report.tsx:79-84 | the score is 0 without users; it is always at least 0 and a whole number of hundredths; with users it rounds (documents + 0.5 × pending) / users |
| Scoring.EngagementScoreMonotone | src/components/admin/departmental-engagement-report.tsx:79-92 | with the same users, more documents or more pending points never lower the score |
| Scoring.Classify | src/components/admin/departmental-engagement-report.tsx:98-109 | overloaded iff score > 8 and there are documents; disengaged iff score < 2 and there are both documents and users; normal otherwise |
| Scoring.ClassifyBoundaries | src/components/admin/departmental-engagement-report.tsx:98-109 | scores of exactly 8 or 2 are normal; a department with no documents is normal; one with no documents or no users is never disengaged |
| Aggregation.PendingCount | src/components/admin/departmental-engagement-report.tsx:75 | a document's pending points are its not-completed action points; a missing list gives 0, and the count never exceeds its action points |
| Aggregation.DepartmentDocuments | src/components/admin/departmental-engagement-report.tsx:68 | the department's documents: each document filed under its id appears exactly as often as in the input, and no other document appears |
| Aggregation.DepartmentUsers | src/components/admin/departmental-engagement-report.tsx:71 | the department's members: each user whose category list is present and names it appears exactly as often as in the input, and no other user appears |
| Aggregation.DepartmentRecord | src/components/admin/departmental-engagement-report.tsx:66-95 | one category's record: its id and name; the number of documents filed under its id; the number of users whose present list names it; pending points equal to the sum of its documents' pending counts, bounded by their action points; the score of those counts; status still normal |
| Aggregation.Aggregate | src/components/admin/departmental-engagement-report.tsx:66-95 | one record per category, in category order, carrying that category's id and name, its document and member counts, the sum of its documents' pending counts and the score of those counts, with status still normal |
| Aggregation.DocumentsAccountedFor | src/components/admin/departmental-engagement-report.tsx:66-68 | with distinct category ids, the records' document counts add up to the documents filed under a known category: an unknown category is dropped and no document is counted twice |
| Ranking.Classified | src/components/admin/departmental-engagement-report.tsx:103-109 | a classified record differs from the original only in its status, which is overloaded iff score > 8 with documents, and disengaged iff score < 2 with documents and users |
| Ranking.ClassifyEach | src/components/admin/departmental-engagement-report.tsx:102-110 | every record classified: same length, each record unchanged apart from its status, each status the rule applied to that record |
| Ranking.AssignStatuses | src/components/admin/departmental-engagement-report.tsx:102-110 | every record in the array gets the status of its own score and counts, and nothing else changes |
| Ranking.TiesKeepRecords | src/components/admin/departmental-engagement-report.tsx:112 | two lists that agree on the records of every score are permutations of each other |
| Ranking.SwapKeepsTies | src/components/admin/departmental-engagement-report.tsx:112 | swapping two neighbours with different scores keeps every tie in order |
| Ranking.InsertIntoSorted | src/components/admin/departmental-engagement-report.tsx:112 | one insertion step extends the sorted prefix by one, keeps every tie in order and leaves the rest of the array alone |
| Ranking.SortByScore | src/components/admin/departmental-engagement-report.tsx:112 | afterwards the array is ordered by non-increasing score, and records with equal scores keep their original order (a stable sort) |
| Ranking.TiesDetermineRanking | src/components/admin/departmental-engagement-report.tsx:112 | two lists ordered by descending score that agree on the order of every tie are equal |
| Ranking.StableRankingUnique | src/components/admin/departmental-engagement-report.tsx:112 | a list has exactly one stable ranking, so recomputing from the same snapshots gives the same result |
| Ranking.CalculateDepartmentEngagement | src/components/admin/departmental-engagement-report.tsx:65-113 | the result is the stable ranking of the classified per-category records, and a permutation of them |
| Reporting.Summarize | src/components/admin/departmental-engagement-report.tsx:140-144 | the three totals are the sums of the records' documents, pending points and users; the department count is the list length; each status count is the number of departments with that status; overloaded plus disengaged never exceeds the number of departments |
| Reporting.RankingKeepsTotals | src/components/admin/departmental-engagement-report.tsx:140-142 | over the engine's output, the document, pending and user totals equal the sums over the per-category records, and there is one record per category |
| Reporting.EngineSummaryTotals | src/components/admin/departmental-engagement-report.tsx:140-153 | with distinct category ids, the summary has one department per category, and its document total counts each document of a known category once |
| Reporting.NoCategoriesNoExport | src/components/admin/departmental-engagement-report.tsx:116-119 | with no categories, the engine's list is empty and every summary figure is 0 |
| Reporting.NatToString | src/components/admin/departmental-engagement-report.tsx:164-166 | `toString` of a count is a non-empty string of digits with no leading zero, and it is "0" exactly for 0 |
| Reporting.NatToStringRoundTrip | src/components/admin/departmental-engagement-report.tsx:164-166 | reading a count's decimal text back gives the count |
| Reporting.ScoreText | src/components/admin/departmental-engagement-report.tsx:167 | the text starts with "-" exactly for a negative score; for a non-negative score it is digits, then at most two decimals with no trailing zero |
| Reporting.HundredthsText | src/components/admin/departmental-engagement-report.tsx:167 | the text of h hundredths: the decimal text of h / 100, then a point and one or two decimals, with no point exactly when there are no cents and no trailing zero |
| Reporting.ScoreTextRoundTrip | src/components/admin/departmental-engagement-report.tsx:167 | the text of a non-negative score in whole hundredths has a digits-only integer part and fraction, and reads back as the score |
| Reporting.HundredthsTextRoundTrip | src/components/admin/departmental-engagement-report.tsx:167 | the text of h hundredths reads back as h / 100 |
| Reporting.ToUpperCase | src/components/admin/departmental-engagement-report.tsx:168 | same length; each ASCII lower-case letter `a`-`z` becomes its capital, and every other character is kept |
| Reporting.StatusLabel | src/components/admin/departmental-engagement-report.tsx:168 | the labels are "OVERLOADED", "NORMAL" and "DISENGAGED", and each label reads back as its status, so distinct statuses get distinct labels |
| Reporting.SummaryTable | src/components/admin/departmental-engagement-report.tsx:149-156 | six rows, each a metric name and a value in decimal digits, labelled in the source's order: total documents, total pending action points, total users, total departments, overloaded departments, disengaged departments |
| Reporting.SummaryTableReadsBack | src/components/admin/departmental-engagement-report.tsx:149-156 | each value in the summary table reads back as the summary figure it reports |
| Reporting.DetailRows | src/components/admin/departmental-engagement-report.tsx:162-169 | one detail row per department, row i for department i so the rows follow the ranking; each row has six cells: the name, then the three counts reading back as the record's counts, the score reading back as the record's score (for a score the engine produces: non-negative, whole hundredths), and the status label reading back as the record's status |
| Reporting.DetailRowReadsBack | src/components/admin/departmental-engagement-report.tsx:162-169 | one department's row has six cells: the name, then the three counts and the status each reading back to the record's value, and the score reading back to the record's score when it is one the engine produces (non-negative, whole hundredths) |
| Reporting.BuildInsights | src/components/admin/departmental-engagement-report.tsx:204-213 | the pushed lines are the insight lines of the list |
| Reporting.InsightLines | src/components/admin/departmental-engagement-report.tsx:204-213 | at most two insight lines, each starting with one of the two fixed headings |
| Reporting.NamesWithListsExactly | src/components/admin/departmental-engagement-report.tsx:205-212 | the names listed for a status belong exactly to the departments with that status, one entry per department |
| Reporting.NamesWithInOrder | src/components/admin/departmental-engagement-report.tsx:205-212 | names are listed in list order: the names of a concatenation are those of the first part followed by those of the second |
| Reporting.InsightLinesListExactly | src/components/admin/departmental-engagement-report.tsx:204-213 | there is a line for a status exactly when some department has it; the overloaded line comes first and the disengaged line last, each the fixed prefix followed by the names joined with ", " |
| Reporting.AnyIffNamed | src/components/admin/departmental-engagement-report.tsx:208-212 | some department has a status iff the name list for that status is non-empty |
| Reporting.ExportReport | src/components/admin/departmental-engagement-report.tsx:115-213 | export is refused exactly when the list is empty; otherwise the report holds the list's summary, summary table, detail rows and insight lines |
| Scenarios.AlphaIsOverloaded | src/components/admin/departmental-engagement-report.tsx:65-110 | 10 documents with one open action point each, and one member: score 15, overloaded |
| Scenarios.AlphaEndToEnd | src/components/admin/departmental-engagement-report.tsx:65-156 | with the single category A, the ranked list is Alpha's overloaded record, score 15, and the summary is 10 documents, 10 pending points, 1 user, 1 department, 1 overloaded, 0 disengaged |
| Scenarios.BetaIsNormal | src/components/admin/departmental-engagement-report.tsx:65-110 | three members and no documents: score 0, normal |
| Scenarios.NoDocumentsIsNormal | src/components/admin/departmental-engagement-report.tsx:79-109 | a department without documents has no pending points, scores 0 and is normal, whatever its members |
| Scenarios.GammaIsDisengaged | src/components/admin/departmental-engagement-report.tsx:65-110 | one member and one document with every action point done: score 1, disengaged |

## Left out

- React state and effects are not modelled, because they are UI lifecycle rather than the derivation. This covers `useState`/`useEffect`, the loading flag and recomputing when a snapshot changes. Each call of `CalculateDepartmentEngagement` is one such recomputation.
- Fetching documents, categories and users, and the fallback to an empty list on failure, are not modelled: they are asynchronous I/O. The three snapshots are parameters.
- PDF layout is not modelled, because it belongs to a third-party renderer. This covers fonts, positions, colours, the `didParseCell` cell colouring, the title and subtitle strings, and `doc.save`. The model stops at the data handed to the renderer.
- The `alert` on an empty list is modelled as the `NoDataToExport` outcome, because it is user-facing I/O.
- The generation date (`toLocaleDateString`) and the file name date (`toISOString`) are not modelled: they depend on the clock and the locale.
- Charts, the pie-data mapping, the colour and icon helpers, and the JSX table and cards are not modelled: they are display only.
- The onboarding, shared-awareness and compliance-deadlines pages are not part of this model. They derive no data.
- Scoring.Round2: the score uses exact reals, not IEEE-754 doubles. JavaScript computes `1.005 * 100` as 100.49999…, so it rounds 1.005 to 1.00 where exact arithmetic gives 1.01. The division per user is also exact.
- Reporting.ScoreText: renders a score through its whole hundredths, which is every score the engine produces. It does not reproduce JavaScript's exponent notation for very large or very small numbers, or its shortest round-trip digits for other doubles.
- Reporting.ToUpperCase: upper-cases ASCII letters only. JavaScript also maps other letters (`'é'` to `'É'`, `'ß'` to `"SS"`, which changes the length). The only input the source gives it is one of the three ASCII status names, so nothing is lost there.
- Reporting.NatToString: renders counts in plain decimal and does not switch to exponent notation from 10^21 on, as JavaScript does (it prints 10^21 as `1e+21`).
- Aggregation.DocumentsAccountedFor: holds only when category ids are distinct. With a repeated id, a document is counted once per copy of its category, so the sum law is stated with that hypothesis.
- Ranking.AssignStatuses: records are values stored in an array, so aliasing between the mutated record objects and other references is not modelled.
- Ranking.SortByScore: `Array.prototype.sort` is library code. It is modelled as an in-place insertion sort that meets the same contract: descending by score, stable on ties. Equal scores keep category order, and no name tie-break is added, because the code has none.
- Ranking.SortByScore: the comparator subtracts scores. With exact reals its sign is that of the score difference, so non-finite scores (NaN) do not arise.

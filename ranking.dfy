/** The second half of `calculateDepartmentEngagement`: the `forEach` that
    overwrites each record's status, the in-place sort by descending score,
    and the whole computation from the three snapshots to the ranked list. */
module Ranking {
  import opened Entities
  import opened Seqs
  import opened Scoring
  import opened Aggregation

  /** A record with the status the fixed thresholds give it: only the
      status changes; overloaded when the score is above 8 and there are
      documents, disengaged when it is below 2 and there are documents and
      users. */
  function Classified(d: DepartmentEngagement): (r: DepartmentEngagement)
    ensures r.(status := d.status) == d
    ensures r.status == Overloaded <==> d.engagementScore > OverloadedThreshold && d.totalDocuments > 0
    ensures r.status == Disengaged <==>
      d.engagementScore < DisengagedThreshold && d.totalDocuments > 0 && d.totalUsers > 0
  {
    d.(status := Classify(d.engagementScore, d.totalDocuments, d.totalUsers))
  }

  /** Every record classified in place: same length, same records apart
      from their statuses. */
  function ClassifyEach(s: seq<DepartmentEngagement>): (r: seq<DepartmentEngagement>)
    ensures |r| == |s|
    ensures forall i :: 0 <= i < |s| ==> r[i].(status := s[i].status) == s[i]
    ensures forall i :: 0 <= i < |s| ==> r[i].status == Classify(s[i].engagementScore, s[i].totalDocuments, s[i].totalUsers)
  {
    seq(|s|, i requires 0 <= i < |s| => Classified(s[i]))
  }

  /** `engagement.forEach(dept => { dept.status = ... })`: every record gets
      the status of its own score and counts; nothing else changes. */
  method AssignStatuses(a: array<DepartmentEngagement>)
    modifies a
    ensures a[..] == ClassifyEach(old(a[..]))
  {
    for i := 0 to a.Length
      invariant forall k :: 0 <= k < i ==> a[k] == Classified(old(a[k]))
      invariant forall k :: i <= k < a.Length ==> a[k] == old(a[k])
    {
      var dept := a[i];
      if dept.engagementScore > OverloadedThreshold && dept.totalDocuments > 0 {
        a[i] := dept.(status := Overloaded);
      } else if dept.engagementScore < DisengagedThreshold && dept.totalDocuments > 0 && dept.totalUsers > 0 {
        a[i] := dept.(status := Disengaged);
      } else {
        a[i] := dept.(status := Normal);
      }
    }
  }

  /** `d => d.engagementScore === v`. */
  function WithScore(v: real): DepartmentEngagement -> bool
  {
    (d: DepartmentEngagement) => d.engagementScore == v
  }

  /** Highest score first. */
  ghost predicate SortedByScore(s: seq<DepartmentEngagement>)
  {
    forall i, j :: 0 <= i < j < |s| ==> s[i].engagementScore >= s[j].engagementScore
  }

  /** For every score, the records with that score come in the same order
      in `r` as in `s`. */
  ghost predicate SameTies(r: seq<DepartmentEngagement>, s: seq<DepartmentEngagement>)
  {
    forall v :: Filter(r, WithScore(v)) == Filter(s, WithScore(v))
  }

  /** `r` is what a stable sort of `s` by descending score gives. */
  ghost predicate StableRankingOf(r: seq<DepartmentEngagement>, s: seq<DepartmentEngagement>)
  {
    SortedByScore(r) && SameTies(r, s)
  }

  /** Records that keep their ties are a permutation of each other. */
  lemma TiesKeepRecords(r: seq<DepartmentEngagement>, s: seq<DepartmentEngagement>)
    requires SameTies(r, s)
    ensures multiset(r) == multiset(s)
  {
    forall x ensures multiset(r)[x] == multiset(s)[x] {
      var p := WithScore(x.engagementScore);
      FilterKeeps(r, p, x);
      FilterKeeps(s, p, x);
    }
  }

  /** Exchanging two neighbours with different scores keeps every tie. */
  lemma SwapKeepsTies(s: seq<DepartmentEngagement>, j: int)
    requires 0 < j < |s| && s[j - 1].engagementScore != s[j].engagementScore
    ensures SameTies(s[j - 1 := s[j]][j := s[j - 1]], s)
  {
    var x, y := s[j - 1], s[j];
    var pre, post := s[..j - 1], s[j + 1..];
    var t := s[j - 1 := y][j := x];
    assert s == pre + [x, y] + post;
    assert t == pre + [y, x] + post;
    forall v ensures Filter(t, WithScore(v)) == Filter(s, WithScore(v)) {
      var p := WithScore(v);
      FilterAppend(pre + [x, y], post, p);
      FilterAppend(pre, [x, y], p);
      FilterAppend(pre + [y, x], post, p);
      FilterAppend(pre, [y, x], p);
      FilterAppend([x], [y], p);
      FilterAppend([y], [x], p);
      assert [x] + [y] == [x, y] && [y] + [x] == [y, x];
      FilterSingleton(x, p);
      FilterSingleton(y, p);
    }
  }

  lemma SameTiesTransitive(r: seq<DepartmentEngagement>, s: seq<DepartmentEngagement>, t: seq<DepartmentEngagement>)
    requires SameTies(r, s) && SameTies(s, t)
    ensures SameTies(r, t)
  {
    forall v ensures Filter(r, WithScore(v)) == Filter(t, WithScore(v)) {
      assert Filter(r, WithScore(v)) == Filter(s, WithScore(v));
    }
  }

  /** Filtering a non-empty sequence: its head, then the filtered tail. */
  lemma FilterCons(s: seq<DepartmentEngagement>, v: real)
    requires s != []
    ensures Filter(s, WithScore(v)) ==
      (if s[0].engagementScore == v then [s[0]] else []) + Filter(s[1..], WithScore(v))
  {
    assert s == [s[0]] + s[1..];
    FilterAppend([s[0]], s[1..], WithScore(v));
    FilterSingleton(s[0], WithScore(v));
  }

  /** Two orderings by descending score that keep the same ties are equal:
      the stable ranking of a list is unique, so the engine is
      deterministic. */
  lemma {:induction false} TiesDetermineRanking(r1: seq<DepartmentEngagement>, r2: seq<DepartmentEngagement>)
    requires SortedByScore(r1) && SortedByScore(r2) && SameTies(r1, r2)
    ensures r1 == r2
    decreases |r1|
  {
    TiesKeepRecords(r1, r2);
    assert |r1| == |multiset(r1)| == |multiset(r2)| == |r2|;
    if r1 != [] {
      SameHead(r1, r2);
      SameTiesAfterHead(r1, r2);
      TiesDetermineRanking(r1[1..], r2[1..]);
      assert r1 == [r1[0]] + r1[1..] && r2 == [r2[0]] + r2[1..];
    }
  }

  /** Two such orderings start with the same record: both begin with a top
      score, and the first record of that score is the same in both. */
  lemma SameHead(r1: seq<DepartmentEngagement>, r2: seq<DepartmentEngagement>)
    requires SortedByScore(r1) && SortedByScore(r2) && SameTies(r1, r2)
    requires r1 != [] && multiset(r1) == multiset(r2)
    ensures r2 != [] && r1[0] == r2[0]
  {
    var a := r1[0];
    assert a in multiset(r2);
    var k :| 0 <= k < |r2| && r2[k] == a;
    var b := r2[0];
    assert b in multiset(r1);
    var m :| 0 <= m < |r1| && r1[m] == b;
    var v := a.engagementScore;
    assert k == 0 || r2[0].engagementScore >= r2[k].engagementScore;
    assert m == 0 || r1[0].engagementScore >= r1[m].engagementScore;
    assert b.engagementScore == v;
    FilterCons(r1, v);
    FilterCons(r2, v);
    assert Filter(r1, WithScore(v)) == Filter(r2, WithScore(v));
    assert a == Filter(r1, WithScore(v))[0] == b;
  }

  /** Dropping the same first record keeps the ties. */
  lemma SameTiesAfterHead(r1: seq<DepartmentEngagement>, r2: seq<DepartmentEngagement>)
    requires r1 != [] && r2 != [] && r1[0] == r2[0] && SameTies(r1, r2)
    ensures SameTies(r1[1..], r2[1..])
  {
    forall w ensures Filter(r1[1..], WithScore(w)) == Filter(r2[1..], WithScore(w)) {
      FilterCons(r1, w);
      FilterCons(r2, w);
      var head := if r1[0].engagementScore == w then [r1[0]] else [];
      assert head + Filter(r1[1..], WithScore(w)) == head + Filter(r2[1..], WithScore(w));
      assert Filter(r1[1..], WithScore(w)) == (head + Filter(r1[1..], WithScore(w)))[|head|..];
    }
  }

  /** There is one stable ranking of a list. */
  lemma StableRankingUnique(r1: seq<DepartmentEngagement>, r2: seq<DepartmentEngagement>, s: seq<DepartmentEngagement>)
    requires StableRankingOf(r1, s) && StableRankingOf(r2, s)
    ensures r1 == r2
  {
    forall v ensures Filter(r2, WithScore(v)) == Filter(r1, WithScore(v)) {
      assert Filter(r2, WithScore(v)) == Filter(s, WithScore(v));
    }
    TiesDetermineRanking(r1, r2);
  }

  /** `engagement.sort((a, b) => b.engagementScore - a.engagementScore)`:
      `Array.prototype.sort` is stable, so the array ends up ordered by
      descending score with equal scores in their original order. */
  method SortByScore(a: array<DepartmentEngagement>)
    modifies a
    ensures StableRankingOf(a[..], old(a[..]))
  {
    for i := 0 to a.Length
      invariant SortedByScore(a[..i])
      invariant SameTies(a[..], old(a[..]))
    {
      ghost var before := a[..];
      InsertIntoSorted(a, i);
      SameTiesTransitive(a[..], before, old(a[..]));
    }
    assert a[..a.Length] == a[..];
  }

  /** One insertion step: moves `a[i]` left past the strictly lower scores
      before it, so equal scores keep their order. */
  method InsertIntoSorted(a: array<DepartmentEngagement>, i: int)
    requires 0 <= i < a.Length
    requires SortedByScore(a[..i])
    modifies a
    ensures SortedByScore(a[..i + 1])
    ensures SameTies(a[..], old(a[..]))
    ensures a[i + 1..] == old(a[i + 1..])
  {
    var j := i;
    InsertionStarts(a[..], i);
    while j > 0 && a[j - 1].engagementScore < a[j].engagementScore
      invariant 0 <= j <= i
      invariant SameTies(a[..], old(a[..]))
      invariant a[i + 1..] == old(a[i + 1..])
      invariant SortedAround(a[..], j, i)
    {
      ghost var before := a[..];
      a[j - 1], a[j] := a[j], a[j - 1];
      assert a[..] == before[j - 1 := before[j]][j := before[j - 1]];
      SwapKeepsTies(before, j);
      SameTiesTransitive(a[..], before, old(a[..]));
      InsertionSteps(before, j, i);
      j := j - 1;
    }
    InsertionEnds(a[..], j, i);
  }

  /** While `s[j]` moves left: the first `i + 1` records are ordered apart
      from position `j`, and `s[j]` scores above everything it has passed. */
  ghost predicate SortedAround(s: seq<DepartmentEngagement>, j: int, i: int)
    requires 0 <= j <= i < |s|
  {
    && (forall k, l :: 0 <= k < l <= i && k != j && l != j ==> s[k].engagementScore >= s[l].engagementScore)
    && (forall l :: j < l <= i ==> s[j].engagementScore > s[l].engagementScore)
  }

  lemma InsertionStarts(s: seq<DepartmentEngagement>, i: int)
    requires 0 <= i < |s| && SortedByScore(s[..i])
    ensures SortedAround(s, i, i)
  {
    forall k, l | 0 <= k < l < i ensures s[k].engagementScore >= s[l].engagementScore {
      assert s[..i][k] == s[k] && s[..i][l] == s[l];
    }
  }

  lemma InsertionSteps(s: seq<DepartmentEngagement>, j: int, i: int)
    requires 0 < j <= i < |s| && SortedAround(s, j, i)
    requires s[j - 1].engagementScore < s[j].engagementScore
    ensures SortedAround(s[j - 1 := s[j]][j := s[j - 1]], j - 1, i)
  {
  }

  lemma InsertionEnds(s: seq<DepartmentEngagement>, j: int, i: int)
    requires 0 <= j <= i < |s| && SortedAround(s, j, i)
    requires j > 0 ==> s[j - 1].engagementScore >= s[j].engagementScore
    ensures SortedByScore(s[..i + 1])
  {
    forall k, l | 0 <= k < l <= i ensures s[k].engagementScore >= s[l].engagementScore {
      if l == j && k < j - 1 {
        assert s[k].engagementScore >= s[j - 1].engagementScore;
      }
    }
  }

  /** `calculateDepartmentEngagement`: build one record per category, give
      each its status, and rank them. The result is the stable ranking of
      the classified records, hence a permutation of them. */
  method CalculateDepartmentEngagement(categories: seq<Category>, documents: seq<Document>, users: seq<User>)
    returns (ranked: seq<DepartmentEngagement>)
    ensures StableRankingOf(ranked, ClassifyEach(Aggregate(categories, documents, users)))
    ensures multiset(ranked) == multiset(ClassifyEach(Aggregate(categories, documents, users)))
  {
    var engagement := Aggregate(categories, documents, users);
    var a := new DepartmentEngagement[|engagement|](i requires 0 <= i < |engagement| => engagement[i]);
    assert a[..] == engagement;
    AssignStatuses(a);
    SortByScore(a);
    ranked := a[..];
    TiesKeepRecords(ranked, ClassifyEach(engagement));
  }
}

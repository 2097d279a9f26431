/** Worked departments: the three outcomes of the status rule on small
    inputs, each computed through the same functions as the engine. */
module Scenarios {
  import opened Entities
  import opened Seqs
  import opened Scoring
  import opened Aggregation
  import opened Ranking
  import opened Reporting

  /** Ten documents of department A, each with one open action point, and a
      single member: 10 documents and 10 pending points per user give
      10 + 0.5 * 10 = 15, which is overloaded. */
  lemma AlphaIsOverloaded(documents: seq<Document>)
    requires |documents| == 10
    requires forall i :: 0 <= i < 10 ==> documents[i] == Document("doc", "A", Some([ActionPoint(false)]))
    ensures
      var d := Classified(DepartmentRecord(Category("A", "Alpha"), documents, [User("u1", Some(["A"]))]));
      d.totalDocuments == 10 && d.pendingActionPoints == 10 && d.totalUsers == 1
      && d.engagementScore == 15.0 && d.status == Overloaded
  {
    FilterKeepsAll(documents, InCategory("A"));
    var open := [ActionPoint(false)];
    assert Filter(open, IsPending) == open by {
      FilterKeepsAll(open, IsPending);
    }
    SumOfConstant(documents, PendingCount, 1);
    var users := [User("u1", Some(["A"]))];
    FilterKeepsAll(users, MemberOf("A"));
    var r := DepartmentRecord(Category("A", "Alpha"), documents, users);
    assert r.totalDocuments == 10 && r.pendingActionPoints == 10 && r.totalUsers == 1;
    AlphaScore();
  }

  /** 10 documents and 10 pending points for one user: 10 + 0.5 * 10 = 15. */
  lemma AlphaScore()
    ensures EngagementScore(10, 10, 1) == 15.0
  {
    Round2Unique(15.0, 15.0);
  }

  /** Alpha as the whole engine sees it: with the single category A, the
      ranked list is Alpha's overloaded record alone, and the summary counts
      its 10 documents, 10 pending points and one user, one department and
      one overloaded department. */
  lemma AlphaEndToEnd(documents: seq<Document>, ranked: seq<DepartmentEngagement>)
    requires |documents| == 10
    requires forall i :: 0 <= i < 10 ==> documents[i] == Document("doc", "A", Some([ActionPoint(false)]))
    requires StableRankingOf(ranked, ClassifyEach(Aggregate([Category("A", "Alpha")], documents, [User("u1", Some(["A"]))])))
    ensures |ranked| == 1 && ranked[0].departmentName == "Alpha"
    ensures ranked[0].engagementScore == 15.0 && ranked[0].status == Overloaded
    ensures Summarize(ranked) == Summary(10, 10, 1, 1, 1, 0)
  {
    var users := [User("u1", Some(["A"]))];
    AlphaIsOverloaded(documents);
    var d := Classified(DepartmentRecord(Category("A", "Alpha"), documents, users));
    var classified := ClassifyEach(Aggregate([Category("A", "Alpha")], documents, users));
    assert classified == [d];
    TiesKeepRecords(ranked, classified);
    assert |ranked| == |multiset(ranked)| == 1;
    assert ranked[0] in multiset(ranked);
    assert ranked == [d];
    FilterSingleton(d, HasStatus(Overloaded));
    FilterSingleton(d, HasStatus(Disengaged));
  }

  /** Department B has three members and no documents: score 0, normal,
      since a department without documents is never disengaged. */
  lemma BetaIsNormal()
    ensures
      var users := [User("u1", Some(["B"])), User("u2", Some(["B"])), User("u3", Some(["B", "C"]))];
      var d := Classified(DepartmentRecord(Category("B", "Beta"), [], users));
      d.totalDocuments == 0 && d.totalUsers == 3 && d.engagementScore == 0.0 && d.status == Normal
  {
    var u1, u2, u3 := User("u1", Some(["B"])), User("u2", Some(["B"])), User("u3", Some(["B", "C"]));
    BetaMembers(u1, u2, u3);
    NoDocumentsIsNormal(Category("B", "Beta"), [u1, u2, u3]);
  }

  /** A department without documents has no pending points, scores 0 and
      is normal, whatever its members. */
  lemma NoDocumentsIsNormal(category: Category, users: seq<User>)
    ensures
      var d := Classified(DepartmentRecord(category, [], users));
      d.totalDocuments == 0 && d.pendingActionPoints == 0 && d.engagementScore == 0.0 && d.status == Normal
  {
    var noDocuments: seq<Document> := [];
    assert DepartmentDocuments(noDocuments, category.id) == [];
    var r := DepartmentRecord(category, noDocuments, users);
    assert r.totalDocuments == 0 && r.pendingActionPoints == 0;
    NothingScoresZero(r.totalUsers);
  }

  /** No documents and no pending points score 0, with or without users. */
  lemma NothingScoresZero(users: nat)
    ensures EngagementScore(0, 0, users) == 0.0
  {
    Round2Unique(0.0, 0.0);
  }

  /** All three users list department B. */
  lemma BetaMembers(u1: User, u2: User, u3: User)
    requires u1 == User("u1", Some(["B"])) && u2 == User("u2", Some(["B"])) && u3 == User("u3", Some(["B", "C"]))
    ensures |DepartmentUsers([u1, u2, u3], "B")| == 3
  {
    assert ["B", "C"][0] == "B";
    FilterKeepsAll([u1, u2, u3], MemberOf("B"));
  }

  /** Department C has one member and one document whose action points are
      all done: score 1, below 2, so disengaged. A user without a category
      list and a document of another department change nothing. */
  lemma GammaIsDisengaged()
    ensures
      var documents := [Document("d1", "C", Some([ActionPoint(true)])), Document("d2", "X", None)];
      var users := [User("u1", Some(["C"])), User("u2", None)];
      var d := Classified(DepartmentRecord(Category("C", "Gamma"), documents, users));
      d.totalDocuments == 1 && d.pendingActionPoints == 0 && d.totalUsers == 1
      && d.engagementScore == 1.0 && d.status == Disengaged
  {
    var d1, d2 := Document("d1", "C", Some([ActionPoint(true)])), Document("d2", "X", None);
    var u1, u2 := User("u1", Some(["C"])), User("u2", None);
    GammaDocuments(d1, d2);
    GammaMembers(u1, u2);
    assert Round2(1.0) == 1.0 by {
      Round2Unique(1.0, 1.0);
    }
    var r := DepartmentRecord(Category("C", "Gamma"), [d1, d2], [u1, u2]);
    assert r.totalDocuments == 1 && r.totalUsers == 1 && r.pendingActionPoints == 0;
    assert r.engagementScore == EngagementScore(1, 0, 1) == Round2(1.0);
  }

  /** Only `d1` is filed under C, and its one action point is done. */
  lemma GammaDocuments(d1: Document, d2: Document)
    requires d1 == Document("d1", "C", Some([ActionPoint(true)])) && d2 == Document("d2", "X", None)
    ensures DepartmentDocuments([d1, d2], "C") == [d1]
    ensures SumOf([d1], PendingCount) == 0
  {
    assert [d1, d2] == [d1] + [d2];
    FilterAppend([d1], [d2], InCategory("C"));
    FilterSingleton(d1, InCategory("C"));
    FilterSingleton(d2, InCategory("C"));
    FilterSingleton(ActionPoint(true), IsPending);
    assert PendingCount(d1) == 0;
  }

  /** Only `u1` lists C; `u2` has no category list. */
  lemma GammaMembers(u1: User, u2: User)
    requires u1 == User("u1", Some(["C"])) && u2 == User("u2", None)
    ensures DepartmentUsers([u1, u2], "C") == [u1]
  {
    assert [u1, u2] == [u1] + [u2];
    FilterAppend([u1], [u2], MemberOf("C"));
    FilterSingleton(u1, MemberOf("C"));
    FilterSingleton(u2, MemberOf("C"));
  }
}

/** The first stage of `calculateDepartmentEngagement`: for every category,
    the department's documents, its members and its pending action points,
    and the score they give. Statuses are assigned later (see Ranking). */
module Aggregation {
  import opened Entities
  import opened Seqs
  import opened Scoring

  predicate IsPending(ap: ActionPoint)
  {
    !ap.isCompleted
  }

  /** All action points of a document; a missing list has none. */
  function ActionPointCount(doc: Document): nat
  {
    match doc.actionPoints
    case None => 0
    case Some(aps) => |aps|
  }

  /** The positions of the not-completed action points of a document. */
  ghost function PendingPositions(doc: Document): set<int>
  {
    match doc.actionPoints
    case None => {}
    case Some(aps) => set i | 0 <= i < |aps| && !aps[i].isCompleted
  }

  /** `doc.actionPoints?.filter(ap => !ap.isCompleted).length || 0`: the
      number of not-completed action points, 0 when the list is missing. */
  function PendingCount(doc: Document): (n: nat)
    ensures n == |PendingPositions(doc)|
    ensures n <= ActionPointCount(doc)
  {
    match doc.actionPoints
    case None => 0
    case Some(aps) =>
      FilterCountsPositions(aps, IsPending);
      assert Positions(aps, IsPending) == PendingPositions(doc);
      |Filter(aps, IsPending)|
  }

  /** `doc => doc.categoryId === id`. */
  function InCategory(id: string): Document -> bool
  {
    (doc: Document) => doc.categoryId == id
  }

  /** `user => user.categoryIds && user.categoryIds.includes(id)`. */
  function MemberOf(id: string): User -> bool
  {
    (user: User) => user.categoryIds.Some? && id in user.categoryIds.value
  }

  /** The positions of the documents filed under department `id`. */
  ghost function DocumentPositions(documents: seq<Document>, id: string): set<int>
  {
    set i | 0 <= i < |documents| && documents[i].categoryId == id
  }

  /** The positions of the users whose category list is present and names `id`. */
  ghost function MemberPositions(users: seq<User>, id: string): set<int>
  {
    set i | 0 <= i < |users| && users[i].categoryIds.Some? && id in users[i].categoryIds.value
  }

  /** `deptDocuments`: one entry per document filed under `id`, and no
      other document. */
  function DepartmentDocuments(documents: seq<Document>, id: string): (r: seq<Document>)
    ensures |r| == |DocumentPositions(documents, id)|
    ensures forall doc :: doc in r <==> doc in documents && doc.categoryId == id
    ensures forall doc :: multiset(r)[doc] == if doc.categoryId == id then multiset(documents)[doc] else 0
  {
    forall doc ensures multiset(Filter(documents, InCategory(id)))[doc] == if doc.categoryId == id then multiset(documents)[doc] else 0 {
      FilterKeeps(documents, InCategory(id), doc);
    }
    FilterCountsPositions(documents, InCategory(id));
    assert Positions(documents, InCategory(id)) == DocumentPositions(documents, id);
    FilterMembers(documents, InCategory(id));
    Filter(documents, InCategory(id))
  }

  /** `deptUsers`: one entry per user whose category list is present and
      names `id`, and no other user; a user listing several departments is
      a member of each. */
  function DepartmentUsers(users: seq<User>, id: string): (r: seq<User>)
    ensures |r| == |MemberPositions(users, id)|
    ensures forall user :: user in r <==> user in users && user.categoryIds.Some? && id in user.categoryIds.value
    ensures forall user :: multiset(r)[user]
                           == if user.categoryIds.Some? && id in user.categoryIds.value then multiset(users)[user] else 0
  {
    forall user ensures multiset(Filter(users, MemberOf(id)))[user] ==
      if user.categoryIds.Some? && id in user.categoryIds.value then multiset(users)[user] else 0 {
      FilterKeeps(users, MemberOf(id), user);
    }
    FilterCountsPositions(users, MemberOf(id));
    assert Positions(users, MemberOf(id)) == MemberPositions(users, id);
    FilterMembers(users, MemberOf(id));
    Filter(users, MemberOf(id))
  }

  /** The record `categories.map` builds for one category, status still
      `normal`. A document counts for the one department its `categoryId`
      names; a user counts for every department it lists. */
  function DepartmentRecord(category: Category, documents: seq<Document>, users: seq<User>): (d: DepartmentEngagement)
    ensures d.departmentId == category.id && d.departmentName == category.name
    ensures d.totalDocuments == |DocumentPositions(documents, category.id)|
    ensures d.totalUsers == |MemberPositions(users, category.id)|
    ensures d.pendingActionPoints == SumOf(DepartmentDocuments(documents, category.id), PendingCount)
    ensures d.pendingActionPoints <= SumOf(DepartmentDocuments(documents, category.id), ActionPointCount)
    ensures d.engagementScore == EngagementScore(d.totalDocuments, d.pendingActionPoints, d.totalUsers)
    ensures d.status == Normal
  {
    var deptDocuments := DepartmentDocuments(documents, category.id);
    var deptUsers := DepartmentUsers(users, category.id);
    var pending := SumOf(deptDocuments, PendingCount);
    SumOfMonotone(deptDocuments, PendingCount, ActionPointCount);
    DepartmentEngagement(
      category.id, category.name,
      |deptDocuments|, pending, |deptUsers|,
      EngagementScore(|deptDocuments|, pending, |deptUsers|),
      Normal)
  }

  /** `categories.map(...)`: one record per category, in category order. */
  function Aggregate(categories: seq<Category>, documents: seq<Document>, users: seq<User>): (r: seq<DepartmentEngagement>)
    ensures |r| == |categories|
    ensures forall i :: 0 <= i < |r| ==>
      r[i].departmentId == categories[i].id && r[i].departmentName == categories[i].name && r[i].status == Normal
    ensures forall i :: 0 <= i < |r| ==>
      && r[i].totalDocuments == |DocumentPositions(documents, categories[i].id)|
      && r[i].totalUsers == |MemberPositions(users, categories[i].id)|
      && r[i].pendingActionPoints == SumOf(DepartmentDocuments(documents, categories[i].id), PendingCount)
      && r[i].engagementScore == EngagementScore(r[i].totalDocuments, r[i].pendingActionPoints, r[i].totalUsers)
  {
    seq(|categories|, i requires 0 <= i < |categories| => DepartmentRecord(categories[i], documents, users))
  }

  function CategoryIds(categories: seq<Category>): set<string>
  {
    set c | c in categories :: c.id
  }

  predicate DistinctIds(categories: seq<Category>)
  {
    forall i, j :: 0 <= i < j < |categories| ==> categories[i].id != categories[j].id
  }

  /** A document filed under one of the given categories. */
  function HasKnownCategory(categories: seq<Category>): Document -> bool
  {
    (doc: Document) => doc.categoryId in CategoryIds(categories)
  }

  function DocumentsOf(d: DepartmentEngagement): nat
  {
    d.totalDocuments
  }

  /** With distinct category ids, the departments' document counts add up
      to the number of documents filed under a known category: a document
      of an unknown category is dropped and none is counted twice. */
  lemma {:induction false} DocumentsAccountedFor(categories: seq<Category>, documents: seq<Document>, users: seq<User>)
    requires DistinctIds(categories)
    ensures SumOf(Aggregate(categories, documents, users), DocumentsOf) == |Filter(documents, HasKnownCategory(categories))|
  {
    if categories == [] {
      FilterNone(documents, HasKnownCategory(categories));
    } else {
      var n := |categories| - 1;
      var init, c := categories[..n], categories[n];
      DocumentsAccountedFor(init, documents, users);
      AggregateLast(categories, documents, users);
      KnownCategoriesSplit(categories);
      FilterDisjointUnion(documents, HasKnownCategory(init), InCategory(c.id), HasKnownCategory(categories));
    }
  }

  /** The last category contributes its own record to the sum. */
  lemma AggregateLast(categories: seq<Category>, documents: seq<Document>, users: seq<User>)
    requires categories != []
    ensures
      var n := |categories| - 1;
      SumOf(Aggregate(categories, documents, users), DocumentsOf)
        == SumOf(Aggregate(categories[..n], documents, users), DocumentsOf)
           + |Filter(documents, InCategory(categories[n].id))|
  {
    var n := |categories| - 1;
    var all := Aggregate(categories, documents, users);
    assert all[..n] == Aggregate(categories[..n], documents, users);
  }

  /** With distinct ids, a document's category is known to all the
      categories exactly when it is the last one's or known to the others,
      and never both. */
  lemma KnownCategoriesSplit(categories: seq<Category>)
    requires categories != [] && DistinctIds(categories)
    ensures
      var n := |categories| - 1;
      var init, c := categories[..n], categories[n];
      && (forall doc :: HasKnownCategory(categories)(doc) == (HasKnownCategory(init)(doc) || InCategory(c.id)(doc)))
      && (forall doc :: !(HasKnownCategory(init)(doc) && InCategory(c.id)(doc)))
  {
    var n := |categories| - 1;
    var init, c := categories[..n], categories[n];
    assert categories == init + [c];
    assert CategoryIds(categories) == CategoryIds(init) + {c.id};
    forall x | x in init ensures x.id != c.id {
      var k :| 0 <= k < n && init[k] == x;
    }
  }
}

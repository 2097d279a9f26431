/** The records the engagement engine reads and the record it derives, with
    only the fields the engine touches. */
module Entities {

  /** A field the source reads through optional chaining or a truthiness
      test, so it may be missing. */
  datatype Option<T> = None | Some(value: T)

  /** An action point of a document; only its completion flag matters. */
  datatype ActionPoint = ActionPoint(isCompleted: bool)

  /** A document belongs to the department named by `categoryId`; its list
      of action points may be missing. */
  datatype Document = Document(id: string, categoryId: string, actionPoints: Option<seq<ActionPoint>>)

  /** A department. */
  datatype Category = Category(id: string, name: string)

  /** A user is a member of every department listed in `categoryIds`; the
      list may be missing. */
  datatype User = User(id: string, categoryIds: Option<seq<string>>)

  datatype Status = Overloaded | Normal | Disengaged

  /** `DepartmentEngagementData`: one department's counts, score and status. */
  datatype DepartmentEngagement = DepartmentEngagement(
    departmentId: string,
    departmentName: string,
    totalDocuments: nat,
    pendingActionPoints: nat,
    totalUsers: nat,
    engagementScore: real,
    status: Status)
}

/**
 * The relational `achievement_references` table and the statements the
 * repository runs against it. A row is keyed by its id; a store failure is
 * an input `fault` (None: the statement succeeds, Some(m): it fails with m).
 */
module ReferenceStore {
  import opened Wrappers
  import opened Models
  import Ordering

  /** The ORDER BY key of both listings. */
  function CreatedAt(r: AchievementReference): Time {
    r.createdAt
  }

  /** A row belongs to a listing: every row when `student` is None, else that student's rows. */
  predicate Matches(r: AchievementReference, student: Option<string>) {
    student.None? || r.studentId == student.value
  }

  /** The rows among the keys `ids` that belong to the listing for `student`. */
  ghost function Selected(rows: map<string, AchievementReference>, ids: set<string>, student: Option<string>): set<AchievementReference> {
    set id | id in ids && id in rows && Matches(rows[id], student) :: rows[id]
  }

  /** `l` lists exactly the selected rows of `rows`, each once, newest first. */
  ghost predicate IsListing(l: seq<AchievementReference>, rows: map<string, AchievementReference>, student: Option<string>) {
    Ordering.NewestFirst(l, CreatedAt) && multiset(l) == multiset(Selected(rows, rows.Keys, student))
  }

  /** The row that an UPDATE of the five workflow columns leaves behind. */
  function WithStatus(r: AchievementReference, status: string, submittedAt: Option<Time>, verifiedAt: Option<Time>,
                      verifiedBy: Option<string>, rejectionNote: Option<string>, now: Time): AchievementReference
  {
    r.(status := status, submittedAt := submittedAt, verifiedAt := verifiedAt,
       verifiedBy := verifiedBy, rejectionNote := rejectionNote, updatedAt := Some(now))
  }

  /** The row that an UPDATE of the document link leaves behind. */
  function WithLink(r: AchievementReference, mongoId: string, now: Time): AchievementReference {
    r.(mongoAchievementId := mongoId, updatedAt := Some(now))
  }

  /** A statement's result: its error when it failed. */
  function Outcome(fault: Option<string>): Option<StoreError> {
    if fault.Some? then Some(Failed(fault.value)) else None
  }

  class AchievementRepository {
    var rows: map<string, AchievementReference>

    /** Every row is stored under its own id. */
    ghost predicate Valid()
      reads this
    {
      forall id :: id in rows ==> rows[id].id == id
    }

    constructor ()
      ensures Valid() && rows == map[]
    {
      rows := map[];
    }

    /**
     * INSERT with a database-generated id `newId`; the three verify/submit
     * columns are always written as NULL.
     */
    method Create(ar: AchievementReference, newId: string, fault: Option<string>) returns (err: Option<StoreError>)
      requires Valid()
      requires newId !in rows
      modifies this
      ensures Valid()
      ensures err == Outcome(fault)
      ensures fault.Some? ==> rows == old(rows)
      ensures fault.None? ==> rows == old(rows)[newId := AchievementReference(
        newId, ar.studentId, ar.mongoAchievementId, ar.status, None, None, None,
        ar.rejectionNote, ar.createdAt, ar.updatedAt)]
    {
      err := Outcome(fault);
      if fault.None? {
        rows := rows[newId := AchievementReference(
          newId, ar.studentId, ar.mongoAchievementId, ar.status, None, None, None,
          ar.rejectionNote, ar.createdAt, ar.updatedAt)];
      }
    }

    /** SELECT of one row by id; no matching row is an error. */
    method FindByID(id: string, fault: Option<string>) returns (r: Result<AchievementReference, StoreError>)
      requires Valid()
      ensures fault.Some? ==> r == Failure(Failed(fault.value))
      ensures fault.None? && id !in rows ==> r == Failure(NoRows)
      ensures r.Success? <==> fault.None? && id in rows
      ensures r.Success? ==> r.value == rows[id] && r.value.id == id
    {
      if fault.Some? {
        r := Failure(Failed(fault.value));
      } else if id in rows {
        r := Success(rows[id]);
      } else {
        r := Failure(NoRows);
      }
    }

    /** Collects the rows of the listing for `student`, newest first. */
    method Query(student: Option<string>) returns (res: seq<AchievementReference>)
      requires Valid()
      ensures IsListing(res, rows, student)
    {
      res := [];
      var todo := rows.Keys;
      ghost var done: set<string> := {};
      while todo != {}
        invariant todo !! done && todo + done == rows.Keys
        invariant Ordering.NewestFirst(res, CreatedAt)
        invariant multiset(res) == multiset(Selected(rows, done, student))
        decreases todo
      {
        var id :| id in todo;
        ScanStep(rows, done, id, student, res);
        res := Scanned(res, rows[id], student);
        todo := todo - {id};
        done := done + {id};
      }
    }

    /** SELECT of every row, ORDER BY created_at DESC. */
    method ListAll(fault: Option<string>) returns (r: Result<seq<AchievementReference>, StoreError>)
      requires Valid()
      ensures r.Failure? <==> fault.Some?
      ensures fault.Some? ==> r.error == Failed(fault.value)
      ensures r.Success? ==> IsListing(r.value, rows, None)
    {
      if fault.Some? {
        return Failure(Failed(fault.value));
      }
      var l := Query(None);
      r := Success(l);
    }

    /** SELECT of the rows of one student, ORDER BY created_at DESC. */
    method ListByStudent(studentId: string, fault: Option<string>) returns (r: Result<seq<AchievementReference>, StoreError>)
      requires Valid()
      ensures r.Failure? <==> fault.Some?
      ensures fault.Some? ==> r.error == Failed(fault.value)
      ensures r.Success? ==> IsListing(r.value, rows, Some(studentId))
    {
      if fault.Some? {
        return Failure(Failed(fault.value));
      }
      var l := Query(Some(studentId));
      r := Success(l);
    }

    /**
     * UPDATE of status, submitted_at, verified_at, verified_by, rejection_note
     * and updated_at; absent arguments are written as NULL. The number of
     * affected rows is not checked, so an unknown id is not an error.
     */
    method UpdateStatus(id: string, status: string, submittedAt: Option<Time>, verifiedAt: Option<Time>,
                        verifiedBy: Option<string>, rejectionNote: Option<string>, now: Time,
                        fault: Option<string>) returns (err: Option<StoreError>)
      requires Valid()
      modifies this
      ensures Valid()
      ensures err == Outcome(fault)
      ensures fault.Some? || id !in old(rows) ==> rows == old(rows)
      ensures fault.None? && id in old(rows) ==>
        rows == old(rows)[id := WithStatus(old(rows)[id], status, submittedAt, verifiedAt, verifiedBy, rejectionNote, now)]
    {
      err := Outcome(fault);
      if fault.None? && id in rows {
        rows := rows[id := WithStatus(rows[id], status, submittedAt, verifiedAt, verifiedBy, rejectionNote, now)];
      }
    }

    /** UPDATE of mongo_achievement_id and updated_at only. */
    method UpdateMongoID(id: string, mongoId: string, now: Time, fault: Option<string>) returns (err: Option<StoreError>)
      requires Valid()
      modifies this
      ensures Valid()
      ensures err == Outcome(fault)
      ensures fault.Some? || id !in old(rows) ==> rows == old(rows)
      ensures fault.None? && id in old(rows) ==> rows == old(rows)[id := WithLink(old(rows)[id], mongoId, now)]
    {
      err := Outcome(fault);
      if fault.None? && id in rows {
        rows := rows[id := WithLink(rows[id], mongoId, now)];
      }
    }

    /** DELETE of the row with that id, if any. */
    method Delete(id: string, fault: Option<string>) returns (err: Option<StoreError>)
      requires Valid()
      modifies this
      ensures Valid()
      ensures err == Outcome(fault)
      ensures fault.Some? ==> rows == old(rows)
      ensures fault.None? ==> rows == old(rows) - {id}
    {
      err := Outcome(fault);
      if fault.None? {
        rows := rows - {id};
      }
    }
  }

  /** Adding one key to the scanned set adds at most that key's row, which was not yet selected. */
  lemma SelectedStep(rows: map<string, AchievementReference>, done: set<string>, id: string, student: Option<string>)
    requires forall k :: k in rows ==> rows[k].id == k
    requires id in rows && id !in done
    ensures rows[id] !in Selected(rows, done, student)
    ensures Selected(rows, done + {id}, student) ==
      Selected(rows, done, student) + (if Matches(rows[id], student) then {rows[id]} else {})
    ensures multiset(Selected(rows, done + {id}, student)) ==
      multiset(Selected(rows, done, student)) + (if Matches(rows[id], student) then multiset{rows[id]} else multiset{})
  {
    var before := Selected(rows, done, student);
    var after := Selected(rows, done + {id}, student);
    if Matches(rows[id], student) {
      assert after == before + {rows[id]};
      assert multiset(after) == multiset(before) + multiset{rows[id]};
    } else {
      assert after == before;
    }
  }

  /** The listing after scanning one more row: the row is inserted when it matches. */
  function Scanned(res: seq<AchievementReference>, r: AchievementReference, student: Option<string>): seq<AchievementReference> {
    if Matches(r, student) then Ordering.InsertNewestFirst(res, r, CreatedAt) else res
  }

  /** Scanning one more row keeps the listing ordered and equal to the selection of the scanned keys. */
  lemma ScanStep(rows: map<string, AchievementReference>, done: set<string>, id: string, student: Option<string>,
                 res: seq<AchievementReference>)
    requires forall k :: k in rows ==> rows[k].id == k
    requires id in rows && id !in done
    requires Ordering.NewestFirst(res, CreatedAt)
    requires multiset(res) == multiset(Selected(rows, done, student))
    ensures Ordering.NewestFirst(Scanned(res, rows[id], student), CreatedAt)
    ensures multiset(Scanned(res, rows[id], student)) == multiset(Selected(rows, done + {id}, student))
  {
    SelectedStep(rows, done, id, student);
    if Matches(rows[id], student) {
      Ordering.InsertKeepsNewestFirst(res, rows[id], CreatedAt);
    }
  }

  /**
   * What a listing holds: a row of the listing is a stored row of the
   * selection, every stored row of the selection is listed, and no row is
   * listed twice.
   */
  lemma ListingMembers(l: seq<AchievementReference>, rows: map<string, AchievementReference>,
                                          student: Option<string>, r: AchievementReference)
    requires forall k :: k in rows ==> rows[k].id == k
    requires IsListing(l, rows, student)
    ensures r in l <==> r.id in rows && rows[r.id] == r && Matches(r, student)
    ensures multiset(l)[r] <= 1
  {
    var sel := Selected(rows, rows.Keys, student);
    assert r in l <==> r in multiset(l);
    if r in sel {
      var k :| k in rows && Matches(rows[k], student) && rows[k] == r;
      assert r.id == k;
    }
    if r.id in rows && rows[r.id] == r && Matches(r, student) {
      assert r in sel;
    }
  }
}

/**
 * The achievement coordinator: keeps a reference row and its linked
 * document in step across two stores that share no transaction, runs the
 * (permissive) status workflow, appends best-effort history, and merges the
 * two records for reading.
 *
 * Each handler takes the request's parsed inputs, the request locals
 * (`user_id`, `role_id`, absent when not a string), the current time, the
 * fresh ids the stores would generate, and one fault input per store call.
 */
module Service {
  import opened Wrappers
  import opened Models
  import opened ReferenceStore
  import opened DocumentStore
  import opened HistoryLedger
  import Ordering

  /** A JSON response body. */
  datatype Body =
    | Message(message: string)                         // {"message": ...}
    | Error(error: string)                             // {"error": ...}
    | StoreFailure(err: StoreError)                    // {"error": err.Error()}
    | Created(mongoId: string)                         // {"message": "created", "mongo_id": ...}
    | Achievement(resp: AchievementResponse)
    | Achievements(refs: seq<AchievementReference>)
    | HistoryRows(entries: seq<HistoryEntry>)

  datatype Response = Response(status: int, body: Body)

  /** The multipart `file` field: name, size and Content-Type header. */
  datatype FileHeader = FileHeader(fileName: string, size: int, contentType: string)

  /** Which references a listing request selects. */
  datatype Scope = AllReferences | StudentReferences(studentId: string)

  const AdminRole: string := "Admin"

  /** List's role branching: None is the 400 "student_id required" case. */
  function ListScope(role: Option<string>, studentQuery: string): (s: Option<Scope>)
    ensures s.None? <==> role != Some(AdminRole) && studentQuery == ""
    ensures s == Some(AllReferences) <==> role == Some(AdminRole) && studentQuery == ""
    ensures s.Some? && s.value.StudentReferences? ==> s.value.studentId == studentQuery
  {
    if role == Some(AdminRole) then
      if studentQuery != "" then Some(StudentReferences(studentQuery)) else Some(AllReferences)
    else if studentQuery == "" then None
    else Some(StudentReferences(studentQuery))
  }

  function StudentFilter(s: Scope): Option<string> {
    match s
    case AllReferences => None
    case StudentReferences(id) => Some(id)
  }

  /** The document fields merged into a response. */
  function View(d: MongoAchievement): DocView {
    DocView(d.id, d.title, d.description, d.files, d.extra, d.createdAt, d.updatedAt)
  }

  /** The reference a response was built from (the response without its document). */
  function ReferenceOf(r: AchievementResponse): AchievementReference {
    AchievementReference(r.id, r.studentId, r.mongoAchievementId, r.status, r.submittedAt, r.verifiedAt,
                         r.verifiedBy, r.rejectionNote, r.createdAt, r.updatedAt)
  }

  /** A response: the reference's fields copied unchanged, plus the document's view when one was read. */
  function Merge(ar: AchievementReference, d: Option<MongoAchievement>): (r: AchievementResponse)
    ensures ReferenceOf(r) == ar
    ensures r.doc.Some? <==> d.Some?
    ensures d.Some? ==> r.doc.value == View(d.value)
  {
    AchievementResponse(ar.id, ar.studentId, ar.mongoAchievementId, ar.status,
                        if d.Some? then Some(View(d.value)) else None,
                        ar.submittedAt, ar.verifiedAt, ar.verifiedBy, ar.rejectionNote, ar.createdAt, ar.updatedAt)
  }

  /** What reading a reference's link yields: its document only if the link is set, decodes and the fetch succeeds. */
  function LinkedDocument(docs: map<string, MongoAchievement>, link: string, fault: Option<string>): (d: Option<MongoAchievement>)
    ensures d.Some? <==> link != "" && IsObjectIdHex(link) && fault.None? && ObjectIdKey(link) in docs
    ensures d.Some? ==> d.value == docs[ObjectIdKey(link)]
  {
    if link != "" && IsObjectIdHex(link) && fault.None? && ObjectIdKey(link) in docs then Some(docs[ObjectIdKey(link)]) else None
  }

  function FaultAt(faults: map<nat, string>, i: nat): Option<string> {
    if i in faults then Some(faults[i]) else None
  }

  /** The row Create asks the reference store to insert. */
  function DraftReference(studentId: string, mongoId: string, now: Time): AchievementReference {
    AchievementReference("", studentId, mongoId, Draft, None, None, None, None, now, None)
  }

  /** The document Create asks the document store to insert. */
  function NewDocument(req: CreateAchievementRequest, now: Time): MongoAchievement {
    MongoAchievement("", req.studentId, "", "", [], req.doc, now, None)
  }

  /** The columns a transition never touches. */
  predicate SameIdentity(a: AchievementReference, b: AchievementReference) {
    a.id == b.id && a.studentId == b.studentId && a.mongoAchievementId == b.mongoAchievementId && a.createdAt == b.createdAt
  }

  /** Submit: submitted_at set, the verify and reject columns cleared. */
  function SubmitEffect(r: AchievementReference, now: Time): (s: AchievementReference)
    ensures SameIdentity(s, r) && s.updatedAt == Some(now)
    ensures s.status == Submitted && s.submittedAt == Some(now)
    ensures s.verifiedAt.None? && s.verifiedBy.None? && s.rejectionNote.None?
  {
    WithStatus(r, Submitted, Some(now), None, None, None, now)
  }

  /** Verify: verified_at and verified_by set, submitted_at and rejection_note cleared. */
  function VerifyEffect(r: AchievementReference, verifier: string, now: Time): (v: AchievementReference)
    ensures SameIdentity(v, r) && v.updatedAt == Some(now)
    ensures v.status == Verified && v.verifiedAt == Some(now) && v.verifiedBy == Some(verifier)
    ensures v.submittedAt.None? && v.rejectionNote.None?
  {
    WithStatus(r, Verified, None, Some(now), Some(verifier), None, now)
  }

  /** Reject: verified_by and rejection_note set, submitted_at and verified_at cleared. */
  function RejectEffect(r: AchievementReference, verifier: string, note: string, now: Time): (j: AchievementReference)
    ensures SameIdentity(j, r) && j.updatedAt == Some(now)
    ensures j.status == Rejected && j.verifiedBy == Some(verifier) && j.rejectionNote == Some(note)
    ensures j.submittedAt.None? && j.verifiedAt.None?
  {
    WithStatus(r, Rejected, None, None, Some(verifier), Some(note), now)
  }

  /** `rows` after a status update of `id` that succeeded (an unknown id changes nothing). */
  function UpdatedRows(rows: map<string, AchievementReference>, id: string, r: AchievementReference -> AchievementReference): map<string, AchievementReference> {
    if id in rows then rows[id := r(rows[id])] else rows
  }

  class AchievementService {
    const pg: AchievementRepository
    const mongo: MongoAchievementRepository
    const ledger: Ledger

    ghost predicate Valid()
      reads pg, mongo
    {
      pg.Valid() && mongo.Valid()
    }

    constructor (pg: AchievementRepository, mongo: MongoAchievementRepository, ledger: Ledger)
      ensures this.pg == pg && this.mongo == mongo && this.ledger == ledger
    {
      this.pg := pg;
      this.mongo := mongo;
      this.ledger := ledger;
    }

    /** GET /achievements: the selected references, newest first. */
    method List(role: Option<string>, studentQuery: string, fault: Option<string>) returns (resp: Response)
      requires Valid()
      ensures ListScope(role, studentQuery).None? ==> resp == Response(400, Error("student_id required"))
      ensures ListScope(role, studentQuery).Some? && fault.Some? ==> resp == Response(500, StoreFailure(Failed(fault.value)))
      ensures ListScope(role, studentQuery).Some? && fault.None? ==>
        resp.status == 200 && resp.body.Achievements? &&
        IsListing(resp.body.refs, pg.rows, StudentFilter(ListScope(role, studentQuery).value))
      ensures resp.status == 200 && role != Some(AdminRole) ==>
        resp.body.Achievements? && forall r :: r in resp.body.refs ==> r.studentId == studentQuery
    {
      var scope := ListScope(role, studentQuery);
      if scope.None? {
        return Response(400, Error("student_id required"));
      }
      var list: Result<seq<AchievementReference>, StoreError>;
      match scope.value {
        case StudentReferences(sid) =>
          list := pg.ListByStudent(sid, fault);
        case AllReferences =>
          list := pg.ListAll(fault);
      }
      if list.Failure? {
        return Response(500, StoreFailure(list.error));
      }
      resp := Response(200, Achievements(list.value));
      forall r | r in list.value && role != Some(AdminRole)
        ensures r.studentId == studentQuery
      {
        ListingMembers(list.value, pg.rows, StudentFilter(scope.value), r);
      }
    }

    /** Reads a reference's linked document; any failure yields no document. */
    method FetchLinked(link: string, fault: Option<string>) returns (d: Option<MongoAchievement>)
      requires mongo.Valid()
      ensures d == LinkedDocument(mongo.docs, link, fault)
    {
      d := None;
      if link != "" {
        var r := mongo.FindByIDHex(link, fault);
        if r.Success? {
          d := Some(r.value);
        }
      }
    }

    /**
     * One response per reference, in input order; fetching the document of
     * the i-th reference fails with faults[i] when i is a key of `faults`.
     */
    method BuildResponses(list: seq<AchievementReference>, faults: map<nat, string>) returns (out: seq<AchievementResponse>)
      requires mongo.Valid()
      ensures |out| == |list|
      ensures forall i :: 0 <= i < |list| ==>
        out[i] == Merge(list[i], LinkedDocument(mongo.docs, list[i].mongoAchievementId, FaultAt(faults, i)))
    {
      out := [];
      var i := 0;
      while i < |list|
        invariant 0 <= i <= |list|
        invariant |out| == i
        invariant forall k :: 0 <= k < i ==>
          out[k] == Merge(list[k], LinkedDocument(mongo.docs, list[k].mongoAchievementId, FaultAt(faults, k)))
      {
        var d := FetchLinked(list[i].mongoAchievementId, FaultAt(faults, i));
        out := out + [Merge(list[i], d)];
        i := i + 1;
      }
    }

    /** GET /achievements/{id}: the reference merged with its document when that can be read. */
    method GetByID(id: string, findFault: Option<string>, fetchFault: Option<string>) returns (resp: Response)
      requires Valid()
      ensures resp == Response(404, Error("not found")) <==> findFault.Some? || id !in pg.rows
      ensures findFault.None? && id in pg.rows ==>
        resp == Response(200, Achievement(Merge(pg.rows[id], LinkedDocument(mongo.docs, pg.rows[id].mongoAchievementId, fetchFault))))
    {
      var found := pg.FindByID(id, findFault);
      if found.Failure? {
        return Response(404, Error("not found"));
      }
      var d := FetchLinked(found.value.mongoAchievementId, fetchFault);
      resp := Response(200, Achievement(Merge(found.value, d)));
    }

    /**
     * POST /achievements: insert the document, then the draft reference that
     * links it; when the reference insert fails, delete the document again
     * (best effort) and report the reference store's error.
     */
    method Create(req: Option<CreateAchievementRequest>, docId: string, refId: string, now: Time,
                  insertFault: Option<string>, createFault: Option<string>, cleanupFault: Option<string>)
      returns (resp: Response)
      requires Valid()
      requires IsCanonicalHex(docId) && docId !in mongo.docs && refId !in pg.rows
      modifies pg, mongo
      ensures Valid()
      ensures req.None? ==> resp == Response(400, Error("invalid request"))
      ensures req.Some? && req.value.studentId == "" ==> resp == Response(400, Error("student_id required"))
      ensures req.None? || req.value.studentId == "" || insertFault.Some? ==>
        pg.rows == old(pg.rows) && mongo.docs == old(mongo.docs)
      ensures req.Some? && req.value.studentId != "" && insertFault.Some? ==>
        resp == Response(500, StoreFailure(Failed(insertFault.value)))
      ensures req.Some? && req.value.studentId != "" && insertFault.None? && createFault.Some? ==>
        resp == Response(500, StoreFailure(Failed(createFault.value))) &&
        pg.rows == old(pg.rows) &&
        mongo.docs == (if cleanupFault.None? then old(mongo.docs)
                       else old(mongo.docs)[docId := MongoAchievement(docId, req.value.studentId, "", "", [], req.value.doc, now, None)])
      ensures req.Some? && req.value.studentId != "" && insertFault.None? && createFault.None? ==>
        resp == Response(201, Created(docId)) &&
        mongo.docs == old(mongo.docs)[docId := MongoAchievement(docId, req.value.studentId, "", "", [], req.value.doc, now, None)] &&
        pg.rows == old(pg.rows)[refId := AchievementReference(refId, req.value.studentId, docId, Draft, None, None, None, None, now, None)]
      ensures resp.status == 201 ==>
        refId in pg.rows && LinkedDocument(mongo.docs, pg.rows[refId].mongoAchievementId, None).Some? &&
        LinkedDocument(mongo.docs, pg.rows[refId].mongoAchievementId, None).value.studentId == pg.rows[refId].studentId
    {
      if req.None? {
        return Response(400, Error("invalid request"));
      }
      var r := req.value;
      if r.studentId == "" {
        return Response(400, Error("student_id required"));
      }
      var inserted := mongo.Insert(NewDocument(r, now), docId, now, insertFault);
      if inserted.Failure? {
        return Response(500, StoreFailure(inserted.error));
      }
      var hexId := inserted.value;
      var err := pg.Create(DraftReference(r.studentId, hexId, now), refId, createFault);
      if err.Some? {
        ObjectIdKeyCanonical(hexId);
        var _ := mongo.DeleteByHex(hexId, cleanupFault);
        assert cleanupFault.None? ==> mongo.docs == old(mongo.docs);
        return Response(500, StoreFailure(err.value));
      }
      ObjectIdKeyCanonical(hexId);
      resp := Response(201, Created(hexId));
    }

    /** PUT /achievements/{id}: repoint the document link when a non-empty one is given. */
    method Update(id: string, req: Option<UpdateAchievementRequest>, now: Time,
                  findFault: Option<string>, updateFault: Option<string>) returns (resp: Response)
      requires Valid()
      modifies pg
      ensures Valid()
      ensures req.None? ==> resp == Response(400, Error("invalid request")) && pg.rows == old(pg.rows)
      ensures req.Some? && (findFault.Some? || id !in old(pg.rows)) ==>
        resp == Response(404, Error("not found")) && pg.rows == old(pg.rows)
      ensures req.Some? && findFault.None? && id in old(pg.rows) ==>
        var link := req.value.mongoAchievementId;
        if link.Some? && link.value != "" then
          (updateFault.Some? ==> resp == Response(500, StoreFailure(Failed(updateFault.value))) && pg.rows == old(pg.rows)) &&
          (updateFault.None? ==> resp == Response(200, Message("updated")) &&
                                 pg.rows == old(pg.rows)[id := WithLink(old(pg.rows)[id], link.value, now)])
        else
          resp == Response(200, Message("updated")) && pg.rows == old(pg.rows)
    {
      if req.None? {
        return Response(400, Error("invalid request"));
      }
      var found := pg.FindByID(id, findFault);
      if found.Failure? {
        return Response(404, Error("not found"));
      }
      var link := req.value.mongoAchievementId;
      if link.Some? && link.value != "" {
        var err := pg.UpdateMongoID(id, link.value, now, updateFault);
        if err.Some? {
          return Response(500, StoreFailure(err.value));
        }
      }
      resp := Response(200, Message("updated"));
    }

    /** DELETE /achievements/{id}: delete the linked document (errors ignored), then the reference. */
    method Delete(id: string, findFault: Option<string>, docFault: Option<string>, deleteFault: Option<string>)
      returns (resp: Response)
      requires Valid()
      modifies pg, mongo
      ensures Valid()
      ensures findFault.Some? || id !in old(pg.rows) ==>
        resp == Response(404, Error("not found")) && pg.rows == old(pg.rows) && mongo.docs == old(mongo.docs)
      ensures findFault.None? && id in old(pg.rows) ==>
        var link := old(pg.rows)[id].mongoAchievementId;
        mongo.docs == (if link != "" && IsObjectIdHex(link) && docFault.None? then old(mongo.docs) - {ObjectIdKey(link)}
                       else old(mongo.docs)) &&
        (deleteFault.Some? ==> resp == Response(500, StoreFailure(Failed(deleteFault.value))) && pg.rows == old(pg.rows)) &&
        (deleteFault.None? ==> resp == Response(200, Message("deleted")) && pg.rows == old(pg.rows) - {id})
    {
      var found := pg.FindByID(id, findFault);
      if found.Failure? {
        return Response(404, Error("not found"));
      }
      var link := found.value.mongoAchievementId;
      if link != "" {
        var _ := mongo.DeleteByHex(link, docFault);
      }
      var err := pg.Delete(id, deleteFault);
      if err.Some? {
        return Response(500, StoreFailure(err.value));
      }
      resp := Response(200, Message("deleted"));
    }

    /** POST /achievements/{id}/submit: whatever the current status. */
    method Submit(id: string, user: Option<string>, now: Time, updateFault: Option<string>,
                  historyId: string, historyFault: Option<string>) returns (resp: Response)
      requires Valid()
      modifies pg, ledger
      ensures Valid()
      ensures updateFault.Some? ==>
        resp == Response(500, StoreFailure(Failed(updateFault.value))) &&
        pg.rows == old(pg.rows) && ledger.entries == old(ledger.entries)
      ensures updateFault.None? ==>
        resp == Response(200, Message("submitted")) &&
        pg.rows == UpdatedRows(old(pg.rows), id, r => SubmitEffect(r, now)) &&
        ledger.entries == old(ledger.entries) +
          (if historyFault.None? then [HistoryEntry(historyId, id, Draft, Submitted, user, None, now)] else [])
    {
      var err := pg.UpdateStatus(id, Submitted, Some(now), None, None, None, now, updateFault);
      if err.Some? {
        return Response(500, StoreFailure(err.value));
      }
      var _ := InsertHistoryIfTableExists(id, Draft, Submitted, user, historyId, now, historyFault);
      resp := Response(200, Message("submitted"));
    }

    /** POST /achievements/{id}/verify: needs a non-empty `user_id`; whatever the current status. */
    method Verify(id: string, user: Option<string>, now: Time, updateFault: Option<string>,
                  historyId: string, historyFault: Option<string>) returns (resp: Response)
      requires Valid()
      modifies pg, ledger
      ensures Valid()
      ensures user.GetOr("") == "" ==>
        resp == Response(403, Error("forbidden")) && pg.rows == old(pg.rows) && ledger.entries == old(ledger.entries)
      ensures user.GetOr("") != "" && updateFault.Some? ==>
        resp == Response(500, StoreFailure(Failed(updateFault.value))) &&
        pg.rows == old(pg.rows) && ledger.entries == old(ledger.entries)
      ensures user.GetOr("") != "" && updateFault.None? ==>
        resp == Response(200, Message("verified")) &&
        pg.rows == UpdatedRows(old(pg.rows), id, r => VerifyEffect(r, user.value, now)) &&
        ledger.entries == old(ledger.entries) +
          (if historyFault.None? then [HistoryEntry(historyId, id, Submitted, Verified, user, None, now)] else [])
    {
      var verifier := user.GetOr("");
      if verifier == "" {
        return Response(403, Error("forbidden"));
      }
      var err := pg.UpdateStatus(id, Verified, None, Some(now), Some(verifier), None, now, updateFault);
      if err.Some? {
        return Response(500, StoreFailure(err.value));
      }
      var _ := InsertHistoryIfTableExists(id, Submitted, Verified, Some(verifier), historyId, now, historyFault);
      resp := Response(200, Message("verified"));
    }

    /** POST /achievements/{id}/reject: needs a parsable body and a non-empty `user_id`; the note is stored as given. */
    method Reject(id: string, body: Option<RejectRequest>, user: Option<string>, now: Time,
                  updateFault: Option<string>, historyId: string, historyFault: Option<string>) returns (resp: Response)
      requires Valid()
      modifies pg, ledger
      ensures Valid()
      ensures body.None? ==>
        resp == Response(400, Error("invalid request")) && pg.rows == old(pg.rows) && ledger.entries == old(ledger.entries)
      ensures body.Some? && user.GetOr("") == "" ==>
        resp == Response(403, Error("forbidden")) && pg.rows == old(pg.rows) && ledger.entries == old(ledger.entries)
      ensures body.Some? && user.GetOr("") != "" && updateFault.Some? ==>
        resp == Response(500, StoreFailure(Failed(updateFault.value))) &&
        pg.rows == old(pg.rows) && ledger.entries == old(ledger.entries)
      ensures body.Some? && user.GetOr("") != "" && updateFault.None? ==>
        resp == Response(200, Message("rejected")) &&
        pg.rows == UpdatedRows(old(pg.rows), id, r => RejectEffect(r, user.value, body.value.note, now)) &&
        ledger.entries == old(ledger.entries) +
          (if historyFault.None? then [HistoryEntry(historyId, id, Submitted, Rejected, user, None, now)] else [])
    {
      if body.None? {
        return Response(400, Error("invalid request"));
      }
      var verifier := user.GetOr("");
      if verifier == "" {
        return Response(403, Error("forbidden"));
      }
      var note := body.value.note;
      var err := pg.UpdateStatus(id, Rejected, None, None, Some(verifier), Some(note), now, updateFault);
      if err.Some? {
        return Response(500, StoreFailure(err.value));
      }
      var _ := InsertHistoryIfTableExists(id, Submitted, Rejected, Some(verifier), historyId, now, historyFault);
      resp := Response(200, Message("rejected"));
    }

    /**
     * GET /achievements/{id}/history: the ledger rows of the reference, newest
     * first; when the ledger cannot be read, the current reference alone.
     */
    method History(id: string, queryFault: Option<string>, findFault: Option<string>) returns (resp: Response)
      requires Valid()
      ensures queryFault.None? ==>
        resp.status == 200 && resp.body.HistoryRows? &&
        Ordering.NewestFirst(resp.body.entries, ChangedAt) &&
        multiset(resp.body.entries) == multiset(ForAchievement(ledger.entries, id))
      ensures queryFault.Some? && findFault.Some? ==> resp == Response(500, StoreFailure(Failed(findFault.value)))
      ensures queryFault.Some? && findFault.None? && id !in pg.rows ==> resp == Response(500, StoreFailure(NoRows))
      ensures queryFault.Some? && findFault.None? && id in pg.rows ==> resp == Response(200, Achievements([pg.rows[id]]))
    {
      var rows := ledger.ByAchievement(id, queryFault);
      if rows.Failure? {
        var found := pg.FindByID(id, findFault);
        if found.Failure? {
          return Response(500, StoreFailure(found.error));
        }
        return Response(200, Achievements([found.value]));
      }
      resp := Response(200, HistoryRows(rows.value));
    }

    /**
     * POST /achievements/{id}/attachments: append the file's metadata to the
     * linked document's `files`. `openFails` says whether opening the
     * uploaded file fails.
     */
    method UploadAttachment(id: string, file: Option<FileHeader>, openFails: bool, now: Time,
                            findFault: Option<string>, updateFault: Option<string>) returns (resp: Response)
      requires Valid()
      modifies mongo
      ensures Valid()
      ensures findFault.Some? || id !in pg.rows ==>
        resp == Response(404, Error("achievement not found")) && mongo.docs == old(mongo.docs)
      ensures findFault.None? && id in pg.rows && pg.rows[id].mongoAchievementId == "" ==>
        resp == Response(400, Error("no mongo document linked")) && mongo.docs == old(mongo.docs)
      ensures findFault.None? && id in pg.rows && pg.rows[id].mongoAchievementId != "" && file.None? ==>
        resp == Response(400, Error("file required")) && mongo.docs == old(mongo.docs)
      ensures findFault.None? && id in pg.rows && pg.rows[id].mongoAchievementId != "" && file.Some? && openFails ==>
        resp == Response(500, Error("cannot open file")) && mongo.docs == old(mongo.docs)
      ensures findFault.None? && id in pg.rows && pg.rows[id].mongoAchievementId != "" && file.Some? && !openFails ==>
        var link := pg.rows[id].mongoAchievementId;
        var meta := FileMeta(file.value.fileName, file.value.size, file.value.contentType, now);
        if !IsObjectIdHex(link) then
          resp == Response(500, StoreFailure(InvalidObjectId)) && mongo.docs == old(mongo.docs)
        else if updateFault.Some? then
          resp == Response(500, StoreFailure(Failed(updateFault.value))) && mongo.docs == old(mongo.docs)
        else
          resp == Response(200, Message("attachment uploaded")) &&
          mongo.docs == (if ObjectIdKey(link) in old(mongo.docs)
                         then old(mongo.docs)[ObjectIdKey(link) := Apply(old(mongo.docs)[ObjectIdKey(link)], PushFile(meta))]
                         else old(mongo.docs))
    {
      var found := pg.FindByID(id, findFault);
      if found.Failure? {
        return Response(404, Error("achievement not found"));
      }
      var mongoHex := found.value.mongoAchievementId;
      if mongoHex == "" {
        return Response(400, Error("no mongo document linked"));
      }
      if file.None? {
        return Response(400, Error("file required"));
      }
      if openFails {
        return Response(500, Error("cannot open file"));
      }
      var meta := FileMeta(file.value.fileName, file.value.size, file.value.contentType, now);
      var err := mongo.UpdateByHex(mongoHex, PushFile(meta), updateFault);
      if err.Some? {
        return Response(500, StoreFailure(err.value));
      }
      resp := Response(200, Message("attachment uploaded"));
    }

    /** Appends one ledger row with the actor as given and a NULL note; the caller ignores the error. */
    method InsertHistoryIfTableExists(achievementRefId: string, oldStatus: string, newStatus: string,
                                      changedBy: Option<string>, newId: string, now: Time, fault: Option<string>)
      returns (err: Option<string>)
      modifies ledger
      ensures err == fault
      ensures ledger.entries == old(ledger.entries) +
        (if fault.None? then [HistoryEntry(newId, achievementRefId, oldStatus, newStatus, changedBy, None, now)] else [])
    {
      err := ledger.Insert(HistoryEntry(newId, achievementRefId, oldStatus, newStatus, changedBy, None, now), fault);
    }
  }
}

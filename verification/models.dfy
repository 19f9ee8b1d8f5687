/**
 * Record shapes of the achievement domain: the relational reference row,
 * the document-store record, the API response that merges the two, the
 * history ledger row and the request bodies.
 */
module Models {
  import opened Wrappers

  /** An instant, in nanoseconds from a fixed epoch. */
  type Time = int

  const Second: int := 1_000_000_000
  const Minute: int := 60 * Second
  const Hour: int := 60 * Minute

  /** Workflow status values written by the service. */
  const Draft: string := "draft"
  const Submitted: string := "submitted"
  const Verified: string := "verified"
  const Rejected: string := "rejected"

  /** A schema-less value as held in a document's `extra` map. */
  datatype Value =
    | Null
    | Bool(b: bool)
    | Number(n: int)
    | Text(s: string)
    | Array(items: seq<Value>)
    | Object(fields: map<string, Value>)

  /** A relational `achievement_references` row; absent options are SQL NULLs. */
  datatype AchievementReference = AchievementReference(
    id: string,
    studentId: string,
    mongoAchievementId: string,
    status: string,
    submittedAt: Option<Time>,
    verifiedAt: Option<Time>,
    verifiedBy: Option<string>,
    rejectionNote: Option<string>,
    createdAt: Time,
    updatedAt: Option<Time>)

  /** Metadata of one uploaded attachment, as pushed onto a document's `files`. */
  datatype FileMeta = FileMeta(fileName: string, fileSize: int, contentType: string, uploadedAt: Time)

  /** A document in the `achievements` collection, keyed by its ObjectID hex. */
  datatype MongoAchievement = MongoAchievement(
    id: string,
    studentId: string,
    title: string,
    description: string,
    files: seq<FileMeta>,
    extra: map<string, Value>,
    createdAt: Time,
    updatedAt: Option<Time>)

  /** The projection of a document that is merged into a response. */
  datatype DocView = DocView(
    id: string,
    title: string,
    description: string,
    files: seq<FileMeta>,
    extra: map<string, Value>,
    createdAt: Time,
    updatedAt: Option<Time>)

  /** A reference as returned by the API, with its document merged in when it could be read. */
  datatype AchievementResponse = AchievementResponse(
    id: string,
    studentId: string,
    mongoAchievementId: string,
    status: string,
    doc: Option<DocView>,
    submittedAt: Option<Time>,
    verifiedAt: Option<Time>,
    verifiedBy: Option<string>,
    rejectionNote: Option<string>,
    createdAt: Time,
    updatedAt: Option<Time>)

  /** A row of the `achievement_reference_history` ledger. */
  datatype HistoryEntry = HistoryEntry(
    id: string,
    achievementRefId: string,
    oldStatus: string,
    newStatus: string,
    changedBy: Option<string>,
    note: Option<string>,
    changedAt: Time)

  /** Request bodies; a body that fails to parse is modelled as an absent request. */
  datatype CreateAchievementRequest = CreateAchievementRequest(studentId: string, doc: map<string, Value>)
  datatype UpdateAchievementRequest = UpdateAchievementRequest(mongoAchievementId: Option<string>)
  datatype RejectRequest = RejectRequest(note: string)

  /** Errors reported by the two stores. */
  datatype StoreError =
    | NoRows                    // the relational lookup matched no row
    | NoDocuments               // the document lookup matched no document
    | InvalidObjectId           // the hex string does not decode to an ObjectID
    | Failed(message: string)   // any other failure of the store call
}

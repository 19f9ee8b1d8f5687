/**
 * The `achievements` document collection. Documents are keyed by the
 * lower-case hex form of their ObjectID; an id string is decoded first and
 * a string that is not 24 hex digits is refused before the collection is
 * touched.
 */
module DocumentStore {
  import opened Wrappers
  import opened Models

  predicate IsHexDigit(c: char) {
    '0' <= c <= '9' || 'a' <= c <= 'f' || 'A' <= c <= 'F'
  }

  /** The strings that decode to an ObjectID: exactly 24 hex digits, either case. */
  predicate IsObjectIdHex(s: string) {
    |s| == 24 && forall i :: 0 <= i < |s| ==> IsHexDigit(s[i])
  }

  function LowerHexDigit(c: char): char {
    if 'A' <= c <= 'F' then (c as int + 32) as char else c
  }

  /** The form in which an ObjectID prints as hex: 24 lower-case hex digits. */
  predicate IsCanonicalHex(s: string) {
    |s| == 24 && forall i :: 0 <= i < |s| ==> ('0' <= s[i] <= '9' || 'a' <= s[i] <= 'f')
  }

  /** The ObjectID a well-formed hex string decodes to, as its canonical hex. */
  function ObjectIdKey(s: string): (k: string)
    ensures |k| == |s|
    ensures forall i :: 0 <= i < |s| ==> k[i] == LowerHexDigit(s[i])
  {
    if s == [] then [] else [LowerHexDigit(s[0])] + ObjectIdKey(s[1..])
  }

  /** Decoding a well-formed id gives a canonical key, and a canonical id is its own key. */
  lemma ObjectIdKeyCanonical(s: string)
    requires IsObjectIdHex(s)
    ensures IsCanonicalHex(ObjectIdKey(s))
    ensures IsCanonicalHex(s) ==> ObjectIdKey(s) == s
  {
  }

  /** The update documents the service sends: `{"$push": {"files": meta}}`. */
  datatype DocUpdate = PushFile(meta: FileMeta)

  /** The document an update leaves behind: only `files` changes, by one record at its end. */
  function Apply(d: MongoAchievement, u: DocUpdate): (d': MongoAchievement)
    ensures |d'.files| == |d.files| + 1 && d'.files[..|d.files|] == d.files
    ensures d'.files[|d.files|] == u.meta
    ensures d' == d.(files := d'.files)
  {
    match u
    case PushFile(meta) => d.(files := d.files + [meta])
  }

  class MongoAchievementRepository {
    var docs: map<string, MongoAchievement>

    /** Every document is stored under its own canonical ObjectID hex. */
    ghost predicate Valid()
      reads this
    {
      forall h :: h in docs ==> IsCanonicalHex(h) && docs[h].id == h
    }

    constructor ()
      ensures Valid() && docs == map[]
    {
      docs := map[];
    }

    /**
     * InsertOne under the freshly generated ObjectID `newId`; `created_at` is
     * overwritten with the current time. Returns the new id's hex.
     */
    method Insert(doc: MongoAchievement, newId: string, now: Time, fault: Option<string>) returns (r: Result<string, StoreError>)
      requires Valid()
      requires IsCanonicalHex(newId) && newId !in docs
      modifies this
      ensures Valid()
      ensures fault.Some? ==> r == Failure(Failed(fault.value)) && docs == old(docs)
      ensures fault.None? ==> r == Success(newId) && docs == old(docs)[newId := doc.(id := newId, createdAt := now)]
    {
      if fault.Some? {
        return Failure(Failed(fault.value));
      }
      var stored := doc.(id := newId, createdAt := now);
      docs := docs[newId := stored];
      r := Success(newId);
    }

    /** FindOne by id. */
    method FindByIDHex(hexId: string, fault: Option<string>) returns (r: Result<MongoAchievement, StoreError>)
      requires Valid()
      ensures !IsObjectIdHex(hexId) ==> r == Failure(InvalidObjectId)
      ensures IsObjectIdHex(hexId) && fault.Some? ==> r == Failure(Failed(fault.value))
      ensures IsObjectIdHex(hexId) && fault.None? && ObjectIdKey(hexId) !in docs ==> r == Failure(NoDocuments)
      ensures r.Success? <==> IsObjectIdHex(hexId) && fault.None? && ObjectIdKey(hexId) in docs
      ensures r.Success? ==> r.value == docs[ObjectIdKey(hexId)] && r.value.id == ObjectIdKey(hexId)
    {
      if !IsObjectIdHex(hexId) {
        return Failure(InvalidObjectId);
      }
      if fault.Some? {
        return Failure(Failed(fault.value));
      }
      var key := ObjectIdKey(hexId);
      if key in docs {
        r := Success(docs[key]);
      } else {
        r := Failure(NoDocuments);
      }
    }

    /** UpdateByID; matching no document is not an error. */
    method UpdateByHex(hexId: string, update: DocUpdate, fault: Option<string>) returns (err: Option<StoreError>)
      requires Valid()
      modifies this
      ensures Valid()
      ensures !IsObjectIdHex(hexId) ==> err == Some(InvalidObjectId)
      ensures IsObjectIdHex(hexId) ==> err == (if fault.Some? then Some(Failed(fault.value)) else None)
      ensures err.Some? || ObjectIdKey(hexId) !in old(docs) ==> docs == old(docs)
      ensures err.None? && ObjectIdKey(hexId) in old(docs) ==>
        docs == old(docs)[ObjectIdKey(hexId) := Apply(old(docs)[ObjectIdKey(hexId)], update)]
    {
      if !IsObjectIdHex(hexId) {
        return Some(InvalidObjectId);
      }
      if fault.Some? {
        return Some(Failed(fault.value));
      }
      err := None;
      var key := ObjectIdKey(hexId);
      if key in docs {
        docs := docs[key := Apply(docs[key], update)];
      }
    }

    /** DeleteOne by id; matching no document is not an error. */
    method DeleteByHex(hexId: string, fault: Option<string>) returns (err: Option<StoreError>)
      requires Valid()
      modifies this
      ensures Valid()
      ensures !IsObjectIdHex(hexId) ==> err == Some(InvalidObjectId)
      ensures IsObjectIdHex(hexId) ==> err == (if fault.Some? then Some(Failed(fault.value)) else None)
      ensures err.Some? ==> docs == old(docs)
      ensures err.None? ==> docs == old(docs) - {ObjectIdKey(hexId)}
    {
      if !IsObjectIdHex(hexId) {
        return Some(InvalidObjectId);
      }
      if fault.Some? {
        return Some(Failed(fault.value));
      }
      err := None;
      docs := docs - {ObjectIdKey(hexId)};
    }
  }
}

/**
 * UserService: how a `User` is written to and read from the `users`
 * collection.  `updateUser` merges a fixed field map into the user's
 * document; `fetchUser` decodes a document back into a `User` and calls back
 * only when that succeeds.  The document store itself is `UserStore`; the
 * verdict of the remote store on a write (network, permission) is its
 * `failing` field, supplied from outside.
 */
module UserService {
  import opened Wrappers
  import opened Clock
  import opened UserModel

  /** The values a document field can hold. */
  datatype FieldValue =
    | Str(s: string)
    | Int(i: int)
    | IntList(l: seq<int>)
    | Bool(b: bool)
    | Timestamp(t: Time)
    | Null

  type Document = map<string, FieldValue>

  datatype StoreError =
    | MissingId     // the record has no id: nothing is sent
    | NotFound      // `updateData` on a document that does not exist
    | Remote(reason: string)

  /** The ten keys `updateUser` writes. */
  const UpdatedKeys: set<string> :=
    {"fullName", "streak", "phrases", "rerolls", "rerollDate", "lastSignIn",
     "done", "fcmToken", "timezone", "updatedPhraseDate"}

  function OptionalField(v: Option<string>): FieldValue {
    match v
    case Some(s) => Str(s)
    case None => Null
  }

  /** The field map built by `updateUser`; a missing token or time zone is written as "". */
  function UpdateData(u: User): (data: Document)
    ensures data.Keys == UpdatedKeys
    ensures "id" !in data && "email" !in data
    ensures data["fcmToken"] == Str(u.fcmToken.GetOr(""))
    ensures data["timezone"] == Str(u.timezone.GetOr(""))
  {
    map[
      "fullName" := OptionalField(u.fullName),
      "streak" := Int(u.streak),
      "phrases" := IntList(u.phrases),
      "rerolls" := Int(u.rerolls),
      "rerollDate" := Timestamp(u.rerollDate),
      "lastSignIn" := Timestamp(u.lastSignIn),
      "done" := Bool(u.done),
      "fcmToken" := Str(u.fcmToken.GetOr("")),
      "timezone" := Str(u.timezone.GetOr("")),
      "updatedPhraseDate" := Timestamp(u.updatedPhraseDate)
    ]
  }

  // Decoding a document as `User`: a required field must be present with the
  // right type; an optional string may be absent or null.

  function DecodeInt(doc: Document, key: string): Option<int> {
    if key in doc && doc[key].Int? then Some(doc[key].i) else None
  }

  function DecodeTime(doc: Document, key: string): Option<Time> {
    if key in doc && doc[key].Timestamp? then Some(doc[key].t) else None
  }

  function DecodeBool(doc: Document, key: string): Option<bool> {
    if key in doc && doc[key].Bool? then Some(doc[key].b) else None
  }

  function DecodeIntList(doc: Document, key: string): Option<seq<int>> {
    if key in doc && doc[key].IntList? then Some(doc[key].l) else None
  }

  /** `Some(None)` for an absent or null field, `Some(Some(s))` for a string, `None` otherwise. */
  function DecodeOptionalString(doc: Document, key: string): Option<Option<string>> {
    if key !in doc || doc[key].Null? then Some(None)
    else if doc[key].Str? then Some(Some(doc[key].s))
    else None
  }

  /** `snapshot.data(as: User.self)` for the document stored under `id`. */
  function Decode(id: string, doc: Document): (r: Option<User>)
    ensures r.Some? ==> r.value.id == Some(id)
    ensures "updatedPhraseDate" !in doc ==> r.None?
  {
    var fullName := DecodeOptionalString(doc, "fullName");
    var streak := DecodeInt(doc, "streak");
    var phrases := DecodeIntList(doc, "phrases");
    var rerolls := DecodeInt(doc, "rerolls");
    var rerollDate := DecodeTime(doc, "rerollDate");
    var lastSignIn := DecodeTime(doc, "lastSignIn");
    var done := DecodeBool(doc, "done");
    var fcmToken := DecodeOptionalString(doc, "fcmToken");
    var timezone := DecodeOptionalString(doc, "timezone");
    var updatedPhraseDate := DecodeTime(doc, "updatedPhraseDate");
    if fullName.Some? && streak.Some? && phrases.Some? && rerolls.Some? && rerollDate.Some?
      && lastSignIn.Some? && done.Some? && fcmToken.Some? && timezone.Some?
      && updatedPhraseDate.Some?
    then
      Some(User(Some(id), fullName.value, streak.value, phrases.value, rerolls.value,
                rerollDate.value, lastSignIn.value, done.value, fcmToken.value,
                timezone.value, updatedPhraseDate.value))
    else None
  }

  /** The record as it reads back after `updateUser`: the id is the document's, nil token and time zone become "". */
  function AsWritten(u: User, id: string): User {
    u.(id := Some(id), fcmToken := Some(u.fcmToken.GetOr("")),
       timezone := Some(u.timezone.GetOr("")))
  }

  /** Whatever else a document holds, the fields `updateUser` wrote decode back to the record. */
  lemma DecodeAfterUpdate(id: string, existing: Document, u: User)
    ensures Decode(id, existing + UpdateData(u)) == Some(AsWritten(u, id))
  {
    var doc := existing + UpdateData(u);
    assert forall k :: k in UpdatedKeys ==> doc[k] == UpdateData(u)[k];
  }

  /** The error `updateUser` reports: a missing id, a missing document, or the store's own error unchanged. */
  function UpdateError(docs: map<string, Document>, u: User, failing: Option<string>): Option<StoreError> {
    if u.id.None? then Some(MissingId)
    else if failing.Some? then Some(Remote(failing.value))
    else if u.id.value !in docs then Some(NotFound)
    else None
  }

  /** The documents after `updateUser(u)`: on success the field map is merged into the user's document. */
  function ApplyUpdate(docs: map<string, Document>, u: User, failing: Option<string>): (after: map<string, Document>)
    ensures after.Keys == docs.Keys
    ensures UpdateError(docs, u, failing).Some? ==> after == docs
    ensures UpdateError(docs, u, failing).None? ==>
      after == docs[u.id.value := docs[u.id.value] + UpdateData(u)]
  {
    if UpdateError(docs, u, failing).Some? then docs
    else docs[u.id.value := docs[u.id.value] + UpdateData(u)]
  }

  /** The documents after a run of `updateUser` calls. */
  function ApplyAll(docs: map<string, Document>, records: seq<User>, failing: Option<string>): map<string, Document>
    decreases |records|
  {
    if records == [] then docs
    else ApplyAll(ApplyUpdate(docs, records[0], failing), records[1..], failing)
  }

  /** Appending one more `updateUser` call applies it after the others. */
  lemma {:induction false} ApplyAllSnoc(docs: map<string, Document>, records: seq<User>, u: User, failing: Option<string>)
    ensures ApplyAll(docs, records + [u], failing) == ApplyUpdate(ApplyAll(docs, records, failing), u, failing)
    decreases |records|
  {
    if records == [] {
      assert records + [u] == [u];
    } else {
      assert (records + [u])[1..] == records[1..] + [u];
      ApplyAllSnoc(ApplyUpdate(docs, records[0], failing), records[1..], u, failing);
    }
  }

  /** Two runs of `updateUser` calls, one after the other, are one run. */
  lemma {:induction false} ApplyAllConcat(docs: map<string, Document>, first: seq<User>, second: seq<User>, failing: Option<string>)
    ensures ApplyAll(docs, first + second, failing) == ApplyAll(ApplyAll(docs, first, failing), second, failing)
    decreases |first|
  {
    if first == [] {
      assert first + second == second;
    } else {
      assert (first + second)[0] == first[0];
      assert (first + second)[1..] == first[1..] + second;
      ApplyAllConcat(ApplyUpdate(docs, first[0], failing), first[1..], second, failing);
    }
  }

  /**
   * A partial update touches only the ten keys: `id`, `email` and every other
   * field of every document keep their values, and no document is created.
   */
  lemma UpdateKeepsOtherFields(docs: map<string, Document>, u: User, failing: Option<string>, docId: string, key: string)
    requires docId in docs && key !in UpdatedKeys
    ensures var after := ApplyUpdate(docs, u, failing);
      docId in after
      && (key in docs[docId] <==> key in after[docId])
      && (key in docs[docId] ==> after[docId][key] == docs[docId][key])
  {
  }

  /** A successful update makes the stored document decode to the record as written. */
  lemma UpdateThenFetch(docs: map<string, Document>, u: User, failing: Option<string>)
    requires UpdateError(docs, u, failing).None?
    ensures FetchUser(ApplyUpdate(docs, u, failing), u.id.value) == Some(AsWritten(u, u.id.value))
  {
    DecodeAfterUpdate(u.id.value, docs[u.id.value], u);
  }

  /**
   * `fetchUser(withUid:)`: `Some(user)` when the completion is called with
   * `user`; `None` when it is never called (no document, or one that does not
   * decode).
   */
  function FetchUser(docs: map<string, Document>, uid: string): (r: Option<User>)
    ensures r.Some? ==> uid in docs && r == Decode(uid, docs[uid])
    ensures uid !in docs ==> r.None?
  {
    if uid in docs then Decode(uid, docs[uid]) else None
  }

  /**
   * The documents after the create-if-absent sequence: `setData` runs
   * unless the read returned an existing document, and a rejected
   * `setData` changes nothing.
   */
  function CreateResult(docs: map<string, Document>, uid: string, data: Document, readFails: bool,
                        failing: Option<string>): (r: map<string, Document>)
    ensures !readFails && uid in docs ==> r == docs
    ensures failing.Some? ==> r == docs
    ensures (readFails || uid !in docs) && failing.None? ==> uid in r && r[uid] == data
    ensures forall k :: k != uid ==> (k in r <==> k in docs) && (k in docs ==> r[k] == docs[k])
  {
    if (readFails || uid !in docs) && failing.None? then docs[uid := data] else docs
  }

  /** After a read that succeeds, an existing document is never overwritten, whatever is written. */
  lemma ExistingNeverOverwritten(docs: map<string, Document>, uid: string, data: Document, failing: Option<string>)
    requires uid in docs
    ensures CreateResult(docs, uid, data, false, failing) == docs
    ensures FetchUser(CreateResult(docs, uid, data, false, failing), uid) == FetchUser(docs, uid)
  {
  }

  /** A read that fails while writes succeed replaces an existing document with the new one. */
  lemma FailedReadOverwrites(docs: map<string, Document>, uid: string, data: Document)
    requires uid in docs && docs[uid] != data
    ensures CreateResult(docs, uid, data, true, None) != docs
    ensures CreateResult(docs, uid, data, true, None) == docs[uid := data]
  {
    assert CreateResult(docs, uid, data, true, None)[uid] != docs[uid];
  }

  /** The `users` collection. */
  class UserStore {
    var docs: map<string, Document>
    /** Every record passed to `updateUser`, in call order. */
    var requests: seq<User>
    /** The remote store's verdict on writes: `Some(reason)` while it rejects them. */
    var failing: Option<string>

    constructor (docs: map<string, Document>, failing: Option<string>)
      ensures this.docs == docs && this.failing == failing && requests == []
    {
      this.docs := docs;
      this.failing := failing;
      requests := [];
    }

    /** `updateUser(_:completion:)`; the result is the error handed to the completion. */
    method UpdateUser(u: User) returns (err: Option<StoreError>)
      modifies this`docs, this`requests
      ensures requests == old(requests) + [u]
      ensures docs == ApplyUpdate(old(docs), u, failing)
      ensures err == UpdateError(old(docs), u, failing)
    {
      requests := requests + [u];
      err := UpdateError(docs, u, failing);
      docs := ApplyUpdate(docs, u, failing);
    }

    /**
     * `getDocument` followed, unless it returned an existing document, by
     * `setData(data)`; `readFails` says the read came back without a
     * document.
     */
    method CreateIfAbsent(uid: string, data: Document, readFails: bool)
      modifies this`docs
      ensures docs == CreateResult(old(docs), uid, data, readFails, failing)
    {
      var found := !readFails && uid in docs;
      if !found {
        if failing.None? {
          docs := docs[uid := data];
        }
      }
    }
  }

  /** The store's log and documents after the given `updateUser` calls, in order. */
  twostate predicate Persisted(store: UserStore, records: seq<User>)
    reads store
  {
    && store.requests == old(store.requests) + records
    && store.failing == old(store.failing)
    && store.docs == ApplyAll(old(store.docs), records, store.failing)
  }
}

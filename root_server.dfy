/** The birthday handlers of the repository-root server.js (POST, PUT and
    DELETE on /api/birthdays), which sit inside a block comment there. Each
    handler is a function from the stores before a request to the stores
    after it and the answer, and a method of `Server` that performs the same
    run step by step on its fields. Whether an upload, the database
    connection, a statement or an asset removal succeeds is an input. */
module RootServer {
  import opened Opt
  import opened Rows
  import opened Stores
  import Text

  const CreateError := "Failed to create birthday record"
  const UpdateError := "Failed to update birthday"
  const DeleteError := "Failed to delete birthday"
  const NotFoundError := "Birthday not found"

  /** A create request that passes the login check and validation. */
  predicate Accepted(userHeader: Option<string>, body: Body) {
    Truthy(userHeader) && HasRequired(body) && |Text.DigitsOf(body.phoneNumber.value)| == 10
  }

  /** The photo URL a create stores: the upload's URL when a file came. */
  function Photo(file: Option<string>, uploadUrl: string): Option<string> {
    if file.Some? then Some(uploadUrl) else None
  }

  /** Only `Unlink` effects were added after `prefix`. */
  predicate OnlyUnlinks(log: seq<Effect>, prefix: seq<Effect>) {
    prefix <= log && forall i :: |prefix| <= i < |log| ==> log[i].Unlink?
  }

  /** POST: login check; the middleware's upload of an attached photo; the
      three required fields, then ten phone digits, each failure a 400 after
      `fs.unlinkSync` of the file; the handler's own upload of the photo;
      then BEGIN, INSERT and COMMIT, or, when the INSERT fails, ROLLBACK and
      the removal of the photo the handler uploaded. A failed connection is
      a 500 after the upload. */
  function PostOutcome(s: Store, userHeader: Option<string>, body: Body, file: Option<string>,
                       uploadOk: bool, uploadUrl: string, connectOk: bool, insertOk: bool, destroyOk: bool): (r: Outcome)
    ensures ValidStore(s) ==> ValidStore(r.store)
    ensures s.log <= r.store.log && s.nextId <= r.store.nextId
    ensures r.reply.status == 201 <==> Accepted(userHeader, body) && (file.None? || uploadOk) && connectOk && insertOk
    ensures r.reply.status != 201 ==> r.store.rows == s.rows && r.store.nextId == s.nextId
    ensures r.reply.status in {201, 400, 401, 500}
  {
    if !Truthy(userHeader) then Outcome(s, NotLoggedIn)
    else
      var received := Received(s, file);
      if !HasRequired(body) then Rejected(received, file, RequiredError)
      else if |Text.DigitsOf(body.phoneNumber.value)| != 10 then Rejected(received, file, PhoneError)
      else if file.Some? && !uploadOk then Outcome(received, Reply(500, CreateError))
      else
        var uploaded := if file.Some? then Uploaded(received, uploadUrl) else received;
        StoreOutcome(uploaded, userHeader.value, body, Text.DigitsOf(body.phoneNumber.value),
                     Photo(file, uploadUrl), connectOk, insertOk, destroyOk)
  }

  /** A validation failure: `fs.unlinkSync` of the attached file, then 400
      with `error`. When the file is not on disk the call throws and the
      outer catch answers 500 instead. */
  function Rejected(s: Store, file: Option<string>, error: string): (r: Outcome)
    ensures r.store.rows == s.rows && r.store.assets == s.assets && r.store.nextId == s.nextId
    ensures r.reply == (if file.Some? && !OnDisk(s, file.value) then Reply(500, CreateError) else Reply(400, error))
    ensures file.Some? ==> file.value !in r.store.tempFiles
    ensures OnlyUnlinks(r.store.log, s.log)
  {
    var cleaned := Unlinked(s, file);
    if file.Some? && !OnDisk(s, file.value) then Outcome(cleaned, Reply(500, CreateError))
    else Outcome(cleaned, Reply(400, error))
  }

  /** The database part of POST. */
  function StoreOutcome(s: Store, userId: string, body: Body, phoneDigits: string, photo: Option<string>,
                        connectOk: bool, insertOk: bool, destroyOk: bool): (r: Outcome)
    requires HasRequired(body)
    ensures ValidStore(s) ==> ValidStore(r.store)
    ensures s.log <= r.store.log && s.nextId <= r.store.nextId
    ensures r.reply.status == 201 <==> connectOk && insertOk
    ensures r.reply.status != 201 ==> r.store.rows == s.rows && r.store.nextId == s.nextId
    ensures r.reply.status in {201, 500}
  {
    if !connectOk then Outcome(s, Reply(500, CreateError))
    else if insertOk then
      Outcome(s.(rows := s.rows[s.nextId := InsertValues(body, phoneDigits, photo, userId)],
                 nextId := s.nextId + 1,
                 log := s.log + [Begin, Insert(s.nextId), Commit]),
              Reply(201, ""))
    else Outcome(Destroyed(Emit(s, [Begin, Rollback]), photo, destroyOk), Reply(500, CreateError))
  }

  /** PUT: login check; the middleware's upload; BEGIN; the lookup of the
      row of this id and user, a 404 that removes the new photo again, or,
      when BEGIN or the SELECT fails (a route id that is no number, say),
      ROLLBACK, the removal of the new photo and a 500; then, when a new
      photo came, the removal of the old one; then UPDATE and COMMIT, or
      ROLLBACK and the removal of the new photo. */
  function PutOutcome(s: Store, userHeader: Option<string>, id: int, body: Body, file: Option<string>,
                      connectOk: bool, lookupOk: bool, oldDestroyOk: bool, updateOk: bool, discardOk: bool): (r: Outcome)
    ensures ValidStore(s) ==> ValidStore(r.store)
    ensures s.log <= r.store.log && r.store.nextId == s.nextId && r.store.tempFiles == s.tempFiles
    ensures r.reply.status == 200 <==>
      Truthy(userHeader) && connectOk && lookupOk && Owns(s.rows, id, userHeader.value) && updateOk
    ensures r.reply.status != 200 ==> r.store.rows == s.rows
    ensures r.store.rows.Keys == s.rows.Keys
    ensures r.reply.status in {200, 401, 404, 500}
  {
    if !Truthy(userHeader) then Outcome(s, NotLoggedIn)
    else
      var received := Received(s, file);
      if !connectOk then Outcome(received, Reply(500, UpdateError))
      else FindOutcome(Emit(received, [Begin]), userHeader.value, id, body, file, lookupOk, oldDestroyOk, updateOk, discardOk)
  }

  /** PUT inside the transaction: the lookup, then the 500 of a failed
      lookup, the 404 or the update. */
  function FindOutcome(s: Store, userId: string, id: int, body: Body, file: Option<string>,
                       lookupOk: bool, oldDestroyOk: bool, updateOk: bool, discardOk: bool): (r: Outcome)
    ensures ValidStore(s) ==> ValidStore(r.store)
    ensures s.log <= r.store.log && r.store.nextId == s.nextId && r.store.tempFiles == s.tempFiles
    ensures r.reply.status == 200 <==> lookupOk && Owns(s.rows, id, userId) && updateOk
    ensures r.reply.status == 404 <==> lookupOk && !Owns(s.rows, id, userId)
    ensures r.reply.status != 200 ==> r.store.rows == s.rows
    ensures r.store.rows.Keys == s.rows.Keys
    ensures r.reply.status in {200, 404, 500}
  {
    if !lookupOk then Outcome(Discarded(Emit(s, [Rollback]), file, discardOk), Reply(500, UpdateError))
    else if !Owns(s.rows, id, userId) then Outcome(Discarded(s, file, discardOk), Reply(404, NotFoundError))
    else UpdateOutcome(s, id, body, file, oldDestroyOk, updateOk, discardOk)
  }

  /** PUT once the row is found. */
  function UpdateOutcome(s: Store, id: int, body: Body, file: Option<string>,
                         oldDestroyOk: bool, updateOk: bool, discardOk: bool): (r: Outcome)
    requires id in s.rows
    ensures ValidStore(s) ==> ValidStore(r.store)
    ensures s.log <= r.store.log && r.store.nextId == s.nextId && r.store.tempFiles == s.tempFiles
    ensures r.reply.status == 200 <==> updateOk
    ensures updateOk ==> r.store.rows.Keys == s.rows.Keys && r.store.rows[id].userId == s.rows[id].userId
    ensures !updateOk ==> r.store.rows == s.rows
  {
    var existing := s.rows[id];
    var replaced := if file.Some? then Destroyed(s, existing.photoUrl, oldDestroyOk) else s;
    var photo := if file.Some? then file else existing.photoUrl;
    if updateOk then
      Outcome(replaced.(rows := replaced.rows[id := UpdatedRow(existing, body, photo)],
                        log := replaced.log + [Update(id), Commit]),
              Reply(200, ""))
    else Outcome(Discarded(Emit(replaced, [Rollback]), file, discardOk), Reply(500, UpdateError))
  }

  /** DELETE: login check; BEGIN; the lookup of the row of this id and
      user, a 404, or, when BEGIN or the SELECT fails, ROLLBACK and a 500;
      the removal of its photo; then DELETE and COMMIT, or ROLLBACK. */
  function DeleteOutcome(s: Store, userHeader: Option<string>, id: int,
                         connectOk: bool, lookupOk: bool, destroyOk: bool, deleteOk: bool): (r: Outcome)
    ensures ValidStore(s) ==> ValidStore(r.store)
    ensures s.log <= r.store.log && r.store.nextId == s.nextId && r.store.tempFiles == s.tempFiles
    ensures r.reply.status == 204 <==>
      Truthy(userHeader) && connectOk && lookupOk && Owns(s.rows, id, userHeader.value) && deleteOk
    ensures r.reply.status == 204 ==> r.store.rows == s.rows - {id}
    ensures r.reply.status != 204 ==> r.store.rows == s.rows
    ensures r.reply.status in {204, 401, 404, 500}
  {
    if !Truthy(userHeader) then Outcome(s, NotLoggedIn)
    else if !connectOk then Outcome(s, Reply(500, DeleteError))
    else
      var begun := Emit(s, [Begin]);
      if !lookupOk then Outcome(Emit(begun, [Rollback]), Reply(500, DeleteError))
      else if !Owns(begun.rows, id, userHeader.value) then Outcome(begun, Reply(404, NotFoundError))
      else
        var cleared := Destroyed(begun, begun.rows[id].photoUrl, destroyOk);
        if deleteOk then
          Outcome(cleared.(rows := cleared.rows - {id}, log := cleared.log + [Delete(id), Commit]), Reply(204, ""))
        else Outcome(Emit(cleared, [Rollback]), Reply(500, DeleteError))
  }

  /** `checkLoggedIn` stops every request without a user id before its
      handler runs: 401, and nothing changes. */
  lemma NotLoggedInChangesNothing(s: Store, userHeader: Option<string>, id: int, body: Body, file: Option<string>,
                                  uploadOk: bool, uploadUrl: string, connectOk: bool, lookupOk: bool,
                                  storeOk: bool, destroyOk: bool)
    requires !Truthy(userHeader)
    ensures PostOutcome(s, userHeader, body, file, uploadOk, uploadUrl, connectOk, storeOk, destroyOk) == Outcome(s, NotLoggedIn)
    ensures PutOutcome(s, userHeader, id, body, file, connectOk, lookupOk, destroyOk, storeOk, destroyOk) == Outcome(s, NotLoggedIn)
    ensures DeleteOutcome(s, userHeader, id, connectOk, lookupOk, destroyOk, storeOk) == Outcome(s, NotLoggedIn)
  {
  }

  /** A create that fails validation adds no row and no photo beyond the
      middleware's, and the attached file is removed: 400 when there was no
      file or it was on disk. A photo the middleware stored arrives as its
      URL, which is no file: `fs.unlinkSync` throws and the answer is 500. */
  lemma PostRejectsInvalid(s: Store, userHeader: Option<string>, body: Body, file: Option<string>,
                           uploadOk: bool, uploadUrl: string, connectOk: bool, insertOk: bool, destroyOk: bool)
    requires Truthy(userHeader) && !Accepted(userHeader, body)
    ensures var r := PostOutcome(s, userHeader, body, file, uploadOk, uploadUrl, connectOk, insertOk, destroyOk);
      && r.reply == (if file.Some? && !OnDisk(s, file.value) then Reply(500, CreateError)
                     else Reply(400, if HasRequired(body) then PhoneError else RequiredError))
      && r.store.rows == s.rows
      && r.store.assets == s.assets + (if file.Some? then {StoredId(file.value)} else {})
      && OnlyUnlinks(r.store.log, s.log + (if file.Some? then [Upload(StoredId(file.value))] else []))
      && (file.Some? ==> file.value !in r.store.tempFiles)
  {
  }

  /** A successful create adds exactly one row, under a fresh id, with the
      validated column values and the URL of the handler's upload; the
      uploads precede BEGIN, the INSERT and COMMIT. */
  lemma PostCreatesRow(s: Store, userHeader: Option<string>, body: Body, file: Option<string>,
                       uploadOk: bool, uploadUrl: string, connectOk: bool, insertOk: bool, destroyOk: bool)
    requires ValidStore(s)
    requires PostOutcome(s, userHeader, body, file, uploadOk, uploadUrl, connectOk, insertOk, destroyOk).reply.status == 201
    ensures var r := PostOutcome(s, userHeader, body, file, uploadOk, uploadUrl, connectOk, insertOk, destroyOk);
      && s.nextId !in s.rows
      && r.store.rows == s.rows[s.nextId := InsertValues(body, Text.DigitsOf(body.phoneNumber.value), Photo(file, uploadUrl), userHeader.value)]
      && |r.store.rows| == |s.rows| + 1
      && r.store.log == s.log + (if file.Some? then [Upload(StoredId(file.value)), Upload(PublicId(uploadUrl))] else [])
                              + [Begin, Insert(s.nextId), Commit]
      && (file.Some? ==> PublicId(uploadUrl) in r.store.assets)
  {
    var received := Received(s, file);
    var uploaded := if file.Some? then Uploaded(received, uploadUrl) else received;
    assert uploaded.rows == s.rows && uploaded.nextId == s.nextId;
  }

  /** A failed INSERT is rolled back and, when its removal succeeds, the
      photo the handler uploaded is gone again; the middleware's copy
      stays. */
  lemma PostInsertFailureUndoesUpload(s: Store, userHeader: Option<string>, body: Body, file: Option<string>,
                                      uploadUrl: string)
    requires Accepted(userHeader, body) && file.Some? && uploadUrl != ""
    requires PublicId(uploadUrl) !in s.assets
    ensures var r := PostOutcome(s, userHeader, body, file, true, uploadUrl, true, false, true);
      && r.reply == Reply(500, CreateError)
      && r.store.rows == s.rows && r.store.assets == s.assets + {StoredId(file.value)}
      && r.store.log == s.log + [Upload(StoredId(file.value)), Upload(PublicId(uploadUrl)), Begin, Rollback,
                                 Destroy(PublicId(uploadUrl))]
  {
    StoredIdNotPublicId(file.value, uploadUrl);
  }

  /** A failed connection after the upload leaves both copies of the photo
      stored with no row pointing at them. */
  lemma PostConnectFailureKeepsUpload(s: Store, userHeader: Option<string>, body: Body, file: Option<string>,
                                      uploadUrl: string, insertOk: bool, destroyOk: bool)
    requires Accepted(userHeader, body) && file.Some?
    ensures var r := PostOutcome(s, userHeader, body, file, true, uploadUrl, false, insertOk, destroyOk);
      && r.reply == Reply(500, CreateError)
      && r.store.rows == s.rows
      && StoredId(file.value) in r.store.assets && PublicId(uploadUrl) in r.store.assets
  {
  }

  /** PUT of a row that is not this user's: 404, the table is untouched, no
      UPDATE is issued, and the photo the middleware stored is removed again
      when that removal succeeds. */
  lemma PutNotFound(s: Store, userHeader: Option<string>, id: int, body: Body, file: Option<string>,
                    oldDestroyOk: bool, updateOk: bool)
    requires Truthy(userHeader) && !Owns(s.rows, id, userHeader.value)
    requires file.Some? ==> StoredId(file.value) !in s.assets
    ensures var r := PutOutcome(s, userHeader, id, body, file, true, true, oldDestroyOk, updateOk, true);
      && r.reply == Reply(404, NotFoundError)
      && r.store.rows == s.rows && r.store.assets == s.assets
      && forall i :: |s.log| <= i < |r.store.log| ==> !r.store.log[i].Update?
  {
  }

  /** PUT whose lookup fails (a route id that is no number, say): ROLLBACK
      and 500 whoever owns the row, the table untouched, and the photo the
      middleware stored removed again when that removal succeeds. */
  lemma PutLookupFails(s: Store, userHeader: Option<string>, id: int, body: Body, file: Option<string>,
                       oldDestroyOk: bool, updateOk: bool)
    requires Truthy(userHeader)
    requires file.Some? ==> StoredId(file.value) !in s.assets
    ensures var r := PutOutcome(s, userHeader, id, body, file, true, false, oldDestroyOk, updateOk, true);
      && r.reply == Reply(500, UpdateError)
      && r.store.rows == s.rows && r.store.assets == s.assets
      && r.store.log == s.log + (if file.Some? then [Upload(StoredId(file.value))] else []) + [Begin, Rollback]
                              + (if file.Some? then [Destroy(StoredId(file.value))] else [])
  {
  }

  /** A successful PUT writes the row `UpdatedRow` makes of the stored one,
      the body and the new photo's URL (the old URL when none came), and
      touches no other row. */
  lemma PutUpdatesRow(s: Store, userHeader: Option<string>, id: int, body: Body, file: Option<string>,
                      connectOk: bool, lookupOk: bool, oldDestroyOk: bool, updateOk: bool, discardOk: bool)
    requires PutOutcome(s, userHeader, id, body, file, connectOk, lookupOk, oldDestroyOk, updateOk, discardOk).reply.status == 200
    ensures id in s.rows
    ensures PutOutcome(s, userHeader, id, body, file, connectOk, lookupOk, oldDestroyOk, updateOk, discardOk).store.rows
         == s.rows[id := UpdatedRow(s.rows[id], body, if file.Some? then file else s.rows[id].photoUrl)]
  {
  }

  /** A successful PUT with a new photo stores its URL in the row and keeps
      the new photo; the old photo's removal, by the id cut from its URL,
      comes after the new upload and before the UPDATE. It removes a photo
      the handler of POST uploaded; a photo an earlier PUT stored sits under
      the middleware's folder, which that id lacks, and stays. */
  lemma PutReplacesPhoto(s: Store, userHeader: Option<string>, id: int, body: Body, file: Option<string>,
                         oldDestroyOk: bool, discardOk: bool)
    requires Truthy(userHeader) && Owns(s.rows, id, userHeader.value)
    requires Truthy(file) && Truthy(s.rows[id].photoUrl)
    ensures var r := PutOutcome(s, userHeader, id, body, file, true, true, oldDestroyOk, true, discardOk);
      var oldUrl := s.rows[id].photoUrl.value;
      && r.reply == Reply(200, "")
      && r.store.rows[id].photoUrl == file
      && StoredId(file.value) in r.store.assets
      && (oldDestroyOk ==> PublicId(oldUrl) !in r.store.assets)
      && (StoredId(oldUrl) in s.assets ==> StoredId(oldUrl) in r.store.assets)
      && r.store.log == s.log + [Upload(StoredId(file.value)), Begin, Destroy(PublicId(oldUrl)), Update(id), Commit]
  {
    var oldUrl := s.rows[id].photoUrl.value;
    StoredIdNotPublicId(file.value, oldUrl);
    StoredIdNotPublicId(oldUrl, oldUrl);
    var begun := Emit(Received(s, file), [Begin]);
    assert begun.rows == s.rows;
    var replaced := Destroyed(begun, s.rows[id].photoUrl, oldDestroyOk);
    assert replaced.assets == if oldDestroyOk then begun.assets - {PublicId(oldUrl)} else begun.assets;
  }

  /** A failed UPDATE after a new photo came leaves the row as it was, still
      pointing at its old photo, whose removal by URL was already attempted
      before the UPDATE ran; the new photo is removed again as well. */
  lemma PutUpdateFailureStrandsRow(s: Store, userHeader: Option<string>, id: int, body: Body, file: Option<string>,
                                   discardOk: bool)
    requires Truthy(userHeader) && Owns(s.rows, id, userHeader.value)
    requires file.Some? && Truthy(s.rows[id].photoUrl)
    ensures var r := PutOutcome(s, userHeader, id, body, file, true, true, true, false, discardOk);
      && r.reply == Reply(500, UpdateError)
      && r.store.rows == s.rows
      && PublicId(s.rows[id].photoUrl.value) !in r.store.assets
      && (discardOk ==> StoredId(file.value) !in r.store.assets)
  {
  }

  /** A PUT with nothing filled in and no photo rewrites the row unchanged. */
  lemma PutEmptyBodyKeepsRow(s: Store, userHeader: Option<string>, id: int,
                             oldDestroyOk: bool, discardOk: bool)
    requires Truthy(userHeader) && Owns(s.rows, id, userHeader.value)
    ensures var r := PutOutcome(s, userHeader, id, EmptyBody, None, true, true, oldDestroyOk, true, discardOk);
      r.reply.status == 200 && r.store.rows == s.rows && r.store.assets == s.assets
  {
    UpdateLaws(s.rows[id], EmptyBody, None);
  }

  /** A DELETE that finds no row of this user answers 404 and changes
      nothing but the BEGIN it issued. */
  lemma DeleteNotFound(s: Store, userHeader: Option<string>, id: int, destroyOk: bool, deleteOk: bool)
    requires Truthy(userHeader) && !Owns(s.rows, id, userHeader.value)
    ensures var r := DeleteOutcome(s, userHeader, id, true, true, destroyOk, deleteOk);
      && r.reply == Reply(404, NotFoundError)
      && r.store.rows == s.rows && r.store.assets == s.assets && r.store.log == s.log + [Begin]
  {
  }

  /** A DELETE whose lookup fails (a route id that is no number, say) is
      rolled back and answers 500 whoever owns the row; nothing else
      changes. */
  lemma DeleteLookupFails(s: Store, userHeader: Option<string>, id: int, destroyOk: bool, deleteOk: bool)
    requires Truthy(userHeader)
    ensures var r := DeleteOutcome(s, userHeader, id, true, false, destroyOk, deleteOk);
      && r.reply == Reply(500, DeleteError)
      && r.store.rows == s.rows && r.store.assets == s.assets && r.store.log == s.log + [Begin, Rollback]
  {
  }

  /** A successful DELETE removes the row's photo, by the id cut from its
      URL, before the row itself. */
  lemma DeleteRemovesPhotoFirst(s: Store, userHeader: Option<string>, id: int)
    requires Truthy(userHeader) && Owns(s.rows, id, userHeader.value) && Truthy(s.rows[id].photoUrl)
    ensures var r := DeleteOutcome(s, userHeader, id, true, true, true, true);
      && r.reply == Reply(204, "")
      && id !in r.store.rows
      && PublicId(s.rows[id].photoUrl.value) !in r.store.assets
      && r.store.log == s.log + [Begin, Destroy(PublicId(s.rows[id].photoUrl.value)), Delete(id), Commit]
  {
  }

  /** A photo that a PUT put in the row was stored by the middleware under
      its folder; DELETE's removal by the id cut from the URL misses it, and
      it stays on the host after the row is gone. */
  lemma DeleteMissesStoredPhoto(s: Store, userHeader: Option<string>, id: int, destroyOk: bool)
    requires Truthy(userHeader) && Owns(s.rows, id, userHeader.value) && Truthy(s.rows[id].photoUrl)
    requires StoredId(s.rows[id].photoUrl.value) in s.assets
    ensures var r := DeleteOutcome(s, userHeader, id, true, true, destroyOk, true);
      && r.reply == Reply(204, "")
      && StoredId(s.rows[id].photoUrl.value) in r.store.assets
  {
  }

  /** Deleting the same row twice: the second request finds nothing. */
  lemma DeleteTwice(s: Store, userHeader: Option<string>, id: int, firstDestroyOk: bool, secondDestroyOk: bool)
    ensures var first := DeleteOutcome(s, userHeader, id, true, true, firstDestroyOk, true);
      && (first.reply.status == 204 <==> Truthy(userHeader) && Owns(s.rows, id, userHeader.value))
      && (first.reply.status == 204 ==>
            DeleteOutcome(first.store, userHeader, id, true, true, secondDestroyOk, true).reply == Reply(404, NotFoundError))
  {
  }

  class Server {
    /** The table: row id to row (its owner inside). */
    var rows: map<int, Row>
    /** Public ids of the stored photos. */
    var assets: set<string>
    /** Paths of the temporary files the upload middleware wrote. */
    var tempFiles: set<string>
    /** The id the next INSERT receives. */
    var nextId: int
    /** Every effect issued so far, in order. */
    var log: seq<Effect>

    function Snapshot(): Store
      reads this
    {
      Store(rows, assets, tempFiles, nextId, log)
    }

    predicate Valid()
      reads this
    {
      ValidStore(Snapshot())
    }

    constructor ()
      ensures Snapshot() == Store(map[], {}, {}, 1, [])
      ensures Valid()
    {
      rows := map[];
      assets := {};
      tempFiles := {};
      nextId := 1;
      log := [];
    }

    /** POST /api/birthdays. `file` is the path the upload middleware gives
        an attached photo; `uploadUrl` is the URL the photo host answers the
        handler's own upload with. */
    method HandlePost(userHeader: Option<string>, body: Body, file: Option<string>,
                      uploadOk: bool, uploadUrl: string, connectOk: bool, insertOk: bool, destroyOk: bool)
      returns (reply: Reply)
      requires Valid()
      modifies this
      ensures Valid()
      ensures Outcome(Snapshot(), reply)
           == PostOutcome(old(Snapshot()), userHeader, body, file, uploadOk, uploadUrl, connectOk, insertOk, destroyOk)
    {
      var auth := CheckLoggedIn(userHeader);
      if auth.Err? {
        return NotLoggedIn;
      }
      ReceivePhoto(file);
      if !HasRequired(body) {
        reply := Reject(file, RequiredError);
        return;
      }
      var phoneDigits := Text.DigitsOf(body.phoneNumber.value);
      if |phoneDigits| != 10 {
        reply := Reject(file, PhoneError);
        return;
      }
      var photoUrl: Option<string> := None;
      if file.Some? {
        if !uploadOk {
          return Reply(500, CreateError);
        }
        UploadPhoto(uploadUrl);
        photoUrl := Some(uploadUrl);
      }
      reply := StoreNew(auth.value, body, phoneDigits, photoUrl, connectOk, insertOk, destroyOk);
    }

    /** The answer to a request that fails validation. */
    method Reject(file: Option<string>, error: string) returns (reply: Reply)
      modifies this
      ensures Outcome(Snapshot(), reply) == Rejected(old(Snapshot()), file, error)
    {
      var thrown := RemoveTempFile(file);
      if thrown {
        return Reply(500, CreateError);
      }
      reply := Reply(400, error);
    }

    /** The database part of POST. */
    method StoreNew(userId: string, body: Body, phoneDigits: string, photoUrl: Option<string>,
                    connectOk: bool, insertOk: bool, destroyOk: bool)
      returns (reply: Reply)
      requires HasRequired(body)
      modifies this
      ensures Outcome(Snapshot(), reply)
           == StoreOutcome(old(Snapshot()), userId, body, phoneDigits, photoUrl, connectOk, insertOk, destroyOk)
    {
      if !connectOk {
        return Reply(500, CreateError);
      }
      if insertOk {
        rows := rows[nextId := InsertValues(body, phoneDigits, photoUrl, userId)];
        log := log + [Begin, Insert(nextId), Commit];
        nextId := nextId + 1;
        return Reply(201, "");
      }
      log := log + [Begin, Rollback];
      TryDestroy(photoUrl, destroyOk);
      reply := Reply(500, CreateError);
    }

    /** PUT /api/birthdays/:id. `file` is the URL under which the upload
        middleware stored an attached photo. */
    method HandlePut(userHeader: Option<string>, id: int, body: Body, file: Option<string>,
                     connectOk: bool, lookupOk: bool, oldDestroyOk: bool, updateOk: bool, discardOk: bool)
      returns (reply: Reply)
      requires Valid()
      modifies this
      ensures Valid()
      ensures Outcome(Snapshot(), reply)
           == PutOutcome(old(Snapshot()), userHeader, id, body, file, connectOk, lookupOk, oldDestroyOk, updateOk, discardOk)
    {
      var auth := CheckLoggedIn(userHeader);
      if auth.Err? {
        return NotLoggedIn;
      }
      ReceivePhoto(file);
      if !connectOk {
        return Reply(500, UpdateError);
      }
      log := log + [Begin];
      reply := FindAndUpdate(auth.value, id, body, file, lookupOk, oldDestroyOk, updateOk, discardOk);
    }

    /** PUT inside the transaction. */
    method FindAndUpdate(userId: string, id: int, body: Body, file: Option<string>,
                         lookupOk: bool, oldDestroyOk: bool, updateOk: bool, discardOk: bool)
      returns (reply: Reply)
      modifies this
      ensures Outcome(Snapshot(), reply)
           == FindOutcome(old(Snapshot()), userId, id, body, file, lookupOk, oldDestroyOk, updateOk, discardOk)
    {
      if !lookupOk {
        log := log + [Rollback];
        Discard(file, discardOk);
        return Reply(500, UpdateError);
      }
      if !Owns(rows, id, userId) {
        Discard(file, discardOk);
        return Reply(404, NotFoundError);
      }
      var existing := rows[id];
      var photoUrl := existing.photoUrl;
      if file.Some? {
        TryDestroy(photoUrl, oldDestroyOk);
        photoUrl := file;
      }
      if updateOk {
        rows := rows[id := UpdatedRow(existing, body, photoUrl)];
        log := log + [Update(id), Commit];
        return Reply(200, "");
      }
      log := log + [Rollback];
      Discard(file, discardOk);
      reply := Reply(500, UpdateError);
    }

    /** DELETE /api/birthdays/:id. */
    method HandleDelete(userHeader: Option<string>, id: int,
                        connectOk: bool, lookupOk: bool, destroyOk: bool, deleteOk: bool)
      returns (reply: Reply)
      requires Valid()
      modifies this
      ensures Valid()
      ensures Outcome(Snapshot(), reply)
           == DeleteOutcome(old(Snapshot()), userHeader, id, connectOk, lookupOk, destroyOk, deleteOk)
    {
      var auth := CheckLoggedIn(userHeader);
      if auth.Err? {
        return NotLoggedIn;
      }
      if !connectOk {
        return Reply(500, DeleteError);
      }
      log := log + [Begin];
      if !lookupOk {
        log := log + [Rollback];
        return Reply(500, DeleteError);
      }
      if !Owns(rows, id, auth.value) {
        return Reply(404, NotFoundError);
      }
      TryDestroy(rows[id].photoUrl, destroyOk);
      if deleteOk {
        rows := rows - {id};
        log := log + [Delete(id), Commit];
        return Reply(204, "");
      }
      log := log + [Rollback];
      reply := Reply(500, DeleteError);
    }

    /** `fs.unlinkSync(req.file.path)` when a file came; `thrown` when there
        was no such file on disk. */
    method RemoveTempFile(file: Option<string>) returns (thrown: bool)
      modifies this
      ensures thrown <==> file.Some? && !OnDisk(old(Snapshot()), file.value)
      ensures Snapshot() == Unlinked(old(Snapshot()), file)
    {
      thrown := file.Some? && file.value !in tempFiles;
      if file.Some? {
        tempFiles := tempFiles - {file.value};
        log := log + [Unlink(file.value)];
      }
    }

    /** The upload middleware stores an attached photo under its folder. */
    method ReceivePhoto(file: Option<string>)
      modifies this
      ensures Snapshot() == Received(old(Snapshot()), file)
    {
      if file.Some? {
        assets := assets + {StoredId(file.value)};
        log := log + [Upload(StoredId(file.value))];
      }
    }

    /** `cloudinary.uploader.destroy(req.file.filename)`, attempted when a
        file came. */
    method Discard(file: Option<string>, ok: bool)
      modifies this
      ensures Snapshot() == Discarded(old(Snapshot()), file, ok)
    {
      if file.Some? {
        if ok {
          assets := assets - {StoredId(file.value)};
        }
        log := log + [Destroy(StoredId(file.value))];
      }
    }

    /** The photo host stores a photo whose URL is `url`. */
    method UploadPhoto(url: string)
      modifies this
      ensures Snapshot() == Uploaded(old(Snapshot()), url)
    {
      assets := assets + {PublicId(url)};
      log := log + [Upload(PublicId(url))];
    }

    /** `cloudinary.uploader.destroy` of a truthy URL's asset, attempted. */
    method TryDestroy(url: Option<string>, ok: bool)
      modifies this
      ensures Snapshot() == Destroyed(old(Snapshot()), url, ok)
    {
      if Truthy(url) {
        if ok {
          assets := assets - {PublicId(url.value)};
        }
        log := log + [Destroy(PublicId(url.value))];
      }
    }
  }
}

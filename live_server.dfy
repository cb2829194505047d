/** The live create handler of server/server.js (POST /api/birthdays): no
    transaction and no removal of an uploaded photo when the INSERT fails.
    The upload middleware stores an attached photo on the host and hands
    over its URL as the file's path; the handler uploads from that path
    again and then removes the path with `fs.unlinkSync`, which throws when
    it is no file on disk. Error texts of the photo host and the database
    are inputs. */
module LiveServer {
  import opened Opt
  import opened Rows
  import opened Stores
  import RootServer
  import Text

  /** The 500 answer's text: a message mentioning "Phone number" is passed
      on, any other becomes the generic one. */
  function ErrorText(message: string): (r: string)
    ensures Text.Contains(message, "Phone number") ==> r == message
    ensures !Text.Contains(message, "Phone number") ==> r == RootServer.CreateError
  {
    if Text.Contains(message, "Phone number") then message else RootServer.CreateError
  }

  /** The phone rule's error reaches the client as it is. */
  lemma PhoneErrorSurfaces()
    ensures ErrorText(PhoneError) == PhoneError
  {
    assert "Phone number" <= PhoneError[0..];
  }

  /** Node's message when `fs.unlinkSync` finds no file at `path`. */
  function UnlinkError(path: string): string {
    "ENOENT: no such file or directory, unlink '" + path + "'"
  }

  /** POST as written: login check; the middleware's upload of an attached
      photo; the three required fields (a 400 that leaves everything as it
      is); the phone rule; the handler's own upload, then `fs.unlinkSync` of
      the file's path; the INSERT. Every thrown error lands in the catch
      block, which tries to remove the file once more, ignoring a failure,
      and answers 500. A path that is no file on disk (the URL the
      middleware hands over) makes the first `fs.unlinkSync` throw. */
  function PostOutcome(s: Store, userHeader: Option<string>, body: Body, file: Option<string>,
                       uploadOk: bool, uploadUrl: string, uploadError: string,
                       insertOk: bool, insertError: string): (r: Outcome)
    ensures ValidStore(s) ==> ValidStore(r.store)
    ensures s.log <= r.store.log && s.nextId <= r.store.nextId && r.store.tempFiles <= s.tempFiles
    ensures r.reply.status == 201 <==>
      RootServer.Accepted(userHeader, body) && (file.None? || (uploadOk && OnDisk(s, file.value))) && insertOk
    ensures r.reply.status != 201 ==> r.store.rows == s.rows && r.store.nextId == s.nextId
    ensures r.reply.status in {201, 400, 401, 500}
  {
    if !Truthy(userHeader) then Outcome(s, NotLoggedIn)
    else
      var received := Received(s, file);
      if !HasRequired(body) then Outcome(received, Reply(400, RequiredError))
      else
        var phone := ProcessPhoneNumber(body.phoneNumber.value);
        if phone.Err? then Outcome(Unlinked(received, file), Reply(500, ErrorText(phone.message)))
        else if file.Some? && !uploadOk then Outcome(Unlinked(received, file), Reply(500, ErrorText(uploadError)))
        else if file.Some? && !OnDisk(received, file.value) then
          Outcome(Unlinked(Unlinked(Uploaded(received, uploadUrl), file), file),
                  Reply(500, ErrorText(UnlinkError(file.value))))
        else
          var uploaded := Unlinked(if file.Some? then Uploaded(received, uploadUrl) else received, file);
          InsertOutcome(uploaded, body, phone.value, RootServer.Photo(file, uploadUrl), userHeader.value,
                        file, insertOk, insertError)
  }

  /** POST as evidently intended: the removal of the file after the upload
      tolerates a path that is no file on disk, as the catch block's own
      removal does, and the create goes on to the INSERT. Elsewhere it is
      `PostOutcome`. */
  function PostOutcomeFixed(s: Store, userHeader: Option<string>, body: Body, file: Option<string>,
                            uploadOk: bool, uploadUrl: string, uploadError: string,
                            insertOk: bool, insertError: string): (r: Outcome)
    ensures ValidStore(s) ==> ValidStore(r.store)
    ensures s.log <= r.store.log && s.nextId <= r.store.nextId && r.store.tempFiles <= s.tempFiles
    ensures r.reply.status == 201 <==> RootServer.Accepted(userHeader, body) && (file.None? || uploadOk) && insertOk
    ensures r.reply.status != 201 ==> r.store.rows == s.rows && r.store.nextId == s.nextId
  {
    if RootServer.Accepted(userHeader, body) && file.Some? && uploadOk then
      var uploaded := Unlinked(Uploaded(Received(s, file), uploadUrl), file);
      InsertOutcome(uploaded, body, Text.DigitsOf(body.phoneNumber.value), Some(uploadUrl), userHeader.value,
                    file, insertOk, insertError)
    else PostOutcome(s, userHeader, body, file, uploadOk, uploadUrl, uploadError, insertOk, insertError)
  }

  /** `pool.query(INSERT ...)`, or the catch block, which tries to remove
      the temporary file a second time and leaves the photo stored. */
  function InsertOutcome(s: Store, body: Body, phoneDigits: string, photo: Option<string>, userId: string,
                         file: Option<string>, insertOk: bool, insertError: string): (r: Outcome)
    requires HasRequired(body)
    ensures ValidStore(s) ==> ValidStore(r.store)
    ensures s.log <= r.store.log && s.nextId <= r.store.nextId && r.store.tempFiles <= s.tempFiles
    ensures r.store.assets == s.assets
    ensures r.reply.status == 201 <==> insertOk
    ensures !insertOk ==> r.store.rows == s.rows && r.store.nextId == s.nextId
  {
    if insertOk then
      Outcome(s.(rows := s.rows[s.nextId := InsertValues(body, phoneDigits, photo, userId)],
                 nextId := s.nextId + 1,
                 log := s.log + [Insert(s.nextId)]),
              Reply(201, ""))
    else Outcome(Unlinked(s, file), Reply(500, ErrorText(insertError)))
  }

  /** Without a user id the request is refused with 401 before anything
      else happens. */
  lemma NotLoggedInChangesNothing(s: Store, userHeader: Option<string>, body: Body, file: Option<string>,
                                  uploadOk: bool, uploadUrl: string, uploadError: string,
                                  insertOk: bool, insertError: string)
    requires !Truthy(userHeader)
    ensures PostOutcome(s, userHeader, body, file, uploadOk, uploadUrl, uploadError, insertOk, insertError)
         == Outcome(s, NotLoggedIn)
  {
  }

  /** Missing fields: 400, and nothing is removed: the photo the
      middleware stored stays, and so does a file on disk. */
  lemma MissingFieldsKeepTempFile(s: Store, userHeader: Option<string>, body: Body, file: Option<string>,
                                  uploadOk: bool, uploadUrl: string, uploadError: string,
                                  insertOk: bool, insertError: string)
    requires Truthy(userHeader) && !HasRequired(body)
    ensures var r := PostOutcome(s, userHeader, body, file, uploadOk, uploadUrl, uploadError, insertOk, insertError);
      && r.reply == Reply(400, RequiredError)
      && r.store.rows == s.rows && r.store.tempFiles == s.tempFiles
      && r.store.assets == s.assets + (if file.Some? then {StoredId(file.value)} else {})
  {
  }

  /** A phone without ten digits: 500 with the phone rule's own text, no
      upload by the handler and no row; the file is removed. */
  lemma BadPhoneIsServerError(s: Store, userHeader: Option<string>, body: Body, file: Option<string>,
                              uploadOk: bool, uploadUrl: string, uploadError: string,
                              insertOk: bool, insertError: string)
    requires Truthy(userHeader) && HasRequired(body) && |Text.DigitsOf(body.phoneNumber.value)| != 10
    ensures var r := PostOutcome(s, userHeader, body, file, uploadOk, uploadUrl, uploadError, insertOk, insertError);
      && r.reply == Reply(500, PhoneError)
      && r.store.rows == s.rows
      && r.store.assets == s.assets + (if file.Some? then {StoredId(file.value)} else {})
      && RootServer.OnlyUnlinks(r.store.log, s.log + (if file.Some? then [Upload(StoredId(file.value))] else []))
  {
    PhoneErrorSurfaces();
  }

  /** As written, a create with a photo whose path is no file on disk (the
      URL the middleware hands over) always fails: the handler's upload
      happens, `fs.unlinkSync` throws, no row is inserted, and both copies
      of the photo stay stored. */
  lemma PhotoCreateFails(s: Store, userHeader: Option<string>, body: Body, path: string, uploadUrl: string,
                         uploadError: string, insertOk: bool, insertError: string)
    requires RootServer.Accepted(userHeader, body) && !OnDisk(s, path)
    ensures var r := PostOutcome(s, userHeader, body, Some(path), true, uploadUrl, uploadError, insertOk, insertError);
      && r.reply == Reply(500, ErrorText(UnlinkError(path)))
      && r.store.rows == s.rows
      && StoredId(path) in r.store.assets && PublicId(uploadUrl) in r.store.assets
      && r.store.log == s.log + [Upload(StoredId(path)), Upload(PublicId(uploadUrl)), Unlink(path), Unlink(path)]
  {
  }

  /** With the removal tolerated, a successful create with a photo uploads
      it, removes the file, then inserts the row that points at the
      handler's upload; whether the path was on disk does not matter. */
  lemma CreateWithPhoto(s: Store, userHeader: Option<string>, body: Body, path: string, uploadUrl: string,
                        uploadError: string, insertError: string)
    requires ValidStore(s) && RootServer.Accepted(userHeader, body)
    ensures var r := PostOutcomeFixed(s, userHeader, body, Some(path), true, uploadUrl, uploadError, true, insertError);
      && r.reply == Reply(201, "")
      && s.nextId !in s.rows && r.store.rows[s.nextId].photoUrl == Some(uploadUrl)
      && PublicId(uploadUrl) in r.store.assets && path !in r.store.tempFiles
      && r.store.log == s.log + [Upload(StoredId(path)), Upload(PublicId(uploadUrl)), Unlink(path), Insert(s.nextId)]
  {
    var uploaded := Unlinked(Uploaded(Received(s, Some(path)), uploadUrl), Some(path));
    assert uploaded.rows == s.rows && uploaded.nextId == s.nextId;
  }

  /** The fixed handler agrees with the handler as written on every request
      the written one does not fail through the removal of the file. */
  lemma FixedAgreesOnDisk(s: Store, userHeader: Option<string>, body: Body, file: Option<string>,
                          uploadOk: bool, uploadUrl: string, uploadError: string,
                          insertOk: bool, insertError: string)
    requires file.Some? ==> OnDisk(s, file.value)
    ensures PostOutcomeFixed(s, userHeader, body, file, uploadOk, uploadUrl, uploadError, insertOk, insertError)
         == PostOutcome(s, userHeader, body, file, uploadOk, uploadUrl, uploadError, insertOk, insertError)
  {
  }

  /** With the removal tolerated, a failed INSERT after the upload leaves
      the photo stored with no new row pointing at it, and tries to remove
      the file twice. */
  lemma InsertFailureKeepsPhoto(s: Store, userHeader: Option<string>, body: Body, path: string, uploadUrl: string,
                                uploadError: string, insertError: string)
    requires RootServer.Accepted(userHeader, body)
    ensures var r := PostOutcomeFixed(s, userHeader, body, Some(path), true, uploadUrl, uploadError, false, insertError);
      && r.reply == Reply(500, ErrorText(insertError))
      && r.store.rows == s.rows && PublicId(uploadUrl) in r.store.assets
      && r.store.log == s.log + [Upload(StoredId(path)), Upload(PublicId(uploadUrl)), Unlink(path), Unlink(path)]
  {
  }

  class Server {
    var rows: map<int, Row>
    var assets: set<string>
    /** Paths of the temporary files the upload middleware wrote. */
    var tempFiles: set<string>
    var nextId: int
    var log: seq<Effect>

    function Snapshot(): Store
      reads this
    {
      Store(rows, assets, tempFiles, nextId, log)
    }

    predicate Valid()
      reads this
    {
      ValidStore(Snapshot())
    }

    constructor ()
      ensures Snapshot() == Store(map[], {}, {}, 1, [])
      ensures Valid()
    {
      rows := map[];
      assets := {};
      tempFiles := {};
      nextId := 1;
      log := [];
    }

    /** POST /api/birthdays. `file` is the path the upload middleware gives
        an attached photo. */
    method HandlePost(userHeader: Option<string>, body: Body, file: Option<string>,
                      uploadOk: bool, uploadUrl: string, uploadError: string,
                      insertOk: bool, insertError: string)
      returns (reply: Reply)
      requires Valid()
      modifies this
      ensures Valid()
      ensures Outcome(Snapshot(), reply)
           == PostOutcome(old(Snapshot()), userHeader, body, file, uploadOk, uploadUrl, uploadError, insertOk, insertError)
    {
      var auth := CheckLoggedIn(userHeader);
      if auth.Err? {
        return NotLoggedIn;
      }
      ReceivePhoto(file);
      if !HasRequired(body) {
        return Reply(400, RequiredError);
      }
      var phone := ProcessPhoneNumber(body.phoneNumber.value);
      if phone.Err? {
        var _ := Cleanup(file);
        return Reply(500, ErrorText(phone.message));
      }
      var photoUrl: Option<string> := None;
      if file.Some? {
        if !uploadOk {
          var _ := Cleanup(file);
          return Reply(500, ErrorText(uploadError));
        }
        UploadPhoto(uploadUrl);
        photoUrl := Some(uploadUrl);
        var thrown := Cleanup(file);
        if thrown {
          var _ := Cleanup(file);
          return Reply(500, ErrorText(UnlinkError(file.value)));
        }
      }
      reply := InsertRow(body, phone.value, photoUrl, auth.value, file, insertOk, insertError);
    }

    /** `pool.query(INSERT ...)`, and on failure the catch block. */
    method InsertRow(body: Body, phoneDigits: string, photoUrl: Option<string>, userId: string,
                     file: Option<string>, insertOk: bool, insertError: string)
      returns (reply: Reply)
      requires HasRequired(body)
      modifies this
      ensures Outcome(Snapshot(), reply)
           == InsertOutcome(old(Snapshot()), body, phoneDigits, photoUrl, userId, file, insertOk, insertError)
    {
      if insertOk {
        rows := rows[nextId := InsertValues(body, phoneDigits, photoUrl, userId)];
        log := log + [Insert(nextId)];
        nextId := nextId + 1;
        return Reply(201, "");
      }
      var _ := Cleanup(file);
      reply := Reply(500, ErrorText(insertError));
    }

    /** `fs.unlinkSync(req.file.path)` when a file came; `thrown` when
        there was no such file on disk. */
    method Cleanup(file: Option<string>) returns (thrown: bool)
      modifies this
      ensures thrown <==> file.Some? && !OnDisk(old(Snapshot()), file.value)
      ensures Snapshot() == Unlinked(old(Snapshot()), file)
    {
      thrown := file.Some? && file.value !in tempFiles;
      if file.Some? {
        tempFiles := tempFiles - {file.value};
        log := log + [Unlink(file.value)];
      }
    }

    /** The upload middleware stores an attached photo under its folder. */
    method ReceivePhoto(file: Option<string>)
      modifies this
      ensures Snapshot() == Received(old(Snapshot()), file)
    {
      if file.Some? {
        assets := assets + {StoredId(file.value)};
        log := log + [Upload(StoredId(file.value))];
      }
    }

    /** The photo host stores a photo whose URL is `url`. */
    method UploadPhoto(url: string)
      modifies this
      ensures Snapshot() == Uploaded(old(Snapshot()), url)
    {
      assets := assets + {PublicId(url)};
      log := log + [Upload(PublicId(url))];
    }
  }
}

/** The two stores the server handlers work on, the birthdays table and the
    photo host, together with the temporary files of uploads and the log of
    every effect issued, as one value; and the small steps the handlers
    share. */
module Stores {
  import opened Opt
  import opened Rows

  /** One side effect on the photo host, the file system or the database. */
  datatype Effect =
    | Upload(asset: string)
    | Unlink(path: string)
    | Begin
    | Insert(id: int)
    | Update(id: int)
    | Delete(id: int)
    | Commit
    | Rollback
    | Destroy(asset: string)

  /** Rows by id (the owner inside each row), public ids of stored photos,
      paths of temporary upload files, the id the next INSERT receives, and
      the effects issued so far in order. */
  datatype Store = Store(
    rows: map<int, Row>, assets: set<string>, tempFiles: set<string>,
    nextId: int, log: seq<Effect>)

  /** A handler run's result: the stores afterwards and the answer. */
  datatype Outcome = Outcome(store: Store, reply: Reply)

  /** Every row id is below the next id to hand out. */
  predicate ValidStore(s: Store) {
    forall id :: id in s.rows ==> id < s.nextId
  }

  /** The row `id` exists and belongs to `userId`
      (`WHERE id = $1 AND user_id = $2`). */
  predicate Owns(rows: map<int, Row>, id: int, userId: string) {
    id in rows && rows[id].userId == userId
  }

  /** The store with more effects logged and nothing else changed. */
  function Emit(s: Store, effects: seq<Effect>): Store
  {
    s.(log := s.log + effects)
  }

  /** A photo stored on the host under the asset id of `url`. */
  function Uploaded(s: Store, url: string): Store
  {
    s.(assets := s.assets + {PublicId(url)}, log := s.log + [Upload(PublicId(url))])
  }

  /** The host folder the upload middleware stores photos in. */
  const Folder := "birthday-reminder"

  /** The public id the upload middleware gives the photo it stores under
      `url` (`req.file.filename`): the folder, a '/', then the id in the
      URL's last segment. */
  function StoredId(url: string): string {
    Folder + "/" + PublicId(url)
  }

  /** An id cut from a URL by `split("/").pop().split(".")[0]` never names a
      photo the middleware stored, because those ids hold a '/'. */
  lemma StoredIdNotPublicId(url: string, other: string)
    ensures StoredId(url) != PublicId(other)
  {
    PublicIdShape(other);
    assert StoredId(url)[|Folder|] == '/';
  }

  /** The upload middleware (`multer` with `CloudinaryStorage`) stores an
      attached photo on the host before the handler runs; the file's `path`
      the handler sees is that photo's URL, not a file on disk. */
  function Received(s: Store, file: Option<string>): (r: Store)
    ensures r.rows == s.rows && r.nextId == s.nextId && r.tempFiles == s.tempFiles
    ensures r.assets == s.assets + (if file.Some? then {StoredId(file.value)} else {})
    ensures s.log <= r.log
  {
    if file.Some? then s.(assets := s.assets + {StoredId(file.value)}, log := s.log + [Upload(StoredId(file.value))])
    else s
  }

  /** `fs.unlinkSync(path)` returns only when `path` names a file on disk;
      otherwise it throws. */
  predicate OnDisk(s: Store, path: string) {
    path in s.tempFiles
  }

  /** `fs.unlinkSync(path)` attempted when a file came: the file is gone if
      it was there, and the attempt is logged either way. */
  function Unlinked(s: Store, file: Option<string>): Store
  {
    if file.Some? then s.(tempFiles := s.tempFiles - {file.value}, log := s.log + [Unlink(file.value)]) else s
  }

  /** `cloudinary.uploader.destroy(req.file.filename)` when a file came,
      attempted: the middleware's photo is gone when the removal succeeds; a
      failure is only logged. */
  function Discarded(s: Store, file: Option<string>, ok: bool): Store
  {
    if file.None? then s
    else s.(assets := if ok then s.assets - {StoredId(file.value)} else s.assets,
            log := s.log + [Destroy(StoredId(file.value))])
  }

  /** `cloudinary.uploader.destroy` of the id cut from a truthy photo URL
      (`split("/").pop().split(".")[0]`), attempted: the asset of that id
      is gone when the removal succeeds; a failure is only logged. */
  function Destroyed(s: Store, url: Option<string>, ok: bool): Store
  {
    if !Truthy(url) then s
    else s.(assets := if ok then s.assets - {PublicId(url.value)} else s.assets,
            log := s.log + [Destroy(PublicId(url.value))])
  }
}

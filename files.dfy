/** The file/folder metadata service: upload validation, owner-scoped
    lookup, publish/unpublish and the content-access rule.

    The `files` collection is a map from ids to records, the blob area a
    map from the paths that hold regular files to what was written there,
    and the thumbnail queue an append-only sequence of jobs. */
module Files {
  import opened Wrappers
  import opened ObjectIds
  import opened JsText

  /** `ROOT_FOLDER_ID`: the parent id of a top-level record. */
  const RootFolderId: string := "0"
  /** `DEFAULT_ROOT_FOLDER`: blob directory name under the temp directory. */
  const DefaultRootFolder: string := "files_manager"

  datatype FileType = Folder | File | Image

  function TypeName(t: FileType): string {
    match t
    case Folder => "folder"
    case File => "file"
    case Image => "image"
  }

  /** The `type` field checked against `VALID_FILE_TYPES`. */
  function ParseType(t: Option<string>): (r: Option<FileType>)
    ensures r.Some? <==> t.Some? && t.value in {"folder", "file", "image"}
    ensures r.Some? ==> TypeName(r.value) == t.value
  {
    if t == Some("folder") then Some(Folder)
    else if t == Some("file") then Some(File)
    else if t == Some("image") then Some(Image)
    else None
  }

  /** Every kind is accepted under its own name. */
  lemma ParseTypeName(k: FileType)
    ensures ParseType(Some(TypeName(k))) == Some(k)
  {
  }

  /** A record's parent: the root sentinel `'0'` or a folder's id. */
  datatype Parent = Root | Under(folder: ObjectId)

  datatype FileRecord = FileRecord(
    userId: ObjectId,
    name: string,
    kind: FileType,
    isPublic: bool,
    parent: Parent,
    localPath: Option<string>)

  type FilesMap = map<ObjectId, FileRecord>

  /** A thumbnail-generation job as handed to the queue. */
  datatype Job = Job(userId: string, fileId: string, name: string)

  /** The job `postUpload` enqueues for a new image. */
  function ThumbnailJob(user: ObjectId, file: ObjectId): (j: Job)
    ensures ObjectIdOf(j.userId) == user && ObjectIdOf(j.fileId) == file
  {
    RenderRoundTrip(user);
    RenderRoundTrip(file);
    Job(Render(user), Render(file), "Image thumbnail [" + Render(user) + "-" + Render(file) + "]")
  }

  datatype Error =
    | MissingName
    | InvalidType
    | MissingData
    | InvalidParentFolder
    | NotFound
    | FolderHasNoContent

  /** The `error` text of each response. */
  function Message(e: Error): string {
    match e
    case MissingName => "Missing name"
    case InvalidType => "Invalid type"
    case MissingData => "Missing data"
    case InvalidParentFolder => "Invalid parent folder"
    case NotFound => "Not found"
    case FolderHasNoContent => "A folder doesn't have content"
  }

  /** The body of an upload request; an absent field is `None`. */
  datatype UploadRequest = UploadRequest(
    name: Option<string>,
    fileType: Option<string>,
    parentId: Option<string>,
    isPublic: Option<bool>,
    data: Option<string>)

  /** `parentId`, defaulting to `ROOT_FOLDER_ID`. */
  function ParentIdOf(req: UploadRequest): string {
    req.parentId.GetOr(RootFolderId)
  }

  /** The parent a new record stores. */
  function ParentOf(req: UploadRequest): (p: Parent)
    ensures p.Root? <==> ParentIdOf(req) == RootFolderId
    ensures p.Under? ==> p.folder == ObjectIdOf(ParentIdOf(req))
  {
    if ParentIdOf(req) == RootFolderId then Root else Under(ObjectIdOf(ParentIdOf(req)))
  }

  /** `findOne({ _id: new ObjectId(isValidId(id) ? id : NULL_ID) })`: the
      key of the record a request id names. Since no stored record has the
      id zero, a malformed id finds nothing. */
  function FindById(files: FilesMap, id: string): (r: Option<ObjectId>)
    ensures r.Some? ==> r.value in files && r.value == ObjectIdOf(id)
    ensures r.Some? <==> ObjectIdOf(id) in files
    ensures 0 !in files ==>
      (r.Some? <==> exists k | k in files :: IsValidId(id) && Render(k) == Lower(id))
  {
    var k := ObjectIdOf(id);
    OnlyIdWrittenAs(id);
    if k in files then Some(k) else None
  }

  /** A well-formed request id names exactly one id: the one written out
      as its lower-case form. */
  lemma OnlyIdWrittenAs(id: string)
    ensures IsValidId(id) ==> forall j: ObjectId | Render(j) == Lower(id) :: j == ObjectIdOf(id)
  {
    if IsValidId(id) {
      forall j: ObjectId | Render(j) == Lower(id) ensures j == ObjectIdOf(id) {
        RenderInjective(j, ObjectIdOf(id));
      }
    }
  }

  /** The same lookup with the filter `userId: <requester>` added. */
  function FindOwned(files: FilesMap, user: ObjectId, id: string): (r: Option<ObjectId>)
    ensures r.Some? ==> r.value in files && r.value == ObjectIdOf(id) && files[r.value].userId == user
    ensures r.Some? <==> ObjectIdOf(id) in files && files[ObjectIdOf(id)].userId == user
    ensures 0 !in files ==>
      (r.Some? <==> exists k | k in files :: files[k].userId == user && IsValidId(id) && Render(k) == Lower(id))
  {
    match FindById(files, id)
    case Some(k) => if files[k].userId == user then Some(k) else None
    case None => None
  }

  /** The validation steps of `postUpload`, in the order the source takes
      them; on success, the kind of the new record. */
  function CheckUpload(req: UploadRequest, files: FilesMap): (r: Result<FileType, Error>)
    ensures r == Failure(MissingName) <==> !Present(req.name)
    ensures r == Failure(InvalidType) <==> Present(req.name) && ParseType(req.fileType).None?
    ensures r == Failure(MissingData) <==>
      Present(req.name) && ParseType(req.fileType).Some? && ParseType(req.fileType) != Some(Folder)
      && !Present(req.data)
    ensures r == Failure(InvalidParentFolder) <==>
      Present(req.name) && ParseType(req.fileType).Some?
      && (ParseType(req.fileType) == Some(Folder) || Present(req.data))
      && ParentIdOf(req) != RootFolderId
      && !(FindById(files, ParentIdOf(req)).Some? && files[FindById(files, ParentIdOf(req)).value].kind == Folder)
    ensures r.Success? ==> Some(r.value) == ParseType(req.fileType)
    ensures r.Failure? ==> r.error in {MissingName, InvalidType, MissingData, InvalidParentFolder}
  {
    if !Present(req.name) then Failure(MissingName)
    else if ParseType(req.fileType).None? then Failure(InvalidType)
    else
      var kind := ParseType(req.fileType).value;
      if kind != Folder && !Present(req.data) then Failure(MissingData)
      else if ParentIdOf(req) != RootFolderId && !ParentIsFolder(files, ParentIdOf(req)) then
        Failure(InvalidParentFolder)
      else Success(kind)
  }

  /** The parent lookup: a record under that id exists and is a folder. */
  predicate ParentIsFolder(files: FilesMap, parentId: string) {
    match FindById(files, parentId)
    case Some(k) => files[k].kind == Folder
    case None => false
  }

  /** With the root parent no lookup is made: the outcome of the checks
      does not depend on the collection at all. */
  lemma RootParentNeedsNoLookup(req: UploadRequest, files: FilesMap, other: FilesMap)
    requires ParentIdOf(req) == RootFolderId
    ensures CheckUpload(req, files) == CheckUpload(req, other)
  {
  }

  /** An accepted upload names the root or an existing folder as parent. */
  lemma AcceptedParentIsFolder(req: UploadRequest, files: FilesMap)
    requires 0 !in files
    requires CheckUpload(req, files).Success?
    ensures ParentOf(req).Under? ==>
      ParentOf(req).folder in files && files[ParentOf(req).folder].kind == Folder
  {
    if ParentOf(req).Under? {
      NullIdIsZero();
      assert ParentIsFolder(files, ParentIdOf(req));
    }
  }

  /** A malformed parent id never passes the parent check. */
  lemma MalformedParentRejected(req: UploadRequest, files: FilesMap)
    requires 0 !in files
    requires Present(req.name) && ParseType(req.fileType).Some?
    requires ParseType(req.fileType) == Some(Folder) || Present(req.data)
    requires ParentIdOf(req) != RootFolderId && !IsValidId(ParentIdOf(req))
    ensures CheckUpload(req, files) == Failure(InvalidParentFolder)
  {
  }

  /** `process.env.FOLDER_PATH?.trim() || path.join(tmpdir(), DEFAULT_ROOT_FOLDER)`. */
  function BaseDir(folderPath: Option<string>, tmpDir: string): (d: string)
    ensures d != []
    ensures folderPath.Some? && Trim(folderPath.value) != [] ==> d == Trim(folderPath.value)
    ensures (folderPath.None? || Trim(folderPath.value) == []) ==>
      && d == JoinPath(tmpDir, DefaultRootFolder)
      && |d| >= |DefaultRootFolder| && d[|d| - |DefaultRootFolder|..] == DefaultRootFolder
  {
    var configured := if folderPath.Some? then Trim(folderPath.value) else [];
    if configured != [] then configured else JoinPath(tmpDir, DefaultRootFolder)
  }

  /** How a record's parent is rendered: the number `0` for the root,
      otherwise the parent's written-out id. */
  datatype ParentView = Zero | Ref(id: string)

  /** The record as the show, publish and listing responses render it. */
  datatype FileView = FileView(
    id: string,
    userId: string,
    name: string,
    kind: FileType,
    isPublic: bool,
    parentId: ParentView)

  function ViewParent(p: Parent): (v: ParentView)
    ensures v.Zero? <==> p.Root?
    ensures p.Under? ==> v.Ref? && IsValidId(v.id) && ObjectIdOf(v.id) == p.folder
  {
    match p
    case Root => Zero
    case Under(f) => RenderRoundTrip(f); Ref(Render(f))
  }

  function ViewOf(id: string, rec: FileRecord): FileView {
    FileView(id, Render(rec.userId), rec.name, rec.kind, rec.isPublic, ViewParent(rec.parent))
  }

  /** `req.params?.id || NULL_ID`. */
  function ShowId(idParam: string): string {
    if idParam == [] then NullId else idParam
  }

  /** `getShow`: the requester's record under the id in the path, or Not
      found. */
  function Show(files: FilesMap, user: ObjectId, idParam: string): (r: Result<FileView, Error>)
    ensures r.Failure? ==> r.error == NotFound
    ensures r.Success? <==> FindOwned(files, user, ShowId(idParam)).Some?
    ensures r.Success? ==>
      var rec := files[ObjectIdOf(ShowId(idParam))];
      rec.userId == user && r.value == ViewOf(ShowId(idParam), rec)
  {
    var id := ShowId(idParam);
    match FindOwned(files, user, id)
    case None => Failure(NotFound)
    case Some(k) => Success(ViewOf(id, files[k]))
  }

  /** Asking for one's own record by its written-out id finds it. */
  lemma ShowOwnRecord(files: FilesMap, k: ObjectId)
    requires k in files
    ensures Show(files, files[k].userId, Render(k)) == Success(ViewOf(Render(k), files[k]))
  {
    RenderRoundTrip(k);
  }

  /** Another user's record is reported exactly like a missing one. */
  lemma ShowHidesOthers(files: FilesMap, user: ObjectId, k: ObjectId)
    requires k in files && files[k].userId != user
    ensures Show(files, user, Render(k)) == Failure(NotFound)
  {
    RenderRoundTrip(k);
  }

  /** `putPublish` / `putUnpublish` on the collection: the requester's
      record under `id` gets `isPublic := flag`; without one, nothing
      changes. */
  function Visibility(files: FilesMap, user: ObjectId, id: string, flag: bool): (r: FilesMap)
    ensures r.Keys == files.Keys
    ensures forall k | k in files && FindOwned(files, user, id) != Some(k) :: r[k] == files[k]
    ensures forall k | FindOwned(files, user, id) == Some(k) :: r[k] == files[k].(isPublic := flag)
  {
    match FindOwned(files, user, id)
    case None => files
    case Some(k) => files[k := files[k].(isPublic := flag)]
  }

  /** Publishing (or unpublishing) twice leaves the collection as once. */
  lemma {:induction false} VisibilityIdempotent(files: FilesMap, user: ObjectId, id: string, flag: bool)
    ensures Visibility(Visibility(files, user, id, flag), user, id, flag) == Visibility(files, user, id, flag)
  {
    var once := Visibility(files, user, id, flag);
    match FindOwned(files, user, id)
    case None =>
    case Some(k) =>
      assert FindOwned(once, user, id) == Some(k);
      assert once[k := once[k].(isPublic := flag)] == once;
  }

  /** The requester a content read is checked against: the user's
      written-out id, or `''` when no user is attached. */
  function RequesterId(requester: Option<ObjectId>): string {
    match requester
    case Some(u) => Render(u)
    case None => ""
  }

  /** Who may read a record's content: anyone when it is public, otherwise
      only its owner. */
  predicate CanRead(rec: FileRecord, requester: Option<ObjectId>) {
    rec.isPublic || requester == Some(rec.userId)
  }

  /** `localPath + "_" + size` for a size variant, the original otherwise. */
  function VariantPath(localPath: string, size: Option<string>): string {
    if Present(size) then localPath + "_" + size.value else localPath
  }

  /** What a successful `getFile` sends: the path, its bytes (as written)
      and the record's name, from which the content type is derived. */
  datatype Served = Served(path: string, content: string, name: string)

  /** `getFile`: access is checked by comparing the owner's written-out id
      with the requester's; folders have no content; the requested variant
      must be a regular file in the blob area. */
  function Content(files: FilesMap, blobs: map<string, string>, requester: Option<ObjectId>,
                   id: string, size: Option<string>): (r: Result<Served, Error>)
    ensures FindById(files, id).None? ==> r == Failure(NotFound)
    ensures FindById(files, id).Some? && !CanRead(files[FindById(files, id).value], requester) ==>
      r == Failure(NotFound)
    ensures r == Failure(FolderHasNoContent) <==>
      FindById(files, id).Some?
      && CanRead(files[FindById(files, id).value], requester)
      && files[FindById(files, id).value].kind == Folder
    ensures r.Failure? ==> r.error in {NotFound, FolderHasNoContent}
    ensures r.Success? <==>
      FindById(files, id).Some?
      && var rec := files[FindById(files, id).value];
      && CanRead(rec, requester) && rec.kind != Folder && rec.localPath.Some?
      && VariantPath(rec.localPath.value, size) in blobs
    ensures r.Success? ==>
      var rec := files[FindById(files, id).value];
      && r.value.path == VariantPath(rec.localPath.value, size)
      && r.value.content == blobs[r.value.path]
      && r.value.name == rec.name
  {
    match FindById(files, id)
    case None => Failure(NotFound)
    case Some(k) =>
      var rec := files[k];
      assert Render(rec.userId) != RequesterId(requester) <==> requester != Some(rec.userId) by {
        if requester.Some? { RenderInjective(rec.userId, requester.value); }
      }
      if !rec.isPublic && Render(rec.userId) != RequesterId(requester) then Failure(NotFound)
      else if rec.kind == Folder then Failure(FolderHasNoContent)
      else match rec.localPath
        case None => Failure(NotFound)
        case Some(p) =>
          var path := VariantPath(p, size);
          if path !in blobs then Failure(NotFound) else Success(Served(path, blobs[path], rec.name))
  }

  /** A record's invariant: a name; a `localPath` exactly when it is not a
      folder, naming a written blob; a parent that is an older folder. */
  ghost predicate RecordInvariant(files: FilesMap, blobs: map<string, string>, k: ObjectId)
    requires k in files
  {
    var rec := files[k];
    && rec.name != []
    && (rec.localPath.Some? <==> rec.kind != Folder)
    && (rec.localPath.Some? ==> rec.localPath.value in blobs)
    && (rec.parent.Under? ==>
          rec.parent.folder in files && files[rec.parent.folder].kind == Folder && rec.parent.folder < k)
  }

  /** A job names an existing image and its owner. */
  ghost predicate JobInvariant(files: FilesMap, j: Job) {
    var k := ObjectIdOf(j.fileId);
    k in files && files[k].kind == Image && j == ThumbnailJob(files[k].userId, k)
  }

  ghost predicate StoreInvariant(files: FilesMap, blobs: map<string, string>, jobs: seq<Job>) {
    && 0 !in files
    && (forall k | k in files :: RecordInvariant(files, blobs, k))
    && (forall a, b | a in files && b in files && a != b && files[a].localPath.Some? ::
          files[a].localPath != files[b].localPath)
    && (forall i | 0 <= i < |jobs| :: JobInvariant(files, jobs[i]))
  }

  /** What a successful upload answers: the new id and the stored record. */
  datatype Created = Created(id: string, record: FileRecord)

  /** The answer of `postUpload` and the collection, blob area and queue it
      leaves behind. */
  datatype Outcome = Outcome(response: Result<Created, Error>, files: FilesMap,
                             blobs: map<string, string>, jobs: seq<Job>)

  /** `postUpload` on values: `baseDir` is the blob directory, `uuid` names
      the new blob and `newId` is the id the store assigns. A rejected
      request changes nothing. An accepted one adds exactly one record, owned
      by the requester and stored under its parent, private unless asked
      otherwise; a regular file or image also gets exactly one new blob,
      holding the data, at the path the record keeps; an image also gets
      exactly one thumbnail job. */
  function Upload(files: FilesMap, blobs: map<string, string>, jobs: seq<Job>, user: ObjectId,
                  req: UploadRequest, baseDir: string, uuid: string, newId: ObjectId): (u: Outcome)
    ensures u.response.Failure? <==> CheckUpload(req, files).Failure?
    ensures u.response.Failure? ==>
      u == Outcome(Failure(CheckUpload(req, files).error), files, blobs, jobs)
    ensures u.response.Success? ==>
      var rec := u.response.value.record;
      && u.response.value.id == Render(newId)
      && u.files == files[newId := rec]
      && rec.userId == user && rec.name == req.name.value && rec.parent == ParentOf(req)
      && Some(rec.kind) == ParseType(req.fileType)
      && rec.isPublic == (req.isPublic == Some(true))
      && (rec.kind == Folder <==> rec.localPath.None?)
      && (rec.localPath.Some? ==> rec.localPath.value == JoinPath(baseDir, uuid))
      && (rec.kind == Folder ==> u.blobs == blobs)
      && (rec.kind != Folder ==> u.blobs == blobs[rec.localPath.value := req.data.value])
      && (rec.kind != Image ==> u.jobs == jobs)
      && (rec.kind == Image ==> u.jobs == jobs + [ThumbnailJob(user, newId)])
  {
    match CheckUpload(req, files)
    case Failure(e) => Outcome(Failure(e), files, blobs, jobs)
    case Success(kind) =>
      var path := JoinPath(baseDir, uuid);
      var localPath := if kind == Folder then None else Some(path);
      var record := FileRecord(user, req.name.value, kind, req.isPublic.GetOr(false), ParentOf(req), localPath);
      Outcome(Success(Created(Render(newId), record)),
              files[newId := record],
              if kind == Folder then blobs else blobs[path := req.data.value],
              if kind == Image then jobs + [ThumbnailJob(user, newId)] else jobs)
  }

  /** An upload under a fresh, newer id and a fresh blob path keeps the
      store invariant. */
  lemma UploadKeepsInvariant(files: FilesMap, blobs: map<string, string>, jobs: seq<Job>, user: ObjectId,
                             req: UploadRequest, baseDir: string, uuid: string, newId: ObjectId)
    requires StoreInvariant(files, blobs, jobs)
    requires 0 < newId && forall k | k in files :: k < newId
    requires JoinPath(baseDir, uuid) !in blobs
    ensures var u := Upload(files, blobs, jobs, user, req, baseDir, uuid, newId);
      StoreInvariant(u.files, u.blobs, u.jobs)
  {
    var u := Upload(files, blobs, jobs, user, req, baseDir, uuid, newId);
    if u.response.Success? {
      AcceptedParentIsFolder(req, files);
      InsertKeepsInvariant(files, blobs, jobs, newId, u.response.value.record, req.data.GetOr(""),
                           u.files, u.blobs, u.jobs);
    }
  }

  /** Right after an upload, its owner is shown the new record under the
      id the upload answered with. */
  lemma UploadThenShow(files: FilesMap, blobs: map<string, string>, jobs: seq<Job>, user: ObjectId,
                       req: UploadRequest, baseDir: string, uuid: string, newId: ObjectId)
    ensures var u := Upload(files, blobs, jobs, user, req, baseDir, uuid, newId);
      u.response.Success? ==>
        Show(u.files, user, u.response.value.id) == Success(ViewOf(u.response.value.id, u.response.value.record))
  {
    var u := Upload(files, blobs, jobs, user, req, baseDir, uuid, newId);
    if u.response.Success? {
      ShowOwnRecord(u.files, newId);
    }
  }

  /** Right after a file or image upload, its owner reads back exactly the
      data sent, under the record's name. */
  lemma UploadThenContent(files: FilesMap, blobs: map<string, string>, jobs: seq<Job>, user: ObjectId,
                          req: UploadRequest, baseDir: string, uuid: string, newId: ObjectId)
    ensures var u := Upload(files, blobs, jobs, user, req, baseDir, uuid, newId);
      u.response.Success? && u.response.value.record.kind != Folder ==>
        Content(u.files, u.blobs, Some(user), u.response.value.id, None)
          == Success(Served(JoinPath(baseDir, uuid), req.data.value, req.name.value))
  {
    var u := Upload(files, blobs, jobs, user, req, baseDir, uuid, newId);
    if u.response.Success? && u.response.value.record.kind != Folder {
      var path := JoinPath(baseDir, uuid);
      RenderRoundTrip(newId);
      assert FindById(u.files, Render(newId)) == Some(newId);
      assert u.files[newId].localPath == Some(path);
      assert VariantPath(path, None) == path;
    }
  }

  /** The state `postUpload` works on: the `files` collection, the blob
      area and the thumbnail queue. */
  class FileService {
    var files: FilesMap
    var blobs: map<string, string>
    var jobs: seq<Job>

    ghost predicate Valid()
      reads this
    {
      StoreInvariant(files, blobs, jobs)
    }

    constructor ()
      ensures Valid() && files == map[] && blobs == map[] && jobs == []
    {
      files, blobs, jobs := map[], map[], [];
    }

    /** `postUpload` for the requester `user`: the checks, then the blob is
        written, the record inserted and, for an image, the job queued. */
    method PostUpload(user: ObjectId, req: UploadRequest, folderPath: Option<string>, tmpDir: string,
                      uuid: string, newId: ObjectId) returns (r: Result<Created, Error>)
      requires Valid()
      requires 0 < newId && forall k | k in files :: k < newId
      requires JoinPath(BaseDir(folderPath, tmpDir), uuid) !in blobs
      modifies this
      ensures Valid()
      ensures var u := Upload(old(files), old(blobs), old(jobs), user, req, BaseDir(folderPath, tmpDir), uuid, newId);
        r == u.response && files == u.files && blobs == u.blobs && jobs == u.jobs
    {
      var check := CheckUpload(req, files);
      if check.Failure? {
        return Failure(check.error);
      }
      var kind := check.value;
      var baseDir := BaseDir(folderPath, tmpDir);
      UploadKeepsInvariant(files, blobs, jobs, user, req, baseDir, uuid, newId);
      var localPath: Option<string> := None;
      if kind != Folder {
        var path := JoinPath(baseDir, uuid);
        blobs := blobs[path := req.data.value];
        localPath := Some(path);
      }
      var record := FileRecord(user, req.name.value, kind, req.isPublic.GetOr(false), ParentOf(req), localPath);
      files := files[newId := record];
      if kind == Image {
        jobs := jobs + [ThumbnailJob(user, newId)];
      }
      r := Success(Created(Render(newId), record));
    }

    /** The update both `putPublish` and `putUnpublish` make. */
    method SetVisibility(user: ObjectId, id: string, flag: bool) returns (r: Result<FileView, Error>)
      requires Valid()
      modifies this
      ensures Valid()
      ensures files == Visibility(old(files), user, id, flag)
      ensures blobs == old(blobs) && jobs == old(jobs)
      ensures match FindOwned(old(files), user, id)
        case None => r == Failure(NotFound)
        case Some(k) => r == Success(ViewOf(id, old(files)[k].(isPublic := flag)))
    {
      match FindOwned(files, user, id)
      case None =>
        r := Failure(NotFound);
      case Some(k) =>
        var updated := files[k].(isPublic := flag);
        files := Visibility(files, user, id, flag);
        r := Success(ViewOf(id, updated));
        VisibilityKeepsInvariant(old(files), blobs, jobs, k, flag);
    }

    /** `putPublish`: the requester's record becomes public. */
    method PutPublish(user: ObjectId, id: string) returns (r: Result<FileView, Error>)
      requires Valid()
      modifies this
      ensures Valid()
      ensures files == Visibility(old(files), user, id, true)
      ensures blobs == old(blobs) && jobs == old(jobs)
      ensures r.Success? <==> FindOwned(old(files), user, id).Some?
      ensures r.Failure? ==> r.error == NotFound
      ensures r.Success? ==> r.value.isPublic
      ensures match FindOwned(old(files), user, id)
        case None => r == Failure(NotFound)
        case Some(k) => r == Success(ViewOf(id, old(files)[k].(isPublic := true)))
    {
      r := SetVisibility(user, id, true);
    }

    /** `putUnpublish`: the requester's record becomes private. */
    method PutUnpublish(user: ObjectId, id: string) returns (r: Result<FileView, Error>)
      requires Valid()
      modifies this
      ensures Valid()
      ensures files == Visibility(old(files), user, id, false)
      ensures blobs == old(blobs) && jobs == old(jobs)
      ensures r.Success? <==> FindOwned(old(files), user, id).Some?
      ensures r.Failure? ==> r.error == NotFound
      ensures r.Success? ==> !r.value.isPublic
      ensures match FindOwned(old(files), user, id)
        case None => r == Failure(NotFound)
        case Some(k) => r == Success(ViewOf(id, old(files)[k].(isPublic := false)))
    {
      r := SetVisibility(user, id, false);
    }
  }

  /** Inserting a record under a fresh, newer id, with its blob written
      first and its job queued, keeps the store invariant. */
  lemma InsertKeepsInvariant(files: FilesMap, blobs: map<string, string>, jobs: seq<Job>,
                             newId: ObjectId, rec: FileRecord, data: string,
                             files': FilesMap, blobs': map<string, string>, jobs': seq<Job>)
    requires StoreInvariant(files, blobs, jobs)
    requires 0 < newId && forall k | k in files :: k < newId
    requires files' == files[newId := rec]
    requires rec.name != []
    requires rec.localPath.Some? <==> rec.kind != Folder
    requires rec.localPath.None? ==> blobs' == blobs
    requires rec.localPath.Some? ==>
      rec.localPath.value !in blobs && blobs' == blobs[rec.localPath.value := data]
    requires rec.parent.Under? ==> rec.parent.folder in files && files[rec.parent.folder].kind == Folder
    requires jobs' == jobs || (rec.kind == Image && jobs' == jobs + [ThumbnailJob(rec.userId, newId)])
    ensures StoreInvariant(files', blobs', jobs')
  {
    assert blobs.Keys <= blobs'.Keys;
    forall k | k in files' ensures RecordInvariant(files', blobs', k) {
      if k != newId {
        assert RecordInvariant(files, blobs, k);
      }
    }
    forall i | 0 <= i < |jobs'| ensures JobInvariant(files', jobs'[i]) {
      if i < |jobs| {
        assert JobInvariant(files, jobs[i]);
      }
    }
  }

  /** Changing only `isPublic` of one record keeps the store invariant. */
  lemma VisibilityKeepsInvariant(files: FilesMap, blobs: map<string, string>, jobs: seq<Job>,
                                 k: ObjectId, flag: bool)
    requires StoreInvariant(files, blobs, jobs)
    requires k in files
    ensures StoreInvariant(files[k := files[k].(isPublic := flag)], blobs, jobs)
  {
    var files' := files[k := files[k].(isPublic := flag)];
    forall j | j in files' ensures RecordInvariant(files', blobs, j) {
      assert RecordInvariant(files, blobs, j);
    }
    forall i | 0 <= i < |jobs| ensures JobInvariant(files', jobs[i]) {
      assert JobInvariant(files, jobs[i]);
    }
  }
}

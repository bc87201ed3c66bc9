/** The file-library hook: the list of shared lecture files and the upload,
    download and delete operations on them, with the two pure rules they
    rely on, the classification of a MIME type and the storage key. */
module Files {
  import opened Common
  import opened Seqs
  import opened Strings
  import opened Storage

  /** The `file_type` enum of the database. */
  datatype FileType = Document | Image | Video | Audio | Other

  /** The enum value as the database spells it. */
  function FileTypeName(t: FileType): string {
    match t
    case Document => "document"
    case Image => "image"
    case Video => "video"
    case Audio => "audio"
    case Other => "other"
  }

  /** A row of `files` with its uploader's name. */
  datatype FileData = FileData(
    id: Id,
    title: string,
    description: Option<string>,
    fileName: string,
    filePath: string,
    fileSize: Option<int>,
    fileType: FileType,
    course: Option<string>,
    tags: Option<seq<string>>,
    downloadCount: int,
    userId: Id,
    createdAt: string,
    updatedAt: string,
    uploaderName: Option<string>)

  /** The media prefixes are tried first, in the order image, video, audio. */
  predicate IsMediaType(mime: string) {
    StartsWith(mime, "image/") || StartsWith(mime, "video/") || StartsWith(mime, "audio/")
  }

  predicate NamesDocument(mime: string) {
    Contains(mime, "pdf") || Contains(mime, "document") || Contains(mime, "presentation")
  }

  /** `getFileType`: a MIME type is classified by its first matching rule. */
  function GetFileType(mime: string): (r: FileType)
    ensures r == Image <==> StartsWith(mime, "image/")
    ensures r == Video <==> !StartsWith(mime, "image/") && StartsWith(mime, "video/")
    ensures r == Audio <==> !StartsWith(mime, "image/") && !StartsWith(mime, "video/") && StartsWith(mime, "audio/")
    ensures r == Document <==> !IsMediaType(mime) && NamesDocument(mime)
    ensures r == Other <==> !IsMediaType(mime) && !NamesDocument(mime)
  {
    if StartsWith(mime, "image/") then Image
    else if StartsWith(mime, "video/") then Video
    else if StartsWith(mime, "audio/") then Audio
    else if NamesDocument(mime) then Document
    else Other
  }

  /** A media prefix wins over a document keyword later in the type. */
  lemma MediaPrefixWins(rest: string)
    ensures GetFileType("video/" + rest) == Video
    ensures GetFileType("audio/" + rest) == Audio
  {
    assert ("video/" + rest)[..6] == "video/";
    assert ("audio/" + rest)[..6] == "audio/";
  }

  /** A type that is not a media type and names "pdf" anywhere, such as
      `application/pdf`, is a document. */
  lemma PdfTypeIsDocument(before: string, after: string)
    requires !IsMediaType(before + "pdf" + after)
    ensures GetFileType(before + "pdf" + after) == Document
  {
    var mime := before + "pdf" + after;
    assert mime[|before|..|before| + 3] == "pdf";
    assert OccursAt(mime, "pdf", |before|);
    ContainsIff(mime, "pdf");
  }

  /** The storage key of a library upload: `lecture-files/${Date.now()}.${ext}`. */
  function LibraryFilePath(fileName: string, now: nat): (path: string)
    ensures StartsWith(path, "lecture-files/")
  {
    var path := "lecture-files/" + NatToString(now) + "." + FileExt(fileName);
    assert path[..14] == "lecture-files/";
    path
  }

  /** The stored object keeps the extension of the picked file. */
  lemma LibraryFilePathKeepsExt(fileName: string, now: nat)
    ensures FileExt(LibraryFilePath(fileName, now)) == FileExt(fileName)
  {
    StoredNameKeepsExt("lecture-files/" + NatToString(now), fileName);
  }

  function HasId(id: Id): FileData -> bool {
    (f: FileData) => f.id == id
  }

  /** `files.find(f => f.id === fileId)?.download_count + 1 || 1`: the cached
      count plus one, and 1 when the file is not in the local list (the sum
      is then NaN) or when the sum is 0. */
  function NewDownloadCount(files: seq<FileData>, fileId: Id): (r: int)
    ensures (forall i :: 0 <= i < |files| ==> files[i].id != fileId) ==> r == 1
    ensures forall i ::
              (0 <= i < |files| && files[i].id == fileId && files[i].downloadCount >= 0 &&
               (forall j :: 0 <= j < i ==> files[j].id != fileId)) ==> r == files[i].downloadCount + 1
  {
    match Find(HasId(fileId), files)
    case None => 1
    case Some(f) => if f.downloadCount + 1 != 0 then f.downloadCount + 1 else 1
  }

  /** With non-negative cached counts the new count is always positive. */
  lemma NewDownloadCountPositive(files: seq<FileData>, fileId: Id)
    requires forall i :: 0 <= i < |files| ==> files[i].downloadCount >= 0
    ensures NewDownloadCount(files, fileId) >= 1
  {
    var f := Find(HasId(fileId), files);
    if f.Some? {
      var k :| 0 <= k < |files| && files[k] == f.value && HasId(fileId)(files[k]) &&
               forall j :: 0 <= j < k ==> !HasId(fileId)(files[j]);
    }
  }

  /** The row `uploadFile` inserts. */
  datatype NewFile = NewFile(
    title: string,
    description: Option<string>,
    fileName: string,
    filePath: string,
    fileSize: int,
    fileType: FileType,
    course: Option<string>,
    tags: Option<seq<string>>,
    userId: Id)

  /** The remote calls the hook issues, in order. */
  datatype FileCall =
    | StorageUpload(bucket: string, path: string)
    | InsertFile(row: NewFile)
    | InsertDownload(fileId: Id, userId: Id)
    | SetDownloadCount(fileId: Id, count: int)
    | StorageDownload(bucket: string, path: string)
    | StorageRemove(bucket: string, paths: seq<string>)
    | DeleteOwnFile(fileId: Id, userId: Id)
    | RefreshFiles

  /** The effect of `.delete().eq('id', fileId).eq('user_id', userId)` on the
      `files` table. */
  function DeleteOwnFileRows(table: seq<FileData>, fileId: Id, userId: Id): (r: seq<FileData>)
    ensures |r| <= |table|
    ensures forall i :: 0 <= i < |r| ==> !(r[i].id == fileId && r[i].userId == userId)
  {
    Filter((f: FileData) => !(f.id == fileId && f.userId == userId), table)
  }

  /** The delete removes exactly the rows with that id owned by that user:
      another user's row with the same id survives, and the survivors keep
      their order. */
  lemma DeleteOnlyOwnRows(table: seq<FileData>, fileId: Id, userId: Id, f: FileData)
    ensures f in DeleteOwnFileRows(table, fileId, userId) <==>
              f in table && !(f.id == fileId && f.userId == userId)
    ensures IsSubsequence(DeleteOwnFileRows(table, fileId, userId), table)
  {
    var keep := (f: FileData) => !(f.id == fileId && f.userId == userId);
    FilterMembership(keep, table, f);
    FilterIsSubsequence(keep, table);
  }

  /** The state of the mounted `useFiles()` hook. */
  class FilesHook {
    const user: Option<Id>
    var files: seq<FileData>
    var loading: bool

    constructor (user: Option<Id>)
      ensures this.user == user && files == [] && loading
    {
      this.user := user;
      files := [];
      loading := true;
    }

    /** `fetchFiles`: the list becomes the fetched rows (`[]` for a null
        result); a failed query keeps it. */
    method FetchFiles(data: Option<seq<FileData>>, queryOk: bool)
      modifies this`files, this`loading
      ensures !loading
      ensures files == if queryOk then data.GetOr([]) else old(files)
    {
      loading := true;
      if queryOk {
        files := data.GetOr([]);
      }
      loading := false;
    }

    /** `uploadFile`: store the object, insert the row, refresh. */
    method UploadFile(title: string, description: Option<string>, course: Option<string>,
                      tags: Option<seq<string>>, fileName: string, mimeType: string, fileSize: int,
                      now: nat, storageOk: bool, insertOk: bool)
      returns (calls: seq<FileCall>, outcome: Outcome)
      ensures user.None? ==> calls == [] && outcome == Failure("User not authenticated")
      ensures user.Some? ==>
                (|calls| >= 1 && calls[0] == StorageUpload("lecture-files", LibraryFilePath(fileName, now)))
      ensures user.Some? && !storageOk ==> (|calls| == 1 && outcome == Failure("Upload failed"))
      ensures user.Some? && storageOk ==>
                (|calls| >= 2 && calls[1] == InsertFile(NewFile(title, description, fileName, LibraryFilePath(fileName, now),
                                                       fileSize, GetFileType(mimeType), course, tags, user.value)))
      ensures user.Some? && storageOk && !insertOk ==> (|calls| == 2 && outcome == Failure("Upload failed"))
      ensures user.Some? && storageOk && insertOk ==> (calls[2..] == [RefreshFiles] && outcome == Success)
    {
      if user.None? {
        return [], Failure("User not authenticated");
      }
      var path := LibraryFilePath(fileName, now);
      calls := [StorageUpload("lecture-files", path)];
      if !storageOk {
        return calls, Failure("Upload failed");
      }
      calls := calls + [InsertFile(NewFile(title, description, fileName, path, fileSize, GetFileType(mimeType),
                                           course, tags, user.value))];
      if !insertOk {
        return calls, Failure("Upload failed");
      }
      calls := calls + [RefreshFiles];
      outcome := Success;
    }

    /** `downloadFile`: record the download and the new count (neither
        result is checked), fetch the object, refresh. */
    method DownloadFile(fileId: Id, fileName: string, filePath: string, downloadOk: bool)
      returns (calls: seq<FileCall>, outcome: Outcome)
      ensures user.None? ==> calls == [] && outcome == Failure("User not authenticated")
      ensures user.Some? ==>
                (|calls| >= 3 &&
                 calls[..3] == [InsertDownload(fileId, user.value),
                                SetDownloadCount(fileId, NewDownloadCount(files, fileId)),
                                StorageDownload("lecture-files", filePath)])
      ensures user.Some? && downloadOk ==> (|calls| == 4 && calls[3] == RefreshFiles && outcome == Success)
      ensures user.Some? && !downloadOk ==> |calls| == 3 && outcome == Failure("Download failed")
    {
      if user.None? {
        return [], Failure("User not authenticated");
      }
      calls := [InsertDownload(fileId, user.value), SetDownloadCount(fileId, NewDownloadCount(files, fileId)),
                StorageDownload("lecture-files", filePath)];
      if !downloadOk {
        return calls, Failure("Download failed");
      }
      calls := calls + [RefreshFiles];
      outcome := Success;
    }

    /** `deleteFile`: remove the object, then delete the row only where both
        the id and the owner match, refresh. */
    method DeleteFile(fileId: Id, filePath: string, storageOk: bool, deleteOk: bool)
      returns (calls: seq<FileCall>, outcome: Outcome)
      ensures user.None? ==> calls == [] && outcome == Failure("User not authenticated")
      ensures user.Some? ==> |calls| >= 1 && calls[0] == StorageRemove("lecture-files", [filePath])
      ensures user.Some? && !storageOk ==> |calls| == 1 && outcome == Failure("Delete failed")
      ensures user.Some? && storageOk ==> |calls| >= 2 && calls[1] == DeleteOwnFile(fileId, user.value)
      ensures user.Some? && storageOk && !deleteOk ==> |calls| == 2 && outcome == Failure("Delete failed")
      ensures user.Some? && storageOk && deleteOk ==> calls[2..] == [RefreshFiles] && outcome == Success
    {
      if user.None? {
        return [], Failure("User not authenticated");
      }
      calls := [StorageRemove("lecture-files", [filePath])];
      if !storageOk {
        return calls, Failure("Delete failed");
      }
      calls := calls + [DeleteOwnFile(fileId, user.value)];
      if !deleteOk {
        return calls, Failure("Delete failed");
      }
      calls := calls + [RefreshFiles];
      outcome := Success;
    }
  }
}

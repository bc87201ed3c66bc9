/** The library page: the case-insensitive search over title, course and
    tags, the icon of each file type, the tag cap, and the ownership check
    before a delete. */
module LibraryPage {
  import opened Common
  import opened Seqs
  import opened Strings
  import opened Files

  /** `text.toLowerCase().includes(term.toLowerCase())`. */
  predicate Matches(term: string, text: string) {
    Contains(Lower(text), Lower(term))
  }

  /** The search predicate of one file: its title, its course or one of its
      tags matches. */
  predicate FileShown(term: string, f: FileData) {
    || Matches(term, f.title)
    || (f.course.Some? && Matches(term, f.course.value))
    || (f.tags.Some? && exists i :: 0 <= i < |f.tags.value| && Matches(term, f.tags.value[i]))
  }

  function Shown(term: string): FileData -> bool {
    (f: FileData) => FileShown(term, f)
  }

  /** The files listed for a search term. */
  function FilterFiles(files: seq<FileData>, term: string): (r: seq<FileData>)
    ensures forall i :: 0 <= i < |r| ==> FileShown(term, r[i])
  {
    Filter(Shown(term), files)
  }

  /** A file is listed exactly when it matches, and the list keeps the
      library's order. */
  lemma FilterFilesExactly(files: seq<FileData>, term: string, f: FileData)
    ensures f in FilterFiles(files, term) <==> f in files && FileShown(term, f)
    ensures IsSubsequence(FilterFiles(files, term), files)
  {
    FilterMembership(Shown(term), files, f);
    FilterIsSubsequence(Shown(term), files);
  }

  /** The empty search term lists every file. */
  lemma EmptyTermListsAll(files: seq<FileData>)
    ensures FilterFiles(files, "") == files
  {
    forall i | 0 <= i < |files|
      ensures Shown("")(files[i])
    {
      ContainsEmpty(Lower(files[i].title));
    }
    FilterAll(Shown(""), files);
  }

  /** The search ignores the case of ASCII letters in the term. */
  lemma SearchIgnoresTermCase(files: seq<FileData>, term: string)
    ensures FilterFiles(files, Lower(term)) == FilterFiles(files, term)
  {
    LowerIdempotent(term);
    FilterAgree(Shown(Lower(term)), Shown(term), files);
  }

  datatype FileIcon = ImageIcon | VideoIcon | MusicIcon | DocumentIcon

  /** `getFileIcon`. */
  function GetFileIcon(fileType: string): (r: FileIcon)
    ensures fileType == "image" ==> r == ImageIcon
    ensures fileType == "video" ==> r == VideoIcon
    ensures fileType == "audio" ==> r == MusicIcon
    ensures fileType != "image" && fileType != "video" && fileType != "audio" ==> r == DocumentIcon
  {
    if fileType == "image" then ImageIcon
    else if fileType == "video" then VideoIcon
    else if fileType == "audio" then MusicIcon
    else DocumentIcon
  }

  /** Each stored file type gets its own icon, except that documents and
      'other' files share the document icon. */
  lemma IconOfStoredType(t: FileType)
    ensures GetFileIcon(FileTypeName(t)) ==
            match t
            case Image => ImageIcon
            case Video => VideoIcon
            case Audio => MusicIcon
            case Document => DocumentIcon
            case Other => DocumentIcon
  {
  }

  /** The tags shown on a file's card: at most the first three. */
  function VisibleTags(f: FileData): (r: seq<string>)
    ensures |r| <= 3
    ensures f.tags.Some? ==> r <= f.tags.value
    ensures f.tags.Some? && |f.tags.value| >= 3 ==> |r| == 3
    ensures f.tags.None? ==> r == []
  {
    if f.tags.Some? then Take(f.tags.value, 3) else []
  }

  /** What `handleDelete` does. */
  datatype DeleteDecision = CallDelete(fileId: Id, filePath: string) | Refuse(message: string)

  /** `handleDelete`: a file whose owner is not the signed-in user (every
      file, when nobody is signed in) is refused before any call. */
  function HandleDelete(f: FileData, user: Option<Id>): (r: DeleteDecision)
    ensures r.CallDelete? <==> user == Some(f.userId)
    ensures r.CallDelete? ==> r == CallDelete(f.id, f.filePath)
    ensures r.Refuse? ==> r.message == "You can only delete your own files."
  {
    if user != Some(f.userId) then Refuse("You can only delete your own files.")
    else CallDelete(f.id, f.filePath)
  }

  /** A delete the page lets through removes no other user's file row, not
      even one that shares the file's id. */
  lemma AllowedDeleteSparesOthers(f: FileData, user: Option<Id>, table: seq<FileData>, g: FileData)
    requires HandleDelete(f, user).CallDelete?
    requires g in table && g.userId != f.userId
    ensures g in DeleteOwnFileRows(table, f.id, user.value)
  {
    DeleteOnlyOwnRows(table, f.id, user.value, g);
  }
}

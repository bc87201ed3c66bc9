/** The upload page: the comma-separated tag field, the normalisation of the
    optional fields, the upload guard and the reset after a successful
    upload. */
module UploadPage {
  import opened Common
  import opened Seqs
  import opened Strings

  function NonEmpty(): string -> bool {
    (t: string) => t != ""
  }

  /** `tags.split(',').map(tag => tag.trim()).filter(Boolean)`. */
  function ParseTags(s: string): seq<string> {
    Filter(NonEmpty(), Map(Trim, Split(s, ',')))
  }

  /** Every parsed tag is non-empty, trimmed and free of commas. */
  lemma ParsedTagsAreClean(s: string)
    ensures forall i :: 0 <= i < |ParseTags(s)| ==> ParseTags(s)[i] != "" && Trim(ParseTags(s)[i]) == ParseTags(s)[i] && ',' !in ParseTags(s)[i]
  {
    var pieces := Split(s, ',');
    var trimmed := Map(Trim, pieces);
    forall x | x in trimmed
      ensures Trim(x) == x && ',' !in x
    {
      var k :| 0 <= k < |trimmed| && trimmed[k] == x;
      TrimmedPiece(pieces[k]);
    }
    forall i | 0 <= i < |ParseTags(s)|
      ensures ParseTags(s)[i] != "" && Trim(ParseTags(s)[i]) == ParseTags(s)[i] && ',' !in ParseTags(s)[i]
    {
      FilterMembership(NonEmpty(), trimmed, ParseTags(s)[i]);
    }
  }

  /** A trimmed piece of a comma split is trimmed and has no comma. */
  lemma TrimmedPiece(piece: string)
    requires ',' !in piece
    ensures Trim(Trim(piece)) == Trim(piece) && ',' !in Trim(piece)
  {
    TrimIdempotent(piece);
    TrimIsSlice(piece);
  }

  /** A trimmed string is a slice of the original, so it only has characters
      the original has. */
  lemma TrimIsSlice(s: string)
    ensures forall c :: c in Trim(s) ==> c in s
  {
    var t := TrimStart(s);
    forall c | c in Trim(s)
      ensures c in s
    {
      var i :| 0 <= i < |Trim(s)| && Trim(s)[i] == c;
      assert t[i] == c;
      assert s[|s| - |t| + i] == c;
    }
  }

  /** An empty tags field is one blank piece, which is dropped. */
  lemma EmptyFieldHasNoTags()
    ensures ParseTags("") == []
  {
    var pieces := Map(Trim, Split("", ','));
    assert Split("", ',') == [[]];
    assert IsBlank([]);
    assert pieces == [[]];
  }

  /** Tags typed as the comma-separated list of themselves are read back
      unchanged, provided each is trimmed, non-empty and free of commas. */
  lemma ParseJoinedTags(tags: seq<string>)
    requires forall i :: 0 <= i < |tags| ==> tags[i] != "" && Trim(tags[i]) == tags[i] && ',' !in tags[i]
    ensures ParseTags(Join(tags, ',')) == tags
  {
    if tags == [] {
      assert Join(tags, ',') == "";
      EmptyFieldHasNoTags();
    } else {
      ParseJoinedNonEmptyTags(tags);
    }
  }

  /** The case of ParseJoinedTags with at least one tag, where each comma-free
      piece of the split is one of the tags. */
  lemma ParseJoinedNonEmptyTags(tags: seq<string>)
    requires |tags| >= 1
    requires forall i :: 0 <= i < |tags| ==> tags[i] != "" && Trim(tags[i]) == tags[i] && ',' !in tags[i]
    ensures ParseTags(Join(tags, ',')) == tags
  {
    JoinSplit(tags, ',');
    assert Map(Trim, tags) == tags;
    FilterAll(NonEmpty(), tags);
  }

  /** Blank pieces, such as those between two commas, are dropped. */
  lemma ParseTagsDropsBlanks(a: string, b: string)
    requires ',' !in a && ',' !in b
    ensures ParseTags(a + ",," + b) == ParseTags(a) + ParseTags(b)
  {
    var ta := Map(Trim, Split(a, ','));
    var tb := Map(Trim, Split(b, ','));
    calc {
      ParseTags(a + ",," + b);
      { SplitAtDoubleComma(a, b); TrimPiecesAround(Split(a, ','), Split(b, ',')); }
      Filter(NonEmpty(), ta + ([[]] + tb));
      { FilterAppend(NonEmpty(), ta, [[]] + tb); }
      Filter(NonEmpty(), ta) + Filter(NonEmpty(), [[]] + tb);
      { FilterAppend(NonEmpty(), [[]], tb); assert Filter(NonEmpty(), [[]]) == []; }
      ParseTags(a) + ParseTags(b);
    }
  }

  /** Trimming the pieces of the two sides and the empty piece between them. */
  lemma TrimPiecesAround(pa: seq<string>, pb: seq<string>)
    ensures Map(Trim, pa + ([[]] + pb)) == Map(Trim, pa) + ([[]] + Map(Trim, pb))
  {
    MapAppend(Trim, pa, [[]] + pb);
    MapAppend(Trim, [[]], pb);
    assert Map(Trim, [[]]) == [Trim([])];
  }

  /** Two adjacent commas leave one empty piece between the two sides. */
  lemma SplitAtDoubleComma(a: string, b: string)
    ensures Split(a + ",," + b, ',') == Split(a, ',') + ([[]] + Split(b, ','))
  {
    assert a + ",," + b == a + [','] + ([','] + b);
    SplitConcat(a, [','] + b, ',');
    assert [','] + b == [] + [','] + b;
    SplitConcat([], b, ',');
    assert Split([], ',') == [[]];
  }

  /** A picked file. */
  datatype PickedFile = PickedFile(name: string, mimeType: string, size: int)

  /** What the page hands to `uploadFile`. */
  datatype UploadRequest = UploadRequest(
    title: string,
    description: Option<string>,
    course: Option<string>,
    tags: Option<seq<string>>,
    file: PickedFile)

  /** The request built from the form's fields: the title as typed, an empty
      description or course left out, and the parsed tags left out when none
      remains. */
  function FormRequest(title: string, description: string, course: string, tags: string, file: PickedFile): (r: UploadRequest)
    ensures r.title == title && r.file == file
    ensures r.description.None? <==> description == ""
    ensures r.description.Some? ==> r.description.value == description
    ensures r.course.None? <==> course == ""
    ensures r.course.Some? ==> r.course.value == course
    ensures r.tags.None? <==> ParseTags(tags) == []
    ensures r.tags.Some? ==> r.tags.value == ParseTags(tags)
  {
    UploadRequest(title, NonEmptyOrNone(description), NonEmptyOrNone(course), NonEmptyOrNone(ParseTags(tags)), file)
  }

  /** The state of the upload page. */
  class UploadForm {
    var title: string
    var description: string
    var course: string
    var tags: string
    var selectedFile: Option<PickedFile>
    var uploading: bool

    constructor ()
      ensures title == "" && description == "" && course == "" && tags == ""
      ensures selectedFile.None? && !uploading
    {
      title := "";
      description := "";
      course := "";
      tags := "";
      selectedFile := None;
      uploading := false;
    }

    /** `handleUpload`: nothing happens without a selected file or with an
        empty title (a title of spaces is accepted). Otherwise the empty
        optional fields become `undefined`, the tags are parsed, and the
        form is reset only when the hook (whose reply is `hookResult`)
        reports success. */
    method HandleUpload(hookResult: Outcome) returns (request: Option<UploadRequest>)
      modifies this`title, this`description, this`course, this`tags, this`selectedFile, this`uploading
      ensures old(selectedFile).None? || old(title) == "" ==>
                request.None? && title == old(title) && description == old(description) && course == old(course) &&
                tags == old(tags) && selectedFile == old(selectedFile) && uploading == old(uploading)
      ensures old(selectedFile).Some? && old(title) != "" ==>
                request == Some(FormRequest(old(title), old(description), old(course), old(tags), old(selectedFile).value)) &&
                !uploading
      ensures old(selectedFile).Some? && old(title) != "" && hookResult == Success ==>
                title == "" && description == "" && course == "" && tags == "" && selectedFile.None?
      ensures old(selectedFile).Some? && old(title) != "" && hookResult != Success ==>
                title == old(title) && description == old(description) && course == old(course) &&
                tags == old(tags) && selectedFile == old(selectedFile)
    {
      if selectedFile.None? || title == "" {
        return None;
      }
      uploading := true;
      request := Some(FormRequest(title, description, course, tags, selectedFile.value));
      if hookResult == Success {
        title, description, course, tags := "", "", "", "";
        selectedFile := None;
      }
      uploading := false;
    }
  }
}

/** The new-discussion form: the tag editor (tags trimmed, non-empty and
    never repeated), the attachment list (images and PDFs only), and the
    guarded submit that hands the form to the discussion hook. */
module CreateDiscussion {
  import opened Common
  import opened Seqs
  import opened Strings

  /** A picked file: its name and MIME type. */
  datatype PickedFile = PickedFile(name: string, mimeType: string)

  /** `file.type.startsWith('image/') || file.type === 'application/pdf'`. */
  predicate IsAllowed(f: PickedFile) {
    StartsWith(f.mimeType, "image/") || f.mimeType == "application/pdf"
  }

  /** Every tag is trimmed and non-empty, and no tag occurs twice. */
  ghost predicate WellFormedTags(tags: seq<string>) {
    Distinct(tags) && forall i :: 0 <= i < |tags| ==> tags[i] != "" && Trim(tags[i]) == tags[i]
  }

  /** `prev.tags.filter(tag => tag !== tagToRemove)`. */
  function WithoutTag(tags: seq<string>, tag: string): (r: seq<string>)
    ensures tag !in r
  {
    Filter((t: string) => t != tag, tags)
  }

  /** Removing a tag keeps the other tags, in order, and keeps the list well formed. */
  lemma WithoutTagKeepsOthers(tags: seq<string>, tag: string, t: string)
    ensures t in WithoutTag(tags, tag) <==> t in tags && t != tag
    ensures IsSubsequence(WithoutTag(tags, tag), tags)
    ensures WellFormedTags(tags) ==> WellFormedTags(WithoutTag(tags, tag))
  {
    var keep := (t: string) => t != tag;
    FilterMembership(keep, tags, t);
    FilterIsSubsequence(keep, tags);
    if WellFormedTags(tags) {
      FilterKeepsDistinct(keep, tags);
    }
  }

  /** A trimmed, non-empty tag not yet present can be appended. */
  lemma AppendKeepsWellFormed(tags: seq<string>, t: string)
    requires WellFormedTags(tags) && t != "" && Trim(t) == t && t !in tags
    ensures WellFormedTags(tags + [t])
  {
    var r := tags + [t];
    forall i, j | 0 <= i < j < |r|
      ensures r[i] != r[j]
    {
      if j == |tags| {
        assert r[i] in tags;
      }
    }
  }

  /** `prev.filter((_, i) => i !== index)`: the entry at `index` is dropped
      when there is one; any other index leaves the list as it was. */
  function WithoutIndex<T>(s: seq<T>, index: int): (r: seq<T>)
    ensures 0 <= index < |s| ==> |r| == |s| - 1
    ensures 0 <= index < |s| ==> forall j :: 0 <= j < index ==> r[j] == s[j]
    ensures 0 <= index < |s| ==> forall j :: index <= j < |r| ==> r[j] == s[j + 1]
    ensures !(0 <= index < |s|) ==> r == s
  {
    if 0 <= index < |s| then s[..index] + s[index + 1..] else s
  }

  /** What the form hands to `createDiscussion`. The form fields are passed
      as they are: title and content untrimmed, the course even when empty. */
  datatype DiscussionRequest = DiscussionRequest(
    title: string,
    content: string,
    course: Option<string>,
    tags: Option<seq<string>>,
    attachments: Option<seq<PickedFile>>)

  /** The state of the mounted form. */
  class DiscussionForm {
    const user: Option<Id>
    var title: string
    var content: string
    var course: string
    var tags: seq<string>
    var newTag: string
    var attachments: seq<PickedFile>
    var loading: bool

    ghost predicate Valid()
      reads this
    {
      WellFormedTags(tags)
    }

    constructor (user: Option<Id>)
      ensures Valid()
      ensures this.user == user && title == "" && content == "" && course == ""
      ensures tags == [] && newTag == "" && attachments == [] && !loading
    {
      this.user := user;
      title := "";
      content := "";
      course := "";
      tags := [];
      newTag := "";
      attachments := [];
      loading := false;
    }

    /** `addTag`: the trimmed input is appended when it is non-empty and not
        yet a tag, and then the input is cleared; otherwise nothing changes. */
    method AddTag() returns (added: bool)
      requires Valid()
      modifies this`tags, this`newTag
      ensures Valid()
      ensures added <==> !IsBlank(old(newTag)) && Trim(old(newTag)) !in old(tags)
      ensures added ==> tags == old(tags) + [Trim(old(newTag))] && newTag == ""
      ensures !added ==> tags == old(tags) && newTag == old(newTag)
    {
      var t := Trim(newTag);
      added := t != "" && t !in tags;
      if added {
        TrimIdempotent(newTag);
        AppendKeepsWellFormed(tags, t);
        tags := tags + [t];
        newTag := "";
      }
    }

    /** `removeTag`. */
    method RemoveTag(tag: string)
      requires Valid()
      modifies this`tags
      ensures Valid()
      ensures tags == WithoutTag(old(tags), tag)
    {
      WithoutTagKeepsOthers(tags, tag, tag);
      tags := WithoutTag(tags, tag);
    }

    /** `handleFileUpload`: the allowed files are appended after the existing
        attachments, in the order picked; the warning is shown exactly when
        some picked file was not allowed. */
    method HandleFileUpload(files: seq<PickedFile>) returns (warned: bool)
      modifies this`attachments
      ensures attachments == old(attachments) + Filter(IsAllowed, files)
      ensures warned <==> exists i :: 0 <= i < |files| && !IsAllowed(files[i])
    {
      var valid := Filter(IsAllowed, files);
      FilterKeepsAllIff(IsAllowed, files);
      warned := |valid| != |files|;
      attachments := attachments + valid;
    }

    /** `removeAttachment(index)`. */
    method RemoveAttachment(index: int)
      modifies this`attachments
      ensures attachments == WithoutIndex(old(attachments), index)
    {
      attachments := WithoutIndex(attachments, index);
    }

    /** `handleSubmit`: without a user, a non-blank title or a non-blank
        content nothing is sent. Otherwise the form goes to the hook, whose
        reply is `hookResult`; `onSuccess` runs only when it reports success. */
    method HandleSubmit(hookResult: Outcome) returns (request: Option<DiscussionRequest>, succeeded: bool)
      modifies this`loading
      ensures user.None? || IsBlank(title) || IsBlank(content) ==>
                request.None? && !succeeded && loading == old(loading)
      ensures user.Some? && !IsBlank(title) && !IsBlank(content) ==>
                request == Some(DiscussionRequest(title, content, Some(course), Some(tags), NonEmptyOrNone(attachments))) &&
                succeeded == (hookResult == Success) && !loading
    {
      if user.None? || Trim(title) == "" || Trim(content) == "" {
        return None, false;
      }
      loading := true;
      request := Some(DiscussionRequest(title, content, Some(course), Some(tags), NonEmptyOrNone(attachments)));
      succeeded := hookResult == Success;
      loading := false;
    }
  }
}

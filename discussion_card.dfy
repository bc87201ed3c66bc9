/** One discussion's card: its author label, the icon of each attachment,
    voting, the reply list opened on demand and the reply box. */
module DiscussionCard {
  import opened Common
  import opened Strings
  import opened Storage
  import opened Discussions

  /** `author?.full_name?.charAt(0) || 'U'`. */
  function AvatarLetter(d: DiscussionData): (r: string)
    ensures |r| == 1
    ensures d.author.Some? && Truthy(d.author.value.fullName) ==> r == [d.author.value.fullName.value[0]]
    ensures !(d.author.Some? && Truthy(d.author.value.fullName)) ==> r == "U"
  {
    if d.author.Some? && Truthy(d.author.value.fullName) then [d.author.value.fullName.value[0]] else "U"
  }

  /** `author?.full_name || 'Anonymous'`. */
  function AuthorLabel(d: DiscussionData): (r: string)
    ensures r != ""
    ensures d.author.Some? && Truthy(d.author.value.fullName) ==> r == d.author.value.fullName.value
    ensures !(d.author.Some? && Truthy(d.author.value.fullName)) ==> r == "Anonymous"
  {
    if d.author.Some? then OrElse(d.author.value.fullName, "Anonymous") else "Anonymous"
  }

  datatype AttachmentIcon = PdfIcon | ImageIcon

  /** `url.includes('.pdf') ? FileText : Image`. */
  function IconOf(url: string): (r: AttachmentIcon)
    ensures r == PdfIcon <==> exists i :: OccursAt(url, ".pdf", i)
  {
    ContainsIff(url, ".pdf");
    if Contains(url, ".pdf") then PdfIcon else ImageIcon
  }

  /** A PDF uploaded with a discussion is shown with the document icon: its
      public URL ends in the stored path, which ends in `.pdf`. */
  lemma UploadedPdfShowsDocumentIcon(base: string, fileName: string, now: nat, suffix: string)
    requires FileExt(fileName) == "pdf"
    ensures IconOf(base + AttachmentPath(fileName, now, suffix)) == PdfIcon
  {
    var stem := base + "discussion-attachments/" + NatToString(now) + "-" + suffix;
    var url := base + AttachmentPath(fileName, now, suffix);
    assert url == stem + ".pdf";
    assert OccursAt(url, ".pdf", |stem|);
  }

  const ReplyPostedToast := Toast("Reply posted", "Your reply has been added successfully.", false)

  /** The state of one mounted card. */
  class DiscussionCardState {
    const user: Option<Id>
    const discussion: DiscussionData
    var showReplies: bool
    var replies: seq<DiscussionReply>
    var loadingReplies: bool
    var newReply: string
    var submittingReply: bool

    constructor (user: Option<Id>, discussion: DiscussionData)
      ensures this.user == user && this.discussion == discussion
      ensures !showReplies && replies == [] && !loadingReplies && newReply == "" && !submittingReply
    {
      this.user := user;
      this.discussion := discussion;
      showReplies := false;
      replies := [];
      loadingReplies := false;
      newReply := "";
      submittingReply := false;
    }

    /** `handleVote`: without a user no vote is cast. */
    method HandleVote(voteType: VoteType) returns (request: Option<(Id, VoteType)>)
      ensures user.None? ==> request.None?
      ensures user.Some? ==> request == Some((discussion.id, voteType))
    {
      if user.None? {
        return None;
      }
      request := Some((discussion.id, voteType));
    }

    /** `handleShowReplies`: the list is toggled, and it is fetched (with
        `fetched` the hook's answer) only when it is being opened while still
        empty. */
    method HandleShowReplies(fetched: seq<DiscussionReply>) returns (fetchedNow: bool)
      modifies this`showReplies, this`replies, this`loadingReplies
      ensures showReplies == !old(showReplies)
      ensures fetchedNow <==> !old(showReplies) && old(replies) == []
      ensures replies == if fetchedNow then fetched else old(replies)
      ensures loadingReplies == if fetchedNow then false else old(loadingReplies)
    {
      fetchedNow := !showReplies && |replies| == 0;
      if fetchedNow {
        loadingReplies := true;
        replies := fetched;
        loadingReplies := false;
      }
      showReplies := !showReplies;
    }

    /** `handleSubmitReply`: nothing without a user or with a blank reply.
        Otherwise the trimmed reply is sent; only when the hook (whose reply
        is `hookResult`) reports success is the box cleared, the list
        replaced by the refetched `fetched` and a notice shown. */
    method HandleSubmitReply(hookResult: Outcome, fetched: seq<DiscussionReply>)
      returns (request: Option<(Id, string)>, notice: Option<Toast>)
      modifies this`newReply, this`replies, this`submittingReply
      ensures user.None? || IsBlank(old(newReply)) ==>
                request.None? && notice.None? &&
                newReply == old(newReply) && replies == old(replies) && submittingReply == old(submittingReply)
      ensures user.Some? && !IsBlank(old(newReply)) ==>
                request == Some((discussion.id, Trim(old(newReply)))) && !submittingReply
      ensures user.Some? && !IsBlank(old(newReply)) && hookResult == Success ==>
                newReply == "" && replies == fetched && notice == Some(ReplyPostedToast)
      ensures user.Some? && !IsBlank(old(newReply)) && hookResult != Success ==>
                newReply == old(newReply) && replies == old(replies) && notice.None?
    {
      var reply := Trim(newReply);
      if user.None? || reply == "" {
        return None, None;
      }
      submittingReply := true;
      request := Some((discussion.id, reply));
      notice := None;
      if hookResult == Success {
        newReply := "";
        replies := fetched;
        notice := Some(ReplyPostedToast);
      }
      submittingReply := false;
    }
  }

  /** A reply the card sends is never blank. */
  lemma SentReplyIsNotBlank(reply: string)
    requires !IsBlank(reply)
    ensures Trim(reply) != "" && Trim(Trim(reply)) == Trim(reply)
  {
    TrimIdempotent(reply);
  }
}

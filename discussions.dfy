/** The discussion hook: the discussion list, creating a discussion with its
    uploaded attachments, replies, the one-vote-per-user upsert and the
    forwarding of a discussion as notifications. */
module Discussions {
  import opened Common
  import opened Seqs
  import opened Strings
  import opened Storage

  datatype Author = Author(fullName: Option<string>)

  /** A row of `discussions` with its author's name. */
  datatype DiscussionData = DiscussionData(
    id: Id,
    title: string,
    content: string,
    course: Option<string>,
    tags: Option<seq<string>>,
    attachmentUrls: Option<seq<string>>,
    isSolved: bool,
    voteCount: int,
    replyCount: int,
    userId: Id,
    createdAt: string,
    updatedAt: string,
    author: Option<Author>)

  /** A row of `discussion_replies` with its author's name. */
  datatype DiscussionReply = DiscussionReply(
    id: Id,
    content: string,
    isSolution: bool,
    voteCount: int,
    userId: Id,
    discussionId: Id,
    createdAt: string,
    updatedAt: string,
    author: Option<Author>)

  /** A vote is up (1) or down (-1). */
  type VoteType = v: int | v == 1 || v == -1 witness 1

  /** A row of `discussion_votes`. */
  datatype VoteRow = VoteRow(id: Id, discussionId: Id, userId: Id, voteType: VoteType)

  function IsVoteOf(discussionId: Id, userId: Id): VoteRow -> bool {
    (v: VoteRow) => v.discussionId == discussionId && v.userId == userId
  }

  /** The rows of one user's votes on one discussion. */
  function VotesOf(table: seq<VoteRow>, discussionId: Id, userId: Id): seq<VoteRow> {
    Filter(IsVoteOf(discussionId, userId), table)
  }

  /** `.select('*').eq(...).eq(...).single()`: the user's vote when exactly one
      row matches, and `null` when none matches, when several match or when
      the lookup failed (its error is not checked). */
  function ExistingVote(table: seq<VoteRow>, discussionId: Id, userId: Id, lookupOk: bool): (r: Option<VoteRow>)
    ensures r.Some? <==> lookupOk && |VotesOf(table, discussionId, userId)| == 1
    ensures r.Some? ==> r.value in table && IsVoteOf(discussionId, userId)(r.value)
  {
    var matching := VotesOf(table, discussionId, userId);
    if lookupOk && |matching| == 1 then Some(matching[0]) else None
  }

  /** `.update({ vote_type }).eq('id', id)`. */
  function SetVoteType(table: seq<VoteRow>, id: Id, voteType: VoteType): (r: seq<VoteRow>)
    ensures |r| == |table|
    ensures forall i :: 0 <= i < |table| && table[i].id == id ==> r[i] == table[i].(voteType := voteType)
    ensures forall i :: 0 <= i < |table| && table[i].id != id ==> r[i] == table[i]
  {
    Map((v: VoteRow) => if v.id == id then v.(voteType := voteType) else v, table)
  }

  /** The vote table after `voteOnDiscussion` succeeds: the existing vote is
      updated in place, or a new row (with the id `newId` the database gives
      it) is appended. */
  function AfterVote(table: seq<VoteRow>, discussionId: Id, userId: Id, voteType: VoteType,
                     lookupOk: bool, newId: Id): (r: seq<VoteRow>)
    ensures ExistingVote(table, discussionId, userId, lookupOk).Some? ==> |r| == |table|
    ensures ExistingVote(table, discussionId, userId, lookupOk).None? ==>
              |r| == |table| + 1 && r[..|table|] == table && IsVoteOf(discussionId, userId)(r[|table|]) &&
              r[|table|].voteType == voteType
  {
    match ExistingVote(table, discussionId, userId, lookupOk)
    case Some(existing) => SetVoteType(table, existing.id, voteType)
    case None => table + [VoteRow(newId, discussionId, userId, voteType)]
  }

  /** Changing a vote type never moves a vote to another discussion or user. */
  lemma {:induction false} SetVoteTypeKeepsVoters(table: seq<VoteRow>, id: Id, voteType: VoteType,
                                                  discussionId: Id, userId: Id)
    ensures |VotesOf(SetVoteType(table, id, voteType), discussionId, userId)| == |VotesOf(table, discussionId, userId)|
  {
    if table != [] {
      SetVoteTypeKeepsVoters(table[1..], id, voteType, discussionId, userId);
      assert SetVoteType(table, id, voteType)[1..] == SetVoteType(table[1..], id, voteType);
    }
  }

  /** A vote never gives any (discussion, user) pair a second row, as long as
      the user's lookup succeeds and no pair had two rows already. */
  lemma VoteKeepsOneRowPerVoter(table: seq<VoteRow>, discussionId: Id, userId: Id, voteType: VoteType,
                                newId: Id, d: Id, u: Id)
    requires |VotesOf(table, discussionId, userId)| <= 1
    requires |VotesOf(table, d, u)| <= 1
    ensures |VotesOf(AfterVote(table, discussionId, userId, voteType, true, newId), d, u)| <= 1
  {
    var existing := ExistingVote(table, discussionId, userId, true);
    if existing.Some? {
      SetVoteTypeKeepsVoters(table, existing.value.id, voteType, d, u);
    } else {
      var row := VoteRow(newId, discussionId, userId, voteType);
      FilterAppend(IsVoteOf(d, u), table, [row]);
      if d == discussionId && u == userId {
        assert |VotesOf(table, d, u)| == 0;
      }
    }
  }

  /** After a successful vote the user has exactly one vote on that
      discussion, and every such row has the requested type. */
  lemma VoteRecordsRequestedType(table: seq<VoteRow>, discussionId: Id, userId: Id, voteType: VoteType, newId: Id)
    requires |VotesOf(table, discussionId, userId)| <= 1
    ensures |VotesOf(AfterVote(table, discussionId, userId, voteType, true, newId), discussionId, userId)| == 1
    ensures forall v ::
              (v in AfterVote(table, discussionId, userId, voteType, true, newId) &&
               IsVoteOf(discussionId, userId)(v)) ==> v.voteType == voteType
  {
    var r := AfterVote(table, discussionId, userId, voteType, true, newId);
    var existing := ExistingVote(table, discussionId, userId, true);
    if existing.Some? {
      SetVoteTypeKeepsVoters(table, existing.value.id, voteType, discussionId, userId);
    } else {
      FilterAppend(IsVoteOf(discussionId, userId), table, [VoteRow(newId, discussionId, userId, voteType)]);
    }
    forall v | v in r && IsVoteOf(discussionId, userId)(v)
      ensures v.voteType == voteType
    {
      var i :| 0 <= i < |r| && r[i] == v;
      if existing.Some? {
        if table[i].id != existing.value.id {
          FilterMembership(IsVoteOf(discussionId, userId), table, table[i]);
          assert false;
        }
      } else {
        if i < |table| {
          FilterMembership(IsVoteOf(discussionId, userId), table, table[i]);
          assert false;
        }
      }
    }
  }

  /** With two rows for the pair already, the lookup finds none and a third
      row is inserted: the code keeps the pair unique but does not repair it. */
  lemma DuplicateVotesGrow(table: seq<VoteRow>, discussionId: Id, userId: Id, voteType: VoteType, newId: Id)
    requires |VotesOf(table, discussionId, userId)| == 2
    ensures |VotesOf(AfterVote(table, discussionId, userId, voteType, true, newId), discussionId, userId)| == 3
  {
    var row := VoteRow(newId, discussionId, userId, voteType);
    FilterAppend(IsVoteOf(discussionId, userId), table, [row]);
  }

  /** A user who already has a vote, and whose lookup fails, gets a second
      row: the lookup's error is not checked, so the failure reads as "no
      vote yet". */
  lemma FailedLookupDuplicatesVote(table: seq<VoteRow>, discussionId: Id, userId: Id, voteType: VoteType, newId: Id)
    requires |VotesOf(table, discussionId, userId)| == 1
    ensures |VotesOf(AfterVote(table, discussionId, userId, voteType, false, newId), discussionId, userId)| == 2
  {
    FilterAppend(IsVoteOf(discussionId, userId), table, [VoteRow(newId, discussionId, userId, voteType)]);
  }

  /** The vote with the lookup's error checked: a failed lookup ends the vote
      with no write (`None`), and a lookup that worked gives the table after
      the update or the insert. */
  function CheckedAfterVote(table: seq<VoteRow>, discussionId: Id, userId: Id, voteType: VoteType,
                            lookupOk: bool, newId: Id): (r: Option<seq<VoteRow>>)
    ensures r.None? <==> !lookupOk
    ensures r.Some? ==> r.value == AfterVote(table, discussionId, userId, voteType, true, newId)
  {
    if lookupOk then Some(AfterVote(table, discussionId, userId, voteType, true, newId)) else None
  }

  /** With the lookup checked, no vote ever gives a pair a second row, whatever
      the lookup answered. */
  lemma CheckedVoteKeepsOneRowPerVoter(table: seq<VoteRow>, discussionId: Id, userId: Id, voteType: VoteType,
                                       lookupOk: bool, newId: Id, d: Id, u: Id)
    requires |VotesOf(table, discussionId, userId)| <= 1
    requires |VotesOf(table, d, u)| <= 1
    ensures CheckedAfterVote(table, discussionId, userId, voteType, lookupOk, newId).Some? ==>
              |VotesOf(CheckedAfterVote(table, discussionId, userId, voteType, lookupOk, newId).value, d, u)| <= 1
  {
    if lookupOk {
      VoteKeepsOneRowPerVoter(table, discussionId, userId, voteType, newId, d, u);
    }
  }

  /** The storage key of one discussion attachment:
      `discussion-attachments/${Date.now()}-${suffix}.${ext}`. */
  function AttachmentPath(fileName: string, now: nat, suffix: string): (path: string)
    ensures StartsWith(path, "discussion-attachments/")
  {
    var path := "discussion-attachments/" + NatToString(now) + "-" + suffix + "." + FileExt(fileName);
    assert path[..23] == "discussion-attachments/";
    path
  }

  /** The stored attachment keeps the extension of the picked file. */
  lemma AttachmentPathKeepsExt(fileName: string, now: nat, suffix: string)
    ensures FileExt(AttachmentPath(fileName, now, suffix)) == FileExt(fileName)
  {
    StoredNameKeepsExt("discussion-attachments/" + NatToString(now) + "-" + suffix, fileName);
  }

  /** The paths of the attachments, one per file in order. */
  function AttachmentPaths(fileNames: seq<string>, stamps: seq<nat>, suffixes: seq<string>): (r: seq<string>)
    requires |stamps| == |fileNames| && |suffixes| == |fileNames|
    ensures |r| == |fileNames|
    ensures forall i :: 0 <= i < |r| ==> r[i] == AttachmentPath(fileNames[i], stamps[i], suffixes[i])
  {
    seq(|fileNames|, i requires 0 <= i < |fileNames| => AttachmentPath(fileNames[i], stamps[i], suffixes[i]))
  }

  /** The row `createDiscussion` inserts. */
  datatype NewDiscussion = NewDiscussion(
    title: string,
    content: string,
    course: Option<string>,
    tags: Option<seq<string>>,
    attachmentUrls: Option<seq<string>>,
    userId: Id)

  datatype NewReply = NewReply(content: string, discussionId: Id, userId: Id)

  /** The arguments of one `create_notification` call. */
  datatype Notification = Notification(
    targetUserId: Id,
    title: string,
    message: string,
    notificationType: string,
    actionUrl: string)

  /** `${value}` of an optional string: `undefined` is rendered as the word. */
  function Rendered(s: Option<string>): (r: string)
    ensures s.Some? ==> r == s.value
    ensures s.None? ==> r == "undefined"
  {
    match s
    case Some(v) => v
    case None => "undefined"
  }

  /** The notification a forward sends to one recipient. */
  function ForwardNotice(recipient: Id, email: Option<string>, d: DiscussionData): (n: Notification)
    ensures n.targetUserId == recipient
    ensures n.actionUrl == "/discussions?id=" + d.id
  {
    Notification(recipient, "Discussion Forwarded",
                 Rendered(email) + " shared a discussion: \"" + d.title + "\"",
                 "info", "/discussions?id=" + d.id)
  }

  /** The remote calls the hook issues, in order. */
  datatype DiscussionCall =
    | StorageUpload(bucket: string, path: string)
    | InsertDiscussion(row: NewDiscussion)
    | InsertReply(reply: NewReply)
    | UpdateVote(voteId: Id, voteType: VoteType)
    | InsertVote(discussionId: Id, userId: Id, voteType: VoteType)
    | CreateNotification(notice: Notification)
    | RefreshDiscussions

  function Uploads(paths: seq<string>): (r: seq<DiscussionCall>)
    ensures |r| == |paths|
    ensures forall i :: 0 <= i < |r| ==> r[i] == StorageUpload("lecture-files", paths[i])
  {
    seq(|paths|, i requires 0 <= i < |paths| => StorageUpload("lecture-files", paths[i]))
  }

  function Notices(recipients: seq<Id>, email: Option<string>, d: DiscussionData): (r: seq<DiscussionCall>)
    ensures |r| == |recipients|
    ensures forall i :: 0 <= i < |r| ==> r[i] == CreateNotification(ForwardNotice(recipients[i], email, d))
  {
    seq(|recipients|, i requires 0 <= i < |recipients| => CreateNotification(ForwardNotice(recipients[i], email, d)))
  }

  /** `fetchReplies`: the fetched rows, `[]` for a null result, and `[]` when
      the query failed. */
  function FetchReplies(data: Option<seq<DiscussionReply>>, queryOk: bool): (r: seq<DiscussionReply>)
    ensures !queryOk ==> r == []
    ensures queryOk && data.Some? ==> r == data.value
    ensures data.None? ==> r == []
  {
    if queryOk then data.GetOr([]) else []
  }

  function HasId(id: Id): DiscussionData -> bool {
    (d: DiscussionData) => d.id == id
  }

  /** The state of the mounted `useDiscussions()` hook. */
  class DiscussionsHook {
    const user: Option<Id>
    const userEmail: Option<string>
    var discussions: seq<DiscussionData>
    var loading: bool

    constructor (user: Option<Id>, userEmail: Option<string>)
      ensures this.user == user && this.userEmail == userEmail
      ensures discussions == [] && loading
    {
      this.user := user;
      this.userEmail := userEmail;
      discussions := [];
      loading := true;
    }

    /** `fetchDiscussions`: the list becomes the fetched rows (`[]` for a null
        result); a failed query keeps it. */
    method FetchDiscussions(data: Option<seq<DiscussionData>>, queryOk: bool)
      modifies this`discussions, this`loading
      ensures !loading
      ensures discussions == if queryOk then data.GetOr([]) else old(discussions)
    {
      loading := true;
      if queryOk {
        discussions := data.GetOr([]);
      }
      loading := false;
    }

    /** `createDiscussion`: upload the attachments one by one, stopping at the
        first failed upload, then insert the discussion with the public URLs
        in upload order, then refresh. `stamps[i]` and `suffixes[i]` are the
        clock reading and random suffix taken for the i-th file, `uploadOk[i]`
        whether its upload succeeded. */
    method CreateDiscussion(title: string, content: string, course: Option<string>, tags: Option<seq<string>>,
                            attachments: Option<seq<string>>, stamps: seq<nat>, suffixes: seq<string>,
                            uploadOk: seq<bool>, publicUrl: string -> string, insertOk: bool)
      returns (calls: seq<DiscussionCall>, outcome: Outcome)
      requires |stamps| == |attachments.GetOr([])| && |suffixes| == |attachments.GetOr([])|
      requires |uploadOk| == |attachments.GetOr([])|
      ensures user.None? ==> calls == [] && outcome == Failure("User not authenticated")
      ensures user.Some? ==>
                forall k :: 0 <= k < |uploadOk| && !uploadOk[k] && (forall j :: 0 <= j < k ==> uploadOk[j]) ==>
                  calls == Uploads(AttachmentPaths(attachments.GetOr([]), stamps, suffixes)[..k + 1]) &&
                  outcome == Failure("Creation failed")
      ensures user.Some? && (forall j :: 0 <= j < |uploadOk| ==> uploadOk[j]) ==>
                var paths := AttachmentPaths(attachments.GetOr([]), stamps, suffixes);
                var insert := InsertDiscussion(NewDiscussion(title, content, course, tags,
                                                             NonEmptyOrNone(Map(publicUrl, paths)), user.value));
                calls == Uploads(paths) + [insert] + (if insertOk then [RefreshDiscussions] else []) &&
                outcome == if insertOk then Success else Failure("Creation failed")
    {
      if user.None? {
        return [], Failure("User not authenticated");
      }
      var files := attachments.GetOr([]);
      ghost var paths := AttachmentPaths(files, stamps, suffixes);
      var urls: seq<string> := [];
      calls := [];
      var i := 0;
      while i < |files|
        invariant 0 <= i <= |files|
        invariant forall j :: 0 <= j < i ==> uploadOk[j]
        invariant calls == Uploads(paths[..i])
        invariant urls == Map(publicUrl, paths[..i])
      {
        var path := AttachmentPath(files[i], stamps[i], suffixes[i]);
        assert paths[..i + 1] == paths[..i] + [path];
        calls := calls + [StorageUpload("lecture-files", path)];
        if !uploadOk[i] {
          return calls, Failure("Creation failed");
        }
        urls := urls + [publicUrl(path)];
        i := i + 1;
      }
      assert paths[..i] == paths;
      calls := calls + [InsertDiscussion(NewDiscussion(title, content, course, tags, NonEmptyOrNone(urls), user.value))];
      if !insertOk {
        return calls, Failure("Creation failed");
      }
      calls := calls + [RefreshDiscussions];
      outcome := Success;
    }

    /** `createReply`: one insert; the caller refetches. */
    method CreateReply(discussionId: Id, content: string, insertOk: bool)
      returns (inserted: Option<NewReply>, outcome: Outcome)
      ensures user.None? ==> inserted.None? && outcome == Failure("User not authenticated")
      ensures user.Some? ==> inserted == Some(NewReply(content, discussionId, user.value))
      ensures user.Some? ==> outcome == if insertOk then Success else Failure("Reply failed")
    {
      if user.None? {
        return None, Failure("User not authenticated");
      }
      inserted := Some(NewReply(content, discussionId, user.value));
      outcome := if insertOk then Success else Failure("Reply failed");
    }

    /** `voteOnDiscussion` against the vote table `votes`: update the user's
        vote found by the lookup, or insert one, then refresh. */
    method VoteOnDiscussion(discussionId: Id, voteType: VoteType, votes: seq<VoteRow>, lookupOk: bool, writeOk: bool)
      returns (calls: seq<DiscussionCall>, outcome: Outcome)
      ensures user.None? ==> calls == [] && outcome == Failure("User not authenticated")
      ensures user.Some? && ExistingVote(votes, discussionId, user.value, lookupOk).Some? ==>
                (|calls| >= 1 && calls[0] == UpdateVote(ExistingVote(votes, discussionId, user.value, lookupOk).value.id, voteType))
      ensures user.Some? && ExistingVote(votes, discussionId, user.value, lookupOk).None? ==>
                (|calls| >= 1 && calls[0] == InsertVote(discussionId, user.value, voteType))
      ensures user.Some? ==> (calls[1..] == if writeOk then [RefreshDiscussions] else [])
      ensures user.Some? ==> (outcome == if writeOk then Success else Failure("Vote failed"))
    {
      if user.None? {
        return [], Failure("User not authenticated");
      }
      var existing := ExistingVote(votes, discussionId, user.value, lookupOk);
      if existing.Some? {
        calls := [UpdateVote(existing.value.id, voteType)];
      } else {
        calls := [InsertVote(discussionId, user.value, voteType)];
      }
      if !writeOk {
        return calls, Failure("Vote failed");
      }
      calls := calls + [RefreshDiscussions];
      outcome := Success;
    }

    /** `forwardDiscussion`: the discussion is looked up in the local list;
        each recipient then gets one notification, in order. The result of
        each notification call is not checked. */
    method ForwardDiscussion(discussionId: Id, recipientIds: seq<Id>)
      returns (calls: seq<DiscussionCall>, outcome: Outcome)
      ensures user.None? ==> calls == [] && outcome == Failure("User not authenticated")
      ensures user.Some? && Find(HasId(discussionId), discussions).None? ==>
                calls == [] && outcome == Failure("Discussion not found")
      ensures user.Some? && Find(HasId(discussionId), discussions).Some? ==>
                calls == Notices(recipientIds, userEmail, Find(HasId(discussionId), discussions).value) &&
                outcome == Success
    {
      if user.None? {
        return [], Failure("User not authenticated");
      }
      var found := Find(HasId(discussionId), discussions);
      if found.None? {
        return [], Failure("Discussion not found");
      }
      var d := found.value;
      calls := [];
      var i := 0;
      while i < |recipientIds|
        invariant 0 <= i <= |recipientIds|
        invariant calls == Notices(recipientIds[..i], userEmail, d)
      {
        calls := calls + [CreateNotification(ForwardNotice(recipientIds[i], userEmail, d))];
        i := i + 1;
      }
      assert recipientIds[..i] == recipientIds;
      outcome := Success;
    }
  }
}

/** The study-groups page: the case-insensitive search over name and
    description, the create, join and leave handlers and the notices they
    show, and the rule that only a member may open a group's chat. */
module GroupsPage {
  import opened Common
  import opened Seqs
  import opened Strings
  import opened Groups

  /** `group.name.toLowerCase().includes(term.toLowerCase()) ||
      group.description?.toLowerCase().includes(term.toLowerCase())`: a group
      without a description can only match on its name. */
  predicate GroupShown(term: string, g: GroupData) {
    || Contains(Lower(g.row.name), Lower(term))
    || (g.row.description.Some? && Contains(Lower(g.row.description.value), Lower(term)))
  }

  function Shown(term: string): GroupData -> bool {
    (g: GroupData) => GroupShown(term, g)
  }

  /** `filteredGroups`. */
  function FilterGroups(groups: seq<GroupData>, term: string): (r: seq<GroupData>)
    ensures forall i :: 0 <= i < |r| ==> GroupShown(term, r[i]) && r[i] in groups
  {
    Filter(Shown(term), groups)
  }

  /** A group is listed exactly when it matches, and the list keeps the
      order of the groups. */
  lemma FilterGroupsExactly(groups: seq<GroupData>, term: string, g: GroupData)
    ensures g in FilterGroups(groups, term) <==> g in groups && GroupShown(term, g)
    ensures IsSubsequence(FilterGroups(groups, term), groups)
  {
    FilterMembership(Shown(term), groups, g);
    FilterIsSubsequence(Shown(term), groups);
  }

  /** The empty search term lists every group. */
  lemma EmptyTermListsAllGroups(groups: seq<GroupData>)
    ensures FilterGroups(groups, "") == groups
  {
    forall i | 0 <= i < |groups|
      ensures Shown("")(groups[i])
    {
      ContainsEmpty(Lower(groups[i].row.name));
    }
    FilterAll(Shown(""), groups);
  }

  /** The search ignores the case of ASCII letters in the term. */
  lemma GroupSearchIgnoresTermCase(groups: seq<GroupData>, term: string)
    ensures FilterGroups(groups, Lower(term)) == FilterGroups(groups, term)
  {
    LowerIdempotent(term);
    FilterAgree(Shown(Lower(term)), Shown(term), groups);
  }

  const CreatedToast := Toast("Group created", "Your study group has been created successfully.", false)
  const CreateErrorToast := Toast("Error", "Failed to create group.", true)
  const JoinedToast := Toast("Joined group", "You have successfully joined the study group.", false)
  const JoinErrorToast := Toast("Error", "Failed to join group.", true)
  const LeftToast := Toast("Left group", "You have left the study group.", false)
  const LeaveErrorToast := Toast("Error", "Failed to leave group.", true)
  const JoinRequiredToast := Toast("Join required", "You must join the group to access the chat.", true)

  /** The page's notice after a hook call, as the handlers are written: the
      error notice sits in a `catch`, but the hook reports a failure by
      returning `{ error }`, never by rejecting, so the success notice is
      shown whatever the hook answered. */
  function NoticeAsWritten(hookReply: Outcome, onSuccess: Toast, onError: Toast): Toast {
    onSuccess
  }

  /** A failed creation is announced as a success. */
  lemma FailedCreateAnnouncedAsCreated()
    ensures NoticeAsWritten(Failure("Creation failed"), CreatedToast, CreateErrorToast) == CreatedToast
    ensures NoticeAsWritten(Failure("Creation failed"), CreatedToast, CreateErrorToast) != CreateErrorToast
  {
  }

  /** The notice the handlers evidently intend: the success notice exactly
      when the hook reported success. */
  function Notice(hookReply: Outcome, onSuccess: Toast, onError: Toast): (t: Toast)
    ensures hookReply.Success? ==> t == onSuccess
    ensures hookReply.Failure? ==> t == onError
  {
    if hookReply.Success? then onSuccess else onError
  }

  /** With distinct notices the intended one tells success from failure. */
  lemma NoticeReportsOutcome(hookReply: Outcome, onSuccess: Toast, onError: Toast)
    requires onSuccess != onError
    ensures Notice(hookReply, onSuccess, onError) == onSuccess <==> hookReply == Success
  {
  }

  /** `createGroup`'s reply seen as an outcome. */
  function CreateOutcome(hookResult: Result<Id>): (o: Outcome)
    ensures o.Success? <==> hookResult.Ok?
    ensures hookResult.Err? ==> o == Failure(hookResult.error)
  {
    match hookResult
    case Ok(_) => Success
    case Err(e) => Failure(e)
  }

  /** The state of the groups page. */
  class GroupsPageState {
    const user: Option<Id>
    var searchTerm: string
    var isCreating: bool
    var selectedGroup: Option<GroupData>

    constructor (user: Option<Id>)
      ensures this.user == user && searchTerm == "" && !isCreating && selectedGroup.None?
    {
      this.user := user;
      searchTerm := "";
      isCreating := false;
      selectedGroup := None;
    }

    /** `handleCreateGroup`: nothing without a user; otherwise a group with
        the fixed name and description is requested from the hook, whose
        reply is `hookResult`, and the notice reports that reply. */
    method HandleCreateGroup(hookResult: Result<Id>) returns (request: Option<(string, string)>, notice: Option<Toast>)
      modifies this`isCreating
      ensures user.None? ==> request.None? && notice.None? && isCreating == old(isCreating)
      ensures user.Some? ==>
                request == Some(("New Study Group", "A new study group for collaborative learning")) &&
                notice == Some(Notice(CreateOutcome(hookResult), CreatedToast, CreateErrorToast)) &&
                !isCreating
    {
      if user.None? {
        return None, None;
      }
      isCreating := true;
      request := Some(("New Study Group", "A new study group for collaborative learning"));
      notice := Some(Notice(CreateOutcome(hookResult), CreatedToast, CreateErrorToast));
      isCreating := false;
    }

    /** `handleJoinGroup`: nothing without a user; otherwise the hook is asked
        to join `groupId` and the notice reports its reply. */
    method HandleJoinGroup(groupId: Id, hookResult: Outcome) returns (request: Option<Id>, notice: Option<Toast>)
      ensures user.None? ==> request.None? && notice.None?
      ensures user.Some? ==> request == Some(groupId) && notice == Some(Notice(hookResult, JoinedToast, JoinErrorToast))
    {
      if user.None? {
        return None, None;
      }
      request := Some(groupId);
      notice := Some(Notice(hookResult, JoinedToast, JoinErrorToast));
    }

    /** `handleLeaveGroup`: nothing without a user; otherwise the hook is
        asked to leave `groupId` and the notice reports its reply. */
    method HandleLeaveGroup(groupId: Id, hookResult: Outcome) returns (request: Option<Id>, notice: Option<Toast>)
      ensures user.None? ==> request.None? && notice.None?
      ensures user.Some? ==> request == Some(groupId) && notice == Some(Notice(hookResult, LeftToast, LeaveErrorToast))
    {
      if user.None? {
        return None, None;
      }
      request := Some(groupId);
      notice := Some(Notice(hookResult, LeftToast, LeaveErrorToast));
    }

    /** `handleOpenChat`: a group the user is not a member of is refused with
        a notice and the page stays as it was; a member's group opens. */
    method HandleOpenChat(g: GroupData) returns (notice: Option<Toast>)
      modifies this`selectedGroup
      ensures !g.isMember ==> notice == Some(JoinRequiredToast) && selectedGroup == old(selectedGroup)
      ensures g.isMember ==> notice.None? && selectedGroup == Some(g)
    {
      if !g.isMember {
        return Some(JoinRequiredToast);
      }
      selectedGroup := Some(g);
      notice := None;
    }

    /** The chat's back button. */
    method CloseChat()
      modifies this`selectedGroup
      ensures selectedGroup.None?
    {
      selectedGroup := None;
    }
  }

  /** A group from the hook's list opens in the chat only when the signed-in
      user is among its memberships. */
  lemma ChatOpensOnlyForMembers(rows: seq<GroupRow>, user: Option<Id>, i: nat)
    requires i < |rows|
    ensures DeriveMemberships(rows, user)[i].isMember <==>
            user.Some? && exists k :: 0 <= k < |MembersOf(rows[i])| && MembersOf(rows[i])[k].userId == user.value
  {
    assert DeriveMemberships(rows, user)[i] == WithMembership(rows[i], user);
  }
}

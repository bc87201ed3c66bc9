/** The new-chat form: a profile search, the list of selected recipients
    (never two with the same user id), the group switch and name, and the
    guarded creation of the conversation with its participants. */
module CreateConversation {
  import opened Common
  import opened Seqs
  import opened Strings

  /** A row of `profiles` as the search returns it. */
  datatype Profile = Profile(
    id: Id,
    userId: Id,
    fullName: string,
    avatarUrl: Option<string>,
    department: Option<string>)

  /** No two selected profiles share a user id. */
  predicate DistinctUsers(s: seq<Profile>) {
    forall i, j :: 0 <= i < j < |s| ==> s[i].userId != s[j].userId
  }

  function NotUser(userId: Id): Profile -> bool {
    (p: Profile) => p.userId != userId
  }

  /** `selectedUsers.filter(u => u.user_id !== userId)`. */
  function WithoutUser(selected: seq<Profile>, userId: Id): (r: seq<Profile>)
    ensures forall i :: 0 <= i < |r| ==> r[i].userId != userId
  {
    Filter(NotUser(userId), selected)
  }

  /** Removing keeps every other profile, in order. */
  lemma WithoutUserKeepsOthers(selected: seq<Profile>, userId: Id, p: Profile)
    ensures p in WithoutUser(selected, userId) <==> p in selected && p.userId != userId
    ensures IsSubsequence(WithoutUser(selected, userId), selected)
  {
    FilterMembership(NotUser(userId), selected, p);
    FilterIsSubsequence(NotUser(userId), selected);
  }

  /** Removing from a list without duplicate user ids leaves one without. */
  lemma {:induction false} WithoutUserKeepsDistinct(selected: seq<Profile>, userId: Id)
    requires DistinctUsers(selected)
    ensures DistinctUsers(WithoutUser(selected, userId))
  {
    if selected != [] {
      var rest := selected[1..];
      assert DistinctUsers(rest) by {
        forall i, j | 0 <= i < j < |rest|
          ensures rest[i].userId != rest[j].userId
        {
          assert rest[i] == selected[i + 1] && rest[j] == selected[j + 1];
        }
      }
      WithoutUserKeepsDistinct(rest, userId);
      if NotUser(userId)(selected[0]) {
        var tail := WithoutUser(rest, userId);
        var r := [selected[0]] + tail;
        forall i, j | 0 <= i < j < |r|
          ensures r[i].userId != r[j].userId
        {
          if i == 0 {
            assert r[j] == tail[j - 1] && tail[j - 1] in rest;
            var k :| 0 <= k < |rest| && rest[k] == tail[j - 1];
            assert selected[k + 1] == tail[j - 1];
          } else {
            assert r[i] == tail[i - 1] && r[j] == tail[j - 1];
          }
        }
      }
    }
  }

  /** A row of `conversation_participants`; the creator's id is `user?.id`,
      so it may be `undefined`. */
  datatype ParticipantRow = ParticipantRow(conversationId: Id, userId: Option<Id>)

  /** The creator first, then each selected user in selection order. */
  function Participants(cid: Id, creator: Option<Id>, selected: seq<Profile>): (r: seq<ParticipantRow>)
    ensures |r| == 1 + |selected|
    ensures r[0].userId == creator
    ensures forall i :: 1 <= i < |r| ==> r[i].userId == Some(selected[i - 1].userId)
    ensures forall i :: 0 <= i < |r| ==> r[i].conversationId == cid
  {
    seq(1 + |selected|, i requires 0 <= i <= |selected| =>
      ParticipantRow(cid, if i == 0 then creator else Some(selected[i - 1].userId)))
  }

  /** With a signed-in creator who is not among the selected users (the
      search leaves the creator out) and no duplicate selection, every
      participant appears exactly once. */
  lemma ParticipantsDistinct(cid: Id, creator: Id, selected: seq<Profile>)
    requires DistinctUsers(selected)
    requires forall i :: 0 <= i < |selected| ==> selected[i].userId != creator
    ensures forall i, j :: 0 <= i < j < |Participants(cid, Some(creator), selected)| ==>
              Participants(cid, Some(creator), selected)[i].userId != Participants(cid, Some(creator), selected)[j].userId
  {
    var r := Participants(cid, Some(creator), selected);
    forall i, j | 0 <= i < j < |r|
      ensures r[i].userId != r[j].userId
    {
      if i > 0 {
        assert r[i].userId == Some(selected[i - 1].userId);
      }
    }
  }

  datatype NewConversation = NewConversation(createdBy: Option<Id>, isGroup: bool, name: Option<string>)

  /** The remote calls the form issues, in order. */
  datatype FormCall =
    | SearchProfiles(pattern: string, excluding: Option<Id>)
    | InsertConversation(conversation: NewConversation)
    | InsertParticipants(rows: seq<ParticipantRow>)

  /** The state of the mounted form. */
  class ConversationForm {
    const user: Option<Id>
    var searchQuery: string
    var searchResults: seq<Profile>
    var selectedUsers: seq<Profile>
    var isGroupChat: bool
    var groupName: string
    var loading: bool
    var searching: bool

    ghost predicate Valid()
      reads this
    {
      DistinctUsers(selectedUsers)
    }

    constructor (user: Option<Id>)
      ensures Valid()
      ensures this.user == user && searchQuery == "" && searchResults == [] && selectedUsers == []
      ensures !isGroupChat && groupName == "" && !loading && !searching
    {
      this.user := user;
      searchQuery := "";
      searchResults := [];
      selectedUsers := [];
      isGroupChat := false;
      groupName := "";
      loading := false;
      searching := false;
    }

    /** `searchUsers`: a blank query clears the results without a query;
        otherwise profiles whose name matches are fetched, leaving out the
        user's own. A failed query keeps the old results. */
    method SearchUsers(query: string, data: Option<seq<Profile>>, queryOk: bool) returns (calls: seq<FormCall>)
      modifies this`searchResults, this`searching
      ensures IsBlank(query) ==> calls == [] && searchResults == [] && searching == old(searching)
      ensures !IsBlank(query) ==> calls == [SearchProfiles("%" + query + "%", user)] && !searching
      ensures !IsBlank(query) ==> searchResults == if queryOk then data.GetOr([]) else old(searchResults)
    {
      if Trim(query) == "" {
        searchResults := [];
        return [];
      }
      searching := true;
      calls := [SearchProfiles("%" + query + "%", user)];
      if queryOk {
        searchResults := data.GetOr([]);
      }
      searching := false;
    }

    /** `handleSearch`: the query field takes the typed text, then the search runs. */
    method HandleSearch(query: string, data: Option<seq<Profile>>, queryOk: bool) returns (calls: seq<FormCall>)
      modifies this`searchQuery, this`searchResults, this`searching
      ensures searchQuery == query
      ensures IsBlank(query) ==> calls == [] && searchResults == []
      ensures !IsBlank(query) ==> calls == [SearchProfiles("%" + query + "%", user)]
      ensures !IsBlank(query) ==> searchResults == if queryOk then data.GetOr([]) else old(searchResults)
    {
      searchQuery := query;
      calls := SearchUsers(query, data, queryOk);
    }

    /** `addUser`: a profile whose user id is not yet selected is appended and
        the search is cleared; a duplicate changes nothing. */
    method AddUser(p: Profile) returns (added: bool)
      requires Valid()
      modifies this`selectedUsers, this`searchQuery, this`searchResults
      ensures Valid()
      ensures added <==> forall i :: 0 <= i < |old(selectedUsers)| ==> old(selectedUsers)[i].userId != p.userId
      ensures added ==> selectedUsers == old(selectedUsers) + [p] && searchQuery == "" && searchResults == []
      ensures !added ==> selectedUsers == old(selectedUsers) && searchQuery == old(searchQuery) &&
                         searchResults == old(searchResults)
    {
      var same := Find((u: Profile) => u.userId == p.userId, selectedUsers);
      added := same.None?;
      if added {
        selectedUsers := selectedUsers + [p];
        searchQuery := "";
        searchResults := [];
      }
    }

    /** `removeUser`. */
    method RemoveUser(userId: Id)
      requires Valid()
      modifies this`selectedUsers
      ensures Valid()
      ensures selectedUsers == WithoutUser(old(selectedUsers), userId)
    {
      WithoutUserKeepsDistinct(selectedUsers, userId);
      selectedUsers := WithoutUser(selectedUsers, userId);
    }

    /** `createConversation`: an empty selection, or a group without a
        non-blank name, is refused before any call. Otherwise the
        conversation is inserted (`createdId` is the id the database gave it,
        `None` when the insert failed), then its participants; the new id is
        handed to `onConversationCreated` only when both succeed. */
    method CreateConversation(createdId: Option<Id>, participantsOk: bool)
      returns (calls: seq<FormCall>, created: Option<Id>, error: Option<string>)
      modifies this`loading
      ensures selectedUsers == [] ==>
                calls == [] && created.None? && error == Some("Please select at least one user") &&
                loading == old(loading)
      ensures selectedUsers != [] && isGroupChat && IsBlank(groupName) ==>
                calls == [] && created.None? && error == Some("Please enter a group name") &&
                loading == old(loading)
      ensures selectedUsers != [] && !(isGroupChat && IsBlank(groupName)) ==>
                (|calls| >= 1 && !loading &&
                 calls[0] == InsertConversation(NewConversation(user, isGroupChat,
                                                                if isGroupChat then Some(groupName) else None)))
      ensures selectedUsers != [] && !(isGroupChat && IsBlank(groupName)) && createdId.None? ==>
                (|calls| == 1 && created.None? && error == Some("Failed to create conversation"))
      ensures selectedUsers != [] && !(isGroupChat && IsBlank(groupName)) && createdId.Some? ==>
                (|calls| == 2 && calls[1] == InsertParticipants(Participants(createdId.value, user, selectedUsers)))
      ensures selectedUsers != [] && !(isGroupChat && IsBlank(groupName)) && createdId.Some? ==>
                (if participantsOk then created == createdId && error.None?
                 else created.None? && error == Some("Failed to create conversation"))
    {
      if |selectedUsers| == 0 {
        return [], None, Some("Please select at least one user");
      }
      if isGroupChat && Trim(groupName) == "" {
        return [], None, Some("Please enter a group name");
      }
      loading := true;
      calls := [InsertConversation(NewConversation(user, isGroupChat, if isGroupChat then Some(groupName) else None))];
      if createdId.None? {
        created, error := None, Some("Failed to create conversation");
      } else {
        calls := calls + [InsertParticipants(Participants(createdId.value, user, selectedUsers))];
        if participantsOk {
          created, error := createdId, None;
        } else {
          created, error := None, Some("Failed to create conversation");
        }
      }
      loading := false;
    }
  }
}

/** The chat page: how a conversation is named and pictured, which messages
    are shown, which of them carry the author's avatar and name, and the
    send handler. */
module ChatPage {
  import opened Common
  import opened Seqs
  import opened Strings
  import opened Chat

  /** `message.user_id === user?.id`. */
  predicate IsOwn(m: ChatMessage, user: Option<Id>) {
    user == Some(m.userId)
  }

  /** `showAvatar` for the message at `index`: not the user's own, and the
      first message or one whose predecessor has another author. */
  predicate ShowAvatar(msgs: seq<ChatMessage>, index: nat, user: Option<Id>)
    requires index < |msgs|
  {
    !IsOwn(msgs[index], user) && (index == 0 || msgs[index - 1].userId != msgs[index].userId)
  }

  /** `showAuthor = !isOwnMessage && showAvatar`. */
  predicate ShowAuthor(msgs: seq<ChatMessage>, index: nat, user: Option<Id>)
    requires index < |msgs|
  {
    !IsOwn(msgs[index], user) && ShowAvatar(msgs, index, user)
  }

  /** The author line is shown exactly where the avatar is. */
  lemma ShowAuthorIsShowAvatar(msgs: seq<ChatMessage>, index: nat, user: Option<Id>)
    requires index < |msgs|
    ensures ShowAuthor(msgs, index, user) <==> ShowAvatar(msgs, index, user)
  {
  }

  /** The messages `from..to` (inclusive) all have the author of message `to`. */
  predicate SameAuthorRun(msgs: seq<ChatMessage>, from: nat, to: nat)
    requires from <= to < |msgs|
  {
    forall k :: from <= k <= to ==> msgs[k].userId == msgs[to].userId
  }

  /** Every message of another author belongs to a run of that author's
      consecutive messages whose first message shows the avatar: each group
      of messages is labelled once, at its start. */
  lemma {:induction false} RunStartsWithAvatar(msgs: seq<ChatMessage>, i: nat, user: Option<Id>)
    requires i < |msgs| && !IsOwn(msgs[i], user)
    ensures exists j: nat :: j <= i && ShowAvatar(msgs, j, user) && SameAuthorRun(msgs, j, i)
  {
    if ShowAvatar(msgs, i, user) {
      assert SameAuthorRun(msgs, i, i);
    } else {
      RunStartsWithAvatar(msgs, i - 1, user);
      var j: nat :| j <= i - 1 && ShowAvatar(msgs, j, user) && SameAuthorRun(msgs, j, i - 1);
      assert SameAuthorRun(msgs, j, i);
    }
  }

  /** Only the first message of a run shows the avatar. */
  lemma AvatarOnlyAtRunStart(msgs: seq<ChatMessage>, i: nat, user: Option<Id>)
    requires 0 < i < |msgs| && msgs[i - 1].userId == msgs[i].userId
    ensures !ShowAvatar(msgs, i, user)
  {
  }

  function NotUser(user: Option<Id>): Participant -> bool {
    (p: Participant) => user != Some(p.userId)
  }

  /** `conversation.participants?.find(p => p.user_id !== user?.id)`. */
  function OtherParticipant(c: Conversation, user: Option<Id>): (r: Option<Participant>)
    ensures r.None? <==> forall i :: 0 <= i < |c.participants.GetOr([])| ==> user == Some(c.participants.GetOr([])[i].userId)
  {
    Find(NotUser(user), c.participants.GetOr([]))
  }

  /** The full name of that participant's profile, when there is one. */
  function OtherName(c: Conversation, user: Option<Id>): Option<string> {
    match OtherParticipant(c, user)
    case Some(Participant(_, Some(a))) => a.fullName
    case _ => None
  }

  /** `getConversationName`. */
  function ConversationName(c: Conversation, user: Option<Id>): (r: string)
    ensures c.isGroup ==> r == OrElse(c.name, "Group Chat")
    ensures !c.isGroup ==> r == OrElse(OtherName(c, user), "Unknown User")
    ensures !c.isGroup && OtherParticipant(c, user).None? ==> r == "Unknown User"
  {
    if c.isGroup then OrElse(c.name, "Group Chat") else OrElse(OtherName(c, user), "Unknown User")
  }

  /** A direct chat is named after the first participant who is not the user
      and has a non-empty name. */
  lemma DirectChatNamedAfterOther(c: Conversation, user: Option<Id>, k: nat, name: string)
    requires !c.isGroup && c.participants.Some? && k < |c.participants.value|
    requires user != Some(c.participants.value[k].userId)
    requires forall j :: 0 <= j < k ==> user == Some(c.participants.value[j].userId)
    requires c.participants.value[k].user.Some? && c.participants.value[k].user.value.fullName == Some(name)
    requires name != ""
    ensures ConversationName(c, user) == name
  {
    var ps := c.participants.value;
    var o := OtherParticipant(c, user);
    assert NotUser(user)(ps[k]);
    var m :| 0 <= m < |ps| && ps[m] == o.value && NotUser(user)(ps[m]) && forall j :: 0 <= j < m ==> !NotUser(user)(ps[j]);
  }

  /** `getConversationAvatar`: `null` for a group, otherwise the other
      participant's avatar, when there is one. */
  function ConversationAvatar(c: Conversation, user: Option<Id>): (r: Option<string>)
    ensures c.isGroup ==> r.None?
    ensures OtherParticipant(c, user).None? ==> r.None?
    ensures !c.isGroup && OtherParticipant(c, user).Some? && OtherParticipant(c, user).value.user.Some? ==>
              r == OtherParticipant(c, user).value.user.value.avatarUrl
    ensures !c.isGroup && OtherParticipant(c, user).Some? && OtherParticipant(c, user).value.user.None? ==> r.None?
  {
    if c.isGroup then None
    else match OtherParticipant(c, user)
      case Some(Participant(_, Some(a))) => a.avatarUrl
      case _ => None
  }

  /** `selectedConversation ? messages[selectedConversation] || [] : []`. */
  function CurrentMessages(selected: Id, msgs: MessageMap): (r: seq<ChatMessage>)
    ensures selected == "" ==> r == []
    ensures selected != "" && selected !in msgs ==> r == []
    ensures selected != "" && selected in msgs ==> r == msgs[selected]
  {
    if selected == "" then [] else ListOf(msgs, selected)
  }

  /** A message arriving for the open conversation is shown last; one for any
      other conversation leaves the shown list as it was. */
  lemma InsertShownInOpenConversation(selected: Id, msgs: MessageMap, m: ChatMessage)
    requires selected != ""
    ensures m.conversationId == selected ==> CurrentMessages(selected, WithInserted(msgs, m)) == CurrentMessages(selected, msgs) + [m]
    ensures m.conversationId != selected ==> CurrentMessages(selected, WithInserted(msgs, m)) == CurrentMessages(selected, msgs)
  {
  }

  /** The state of the chat page. */
  class ChatPageState {
    var selectedConversation: Id
    var messageInput: string
    var isCreatingChat: bool

    constructor ()
      ensures selectedConversation == "" && messageInput == "" && !isCreatingChat
    {
      selectedConversation := "";
      messageInput := "";
      isCreatingChat := false;
    }

    /** `handleSendMessage`: a blank input or no open conversation sends
        nothing. Otherwise the input, untrimmed, is sent to the open
        conversation, and it is cleared only when the hook (whose reply is
        `hookResult`) reports success. */
    method HandleSendMessage(hookResult: Outcome) returns (sent: Option<(Id, string)>)
      modifies this`messageInput
      ensures IsBlank(old(messageInput)) || selectedConversation == "" ==>
                sent.None? && messageInput == old(messageInput)
      ensures !IsBlank(old(messageInput)) && selectedConversation != "" ==>
                sent == Some((selectedConversation, old(messageInput))) &&
                messageInput == if hookResult == Success then "" else old(messageInput)
    {
      if Trim(messageInput) == "" || selectedConversation == "" {
        return None;
      }
      sent := Some((selectedConversation, messageInput));
      if hookResult == Success {
        messageInput := "";
      }
    }

    /** `handleConversationCreated`: the form closes and the new conversation
        opens; its messages are then fetched. */
    method HandleConversationCreated(cid: Id) returns (fetch: Id)
      modifies this`isCreatingChat, this`selectedConversation
      ensures !isCreatingChat && selectedConversation == cid && fetch == cid
    {
      isCreatingChat := false;
      selectedConversation := cid;
      fetch := cid;
    }
  }
}

/** The direct-chat hook: the user's conversations and a map from
    conversation id to that conversation's message list, kept in step with
    the realtime INSERT events on the `messages` table.

    An INSERT is appended to the list of its own conversation, whichever
    conversation is open; inserts are neither sorted nor deduplicated. */
module Chat {
  import opened Common
  import opened Seqs

  datatype Author = Author(fullName: Option<string>, avatarUrl: Option<string>)

  /** A row of `messages` as the client holds it. */
  datatype ChatMessage = ChatMessage(
    id: Id,
    conversationId: Id,
    userId: Id,
    content: Option<string>,
    messageType: string,
    fileUrl: Option<string>,
    replyTo: Option<Id>,
    createdAt: string,
    updatedAt: string,
    author: Option<Author>)

  /** A participant of a conversation with the profile joined to it. */
  datatype Participant = Participant(userId: Id, user: Option<Author>)

  datatype Conversation = Conversation(
    id: Id,
    name: Option<string>,
    isGroup: bool,
    createdBy: Option<Id>,
    createdAt: string,
    updatedAt: string,
    participants: Option<seq<Participant>>,
    lastMessage: Option<ChatMessage>)

  /** `{ [conversationId: string]: ChatMessage[] }`. */
  type MessageMap = map<Id, seq<ChatMessage>>

  /** `prev[id] || []`. */
  function ListOf(msgs: MessageMap, id: Id): seq<ChatMessage> {
    if id in msgs then msgs[id] else []
  }

  /** INSERT event: `{ ...prev, [cid]: [...(prev[cid] || []), newMessage] }`. */
  function WithInserted(msgs: MessageMap, m: ChatMessage): (r: MessageMap)
    ensures r.Keys == msgs.Keys + {m.conversationId}
    ensures r[m.conversationId] == ListOf(msgs, m.conversationId) + [m]
    ensures forall k :: k in msgs && k != m.conversationId ==> r[k] == msgs[k]
  {
    msgs[m.conversationId := ListOf(msgs, m.conversationId) + [m]]
  }

  /** `fetchMessages` success: `{ ...prev, [cid]: data || [] }`. */
  function WithFetched(msgs: MessageMap, cid: Id, data: Option<seq<ChatMessage>>): (r: MessageMap)
    ensures r.Keys == msgs.Keys + {cid}
    ensures r[cid] == data.GetOr([])
    ensures forall k :: k in msgs && k != cid ==> r[k] == msgs[k]
  {
    msgs[cid := data.GetOr([])]
  }

  /** An INSERT grows its conversation's list by exactly one entry at the end,
      even when a message with the same id is already there. */
  lemma InsertAppendsToOwnConversation(msgs: MessageMap, m: ChatMessage)
    ensures |ListOf(WithInserted(msgs, m), m.conversationId)| == |ListOf(msgs, m.conversationId)| + 1
    ensures ListOf(WithInserted(msgs, m), m.conversationId)[..|ListOf(msgs, m.conversationId)|]
            == ListOf(msgs, m.conversationId)
  {
    var before := ListOf(msgs, m.conversationId);
    assert (before + [m])[..|before|] == before;
  }

  /** A conversation seen for the first time gets a one-element list. */
  lemma InsertIntoAbsentConversation(msgs: MessageMap, m: ChatMessage)
    requires m.conversationId !in msgs
    ensures WithInserted(msgs, m)[m.conversationId] == [m]
  {
  }

  /** Inserts into two different conversations commute. */
  lemma InsertsCommute(msgs: MessageMap, a: ChatMessage, b: ChatMessage)
    requires a.conversationId != b.conversationId
    ensures WithInserted(WithInserted(msgs, a), b) == WithInserted(WithInserted(msgs, b), a)
  {
  }

  /** A fetch of a conversation discards every insert that arrived for it
      before the fetch, and only for it. */
  lemma FetchOverridesInsert(msgs: MessageMap, m: ChatMessage, data: Option<seq<ChatMessage>>)
    ensures WithFetched(WithInserted(msgs, m), m.conversationId, data)
            == WithFetched(msgs, m.conversationId, data)
  {
  }

  /** A row of `conversation_participants`. */
  datatype ParticipantRow = ParticipantRow(conversationId: Id, userId: Id)

  /** `[user.id, ...participantIds].map(...)`: the creator first, then the
      given ids in order, all in the new conversation. */
  function ParticipantRows(cid: Id, creator: Id, ids: seq<Id>): (r: seq<ParticipantRow>)
    ensures |r| == 1 + |ids|
    ensures r[0].userId == creator
    ensures forall i :: 1 <= i < |r| ==> r[i].userId == ids[i - 1]
    ensures forall i :: 0 <= i < |r| ==> r[i].conversationId == cid
  {
    seq(1 + |ids|, i requires 0 <= i <= |ids| => ParticipantRow(cid, if i == 0 then creator else ids[i - 1]))
  }

  datatype NewConversation = NewConversation(createdBy: Id, isGroup: bool, name: Option<string>)

  datatype NewChatMessage = NewChatMessage(
    conversationId: Id,
    userId: Id,
    content: string,
    messageType: string,
    fileUrl: Option<string>,
    replyTo: Option<Id>)

  /** The remote calls the hook issues, in order. */
  datatype ChatCall =
    | InsertConversation(conversation: NewConversation)
    | InsertParticipants(rows: seq<ParticipantRow>)
    | RefreshConversations

  /** The state of the mounted `useChat()` hook. */
  class ChatHook {
    const user: Option<Id>
    var conversations: seq<Conversation>
    var messages: MessageMap
    var loading: bool

    constructor (user: Option<Id>)
      ensures this.user == user
      ensures conversations == [] && messages == map[] && loading
    {
      this.user := user;
      conversations := [];
      messages := map[];
      loading := true;
    }

    /** `fetchConversations`: without a user nothing happens, not even the end
        of loading; otherwise the list becomes the fetched rows (`[]` for a
        null result) unless the query failed. */
    method FetchConversations(data: Option<seq<Conversation>>, queryOk: bool)
      modifies this`conversations, this`loading
      ensures user.None? ==> conversations == old(conversations) && loading == old(loading)
      ensures user.Some? ==> !loading
      ensures user.Some? ==> conversations == if queryOk then data.GetOr([]) else old(conversations)
    {
      if user.None? {
        return;
      }
      if queryOk {
        conversations := data.GetOr([]);
      }
      loading := false;
    }

    /** `fetchMessages(cid)`: replaces that conversation's list; a failed query
        changes nothing. */
    method FetchMessages(cid: Id, data: Option<seq<ChatMessage>>, queryOk: bool)
      modifies this`messages
      ensures messages == if queryOk then WithFetched(old(messages), cid, data) else old(messages)
    {
      if queryOk {
        messages := WithFetched(messages, cid, data);
      }
    }

    method OnInsert(m: ChatMessage)
      modifies this`messages
      ensures messages == WithInserted(old(messages), m)
    {
      messages := WithInserted(messages, m);
    }

    /** `createConversation`: no user, no call. Otherwise the conversation row
        is inserted (`createdId` is the id the database gave it, `None` when
        the insert failed), then the participant rows, then the list is
        refreshed. */
    method CreateConversation(participantIds: seq<Id>, isGroup: Option<bool>, name: Option<string>,
                              createdId: Option<Id>, participantsOk: bool)
      returns (calls: seq<ChatCall>, result: Result<Id>)
      ensures user.None? ==> calls == [] && result == Err("User not authenticated")
      ensures user.Some? ==>
                |calls| >= 1 && calls[0] == InsertConversation(NewConversation(user.value, isGroup.GetOr(false), name))
      ensures user.Some? && createdId.None? ==>
                (|calls| == 1 && result == Err("Failed to create conversation"))
      ensures user.Some? && createdId.Some? ==>
                (|calls| >= 2 && calls[1] == InsertParticipants(ParticipantRows(createdId.value, user.value, participantIds)))
      ensures user.Some? && createdId.Some? && participantsOk ==>
                (calls[2..] == [RefreshConversations] && result == Ok(createdId.value))
      ensures user.Some? && createdId.Some? && !participantsOk ==>
                (|calls| == 2 && result == Err("Failed to create conversation"))
    {
      if user.None? {
        return [], Err("User not authenticated");
      }
      calls := [InsertConversation(NewConversation(user.value, isGroup.GetOr(false), name))];
      if createdId.None? {
        return calls, Err("Failed to create conversation");
      }
      calls := calls + [InsertParticipants(ParticipantRows(createdId.value, user.value, participantIds))];
      if !participantsOk {
        return calls, Err("Failed to create conversation");
      }
      calls := calls + [RefreshConversations];
      result := Ok(createdId.value);
    }

    /** `sendMessage`: no user, no insert. The message type defaults to
        'text'. The new row reaches `messages` only through the INSERT event. */
    method SendMessage(cid: Id, content: string, messageType: Option<string>, fileUrl: Option<string>,
                       replyTo: Option<Id>, insertOk: bool)
      returns (inserted: Option<NewChatMessage>, outcome: Outcome)
      ensures user.None? ==> inserted.None? && outcome == Failure("User not authenticated")
      ensures user.Some? ==>
                inserted == Some(NewChatMessage(cid, user.value, content, messageType.GetOr("text"), fileUrl, replyTo))
      ensures user.Some? ==> outcome == if insertOk then Success else Failure("Failed to send message")
    {
      if user.None? {
        return None, Failure("User not authenticated");
      }
      inserted := Some(NewChatMessage(cid, user.value, content, messageType.GetOr("text"), fileUrl, replyTo));
      outcome := if insertOk then Success else Failure("Failed to send message");
    }
  }
}

/** The group-chat hook: one ordered list of a study group's messages, kept in
    step with the realtime INSERT, UPDATE and DELETE events on the
    `group_messages` table, plus the send and upload operations.

    Each event handler is one atomic step. The list is never sorted or
    deduplicated: an INSERT appends even when its id is already present. */
module GroupChat {
  import opened Common
  import opened Seqs
  import opened Strings
  import opened Storage

  datatype MessageType = Text | Image | Document | Audio

  datatype Author = Author(fullName: Option<string>, avatarUrl: Option<string>)

  /** A row of `group_messages` as the client holds it. */
  datatype GroupMessage = GroupMessage(
    id: Id,
    groupId: Id,
    userId: Id,
    content: Option<string>,
    messageType: MessageType,
    fileUrl: Option<string>,
    replyTo: Option<Id>,
    createdAt: string,
    updatedAt: string,
    author: Option<Author>)

  /** The row `sendMessage` asks the database to insert. */
  datatype NewGroupMessage = NewGroupMessage(
    groupId: Id,
    userId: Id,
    content: string,
    messageType: MessageType,
    fileUrl: Option<string>,
    replyTo: Option<Id>)

  function HasId(id: Id): GroupMessage -> bool {
    (m: GroupMessage) => m.id == id
  }

  function NotId(id: Id): GroupMessage -> bool {
    (m: GroupMessage) => m.id != id
  }

  function ReplaceById(u: GroupMessage): GroupMessage -> GroupMessage {
    (m: GroupMessage) => if m.id == u.id then u else m
  }

  /** INSERT event: `[...prev, newMessage]`. */
  function Inserted(prev: seq<GroupMessage>, m: GroupMessage): (r: seq<GroupMessage>)
    ensures |r| == |prev| + 1
    ensures r[..|prev|] == prev && r[|prev|] == m
  {
    prev + [m]
  }

  /** UPDATE event: `prev.map(msg => msg.id === updated.id ? updated : msg)`. */
  function Updated(prev: seq<GroupMessage>, u: GroupMessage): (r: seq<GroupMessage>)
    ensures |r| == |prev|
    ensures forall i :: 0 <= i < |prev| && prev[i].id == u.id ==> r[i] == u
    ensures forall i :: 0 <= i < |prev| && prev[i].id != u.id ==> r[i] == prev[i]
  {
    Map(ReplaceById(u), prev)
  }

  /** DELETE event: `prev.filter(msg => msg.id !== deleted.id)`. */
  function Deleted(prev: seq<GroupMessage>, id: Id): (r: seq<GroupMessage>)
    ensures forall i :: 0 <= i < |r| ==> r[i].id != id
  {
    Filter(NotId(id), prev)
  }

  function Ids(s: seq<GroupMessage>): seq<Id> {
    Map((m: GroupMessage) => m.id, s)
  }

  /** An INSERT whose id is already present keeps both entries: the number of
      entries with that id grows by exactly one. */
  lemma InsertNeverDeduplicates(prev: seq<GroupMessage>, m: GroupMessage)
    ensures |Filter(HasId(m.id), Inserted(prev, m))| == |Filter(HasId(m.id), prev)| + 1
  {
    FilterAppend(HasId(m.id), prev, [m]);
    assert Filter(HasId(m.id), [m]) == [m];
  }

  /** An UPDATE keeps the id of every position, so the ids and their order are
      unchanged. */
  lemma UpdateKeepsIds(prev: seq<GroupMessage>, u: GroupMessage)
    ensures Ids(Updated(prev, u)) == Ids(prev)
  {
  }

  /** An UPDATE for an id that is not in the list leaves the list as it was. */
  lemma UpdateAbsentIsIdentity(prev: seq<GroupMessage>, u: GroupMessage)
    requires forall i :: 0 <= i < |prev| ==> prev[i].id != u.id
    ensures Updated(prev, u) == prev
  {
  }

  /** Delivering the same UPDATE twice has the effect of delivering it once. */
  lemma UpdateIdempotent(prev: seq<GroupMessage>, u: GroupMessage)
    ensures Updated(Updated(prev, u), u) == Updated(prev, u)
  {
  }

  /** DELETE removes every entry with the id and nothing else: each other
      message keeps its number of occurrences, and the survivors keep their
      relative order. */
  lemma DeleteRemovesExactly(prev: seq<GroupMessage>, id: Id, m: GroupMessage)
    ensures multiset(Deleted(prev, id))[m] == if m.id == id then 0 else multiset(prev)[m]
    ensures IsSubsequence(Deleted(prev, id), prev)
  {
    FilterCount(NotId(id), prev, m);
    FilterIsSubsequence(NotId(id), prev);
  }

  /** Delivering the same DELETE twice has the effect of delivering it once. */
  lemma DeleteIdempotent(prev: seq<GroupMessage>, id: Id)
    ensures Deleted(Deleted(prev, id), id) == Deleted(prev, id)
  {
    FilterIdempotent(NotId(id), prev);
  }

  /** A DELETE for an id that is not in the list leaves the list as it was. */
  lemma DeleteAbsentIsIdentity(prev: seq<GroupMessage>, id: Id)
    requires forall i :: 0 <= i < |prev| ==> prev[i].id != id
    ensures Deleted(prev, id) == prev
  {
    FilterAll(NotId(id), prev);
  }

  /** A DELETE after an UPDATE of the same id ends as if the UPDATE had never
      arrived. */
  lemma {:induction false} DeleteAfterUpdate(prev: seq<GroupMessage>, u: GroupMessage)
    ensures Deleted(Updated(prev, u), u.id) == Deleted(prev, u.id)
  {
    if prev != [] {
      DeleteAfterUpdate(prev[1..], u);
      assert Updated(prev, u)[1..] == Updated(prev[1..], u);
    }
  }

  /** A DELETE after an INSERT of the same id removes the inserted copy too. */
  lemma DeleteAfterInsert(prev: seq<GroupMessage>, m: GroupMessage)
    ensures Deleted(Inserted(prev, m), m.id) == Deleted(prev, m.id)
  {
    FilterAppend(NotId(m.id), prev, [m]);
    assert Filter(NotId(m.id), [m]) == [];
  }

  /** The storage key of a group upload:
      `group-files/${groupId}/${Date.now()}.${ext}`. */
  function GroupFilePath(groupId: Id, fileName: string, now: nat): (path: string)
    ensures StartsWith(path, "group-files/" + groupId + "/")
  {
    var prefix := "group-files/" + groupId + "/";
    var path := prefix + NatToString(now) + "." + FileExt(fileName);
    assert path[..|prefix|] == prefix;
    path
  }

  /** The stored object keeps the extension of the picked file. */
  lemma GroupFilePathKeepsExt(groupId: Id, fileName: string, now: nat)
    ensures FileExt(GroupFilePath(groupId, fileName, now)) == FileExt(fileName)
  {
    StoredNameKeepsExt("group-files/" + groupId + "/" + NatToString(now), fileName);
  }

  /** The state of one mounted `useGroupChat(groupId)` hook. */
  class GroupChatHook {
    const groupId: Id
    const user: Option<Id>
    var messages: seq<GroupMessage>
    var loading: bool

    constructor (groupId: Id, user: Option<Id>)
      ensures this.groupId == groupId && this.user == user
      ensures messages == [] && loading
    {
      this.groupId := groupId;
      this.user := user;
      messages := [];
      loading := true;
    }

    /** `fetchMessages`: with no group it does nothing; otherwise the list
        becomes the fetched rows (`[]` for a null result), and on a query
        error it is kept. */
    method FetchMessages(data: Option<seq<GroupMessage>>, queryOk: bool)
      modifies this`messages, this`loading
      ensures groupId == "" ==> messages == old(messages) && loading == old(loading)
      ensures groupId != "" ==> !loading
      ensures groupId != "" && queryOk ==> messages == data.GetOr([])
      ensures groupId != "" && !queryOk ==> messages == old(messages)
    {
      if groupId == "" {
        return;
      }
      loading := true;
      if queryOk {
        messages := data.GetOr([]);
      }
      loading := false;
    }

    method OnInsert(m: GroupMessage)
      modifies this`messages
      ensures messages == Inserted(old(messages), m)
    {
      messages := Inserted(messages, m);
    }

    method OnUpdate(u: GroupMessage)
      modifies this`messages
      ensures messages == Updated(old(messages), u)
    {
      messages := Updated(messages, u);
    }

    /** DELETE event; only the id of the old row is used. */
    method OnDelete(deletedId: Id)
      modifies this`messages
      ensures messages == Deleted(old(messages), deletedId)
    {
      messages := Deleted(messages, deletedId);
    }

    /** `sendMessage`: without a user or a group nothing is inserted and an
        error is returned; otherwise one row is inserted, the message type
        defaulting to text, and the insert's outcome is reported. The new
        row reaches `messages` only through the INSERT event. */
    method SendMessage(content: string, messageType: Option<MessageType>, fileUrl: Option<string>,
                       replyTo: Option<Id>, insertOk: bool)
      returns (inserted: Option<NewGroupMessage>, outcome: Outcome)
      ensures user.None? || groupId == "" ==>
                inserted.None? && outcome == Failure("User not authenticated or no group selected")
      ensures user.Some? && groupId != "" ==>
                inserted == Some(NewGroupMessage(groupId, user.value, content, messageType.GetOr(Text), fileUrl, replyTo))
      ensures user.Some? && groupId != "" ==>
                outcome == if insertOk then Success else Failure("Failed to send message")
    {
      if user.None? || groupId == "" {
        return None, Failure("User not authenticated or no group selected");
      }
      inserted := Some(NewGroupMessage(groupId, user.value, content, messageType.GetOr(Text), fileUrl, replyTo));
      if insertOk {
        outcome := Success;
      } else {
        outcome := Failure("Failed to send message");
      }
    }

    /** `uploadFile`: stores the file under its group path and returns the
        public URL the storage service reports for that path. It checks
        neither the user nor the group. */
    method UploadFile(fileName: string, now: nat, uploadOk: bool, publicUrl: string -> string)
      returns (path: string, result: Result<string>)
      ensures path == GroupFilePath(groupId, fileName, now)
      ensures result == if uploadOk then Ok(publicUrl(path)) else Err("Failed to upload file")
    {
      path := GroupFilePath(groupId, fileName, now);
      if uploadOk {
        result := Ok(publicUrl(path));
      } else {
        result := Err("Failed to upload file");
      }
    }
  }
}

# EduConnect client rules, modelled in Dafny

EduConnect is a student-community web client: shared lecture files,
discussions with replies and votes, study groups with a group chat, and
direct chats. It talks to a hosted database, storage and realtime service.
This project models the client-side rules that decide what the user sees
and what is sent to that service. The hosts' answers are parameters.

- **Message lists.** The group chat's ordered message list follows the
  realtime INSERT, UPDATE and DELETE events. The direct chat keeps a map
  from conversation id to message list, fed by INSERT events and per-key
  fetches (`GroupChat`, `Chat`).
- **Collection editors.** The recipient picker never holds two profiles
  with the same user id (`CreateConversation`). The tag editor never holds
  a blank, untrimmed or repeated tag, and the attachment list accepts only
  images and PDFs (`CreateDiscussion`). The upload form parses
  comma-separated tags (`UploadPage`).
- **Classifiers and derivations.**
  - The `file_type` of a MIME type, the download count and the delete
    filter (`Files`).
  - Membership and role of the user in each group, and the membership rows
    that create, join and leave write (`Groups`).
  - The vote update-or-insert decision, the attachment list and the
    notification fan-out (`Discussions`).
- **Display rules.**
  - Relative ages, initials and recent lists (`Dashboard`).
  - Avatar grouping and conversation naming (`ChatPage`).
  - The case-insensitive searches (`LibraryPage`, `GroupsPage`,
    `DiscussionsPage`), attachment icons (`DiscussionCard`) and the avatar
    upload rules (`ProfilePage`).

How the model is built:

- A hook or component that keeps state is a `class`. Each handler is a
  method that updates its fields and states the new state in its
  `ensures`.
- The pure reducers and decisions are functions, and the properties they
  promise are lemmas.
- A remote call is a value in the returned `calls` list, so "no remote call"
  reads `calls == []`.
- The call's success, and the rows or id it returns, are parameters. A
  table the code writes is a sequence of rows where a property needs it.
  Examples are the vote table, the membership table and the `files` table.
- `Date.now()`, the random file-name suffix and the storage's public URL
  are parameters too.
- Shared helpers live in `Common` (the optional values and the
  `{ success } / { error }` replies), `Seqs` (filter, find, map, take,
  subsequence) and `Strings`. `Strings` covers ASCII case, `trim`,
  `split`/`join`, `includes` and decimal rendering. `Storage` holds the
  `name.split('.').pop()` extension rule that every upload path shares.

## Model

| member | source | states |
|---|---|---|
| GroupChat.Inserted | src/hooks/useGroupChat.tsx:130-133 | the new message is appended: length grows by one and every earlier entry is unchanged |
| GroupChat.ReplaceById | src/hooks/useGroupChat.tsx:145 | an entry with the update's id becomes the update; every other entry is kept |
| GroupChat.Updated | src/hooks/useGroupChat.tsx:143-147 | length and order are kept; every entry with the updated id becomes the update, every other entry is unchanged |
| GroupChat.Deleted | src/hooks/useGroupChat.tsx:158-161 | no entry with the deleted id remains |
| GroupChat.InsertNeverDeduplicates | src/hooks/useGroupChat.tsx:130-133 | an INSERT whose id is already present adds a second entry with that id |
| GroupChat.UpdateKeepsIds | src/hooks/useGroupChat.tsx:145-147 | the ids of the list, in order, are the same after an UPDATE |
| GroupChat.UpdateAbsentIsIdentity | src/hooks/useGroupChat.tsx:146 | an UPDATE for an absent id leaves the list identical |
| GroupChat.UpdateIdempotent | src/hooks/useGroupChat.tsx:145-147 | a repeated UPDATE has the effect of one |
| GroupChat.DeleteRemovesExactly | src/hooks/useGroupChat.tsx:160 | every message with the id is removed, every other keeps its multiplicity, survivors keep their relative order |
| GroupChat.DeleteIdempotent | src/hooks/useGroupChat.tsx:160 | a repeated DELETE has the effect of one |
| GroupChat.DeleteAbsentIsIdentity | src/hooks/useGroupChat.tsx:160 | a DELETE for an absent id leaves the list identical |
| GroupChat.DeleteAfterUpdate | src/hooks/useGroupChat.tsx:143-161 | DELETE after UPDATE of the same id ends as if the UPDATE never arrived |
| GroupChat.DeleteAfterInsert | src/hooks/useGroupChat.tsx:130-161 | DELETE after INSERT of the same id removes the inserted copy as well |
| GroupChat.GroupFilePath | src/hooks/useGroupChat.tsx:94-96 | the upload key starts with `group-files/<groupId>/` |
| GroupChat.GroupFilePathKeepsExt | src/hooks/useGroupChat.tsx:94-96 | the stored key has the picked file's extension (text after the last '.', or the whole name) |
| GroupChat.GroupChatHook.constructor | src/hooks/useGroupChat.tsx:27-29 | the hook starts with no messages and loading |
| GroupChat.GroupChatHook.FetchMessages | src/hooks/useGroupChat.tsx:32-62 | no group: nothing changes; otherwise the list becomes the rows (`[]` for null), is kept on a query error, and loading ends |
| GroupChat.GroupChatHook.OnInsert | src/hooks/useGroupChat.tsx:130-133 | the list becomes `Inserted(old list, message)` |
| GroupChat.GroupChatHook.OnUpdate | src/hooks/useGroupChat.tsx:143-147 | the list becomes `Updated(old list, message)` |
| GroupChat.GroupChatHook.OnDelete | src/hooks/useGroupChat.tsx:158-161 | the list becomes `Deleted(old list, id)` |
| GroupChat.GroupChatHook.SendMessage | src/hooks/useGroupChat.tsx:64-90 | no user or no group: error and no insert; otherwise one row with type defaulting to text, and the insert's outcome |
| GroupChat.GroupChatHook.UploadFile | src/hooks/useGroupChat.tsx:92-113 | the file goes under its group path; the reply is that path's public URL or "Failed to upload file" |
| Chat.ListOf | src/hooks/useChat.tsx:197 | the stored list of the conversation, or the empty list for an absent key |
| Chat.WithInserted | src/hooks/useChat.tsx:192-201 | the message is appended to its own conversation's list (created when absent); every other key is unchanged |
| Chat.WithFetched | src/hooks/useChat.tsx:83-86 | the fetched key holds the rows (`[]` for null); every other key is unchanged |
| Chat.InsertAppendsToOwnConversation | src/hooks/useChat.tsx:194-200 | the conversation's list grows by exactly one and keeps its old entries as a prefix, duplicates included |
| Chat.InsertIntoAbsentConversation | src/hooks/useChat.tsx:197 | a first message for a conversation yields a one-element list |
| Chat.InsertsCommute | src/hooks/useChat.tsx:194-200 | inserts into two different conversations commute |
| Chat.FetchOverridesInsert | src/hooks/useChat.tsx:83-86 | a fetch discards earlier inserts into its conversation |
| Chat.ParticipantRows | src/hooks/useChat.tsx:110-113 | creator first, then the given ids in order, one row more than there are ids, all in the new conversation |
| Chat.ChatHook.constructor | src/hooks/useChat.tsx:40-42 | no conversations, an empty message map, loading |
| Chat.ChatHook.FetchConversations | src/hooks/useChat.tsx:46-68 | no user: nothing changes; otherwise rows replace the list unless the query failed, and loading ends |
| Chat.ChatHook.FetchMessages | src/hooks/useChat.tsx:70-90 | the map becomes `WithFetched` on success and is kept on a query error |
| Chat.ChatHook.OnInsert | src/hooks/useChat.tsx:192-201 | the map becomes `WithInserted(old map, message)` |
| Chat.ChatHook.CreateConversation | src/hooks/useChat.tsx:92-132 | no user: no call; otherwise conversation insert, participant rows, refresh, with "Failed to create conversation" at each failing step |
| Chat.ChatHook.SendMessage | src/hooks/useChat.tsx:134-160 | no user: no insert; the message type defaults to 'text'; the outcome follows the insert |
| Files.GetFileType | src/hooks/useFiles.tsx:78-85 | image/ video/ audio/ prefixes first, then 'pdf', 'document' or 'presentation' anywhere gives document, else other; each case is an iff |
| Files.MediaPrefixWins | src/hooks/useFiles.tsx:80-83 | a media prefix wins over a document keyword later in the type |
| Files.PdfTypeIsDocument | src/hooks/useFiles.tsx:83 | a non-media type naming "pdf" anywhere is a document |
| Files.LibraryFilePath | src/hooks/useFiles.tsx:67-69 | the key starts with `lecture-files/` |
| Files.LibraryFilePathKeepsExt | src/hooks/useFiles.tsx:67-69 | the stored key keeps the picked file's extension |
| Files.NewDownloadCount | src/hooks/useFiles.tsx:138 | the first cached row's count plus one, and 1 when the file is not in the local list |
| Files.NewDownloadCountPositive | src/hooks/useFiles.tsx:138 | with non-negative cached counts the new count is at least 1 |
| Files.DeleteOwnFileRows | src/hooks/useFiles.tsx:190-194 | no row with that id owned by that user remains, and no row is added |
| Files.DeleteOnlyOwnRows | src/hooks/useFiles.tsx:190-194 | the delete removes exactly the rows with that id and that owner; survivors keep their order |
| Files.FilesHook.constructor | src/hooks/useFiles.tsx:26-28 | no files and loading |
| Files.FilesHook.FetchFiles | src/hooks/useFiles.tsx:31-54 | rows replace the list (`[]` for null) unless the query failed; loading ends |
| Files.FilesHook.UploadFile | src/hooks/useFiles.tsx:56-120 | no user: no call; otherwise storage upload, row insert with the classified type, refresh; "Upload failed" at each failing step |
| Files.FilesHook.DownloadFile | src/hooks/useFiles.tsx:122-176 | no user: no call; otherwise download row, new count, storage download, then refresh only when the download worked |
| Files.FilesHook.DeleteFile | src/hooks/useFiles.tsx:178-214 | no user: no call; otherwise storage removal, then the owner-only row delete, then refresh; "Delete failed" at each failing step |
| Groups.WithMembership | src/hooks/useGroups.tsx:59-63 | row kept; member iff some membership has the user's id; role is the first matching membership's, and none iff not a member |
| Groups.DeriveMemberships | src/hooks/useGroups.tsx:59-63 | same number and order of groups, each row unchanged |
| Groups.NoUserNoMembership | src/hooks/useGroups.tsx:61-62 | with no user no group is joined and no role is set |
| Groups.FirstListingDecidesRole | src/hooks/useGroups.tsx:62 | of two listings of the user, the first decides the role |
| Groups.MembershipsIn | src/hooks/useGroups.tsx:49-52 | each membership the group query joins is a row of that group, and every row of that group is listed |
| Groups.JoinRows | src/hooks/useGroups.tsx:134-140 | the table grows by one row with role 'member' after the unchanged existing rows |
| Groups.LeaveRows | src/hooks/useGroups.tsx:166-170 | no row of that user in that group remains |
| Groups.LeaveRemovesExactly | src/hooks/useGroups.tsx:166-170 | exactly that user's rows in that group are removed, others kept in order |
| Groups.JoinMakesMember | src/hooks/useGroups.tsx:134-140 | after a join the next fetch shows the group as joined |
| Groups.LeaveEndsMembership | src/hooks/useGroups.tsx:166-170 | after a leave the next fetch shows the group as not joined and with no role |
| Groups.GroupsHook.constructor | src/hooks/useGroups.tsx:36-38 | no groups and loading |
| Groups.GroupsHook.FetchGroups | src/hooks/useGroups.tsx:41-76 | the list becomes the derivation over the rows unless the query failed; loading ends |
| Groups.GroupsHook.CreateGroup | src/hooks/useGroups.tsx:78-128 | no user: no call; group insert with `is_private` defaulting to false, the creator's 'admin' membership, refresh; "Creation failed" at each failing step |
| Groups.GroupsHook.JoinGroup | src/hooks/useGroups.tsx:130-160 | no user: no call; a 'member' row then refresh, or "Join failed" |
| Groups.GroupsHook.LeaveGroup | src/hooks/useGroups.tsx:162-190 | no user: no call; the user's rows of the group deleted then refresh, or "Leave failed" |
| Discussions.ExistingVote | src/hooks/useDiscussions.tsx:192-197 | a vote is found iff the lookup worked and exactly one row matches the pair, and it is that row |
| Discussions.SetVoteType | src/hooks/useDiscussions.tsx:201-204 | only the row with the id gets the new type; length and other rows are kept |
| Discussions.SetVoteTypeKeepsVoters | src/hooks/useDiscussions.tsx:201-204 | changing a type moves no vote to another discussion or user |
| Discussions.AfterVote | src/hooks/useDiscussions.tsx:199-217 | an existing vote is updated in place (row count kept); otherwise one row of the user's vote with the requested type is appended after the unchanged rows |
| Discussions.VoteKeepsOneRowPerVoter | src/hooks/useDiscussions.tsx:192-217 | a vote never gives a (discussion, user) pair a second row |
| Discussions.VoteRecordsRequestedType | src/hooks/useDiscussions.tsx:199-217 | after a successful vote the user has exactly one vote on the discussion, with the requested type |
| Discussions.FailedLookupDuplicatesVote | src/hooks/useDiscussions.tsx:192-197 | an existing vote whose lookup fails gets a second row |
| Discussions.CheckedAfterVote | src/hooks/useDiscussions.tsx:192-217 | with the lookup's error checked, a failed lookup writes nothing |
| Discussions.CheckedVoteKeepsOneRowPerVoter | src/hooks/useDiscussions.tsx:192-217 | with the lookup checked, no answer of the lookup gives a pair a second row |
| Discussions.DuplicateVotesGrow | src/hooks/useDiscussions.tsx:192-197 | two rows for a pair make `.single()` find none, so a third is inserted |
| Discussions.AttachmentPath | src/hooks/useDiscussions.tsx:84-86 | the key starts with `discussion-attachments/` |
| Discussions.AttachmentPathKeepsExt | src/hooks/useDiscussions.tsx:84-86 | the key keeps the picked file's extension |
| Discussions.AttachmentPaths | src/hooks/useDiscussions.tsx:83-86 | one key per attachment, in order |
| Discussions.Rendered | src/hooks/useDiscussions.tsx:240 | a present value renders as itself, an absent one as "undefined" |
| Discussions.ForwardNotice | src/hooks/useDiscussions.tsx:237-243 | the notification targets the recipient and links to the discussion |
| Discussions.Uploads | src/hooks/useDiscussions.tsx:88-90 | one upload to the `lecture-files` bucket per path, in order |
| Discussions.Notices | src/hooks/useDiscussions.tsx:236-244 | one notification per recipient, in order |
| Discussions.FetchReplies | src/hooks/useDiscussions.tsx:133-150 | the rows, `[]` for null, and `[]` on a query error |
| Discussions.DiscussionsHook.constructor | src/hooks/useDiscussions.tsx:39-41 | no discussions and loading |
| Discussions.DiscussionsHook.FetchDiscussions | src/hooks/useDiscussions.tsx:44-67 | rows replace the list unless the query failed; loading ends |
| Discussions.DiscussionsHook.CreateDiscussion | src/hooks/useDiscussions.tsx:69-131 | no user: no call; uploads in order up to the first failure ("Creation failed"); on success the row carries the URLs in upload order, or null for none |
| Discussions.DiscussionsHook.CreateReply | src/hooks/useDiscussions.tsx:152-181 | no user: no insert; one reply row; "Reply failed" when the insert fails |
| Discussions.DiscussionsHook.VoteOnDiscussion | src/hooks/useDiscussions.tsx:187-226 | no user: no call; update of the found vote or insert of a new one, then refresh, or "Vote failed" |
| Discussions.DiscussionsHook.ForwardDiscussion | src/hooks/useDiscussions.tsx:228-261 | no user: no call; an id not in the local list gives "Discussion not found"; otherwise one notification per recipient in order |
| CreateConversation.WithoutUser | src/components/CreateConversation.tsx:79-81 | no profile with the removed user id remains |
| CreateConversation.WithoutUserKeepsOthers | src/components/CreateConversation.tsx:80 | exactly the profiles with that id are removed, the others kept in order |
| CreateConversation.WithoutUserKeepsDistinct | src/components/CreateConversation.tsx:80 | removal keeps the selection free of duplicate user ids |
| CreateConversation.Participants | src/components/CreateConversation.tsx:118-124 | the creator first, then each selected user in selection order, all in the new conversation |
| CreateConversation.ParticipantsDistinct | src/components/CreateConversation.tsx:118-124 | with a signed-in creator left out of the search, every participant appears once |
| CreateConversation.ConversationForm.constructor | src/components/CreateConversation.tsx:29-35 | an empty form; no duplicate user ids |
| CreateConversation.ConversationForm.SearchUsers | src/components/CreateConversation.tsx:37-64 | a blank query clears the results without a call; otherwise one name search excluding the user, rows kept on error |
| CreateConversation.ConversationForm.HandleSearch | src/components/CreateConversation.tsx:66-69 | the query field takes the text, then the search runs |
| CreateConversation.ConversationForm.AddUser | src/components/CreateConversation.tsx:71-77 | added iff no selected profile has that user id; then appended with search cleared, else nothing changes; no duplicates kept |
| CreateConversation.ConversationForm.RemoveUser | src/components/CreateConversation.tsx:79-81 | the selection becomes `WithoutUser`; no duplicates kept |
| CreateConversation.ConversationForm.CreateConversation | src/components/CreateConversation.tsx:83-148 | empty selection, or a group with a blank name, refused before any call; name null for direct chats; participants as above; the id handed on only when both inserts work |
| CreateDiscussion.WithoutTag | src/components/CreateDiscussion.tsx:70-74 | the removed tag no longer occurs |
| CreateDiscussion.WithoutTagKeepsOthers | src/components/CreateDiscussion.tsx:73 | exactly that tag is removed, others kept in order, well-formed tags stay well formed |
| CreateDiscussion.WithoutIndex | src/components/CreateDiscussion.tsx:94-96 | an index in range is dropped (length one less, others shifted); any other index changes nothing |
| CreateDiscussion.DiscussionForm.constructor | src/components/CreateDiscussion.tsx:21-29 | an empty form with well-formed tags |
| CreateDiscussion.DiscussionForm.AddTag | src/components/CreateDiscussion.tsx:60-68 | added iff the trimmed input is non-empty and new; then appended and input cleared, else nothing changes; tags stay trimmed, non-empty, unrepeated |
| CreateDiscussion.DiscussionForm.RemoveTag | src/components/CreateDiscussion.tsx:70-75 | the tags become `WithoutTag`; still well formed |
| CreateDiscussion.DiscussionForm.HandleFileUpload | src/components/CreateDiscussion.tsx:77-92 | allowed files (image/ or application/pdf) appended after the old ones in order; warning iff some file was dropped |
| CreateDiscussion.DiscussionForm.RemoveAttachment | src/components/CreateDiscussion.tsx:94-96 | the list becomes `WithoutIndex` |
| CreateDiscussion.DiscussionForm.HandleSubmit | src/components/CreateDiscussion.tsx:31-58 | needs a user and non-blank title and content; the untrimmed form goes out with attachments or undefined; success only on `{ success }` |
| UploadPage.ParseTags | src/pages/Upload.tsx:31 | the comma-separated pieces, each trimmed, with the empty ones dropped, in order |
| UploadPage.ParsedTagsAreClean | src/pages/Upload.tsx:31 | every parsed tag is non-empty, trimmed and comma-free |
| UploadPage.ParseJoinedTags | src/pages/Upload.tsx:31 | tags typed as their comma-joined list are read back unchanged, including no tags from an empty field |
| UploadPage.ParseTagsDropsBlanks | src/pages/Upload.tsx:31 | an empty piece between two commas is dropped |
| Common.NonEmptyOrNone | src/pages/Upload.tsx:34-36 | absent exactly when the string or list is empty, else the value itself (the same rule gives the attachment fields of the discussion form and of the discussion hook) |
| UploadPage.FormRequest | src/pages/Upload.tsx:32-38 | the title and file as given; description and course absent exactly when empty; the parsed tags absent exactly when none remains |
| UploadPage.UploadForm.constructor | src/pages/Upload.tsx:16-23 | empty fields, no file |
| UploadPage.UploadForm.HandleUpload | src/pages/Upload.tsx:26-53 | no file or an empty (untrimmed) title: nothing; empty description/course become undefined; all four fields and the file reset only on success |
| ChatPage.ShowAvatar | src/pages/Chat.tsx:256-260 | holds for a message that is not the user's own and is first, or follows a message of another author |
| ChatPage.ShowAuthor | src/pages/Chat.tsx:261 | holds for a message that is not the user's own and shows the avatar |
| ChatPage.ShowAuthorIsShowAvatar | src/pages/Chat.tsx:256-261 | the author line shows exactly where the avatar does |
| ChatPage.RunStartsWithAvatar | src/pages/Chat.tsx:256-260 | every other-author message lies in a same-author run whose first message shows the avatar |
| ChatPage.AvatarOnlyAtRunStart | src/pages/Chat.tsx:257-260 | a message following one by the same author shows no avatar |
| ChatPage.OtherParticipant | src/pages/Chat.tsx:71-73 | none iff every participant is the current user |
| ChatPage.ConversationName | src/pages/Chat.tsx:66-75 | a group: its name or 'Group Chat'; a direct chat: the other participant's name or 'Unknown User' |
| ChatPage.DirectChatNamedAfterOther | src/pages/Chat.tsx:71-74 | a direct chat is named after the first participant who is not the user |
| ChatPage.ConversationAvatar | src/pages/Chat.tsx:77-86 | none for groups and when there is no other participant or no profile; otherwise the other participant's profile avatar |
| ChatPage.CurrentMessages | src/pages/Chat.tsx:88 | `[]` with no selection or an absent key, else the key's list |
| ChatPage.InsertShownInOpenConversation | src/pages/Chat.tsx:88 | an INSERT for the open conversation is shown last; one for another conversation changes nothing shown |
| ChatPage.ChatPageState.constructor | src/pages/Chat.tsx:25-27 | nothing selected, empty input |
| ChatPage.ChatPageState.HandleSendMessage | src/pages/Chat.tsx:44-51 | a blank input or no open conversation sends nothing; else the untrimmed input goes out and is cleared only on success |
| ChatPage.ChatPageState.HandleConversationCreated | src/pages/Chat.tsx:60-64 | the form closes, the conversation opens and its messages are fetched |
| Dashboard.Ago | src/components/Dashboard.tsx:76-78 | the count and a space first; the unit then ends in "s ago" when the count is above one and in " ago" otherwise |
| Dashboard.FormatTimeAgo | src/components/Dashboard.tsx:71-80 | under an hour (future included) "Just now"; under a day whole hours; otherwise whole days, `floor(floor(ms/h)/24)` being `floor(ms/day)` |
| Dashboard.DaysFromHours | src/components/Dashboard.tsx:74-78 | whole days counted through whole hours are whole days |
| Dashboard.DivUnique | src/components/Dashboard.tsx:74 | floor division is fixed by a quotient and a remainder in range |
| Dashboard.SingularExactlyForOne | src/components/Dashboard.tsx:77-79 | one hour and one day are singular, and no age of an hour or more reads "Just now" |
| Dashboard.FirstChars | src/components/Dashboard.tsx:83 | at most one character per word |
| Dashboard.GetInitials | src/components/Dashboard.tsx:82-84 | at most two characters |
| Dashboard.InitialsOfAnyName | src/components/Dashboard.tsx:82-84 | for every name: the capitalised first characters of the first two non-empty words, fewer when there are fewer words |
| Dashboard.FirstCharsOfWords | src/components/Dashboard.tsx:83 | non-empty words give one first character each, in order |
| Dashboard.InitialsOfTwoNames | src/components/Dashboard.tsx:83 | "First Last" gives the two capitalised first letters |
| Dashboard.FirstCharsSkipEmpty | src/components/Dashboard.tsx:83 | empty words (extra spaces) add no initial |
| Dashboard.GetActivityBadge | src/components/Dashboard.tsx:86-93 | high and medium have their styles; every other key gets the low style |
| Dashboard.Recent | src/components/Dashboard.tsx:32-35 | the prefix of length min(3, n), for the files and the discussions alike |
| Dashboard.ActiveGroups | src/components/Dashboard.tsx:38 | at most three groups, all joined and all from the list |
| Dashboard.ActiveGroupsAreFirstMembers | src/components/Dashboard.tsx:38 | a prefix of the joined groups in list order, fewer than three only when no more exist |
| LibraryPage.FileShown | src/pages/Library.tsx:93-95 | the title, the course when present, or one of the tags when present contains the term, ignoring case |
| LibraryPage.FilterFiles | src/pages/Library.tsx:91-96 | every listed file matches on title, course or a tag |
| LibraryPage.FilterFilesExactly | src/pages/Library.tsx:91-96 | listed iff it matches; order preserved |
| LibraryPage.EmptyTermListsAll | src/pages/Library.tsx:93 | the empty term lists every file |
| LibraryPage.SearchIgnoresTermCase | src/pages/Library.tsx:93-95 | the term's letter case does not change the result |
| LibraryPage.GetFileIcon | src/pages/Library.tsx:19-26 | image, video and audio have their icons; everything else the document icon |
| LibraryPage.IconOfStoredType | src/pages/Library.tsx:19-26 | of the five stored types only document and other share an icon |
| LibraryPage.VisibleTags | src/pages/Library.tsx:152 | at most the first three tags |
| LibraryPage.HandleDelete | src/pages/Library.tsx:38-55 | the delete is called iff the user owns the file, else the error is shown and nothing is called |
| LibraryPage.AllowedDeleteSparesOthers | src/pages/Library.tsx:39-48 | a delete the page allows removes no other user's row |
| GroupsPage.GroupShown | src/pages/Groups.tsx:24-25 | the name, or the description when present, contains the term, ignoring case |
| GroupsPage.FilterGroups | src/pages/Groups.tsx:23-26 | every listed group matches on name or description |
| GroupsPage.FilterGroupsExactly | src/pages/Groups.tsx:23-26 | listed iff it matches; an order-preserving subsequence |
| GroupsPage.EmptyTermListsAllGroups | src/pages/Groups.tsx:24 | the empty term lists every group |
| GroupsPage.GroupSearchIgnoresTermCase | src/pages/Groups.tsx:24-25 | the term's letter case does not change the result |
| GroupsPage.NoticeAsWritten | src/pages/Groups.tsx:32-46 | the notice as the handlers are written: the success notice, whatever the hook replied |
| GroupsPage.FailedCreateAnnouncedAsCreated | src/pages/Groups.tsx:32-46 | as written, a failed creation shows "Group created" |
| GroupsPage.Notice | src/pages/Groups.tsx:37-46 | the success notice on success, the error notice on failure |
| GroupsPage.NoticeReportsOutcome | src/pages/Groups.tsx:37-46 | the notice shown tells success from failure |
| GroupsPage.CreateOutcome | src/hooks/useGroups.tsx:120-127 | the create reply counts as success iff it carries a group |
| GroupsPage.GroupsPageState.constructor | src/pages/Groups.tsx:19-21 | empty search, not creating, no open group |
| GroupsPage.GroupsPageState.HandleCreateGroup | src/pages/Groups.tsx:28-50 | no user: nothing; else the fixed name and description are requested and creation ends; the notice follows the hook's reply, as corrected under Findings |
| GroupsPage.GroupsPageState.HandleJoinGroup | src/pages/Groups.tsx:52-68 | no user: nothing; else the join is requested; the notice follows the hook's reply, as corrected under Findings |
| GroupsPage.GroupsPageState.HandleLeaveGroup | src/pages/Groups.tsx:70-86 | no user: nothing; else the leave is requested; the notice follows the hook's reply, as corrected under Findings |
| GroupsPage.GroupsPageState.HandleOpenChat | src/pages/Groups.tsx:88-98 | a non-member is refused with "Join required" and the page is unchanged; a member's group opens |
| GroupsPage.GroupsPageState.CloseChat | src/pages/Groups.tsx:106 | the back button closes the chat |
| GroupsPage.ChatOpensOnlyForMembers | src/hooks/useGroups.tsx:59-63 | a listed group opens iff the user is among its memberships |
| DiscussionsPage.DiscussionShown | src/pages/Discussions.tsx:18-20 | the title, the content, or the author's name when present contains the term, ignoring case |
| DiscussionsPage.FilterDiscussions | src/pages/Discussions.tsx:17-21 | every listed discussion matches on title, content or author name |
| DiscussionsPage.FilterDiscussionsExactly | src/pages/Discussions.tsx:17-21 | listed iff it matches; an order-preserving subsequence |
| DiscussionsPage.EmptyTermListsAllDiscussions | src/pages/Discussions.tsx:18 | the empty term lists every discussion |
| DiscussionsPage.DiscussionSearchIgnoresTermCase | src/pages/Discussions.tsx:18-20 | the term's letter case does not change the result |
| DiscussionsPage.NoAuthorMatchesOnText | src/pages/Discussions.tsx:20 | without an author only title and content are searched |
| DiscussionsPage.DiscussionsPageState.constructor | src/pages/Discussions.tsx:14-15 | empty search, form hidden |
| DiscussionsPage.DiscussionsPageState.OpenCreateForm | src/pages/Discussions.tsx:37 | the form is shown |
| DiscussionsPage.DiscussionsPageState.CancelCreate | src/pages/Discussions.tsx:58 | the form is hidden |
| DiscussionsPage.DiscussionsPageState.HandleCreateSuccess | src/pages/Discussions.tsx:23-26 | the form is hidden and a refetch is requested |
| DiscussionCard.AvatarLetter | src/components/DiscussionCard.tsx:76 | the author's first letter, or 'U' |
| DiscussionCard.AuthorLabel | src/components/DiscussionCard.tsx:81 | the author's name, or 'Anonymous' |
| DiscussionCard.IconOf | src/components/DiscussionCard.tsx:112-116 | the PDF icon iff the URL contains '.pdf' |
| DiscussionCard.UploadedPdfShowsDocumentIcon | src/components/DiscussionCard.tsx:112-116 | an uploaded PDF attachment gets the PDF icon |
| DiscussionCard.DiscussionCardState.constructor | src/components/DiscussionCard.tsx:21-25 | replies hidden and empty, empty reply box |
| DiscussionCard.DiscussionCardState.HandleVote | src/components/DiscussionCard.tsx:27-30 | no user: no vote; else the vote is cast |
| DiscussionCard.DiscussionCardState.HandleShowReplies | src/components/DiscussionCard.tsx:32-40 | the list toggles; it is fetched iff it is opened while empty, so hiding never fetches |
| DiscussionCard.DiscussionCardState.HandleSubmitReply | src/components/DiscussionCard.tsx:42-67 | needs a user and a non-blank reply; sends it trimmed; clears the box and refetches only on success |
| DiscussionCard.SentReplyIsNotBlank | src/components/DiscussionCard.tsx:43-47 | a reply that passes the guard is sent non-empty and trimmed |
| ProfilePage.ProfileInitials | src/pages/Profile.tsx:19-26 | at most two characters; 'U' without a name |
| ProfilePage.ProfileInitialsOfTwoNames | src/pages/Profile.tsx:19-26 | "First Last" gives the two capitalised first letters |
| ProfilePage.AvatarPath | src/pages/Profile.tsx:42-44 | the key starts with `avatars/<userId>-` |
| ProfilePage.AvatarPathKeepsExt | src/pages/Profile.tsx:42-44 | the key keeps the picked image's extension |
| ProfilePage.HandleAvatarUpload | src/pages/Profile.tsx:28-77 | no file or user: nothing; over 5 MiB refused before any call (exactly 5 MiB accepted); upload with upsert, then the profile URL; reload only when both succeed |

## Left out

- Remote calls. The database, storage and RPC calls are not modelled; their answers are parameters. This covers query ordering, joins and row-level security, and what the rows contain.
- Realtime channels. Their lifecycle, the cleanup on unmount, and a fetch racing an event are not modelled. Each handler is one atomic step.
- The clock and randomness. `Date.now()`, `new Date()` and `Math.random()` are parameters, and dates are not rendered (`toLocaleDateString`).
- Dashboard.FormatTimeAgo: takes the age as whole milliseconds, so an unparsable date (`NaN`) is not modelled.
- Strings.Lower: maps ASCII letters only; JavaScript's Unicode case mapping is not modelled.
- Strings.Upper: maps ASCII letters only, like Strings.UpperChar. JavaScript's `toUpperCase` also maps other letters ("é" to "É") and can lengthen a string ("ß" to "SS"), and `slice(0, 2)` counts UTF-16 units. So Dashboard.GetInitials and ProfilePage.ProfileInitials match the code only for ASCII names.
- Dashboard.GetActivityBadge: does not model keys that JavaScript finds on the object's prototype (such as "constructor").
- Chat.ListOf: does not model prototype keys of the message object either.
- Discussions.DiscussionsHook.ForwardDiscussion: does not model the "Forward failed" reply. The RPC call's error is never checked, so only an exception from the client library, which is not modelled, can reach it.
- Discussions.VoteKeepsOneRowPerVoter: promises one row per pair only when the lookup succeeds. A failed lookup counts as "no vote", as in the code, and can create a duplicate row (see Findings).
- GroupsPage.GroupsPageState.HandleCreateGroup: gives the corrected notice (`GroupsPage.Notice`), not the one the code shows (see Findings).
- GroupsPage.GroupsPageState.HandleJoinGroup: gives the corrected notice, not the one the code shows (see Findings).
- GroupsPage.GroupsPageState.HandleLeaveGroup: gives the corrected notice, not the one the code shows (see Findings).
- Library `handleDownload` and the "File deleted" notice are not modelled. They only forward to the hook and show a notice.
- The hooks' own toasts are not modelled. These are the "Success" and "Error" notices that useChat, useGroupChat, useFiles, useGroups and useDiscussions show next to their return values. The pages' notices are modelled: the groups page's create, join, leave and join-required notices; the reply notice of a discussion card; the profile page's size, failure and success notices; the library's refusal to delete another user's file; the discussion form's warning about dropped files; and the conversation form's "Please select at least one user", "Please enter a group name" and "Failed to create conversation" notices, which `ConversationForm.CreateConversation` returns as its `error`. Other notices are left out, because the operations that show them return no message: the conversation form's "Failed to search users" notice and its "Group chat created!" or "Conversation started!" success notice; the discussion form's "Discussion created" and "Failed to create discussion." notices; and the library's "File deleted".
- Other UI is not modelled: DOM download links, `window.location.reload` (only the decision to reload is kept), scrolling and `console.error`.
- `fetchGroupMembers` (useGroups) is not modelled; it is a plain query with no client-side rule.
- Also not modelled:
  - the generated database types (only their enum values are reused);
  - the statistics hook;
  - the settings, index, footer and navigation pages;
  - the group chat component.
  They hold no client-side rule beyond markup and remote counts.
- `CreateConversation` renders initials with its own `getInitials`; that rendering is not modelled.

## Findings

| source | as written | input that shows it | evidently intended | confidence | as-written member | corrected member |
|---|---|---|---|---|---|---|
| src/pages/Groups.tsx:32-46 | the "Error" notice sits in a `catch`, but `createGroup` reports failure by returning `{ error: 'Creation failed' }` and never rejects, so "Group created" is shown whatever the hook answered. Join (56-66) and leave (74-84) behave the same way | `createGroup` returns `{ error: 'Creation failed' }` (for example, a failed membership insert) | show the success notice only on `{ success: true }`, and the error notice otherwise | medium, not executed | GroupsPage.FailedCreateAnnouncedAsCreated | GroupsPage.Notice |
| src/hooks/useDiscussions.tsx:192-197 | the `.single()` lookup's error is not checked, so a lookup that fails reads as "no vote yet" and a new vote row is inserted. The schema is not part of this model; a unique key on the pair would turn this into "Vote failed" | a user who already voted votes again while the lookup request fails | insert only when the lookup worked and found no vote | low, not executed | Discussions.FailedLookupDuplicatesVote | Discussions.CheckedAfterVote |

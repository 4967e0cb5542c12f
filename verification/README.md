# A verified model of PSD-IMS

PSD-IMS is a small messaging system. A server keeps tables of users, chats, memberships, messages and friendships, all
stamped with whole seconds. A client keeps a bounded copy of its chats and catches up by polling: it sends the stamps
up to which it has read, gets lists of what changed since its last poll, and fetches messages from a cursor on.
Messages have no ids, so everything the system promises rests on stamps.

This project states those promises and proves them, over every finite run of the service with any number of users,
clients and chats.

## How it is built

- **The tables and the handlers as functions.** `Tables` has one function per SQL statement, `Handlers` one per request
  handler, `Window` the bounded message list, `Replica` the client's copy and its operations. `System` makes them one
  state machine: its steps are clock ticks, the handlers, and the client operations login, poll, fetch, display and
  logout. A run is a list of such steps from the schema's initial content.
- **Invariants over every run.** `TableInvariant` and `SessionInvariant` hold what every handler and poll keeps;
  `Delivery`, `DoubleCheck`, `AdminSafety`, `Convergence`, `SmallChats`, `Pending` and `Friendship` each add one
  invariant with its proof for every step. `Requests` and `SessionLaws` say what each request and each operation of a
  client does, and when it is refused, without naming the statements that do it. `History` and `CopyHistory` read the
  history fields off the run, `HarmfulFetches` tells which empty replies matter, and `Guarantees` states the promises,
  in terms of the run itself.
- **Where a promise fails.** `CursorExactness`, `FalseCheck`, `LoopLoss`, `Counterexamples` and `EdgeCases` hold the
  exact conditions, the continuations in which things go wrong, and runs from the empty database.
- **The programs in place.** `LinkedList` is the circular doubly linked list on the heap; `ChatInfo` and `FriendMerge`
  are the chat and the friend list over it; `Persistence` and `Server` change the tables statement by statement;
  `Client` is the whole client, its chat list holding chats that hold two lists each. Every method is proved to compute
  what the functions say. `Peers` and `Refinement` prove that what they do together is a run of the state machine: all
  that anybody else does, other clients' logins, polls, fetches and new chats included; the client's own login, polls,
  fetches, displays and new chats; and its update loop with any of this going on between the turns. So the run theorems
  hold of them. The client is in place; the memory of the others is kept as the values that the functions speak of.
- **Two smaller programs.** `Shutdown` is the worker count and the condition variable under the signal handler, as
  interleaved steps. `Registry` is the allocation registry with its head and tail pointers.

## What is taken for granted

- A handler, and a client operation with the requests it makes, is one step, so a stamp and the write that uses it
  happen together. The source admits the concern (src/server/psd_ims_server.c:805).
- The clock never runs backwards and starts at 1 or later. A `sleep(1)` is one tick; a longer one is the same as more
  ticks before the request.
- A query without ORDER BY returns rows in insertion order, foreign keys are enforced, and AUTO_INCREMENT ids are
  positive and unused.
- Users stand for their names: NAME is unique and never changes. `login` in a handler is the user whose password was
  accepted.
- An allocator that is honest never hands out a block that is in use, and a realloc that returns NULL has left the old
  block alone. A C library whose `realloc(p, 0)` frees p and returns NULL is not covered: there the registry would go on
  listing a released block.
- User 1 is the System row, which has no VALID flag. That it is never a member is not assumed but proved.

## What turned out differently from what one expects of the code

- `get_list_messages` moves the cursor even when it returns nothing, and so a client that is up to date and asks again
  steps over the stamp that it asked with. `FetchSafeExactly` says when that does harm: unless the chat has messages
  for the client, or its cursor has not reached the stamp that the next message will get, or not passed the user's own
  join, the message that gets the stamp never arrives (`MessageLost`). It is the only way to miss one: of what its user
  can see below the cursor, a client has exactly the messages whose stamps its own session has not stepped over
  (`GapFree`).
- Nor can the double check be trusted then. A READ_TIME vouches for every message below it but those that some client
  of the chat has stepped over with a fetch that does harm (`DoubleCheckSound`); empty replies that do none, such as
  those of a member who has rejoined, leave it right (`DoubleCheckOfSafeFetches`). And after every harmful fetch the
  run can go on so that READ_TIME passes a message that was never delivered (`FalseCheckFollows`, `FalseDoubleCheck`).
  So the next fetch is harmless if and only if READ_TIME stays right, however the run goes on with harmless fetches
  (`DoubleCheckExactly`).
- The client's own update loop, one poll and one pass over the flagged chats every second, makes harmful fetches. A poll
  reports messages from the last poll's second on, so a message that was fetched in the second of its stamp is reported
  once more a second later; the fetch that follows finds nothing, and what is sent to the chat in the rest of that
  second never arrives (`LoopLoses`, `LoopLosesExample`).
- The screen draws the double check up to and including READ_TIME. Only the strict comparison is sound
  (`TickAtReadTime`).
- Polls apply joins before departures, so a full member list misses a joining member whose place is just being
  vacated (`FullListMissesMember`), and goes on missing him: the list is right about everybody else, and of him exactly
  when the last poll that told of him had room (`MembersConverge`, `RoundConvergesExactly`).
- The chat cursor makes polls overlook a chat that its user is invited to when he is in a newer one, until an empty
  reply has reset the cursor. When the chat is found at last, nothing flags messages that are older than the poll
  before (`LateUnflagged`), and until a newer one is sent nothing fetches them. That is the only gap: of a chat that
  was never fetched, and that its user had joined before the poll before it was found, the messages as old as that
  finding are not reported (`PendingComplete`, `PollThenFetchDelivers`). A chat that is found at the first poll after
  its user joined is flagged for everything he can see, whatever the cursor was, because the poll reports the join
  before the messages (`PolledFlagged`, `DiscoveredFlaggedExactly`).
- `psdims__user_unregister` leaves the chats of its user without an admin (`UnregisterExact`). Creating a chat with
  oneself would put two rows for one member in the table; only the client's friend check prevents it
  (`CreateChatUniqueExact`).
- The batch append counts fewer unread messages than appending one by one when the batch exceeds the window and skips
  unread messages (`BatchRefinesFold`).
- Names of attachment files clash when digits can move between the chat id and the stamp (`ClashExactly`).
- The shutdown never finishes when the signal interrupts a worker, or the listener from its critical section to
  pthread_create, or after any failed pthread_create, whose result nobody looks at (`ShutdownEndsExactly`); and a
  connection that was accepted but not counted when the signal came is served on a freed database
  (`WorkerAfterFreeExactly`).
- The registry's two counters drift apart with every successful realloc of a pointer that it does not know, such as
  NULL (`CountersAgreeExactly`).

## Model

| member | source | states |
|---|---|---|
| Guarantees.DoubleCheckSound | src/server/persistence.c:1725-1782 | for every READ_TIME v a chat had at any point of a run: each message stamped below v was handed to every active member who joined before it, rejoining members included, or some client of the chat asked with that very stamp as its cursor in a fetch that is not harmless, and got nothing |
| Guarantees.DoubleCheckOfSafeFetches | src/server/persistence.c:1725-1782 | while every fetch of the chat is harmless, every READ_TIME it had is right for every active member |
| FalseCheck.DoubleCheckExactly | src/server/persistence.c:1725-1782 | after a run whose fetches of the chat were all harmless, the next fetch is harmless if and only if no continuation with harmless fetches of the chat makes READ_TIME pass a message that an active member can see and that was never delivered to him |
| Guarantees.ClientTickSound | src/client/client_graphic_v2.c:495-506 | the same for the stamp a client shows ticks by, however stale its copy |
| Guarantees.MemberReadSound | src/server/persistence.c:1754-1761 | every message below a member's READ_MSG_TIME that he can see was handed to a client of his, or a client of his stepped over its stamp with a fetch that is not harmless, so that a tick at READ_TIME itself is right once all members have read beyond it |
| FalseCheck.FalseCheckFollows | src/server/persistence.c:1762-1768 | after every fetch of any run that is not harmless the run can go on, with harmless fetches of the chat alone, so that READ_TIME passes a message that an active member can see and that was never delivered to him |
| Counterexamples.TickAtReadTime | src/client/client_graphic_v2.c:506 | a run in which nobody has stepped over a stamp and a message stamped exactly READ_TIME is ticked and undelivered |
| Counterexamples.FalseDoubleCheck | src/server/persistence.c:791 | a run in which an overtaken cursor is reported and a message below READ_TIME was never delivered |
| Guarantees.DeliveredIsRecorded | src/client/psd_ims_client.c:54-113 | the record of deliveries that the invariants speak of holds every message of every accepted fetch of the run |
| Guarantees.ExactlyOnceInOrder | src/server/persistence.c:715-794 | in every run what a client was handed for a chat is in strictly rising stamp order, below the cursor, and each entry is a row of the chat's messages as it was sent: its text, stamp and file, and its sender unless that is the user himself; the window is its tail |
| History.SkippedExactly | src/server/persistence.c:763-791 | what a client is recorded to have skipped is exactly what its session, since its login, has asked with as cursor and got nothing |
| Guarantees.GapFree | src/client/psd_ims_client.c:54-113 | of the messages stamped between a member's join and his cursor, in every run, exactly those were not handed to the client whose stamps its own session has stepped over, and exactly those whose stamps it has stepped over with harmful fetches |
| CursorExactness.FetchSafeExactly | src/server/persistence.c:763-791 | a fetch is harmless if and only if the guard holds: otherwise some later sends and ticks make the client miss a visible message that it had not skipped before, and with it none do |
| HarmfulFetches.NeverSeenAfter | src/server/persistence.c:763-791 | of the stamp that a harmless fetch has stepped over no message ever comes that its user can see, however the run goes on |
| HarmfulFetches.SkipIsHarm | src/server/persistence.c:763-791 | a session has stepped over the stamp of a message that its user can see if and only if it did so in a fetch that is not harmless |
| Counterexamples.MessageLost | src/server/persistence.c:791 | a run in which a member's client asks twice in a second and never gets the message he sends next |
| LoopLoss.NextUpdateOvertakes | src/client/client_graphic_v2.c:994-997 | after an update that fetched a message in the second of its stamp, with nothing sent since, the update a second later finds the chat flagged and is about to make a harmful fetch |
| LoopLoss.LoopLoses | src/client/client_graphic_v2.c:994-997 | from every such state two turns of the update loop make the client miss a message sent after them in the same second |
| LoopLoss.LoopLosesExample | src/server/persistence.c:763-791 | the smallest such run, with one member and one chat |
| Guarantees.CacheAgreesWithLog | src/client/chats.c:203-230 | without a rejoin the stored messages show, text, file, stamp and sender, the last MAX_MESSAGES of the server log between join and cursor, without the stamps that the session has stepped over |
| Guarantees.ReceiveNeverFails | src/client/psd_ims_client.c:94-101 | in every run the window accepts the whole reply of any accepted fetch |
| Guarantees.UnreadConservation | src/client/chats.c:191-227 | in every run the unread counter is the number of messages above the read stamp among those that the steps have put in the window since the chat was last displayed, or since the client came to hold it; and among those stored while no more than MAX_MESSAGES came since then |
| CopyHistory.UnreadExactly | src/client/chats.c:191-227 | what a copy remembers of its appends and its log since the last display is what the steps of the run did since then; and its read stamp is the cursor of that display, or READ_MSG_TIME as of the request that made the copy |
| CopyHistory.MadeExactly | src/client/psd_ims_client.c:738-803 | a copy's join is that of the member's row when its session came to hold the chat, at a login or a poll, and it is to have everything reported exactly when he had joined since the poll before |
| CopyHistory.RefusedExactly | src/client/chat_members.c:115-139 | the members that a copy has no room for are exactly those of whom the last poll of its session with a word about them said that they joined, when the list was full |
| Guarantees.MembersConverge | src/client/psd_ims_client.c:495-540 | in every run a client's copy agrees with every row that last changed before its last poll: the list holds the user if and only if he is active and the last poll that told of him had room for him; and it names the admin that was appointed before the poll unless there was no room for him |
| Guarantees.RoomForAll | src/client/chat_members.c:115-139 | in every run nobody is refused in a chat that never had more than MAX_MEMBERS different members, so that the list of such a chat is right without exception |
| SmallChats.RoomyAlways | src/client/chat_members.c:115-139 | in every run no copy lacks room for a member of a chat that never had more than MAX_MEMBERS different ones |
| Convergence.RoundConvergesExactly | src/client/psd_ims_client.c:495-524 | after a poll the member list is exactly the active members if and only if the old list and the reported joins fit together and everybody refused before has left or is reported again |
| Convergence.RoundKnowsAll | src/client/psd_ims_client.c:495-524 | after a poll the members listed and the members refused together are exactly the active ones |
| Convergence.RoundAdmin | src/client/chats.c:270-290 | after a poll the copy names the admin of a safe chat, because joins and departures are applied before the admin change, unless the list had no room for him |
| EdgeCases.FullListMissesMember | src/client/psd_ims_client.c:495-524 | a run with a full chat in which one member is removed and one joins between two polls: the list misses the new member |
| RoundLemmas.NewChatMembersComplete | src/server/persistence.c:657-713 | filtering a new chat's members by the cursor that selected the chat drops no active member |
| RoundLemmas.NotificationsAreFacts | src/server/persistence.c:1785-2111 | each notification entry is about a chat of the user and tells what holds in the tables when it is sent: who is a member and who is not, the admin, the read time, and that there is a message that he can see |
| RoundLemmas.ApplyEventsExact | src/client/psd_ims_client.c:495-571 | a round gives each held chat exactly its own entries in order, and each found chat a copy that agrees with the tables |
| SessionLaws.PollLaw | src/client/psd_ims_client.c:428-578 | an accepted poll leaves the read stamps of all chats in the tables; the client then has the time of the poll and the friends made since the poll before; of each held chat it shows the READ_TIME of the tables, whether that has gone up or down, and flags it when there is a message to see since; and found chats are as in the tables |
| SessionLaws.SyncLaw | src/server/persistence.c:1725-1782 | after the sync loop, in whatever order the chats are named, exactly the user's rows have what he has told, never less than before, and a chat has his stamp as READ_TIME exactly if he has told of it and no active member has read less |
| CopyHistory.TickExactly | src/client/psd_ims_client.c:559-570 | in every run the stamp that a client draws ticks by is the chat's READ_TIME as of the session's last poll, or as of the later request that made the copy |
| SessionLaws.LoginLaw | src/client/psd_ims_client.c:337-421 | a login fills the client with the time, the friends, every chat that the user is in, while there is room, and the largest creation time of them |
| SessionLaws.FetchAccepted | src/server/psd_ims_server.c:566-597 | a fetch is accepted exactly for an active member who is a valid user |
| SessionLaws.FetchLaw | src/client/psd_ims_client.c:54-113 | an accepted fetch hands over, in stamp order, exactly the messages from the cursor on that the user can see, moves the cursor behind the last of them, or one further if there are none, and clears the flag |
| Guarantees.AdminIsActiveMember | src/server/psd_ims_server.c:840-1079 | in every run there is one row per user and chat, a chat is VALID exactly while it has an active member, and its admin is one, and was when he was appointed, unless an admin unregistered |
| Requests.UnregisterLaw | src/server/psd_ims_server.c:340-379 | unregistering succeeds exactly for a valid user; the valid users and the active members then are the old ones without him, all his rows are closed, and nothing else has changed |
| Requests.GoneForGood | src/server/persistence.c:269-304 | whatever happens after that, the user stays invalid, is in no chat and in no friend list, and no session of his logs in, polls or fetches |
| Requests.CreateChatLaw | src/server/psd_ims_server.c:840-887 | creating succeeds exactly for a valid user and a valid member, and leaves a new valid chat of the creator with the two rows; with an unknown member it leaves the chat with its creator alone |
| Requests.AddMemberLaw | src/server/psd_ims_server.c:894-965 | a member is added exactly when the admin of a valid chat adds a valid friend of his who is not in it; exactly he has joined then, now, with a new row or with his old one |
| Requests.RemoveMemberLaw | src/server/psd_ims_server.c:972-1028 | a member is removed exactly when the admin of a valid chat removes another valid user who is in it; exactly he has left then, now |
| Requests.QuitLaw | src/server/psd_ims_server.c:1035-1079 | leaving succeeds exactly for a valid user in a valid chat; exactly he has left then; the chat stays valid exactly if somebody remains; if the admin left, the user of the first active row is the admin, appointed now, and otherwise admin and appointment stay |
| AdminSafety.QuitSafe | src/server/psd_ims_server.c:1035-1079 | leaving keeps a chat safe and an accepted request is never refused for user 1 |
| AdminSafety.UnregisterExact | src/server/persistence.c:797-827 | unregistering keeps a chat safe if and only if the user is not the admin of it while it is valid |
| AdminSafety.CreateChatUniqueExact | src/server/psd_ims_server.c:840-887 | the handler keeps one row per user and chat if and only if member and creator differ |
| TableInvariant.CreateChatStep | src/server/psd_ims_server.c:840-887 | creating a chat with another user keeps the table invariant, and every row that was there |
| SessionInvariant.ServerMoves | src/server/psd_ims_server.c:302-1262 | every handler keeps the table invariant, leaves rows in place, stamps what it changes with the present and gives messages stamps that are still free |
| SessionInvariant.BaseAlways | src/server/psd_ims_server.c:302-1262 | the table invariant and the sessions' invariant hold in every run |
| Handlers.FirstFree | src/server/psd_ims_server.c:1115-1124 | the sleeping loop ends at the first second in which the chat has no message |
| Guarantees.PendingComplete | src/client/psd_ims_client.c:545-558 | in every run, in every chat that a client holds, a visible message that was not fetched, is older than the last poll, and that the polls have reported is flagged |
| Pending.PolledFlagged | src/server/persistence.c:1785-1835 | after a poll every visible undelivered message that the polls have reported is flagged, whatever its stamp |
| Guarantees.PollThenFetchDelivers | src/client/psd_ims_client.c:657-683 | from any reachable state one poll and one pass over the chats leave the client, in every chat that it holds, with exactly those visible messages that the polls have reported and whose stamps its session has not stepped over |
| Pending.FoundFlagged | src/client/psd_ims_client.c:495-571 | a chat found in a round is flagged exactly when an entry that reaches its new copy says that it has messages: any entry if the chat is not older than the chat cursor, and otherwise one after the first entry for an unknown chat |
| Pending.DiscoveredFlaggedExactly | src/server/persistence.c:1785-1835 | of a chat found at a poll everything visible is flagged if and only if there is nothing to see or such an entry; and the poll sends it exactly when something visible is at least as new as the poll before |
| SessionLaws.FoundExactly | src/client/psd_ims_client.c:738-803 | a poll finds a chat that its user is in exactly when the chat is not older than the chat cursor, or a first request has found nothing and so reset the cursor and a second one follows; while there is room for it |
| EdgeCases.LateUnflagged | src/client/psd_ims_client.c:738-803 | a run in which a chat is found late, with a visible, undelivered and unflagged message that is older than the last poll |
| Guarantees.ReadNeverDecreases | src/server/persistence.c:1754-1761 | in every run each row keeps its place and its READ_MSG_TIME never decreases |
| ReadProgress.ReadTimeReachesMinimum | src/server/persistence.c:1754-1768 | when every active member re-reports once in any order, READ_TIME is the minimum of their stamps |
| Friendship.FriendsAlways | src/server/psd_ims_server.c:1136-1262 | in every run no self-pairs, at most one request and one friendship per ordered pair, and no friendship beside a request of the same order |
| Friendship.FriendListExact | src/server/persistence.c:594-655 | the friend list from the beginning is exactly the valid befriended users and symmetric among valid users |
| Friendship.FriendListsFollow | src/client/psd_ims_client.c:483-492 | in every run the friend list of a client holds friends of its user only, each once, and every valid one befriended before its last poll, unless the list is full |
| Friendship.CreateAmongFriends | src/client/psd_ims_client.c:865-898 | in every such state a request for a new chat changes anything exactly for a valid user and a name of his client's list, who is a friend of his; the chat then has the two as members, or its creator alone if the friend has unregistered |
| Tables.SelectFriends | src/server/persistence.c:594-655 | who is in the reply: the valid users other than oneself with a friendship row since the stamp |
| Window.BatchExact | src/client/chats.c:203-230 | the batch append succeeds if and only if the messages to keep have distinct stamps, and then keeps the last max of old ++ batch |
| Window.BatchStops | src/client/chats.c:203-230 | when it fails it leaves what it was to keep up to the first repeated stamp: the rollback takes nothing back |
| Window.AddOneExact | src/client/chats.c:179-196 | one message is refused exactly when its stamp is among those that stay, the oldest being dropped all the same |
| Window.BatchRefinesFold | src/client/chats.c:179-230 | for any batch of fresh distinct stamps the batch form leaves the same window as one-by-one appends, and the same unread count exactly when no skipped message was unread |
| Window.AddEachExact | src/client/chats.c:179-196 | appending one by one leaves the last max of old ++ batch and counts every unread message |
| Attachments.PathInjective | src/server/psd_ims_server.c:50-51 | with stamps of equally many digits the file name determines chat and stamp |
| Attachments.ClashExactly | src/client/psd_ims_client.h:112-116 | two names agree if and only if digits can move from one stamp to the end of the other chat id |
| Attachments.ClashExample | src/server/psd_ims_server.c:50-51 | chat 1 at 11 and chat 11 at 1 share a name |
| Attachments.NoSharedFile | src/server/persistence.c:899-925 | in every run between 2001 and 2286 no two messages share a file name |
| LinkedList.List.constructor | src/common/list.c:74-105 | the empty ring |
| LinkedList.List.FindNode | src/common/list.c:55-67 | the first matching node, or null if none matches |
| LinkedList.List.NodeAdd | src/common/list.c:45-53 | the new ring is the old one with the node before the ghost node, and every item stays with its node |
| LinkedList.List.AddItem | src/common/list.c:151-185 | appends exactly when there is room and no equal item |
| LinkedList.List.DeleteNode | src/common/list.c:36-43 | the new ring is the old one without the node, and every other item stays with its node |
| LinkedList.List.FindItem | src/common/list.c:138-148 | the first matching item |
| LinkedList.List.DeleteFirst | src/common/list.c:195-204 | drops the first n items, or all |
| LinkedList.List.DeleteLast | src/common/list.c:207-216 | drops the last n items, or all |
| LinkedList.List.Free | src/common/list.c:108-125 | deletes every node and ends |
| LinkedList.List.Forward | src/common/list.h:62-64 | the iterator meets the items in order |
| LinkedList.List.Backward | src/common/list.h:65 | the backward iterator meets them in reverse order |
| ChatInfo.Chat.AddMessage | src/client/chats.c:179-196 | in place what the window function says |
| ChatInfo.Chat.AddMessages | src/client/chats.c:203-230 | in place what the batch function says, with the rollback that deletes nothing |
| ChatInfo.Chat.PushMessage | src/client/messages.c:116-171 | a message is stored when there is room and its stamp is new |
| ChatInfo.Chat.DelFirstMessages | src/client/messages.c:174-178 | drops the oldest messages |
| ChatInfo.Chat.RecvMessages | src/client/psd_ims_client.c:54-113 | stores a reply and moves the cursor, or refuses and keeps cursor and flag |
| ChatInfo.LocalizeRows | src/client/psd_ims_client.c:84-91 | the reply as client messages: each row's text, stamp and file, and its sender unless that is the user himself |
| ChatInfo.Chat.ClearUnread | src/client/chats.h:91-93 | resets the counter and moves the read stamp to the cursor when there is a message to show |
| ChatInfo.Chat.AddMember | src/client/chats.c:237-247 | adds a new name exactly when the list has room |
| ChatInfo.Chat.DelMember | src/client/chats.c:253-263 | removes the name, failing exactly when it is absent |
| ChatInfo.Chat.ChangeAdmin | src/client/chats.c:270-290 | changes the admin exactly when the new one is in the list |
| FriendMerge.Friends.AddFriend | src/client/friends.c:115-145 | appends exactly when there is room and the name is new |
| FriendMerge.Friends.DelFriend | src/client/friends.c:151-162 | removes the first friend of the name |
| FriendMerge.Friends.FindFriend | src/client/friends.c:169-172 | finds exactly the known names |
| FriendMerge.Friends.Rollback | src/client/psd_ims_client.c:837-845 | undoing i additions restores the old list in its old order and never reaches the critical branch |
| FriendMerge.Friends.RecvFriends | src/client/psd_ims_client.c:830-851 | all of the batch, exactly when it fits without a repeated name, or the old list in its old order |
| Persistence.Database.UpdateSync | src/server/persistence.c:1725-1782 | the two statements row by row, the second reading what the first wrote |
| Persistence.Database.RecoverUserChat | src/server/persistence.c:1305-1338 | stamps the matching rows and leaves the others and every READ_MSG_TIME alone |
| Persistence.Database.DelUserChat | src/server/persistence.c:1341-1373 | closes the matching rows and no other |
| Persistence.Database.DelUserAllChats | src/server/persistence.c:797-827 | closes every row of the user, again if it was closed before |
| AdminSafety.AddUserActive | src/server/persistence.c:1200-1234 | an accepted insert makes this user an active member of this chat and changes no other membership |
| TableInvariant.DelChatStep | src/server/persistence.c:1276-1302 | invalidating a chat without active members makes exactly this chat not exist, leaves the admins and every other table alone, and keeps the table invariant, by which only valid chats have active members |
| TableInvariant.ChangeAdminStep | src/server/persistence.c:1376-1408 | handing a chat over makes this user its one admin from now on, changes no other chat and no other table, and keeps the table invariant |
| Friendship.AcceptOk | src/server/psd_ims_server.c:1186-1222 | accepting succeeds exactly for a valid user's open request, makes the two friends from now on, closes that request, and changes no other row |
| Friendship.DeclineOk | src/server/psd_ims_server.c:1228-1262 | declining succeeds exactly for a valid user's open request, closes it, and changes no other row |
| Friendship.RequestOk | src/server/psd_ims_server.c:1136-1179 | a request is refused exactly for a user that is not valid, for oneself, for a friend and when it is open already; otherwise it is open from now on, and no other row changes |
| TableInvariant.SendMessageStep | src/server/psd_ims_server.c:1086-1132 | sending succeeds exactly for an active member who is a valid user, and then adds his message, with its text and file and the first free stamp of the chat, behind every older one, and else changes nothing; the table invariant is kept, so that the stamps of a chat rise |
| Tables.FirstUser | src/server/persistence.c:1485-1524 | the successor is the first active member in table order |
| Tables.LastStamp | src/server/persistence.c:763-788 | the running maximum bounds every row and is one of them or the floor |
| Persistence.Database.GetListMessages | src/server/persistence.c:715-794 | the visible messages from the cursor on and the running maximum plus one |
| Persistence.Database.GetListChats | src/server/persistence.c:830-897 | one entry per active membership in a new enough chat, and the maximum creation time, from 0 |
| Persistence.Database.GetNotifs | src/server/persistence.c:1785-2111 | the lists of one poll |
| Handlers.AddedEvents | src/server/persistence.c:1943-1998 | which joins a poll reports: active rows created since, in the user's chats |
| Handlers.RemovedEvents | src/server/persistence.c:2001-2054 | which departures it reports |
| Handlers.AdminEvents | src/server/persistence.c:2057-2111 | which admins it reports |
| Handlers.MessageEvents | src/server/persistence.c:1785-1835 | which chats it reports messages for |
| Handlers.ReadTimeEvents | src/server/persistence.c:1838-1883 | which read times it reports |
| Replica.MemberNames | src/server/persistence.c:657-713 | the active members that joined since |
| Server.Service.UserUnregister | src/server/psd_ims_server.c:340-379 | invalidates the user and closes his memberships |
| TableInvariant.RegisterStep | src/server/psd_ims_server.c:302-333 | registering succeeds exactly for an unused positive id, makes exactly this user valid, changes no other table, and keeps the table invariant |
| Server.Service.CreateChat | src/server/psd_ims_server.c:840-887 | the handler's statements, an unknown member being noticed only by the foreign key |
| Server.Service.AddMember | src/server/psd_ims_server.c:894-965 | all refusals, and a new row or the recovered one |
| Server.Service.RemoveMember | src/server/psd_ims_server.c:972-1028 | all refusals, and the closed row |
| Server.Service.QuitFromChat | src/server/psd_ims_server.c:1035-1079 | the closed row, and the handed-over or invalidated chat |
| Server.Service.SendMessage | src/server/psd_ims_server.c:1086-1132 | the message gets the first free second from the request on |
| Server.Service.GetChatMessages | src/server/psd_ims_server.c:566-597 | the reply for an active member of a valid chat, a refusal otherwise |
| Server.Service.SendFriendRequest | src/server/psd_ims_server.c:1136-1179 | all refusals, and the new request |
| Server.Service.AcceptRequest | src/server/psd_ims_server.c:1186-1222 | the friendship for the deleted request |
| Server.Service.DeclineRequest | src/server/psd_ims_server.c:1228-1262 | the request gone, or a refusal |
| Server.Service.GetChats | src/server/psd_ims_server.c:495-523 | the chat list of a valid user |
| Server.Service.GetAllData | src/server/psd_ims_server.c:736-772 | the clock, the chats and the friends, from the beginning |
| Server.Service.GetPendingNotifications | src/server/psd_ims_server.c:779-833 | the synced tables and the lists that they give |
| Client.FillMembers | src/client/chats.c:153-163 | fills the list exactly when the names are distinct and fit |
| Client.Messenger.AddChat | src/client/chats.c:114-172 | a new chat with its members, or no change at all |
| Client.Messenger.FindChat | src/client/chats.c:310-312 | finds exactly the held chats |
| Client.Messenger.RecvChats | src/client/psd_ims_client.c:738-803 | the chats of the reply, in place what the replica function says |
| Client.Messenger.AddFriendList | src/client/psd_ims_client.c:484-492 | the friends of the reply, a full list or a known name skipped |
| Client.Messenger.SyncPairs | src/client/psd_ims_client.c:441-457 | the id and read stamp of every held chat, in list order |
| Client.Messenger.RecvMessagesHere | src/client/psd_ims_client.c:54-113 | fetches from the chat's cursor and stores the reply |
| Client.Messenger.ShowHere | src/client/client_graphic_v2.c:494-498 | displaying a chat clears its unread counter and changes no other chat |
| Client.Messenger.ApplyEvent | src/client/psd_ims_client.c:495-571 | one entry, after asking for new chats when its chat is unknown |
| Client.Messenger.RecvNotifications | src/client/psd_ims_client.c:428-578 | sends the read stamps of all chats and applies the whole reply |
| Client.Messenger.RecvAllPending | src/client/psd_ims_client.c:657-683 | fetches each flagged chat once, in list order |
| Client.Messenger.RecvAllData | src/client/psd_ims_client.c:337-421 | the login data |
| Client.Messenger.CreateChat | src/client/psd_ims_client.c:865-898 | asks the service only for a member that is a friend |
| Client.RoundIsLists | src/client/psd_ims_client.c:472-571 | a round is its timestamp, its friends and its five lists, one after the other |
| Peers.Answer | src/server/psd_ims_server.c:302-1262 | every request that is not one of a session leaves tables and clock as the step of the state machine does |
| Peers.AnswerPoll | src/server/psd_ims_server.c:779-833 | another client's request for notifications leaves the tables, and with the reply its memory, as its poll step does |
| Peers.Serve | src/server/psd_ims_server.c:302-1262 | whatever anybody else asks of the service, sessions of other clients included, the tables, the clock and the others are left as by the step of the state machine, and the client at hand is left alone |
| Refinement.Start | src/server/psd_ims_server.c:102-133 | a new service that has answered any requests of any clients, and a new client that has logged in to it, stand in a state of a run from the empty database |
| Refinement.LogIn | src/client/psd_ims_client.c:337-421 | receiving the login data is a login step, or changes nothing for a user that is not valid |
| Refinement.PollNow | src/client/psd_ims_client.c:428-578 | receiving notifications is a poll step over the chats in list order, accepted exactly for a valid user |
| Refinement.FetchFlagged | src/client/psd_ims_client.c:657-683 | the pass over the chats is a fetch step for each flagged one |
| Refinement.FetchNow | src/client/psd_ims_client.c:581-595 | receiving the messages of one chat is a fetch step |
| Refinement.Display | src/client/client_graphic_v2.c:494-498 | displaying a chat is a display step |
| Refinement.NewChat | src/client/psd_ims_client.c:865-898 | creating a chat is a step of the machine, with any unused id |
| Refinement.Turn | src/client/client_graphic_v2.c:994-997 | one turn of the update loop, from any reachable state, extends the run, and the client has caught up: in every chat that it holds it has exactly those visible messages that the polls have reported and whose stamps its session has not stepped over |
| Refinement.UpdateLoop | src/client/client_graphic_v2.c:994-997 | the same for arbitrarily many turns, with anything that anybody else does, polls, logins and new chats of any number of other clients included, and waiting, fetches, displays and new chats of one's own between them: one run of the state machine, caught up with after every turn |
| Shutdown.CountAlways | src/server/psd_ims_server.c:72-94 | in every interleaving the count is the live workers, the connection between count and thread, and the failed creations; at most 200; and an unsignalled waiter waits for a positive count |
| Shutdown.CountIsWorkers | src/server/psd_ims_server.c:248-265 | the count is exactly the live workers if and only if none is being created and no creation failed |
| Shutdown.FreesWhenIdle | src/server/psd_ims_server.c:140-153 | free_persistence runs only when no worker is alive or on its way |
| Shutdown.ShutdownEndsExactly | src/server/server.c:104-108 | a shutdown that has begun can end if and only if the signal interrupted the listener outside the counting and no creation failed |
| Shutdown.EveryOrderEnds | src/server/psd_ims_server.c:140-153 | and then it does end, in every order of the remaining steps |
| Shutdown.WorkerAfterFreeExactly | src/server/psd_ims_server.c:217-268 | a worker can start after the free if and only if the listener was past accept |
| Registry.LeakDetector.AddMemInfo | src/common/leak_detector_c.c:160-183 | appends to the chain, tail pointer and counter included |
| Registry.LeakDetector.RemoveMemInfo | src/common/leak_detector_c.c:189-222 | unlinks the first node of the address, or reports that there is none |
| Registry.LeakDetector.XMalloc | src/common/leak_detector_c.c:99-110 | counts and lists the block, or counts an error |
| Registry.LeakDetector.XCalloc | src/common/leak_detector_c.c:127-137 | counts and lists the block, and does not count an error |
| Registry.LeakDetector.XRealloc | src/common/leak_detector_c.c:113-122 | replaces the entry, whether or not the old pointer had one |
| Registry.LeakDetector.XFree | src/common/leak_detector_c.c:144-154 | removes the entry or counts an error |
| Registry.ChainIsLive | src/common/leak_detector_c.c:99-222 | after any calls the chain lists exactly the blocks registered and not released since, in the order of registration |
| Registry.AddressesDistinct | src/common/leak_detector_c.c:160-222 | with an honest allocator no address is listed twice |
| Registry.CountersAgreeExactly | src/common/leak_detector_c.c:113-122 | the two counters agree if and only if every reallocated pointer was in the list |
| Registry.ErrorsCounted | src/common/leak_detector_c.c:99-154 | the error counters are the numbers of failed xmallocs and of xfrees of pointers that were not in the list; a failed xcalloc or xrealloc counts nothing |
| Registry.ReallocNull | src/common/leak_detector_c.c:113-122 | one realloc of NULL leaves one entry and a count of 0 |

## Left out

- Marshalling with gSOAP and src/client/network.c: a request is a call of the handler; a request that fails on the way changes nothing.
- The text of SQL statements, their length checks, and the connection to MySQL: a statement is its effect on the tables.
- Passwords, user information, get_user, get_friend_info, get_chat_info: they change nothing that the rest depends on.
- src/client/friend_requests.c and the list of requests in a notification: the same shape as the friend list.
- Reading and writing attachments, and the checks message_can_attach and message_have_attach: file contents.
- Malloc failures, freed memory and the sizes of char buffers; integers are unbounded.
- Mutexes of the client: a client operation is one step. The locking itself is not always balanced (src/client/psd_ims_client.c:779, src/client/psd_ims_client.c:996-998).
- Requests of several server threads that overlap inside one handler, such as check and insert in psdims__send_message.
- The single-threaded server of sthread_listen_connection, a second signal during the shutdown, and that the process ends when main returns, with whatever still runs in it.
- psd_remove_chat, which only the menus call, and psd_recv_friends as a step of the state machine (it is `RecvFriends` on its own).
- psd_recv_all_messages, which fetches every chat once after the login: a login followed by fetch steps.
- Menus and printing: taken from them are the update loop and that displaying a chat with messages clears its unread counter.
- ClientTickSound: for stamps strictly below the one on screen, because TickAtReadTime shows the other comparison wrong; MemberReadSound says when it is right.
- PendingComplete: says nothing of messages that no poll has reported; they are those that LateUnflagged is about, and CaughtUp, which PollThenFetchDelivers and UpdateLoop end with, says that exactly those and the stepped over ones are missing.
- UpdateLoop: the other clients are values that the functions of the replica move, not objects on the heap as the client at hand is.
- AdminIsActiveMember: the part about admins is for chats no admin of which unregistered; UnregisterExact is the exact condition for one step.
- Persistence.Database.GetNotifs: without the list of friend requests, which is shaped like the friend list.
- Server.Service.GetAllData: without the list of friend requests.
- Server.Service.GetPendingNotifications: without the list of friend requests.
- Client.Messenger.RecvNotifications: without the list of friend requests.
- Client.Messenger.RecvAllData: without the list of friend requests.
- Client.Messenger.CreateChat: without the call that names no member, for which the handler looks up a user without a name.

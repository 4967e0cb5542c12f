// The client of src/client/psd_ims_client.c in place: its lists, its timestamps, and the loops that bring them up to
// date from the service's replies.
module Client {
  import opened Common
  import opened Tables
  import opened Handlers
  import opened Window
  import opened Replica
  import opened RoundLemmas
  import opened Persistence
  import opened Server
  import opened ChatInfo
  import FriendMerge
  import LinkedList
  import R = Replica

  /** chat_comp */
  predicate SameChat(x: Chat, y: Chat) {
    x.id == y.id
  }

  function Names(friends: seq<FriendMerge.Friend>): seq<int> {
    seq(|friends|, i requires 0 <= i < |friends| => friends[i].name)
  }

  function EmptyCopy(entry: ChatEntry, join: int, reportedFrom: int): ChatCopy {
    BlankCopy(entry.readTs, entry.allReadTs, entry.admin, join, reportedFrom)
  }

  /** psd_recv_messages as a function on the replica. */
  ghost function Recv(r: Replica, db: Db, u: int, c: int): Replica {
    if c !in r.chats then r
    else
      match GetChatMessages(db, u, c, r.chats[c].cursor)
      case None => r
      case Some(list) => r.(chats := r.chats[c := Receive(r.chats[c], u, list)])
  }

  /** psd_recv_all_pending_messages over the chats of a list. */
  ghost function RecvPending(r: Replica, db: Db, u: int, todo: seq<int>): Replica {
    if todo == [] then r else PendingOne(RecvPending(r, db, u, todo[..|todo| - 1]), db, u, todo[|todo| - 1])
  }

  ghost function PendingOne(r: Replica, db: Db, u: int, c: int): Replica {
    if c in r.chats && r.chats[c].pending > 0 then Recv(r, db, u, c) else r
  }

  /** The five lists of a notification, one after the other. */
  ghost function AfterLists(r: Replica, db: Db, u: int, poll: int, n: Notifications): Replica {
    var r1 := ApplyEvents(r, db, u, poll, n.added);
    var r2 := ApplyEvents(r1, db, u, poll, n.removed);
    var r3 := ApplyEvents(r2, db, u, poll, n.admins);
    var r4 := ApplyEvents(r3, db, u, poll, n.withMessages);
    ApplyEvents(r4, db, u, poll, n.readTimes)
  }

  /** psd_recv_all_data on any client. */
  ghost function AllData(r: Replica, db: Db, now: int, u: int): Replica {
    var r1 := r.(lastNotif := now, friends := AddFriends(r.friends, SelectFriends(db, u, 0)));
    var rows := ChatRowsFor(db, u, 0);
    AddCopies(r1, db, rows, 0, None).(chatsTs := LastCreation(db, rows))
  }

  ghost predicate Apart(reprs: seq<set<object>>) {
    forall i, j :: 0 <= i < j < |reprs| ==> reprs[i] !! reprs[j]
  }

  lemma ApartAppend(reprs: seq<set<object>>, added: set<object>)
    requires Apart(reprs) && forall k :: 0 <= k < |reprs| ==> reprs[k] !! added
    ensures Apart(reprs + [added])
  {
  }

  lemma ApartUpdate(reprs: seq<set<object>>, k: nat, changed: set<object>)
    requires Apart(reprs) && k < |reprs|
    requires forall j :: 0 <= j < |reprs| && j != k ==> reprs[j] !! changed
    ensures Apart(reprs[k := changed])
  {
  }

  /** `ids` names the chats of `held`, each once. */
  ghost predicate Indexed(held: map<int, ChatCopy>, ids: seq<int>) {
    |held| == |ids| && (forall c :: c in held ==> c in ids) && forall k :: 0 <= k < |ids| ==> ids[k] in held
  }

  lemma IndexedAppend(held: map<int, ChatCopy>, ids: seq<int>, c: int, copy: ChatCopy)
    requires Indexed(held, ids) && c !in held
    ensures Indexed(held[c := copy], ids + [c])
  {
  }

  lemma IndexedUpdate(held: map<int, ChatCopy>, ids: seq<int>, c: int, copy: ChatCopy)
    requires Indexed(held, ids) && c in held
    ensures Indexed(held[c := copy], ids)
  {
  }

  /** Each chat with the read stamp of its copy. */
  function PairsOf(held: map<int, ChatCopy>, ids: seq<int>): (sync: seq<(int, int)>)
    requires forall k :: 0 <= k < |ids| ==> ids[k] in held
    ensures |sync| == |ids| && forall k :: 0 <= k < |ids| ==> sync[k] == (ids[k], held[ids[k]].readTs)
  {
    seq(|ids|, k requires 0 <= k < |ids| => (ids[k], held[ids[k]].readTs))
  }

  lemma KnownName(friends: seq<FriendMerge.Friend>, name: int)
    ensures name in Names(friends) <==> exists x :: x in friends && x.name == name
  {
    if name in Names(friends) {
      var k :| 0 <= k < |friends| && Names(friends)[k] == name;
      assert friends[k] in friends;
    }
    if x :| x in friends && x.name == name {
      var k :| 0 <= k < |friends| && friends[k] == x;
      assert Names(friends)[k] == name;
    }
  }

  lemma AddFriendsStep(friends: seq<int>, names: seq<int>, i: nat)
    requires i < |names|
    ensures AddFriends(friends, names[..i + 1]) == AddFriends(AddFriends(friends, names[..i]), [names[i]])
  {
    assert names[..i + 1][..i] == names[..i] && [names[i]][..0] == [];
  }

  /** A round is its five lists, one after the other. */
  lemma RoundIsLists(r: Replica, db: Db, u: int, n: Notifications)
    ensures var r1 := r.(lastNotif := n.lastTimestamp, friends := AddFriends(r.friends, n.friends));
      Round(r, db, u, n) == AfterLists(r1, db, u, r.lastNotif, n)
  {
    hide ApplyEvents, AddFriends;
    var r1 := r.(lastNotif := n.lastTimestamp, friends := AddFriends(r.friends, n.friends));
    var poll := r.lastNotif;
    ApplyEventsConcat(r1, db, u, poll, n.added, n.removed);
    ApplyEventsConcat(r1, db, u, poll, n.added + n.removed, n.admins);
    ApplyEventsConcat(r1, db, u, poll, n.added + n.removed + n.admins, n.withMessages);
    ApplyEventsConcat(r1, db, u, poll, n.added + n.removed + n.admins + n.withMessages, n.readTimes);
  }

  lemma AddCopiesStep(r: Replica, db: Db, rows: seq<MemberRow>, i: nat, since: int, poll: Option<int>)
    requires i < |rows|
    ensures AddCopies(r, db, rows[..i + 1], since, poll)
         == AddCopy(AddCopies(r, db, rows[..i], since, poll), db, rows[i], since, poll)
  {
    assert rows[..i + 1][..i] == rows[..i];
  }

  /** What cha_add_chat does with one element of the reply is what AddCopy does with its row. */
  lemma AddCopyIs(r: Replica, db: Db, row: MemberRow, since: int, poll: Option<int>)
    ensures var entry := EntryOf(db, row, since);
      AddCopy(r, db, row, since, poll) ==
        if entry.chat !in r.chats && |r.chats| < MAX_CHATS && |entry.members| <= MAX_MEMBERS && Distinct(entry.members)
        then r.(chats := r.chats[entry.chat :=
                  EmptyCopy(entry, row.creation, ReportedFrom(row, r.lastNotif, poll)).(members := entry.members)])
        else r
  {
  }

  class Messenger {
    const user: int
    const service: Service
    const friends: FriendMerge.Friends
    const chats: LinkedList.List<Chat>
    var lastNotifTimestamp: int
    /** The timestamp kept in the list_info of the chat list. */
    var chatsTimestamp: int

    /** The chats as values, by id. */
    ghost var held: map<int, ChatCopy>
    /** The ids and the objects of the chats, in list order. */
    ghost var ids: seq<int>
    ghost var reprs: seq<set<object>>
    ghost var Repr: set<object>

    ghost predicate Valid()
      reads this, Repr
      ensures Valid() ==> this in Repr
    {
      && Lists() && |ids| == |reprs| == |chats.Contents|
      && Apart(reprs) && Indexed(held, ids)
      && forall k :: 0 <= k < |reprs| ==> Owned(k)
    }

    ghost predicate Lists()
      reads this, Repr
    {
      && this in Repr && friends in Repr && chats in Repr && friends.Repr <= Repr && chats.Repr <= Repr
      && this !in friends.Repr && this !in chats.Repr && friends.Repr !! chats.Repr
      && service !in Repr && service.db !in Repr
      && friends.Valid() && chats.Valid() && chats.maxElems == MAX_CHATS && chats.itemComp == SameChat
    }

    /** The k-th chat is intact, shares no object with the lists, and `held` has its value. */
    ghost predicate Owned(k: nat)
      requires Lists() && |ids| == |reprs| <= |chats.Contents| && k < |reprs|
      reads this, Repr
    {
      var chat := chats.Contents[k];
      && chat in Repr && chat in reprs[k] && chat.Repr == reprs[k] && reprs[k] <= Repr
      && this !in reprs[k] && reprs[k] !! chats.Repr && reprs[k] !! friends.Repr
      && chat.Valid() && chat.id == ids[k] && ids[k] in held && held[ids[k]] == chat.copy
    }

    /** Chats of which no object changes stay owned. */
    twostate lemma StillOwned(k: nat)
      requires old(Lists()) && |old(ids)| == |old(reprs)| <= |old(chats.Contents)| && k < |old(reprs)| && old(Owned(k))
      requires Lists() && |ids| == |reprs| <= |chats.Contents| && k < |reprs|
      requires reprs[k] == old(reprs)[k] && ids[k] == old(ids)[k] && chats.Contents[k] == old(chats.Contents)[k]
      requires ids[k] in held && held[ids[k]] == old(held)[ids[k]]
      requires unchanged(old(reprs)[k]) && old(Repr) <= Repr
      requires reprs[k] !! chats.Repr
      requires reprs[k] !! friends.Repr
      ensures Owned(k)
    {
    }

    /** So do all of them when only the lists that hold them or the friend list change. */
    twostate lemma AllStillOwned()
      requires old(Valid()) && Lists() && ids == old(ids) && reprs == old(reprs) && held == old(held)
      requires |reprs| <= |chats.Contents| && chats.Contents[..|reprs|] == old(chats.Contents) && old(Repr) <= Repr
      requires unchanged(old(Repr) - old(chats.Repr) - old(friends.Repr) - {this})
      requires fresh(chats.Repr - old(chats.Repr)) && fresh(friends.Repr - old(friends.Repr))
      ensures forall k :: 0 <= k < |reprs| ==> Owned(k)
    {
      forall k | 0 <= k < |reprs| ensures Owned(k) {
        assert old(Owned(k));
        assert chats.Contents[k] == chats.Contents[..|reprs|][k];
        StillOwned(k);
      }
    }

    /** The client as a value of the state machine. */
    ghost function Value(): Replica
      reads this, friends, friends.list
    {
      Replica(lastNotifTimestamp, chatsTimestamp, Names(friends.Contents()), held)
    }

    constructor (user: int, service: Service)
      ensures Valid() && fresh(Repr) && this.user == user && this.service == service
      ensures Value() == Replica(0, 0, [], map[])
    {
      this.user := user;
      this.service := service;
      friends := new FriendMerge.Friends();
      chats := new LinkedList.List<Chat>(MAX_CHATS, SameChat);
      lastNotifTimestamp := 0;
      chatsTimestamp := 0;
      held := map[];
      ids, reprs := [], [];
      new;
      Repr := {this} + friends.Repr + chats.Repr;
    }

    lemma Separate()
      requires Valid()
      ensures this in Repr && friends in Repr && friends.list in Repr && service !in Repr && service.db !in Repr
      ensures Indexed(held, ids)
    {
    }

    lemma NotHeld(id: int)
      requires Valid() && forall j :: 0 <= j < |chats.Contents| ==> chats.Contents[j].id != id
      ensures id !in held
    {
      forall c | c in held ensures c != id {
        var j :| 0 <= j < |ids| && ids[j] == c;
        assert Owned(j);
      }
    }

    /** cha_find_chat */
    method FindChat(id: int) returns (chat: Chat?, ghost k: nat)
      requires Valid()
      ensures k <= |chats.Contents|
      ensures chat == null <==> id !in held
      ensures chat != null ==> k < |chats.Contents| && chat == chats.Contents[k] && chat.id == id
    {
      var node;
      node, k := chats.FindNode((y: Chat) => y.id == id);
      if node == null {
        NotHeld(id);
        return null, k;
      }
      assert Owned(k);
      chat := node.item.value;
    }

    /** A chat that no list knows yet. */
    ghost predicate Unshared(chat: Chat)
      requires Lists()
      reads this, Repr, chat, chat.Repr
    {
      && chat.Valid() && chat in chat.Repr && this !in chat.Repr
      && chat.Repr !! chats.Repr && chat.Repr !! friends.Repr
      && forall k :: 0 <= k < |reprs| ==> reprs[k] !! chat.Repr
    }

    /** The bookkeeping for a chat that has just been put at the end of the chat list. */
    ghost method Adopt(chat: Chat)
      requires Lists() && |ids| == |reprs| && |chats.Contents| == |reprs| + 1 && chats.Contents[|reprs|] == chat
      requires Apart(reprs) && Indexed(held, ids) && forall k :: 0 <= k < |reprs| ==> Owned(k)
      requires Unshared(chat) && chat.Repr <= Repr && chat.id !in held
      modifies `ids, `reprs, `held
      ensures Valid() && held == old(held)[chat.id := chat.copy]
    {
      ApartAppend(reprs, chat.Repr);
      IndexedAppend(held, ids, chat.id, chat.copy);
      hide ChatInfo.Chat.Valid, LinkedList.List.Valid, FriendMerge.Friends.Valid, Apart, Indexed;
      ids, reprs, held := ids + [chat.id], reprs + [chat.Repr], held[chat.id := chat.copy];
      forall k | 0 <= k < |reprs| - 1 ensures Owned(k) {
        assert old(Owned(k));
      }
      assert Owned(|reprs| - 1);
    }

    /** list_add_item on the chat list, for a chat that is not shared. */
    method Append(chat: Chat) returns (ok: bool)
      requires Valid() && Unshared(chat) && service !in chat.Repr && service.db !in chat.Repr
      modifies Repr
      ensures Valid() && fresh(Repr - old(Repr) - chat.Repr)
      ensures ok <==> chat.id !in old(held) && |old(held)| < MAX_CHATS
      ensures Value() == if ok then old(Value()).(chats := old(held)[chat.id := chat.copy]) else old(Value())
    {
      Absent(chat);
      ok := AddToList(chat);
      if ok {
        Adopt(chat);
      }
    }

    /** list_add_item itself; the bookkeeping of an accepted chat is still to come. */
    method AddToList(chat: Chat) returns (ok: bool)
      requires Valid() && Unshared(chat) && service !in chat.Repr && service.db !in chat.Repr
      modifies Repr
      ensures Lists() && |ids| == |reprs| && Apart(reprs) && Indexed(held, ids)
      ensures chats.Contents == if ok then old(chats.Contents) + [chat] else old(chats.Contents)
      ensures |reprs| == |old(chats.Contents)| && forall k :: 0 <= k < |reprs| ==> Owned(k)
      ensures Unshared(chat) && chat.Repr <= Repr && fresh(Repr - old(Repr) - chat.Repr)
      ensures ok <==> |old(held)| < MAX_CHATS && forall x :: x in old(chats.Contents) ==> !chats.itemComp(x, chat)
      ensures chat.copy == old(chat.copy) && Value() == old(Value())
    {
      assert friends.list in friends.Repr && |held| == |chats.Contents|;
      hide ChatInfo.Chat.Valid, LinkedList.List.Valid, FriendMerge.Friends.Valid, Apart, Indexed;
      ok := chats.AddItem(chat);
      Repr := Repr + chats.Repr + chat.Repr;
      AllStillOwned();
    }

    lemma Absent(chat: Chat)
      requires Valid()
      ensures (forall x :: x in chats.Contents ==> !chats.itemComp(x, chat)) <==> chat.id !in held
    {
      if chat.id in held {
        var k :| 0 <= k < |ids| && ids[k] == chat.id;
        assert Owned(k);
        assert chats.itemComp(chats.Contents[k], chat);
      }
      if x :| x in chats.Contents && chats.itemComp(x, chat) {
        var k :| 0 <= k < |chats.Contents| && chats.Contents[k] == x;
        assert Owned(k);
      }
    }

    /** The bookkeeping for a chat of the list that has just changed. */
    ghost method Refresh(chat: Chat, k: nat)
      requires Lists() && |ids| == |reprs| == |chats.Contents| && k < |ids| && chats.Contents[k] == chat
      requires Apart(reprs) && Indexed(held, ids) && ids[k] == chat.id && ids[k] in held
      requires forall j :: 0 <= j < |reprs| && j != k ==> Owned(j) && ids[j] != ids[k] && reprs[j] !! chat.Repr
      requires chat.Valid() && chat in chat.Repr && chat.Repr <= Repr && this !in chat.Repr
      requires chat.Repr !! chats.Repr && chat.Repr !! friends.Repr
      modifies `reprs, `held
      ensures Valid() && held == old(held)[chat.id := chat.copy]
    {
      ApartUpdate(reprs, k, chat.Repr);
      hide ChatInfo.Chat.Valid, LinkedList.List.Valid, FriendMerge.Friends.Valid, Apart, Indexed;
      reprs, held := reprs[k := chat.Repr], held[chat.id := chat.copy];
      forall j | 0 <= j < |reprs| && j != k ensures Owned(j) {
        assert old(Owned(j));
      }
      assert Owned(k);
      IndexedUpdate(old(held), ids, chat.id, chat.copy);
    }

    /** After an operation on the k-th chat alone, the others are still owned. */
    twostate lemma OthersOwned(k: nat)
      requires old(Valid()) && k < |old(reprs)|
      requires Lists() && ids == old(ids) && reprs == old(reprs) && held == old(held)
      requires chats.Contents == old(chats.Contents)
      requires chats.Repr == old(chats.Repr) && friends.Repr == old(friends.Repr)
      requires unchanged(old(Repr) - old(reprs)[k] - {this}) && Repr == old(Repr) + chats.Contents[k].Repr
      requires fresh(chats.Contents[k].Repr - old(reprs)[k])
      ensures forall j :: 0 <= j < |reprs| && j != k ==> Owned(j) && reprs[j] !! chats.Contents[k].Repr
    {
      forall j | 0 <= j < |reprs| && j != k ensures Owned(j) && reprs[j] !! chats.Contents[k].Repr {
        assert old(Owned(j)) && old(Owned(k));
        assert reprs[j] !! reprs[k];
        StillOwned(j);
      }
    }

    /** One list entry, for a chat that the client holds. */
    method ApplyHere(chat: Chat, ghost k: nat, e: Event)
      requires Valid() && k < |chats.Contents| && chat == chats.Contents[k] && e.chat == chat.id
      modifies Repr
      ensures Valid() && fresh(Repr - old(Repr))
      ensures e.chat in old(held)
      ensures Value() == old(Value()).(chats := old(held)[e.chat := CopyEvent(old(held)[e.chat], e)])
    {
      Alone(k);
      assert friends.list in friends.Repr;
      hide ChatInfo.Chat.Valid, LinkedList.List.Valid, FriendMerge.Friends.Valid, Apart, Indexed;
      chat.Apply(e);
      Repr := Repr + chat.Repr;
      OthersOwned(k);
      Refresh(chat, k);
    }

    /** _recv_messages with the reply at hand. */
    method ReceiveHere(chat: Chat, ghost k: nat, list: MessageList) returns (n: int)
      requires Valid() && k < |chats.Contents| && chat == chats.Contents[k]
      modifies Repr
      ensures Valid() && fresh(Repr - old(Repr)) && chats.Contents == old(chats.Contents) && ids == old(ids)
      ensures chat.id in old(held)
      ensures Value() == old(Value()).(chats := old(held)[chat.id := Receive(old(held)[chat.id], user, list)])
    {
      Alone(k);
      assert friends.list in friends.Repr;
      hide ChatInfo.Chat.Valid, LinkedList.List.Valid, FriendMerge.Friends.Valid, Apart, Indexed, Receive, Takes;
      n := chat.RecvMessages(user, list);
      Repr := Repr + chat.Repr;
      OthersOwned(k);
      assert chat.copy == Receive(old(held)[chat.id], user, list);
      Refresh(chat, k);
    }

    /** _recv_messages */
    method RecvMessagesHere(chat: Chat, ghost k: nat) returns (n: int)
      requires Valid() && service.Valid() && k < |chats.Contents| && chat == chats.Contents[k]
      modifies Repr
      ensures Valid() && fresh(Repr - old(Repr)) && chats.Contents == old(chats.Contents) && ids == old(ids)
      ensures Value() == Recv(old(Value()), service.State(), user, chat.id)
    {
      assert Owned(k);
      assert chat.messagesTimestamp == held[chat.id].cursor;
      hide Messenger.Valid, GetChatMessages, Receive;
      var reply := service.GetChatMessages(user, chat.id, chat.messagesTimestamp);
      if reply == None {
        return -1;
      }
      n := ReceiveHere(chat, k, reply.value);
    }

    /** The chat screen: cha_clear_unread. */
    method ShowHere(chat: Chat, ghost k: nat)
      requires Valid() && k < |chats.Contents| && chat == chats.Contents[k]
      modifies Repr
      ensures Valid() && fresh(Repr - old(Repr))
      ensures chat.id in old(held)
      ensures Value() == old(Value()).(chats := old(held)[chat.id := R.ClearUnread(old(held)[chat.id])])
    {
      Alone(k);
      assert friends.list in friends.Repr;
      hide ChatInfo.Chat.Valid, LinkedList.List.Valid, FriendMerge.Friends.Valid, Apart, Indexed, R.ClearUnread;
      chat.ClearUnread();
      OthersOwned(k);
      Refresh(chat, k);
    }

    /** The k-th chat shares no object and no id with the others. */
    lemma Alone(k: nat)
      requires Valid() && k < |reprs|
      ensures Owned(k)
      ensures forall j :: 0 <= j < |reprs| && j != k ==> Owned(j) && ids[j] != ids[k] && reprs[j] !! reprs[k]
    {
    }

    // ---- What the user asks for -----------------------------------------------------------------------------------

    /** psd_create_chat: the client asks the service only for one of its own friends. */
    method CreateChat(description: string, member: int, newId: int) returns (ok: bool)
      requires Valid() && service.Valid()
      modifies service.db
      ensures Valid() && service.Valid() && Value() == old(Value())
      ensures if member in Value().friends
        then Outcome(service.State(), ok)
          == Handlers.CreateChat(old(service.State()), service.clock, user, member, description, newId)
        else !ok && service.State() == old(service.State())
    {
      assert service !in Repr && service.db !in Repr;
      KnownName(friends.Contents(), member);
      var found := friends.FindFriend(member);
      assert friends in Repr && friends.list in Repr;
      hide Messenger.Valid, Handlers.CreateChat;
      if !found {
        return false;
      }
      ok := service.CreateChat(user, member, description, newId);
    }

    // ---- What the network brings ----------------------------------------------------------------------------------

    /** psd_recv_chats; `poll` tells the history field of a new chat how it was found. */
    method RecvChats(ghost poll: Option<int>) returns (n: int)
      requires Valid() && service.Valid()
      modifies Repr
      ensures Valid() && fresh(Repr - old(Repr))
      ensures Value() == R.RecvChats(old(Value()), service.State(), user, poll)
    {
      var reply := service.GetChats(user, chatsTimestamp);
      if reply == None {
        return -1;
      }
      AddList(reply.value, chatsTimestamp, poll);
      n := |reply.value.entries|;
    }

    method AddRow(entry: ChatEntry, ghost db: Db, ghost row: MemberRow, ghost since: int, ghost poll: Option<int>)
      requires Valid() && entry == EntryOf(db, row, since)
      modifies Repr
      ensures Valid() && fresh(Repr - old(Repr)) && Value() == AddCopy(old(Value()), db, row, since, poll)
    {
      AddCopyIs(Value(), db, row, since, poll);
      assert entry.chat == row.chat;
      hide Messenger.Valid, EntryOf, AddCopy, ReportedFrom;
      var ok := AddChat(entry, row.creation, ReportedFrom(row, lastNotifTimestamp, poll));
    }

    /** The loop over a chat list reply. */
    method AddList(list: ChatList, ghost since: int, ghost poll: Option<int>)
      requires Valid() && list == ListChats(service.State(), user, since)
      modifies Repr
      ensures Valid() && fresh(Repr - old(Repr))
      ensures var db := service.State();
        Value() == AddCopies(old(Value()), db, ChatRowsFor(db, user, since), since, poll)
                                                      .(chatsTs := list.lastTimestamp)
    {
      assert service !in Repr && service.db !in Repr;
      AddEntries(list.entries, service.State(), ChatRowsFor(service.State(), user, since), since, poll);
      hide Messenger.Valid, ListChats, AddCopies, ChatRowsFor;
      SetTimestamp(list.lastTimestamp);
    }

    method AddEntries(entries: seq<ChatEntry>, ghost db: Db, ghost rows: seq<MemberRow>, ghost since: int,
                      ghost poll: Option<int>)
      requires Valid() && |entries| == |rows|
      requires forall i :: 0 <= i < |rows| ==> entries[i] == EntryOf(db, rows[i], since)
      modifies Repr
      ensures Valid() && fresh(Repr - old(Repr)) && Value() == AddCopies(old(Value()), db, rows, since, poll)
    {
      assert rows[..0] == [] && AddCopies(old(Value()), db, [], since, poll) == Value();
      hide Messenger.Valid, EntryOf, AddCopy, AddCopies;
      for i := 0 to |entries|
        invariant Valid() && fresh(Repr - old(Repr))
        invariant Value() == AddCopies(old(Value()), db, rows[..i], since, poll)
      {
        AddCopiesStep(old(Value()), db, rows, i, since, poll);
        AddRow(entries[i], db, rows[i], since, poll);
      }
      assert rows[..|entries|] == rows;
    }

    /** cha_set_timestamp */
    method SetTimestamp(timestamp: int)
      requires Valid()
      modifies `chatsTimestamp
      ensures Valid() && Value() == old(Value()).(chatsTs := timestamp)
    {
      chatsTimestamp := timestamp;
      AllStillOwned();
    }

    /** fri_add_friend, its failure ignored. */
    method AddFriend(name: int)
      requires Valid()
      modifies Repr
      ensures Valid() && fresh(Repr - old(Repr)) && held == old(held)
      ensures Value() == old(Value()).(friends := AddFriends(old(Value().friends), [name]))
    {
      ghost var before := friends.Contents();
      assert [name][..0] == [] && AddFriends(Names(before), []) == Names(before);
      hide ChatInfo.Chat.Valid, LinkedList.List.Valid, FriendMerge.Friends.Valid, Apart, Indexed;
      var ok := friends.AddFriend(FriendMerge.Friend(name, ""));
      Repr := Repr + friends.Repr;
      AllStillOwned();
      KnownName(before, name);
      assert Names(friends.Contents()) == AddFriends(Names(before), [name]);
    }

    /** The loop over new friends. */
    method AddFriendList(names: seq<int>)
      requires Valid()
      modifies Repr
      ensures Valid() && fresh(Repr - old(Repr)) && held == old(held)
      ensures Value() == old(Value()).(friends := AddFriends(old(Value().friends), names))
    {
      ghost var before := Value().friends;
      assert names[..0] == [] && AddFriends(before, []) == before;
      hide Messenger.Valid, AddFriends;
      for i := 0 to |names|
        invariant Valid() && fresh(Repr - old(Repr)) && held == old(held)
        invariant Value() == old(Value()).(friends := AddFriends(before, names[..i]))
      {
        AddFriendsStep(before, names, i);
        AddFriend(names[i]);
      }
      assert names[..|names|] == names;
    }

    /** cha_find_chat; a chat that is not there makes the client ask for new chats first. */
    method FindOrFetch(id: int, ghost poll: int) returns (chat: Chat?, ghost k: nat)
      requires Valid() && service.Valid()
      modifies Repr
      ensures Valid() && fresh(Repr - old(Repr))
      ensures Value() == if id in old(held) then old(Value())
                         else R.RecvChats(old(Value()), service.State(), user, Some(poll))
      ensures chat == null <==> id !in held
      ensures chat != null ==> k < |chats.Contents| && chat == chats.Contents[k] && chat.id == id
    {
      hide Messenger.Valid, R.RecvChats;
      chat, k := FindChat(id);
      if chat == null {
        var n := RecvChats(Some(poll));
        chat, k := FindChat(id);
      }
    }

    /** One turn of the loops over the notification lists. */
    method ApplyEvent(e: Event, ghost poll: int)
      requires Valid() && service.Valid()
      modifies Repr
      ensures Valid() && fresh(Repr - old(Repr))
      ensures Value() == R.ApplyEvent(old(Value()), service.State(), user, poll, e)
    {
      assert service !in Repr && service.db !in Repr;
      hide Messenger.Valid, R.RecvChats, CopyEvent;
      var chat, k := FindOrFetch(e.chat, poll);
      if chat != null {
        ApplyHere(chat, k, e);
      }
    }

    method ApplyList(es: seq<Event>, ghost poll: int)
      requires Valid() && service.Valid()
      modifies Repr
      ensures Valid() && fresh(Repr - old(Repr))
      ensures Value() == ApplyEvents(old(Value()), service.State(), user, poll, es)
    {
      assert service !in Repr && service.db !in Repr;
      assert es[..0] == [];
      hide Messenger.Valid, R.ApplyEvent;
      for i := 0 to |es|
        invariant Valid() && fresh(Repr - old(Repr))
        invariant Value() == ApplyEvents(old(Value()), service.State(), user, poll, es[..i])
      {
        assert es[..i + 1][..i] == es[..i];
        ApplyEvent(es[i], poll);
      }
      assert es[..|es|] == es;
    }

    /** The chat ids and read stamps that go out with a poll. */
    method SyncPairs() returns (sync: seq<(int, int)>)
      requires Valid()
      ensures sync == PairsOf(held, ids)
    {
      forall j | 0 <= j < |ids| ensures ids[j] in held {
        assert Owned(j);
      }
      var items := chats.Forward();
      sync := [];
      for i := 0 to |items|
        invariant |sync| == i && forall j :: 0 <= j < i ==> sync[j] == (ids[j], held[ids[j]].readTs)
      {
        assert Owned(i);
        sync := sync + [(items[i].id, items[i].readTimestamp)];
      }
    }

    method SetLastNotif(timestamp: int)
      requires Valid()
      modifies `lastNotifTimestamp
      ensures Valid() && Value() == old(Value()).(lastNotif := timestamp)
    {
      lastNotifTimestamp := timestamp;
      AllStillOwned();
    }

    /** psd_recv_notifications */
    method RecvNotifications() returns (ok: bool)
      requires Valid() && service.Valid()
      modifies Repr, service.db
      ensures Valid() && fresh(Repr - old(Repr)) && service.Valid()
      ensures ok <==> UserValid(old(service.State()), user)
      ensures forall c :: c in old(ids) <==> c in old(held)
      ensures service.State() == if ok then SyncList(old(service.State()), user, PairsOf(old(held), old(ids)))
                                 else old(service.State())
      ensures Value() == if ok then
          var db := service.State();
          Round(old(Value()), db, user, GetNotifications(db, service.clock, user, old(lastNotifTimestamp)))
        else old(Value())
    {
      assert service !in Repr && service.db !in Repr && Indexed(held, ids);
      hide Messenger.Valid, SyncList, GetNotifications, Round, Indexed;
      var sync := SyncPairs();
      var reply := service.GetPendingNotifications(user, lastNotifTimestamp, sync);
      if reply == None {
        return false;
      }
      ApplyNotice(reply.value);
      ok := true;
    }

    /** The rest of psd_recv_notifications: the timestamp, the friends, and the five lists. */
    method ApplyNotice(n: Notifications)
      requires Valid() && service.Valid()
      modifies Repr
      ensures Valid() && fresh(Repr - old(Repr))
      ensures Value() == Round(old(Value()), service.State(), user, n)
    {
      assert service !in Repr && service.db !in Repr;
      hide Messenger.Valid, ApplyEvents, AddFriends, Round;
      ghost var poll := lastNotifTimestamp;
      RoundIsLists(Value(), service.State(), user, n);
      SetLastNotif(n.lastTimestamp);
      AddFriendList(n.friends);
      ApplyLists(n, poll);
    }

    /** The five loops, in the order of the source. */
    method ApplyLists(n: Notifications, ghost poll: int)
      requires Valid() && service.Valid()
      modifies Repr
      ensures Valid() && fresh(Repr - old(Repr))
      ensures Value() == AfterLists(old(Value()), service.State(), user, poll, n)
    {
      assert service !in Repr && service.db !in Repr;
      hide Messenger.Valid, ApplyEvents;
      ApplyList(n.added, poll);
      ApplyList(n.removed, poll);
      ApplyList(n.admins, poll);
      ApplyList(n.withMessages, poll);
      ApplyList(n.readTimes, poll);
    }

    /** One turn of psd_recv_all_pending_messages. */
    method RecvIfPending(chat: Chat, ghost k: nat)
      requires Valid() && service.Valid() && k < |chats.Contents| && chat == chats.Contents[k]
      modifies Repr
      ensures Valid() && fresh(Repr - old(Repr)) && chats.Contents == old(chats.Contents) && ids == old(ids)
      ensures Value() == PendingOne(old(Value()), service.State(), user, old(ids)[k])
    {
      assert Owned(k);
      hide Messenger.Valid, Recv;
      if chat.pendingMessages > 0 {
        var n := RecvMessagesHere(chat, k);
      }
    }

    /** psd_recv_all_pending_messages */
    method RecvAllPending()
      requires Valid() && service.Valid()
      modifies Repr
      ensures Valid() && fresh(Repr - old(Repr)) && ids == old(ids)
      ensures Value() == RecvPending(old(Value()), service.State(), user, ids)
    {
      assert service !in Repr && service.db !in Repr && |ids| == |chats.Contents|;
      hide Messenger.Valid, PendingOne;
      var items := chats.Forward();
      for i := 0 to |items|
        invariant Valid() && fresh(Repr - old(Repr)) && ids == old(ids) && chats.Contents == items
        invariant Value() == RecvPending(old(Value()), service.State(), user, ids[..i])
      {
        assert ids[..i + 1][..i] == ids[..i];
        RecvIfPending(items[i], i);
      }
      assert ids[..|items|] == ids;
    }

    /** psd_recv_all_data */
    method RecvAllData() returns (ok: bool)
      requires Valid() && service.Valid()
      modifies Repr
      ensures Valid() && fresh(Repr - old(Repr))
      ensures ok <==> UserValid(service.State(), user)
      ensures Value() == if ok then AllData(old(Value()), service.State(), service.clock, user) else old(Value())
    {
      assert service !in Repr && service.db !in Repr;
      hide Messenger.Valid, SelectFriends, AddCopies, AddFriends;
      var reply := service.GetAllData(user);
      if reply == None {
        return false;
      }
      SetLastNotif(reply.value.timestamp);
      AddFriendList(reply.value.friends);
      AddList(reply.value.chats, 0, None);
      ok := true;
    }

    lemma FreshUnshared(chat: Chat)
      requires Valid() && chat.Valid() && chat.Repr !! Repr
      ensures Unshared(chat)
    {
      forall k | 0 <= k < |reprs| ensures reprs[k] !! chat.Repr {
        assert Owned(k);
      }
    }

    /** cha_add_chat: the members first, then the chat; a failure leaves the client as it was. */
    method AddChat(entry: ChatEntry, ghost join: int, ghost reportedFrom: int) returns (ok: bool)
      requires Valid()
      modifies Repr
      ensures Valid() && fresh(Repr - old(Repr))
      ensures ok <==> entry.chat !in old(held) && |old(held)| < MAX_CHATS && |entry.members| <= MAX_MEMBERS
                      && Distinct(entry.members)
      ensures Value() == if ok
        then old(Value()).(chats :=
          old(held)[entry.chat := EmptyCopy(entry, join, reportedFrom).(members := entry.members)])
        else old(Value())
    {
      hide Messenger.Valid;
      var chat := new Chat(entry.chat, entry.admin, entry.readTs, entry.allReadTs, join, reportedFrom);
      ok := FillMembers(chat, entry.members);
      if ok {
        FreshUnshared(chat);
        ok := Append(chat);
      }
    }
  }

  /** The member loop of cha_add_chat. */
  method FillMembers(chat: Chat, names: seq<int>) returns (ok: bool)
    requires chat.Valid() && chat.copy.members == [] && chat.copy.refused == {}
    modifies chat.Repr
    ensures chat.Valid() && fresh(chat.Repr - old(chat.Repr))
    ensures ok <==> |names| <= MAX_MEMBERS && Distinct(names)
    ensures ok ==> chat.copy == old(chat.copy).(members := names)
  {
    var i := 0;
    while i < |names|
      invariant 0 <= i <= |names| && i <= MAX_MEMBERS
      invariant chat.Valid() && fresh(chat.Repr - old(chat.Repr))
      invariant Distinct(names[..i]) && chat.copy == old(chat.copy).(members := names[..i])
    {
      ok := chat.AddMember(names[i]);
      if !ok {
        if names[i] in names[..i] {
          var j :| 0 <= j < i && names[..i][j] == names[i];
          assert names[j] == names[i];
        }
        return;
      }
      assert names[..i + 1] == names[..i] + [names[i]];
      i := i + 1;
    }
    assert names[..i] == names;
    ok := true;
  }
}

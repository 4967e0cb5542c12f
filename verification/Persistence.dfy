// src/server/persistence.c: the tables changed in place, one method per statement, and the loops that copy the rows
// of a query into a reply.
module Persistence {
  import opened Common
  import opened Tables
  import opened Handlers
  import opened Replica
  import T = Tables

  /** An element of psdims__chat_list. */
  datatype ChatEntry = ChatEntry(chat: int, admin: int, readTs: int, allReadTs: int, members: seq<int>)

  function EntryOf(db: Db, row: MemberRow, since: int): ChatEntry {
    ChatEntry(row.chat, AdminOf(db, row.chat), row.read, ReadTimeOf(db, row.chat), MemberNames(db, row.chat, since))
  }

  /** The reply of get_list_chats; its running maximum starts from 0 and not from the request's timestamp. */
  datatype ChatList = ChatList(entries: seq<ChatEntry>, lastTimestamp: int)

  ghost function ListChats(db: Db, u: int, since: int): (list: ChatList)
    ensures |list.entries| == |ChatRowsFor(db, u, since)|
    ensures forall i :: 0 <= i < |list.entries| ==> list.entries[i] == EntryOf(db, ChatRowsFor(db, u, since)[i], since)
  {
    var rows := ChatRowsFor(db, u, since);
    ChatList(Map((row: MemberRow) => EntryOf(db, row, since), rows), LastCreation(db, rows))
  }

  lemma LastCreationStep(db: Db, rows: seq<MemberRow>, i: nat)
    requires i <= |rows|
    ensures LastCreation(db, rows[..0]) == 0
    ensures i < |rows| ==>
      LastCreation(db, rows[..i + 1]) == Max(LastCreation(db, rows[..i]), CreationOf(db, rows[i].chat))
  {
    if i < |rows| {
      assert rows[..i + 1][..i] == rows[..i];
    }
  }

  /** The loops that copy query rows into a reply array. */
  method FillReply<R(!new), E(!new)>(rows: seq<R>, convert: R -> E) returns (reply: seq<E>)
    ensures reply == Map(convert, rows)
  {
    reply := [];
    for i := 0 to |rows|
      invariant |reply| == i && forall j :: 0 <= j < i ==> reply[j] == convert(rows[j])
    {
      reply := reply + [convert(rows[i])];
    }
  }

  class Database {
    var users: map<int, bool>
    var chats: map<int, ChatRow>
    var members: seq<MemberRow>
    var messages: seq<MessageRow>
    var friends: seq<FriendRow>
    var requests: seq<FriendRow>

    function State(): Db
      reads this
    {
      Db(users, chats, members, messages, friends, requests)
    }

    /** The schema's content: the System row without a VALID flag. */
    constructor ()
      ensures State() == Db(map[SYSTEM := false], map[], [], [], [], [])
    {
      users, chats, members, messages, friends, requests := map[SYSTEM := false], map[], [], [], [], [];
    }

    /** UPDATE users_chats set ... where ..., row by row. */
    method UpdateMembers(matches: MemberRow -> bool, change: MemberRow -> MemberRow)
      modifies `members
      ensures |members| == |old(members)|
      ensures forall i :: 0 <= i < |members| ==>
        members[i] == if matches(old(members)[i]) then change(old(members)[i]) else old(members)[i]
    {
      for i := 0 to |members|
        invariant |members| == |old(members)|
        invariant forall j :: 0 <= j < i ==>
          members[j] == if matches(old(members)[j]) then change(old(members)[j]) else old(members)[j]
        invariant forall j :: i <= j < |members| ==> members[j] == old(members)[j]
      {
        if matches(members[i]) {
          members := members[i := change(members[i])];
        }
      }
    }

    // ---- INSERT, UPDATE and DELETE --------------------------------------------------------------------------------

    method AddUser(u: int)
      modifies `users
      ensures users == old(users)[u := true]
    {
      users := users[u := true];
    }

    method DelUser(u: int)
      modifies `users
      ensures users == if u in old(users) then old(users)[u := false] else old(users)
    {
      if u in users {
        users := users[u := false];
      }
    }

    method AddChat(id: int, admin: int, description: string, now: int)
      modifies `chats
      ensures State() == T.AddChat(old(State()), id, admin, description, now)
    {
      chats := chats[id := ChatRow(admin, description, now, now, true, 0)];
    }

    method DelChat(c: int)
      modifies `chats
      ensures State() == T.DelChat(old(State()), c)
    {
      if c in chats {
        chats := chats[c := chats[c].(valid := false)];
      }
    }

    method ChangeAdmin(u: int, c: int, now: int)
      modifies `chats
      ensures State() == T.ChangeAdmin(old(State()), u, c, now)
    {
      if c in chats {
        chats := chats[c := chats[c].(admin := u, adminTime := now)];
      }
    }

    /** The foreign keys refuse an unknown user or chat. */
    method AddUserChat(u: int, c: int, read: int, now: int) returns (ok: bool)
      modifies `members
      ensures ok <==> T.AddUserChat(old(State()), u, c, read, now).Some?
      ensures State() == if ok then T.AddUserChat(old(State()), u, c, read, now).value else old(State())
    {
      ok := u in users && c in chats;
      if ok {
        members := members + [MemberRow(u, c, now, read, 0)];
      }
    }

    method RecoverUserChat(u: int, c: int, now: int)
      modifies `members
      ensures State() == T.RecoverUserChat(old(State()), u, c, now)
    {
      UpdateMembers((r: MemberRow) => r.user == u && r.chat == c, (r: MemberRow) => r.(rem := 0, creation := now));
      assert members == T.RecoverUserChat(old(State()), u, c, now).members;
    }

    method DelUserChat(u: int, c: int, now: int)
      modifies `members
      ensures State() == T.DelUserChat(old(State()), u, c, now)
    {
      UpdateMembers((r: MemberRow) => r.user == u && r.chat == c, (r: MemberRow) => r.(rem := now));
      assert members == T.DelUserChat(old(State()), u, c, now).members;
    }

    method DelUserAllChats(u: int, now: int)
      modifies `members
      ensures State() == T.DelUserAllChats(old(State()), u, now)
    {
      UpdateMembers((r: MemberRow) => r.user == u, (r: MemberRow) => r.(rem := now));
      assert members == T.DelUserAllChats(old(State()), u, now).members;
    }

    /** update_sync: two statements, the second one reading what the first one wrote. */
    method UpdateSync(u: int, c: int, t: int)
      modifies `members, `chats
      ensures State() == T.UpdateSync(old(State()), u, c, t)
    {
      UpdateMembers((r: MemberRow) => r.user == u && r.chat == c && r.read < t, (r: MemberRow) => r.(read := t));
      assert members == SyncMember(old(State()), u, c, t).members;
      if c in chats && !exists r :: r in members && r.chat == c && r.read < t && r.rem == 0 {
        chats := chats[c := chats[c].(readTime := t)];
      }
    }

    method SendMessages(c: int, u: int, now: int, text: string, file: Option<string>)
      modifies `messages
      ensures State() == InsertMessage(old(State()), c, u, now, text, file)
    {
      messages := messages + [MessageRow(u, c, now, text, file)];
    }

    method SendRequest(a: int, b: int, now: int) returns (ok: bool)
      modifies `requests
      ensures ok <==> T.SendRequest(old(State()), a, b, now).Some?
      ensures State() == if ok then T.SendRequest(old(State()), a, b, now).value else old(State())
    {
      ok := a in users && b in users;
      if ok {
        requests := requests + [FriendRow(a, b, now)];
      }
    }

    method DeclineFriendRequest(a: int, b: int)
      modifies `requests
      ensures State() == T.DeclineFriendRequest(old(State()), a, b)
    {
      requests := Filter(requests, OtherRequests(a, b));
    }

    /** accept_friend_request: the friendship is inserted, then the request is deleted. */
    method AcceptFriendRequest(a: int, b: int, now: int)
      modifies `friends, `requests
      ensures State() == T.AcceptFriendRequest(old(State()), a, b, now)
    {
      friends := friends + [FriendRow(a, b, now)];
      DeclineFriendRequest(a, b);
    }

    // ---- Replies --------------------------------------------------------------------------------------------------

    /** get_user_id */
    function GetUserId(name: int): (id: int)
      reads this
      ensures id == if UserValid(State(), name) then name else -1
    {
      if name in users && users[name] then name else -1
    }

    /** get_list_messages */
    method GetListMessages(c: int, u: int, cursor: int) returns (list: MessageList)
      ensures list.rows == SelectMessages(State(), u, c, cursor)
      ensures list.lastTimestamp == LastStamp(list.rows, cursor) + 1
    {
      var rows := SelectMessages(State(), u, c, cursor);
      var out: seq<MessageRow> := [];
      var lastTimestamp := cursor;
      for k := 0 to |rows|
        invariant out == rows[..k] && lastTimestamp == LastStamp(rows[..k], cursor)
      {
        assert rows[..k + 1] == rows[..k] + [rows[k]];
        out := out + [rows[k]];
        if rows[k].ts > lastTimestamp {
          lastTimestamp := rows[k].ts;
        }
      }
      assert rows[..|rows|] == rows;
      lastTimestamp := lastTimestamp + 1;
      list := MessageList(out, lastTimestamp);
    }

    /** get_member_list_chats */
    method GetMemberListChats(c: int, since: int) returns (names: seq<int>)
      ensures names == MemberNames(State(), c, since)
    {
      names := FillReply(Filter(members, MemberFilter(c, since)), (r: MemberRow) => r.user);
    }

    /** One turn of the loop of get_list_chats. */
    method GetChatEntry(row: MemberRow, since: int) returns (entry: ChatEntry)
      ensures entry == EntryOf(State(), row, since)
    {
      var names := GetMemberListChats(row.chat, since);
      entry := ChatEntry(row.chat, AdminOf(State(), row.chat), row.read, ReadTimeOf(State(), row.chat), names);
    }

    /** get_list_chats */
    method GetListChats(u: int, since: int) returns (list: ChatList)
      ensures list == ListChats(State(), u, since)
    {
      var rows := ChatRowsFor(State(), u, since);
      hide EntryOf, ChatRowsFor, CreationOf, LastCreation;
      var entries, lastTimestamp := [], 0;
      LastCreationStep(State(), rows, 0);
      for i := 0 to |rows|
        invariant |entries| == i && forall j :: 0 <= j < i ==> entries[j] == EntryOf(State(), rows[j], since)
        invariant lastTimestamp == LastCreation(State(), rows[..i])
      {
        LastCreationStep(State(), rows, i);
        if CreationOf(State(), rows[i].chat) > lastTimestamp {
          lastTimestamp := CreationOf(State(), rows[i].chat);
        }
        var entry := GetChatEntry(rows[i], since);
        entries := entries + [entry];
      }
      assert rows[..|rows|] == rows;
      list := ChatList(entries, lastTimestamp);
      assert list.entries == ListChats(State(), u, since).entries;
    }

    /** The get_notif_* queries of one poll and get_list_friends. */
    method GetNotifs(u: int, t: int, now: int) returns (n: Notifications)
      ensures n == GetNotifications(State(), now, u, t)
    {
      var db := State();
      var withMessages := FillReply(Filter(members, MessagesFilter(db, u, t)), (r: MemberRow) => HasMessages(r.chat));
      var readTimes := FillReply(Filter(members, ReadTimesFilter(db, u)),
                                 (r: MemberRow) => ReadUpTo(r.chat, ReadTimeOf(db, r.chat)));
      var added := FillReply(Filter(members, AddedFilter(db, u, t)), (r: MemberRow) => Added(r.chat, r.user));
      var removed := FillReply(Filter(members, RemovedFilter(db, u, t)), (r: MemberRow) => Removed(r.chat, r.user));
      var admins := FillReply(Filter(members, AdminsFilter(db, u, t)),
                              (r: MemberRow) => NewAdmin(r.chat, AdminOf(db, r.chat)));
      n := Notifications(now, SelectFriends(db, u, t), added, removed, admins, withMessages, readTimes);
    }
  }
}

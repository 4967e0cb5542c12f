// What each request does to the tables, and when it is refused: laws of the handlers that name rows and members instead
// of statements.
module Requests {
  import opened Common
  import opened Tables
  import opened Handlers
  import R = Replica
  import opened TableInvariant
  import opened System
  import opened SessionInvariant
  import opened AdminSafety

  // ---- Rows -------------------------------------------------------------------------------------------------------

  /** One row has changed: the user's row in the chat is closed now. */
  ghost predicate Closed(rows: seq<MemberRow>, rows': seq<MemberRow>, u: int, c: int, now: int) {
    exists i | 0 <= i < |rows| ::
      rows[i].user == u && rows[i].chat == c && rows[i].rem == 0 && rows' == rows[i := rows[i].(rem := now)]
  }

  /** It was closed and is open again, from now on, with the READ_MSG_TIME that it had. */
  ghost predicate Reopened(rows: seq<MemberRow>, rows': seq<MemberRow>, u: int, c: int, now: int) {
    exists i | 0 <= i < |rows| ::
      rows[i].user == u && rows[i].chat == c && rows[i].rem != 0
      && rows' == rows[i := rows[i].(rem := 0, creation := now)]
  }

  /** The user, and nobody else, has left the chat. */
  ghost predicate OnlyLeaves(db: Db, db': Db, u: int, c: int) {
    forall x, k :: InChat(db', x, k) <==> InChat(db, x, k) && !(x == u && k == c)
  }

  /** The user, and nobody else, has come to the chat. */
  ghost predicate OnlyJoins(db: Db, db': Db, u: int, c: int) {
    forall x, k :: InChat(db', x, k) <==> InChat(db, x, k) || (x == u && k == c)
  }

  lemma ClosesRow(db: Db, now: int, u: int, c: int)
    requires DbOk(db, now) && InChat(db, u, c)
    ensures Closed(db.members, DelUserChat(db, u, c, now).members, u, c, now)
  {
    var i :| 0 <= i < |db.members| && db.members[i].user == u && db.members[i].chat == c && db.members[i].rem == 0;
    assert DelUserChat(db, u, c, now).members == db.members[i := db.members[i].(rem := now)];
  }

  lemma ReopensRow(db: Db, now: int, u: int, c: int)
    requires DbOk(db, now) && HasEntry(db, u, c) && !InChat(db, u, c)
    ensures Reopened(db.members, RecoverUserChat(db, u, c, now).members, u, c, now)
  {
    var i :| 0 <= i < |db.members| && db.members[i].user == u && db.members[i].chat == c;
    assert db.members[i] in db.members;
    assert RecoverUserChat(db, u, c, now).members == db.members[i := db.members[i].(rem := 0, creation := now)];
  }

  // ---- Users ------------------------------------------------------------------------------------------------------

  /** Unregistering succeeds exactly for a valid user. He then is no valid user and in no chat, all his rows are closed
      now, those too that were closed before, and nothing else has changed. */
  lemma UnregisterLaw(db: Db, now: int, login: int)
    requires DbOk(db, now)
    ensures var o := Unregister(db, now, login);
      && (o.ok <==> UserValid(db, login))
      && (!o.ok ==> o.db == db)
      && (o.ok ==>
            && o.db == db.(users := o.db.users, members := o.db.members)
            && (forall x :: x in o.db.users <==> x in db.users)
            && (forall x :: UserValid(o.db, x) <==> UserValid(db, x) && x != login)
            && (forall x, k :: InChat(o.db, x, k) <==> InChat(db, x, k) && x != login)
            && |o.db.members| == |db.members|
            && forall i | 0 <= i < |db.members| :: o.db.members[i] ==
                 db.members[i].(rem := if db.members[i].user == login then now else db.members[i].rem))
  {
    DelUserAllActive(db.(users := db.users[login := false]), login, now);
    assert forall x, k :: InChat(db.(users := db.users[login := false]), x, k) <==> InChat(db, x, k);
  }

  ghost predicate Gone(db: Db, u: int) {
    u in db.users && !db.users[u]
  }

  /** Nothing brings a user back. */
  lemma GoneStays(s: Sys, l: Label, u: int)
    requires Base(s) && Gone(s.db, u)
    ensures Gone(Step(s, l).db, u)
  {
    hide DoPoll, DoFetch, R.LoadData, R.ClearUnread, Filter, FirstFree, FirstUser;
    match l {
      case Poll(sid, order) =>
        if PollAccepted(s, sid, order) {
          PollExact(s, sid, order);
        } else {
          PollRefused(s, sid, order);
        }
      case Fetch(sid, c) => FetchOthers(s, sid, c);
      case _ =>
    }
  }

  lemma ActiveIsValid(db: Db, now: int, u: int, c: int)
    requires DbOk(db, now) && InChat(db, u, c)
    ensures UserValid(db, u)
  {
  }

  /** A user who has unregistered stays what he is: whatever happens then, he is in no chat, nobody finds him, and no
      session of his logs in, polls or fetches. */
  lemma {:induction false} GoneForGood(s: Sys, ls: seq<Label>, u: int)
    requires Base(s) && Gone(s.db, u)
    ensures var s' := Run(s, ls);
      && Gone(s'.db, u) && !UserValid(s'.db, u)
      && (forall c :: !InChat(s'.db, u, c))
      && (forall v, t :: u !in SelectFriends(s'.db, v, t))
      && (forall sid :: Step(s', Login(sid, u)) == s')
      && (forall sid, order :: sid in s'.sessions && s'.sessions[sid].user == u ==> !PollAccepted(s', sid, order))
      && (forall c, cursor :: GetChatMessages(s'.db, u, c, cursor) == None)
  {
    if ls != [] {
      GoneForGood(s, ls[..|ls| - 1], u);
      BaseRun(s, ls[..|ls| - 1]);
      GoneStays(Run(s, ls[..|ls| - 1]), ls[|ls| - 1], u);
    }
    BaseRun(s, ls);
    hide Run;
    forall c ensures !InChat(Run(s, ls).db, u, c) {
      if InChat(Run(s, ls).db, u, c) {
        ActiveIsValid(Run(s, ls).db, Run(s, ls).now, u, c);
      }
    }
  }

  // ---- Chats ------------------------------------------------------------------------------------------------------

  /** Creating a chat succeeds exactly for a valid user and a valid member. The chat then is valid, new, and the
      creator's, and he and the member are in it, from now on. When only the member is unknown, the chat is left behind
      with its creator alone. */
  lemma CreateChatLaw(db: Db, now: int, login: int, member: int, d: string, id: int)
    requires DbOk(db, now)
    ensures var o := CreateChat(db, now, login, member, d, id);
      && (o.ok <==> UserValid(db, login) && UserValid(db, member))
      && (!UserValid(db, login) ==> o.db == db)
      && (UserValid(db, login) ==>
            && o.db == db.(chats := o.db.chats, members := o.db.members)
            && o.db.chats == db.chats[id := ChatRow(login, d, now, now, true, 0)]
            && o.db.members == db.members + [MemberRow(login, id, now, now, 0)]
                               + if o.ok then [MemberRow(member, id, now, now, 0)] else [])
  {
    assert -1 !in db.users;
  }

  /** A member is added exactly when the admin of a valid chat adds a valid friend of his who is not in it. He then is
      in it from now on: with a new row, or with the row that he had. */
  lemma AddMemberLaw(db: Db, now: int, login: int, name: int, c: int)
    requires DbOk(db, now)
    ensures var o := AddMember(db, now, login, name, c);
      && (o.ok <==> && UserValid(db, login) && UserValid(db, name) && login != name
                    && ChatExist(db, c) && IsAdmin(db, login, c)
                    && Friendly(db, login, name) && !InChat(db, name, c))
      && (!o.ok ==> o.db == db)
      && (o.ok ==>
            && o.db == db.(members := o.db.members) && OnlyJoins(db, o.db, name, c)
            && if HasEntry(db, name, c) then Reopened(db.members, o.db.members, name, c, now)
               else o.db.members == db.members + [MemberRow(name, c, now, now, 0)])
  {
    var o := AddMember(db, now, login, name, c);
    if o.ok {
      if HasEntry(db, name, c) {
        RecoverActive(db, name, c, now);
        ReopensRow(db, now, name, c);
      } else {
        AddUserActive(db, name, c, now, now);
      }
    }
  }

  /** A member is removed exactly when the admin of a valid chat removes another valid user who is in it. */
  lemma RemoveMemberLaw(db: Db, now: int, login: int, name: int, c: int)
    requires DbOk(db, now)
    ensures var o := RemoveMember(db, now, login, name, c);
      && (o.ok <==> && UserValid(db, login) && UserValid(db, name) && login != name
                    && ChatExist(db, c) && IsAdmin(db, login, c) && InChat(db, name, c))
      && (!o.ok ==> o.db == db)
      && (o.ok ==>
            && o.db == db.(members := o.db.members) && OnlyLeaves(db, o.db, name, c)
            && Closed(db.members, o.db.members, name, c, now))
  {
    if RemoveMember(db, now, login, name, c).ok {
      DelUserChatActive(db, name, c, now);
      ClosesRow(db, now, name, c);
    }
  }

  /** Who runs the chat after a departure: the first active row's user, appointed now, if the admin has left and
      somebody remains; and otherwise nothing has changed but that an empty chat is not valid. */
  ghost predicate HandedOver(db: Db, db': Db, login: int, c: int, now: int) {
    && c in db.chats && c in db'.chats
    && db'.chats == db.chats[c := db'.chats[c]]
    && db'.chats[c] == db.chats[c].(valid := db'.chats[c].valid, admin := db'.chats[c].admin,
                                    adminTime := db'.chats[c].adminTime)
    && (db'.chats[c].valid <==> StillUsers(db', c))
    && if StillUsers(db', c) && IsAdmin(db, login, c) then
         && db'.chats[c].adminTime == now
         && exists i: nat :: IsFirstActive(db', c, i) && db'.chats[c].admin == db'.members[i].user
       else db'.chats[c].admin == db.chats[c].admin && db'.chats[c].adminTime == db.chats[c].adminTime
  }

  /** Leaving succeeds exactly for a valid user who is in the valid chat. */
  lemma QuitLaw(db: Db, now: int, login: int, c: int)
    requires DbOk(db, now)
    ensures var o := Quit(db, now, login, c);
      && (o.ok <==> UserValid(db, login) && ChatExist(db, c) && InChat(db, login, c))
      && (!o.ok ==> o.db == db)
      && (o.ok ==>
            && o.db == db.(chats := o.db.chats, members := o.db.members)
            && OnlyLeaves(db, o.db, login, c) && Closed(db.members, o.db.members, login, c, now)
            && HandedOver(db, o.db, login, c, now))
  {
    if UserValid(db, login) && ChatExist(db, c) && InChat(db, login, c) {
      var db1 := DelUserChat(db, login, c, now);
      DelUserChatActive(db, login, c, now);
      ClosesRow(db, now, login, c);
      var o := Quit(db, now, login, c);
      if StillUsers(db1, c) {
        var i: nat :| i < |db1.members| && db1.members[i].user == FirstUser(db1, c) && IsFirstActive(db1, c, i);
        assert RowOk(db, now, db.members[i]);
        assert o.db.members == db1.members;
        assert IsFirstActive(o.db, c, i);
      }
      assert o.db.members == db1.members;
      assert forall x, k :: InChat(o.db, x, k) <==> InChat(db1, x, k);
    }
  }
}

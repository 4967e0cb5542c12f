// Who runs a chat: a valid chat has members and its admin is one of them.
module AdminSafety {
  import opened Common
  import opened Tables
  import opened Handlers
  import opened TableInvariant
  import opened System
  import opened SessionInvariant

  /** The chat is VALID exactly while it has an active member, and then its admin is one. */
  ghost predicate AdminSafe(db: Db, c: int) {
    && (ChatExist(db, c) <==> c in db.chats && StillUsers(db, c))
    && (ChatExist(db, c) ==> InChat(db, db.chats[c].admin, c))
  }

  /** The admin has been a member at least since he was appointed. */
  ghost predicate AdminSince(db: Db, c: int) {
    ChatExist(db, c) ==>
      forall r :: r in db.members && r.chat == c && r.user == db.chats[c].admin ==> r.creation <= db.chats[c].adminTime
  }

  ghost predicate AdminOk(s: Sys) {
    forall c :: c in s.db.chats && c !in s.orphaned ==> AdminSafe(s.db, c) && AdminSince(s.db, c)
  }

  // ---- What each statement does to the set of active members ------------------------------------------------------

  lemma StillUsersExact(db: Db, c: int)
    ensures StillUsers(db, c) <==> exists x :: InChat(db, x, c)
  {
    if StillUsers(db, c) {
      var r :| r in db.members && r.chat == c && r.rem == 0;
      assert InChat(db, r.user, c);
    }
  }

  lemma DelUserChatActive(db: Db, u: int, c: int, now: int)
    requires 1 <= now
    ensures forall x, k :: InChat(DelUserChat(db, u, c, now), x, k) <==> InChat(db, x, k) && !(x == u && k == c)
  {
    var db' := DelUserChat(db, u, c, now);
    forall x, k ensures InChat(db', x, k) <==> InChat(db, x, k) && !(x == u && k == c) {
      if InChat(db, x, k) && !(x == u && k == c) {
        var i :| 0 <= i < |db.members| && db.members[i].user == x && db.members[i].chat == k && db.members[i].rem == 0;
        assert db'.members[i] in db'.members;
      }
      if InChat(db', x, k) {
        var i :| 0 <= i < |db'.members|
          && db'.members[i].user == x && db'.members[i].chat == k && db'.members[i].rem == 0;
        assert db.members[i] in db.members;
      }
    }
  }

  lemma DelUserAllActive(db: Db, u: int, now: int)
    requires 1 <= now
    ensures forall x, k :: InChat(DelUserAllChats(db, u, now), x, k) <==> InChat(db, x, k) && x != u
  {
    var db' := DelUserAllChats(db, u, now);
    forall x, k ensures InChat(db', x, k) <==> InChat(db, x, k) && x != u {
      if InChat(db, x, k) && x != u {
        var i :| 0 <= i < |db.members| && db.members[i].user == x && db.members[i].chat == k && db.members[i].rem == 0;
        assert db'.members[i] in db'.members;
      }
      if InChat(db', x, k) {
        var i :| 0 <= i < |db'.members|
          && db'.members[i].user == x && db'.members[i].chat == k && db'.members[i].rem == 0;
        assert db.members[i] in db.members;
      }
    }
  }

  lemma RecoverActive(db: Db, u: int, c: int, now: int)
    requires HasEntry(db, u, c)
    ensures forall x, k :: InChat(RecoverUserChat(db, u, c, now), x, k) <==> InChat(db, x, k) || (x == u && k == c)
  {
    var db' := RecoverUserChat(db, u, c, now);
    forall x, k ensures InChat(db', x, k) <==> InChat(db, x, k) || (x == u && k == c) {
      if InChat(db, x, k) {
        var i :| 0 <= i < |db.members| && db.members[i].user == x && db.members[i].chat == k && db.members[i].rem == 0;
        assert db'.members[i] in db'.members;
      }
      if x == u && k == c {
        var i :| 0 <= i < |db.members| && db.members[i].user == u && db.members[i].chat == c;
        assert db'.members[i] in db'.members;
      }
      if InChat(db', x, k) {
        var i :| 0 <= i < |db'.members|
          && db'.members[i].user == x && db'.members[i].chat == k && db'.members[i].rem == 0;
        assert db.members[i] in db.members;
      }
    }
  }

  lemma AddUserActive(db: Db, u: int, c: int, read: int, now: int)
    requires AddUserChat(db, u, c, read, now).Some?
    ensures forall x, k ::
      InChat(AddUserChat(db, u, c, read, now).value, x, k) <==> InChat(db, x, k) || (x == u && k == c)
  {
  }

  // ---- The handlers -----------------------------------------------------------------------------------------------

  lemma CreateChatSafe(db: Db, now: int, login: int, member: int, d: string, id: int, c: int)
    requires DbOk(db, now) && id !in db.chats && (c in db.chats ==> AdminSafe(db, c))
    ensures var db' := CreateChat(db, now, login, member, d, id).db;
      c in db'.chats ==> AdminSafe(db', c)
  {
  }

  lemma AddMemberSafe(db: Db, now: int, login: int, name: int, c: int, k: int)
    requires DbOk(db, now) && k in db.chats && AdminSafe(db, k)
    ensures AdminSafe(AddMember(db, now, login, name, c).db, k)
  {
    var o := AddMember(db, now, login, name, c);
    if o.ok {
      if HasEntry(db, name, c) {
        RecoverActive(db, name, c, now);
      } else {
        AddUserActive(db, name, c, now, now);
      }
      StillUsersExact(db, k);
      StillUsersExact(o.db, k);
    }
  }

  lemma RemoveMemberSafe(db: Db, now: int, login: int, name: int, c: int, k: int)
    requires DbOk(db, now) && k in db.chats && AdminSafe(db, k)
    ensures AdminSafe(RemoveMember(db, now, login, name, c).db, k)
  {
    DelUserChatActive(db, name, c, now);
    StillUsersExact(db, k);
    StillUsersExact(DelUserChat(db, name, c, now), k);
  }

  /** The successor is an active member, and the guard against user 1 never fires. */
  lemma QuitSafe(db: Db, now: int, login: int, c: int, k: int)
    requires DbOk(db, now) && k in db.chats && AdminSafe(db, k)
    ensures AdminSafe(Quit(db, now, login, c).db, k)
    ensures UserValid(db, login) && ChatExist(db, c) && InChat(db, login, c) ==> Quit(db, now, login, c).ok
  {
    if UserValid(db, login) && ChatExist(db, c) && InChat(db, login, c) {
      var db1 := DelUserChat(db, login, c, now);
      DelUserChatActive(db, login, c, now);
      StillUsersExact(db, k);
      StillUsersExact(db1, k);
      if StillUsers(db1, c) {
        var first := FirstUser(db1, c);
        var i :| 0 <= i < |db.members| && db.members[i].user == first && db.members[i].chat == c;
        assert RowOk(db, now, db.members[i]);
      }
      var o := Quit(db, now, login, c);
      assert o.db.members == db1.members;
      assert forall x :: InChat(o.db, x, k) <==> InChat(db1, x, k);
      StillUsersExact(o.db, k);
    }
  }

  /** del_user_all_chats hands no chat over: a safe chat stays safe if and only if the leaving user is not the admin
      of it while it is valid. */
  lemma UnregisterExact(db: Db, now: int, u: int, c: int)
    requires DbOk(db, now) && UserValid(db, u) && c in db.chats && AdminSafe(db, c)
    ensures AdminSafe(Unregister(db, now, u).db, c) <==> !(ChatExist(db, c) && IsAdmin(db, u, c))
  {
    var db1 := db.(users := db.users[u := false]);
    assert forall x, k :: InChat(db1, x, k) <==> InChat(db, x, k);
    DelUserAllActive(db1, u, now);
    StillUsersExact(db, c);
    StillUsersExact(Unregister(db, now, u).db, c);
  }

  /** The handler itself does not compare the member with the creator: the table keeps one row per (user, chat) if and
      only if they differ. */
  lemma CreateChatUniqueExact(db: Db, now: int, login: int, member: int, d: string, id: int)
    requires DbOk(db, now) && UserValid(db, login) && UserValid(db, member) && id !in db.chats && 1 <= id
    ensures RowsUnique(CreateChat(db, now, login, member, d, id).db) <==> member != login
  {
    if member == login {
      var rows := CreateChat(db, now, login, member, d, id).db.members;
      var n := |db.members|;
      assert rows[n].user == rows[n + 1].user && rows[n].chat == rows[n + 1].chat;
    } else {
      CreateChatStep(db, now, login, member, d, id);
    }
  }

  // ---- Every run --------------------------------------------------------------------------------------------------

  lemma SafeSame(db: Db, db': Db, c: int)
    requires AdminSafe(db, c) && c in db.chats && c in db'.chats
    requires db'.chats[c].valid == db.chats[c].valid && db'.chats[c].admin == db.chats[c].admin
    requires forall x :: InChat(db', x, c) <==> InChat(db, x, c)
    ensures AdminSafe(db', c)
  {
    StillUsersExact(db, c);
    StillUsersExact(db', c);
  }

  /** Only a change of the admin moves adminTime, and an active row keeps its CREATION_TIME. */
  lemma SinceMoved(db: Db, db': Db, now: int, c: int)
    requires DbOk(db, now) && ServerStep(db, now, db', now) && c in db'.chats && AdminSafe(db', c)
    requires if c in db.chats then AdminSafe(db, c) && AdminSince(db, c) else db'.chats[c].adminTime >= now
    ensures AdminSince(db', c)
  {
    if ChatExist(db', c) {
      var k := db'.chats[c];
      forall r' | r' in db'.members && r'.chat == c && r'.user == k.admin ensures r'.creation <= k.adminTime {
        if c in db.chats && k.adminTime < now {
          assert ChatStep(db.chats[c], k, now);
          var r := RowOrigin(db, now, db', now, r');
          var q :| q in db.members && q.user == k.admin && q.chat == c && q.rem == 0;
          OneRow(db, r.value, q);
          var q' :| q' in db'.members && q'.user == k.admin && q'.chat == c && q'.rem == 0;
          OneRow(db', r', q');
        }
      }
    }
  }

  lemma SinceServer(s: Sys, l: Label, c: int)
    requires Base(s) && AdminOk(s) && IsServerLabel(l)
    requires var s' := Step(s, l); c in s'.db.chats && c !in s'.orphaned && AdminSafe(s'.db, c)
    ensures AdminSince(Step(s, l).db, c)
  {
    var s' := Step(s, l);
    if s'.now == s.now {
      ServerMoves(s, l);
      assert c !in s.db.chats ==> s'.db.chats[c].adminTime >= s.now;
      SinceMoved(s.db, s'.db, s.now, c);
    } else {
      assert s'.db.chats == s.db.chats && s'.db.members == s.db.members;
    }
  }

  lemma AdminServer(s: Sys, l: Label, c: int)
    requires Base(s) && AdminOk(s) && IsServerLabel(l)
    requires var s' := Step(s, l); c in s'.db.chats && c !in s'.orphaned
    ensures AdminSafe(Step(s, l).db, c)
  {
    match l {
      case Create(sid, v, d, id) =>
        if sid in s.sessions && id !in s.db.chats {
          CreateChatSafe(s.db, s.now, s.sessions[sid].user, v, d, id, c);
        }
      case Invite(u, v, k) => AddMemberSafe(s.db, s.now, u, v, k, c);
      case Expel(u, v, k) => RemoveMemberSafe(s.db, s.now, u, v, k, c);
      case Part(u, k) => QuitSafe(s.db, s.now, u, k, c);
      case Leave(u) =>
        if UserValid(s.db, u) {
          UnregisterExact(s.db, s.now, u, c);
        }
      case Tick(_) | Join(_) | Befriend(_, _) | Accept(_, _) | Decline(_, _) | Say(_, _, _, _) =>
        var s' := Step(s, l);
        assert s'.db.chats == s.db.chats && s'.db.members == s.db.members;
        SafeSame(s.db, s'.db, c);
    }
  }

  lemma AdminSynced(s: Sys, s': Sys)
    requires AdminOk(s) && SyncFrame(s.db, s'.db) && s'.orphaned == s.orphaned
    ensures AdminOk(s')
  {
  }

  lemma AdminPoll(s: Sys, sid: int, order: seq<int>)
    requires Base(s) && AdminOk(s)
    ensures AdminOk(DoPoll(s, sid, order))
  {
    if PollAccepted(s, sid, order) {
      PollExact(s, sid, order);
      AdminSynced(s, DoPoll(s, sid, order));
    }
  }

  lemma AdminStep(s: Sys, l: Label)
    requires Base(s) && AdminOk(s)
    ensures AdminOk(Step(s, l))
  {
    hide DoPoll, DoCreate, DoLeave, DoSay;
    match l {
      case Login(sid, u) =>
      case Logout(sid) =>
      case Poll(sid, order) => AdminPoll(s, sid, order);
      case Fetch(sid, c) =>
      case Show(sid, c) =>
      case _ =>
        var s' := Step(s, l);
        forall c | c in s'.db.chats && c !in s'.orphaned ensures AdminSafe(s'.db, c) && AdminSince(s'.db, c) {
          AdminServer(s, l, c);
          SinceServer(s, l, c);
        }
    }
  }

  lemma {:induction false} AdminAlways(t0: int, ls: seq<Label>)
    requires 1 <= t0
    ensures AdminOk(Run(Init(t0), ls))
  {
    if ls != [] {
      BaseAlways(t0, ls[..|ls| - 1]);
      AdminAlways(t0, ls[..|ls| - 1]);
      AdminStep(Run(Init(t0), ls[..|ls| - 1]), ls[|ls| - 1]);
    }
  }
}

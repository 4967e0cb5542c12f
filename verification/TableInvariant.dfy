// What every handler keeps about the tables, and how any handler may change them.
module TableInvariant {
  import opened Common
  import opened Tables
  import opened Handlers

  ghost predicate RowOk(db: Db, now: int, r: MemberRow) {
    && r.user in db.users && r.user != SYSTEM
    && r.chat in db.chats && db.chats[r.chat].creation <= r.creation <= now
    && 0 <= r.rem <= now
    && (r.rem != 0 ==> r.creation <= r.rem)
    && (r.rem == 0 ==> db.chats[r.chat].valid && db.users[r.user])
  }

  ghost predicate MessagesOk(db: Db, now: int) {
    && (forall i :: 0 <= i < |db.messages| ==> db.messages[i].chat in db.chats && 1 <= db.messages[i].ts <= now)
    && (forall i, j :: 0 <= i < j < |db.messages| && db.messages[i].chat == db.messages[j].chat
          ==> db.messages[i].ts < db.messages[j].ts)
  }

  /** At most one row per (user, chat). */
  ghost predicate RowsUnique(db: Db) {
    forall i, j :: 0 <= i < j < |db.members| && db.members[i].user == db.members[j].user
      ==> db.members[i].chat != db.members[j].chat
  }

  ghost predicate DbOk(db: Db, now: int) {
    && 1 <= now
    && SYSTEM in db.users && !db.users[SYSTEM]
    && (forall u :: u in db.users ==> 1 <= u)
    && (forall c :: c in db.chats ==> 1 <= c && 1 <= db.chats[c].creation <= now && db.chats[c].adminTime <= now)
    && (forall i :: 0 <= i < |db.members| ==> RowOk(db, now, db.members[i]))
    && RowsUnique(db)
    && MessagesOk(db, now)
  }

  /** When a membership row last changed hands. */
  function LastChange(r: MemberRow): int {
    Max(r.creation, r.rem)
  }

  ghost predicate RowStep(r: MemberRow, r': MemberRow, now: int) {
    && r'.user == r.user && r'.chat == r.chat && r'.read == r.read
    && (r'.creation == r.creation || r'.creation >= now)
    && (r' == r || LastChange(r') >= now)
    && (r.rem != 0 && r'.rem == 0 ==> r'.creation >= now)
    && (r.rem == 0 && r'.rem == 0 ==> r'.creation == r.creation)
  }

  ghost predicate ChatStep(k: ChatRow, k': ChatRow, now: int) {
    && k'.creation == k.creation && k'.readTime == k.readTime
    && (k'.valid ==> k.valid)
    && ((k'.admin == k.admin && k'.adminTime == k.adminTime) || k'.adminTime >= now)
  }

  /** What the handlers other than the sync loop can do: rows stay in place and are stamped when they change, joins
      start now, and messages get stamps that are still free. */
  ghost predicate ServerStep(db: Db, now: int, db': Db, now': int) {
    && now <= now'
    && DbOk(db', now')
    && |db.members| <= |db'.members|
    && (forall i :: 0 <= i < |db.members| ==> RowStep(db.members[i], db'.members[i], now))
    && (forall i :: |db.members| <= i < |db'.members| ==>
          && db'.members[i].creation == db'.members[i].read >= now
          && !HasEntry(db, db'.members[i].user, db'.members[i].chat))
    && db.messages <= db'.messages
    && (forall i :: |db.messages| <= i < |db'.messages| ==>
          db'.messages[i].ts >= NextStamp(db, now, db'.messages[i].chat))
    && (forall u :: u in db.users ==> u in db'.users)
    && (forall c :: c in db.chats ==> c in db'.chats && ChatStep(db.chats[c], db'.chats[c], now))
    && (forall c :: c in db'.chats && c !in db.chats ==> db'.chats[c].readTime == 0)
  }

  lemma OneRow(db: Db, r: MemberRow, q: MemberRow)
    requires RowsUnique(db) && r in db.members && q in db.members && r.user == q.user && r.chat == q.chat
    ensures r == q
  {
  }

  /** Every row after a step is a row from before, moved on, or a fresh join. */
  lemma RowOrigin(db: Db, now: int, db': Db, now': int, r': MemberRow) returns (r: Option<MemberRow>)
    requires ServerStep(db, now, db', now') && r' in db'.members
    ensures r.Some? ==> r.value in db.members && RowStep(r.value, r', now)
    ensures r.None? ==> r'.creation == r'.read >= now && !HasEntry(db, r'.user, r'.chat)
  {
    var i :| 0 <= i < |db'.members| && db'.members[i] == r';
    r := if i < |db.members| then Some(db.members[i]) else None;
  }

  lemma EntryKept(db: Db, now: int, db': Db, now': int, u: int, c: int)
    requires ServerStep(db, now, db', now') && HasEntry(db, u, c)
    ensures HasEntry(db', u, c)
  {
  }

  /** The sync loop moves read stamps and nothing else. */
  ghost predicate SyncFrame(db: Db, db': Db) {
    && db' == db.(members := db'.members, chats := db'.chats)
    && |db'.members| == |db.members|
    && (forall i :: 0 <= i < |db.members| ==>
          && db'.members[i] == db.members[i].(read := db'.members[i].read)
          && db.members[i].read <= db'.members[i].read)
    && db'.chats.Keys == db.chats.Keys
    && (forall c :: c in db.chats ==> db'.chats[c] == db.chats[c].(readTime := db'.chats[c].readTime))
  }

  lemma SyncedRow(db: Db, db': Db, r': MemberRow) returns (r: MemberRow)
    requires SyncFrame(db, db') && r' in db'.members
    ensures r in db.members && r' == r.(read := r'.read) && r.read <= r'.read
  {
    var i :| 0 <= i < |db'.members| && db'.members[i] == r';
    r := db.members[i];
  }

  lemma SyncedEntry(db: Db, db': Db)
    requires SyncFrame(db, db')
    ensures forall u, c :: HasEntry(db', u, c) <==> HasEntry(db, u, c)
    ensures forall u, c :: InChat(db', u, c) <==> InChat(db, u, c)
  {
  }

  /** A report changes at most the reporting member's row. */
  lemma SyncOrigin(db: Db, u: int, c: int, t: int, r': MemberRow) returns (r: MemberRow)
    requires r' in UpdateSync(db, u, c, t).members
    ensures r in db.members && (r' == r || (r' == r.(read := t) && r.user == u && r.chat == c))
  {
    var i :| 0 <= i < |db.members| && UpdateSync(db, u, c, t).members[i] == r';
    r := db.members[i];
  }

  lemma SyncedKeeps(db: Db, db': Db, now: int)
    requires DbOk(db, now) && SyncFrame(db, db')
    ensures DbOk(db', now)
  {
  }

  lemma UpdateSyncMoves(db: Db, u: int, c: int, t: int)
    ensures SyncFrame(db, UpdateSync(db, u, c, t))
  {
  }

  lemma UpdateSyncFrame(db: Db, now: int, u: int, c: int, t: int)
    requires DbOk(db, now)
    ensures DbOk(UpdateSync(db, u, c, t), now) && SyncFrame(db, UpdateSync(db, u, c, t))
  {
    hide *;
    UpdateSyncMoves(db, u, c, t);
    SyncedKeeps(db, UpdateSync(db, u, c, t), now);
  }

  lemma TickStep(db: Db, now: int, now': int)
    requires DbOk(db, now) && now <= now'
    ensures ServerStep(db, now, db, now')
  {
  }

  lemma RegisterStep(db: Db, now: int, u: int)
    requires DbOk(db, now)
    ensures ServerStep(db, now, Register(db, u).db, now)
    ensures var o := Register(db, u);
      && (o.ok <==> u !in db.users && 1 <= u)
      && (forall x :: UserValid(o.db, x) <==> UserValid(db, x) || (o.ok && x == u))
      && o.db == db.(users := o.db.users)
  {
  }

  lemma UnregisterStep(db: Db, now: int, u: int)
    requires DbOk(db, now)
    ensures ServerStep(db, now, Unregister(db, now, u).db, now)
  {
  }

  lemma AddChatStep(db: Db, now: int, login: int, d: string, id: int)
    requires DbOk(db, now) && UserValid(db, login) && id !in db.chats && 1 <= id
    ensures ServerStep(db, now, AddChat(db, id, login, d, now), now)
  {
  }

  lemma CreateChatStep(db: Db, now: int, login: int, member: int, d: string, id: int)
    requires DbOk(db, now)
    requires id !in db.chats && 1 <= id && member != login
    ensures ServerStep(db, now, CreateChat(db, now, login, member, d, id).db, now)
    ensures var db' := CreateChat(db, now, login, member, d, id).db;
      && db' == db.(chats := db'.chats, members := db'.members) && db.members <= db'.members
      && forall c :: c in db.chats ==> c in db'.chats && db'.chats[c] == db.chats[c]
  {
    if UserValid(db, login) {
      assert -1 !in db.users;
      var db1 := AddChat(db, id, login, d, now);
      AddChatStep(db, now, login, d, id);
      var db2 := AddUserChat(db1, login, id, now, now).value;
      AddUserChatStep(db1, now, login, id);
      AddStep(db, db1, db2, now);
      if UserValid(db, member) {
        AddUserChatStep(db2, now, member, id);
        AddStep(db, db2, AddUserChat(db2, member, id, now, now).value, now);
      }
    }
  }

  lemma AddUserChatStep(db: Db, now: int, u: int, c: int)
    requires DbOk(db, now) && UserValid(db, u) && ChatExist(db, c) && db.chats[c].creation <= now && !HasEntry(db, u, c)
    ensures AddUserChat(db, u, c, now, now).Some?
    ensures ServerStep(db, now, AddUserChat(db, u, c, now, now).value, now)
  {
    var db' := AddUserChat(db, u, c, now, now).value;
    assert forall i :: 0 <= i < |db.members| ==> db.members[i] in db.members;
    assert RowsUnique(db');
  }

  /** Inserting a row after a step that touched no row is again a step. */
  lemma AddStep(db: Db, db1: Db, db2: Db, now: int)
    requires ServerStep(db, now, db1, now) && ServerStep(db1, now, db2, now)
    requires db.members <= db1.members <= db2.members
    requires db1.messages == db.messages && db2.messages == db.messages && db2.chats == db1.chats
    ensures ServerStep(db, now, db2, now)
  {
  }

  lemma AddMemberStep(db: Db, now: int, login: int, name: int, c: int)
    requires DbOk(db, now)
    ensures ServerStep(db, now, AddMember(db, now, login, name, c).db, now)
  {
    var o := AddMember(db, now, login, name, c);
    if o.ok {
      assert forall i :: 0 <= i < |db.members| ==> db.members[i] in db.members;
      if HasEntry(db, name, c) {
        RecoverStep(db, now, name, c);
      } else {
        AddUserChatStep(db, now, name, c);
      }
    }
  }

  lemma RecoverStep(db: Db, now: int, u: int, c: int)
    requires DbOk(db, now) && UserValid(db, u) && ChatExist(db, c) && db.chats[c].creation <= now && !InChat(db, u, c)
    ensures ServerStep(db, now, RecoverUserChat(db, u, c, now), now)
  {
  }

  lemma RemoveMemberStep(db: Db, now: int, login: int, name: int, c: int)
    requires DbOk(db, now)
    ensures ServerStep(db, now, RemoveMember(db, now, login, name, c).db, now)
  {
  }

  lemma QuitStep(db: Db, now: int, login: int, c: int)
    requires DbOk(db, now)
    ensures ServerStep(db, now, Quit(db, now, login, c).db, now)
  {
    if UserValid(db, login) && ChatExist(db, c) && InChat(db, login, c) {
      var db1 := DelUserChat(db, login, c, now);
      DelUserChatStep(db, now, login, c);
      if !StillUsers(db1, c) {
        DelChatStep(db, now, db1, c);
      } else if IsAdmin(db1, login, c) {
        ChangeAdminStep(db, now, db1, FirstUser(db1, c), c);
      }
    }
  }

  lemma DelUserChatStep(db: Db, now: int, u: int, c: int)
    requires DbOk(db, now) && InChat(db, u, c)
    ensures ServerStep(db, now, DelUserChat(db, u, c, now), now)
  {
  }

  lemma DelChatStep(db: Db, now: int, db1: Db, c: int)
    requires ServerStep(db, now, db1, now) && db1.chats == db.chats && !StillUsers(db1, c)
    ensures ServerStep(db, now, DelChat(db1, c), now)
    ensures var db' := DelChat(db1, c);
      && (forall k :: ChatExist(db', k) <==> ChatExist(db1, k) && k != c)
      && (forall x, k :: IsAdmin(db', x, k) <==> IsAdmin(db1, x, k))
      && db' == db1.(chats := db'.chats)
  {
  }

  lemma ChangeAdminStep(db: Db, now: int, db1: Db, u: int, c: int)
    requires ServerStep(db, now, db1, now) && db1.chats == db.chats
    ensures ServerStep(db, now, ChangeAdmin(db1, u, c, now), now)
    ensures var db' := ChangeAdmin(db1, u, c, now);
      && (forall x, k :: IsAdmin(db', x, k) <==> if k == c then c in db1.chats && x == u else IsAdmin(db1, x, k))
      && (c in db1.chats ==> db'.chats[c].adminTime == now)
      && (forall k :: ChatExist(db', k) <==> ChatExist(db1, k))
      && db' == db1.(chats := db'.chats)
  {
  }

  /** Stamps never run ahead of the clock, so the retry loop sleeps at most one second. */
  lemma FirstFreeIsNext(db: Db, now: int, c: int)
    requires DbOk(db, now)
    ensures FirstFree(db, c, now) == NextStamp(db, now, c)
  {
  }

  lemma InsertStep(db: Db, now: int, login: int, c: int, text: string, file: Option<string>)
    requires DbOk(db, now) && c in db.chats
    ensures var t := NextStamp(db, now, c); ServerStep(db, now, InsertMessage(db, c, login, t, text, file), t)
  {
    var t := NextStamp(db, now, c);
    var db' := InsertMessage(db, c, login, t, text, file);
    forall m | m in db.messages && m.chat == c ensures m.ts < t {
    }
    assert MessagesOk(db', t);
    hide NextStamp;
    assert DbOk(db', t);
  }

  lemma SendMessageStep(db: Db, now: int, login: int, c: int, text: string, file: Option<string>)
    requires DbOk(db, now)
    ensures var o := SendMessage(db, now, login, c, text, file);
      && ServerStep(db, now, o.db, o.now)
      && (o.ok <==> UserValid(db, login) && InChat(db, login, c))
      && (o.ok ==>
            && o.now == NextStamp(db, now, c)
            && o.db == db.(messages := db.messages + [MessageRow(login, c, o.now, text, file)]))
      && (!o.ok ==> o.db == db && o.now == now)
  {
    FirstFreeIsNext(db, now, c);
    TickStep(db, now, now);
    if UserValid(db, login) && InChat(db, login, c) {
      InsertStep(db, now, login, c, text, file);
    }
    hide ServerStep, NextStamp;
  }

  /** The friend handlers leave the chat tables alone. */
  lemma FriendStep(db: Db, now: int, db': Db)
    requires DbOk(db, now)
    requires db' == db.(friends := db'.friends, requests := db'.requests)
    ensures ServerStep(db, now, db', now)
  {
  }
}

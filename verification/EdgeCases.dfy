// Runs of the service in which one poll leaves a client wrong about a chat.
module EdgeCases {
  import opened Common
  import opened Tables
  import opened Handlers
  import opened Window
  import opened Replica
  import opened TableInvariant
  import opened RoundLemmas
  import opened System
  import opened SessionInvariant
  import opened AdminSafety
  import opened Pending
  import opened Convergence
  import opened Counterexamples

  // ---- A chat that is found late ----------------------------------------------------------------------------------

  const CHAT_7 := ChatRow(2, "", 1, 1, true, 0)
  const CHAT_8 := ChatRow(2, "", 2, 2, true, 0)
  const LATE_MESSAGE := MessageRow(2, 7, 4, "", None)
  const LATE_ROW := MemberRow(3, 7, 3, 1, 0)

  /** What users 2 and 3 have done by 5: 3 left the chat 7 at 1 and was invited again at 3, into a chat that is by then
      older than the chat cursor with which his client logged in; and 2 has sent to it at 4. */
  const LATE_DB := FRIENDS_DB.(
    chats := map[7 := CHAT_7, 8 := CHAT_8],
    members := [MemberRow(2, 7, 1, 1, 0), LATE_ROW, MemberRow(2, 8, 2, 2, 0), MemberRow(3, 8, 2, 2, 0)],
    messages := [LATE_MESSAGE])

  const LEAVES := [Login(20, 2), Create(20, 3, "", 7)] + [Part(3, 7), Tick(1)]
  const RETURNS := [Create(20, 3, "", 8), Login(30, 3)] + [Tick(1), Invite(2, 3, 7)] + [Tick(1), Say(2, 7, "", None)]
  const LATE := MEET + LEAVES + RETURNS + [Tick(1)]

  const LEFT_DB := FRIENDS_DB.(
    chats := map[7 := CHAT_7],
    members := [MemberRow(2, 7, 1, 1, 0), MemberRow(3, 7, 1, 1, 1)])
  const LOGIN_DB := LATE_DB.(
    members := [MemberRow(2, 7, 1, 1, 0), MemberRow(3, 7, 1, 1, 1), MemberRow(2, 8, 2, 2, 0), MemberRow(3, 8, 2, 2, 0)],
    messages := [])

  lemma Leaves()
    ensures var s := Run(Init(1).(db := FRIENDS_DB), LEAVES);
      && s.db == LEFT_DB && s.now == 2 && 20 in s.sessions
      && s.sessions[20].user == 2 && 3 in s.sessions[20].replica.friends
  {
    var s := Init(1).(db := FRIENDS_DB);
    Create7();
    var s2 := Step(Step(s, Login(20, 2)), Create(20, 3, "", 7));
    hide DoLogin, DoCreate, Run;
    RunTwo(s, Login(20, 2), Create(20, 3, "", 7));
    RunTwo(s2, Part(3, 7), Tick(1));
    RunConcat(s, [Login(20, 2), Create(20, 3, "", 7)], [Part(3, 7), Tick(1)]);
    PartedFrom7(s2.db);
  }

  lemma PartedFrom7(db: Db)
    requires db == LEFT_DB.(members := [MemberRow(2, 7, 1, 1, 0), MemberRow(3, 7, 1, 1, 0)])
    ensures Quit(db, 1, 3, 7).db == LEFT_DB
  {
    assert db.members[1] in db.members && InChat(db, 3, 7);
    var db1 := DelUserChat(db, 3, 7, 1);
    assert db1.members == LEFT_DB.members && db1.members[0] in db1.members;
    assert StillUsers(db1, 7) && !IsAdmin(db1, 3, 7);
  }

  lemma Create8()
    ensures CreateChat(LEFT_DB, 2, 2, 3, "", 8).db == LOGIN_DB
  {
  }

  lemma CursorAtLogin()
    ensures LastCreation(LOGIN_DB, ChatRowsFor(LOGIN_DB, 3, 0)) == 2 && !InChat(LOGIN_DB, 3, 7)
  {
    var rows := ChatRowsFor(LOGIN_DB, 3, 0);
    assert LOGIN_DB.members[3] in LOGIN_DB.members && LOGIN_DB.members[3] in rows;
    LastCreationBounds(LOGIN_DB, rows);
    hide LastCreation, ChatRowsFor;
    assert CreationOf(LOGIN_DB, 8) == 2 && forall r :: r in rows ==> CreationOf(LOGIN_DB, r.chat) <= 2;
  }

  lemma NotLoaded(s: Sys)
    requires Base(s) && UserValid(s.db, 3) && !InChat(s.db, 3, 7)
    ensures 7 !in LoadData(s.db, s.now, 3).chats
  {
    LoginExact(s, 3);
    hide Base, LoadData, UserValid;
    assert 7 in LoadData(s.db, s.now, 3).chats ==> Novel(LoadData(s.db, s.now, 3).chats[7], s.db, 3, 7);
  }

  /** The client logs in with the chat 8 only, and its chat cursor is the creation of that chat. */
  lemma LogsIn(s: Sys)
    requires Base(s) && s.db == LOGIN_DB && s.now == 2
    ensures var s' := Step(s, Login(30, 3));
      && s'.db == s.db && s'.now == 2 && 30 in s'.sessions && s'.sessions[30].user == 3
      && 7 !in s'.sessions[30].replica.chats && s'.sessions[30].replica.chatsTs == 2
  {
    assert UserValid(s.db, 3);
    LoginIs(s, 30, 3);
    hide *;
    CursorAtLogin();
    NotLoaded(s);
    LoadsCursor(s.db, s.now, 3);
  }

  lemma LoginIs(s: Sys, sid: int, u: int)
    requires UserValid(s.db, u)
    ensures Step(s, Login(sid, u)) == s.(sessions := s.sessions[sid := Session(u, LoadData(s.db, s.now, u))])
  {
    hide LoadData;
  }

  lemma LoadsCursor(db: Db, now: int, u: int)
    requires UserValid(db, u)
    ensures LoadData(db, now, u).chatsTs == LastCreation(db, ChatRowsFor(db, u, 0))
  {
  }

  lemma InvitedAgain()
    ensures AddMember(LOGIN_DB, 3, 2, 3, 7).db == LATE_DB.(messages := [])
  {
    var db := LOGIN_DB;
    assert db.friends[0] in db.friends && Friendly(db, 3, 2);
    assert db.members[1] in db.members && HasEntry(db, 3, 7) && !InChat(db, 3, 7);
    assert RecoverUserChat(db, 3, 7, 3).members == LATE_DB.members;
  }

  lemma SaidTo7()
    ensures SendMessage(LATE_DB.(messages := []), 4, 2, 7, "", None).db == LATE_DB
    ensures SendMessage(LATE_DB.(messages := []), 4, 2, 7, "", None).now == 4
  {
    var db := LATE_DB.(messages := []);
    assert db.members[0] in db.members && InChat(db, 2, 7);
    assert FirstFree(db, 7, 4) == 4;
  }

  lemma Returns(s: Sys)
    requires Base(s) && s.db == LEFT_DB && s.now == 2 && 20 in s.sessions
    requires s.sessions[20].user == 2 && 3 in s.sessions[20].replica.friends
    ensures var s' := Run(s, RETURNS);
      && s'.db == LATE_DB && s'.now == 4 && 30 in s'.sessions && s'.sessions[30].user == 3
      && 7 !in s'.sessions[30].replica.chats && s'.sessions[30].replica.chatsTs == 2
  {
    var s1 := Step(s, Create(20, 3, "", 8));
    BaseStep(s, Create(20, 3, "", 8));
    Create8();
    assert s1.db == LOGIN_DB && s1.now == 2 by { hide CreateChat; }
    hide Base, Run, Step;
    LogsIn(s1);
    var s2 := Step(s1, Login(30, 3));
    Talks(s2);
    var s4 := Step(Step(s2, Tick(1)), Invite(2, 3, 7));
    RunTwo(s, Create(20, 3, "", 8), Login(30, 3));
    RunTwo(s2, Tick(1), Invite(2, 3, 7));
    RunTwo(s4, Tick(1), Say(2, 7, "", None));
    RunConcat(s, [Create(20, 3, "", 8), Login(30, 3)], [Tick(1), Invite(2, 3, 7)]);
    RunConcat(s, [Create(20, 3, "", 8), Login(30, 3)] + [Tick(1), Invite(2, 3, 7)], [Tick(1), Say(2, 7, "", None)]);
  }

  lemma Talks(s: Sys)
    requires s.db == LOGIN_DB && s.now == 2
    ensures var s4 := Step(Step(s, Tick(1)), Invite(2, 3, 7)); var s' := Step(Step(s4, Tick(1)), Say(2, 7, "", None));
      s'.db == LATE_DB && s'.now == 4 && s'.sessions == s.sessions
  {
    InvitedAgain();
    SaidTo7();
    hide AddMember, SendMessage;
  }

  lemma LateStart()
    ensures var s := Run(Init(1), LATE);
      && Base(s) && s.db == LATE_DB && s.now == 5 && 30 in s.sessions && s.sessions[30].user == 3
      && 7 !in s.sessions[30].replica.chats && s.sessions[30].replica.chatsTs == 2
  {
    BaseAlways(1, LATE);
    BaseAlways(1, MEET + LEAVES);
    Meet();
    Leaves();
    hide Base, Run, Step;
    RunConcat(Init(1), MEET, LEAVES);
    Returns(Run(Init(1), MEET + LEAVES));
    RunConcat(Init(1), MEET + LEAVES, RETURNS);
    StepTick(Run(Init(1), MEET + LEAVES + RETURNS), 1);
    RunLast(Init(1), MEET + LEAVES + RETURNS, Tick(1));
  }

  /** The member of the chat 7 can see the message of 4, which his client has not fetched. */
  ghost predicate LateState(s: Sys) {
    && Base(s) && s.db.users == LATE_DB.users && s.db.chats.Keys == {7, 8} && CreationOf(s.db, 7) == 1
    && s.db.messages == LATE_DB.messages
    && (exists r :: r in s.db.members && r == LATE_ROW.(read := r.read))
    && (forall x, c :: InChat(s.db, x, c) ==> x in {2, 3})
    && 30 in s.sessions && s.sessions[30].user == 3
    && (7 in s.sessions[30].replica.chats ==> CopyOf(s, 30, 7).cursor == 0 && CopyOf(s, 30, 7).pending <= 0)
  }

  lemma LateSynced(s: Sys, s': Sys)
    requires LateState(s) && Base(s') && SyncFrame(s.db, s'.db) && 30 in s'.sessions && s'.sessions[30].user == 3
    requires 7 in s'.sessions[30].replica.chats ==> CopyOf(s', 30, 7).cursor == 0 && CopyOf(s', 30, 7).pending <= 0
    ensures LateState(s')
  {
    SyncedEntry(s.db, s'.db);
    LateRowSynced(s.db, s'.db);
    hide Base, InChat, HasEntry;
  }

  lemma LateRowSynced(db: Db, db': Db)
    requires SyncFrame(db, db') && exists r :: r in db.members && r == LATE_ROW.(read := r.read)
    ensures exists r :: r in db'.members && r == LATE_ROW.(read := r.read)
    ensures CreationOf(db', 7) == CreationOf(db, 7)
  {
    var r :| r in db.members && r == LATE_ROW.(read := r.read);
    var i :| 0 <= i < |db.members| && db.members[i] == r;
    assert db'.members[i] in db'.members && db'.members[i] == LATE_ROW.(read := db'.members[i].read);
  }

  lemma NeverBlocked(s: Sys, r: Replica)
    requires LateState(s) && forall c :: c in r.chats ==> c in s.db.chats
    ensures !Blocked(r, s.db, 7)
  {
    forall c | c in r.chats.Keys ensures c in {7, 8} {
    }
    SubsetCardinality(r.chats.Keys, {7, 8});
    forall x | x in ActiveSet(s.db, 7) ensures x in {2, 3} {
      assert InChat(s.db, x, 7);
    }
    SubsetCardinality(ActiveSet(s.db, 7), {2, 3});
  }

  /** The poll of 5 asks for new chats from the chat cursor on, and so finds the chat 8 again and the chat 7 not. */
  lemma NotFound(s: Sys, order: seq<int>)
    requires Base(s) && s.db == LATE_DB && s.now == 5 && 30 in s.sessions && s.sessions[30].user == 3
    requires 7 !in s.sessions[30].replica.chats && s.sessions[30].replica.chatsTs == 2
    requires PollAccepted(s, 30, order)
    ensures var s' := DoPoll(s, 30, order);
      && LateState(s') && s'.now == 5 && SyncFrame(LATE_DB, s'.db)
      && 7 !in s'.sessions[30].replica.chats && s'.sessions[30].replica.chatsTs > 1
      && s'.sessions[30].replica.lastNotif == 5
  {
    var s', r, n := DoPoll(s, 30, order), s.sessions[30].replica, NoticeOf(s, 30, order);
    BasePollStep(s, 30, order);
    PollExact(s, 30, order);
    var r1 := r.(lastNotif := n.lastTimestamp, friends := AddFriends(r.friends, n.friends));
    assert s'.sessions[30].replica == ApplyEvents(r1, s'.db, 3, r.lastNotif, EventsOf(n));
    LateIsLate(s);
    hide DoPoll, NoticeOf, EventsOf, ApplyEvents, Base, LateState;
    StuckSynced(LATE_DB, s'.db, 3, 2);
    StuckStays(r1, s'.db, 3, r.lastNotif, EventsOf(n), 7);
    LateSynced(s, s');
  }

  lemma LateIsLate(s: Sys)
    requires Base(s) && s.db == LATE_DB && 30 in s.sessions && s.sessions[30].user == 3
    requires 7 !in s.sessions[30].replica.chats
    ensures LateState(s) && Stuck(s.db, 3, 2) && UserValid(s.db, 3) && CreationOf(s.db, 7) == 1
  {
    assert LATE_DB.members[1] in s.db.members && LATE_DB.members[3] in s.db.members;
    assert LATE_DB.members[3] in ChatRowsFor(s.db, 3, 2);
  }

  lemma StuckSynced(db: Db, db': Db, u: int, since: int)
    requires SyncFrame(db, db') && Stuck(db, u, since)
    ensures Stuck(db', u, since)
  {
    var r := ChatRowsFor(db, u, since)[0];
    assert r in ChatRowsFor(db, u, since);
    var i :| 0 <= i < |db.members| && db.members[i] == r;
    assert db'.members[i] in db'.members && db'.members[i] in ChatRowsFor(db', u, since);
  }

  lemma QuitsFrom8(db: Db)
    requires UserValid(db, 3) && ChatExist(db, 8) && InChat(db, 3, 8) && InChat(db, 2, 8) && !IsAdmin(db, 3, 8)
    ensures Quit(db, 5, 3, 8).db == DelUserChat(db, 3, 8, 5)
  {
    var db1 := DelUserChat(db, 3, 8, 5);
    DelUserChatActive(db, 3, 8, 5);
    StillUsersExact(db1, 8);
    assert InChat(db1, 2, 8) && !IsAdmin(db1, 3, 8);
    hide DelUserChat, InChat;
  }

  lemma AtFive(db: Db)
    requires SyncFrame(LATE_DB, db)
    ensures UserValid(db, 3) && ChatExist(db, 8) && InChat(db, 3, 8) && InChat(db, 2, 8) && !IsAdmin(db, 3, 8)
    ensures forall c :: InChat(db, 3, c) ==> c in {7, 8}
  {
    SyncedEntry(LATE_DB, db);
    assert LATE_DB.members[3] in LATE_DB.members && LATE_DB.members[2] in LATE_DB.members;
    assert InChat(LATE_DB, 3, 8) && InChat(LATE_DB, 2, 8) && forall c :: InChat(LATE_DB, 3, c) ==> c in {7, 8};
  }

  /** He leaves the chat 8. */
  lemma Leaves8(s: Sys)
    requires LateState(s) && SyncFrame(LATE_DB, s.db) && s.now == 5
    ensures var s' := Step(s, Part(3, 8));
      LateState(s') && s' == s.(db := s'.db) && forall c :: InChat(s'.db, 3, c) ==> c == 7
  {
    BaseStep(s, Part(3, 8));
    AtFive(s.db);
    QuitsFrom8(s.db);
    hide Base, Quit, InChat, SyncFrame;
    assert Step(s, Part(3, 8)) == s.(db := DelUserChat(s.db, 3, 8, 5));
    DelUserChatActive(s.db, 3, 8, 5);
    LateRowStays(s.db);
  }

  lemma LateRowStays(db: Db)
    requires exists r :: r in db.members && r == LATE_ROW.(read := r.read)
    ensures exists r :: r in DelUserChat(db, 3, 8, 5).members && r == LATE_ROW.(read := r.read)
  {
    var r :| r in db.members && r == LATE_ROW.(read := r.read);
    var i :| 0 <= i < |db.members| && db.members[i] == r;
    assert DelUserChat(db, 3, 8, 5).members[i] == r;
    assert r in DelUserChat(db, 3, 8, 5).members;
  }

  /** What a round can find when the chat 7 is the only one left to the user. */
  ghost predicate OnlyChat7(db: Db, now: int) {
    && DbOk(db, now) && UserValid(db, 3) && 7 in db.chats && CreationOf(db, 7) == 1
    && InChat(db, 3, 7) && forall c :: InChat(db, 3, c) ==> c == 7
  }

  lemma FindsOrResets(r: Replica, db: Db, now: int, poll: int, es: seq<Event>, v: int)
    requires OnlyChat7(db, now) && 7 !in r.chats && r.chatsTs <= now && (r.chatsTs == 0 || r.chatsTs > 1)
    requires (forall e :: e in es ==> Fact(db, 3, e)) && ReadUpTo(7, v) in es
    requires !Blocked(ApplyEvents(r, db, 3, poll, es), db, 7)
    ensures var r' := ApplyEvents(r, db, 3, poll, es);
      7 in r'.chats || (r'.chatsTs == 0 && r.chatsTs > 1)
  {
    assert ReadUpTo(7, v).chat == 7;
    hide Fact, ApplyEvents, UserValid, InChat, DbOk, Blocked;
    if r.chatsTs == 0 {
      FreshFlagged(r, db, now, 3, poll, es, 7);
    } else {
      assert !Stuck(db, 3, r.chatsTs) by {
        NothingElse(db, r.chatsTs);
      }
      HeardThere(r, es);
      var p1 := DryRound(r, db, 3, poll, es, 7);
      FreshFlagged(p1, db, now, 3, poll, AfterUnknown(r, es), 7);
    }
  }

  lemma NothingElse(db: Db, since: int)
    requires CreationOf(db, 7) < since && forall c :: InChat(db, 3, c) ==> c == 7
    ensures ChatRowsFor(db, 3, since) == []
  {
    var rows := ChatRowsFor(db, 3, since);
    if rows != [] {
      assert rows[0] in rows;
      assert InChat(db, 3, rows[0].chat);
      assert false;
    }
  }

  /** The entries of a poll for the chat 7: its read time, but not that it has messages. */
  lemma EntriesFor7(s: Sys, t: int)
    requires LateState(s) && 5 <= t
    ensures ReadUpTo(7, ReadTimeOf(s.db, 7)) in EventsOf(GetNotifications(s.db, s.now, 3, t))
    ensures HasMessages(7) !in EventsOf(GetNotifications(s.db, s.now, 3, t))
  {
    var r :| r in s.db.members && r == LATE_ROW.(read := r.read);
    assert HasEntry(s.db, 3, 7);
    assert ReadUpTo(7, ReadTimeOf(s.db, 7)) in ReadTimeEvents(s.db, 3);
    NothingNew(s.db, t);
    hide ReadTimeEvents, MessageEvents, AddedEvents, RemovedEvents, AdminEvents, SelectFriends, LateState;
    MessagesInRound(s.db, s.now, 3, t, 7);
  }

  lemma NothingNew(db: Db, t: int)
    requires db.messages == LATE_DB.messages && 5 <= t
    ensures HasMessages(7) !in MessageEvents(db, 3, t)
  {
  }

  lemma Late7(s: Sys)
    requires LateState(s) && forall c :: InChat(s.db, 3, c) ==> c == 7
    ensures OnlyChat7(s.db, s.now)
  {
  }

  ghost predicate Waiting(s: Sys) {
    && LateState(s) && 5 <= s.sessions[30].replica.lastNotif && forall c :: InChat(s.db, 3, c) ==> c == 7
  }

  /** With no other chat left, the next poll resets the cursor, or finds the chat; either way nothing flags it, because
      its message is older than the poll before. */
  lemma LateRound(s: Sys, order: seq<int>)
    requires Waiting(s) && 7 !in s.sessions[30].replica.chats && PollAccepted(s, 30, order)
    requires s.sessions[30].replica.chatsTs == 0 || s.sessions[30].replica.chatsTs > 1
    ensures var s' := DoPoll(s, 30, order);
      && Waiting(s') && s'.sessions[30].replica.lastNotif == s.now
      && (7 in s'.sessions[30].replica.chats
          || (s'.sessions[30].replica.chatsTs == 0 && s.sessions[30].replica.chatsTs > 1))
  {
    var r, s', n := s.sessions[30].replica, DoPoll(s, 30, order), NoticeOf(s, 30, order);
    assert SessionOk(s.db, s.now, s.sessions[30]);
    BasePollStep(s, 30, order);
    PollExact(s, 30, order);
    NoticeIs(s, 30, order);
    var r1 := r.(lastNotif := n.lastTimestamp, friends := AddFriends(r.friends, n.friends));
    var es := EventsOf(n);
    assert s'.sessions[30].replica == ApplyEvents(r1, s'.db, 3, r.lastNotif, es);
    SyncedEntry(s.db, s'.db);
    hide DoPoll, NoticeOf, EventsOf, ApplyEvents, Base, InChat, PollAccepted;
    RoundFor7(s, s', r1, r.lastNotif, es);
  }

  lemma RoundFor7(s: Sys, s': Sys, r: Replica, poll: int, es: seq<Event>)
    requires LateState(s) && Base(s') && SyncFrame(s.db, s'.db) && s'.now == s.now && 5 <= poll
    requires (forall c :: InChat(s'.db, 3, c) ==> c == 7) && (forall e :: e in es ==> Fact(s'.db, 3, e))
    requires es == EventsOf(GetNotifications(s'.db, s.now, 3, poll))
    requires 7 !in r.chats && 0 <= r.chatsTs <= s.now && (r.chatsTs == 0 || r.chatsTs > 1)
    requires 30 in s'.sessions && s'.sessions[30] == Session(3, ApplyEvents(r, s'.db, 3, poll, es))
    requires 7 in s'.sessions[30].replica.chats ==> CopyOf(s', 30, 7).cursor == 0
    requires forall c :: c in s'.sessions[30].replica.chats ==> c in s'.db.chats
    ensures LateState(s')
    ensures 7 in s'.sessions[30].replica.chats || (s'.sessions[30].replica.chatsTs == 0 && r.chatsTs > 1)
  {
    var empty := s'.(sessions := s'.sessions[30 := Session(3, s'.sessions[30].replica.(chats := map[]))]);
    assert Base(empty) && LateState(empty) by { LateSynced(s, empty); }
    EntriesFor7(empty, poll);
    Late7(empty);
    NeverBlocked(empty, s'.sessions[30].replica);
    hide ApplyEvents, Fact, GetNotifications, EventsOf, Blocked, SyncFrame;
    if 7 in s'.sessions[30].replica.chats {
      FoundFlagged(r, s'.db, s.now, 3, poll, es, 7);
      HeardThere(r, es);
    }
    FindsOrResets(r, s'.db, s.now, poll, es, ReadTimeOf(s'.db, 7));
    LateSynced(s, s');
  }

  /** The user can see a message of the chat that his client has not fetched and that is older than the last poll, while
      the chat is not flagged. */
  ghost predicate Unflagged(s: Sys, sid: int, c: int) {
    && Holds(s, sid, c) && CopyOf(s, sid, c).pending <= 0
    && exists m :: Sees(s.db, s.sessions[sid].user, c, m)
         && CopyOf(s, sid, c).cursor <= m.ts < s.sessions[sid].replica.lastNotif
  }

  lemma WaitingUnflagged(s: Sys)
    requires Waiting(s) && 7 in s.sessions[30].replica.chats
    ensures Unflagged(s, 30, 7)
  {
    var r :| r in s.db.members && r == LATE_ROW.(read := r.read);
    assert LATE_DB.messages[0] in s.db.messages;
    assert Sees(s.db, 3, 7, LATE_DB.messages[0]);
  }

  lemma WaitsOn(s: Sys)
    requires Waiting(s)
    ensures Waiting(Step(s, Tick(1))) && Step(s, Tick(1)) == s.(now := s.now + 1)
  {
    BaseStep(s, Tick(1));
    hide Base;
  }

  lemma PollPossible(s: Sys) returns (order: seq<int>)
    requires 30 in s.sessions && UserValid(s.db, s.sessions[30].user)
    ensures PollAccepted(s, 30, order) && Step(s, Poll(30, order)) == DoPoll(s, 30, order)
  {
    order := Listing(s.sessions[30].replica.chats.Keys);
    hide DoPoll;
  }

  /** A second later the client polls again. */
  lemma PollsAgain(s: Sys) returns (ls: seq<Label>)
    requires Waiting(s) && 7 !in s.sessions[30].replica.chats
    requires s.sessions[30].replica.chatsTs == 0 || s.sessions[30].replica.chatsTs > 1
    ensures var s' := Run(s, ls);
      && Waiting(s')
      && (7 in s'.sessions[30].replica.chats
          || (s'.sessions[30].replica.chatsTs == 0 && s.sessions[30].replica.chatsTs > 1))
  {
    WaitsOn(s);
    var s1 := Step(s, Tick(1));
    assert UserValid(s1.db, 3);
    var order := PollPossible(s1);
    hide DoPoll, Step, Run, PollAccepted, LateState;
    LateRound(s1, order);
    ls := [Tick(1), Poll(30, order)];
    RunTwo(s, Tick(1), Poll(30, order));
  }

  lemma FoundAtLast(s: Sys) returns (ls: seq<Label>)
    requires Waiting(s) && 7 !in s.sessions[30].replica.chats && s.sessions[30].replica.chatsTs > 1
    ensures Waiting(Run(s, ls)) && 7 in Run(s, ls).sessions[30].replica.chats
  {
    hide Step, Run, Base, InChat;
    ls := PollsAgain(s);
    var s1 := Run(s, ls);
    if 7 !in s1.sessions[30].replica.chats {
      var next := PollsAgain(s1);
      RunConcat(s, ls, next);
      ls := ls + next;
    }
  }

  lemma LeavesUnfound(s: Sys) returns (ls: seq<Label>)
    requires Base(s) && s.db == LATE_DB && s.now == 5 && 30 in s.sessions && s.sessions[30].user == 3
    requires 7 !in s.sessions[30].replica.chats && s.sessions[30].replica.chatsTs == 2
    ensures var s' := Run(s, ls);
      Waiting(s') && 7 !in s'.sessions[30].replica.chats && s'.sessions[30].replica.chatsTs > 1
  {
    assert UserValid(s.db, 3);
    hide Step, Run, DoPoll, PollAccepted, LateState, Base, UserValid, SyncFrame;
    var order := PollPossible(s);
    NotFound(s, order);
    Leaves8(DoPoll(s, 30, order));
    ls := [Poll(30, order), Part(3, 8)];
    RunTwo(s, Poll(30, order), Part(3, 8));
  }

  /** A run in which a poll finds a chat too late to flag it: the user has been invited again to a chat that is older
      than the chat cursor of his client; the polls do not find it until he has left his other chat and an empty reply
      has reset the cursor; and by then its message is older than the poll before. */
  lemma LateUnflagged() returns (ls: seq<Label>)
    ensures Unflagged(Run(Init(1), LATE + ls), 30, 7)
  {
    LateStart();
    hide *;
    var s := Run(Init(1), LATE);
    var first := LeavesUnfound(s);
    var rest := FoundAtLast(Run(s, first));
    ls := first + rest;
    RunConcat(s, first, rest);
    RunConcat(Init(1), LATE, ls);
    WaitingUnflagged(Run(s, ls));
  }

  // ---- One leaves a full chat and one joins, between two polls ----------------------------------------------------

  /** User 2, who made the chat with user 3 and runs it, befriends the user n and invites him. */
  function Welcome(n: int): seq<Label> {
    [Join(n), Befriend(2, n)] + [Accept(n, 2), Invite(2, n, 7)]
  }

  function Welcomes(n: int): seq<Label>
    decreases n
  {
    if n <= 3 then [] else Welcomes(n - 1) + Welcome(n)
  }

  const START := MEET + [Login(20, 2), Create(20, 3, "", 7)]

  /** The users are 1 to n, everybody from 3 on is a friend of 2, and the chat has the members from 2 on. */
  ghost predicate Party(s: Sys, n: int) {
    && Acquainted(s.db, n) && s.now == 1 && 2 <= n
    && |s.db.members| == n - 1 && forall i :: 0 <= i < n - 1 ==> s.db.members[i] == MemberRow(i + 2, 7, 1, 1, 0)
  }

  ghost predicate Acquainted(db: Db, n: int) {
    && (forall u :: u in db.users <==> 1 <= u <= n) && (forall u :: 2 <= u <= n ==> db.users[u])
    && db.chats == map[7 := CHAT_7] && db.messages == [] && db.requests == []
    && (forall f :: f in db.friends ==> f.id1 <= n && f.id2 <= n)
    && (forall u :: 3 <= u <= n ==> Friendly(db, u, 2))
  }

  lemma AsksFor(db: Db, n: int)
    requires Acquainted(db, n - 1) && 4 <= n
    ensures var db1 := Register(db, n).db; var db2 := SendFriendRequest(db1, 1, 2, n).db;
      && db1 == db.(users := db.users[n := true]) && db2 == db1.(requests := [FriendRow(2, n, 1)])
  {
    var db1 := db.(users := db.users[n := true]);
    assert !Friendly(db1, 2, n) && !Requested(db1, 2, n);
    assert [] + [FriendRow(2, n, 1)] == [FriendRow(2, n, 1)];
  }

  lemma Agrees2(db: Db, db2: Db, n: int)
    requires Acquainted(db, n - 1) && 4 <= n
    requires db2 == db.(users := db.users[n := true], requests := [FriendRow(2, n, 1)])
    ensures AcceptRequest(db2, 1, n, 2).db
         == db.(users := db.users[n := true], friends := db.friends + [FriendRow(2, n, 1)])
  {
    FilterOne(FriendRow(2, n, 1), OtherRequests(2, n));
    assert db2.requests[0] in db2.requests && Requested(db2, 2, n);
    hide Filter;
  }

  lemma FriendsMore(db: Db, db': Db, n: int)
    requires Acquainted(db, n - 1) && 4 <= n
    requires db' == db.(users := db.users[n := true], friends := db.friends + [FriendRow(2, n, 1)])
    ensures Acquainted(db', n)
  {
    assert db'.friends[|db.friends|] == FriendRow(2, n, 1) && FriendRow(2, n, 1) in db'.friends;
    assert forall f :: f in db.friends ==> f in db'.friends;
    forall u | 3 <= u <= n ensures Friendly(db', u, 2) {
      assert u < n ==> Friendly(db, u, 2);
    }
  }

  /** A new friend of user 2. */
  lemma Befriended(s: Sys, n: int)
    requires Acquainted(s.db, n - 1) && s.now == 1 && 4 <= n
    ensures var s' := Run(s, [Join(n), Befriend(2, n)] + [Accept(n, 2)]);
      && Acquainted(s'.db, n) && s' == s.(db := s'.db) && s'.db.members == s.db.members
  {
    var s2 := Step(Step(s, Join(n)), Befriend(2, n));
    var s3 := Step(s2, Accept(n, 2));
    AsksFor(s.db, n);
    Agrees2(s.db, s2.db, n);
    FriendsMore(s.db, s3.db, n);
    hide Register, SendFriendRequest, AcceptRequest, Run, Acquainted;
    assert s3 == s.(db := s3.db);
    hide Step;
    RunTwo(s, Join(n), Befriend(2, n));
    RunLast(s, [Join(n), Befriend(2, n)], Accept(n, 2));
  }

  /** He joins the chat. */
  lemma Invited(db: Db, now: int, n: int)
    requires Acquainted(db, n) && 4 <= n && forall r :: r in db.members ==> r.user != n
    ensures AddMember(db, now, 2, n, 7).db == db.(members := db.members + [MemberRow(n, 7, now, now, 0)])
  {
    assert !InChat(db, n, 7) && !HasEntry(db, n, 7);
  }

  lemma {:induction false} PartyGrows(n: int)
    requires 3 <= n
    ensures var s := Run(Init(1), START + Welcomes(n)); Party(s, n) && s.sessions.Keys == {20}
    decreases n
  {
    hide Run, Party, Welcomes, Welcome;
    WelcomesMore(START, n);
    if n == 3 {
      PartyStart();
    } else {
      PartyGrows(n - 1);
      PartyNext(START + Welcomes(n - 1), n);
    }
  }

  lemma WelcomesMore(first: seq<Label>, n: int)
    ensures first + Welcomes(n) == if n <= 3 then first else first + Welcomes(n - 1) + Welcome(n)
  {
  }

  lemma PartyNext(ls: seq<Label>, n: int)
    requires Party(Run(Init(1), ls), n - 1) && 4 <= n
    ensures var s := Run(Init(1), ls + Welcome(n)); Party(s, n) && s.sessions == Run(Init(1), ls).sessions
  {
    PartyStep(Run(Init(1), ls), n);
    hide *;
    RunConcat(Init(1), ls, Welcome(n));
  }

  const PARTY_DB := FRIENDS_DB.(
    chats := map[7 := CHAT_7],
    members := [MemberRow(2, 7, 1, 1, 0), MemberRow(3, 7, 1, 1, 0)])

  lemma PartyOfTwo(s: Sys)
    requires s.db == PARTY_DB && s.now == 1
    ensures Party(s, 3)
  {
    assert PARTY_DB.friends[0] in PARTY_DB.friends && Friendly(PARTY_DB, 3, 2);
  }

  lemma PartyStart()
    ensures var s := Run(Init(1), START); Party(s, 3) && s.sessions.Keys == {20}
  {
    var s := Init(1).(db := FRIENDS_DB);
    var s2 := Step(Step(s, Login(20, 2)), Create(20, 3, "", 7));
    assert CHAT.(admin := 2) == CHAT_7;
    hide Step, Run, Party;
    Meet();
    Create7();
    RunTwo(s, Login(20, 2), Create(20, 3, "", 7));
    RunConcat(Init(1), MEET, [Login(20, 2), Create(20, 3, "", 7)]);
    PartyOfTwo(s2);
  }

  lemma MembersOnly(db: Db, db': Db, n: int)
    requires Acquainted(db, n) && db' == db.(members := db'.members)
    ensures Acquainted(db', n)
  {
    assert forall u :: Friendly(db, u, 2) ==> Friendly(db', u, 2);
  }

  lemma PartyStep(s: Sys, n: int)
    requires Party(s, n - 1) && 4 <= n
    ensures var s' := Run(s, Welcome(n)); Party(s', n) && s'.sessions == s.sessions
  {
    Befriended(s, n);
    var s1 := Run(s, [Join(n), Befriend(2, n)] + [Accept(n, 2)]);
    forall r | r in s1.db.members ensures r.user != n {
      var i :| 0 <= i < n - 2 && s.db.members[i] == r;
    }
    Invited(s1.db, 1, n);
    var s2 := Step(s1, Invite(2, n, 7));
    assert s2 == s1.(db := s1.db.(members := s1.db.members + [MemberRow(n, 7, 1, 1, 0)]));
    MembersOnly(s1.db, s2.db, n);
    hide Run, Step, AddMember, Acquainted;
    assert Welcome(n) == [Join(n), Befriend(2, n)] + [Accept(n, 2)] + [Invite(2, n, 7)];
    RunLast(s, [Join(n), Befriend(2, n)] + [Accept(n, 2)], Invite(2, n, 7));
  }

  /** The members 2 to 51, as many as a client's list can hold. */
  const FULL: seq<int> := seq(50, i => i + 2)

  ghost predicate FullHouse(db: Db) {
    && Acquainted(db, 52)
    && |db.members| == 50 && forall i :: 0 <= i < 50 ==> db.members[i] == MemberRow(i + 2, 7, 1, 1, 0)
  }

  lemma FullMembers(db: Db)
    requires FullHouse(db)
    ensures forall x :: InChat(db, x, 7) <==> 2 <= x <= 51
    ensures forall r :: r in db.members ==> r.user != 52
  {
    forall x | 2 <= x <= 51 ensures InChat(db, x, 7) {
      assert db.members[x - 2] in db.members;
    }
  }

  lemma FullFits(db: Db)
    requires FullHouse(db)
    ensures |ActiveSet(db, 7)| <= MAX_MEMBERS
  {
    FullMembers(db);
    DistinctCardinality(FULL);
    forall x | x in ActiveSet(db, 7) ensures x in Elements(FULL) {
      assert InChat(db, x, 7) && FULL[x - 2] == x;
    }
    SubsetCardinality(ActiveSet(db, 7), Elements(FULL));
  }

  /** The client of user 2 logs in, and has everybody in its list. */
  lemma FullLogin(s: Sys)
    requires Base(s) && FullHouse(s.db) && s.now == 1
    ensures var s' := Step(s, Login(31, 2));
      && s'.db == s.db && s'.now == 1 && 31 in s'.sessions && s'.sessions[31].user == 2
      && s'.sessions[31].replica.lastNotif == 1 && s'.sessions[31].replica.chats.Keys == {7}
      && Novel(CopyOf(s', 31, 7), s.db, 2, 7)
  {
    FullMembers(s.db);
    FullFits(s.db);
    LoginExact(s, 2);
    var friends := AddFriends([], SelectFriends(s.db, 2, 0));
    FoundOrBlocked(Replica(s.now, 0, friends, map[]), s.db, s.now, 2, None, 7);
    var r := LoadData(s.db, s.now, 2);
    assert r == RecvChats(Replica(s.now, 0, friends, map[]), s.db, 2, None);
    LoginIs(s, 31, 2);
    hide Base, LoadData, RecvChats, Step, ActiveSet, InChat;
    forall c | c in r.chats.Keys ensures c in {7} {
      assert Novel(r.chats[c], s.db, 2, c);
    }
    SubsetCardinality(r.chats.Keys, {7});
    assert 7 in r.chats.Keys;
  }

  /** User 3 is removed and user 52 joins. */
  lemma Replaced(db: Db)
    requires FullHouse(db)
    ensures var db1 := RemoveMember(db, 2, 2, 3, 7).db; var db2 := AddMember(db1, 2, 2, 52, 7).db;
      && db1 == DelUserChat(db, 3, 7, 2) && db2 == db1.(members := db1.members + [MemberRow(52, 7, 2, 2, 0)])
  {
    FullMembers(db);
    assert InChat(db, 3, 7);
    var db1 := DelUserChat(db, 3, 7, 2);
    MembersOnly(db, db1, 52);
    assert forall r :: r in db1.members ==> r.user != 52;
    hide DelUserChat;
    Invited(db1, 2, 52);
  }

  lemma Entries(db: Db, db': Db)
    requires FullHouse(db) && db'.members == DelUserChat(db, 3, 7, 2).members + [MemberRow(52, 7, 2, 2, 0)]
    ensures (forall x :: 2 <= x <= 51 ==> HasEntry(db', x, 7)) && InChat(db', 52, 7)
  {
    assert db'.members[50] == MemberRow(52, 7, 2, 2, 0) && db'.members[50] in db'.members;
    forall x | 2 <= x <= 51 ensures HasEntry(db', x, 7) {
      assert db'.members[x - 2] in db'.members;
    }
  }

  /** The poll adds before it removes, so the new member finds the list full and stays out of it. */
  lemma MissesMember(copy: ChatCopy, db: Db, now: int)
    requires DbOk(db, now) && (forall x :: 2 <= x <= 51 ==> HasEntry(db, x, 7)) && InChat(db, 52, 7)
    requires Distinct(copy.members) && |copy.members| <= MAX_MEMBERS && copy.refused == {}
    requires forall x :: x in copy.members <==> 2 <= x <= 51
    ensures !Mirrors(CopyEvents(copy, 7, EventsOf(GetNotifications(db, now, 2, 1))), db, 7)
  {
    assert Agrees(copy, db, 7, 1) by {
      forall r | r in db.members ensures 1 <= LastChange(r) {
        RowLater(db, now, r);
      }
    }
    var r :| r in db.members && r.user == 52 && r.chat == 7 && r.rem == 0;
    RowLater(db, now, r);
    assert 52 in JoinedSince(db, 7, 1) && HasEntry(db, 2, 7);
    DistinctCardinality(FULL + [52]);
    forall x | x in Elements(FULL + [52]) ensures x in Elements(copy.members) + JoinedSince(db, 7, 1) {
    }
    hide DbOk, Agrees, JoinedSince, GetNotifications, EventsOf, CopyEvents, HasEntry, InChat;
    SubsetCardinality(Elements(FULL + [52]), Elements(copy.members) + JoinedSince(db, 7, 1));
    RoundConvergesExactly(copy, db, now, 2, 7, 1);
  }

  lemma RowLater(db: Db, now: int, r: MemberRow)
    requires DbOk(db, now) && r in db.members
    ensures 1 <= r.creation <= LastChange(r)
  {
  }

  const BEFORE_LOGIN := START + Welcomes(51) + ([Join(52), Befriend(2, 52)] + [Accept(52, 2)])
  const BETWEEN_POLLS := [Login(31, 2), Tick(1)] + [Expel(2, 3, 7), Invite(2, 52, 7)]

  lemma BeforeLogin()
    ensures var s := Run(Init(1), BEFORE_LOGIN); Base(s) && FullHouse(s.db) && s.now == 1
  {
    BaseAlways(1, BEFORE_LOGIN);
    PartyGrows(51);
    OneMoreFriend(START + Welcomes(51));
  }

  lemma OneMoreFriend(ls: seq<Label>)
    requires Party(Run(Init(1), ls), 51)
    ensures var s := Run(Init(1), ls + ([Join(52), Befriend(2, 52)] + [Accept(52, 2)])); FullHouse(s.db) && s.now == 1
  {
    hide Run, Acquainted;
    Befriended(Run(Init(1), ls), 52);
    RunConcat(Init(1), ls, [Join(52), Befriend(2, 52)] + [Accept(52, 2)]);
  }

  lemma BetweenPolls(s: Sys)
    requires Base(s) && FullHouse(s.db) && s.now == 1
    ensures var s' := Run(s, BETWEEN_POLLS);
      && Base(s') && s'.now == 2 && PollAccepted(s', 31, [7])
      && Holds(s', 31, 7) && s'.sessions[31].user == 2 && s'.sessions[31].replica.lastNotif == 1
      && Distinct(CopyOf(s', 31, 7).members) && |CopyOf(s', 31, 7).members| <= MAX_MEMBERS
      && CopyOf(s', 31, 7).refused == {}
      && (forall x :: x in CopyOf(s', 31, 7).members <==> 2 <= x <= 51)
      && (forall x :: 2 <= x <= 51 ==> HasEntry(s'.db, x, 7)) && InChat(s'.db, 52, 7)
  {
    FullLogin(s);
    FullMembers(s.db);
    Replaced(s.db);
    var s2 := Step(Step(s, Login(31, 2)), Tick(1));
    var s4 := Step(Step(s2, Expel(2, 3, 7)), Invite(2, 52, 7));
    assert s2.db == s.db && s2.now == 2;
    assert s4 == s2.(db := s4.db) && s4.db.users == s.db.users by { hide DoLogin; }
    Entries(s.db, s4.db);
    assert Elements([7]) == {7};
    BaseRun(s, BETWEEN_POLLS);
    hide Run, Step, Base, InChat, HasEntry, DelUserChat;
    RunTwo(s, Login(31, 2), Tick(1));
    RunTwo(s2, Expel(2, 3, 7), Invite(2, 52, 7));
    RunConcat(s, [Login(31, 2), Tick(1)], [Expel(2, 3, 7), Invite(2, 52, 7)]);
  }

  /** A run in which a client's list misses a member: the chat has as many members as the list can hold, and between two
      polls one of them is removed and another user joins. */
  lemma FullListMissesMember()
    ensures var s := Run(Init(1), BEFORE_LOGIN + BETWEEN_POLLS + [Poll(31, [7])]);
      && Holds(s, 31, 7) && s.sessions[31].replica.lastNotif == s.now
      && !Mirrors(CopyOf(s, 31, 7), s.db, 7)
  {
    BeforeLogin();
    var s := Run(Init(1), BEFORE_LOGIN + BETWEEN_POLLS);
    hide Run, Base, FullHouse, PollAccepted, HasEntry, InChat, Step, Distinct;
    RunConcat(Init(1), BEFORE_LOGIN, BETWEEN_POLLS);
    BetweenPolls(Run(Init(1), BEFORE_LOGIN));
    RunLast(Init(1), BEFORE_LOGIN + BETWEEN_POLLS, Poll(31, [7]));
    MissesAfter(s);
  }

  lemma MissesAfter(s: Sys)
    requires Base(s) && s.now == 2 && PollAccepted(s, 31, [7])
    requires Holds(s, 31, 7) && s.sessions[31].user == 2 && s.sessions[31].replica.lastNotif == 1
    requires Distinct(CopyOf(s, 31, 7).members) && |CopyOf(s, 31, 7).members| <= MAX_MEMBERS
    requires CopyOf(s, 31, 7).refused == {}
    requires forall x :: x in CopyOf(s, 31, 7).members <==> 2 <= x <= 51
    requires (forall x :: 2 <= x <= 51 ==> HasEntry(s.db, x, 7)) && InChat(s.db, 52, 7)
    ensures var s' := Step(s, Poll(31, [7]));
      && Holds(s', 31, 7) && s'.sessions[31].replica.lastNotif == s'.now == 2
      && !Mirrors(CopyOf(s', 31, 7), s'.db, 7)
  {
    StepPoll(s, 31, [7]);
    hide Step, DoPoll, Base, PollAccepted, CopyEvents, EventsOf, GetNotifications, HasEntry, InChat, Mirrors, DbOk,
         Distinct;
    HeldPolled(s, 31, [7], 7);
    MissesMember(CopyOf(s, 31, 7), DoPoll(s, 31, [7]).db, 2);
  }

  /** What a poll does to a chat that the client holds. */
  lemma HeldPolled(s: Sys, sid: int, order: seq<int>, c: int)
    requires Base(s) && PollAccepted(s, sid, order) && Holds(s, sid, c)
    ensures var s', se := DoPoll(s, sid, order), s.sessions[sid];
      && DbOk(s'.db, s.now) && s'.now == s.now && Holds(s', sid, c) && s'.sessions[sid].replica.lastNotif == s.now
      && CopyOf(s', sid, c) == CopyEvents(CopyOf(s, sid, c), c,
                                 EventsOf(GetNotifications(s'.db, s.now, se.user, se.replica.lastNotif)))
      && (forall x, k :: HasEntry(s'.db, x, k) <==> HasEntry(s.db, x, k))
      && (forall x, k :: InChat(s'.db, x, k) <==> InChat(s.db, x, k))
  {
    PollExact(s, sid, order);
    NoticeIs(s, sid, order);
    SyncedEntry(s.db, DoPoll(s, sid, order).db);
    hide DoPoll, NoticeOf, EventsOf, GetNotifications, CopyEvents, HasEntry, InChat, Base, DbOk;
  }
}

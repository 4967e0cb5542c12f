// Concrete runs in which the code misses what it is for.
module Counterexamples {
  import opened Common
  import opened Tables
  import opened Handlers
  import opened Window
  import opened Replica
  import opened System
  import opened RoundLemmas
  import opened SessionInvariant
  import opened History

  lemma FilterOne<T(!new)>(x: T, p: T -> bool)
    ensures Filter([x], p) == if p(x) then [x] else []
  {
  }

  lemma FilterTwo<T(!new)>(x: T, y: T, p: T -> bool)
    ensures Filter([x, y], p) == (if p(x) then [x] else []) + (if p(y) then [y] else [])
  {
  }

  // ---- Two friends ------------------------------------------------------------------------------------------------

  const FRIENDS_DB := Db(map[SYSTEM := false, 2 := true, 3 := true], map[], [], [], [FriendRow(2, 3, 1)], [])
  const MEET := [Join(2), Join(3)] + [Befriend(2, 3), Accept(3, 2)]

  lemma Meet()
    ensures Run(Init(1), MEET) == Init(1).(db := FRIENDS_DB)
  {
    var s1 := Step(Init(1), Join(2));
    var s2 := Step(s1, Join(3));
    assert s2.db.users == FRIENDS_DB.users;
    var s3 := Step(s2, Befriend(2, 3));
    assert s3.db.requests == [FriendRow(2, 3, 1)];
    FilterOne(FriendRow(2, 3, 1), OtherRequests(2, 3));
    var s4 := Step(s3, Accept(3, 2));
    assert s4.db.requests == [];
    RunTwo(Init(1), Join(2), Join(3));
    RunTwo(s2, Befriend(2, 3), Accept(3, 2));
    RunConcat(Init(1), [Join(2), Join(3)], [Befriend(2, 3), Accept(3, 2)]);
  }

  // ---- One of them makes a chat and leaves it to the other --------------------------------------------------------

  const ROWS := [MemberRow(2, 7, 1, 1, 1), MemberRow(3, 7, 1, 1, 0)]
  const CHAT := ChatRow(3, "", 1, 1, true, 0)
  const CHAT_DB := FRIENDS_DB.(chats := map[7 := CHAT], members := ROWS)
  const SETTLE := [Login(20, 2), Create(20, 3, "", 7)] + [Part(2, 7), Logout(20)]

  lemma FriendsOfTwo()
    ensures SelectFriends(FRIENDS_DB, 2, 0) == [3]
  {
    var rows := FRIENDS_DB.friends;
    assert rows[..0] == [] && FriendsOf(FRIENDS_DB, [], 2, 0) == [];
    assert FriendsOf(FRIENDS_DB, rows, 2, 0) == [] + [3];
  }

  lemma Create7()
    ensures var s := Init(1).(db := FRIENDS_DB);
      var s2 := Step(Step(s, Login(20, 2)), Create(20, 3, "", 7));
      && s2 == s.(db := s2.db, sessions := s2.sessions) && s2.sessions.Keys == {20}
      && s2.sessions[20].user == 2 && 3 in s2.sessions[20].replica.friends
      && s2.db == FRIENDS_DB.(chats := map[7 := CHAT.(admin := 2)],
                              members := [MemberRow(2, 7, 1, 1, 0), MemberRow(3, 7, 1, 1, 0)])
  {
    var s := Init(1).(db := FRIENDS_DB);
    LoginOfTwo();
    hide LoadData;
    var s1 := Step(s, Login(20, 2));
    assert s1.db == s.db && s1.sessions[20].user == 2 && 3 in s1.sessions[20].replica.friends;
    CreateOfTwo();
    hide CreateChat;
  }

  lemma LoginOfTwo()
    ensures 3 in LoadData(FRIENDS_DB, 1, 2).friends
  {
    FriendsOfTwo();
    assert AddFriends([], [3]) == [3] by { assert [3][..0] == []; }
    hide SelectFriends, AddFriends;
    AddCopiesExact(Replica(1, 0, [3], map[]), FRIENDS_DB, ChatRowsFor(FRIENDS_DB, 2, 0), 0, None);
  }

  lemma CreateOfTwo()
    ensures CreateChat(FRIENDS_DB, 1, 2, 3, "", 7).db
         == FRIENDS_DB.(chats := map[7 := CHAT.(admin := 2)],
                        members := [MemberRow(2, 7, 1, 1, 0), MemberRow(3, 7, 1, 1, 0)])
  {
  }

  lemma PartSecond(db: Db)
    requires db == CHAT_DB.(chats := map[7 := CHAT.(admin := 2)],
                            members := [MemberRow(2, 7, 1, 1, 0), MemberRow(3, 7, 1, 1, 0)])
    ensures Quit(db, 1, 2, 7).db == CHAT_DB
  {
    assert db.members[0] in db.members && InChat(db, 2, 7);
    assert DelUserChat(db, 2, 7, 1).members == ROWS && ROWS[1] in ROWS;
    FilterTwo(ROWS[0], ROWS[1], ActiveFilter(7));
  }

  lemma Settle()
    ensures Run(Init(1).(db := FRIENDS_DB), SETTLE) == Init(1).(db := CHAT_DB)
  {
    hide Run, DoLogin, DoCreate, Quit;
    var s := Init(1).(db := FRIENDS_DB);
    Create7();
    var s2 := Step(Step(s, Login(20, 2)), Create(20, 3, "", 7));
    PartSecond(s2.db);
    var s3 := Step(s2, Part(2, 7));
    assert s3 == s2.(db := CHAT_DB);
    assert Step(s3, Logout(20)).sessions == map[];
    hide Step;
    RunTwo(s, Login(20, 2), Create(20, 3, "", 7));
    RunTwo(s2, Part(2, 7), Logout(20));
    RunConcat(s, [Login(20, 2), Create(20, 3, "", 7)], [Part(2, 7), Logout(20)]);
  }

  // ---- The other reads, and asks once too often -------------------------------------------------------------------

  function Entered(): Sys {
    Init(1).(db := CHAT_DB, sessions := map[30 := Session(3, Replica(1, 1, [2], map[7 := LOADED]))])
  }

  const LOADED := ChatCopy(1, 0, 0, 3, [3], 0, Box([], 0), [], {}, 0, [], 1, 2, {})

  lemma FriendsOf3()
    ensures AddFriends([], SelectFriends(CHAT_DB, 3, 0)) == [2]
  {
    assert SelectFriends(CHAT_DB, 3, 0) == [2] by { assert CHAT_DB.friends[..0] == []; }
    assert AddFriends([], [2]) == [2] by { assert [2][..0] == []; }
  }

  lemma LoadedCopy()
    ensures ChatRowsFor(CHAT_DB, 3, 0) == [ROWS[1]]
    ensures NewCopy(CHAT_DB, ROWS[1], 0, 1, None) == LOADED
  {
    FilterTwo(ROWS[0], ROWS[1], ChatRowFilter(CHAT_DB, 3, 0));
    FilterTwo(ROWS[0], ROWS[1], MemberFilter(7, 0));
    assert MemberNames(CHAT_DB, 7, 0) == [3];
  }

  lemma Enter()
    ensures Step(Init(1).(db := CHAT_DB), Login(30, 3)) == Entered()
  {
    FriendsOf3();
    LoadedCopy();
    var r := Replica(1, 0, [2], map[]);
    hide AddFriends, SelectFriends, ChatRowsFor, MemberNames;
    assert AddCopies(r, CHAT_DB, [ROWS[1]], 0, None) == AddCopy(r, CHAT_DB, ROWS[1], 0, None) by {
      assert [ROWS[1]][..0] == [];
    }
    NotRefused(r);
    assert AddCopy(r, CHAT_DB, ROWS[1], 0, None).chats == map[7 := LOADED];
    assert LastCreation(CHAT_DB, [ROWS[1]]) == 1 by { assert [ROWS[1]][..0] == []; }
  }

  lemma NotRefused(r: Replica)
    requires r.chats == map[]
    ensures !Refused(r, CHAT_DB, 7, 0)
  {
  }

  const FIRST := MessageRow(3, 7, 2, "a", None)
  const SECOND := MessageRow(3, 7, 3, "b", None)
  const STORED := Stored(None, "a", 2, None)

  /** The client's copy after one fetch, after a second one in the same second, and after the chat was displayed. */
  const READ := ChatCopy(1, 0, 0, 3, [3], 3, Box([STORED], 1), [STORED], {}, 0, [STORED], 1, 2, {})
  const AHEAD := READ.(cursor := 4, skipped := {3})
  const SHOWN := AHEAD.(readTs := 4, box := Box([STORED], 0), seen := 1, appended := [])

  function At(now: int, messages: seq<MessageRow>, copy: ChatCopy, ever: set<(int, int, int)>,
              missed: set<(int, int, int)>): Sys {
    Sys(CHAT_DB.(messages := messages), now, map[30 := Session(3, Replica(1, 1, [2], map[7 := copy]))], ever, {},
        missed, {})
  }

  lemma Talk()
    ensures Step(Entered(), Tick(1)) == At(2, [], LOADED, {}, {})
    ensures Step(At(2, [], LOADED, {}, {}), Say(3, 7, "a", None)) == At(2, [FIRST], LOADED, {}, {})
  {
    var s := At(2, [], LOADED, {}, {});
    assert ROWS[1] in s.db.members && InChat(s.db, 3, 7);
    assert FirstFree(s.db, 7, 2) == 2;
  }

  lemma SetAt(now: int, messages: seq<MessageRow>, copy: ChatCopy, copy': ChatCopy, ever: set<(int, int, int)>,
              missed: set<(int, int, int)>)
    ensures SetCopy(At(now, messages, copy, ever, missed), 30, 7, copy') == At(now, messages, copy', ever, missed)
  {
    assert map[7 := copy][7 := copy'] == map[7 := copy'];
    var a, b := Session(3, Replica(1, 1, [2], map[7 := copy])), Session(3, Replica(1, 1, [2], map[7 := copy']));
    assert map[30 := a][30 := b] == map[30 := b];
  }

  lemma Received()
    ensures Receive(LOADED, 3, MessageList([FIRST], 3)) == READ
    ensures Receive(READ, 3, MessageList([], 4)) == AHEAD
  {
    assert LocalizeAll(3, [FIRST]) == [STORED] by { assert [FIRST][..0] == []; }
    BatchExact(LOADED.box, MAX_MESSAGES, LOADED.readTs, [STORED]);
    assert CountAbove([STORED], 1) == 1 by { assert [STORED][1..] == []; }
    BatchExact(READ.box, MAX_MESSAGES, READ.readTs, []);
    hide AddMessages;
    assert [] + [STORED] == [STORED] && [STORED] + [] == [STORED];
  }

  lemma Replies()
    ensures GetChatMessages(CHAT_DB.(messages := [FIRST]), 3, 7, 0) == Some(MessageList([FIRST], 3))
    ensures GetChatMessages(CHAT_DB.(messages := [FIRST]), 3, 7, 3) == Some(MessageList([], 4))
  {
  }

  lemma FetchOnce()
    ensures Step(At(2, [FIRST], LOADED, {}, {}), Fetch(30, 7)) == At(2, [FIRST], READ, {(3, 7, 2)}, {})
  {
    Replies();
    Received();
    SetAt(2, [FIRST], LOADED, READ, {}, {});
    assert (set m | m in [FIRST] :: (3, 7, m.ts)) == {(3, 7, 2)};
    hide Receive, GetChatMessages, SetCopy;
  }

  lemma FetchTwice()
    ensures Step(At(2, [FIRST], READ, {(3, 7, 2)}, {}), Fetch(30, 7)) == At(2, [FIRST], AHEAD, {(3, 7, 2)}, {(3, 7, 3)})
  {
    var s := At(2, [FIRST], READ, {(3, 7, 2)}, {});
    Replies();
    Received();
    SetAt(2, [FIRST], READ, AHEAD, {(3, 7, 2)}, {});
    assert (set m: MessageRow | m in [] :: (3, 7, m.ts)) == {};
    assert (set t | t in Skips(3, MessageList([], 4)) :: (3, 7, t)) == {(3, 7, 3)};
    hide Receive, GetChatMessages, SetCopy;
  }

  lemma Display()
    ensures Step(At(2, [FIRST], AHEAD, {(3, 7, 2)}, {(3, 7, 3)}), Show(30, 7))
         == At(2, [FIRST], SHOWN, {(3, 7, 2)}, {(3, 7, 3)})
  {
    SetAt(2, [FIRST], AHEAD, SHOWN, {(3, 7, 2)}, {(3, 7, 3)});
  }

  // ---- What goes wrong --------------------------------------------------------------------------------------------

  const ALONE := MEET + SETTLE + [Login(30, 3), Tick(1)]
  const OPENING := ALONE + [Say(3, 7, "a", None), Fetch(30, 7)]

  lemma Alone()
    ensures Run(Init(1), ALONE) == At(2, [], LOADED, {}, {})
  {
    Meet();
    Settle();
    Enter();
    Talk();
    hide Step;
    RunConcat(Init(1), MEET, SETTLE);
    RunTwo(Init(1).(db := CHAT_DB), Login(30, 3), Tick(1));
    RunConcat(Init(1), MEET + SETTLE, [Login(30, 3), Tick(1)]);
  }

  lemma Opening()
    ensures Run(Init(1), OPENING) == At(2, [FIRST], READ, {(3, 7, 2)}, {})
  {
    Alone();
    Talk();
    FetchOnce();
    hide Step, Run;
    RunTwo(At(2, [], LOADED, {}, {}), Say(3, 7, "a", None), Fetch(30, 7));
    RunConcat(Init(1), ALONE, [Say(3, 7, "a", None), Fetch(30, 7)]);
  }

  lemma SecondMessage(db: Db)
    requires db.users == CHAT_DB.users && db.messages == [FIRST]
    requires exists r :: r in db.members && r.user == 3 && r.chat == 7 && r.rem == 0
    ensures var o := SendMessage(db, 2, 3, 7, "b", None);
      o.db == db.(messages := [FIRST, SECOND]) && o.now == 3
  {
    assert InChat(db, 3, 7);
    assert FIRST in db.messages && Stamped(db, 7, 2);
    assert FirstFree(db, 7, 2) == FirstFree(db, 7, 3) == 3;
  }

  const OVERTAKEN := OPENING + [Fetch(30, 7), Say(3, 7, "b", None)]

  /** A member asks twice within one second, and the message he sends next never reaches him: it is below the cursor
      and not in what the client was handed. */
  lemma MessageLost()
    ensures var s := Run(Init(1), OVERTAKEN);
      && Holds(s, 30, 7) && ROWS[1] in s.db.members && ROWS[1].user == s.sessions[30].user && SECOND in s.db.messages
      && ROWS[1].creation < SECOND.ts < CopyOf(s, 30, 7).cursor
      && !Has(CopyOf(s, 30, 7).log, 3, SECOND)
  {
    Opening();
    FetchTwice();
    var s := At(2, [FIRST], AHEAD, {(3, 7, 2)}, {(3, 7, 3)});
    assert ROWS[1] in s.db.members;
    SecondMessage(s.db);
    hide SendMessage, DoFetch;
    RunTwo(At(2, [FIRST], READ, {(3, 7, 2)}, {}), Fetch(30, 7), Say(3, 7, "b", None));
    RunConcat(Init(1), OPENING, [Fetch(30, 7), Say(3, 7, "b", None)]);
    assert Run(Init(1), OVERTAKEN).db.messages == [FIRST, SECOND];
    assert SECOND == [FIRST, SECOND][1];
  }

  lemma SyncSingle(y: Synced, u: int, chats: map<int, ChatCopy>, c: int)
    requires c in chats
    ensures SyncAll(y, u, chats, [c]).db == UpdateSync(y.db, u, c, chats[c].readTs)
  {
  }

  lemma ReportTables(db: Db, t: int)
    requires db == CHAT_DB.(messages := db.messages) && 1 < t
    ensures UpdateSync(db, 3, 7, t)
      == db.(members := [ROWS[0], ROWS[1].(read := t)], chats := map[7 := CHAT.(readTime := t)])
  {
  }

  /** What a report of the stamp t does to the one-member chat. */
  lemma Report(copy: ChatCopy, ever: set<(int, int, int)>, missed: set<(int, int, int)>)
    requires 1 < copy.readTs
    ensures var s := At(2, [FIRST], copy, ever, missed);
      var s' := Step(s, Poll(30, [7]));
      && s'.db == s.db.(members := [ROWS[0], ROWS[1].(read := copy.readTs)],
                        chats := map[7 := CHAT.(readTime := copy.readTs)])
      && s'.ever == ever && s'.now == 2
  {
    hide *;
    var s := At(2, [FIRST], copy, ever, missed);
    AtParts(2, [FIRST], copy, ever, missed);
    SyncSingle(Synced(s.db, s.shown), 3, map[7 := copy], 7);
    ReportTables(s.db, copy.readTs);
    PollKeepsEver(s, 30, [7]);
    StepPoll(s, 30, [7]);
    SyncedByAll(s, 30, [7]);
  }

  lemma SyncedByAll(s: Sys, sid: int, order: seq<int>)
    requires sid in s.sessions
    ensures SyncedBy(s, sid, order)
      == SyncAll(Synced(s.db, s.shown), s.sessions[sid].user, s.sessions[sid].replica.chats, order)
  {
  }

  lemma AtParts(now: int, messages: seq<MessageRow>, copy: ChatCopy, ever: set<(int, int, int)>,
                missed: set<(int, int, int)>)
    ensures var s := At(now, messages, copy, ever, missed);
      && s.db == CHAT_DB.(messages := messages) && s.now == now && s.ever == ever
      && 30 in s.sessions && s.sessions[30].user == 3 && s.sessions[30].replica.chats == map[7 := copy]
      && PollAccepted(s, 30, [7])
  {
  }

  const TICKED := OPENING + [Fetch(30, 7), Show(30, 7)] + [Poll(30, [7]), Say(3, 7, "b", None)]

  /** The same mistake breaks the double check: the report of the overtaken cursor sets READ_TIME past a stamp that is
      given out later, and the message of that stamp counts as read by everybody before anybody has it. */
  lemma FalseDoubleCheck()
    ensures var s := Run(Init(1), TICKED);
      && SECOND in s.db.messages && SECOND.ts < ReadTimeOf(s.db, 7)
      && (exists r :: r in s.db.members && r.user == 3 && r.chat == 7 && r.rem == 0 && r.creation < SECOND.ts)
      && !WasDelivered(1, TICKED, 3, 7, SECOND.ts)
  {
    Opening();
    FetchTwice();
    Display();
    Report(SHOWN, {(3, 7, 2)}, {(3, 7, 3)});
    var s1, s2 := At(2, [FIRST], READ, {(3, 7, 2)}, {}), At(2, [FIRST], SHOWN, {(3, 7, 2)}, {(3, 7, 3)});
    TickRun(s2, 4);
    RunTwo(s1, Fetch(30, 7), Show(30, 7));
    RunConcat(Init(1), OPENING, [Fetch(30, 7), Show(30, 7)]);
    RunConcat(Init(1), OPENING + [Fetch(30, 7), Show(30, 7)], [Poll(30, [7]), Say(3, 7, "b", None)]);
    NotDelivered(TICKED);
  }

  lemma NotDelivered(ls: seq<Label>)
    requires (3, 7, 3) !in Run(Init(1), ls).ever
    ensures !WasDelivered(1, ls, 3, 7, 3)
  {
    hide WasDelivered;
    if WasDelivered(1, ls, 3, 7, 3) {
      DeliveredIsRecorded(1, ls, 3, 7, 3);
    }
  }

  /** Reporting t and sending again, from a state in which the report is the one of `Report`. */
  lemma TickRun(s2: Sys, t: int)
    requires s2.now == 2 && s2.db == CHAT_DB.(messages := [FIRST]) && s2.ever == {(3, 7, 2)}
    requires var s' := Step(s2, Poll(30, [7]));
      && s'.db == s2.db.(members := [ROWS[0], ROWS[1].(read := t)], chats := map[7 := CHAT.(readTime := t)])
      && s'.ever == s2.ever && s'.now == 2
    ensures var s := Run(s2, [Poll(30, [7]), Say(3, 7, "b", None)]);
      && SECOND in s.db.messages && ReadTimeOf(s.db, 7) == t && (3, 7, 3) !in s.ever
      && exists r :: r in s.db.members && r.user == 3 && r.chat == 7 && r.rem == 0 && r.creation < SECOND.ts
  {
    var s3 := Step(s2, Poll(30, [7]));
    assert s3.db.members[1] in s3.db.members;
    SecondMessage(s3.db);
    RunTwo(s2, Poll(30, [7]), Say(3, 7, "b", None));
    hide Run, DoPoll, SendMessage;
    var s := Step(s3, Say(3, 7, "b", None));
    assert s.db.messages == [FIRST, SECOND] && SECOND == s.db.messages[1];
    assert s.db.members[1] in s.db.members;
  }

  const EQUAL := OPENING + [Show(30, 7), Poll(30, [7]) ] + [Say(3, 7, "b", None)]
  const CAUGHT_UP := READ.(readTs := 3, box := Box([STORED], 0), seen := 1, appended := [])

  lemma ShowCatchesUp()
    ensures Step(At(2, [FIRST], READ, {(3, 7, 2)}, {}), Show(30, 7)) == At(2, [FIRST], CAUGHT_UP, {(3, 7, 2)}, {})
  {
    SetAt(2, [FIRST], READ, CAUGHT_UP, {(3, 7, 2)}, {});
  }

  /** The screen draws the tick up to and including READ_TIME. Although no client has stepped over any stamp, the chat
      can still give that very stamp to the next message, so only the strict comparison is sound. */
  lemma TickAtReadTime()
    ensures var s := Run(Init(1), EQUAL);
      && SECOND in s.db.messages && SECOND.ts == ReadTimeOf(s.db, 7) && s.missed == {}
      && (exists r :: r in s.db.members && r.user == 3 && r.chat == 7 && r.rem == 0 && r.creation < SECOND.ts)
      && !WasDelivered(1, EQUAL, 3, 7, SECOND.ts)
  {
    Opening();
    var s1, s2 := At(2, [FIRST], READ, {(3, 7, 2)}, {}), At(2, [FIRST], CAUGHT_UP, {(3, 7, 2)}, {});
    ShowCatchesUp();
    hide Step, Run, ReadTimeOf, WasDelivered;
    Report(CAUGHT_UP, {(3, 7, 2)}, {});
    TickRun(s2, 3);
    EqualRun(s1, s2);
    NotDelivered(EQUAL);
  }

  lemma EqualRun(s1: Sys, s2: Sys)
    requires Run(Init(1), OPENING) == s1 && Step(s1, Show(30, 7)) == s2 && s2.missed == {}
    ensures Run(Init(1), EQUAL) == Run(s2, [Poll(30, [7]), Say(3, 7, "b", None)])
    ensures Run(Init(1), EQUAL).missed == {}
  {
    RunTwo(s1, Show(30, 7), Poll(30, [7]));
    RunConcat(Init(1), OPENING, [Show(30, 7), Poll(30, [7])]);
    var s3 := Step(s2, Poll(30, [7]));
    assert s3.missed == {} by { hide SyncAll, Round, GetNotifications; }
    assert Step(s3, Say(3, 7, "b", None)).missed == {} by { hide SendMessage, DoPoll; }
    hide Step;
    RunConcat(Init(1), OPENING + [Show(30, 7), Poll(30, [7])], [Say(3, 7, "b", None)]);
    RunOne(s3, Say(3, 7, "b", None));
    RunTwo(s2, Poll(30, [7]), Say(3, 7, "b", None));
  }
}

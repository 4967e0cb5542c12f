// The converse of the double check: whoever steps over a stamp that is still to come can make READ_TIME pass a message
// that nobody has delivered.
module FalseCheck {
  import opened Common
  import opened Tables
  import opened Handlers
  import opened Window
  import opened Replica
  import opened TableInvariant
  import opened System
  import opened History
  import opened SessionInvariant
  import opened MessageLog
  import opened Delivery
  import opened AdminSafety
  import opened CursorExactness
  import opened HarmfulFetches
  import opened Guarantees

  // ---- What was handed to a client has a stamp --------------------------------------------------------------------

  ghost predicate EverStamped(s: Sys) {
    forall p :: p in s.ever ==> Stamped(s.db, p.1, p.2)
  }

  lemma StampedStays(db: Db, db': Db)
    requires db.messages <= db'.messages
    ensures forall c, t :: Stamped(db, c, t) ==> Stamped(db', c, t)
  {
    assert forall m :: m in db.messages ==> m in db'.messages;
  }

  lemma EverStampedFetch(s: Sys, sid: int, c: int)
    requires EverStamped(s)
    ensures EverStamped(DoFetch(s, sid, c))
  {
    hide Receive;
  }

  lemma EverStampedStep(s: Sys, l: Label)
    requires Base(s) && EverStamped(s)
    ensures EverStamped(Step(s, l))
  {
    hide DoLogin, DoPoll, DoFetch, DoCreate, DoLeave, DoSay, Stamped;
    match l {
      case Login(sid, u) => LoginKeeps(s, sid, u);
      case Poll(sid, order) => PollKeeps(s, sid, order);
      case Fetch(sid, c) => EverStampedFetch(s, sid, c);
      case Logout(_) =>
      case Show(_, _) =>
      case _ =>
        ServerMoves(s, l);
        StampedStays(s.db, Step(s, l).db);
    }
  }

  lemma LoginKeeps(s: Sys, sid: int, u: int)
    ensures DoLogin(s, sid, u).db == s.db && DoLogin(s, sid, u).ever == s.ever
  {
  }

  lemma PollKeeps(s: Sys, sid: int, order: seq<int>)
    requires Base(s) && EverStamped(s)
    ensures EverStamped(DoPoll(s, sid, order))
  {
    if PollAccepted(s, sid, order) {
      PollExact(s, sid, order);
      StampedStays(s.db, DoPoll(s, sid, order).db);
    }
  }

  lemma {:induction false} EverStampedAlways(t0: int, ls: seq<Label>)
    requires 1 <= t0
    ensures EverStamped(Run(Init(t0), ls))
  {
    if ls != [] {
      BaseAlways(t0, ls[..|ls| - 1]);
      EverStampedAlways(t0, ls[..|ls| - 1]);
      EverStampedStep(Run(Init(t0), ls[..|ls| - 1]), ls[|ls| - 1]);
    }
  }

  // ---- A message that the client has stepped over -----------------------------------------------------------------

  /** The member's message lies below his client's cursor, and no client of his has been handed it. */
  ghost predicate SteppedOver(s: Sys, sid: int, r: MemberRow, m: MessageRow) {
    && Base(s) && Holds(s, sid, r.chat) && s.sessions[sid].user == r.user && UserValid(s.db, r.user)
    && r in s.db.members && r.rem == 0 && m in s.db.messages && m.chat == r.chat
    && r.creation < m.ts < CopyOf(s, sid, r.chat).cursor && (r.user, r.chat, m.ts) !in s.ever
  }

  ghost predicate NoFetches(ls: seq<Label>) {
    forall l :: l in ls ==> !l.Fetch?
  }

  lemma NoneUnsafe(s: Sys, ls: seq<Label>, c: int)
    requires NoFetches(ls)
    ensures SafeFetches(s, ls, c)
  {
  }

  /** After an unsafe fetch the user waits for the stamp that he has stepped over, and sends. */
  lemma StepsOver(s: Sys, sid: int, c: int) returns (r: MemberRow, m: MessageRow, ls: seq<Label>)
    requires Base(s) && Delivered(s) && EverStamped(s) && Holds(s, sid, c)
    requires GetChatMessages(s.db, s.sessions[sid].user, c, CopyOf(s, sid, c).cursor).Some?
    requires !FetchSafe(s, sid, c)
    ensures r.chat == c && SteppedOver(Run(DoFetch(s, sid, c), ls), sid, r, m) && NoFetches(ls)
    ensures r.user == s.sessions[sid].user
    ensures var s' := Run(DoFetch(s, sid, c), ls);
      Delivered(s') && s'.now == m.ts && CopyOf(s', sid, c).cursor == m.ts + 1
  {
    hide DoFetch, Base, FetchSafe, GetChatMessages, Delivered, EverStamped, Run, SayAt, NoFetches, NextStamp;
    r := EmptyFetch(s, sid, c);
    var s1, t := DoFetch(s, sid, c), CopyOf(s, sid, c).cursor;
    NextStampNow(s, s1, c);
    BaseFetchShow(s, sid, c);
    ls := SayAt(s.now, r.user, c, t);
    m := MessageRow(r.user, c, t, "", None);
    SayFetchesNothing(s.now, r.user, c, t);
    NotYet(s, r.user, c, t);
    NothingHanded(s, sid, c);
    DeliveredFetch(s, sid, c);
    DeliveredSay(s1, r, t);
    SaidAt(s1, r, t);
    BaseRun(s1, ls);
    assert m == Run(s1, ls).db.messages[|s.db.messages|];
  }

  lemma NextStampNow(s: Sys, s1: Sys, c: int)
    requires s1.db == s.db && s1.now == s.now
    ensures NextStamp(s1.db, s1.now, c) == NextStamp(s.db, s.now, c) >= s.now
  {
  }

  lemma SayFetchesNothing(now: int, u: int, c: int, t: int)
    requires now <= t
    ensures NoFetches(SayAt(now, u, c, t))
  {
  }

  lemma NotYet(s: Sys, u: int, c: int, t: int)
    requires Base(s) && EverStamped(s) && NextStamp(s.db, s.now, c) <= t
    ensures (u, c, t) !in s.ever
  {
    if (u, c, t) in s.ever {
      assert Stamped(s.db, (u, c, t).1, (u, c, t).2);
      var m :| m in s.db.messages && m.chat == c && m.ts == t;
      NotStamped(s.db, s.now, c, m);
      assert false;
    }
  }

  lemma NothingHanded(s: Sys, sid: int, c: int)
    requires Holds(s, sid, c) && !FetchSafe(s, sid, c)
    ensures DoFetch(s, sid, c).ever == s.ever
  {
    hide Receive;
  }

  // ---- He sends once more, if his window is empty, and reads ------------------------------------------------------

  lemma SaysAgain(s: Sys, sid: int, r: MemberRow, m: MessageRow) returns (ls: seq<Label>, q: MessageRow)
    requires SteppedOver(s, sid, r, m) && Delivered(s) && s.now == m.ts && CopyOf(s, sid, r.chat).cursor == m.ts + 1
    ensures NoFetches(ls)
    ensures var s' := Run(s, ls);
      && SteppedOver(s', sid, r, m) && Delivered(s')
      && q in s'.db.messages && q.chat == r.chat && q.ts == CopyOf(s', sid, r.chat).cursor
  {
    ls := SayAt(s.now, r.user, r.chat, m.ts + 1);
    q := MessageRow(r.user, r.chat, m.ts + 1, "", None);
    SayFetchesNothing(s.now, r.user, r.chat, m.ts + 1);
    assert Stamped(s.db, r.chat, m.ts);
    hide Base, Delivered, Run, SayAt, Stamped;
    SaidAt(s, r, m.ts + 1);
    DeliveredSay(s, r, m.ts + 1);
    BaseRun(s, ls);
    assert Run(s, ls).db.messages[|s.db.messages|] == q;
  }

  lemma FillsWindow(s: Sys, sid: int, r: MemberRow, m: MessageRow) returns (ls: seq<Label>)
    requires SteppedOver(s, sid, r, m) && Delivered(s) && s.now == m.ts && CopyOf(s, sid, r.chat).cursor == m.ts + 1
    ensures SteppedOver(Run(s, ls), sid, r, m) && CopyOf(Run(s, ls), sid, r.chat).box.items != []
    ensures SafeFetches(s, ls, r.chat)
  {
    if CopyOf(s, sid, r.chat).box.items != [] {
      ls := [];
    } else {
      var say, q := SaysAgain(s, sid, r, m);
      ls := say + [Fetch(sid, r.chat)];
      hide Run, Step, Delivered, DoFetch, FetchSafe, SafeFetches;
      NoneUnsafe(s, say, r.chat);
      BringsSome(Run(s, say), sid, r, m, q);
      OneSafe(Run(s, say), sid, r.chat);
      SafeThenSafe(s, say, [Fetch(sid, r.chat)], r.chat);
      FetchesNow(Run(s, say), sid, r, m, q);
      RunLast(s, say, Fetch(sid, r.chat));
      StepFetch(Run(s, say), sid, r.chat);
      hide SteppedOver;
    }
  }

  lemma BringsSome(s: Sys, sid: int, r: MemberRow, m: MessageRow, q: MessageRow)
    requires SteppedOver(s, sid, r, m)
    requires q in s.db.messages && q.chat == r.chat && q.ts == CopyOf(s, sid, r.chat).cursor
    ensures FetchSafe(s, sid, r.chat)
  {
    assert VisibleTo(s.db, r.user, q);
    assert q in SelectMessages(s.db, r.user, r.chat, CopyOf(s, sid, r.chat).cursor);
  }

  lemma OneSafe(s: Sys, sid: int, c: int)
    requires Holds(s, sid, c) && FetchSafe(s, sid, c)
    ensures SafeFetches(s, [Fetch(sid, c)], c)
  {
    hide FetchSafe;
    assert [Fetch(sid, c)][..0] == [] && Run(s, []) == s;
  }

  lemma DeliveredSay(s: Sys, r: MemberRow, t: int)
    requires Base(s) && Delivered(s) && s.now <= t
    ensures Delivered(Run(s, SayAt(s.now, r.user, r.chat, t)))
  {
    var tick, say := Tick(t - s.now), Say(r.user, r.chat, "", None);
    assert SayAt(s.now, r.user, r.chat, t) == [tick, say] && IsServerLabel(tick) && IsServerLabel(say);
    hide *;
    DeliveredLabel(s, tick);
    DeliveredLabel(Step(s, tick), say);
    RunTwo(s, tick, say);
  }

  /** A reply with a message fills the window and moves the cursor on. */
  lemma ReceivesSome(s: Sys, sid: int, r: MemberRow, list: MessageList, q: MessageRow)
    requires Base(s) && Delivered(s) && Holds(s, sid, r.chat) && s.sessions[sid].user == r.user
    requires IsReply(s.db, s.now, r, CopyOf(s, sid, r.chat).cursor, list)
    requires q in s.db.messages && q.chat == r.chat && r.creation < q.ts == CopyOf(s, sid, r.chat).cursor
    ensures var copy := Receive(CopyOf(s, sid, r.chat), r.user, list);
      copy.box.items != [] && CopyOf(s, sid, r.chat).cursor < copy.cursor
  {
    var copy := CopyOf(s, sid, r.chat);
    assert CopyDelivered(s, r.user, r.chat, copy);
    ReplyCursor(s.db, s.now, r, copy.cursor, list);
    ReplyAscending(s.db, s.now, r, copy.cursor, list);
    MessagesPositive(s.db, s.now);
    assert q in list.rows;
    hide Base, Delivered, DbOk, IsReply, UnreadOk, SkipsOk, RowDelivered;
    ReceiveExact(copy, r.user, list);
  }

  lemma FetchesNow(s: Sys, sid: int, r: MemberRow, m: MessageRow, q: MessageRow)
    requires SteppedOver(s, sid, r, m) && Delivered(s)
    requires q in s.db.messages && q.chat == r.chat && q.ts == CopyOf(s, sid, r.chat).cursor
    ensures SteppedOver(DoFetch(s, sid, r.chat), sid, r, m)
    ensures CopyOf(DoFetch(s, sid, r.chat), sid, r.chat).box.items != []
  {
    BaseFetchShow(s, sid, r.chat);
    Accepted(s, sid, r);
    hide Delivered, GetChatMessages, IsReply, DoFetch, Receive, UserValid, SessionOk;
    var r1, list := FetchReply(s, sid, r.chat);
    OneRow(s.db, r, r1);
    hide Base, DbOk;
    FetchOthers(s, sid, r.chat);
    FetchedCopyIs(s, sid, r.chat, list);
    HandedAbove(s, sid, r.chat, list, r.user, m.ts);
    ReceivesSome(s, sid, r, list, q);
  }

  lemma Accepted(s: Sys, sid: int, r: MemberRow)
    requires Base(s) && Holds(s, sid, r.chat) && r in s.db.members && r.rem == 0 && UserValid(s.db, r.user)
    ensures GetChatMessages(s.db, r.user, r.chat, CopyOf(s, sid, r.chat).cursor).Some?
  {
    var i :| 0 <= i < |s.db.members| && s.db.members[i] == r;
    assert RowOk(s.db, s.now, s.db.members[i]) && InChat(s.db, r.user, r.chat);
  }

  /** A fetch hands out nothing below the cursor. */
  lemma HandedAbove(s: Sys, sid: int, c: int, list: MessageList, u: int, t: int)
    requires Holds(s, sid, c) && t < CopyOf(s, sid, c).cursor
    requires GetChatMessages(s.db, s.sessions[sid].user, c, CopyOf(s, sid, c).cursor) == Some(list)
    requires (u, c, t) !in s.ever
    ensures (u, c, t) !in DoFetch(s, sid, c).ever
  {
    hide Receive;
  }

  lemma ShownCopy(s: Sys, sid: int, c: int)
    requires Holds(s, sid, c) && CopyOf(s, sid, c).box.items != []
    ensures var s' := DoShow(s, sid, c);
      && s' == s.(sessions := s'.sessions) && Holds(s', sid, c) && s'.sessions[sid].user == s.sessions[sid].user
      && CopyOf(s', sid, c).cursor == CopyOf(s', sid, c).readTs == CopyOf(s, sid, c).cursor
  {
  }

  lemma Reads(s: Sys, sid: int, r: MemberRow, m: MessageRow)
    requires SteppedOver(s, sid, r, m) && CopyOf(s, sid, r.chat).box.items != []
    ensures var s' := DoShow(s, sid, r.chat);
      SteppedOver(s', sid, r, m) && m.ts < CopyOf(s', sid, r.chat).readTs && s'.db == s.db
  {
    BaseFetchShow(s, sid, r.chat);
    hide Base, DoShow, UserValid;
    ShownCopy(s, sid, r.chat);
  }

  // ---- The others leave -------------------------------------------------------------------------------------------

  ghost function Others(db: Db, c: int, u: int): set<int> {
    set r | r in db.members && r.chat == c && r.rem == 0 && r.user != u :: r.user
  }

  lemma PartKeeps(s: Sys, sid: int, r: MemberRow, m: MessageRow, x: int)
    requires SteppedOver(s, sid, r, m) && x in Others(s.db, r.chat, r.user)
    ensures var s' := Step(s, Part(x, r.chat));
      && SteppedOver(s', sid, r, m) && s' == s.(db := s'.db)
      && Others(s'.db, r.chat, r.user) == Others(s.db, r.chat, r.user) - {x}
  {
    var c := r.chat;
    BaseStep(s, Part(x, c));
    var i :| 0 <= i < |s.db.members| && s.db.members[i].user == x && s.db.members[i].chat == c
      && s.db.members[i].rem == 0;
    assert RowOk(s.db, s.now, s.db.members[i]) && InChat(s.db, x, c);
    LeftBehind(s.db, s.now, x, r);
    hide Base, Quit, DbOk, InChat;
  }

  /** A member leaves: his row is closed, and with another member active nothing else happens to the rows. */
  lemma LeftBehind(db: Db, now: int, x: int, r: MemberRow)
    requires 1 <= now && UserValid(db, x) && ChatExist(db, r.chat) && InChat(db, x, r.chat)
    requires r in db.members && r.user != x && r.rem == 0
    ensures var db' := Quit(db, now, x, r.chat).db;
      && db' == db.(chats := db'.chats, members := db'.members) && r in db'.members
      && Others(db', r.chat, r.user) == Others(db, r.chat, r.user) - {x}
  {
    var c := r.chat;
    var db1 := DelUserChat(db, x, c, now);
    var i :| 0 <= i < |db.members| && db.members[i] == r;
    assert db1.members[i] == r;
    assert StillUsers(db1, c);
    assert Quit(db, now, x, c).db.members == db1.members;
    DelUserChatActive(db, x, c, now);
    hide Quit, DelUserChat;
    forall y ensures y in Others(db1, c, r.user) <==> y in Others(db, c, r.user) && y != x {
      assert y in Others(db1, c, r.user) <==> InChat(db1, y, c) && y != r.user;
      assert y in Others(db, c, r.user) <==> InChat(db, y, c) && y != r.user;
    }
  }

  lemma {:induction false} AllLeave(s: Sys, sid: int, r: MemberRow, m: MessageRow) returns (ls: seq<Label>)
    requires SteppedOver(s, sid, r, m)
    ensures var s' := Run(s, ls);
      && SteppedOver(s', sid, r, m) && s' == s.(db := s'.db) && Others(s'.db, r.chat, r.user) == {}
    ensures NoFetches(ls)
    decreases |Others(s.db, r.chat, r.user)|
  {
    if Others(s.db, r.chat, r.user) == {} {
      ls := [];
    } else {
      var x :| x in Others(s.db, r.chat, r.user);
      PartKeeps(s, sid, r, m, x);
      hide Step, SteppedOver, Others;
      var rest := AllLeave(Step(s, Part(x, r.chat)), sid, r, m);
      ls := [Part(x, r.chat)] + rest;
      RunConcat(s, [Part(x, r.chat)], rest);
      RunOne(s, Part(x, r.chat));
    }
  }

  // ---- He reports -------------------------------------------------------------------------------------------------

  /** With nobody else active, the report becomes the READ_TIME. */
  lemma {:induction false} ReportSets(y: Synced, now: int, u: int, chats: map<int, ChatCopy>, order: seq<int>, c: int)
    requires DbOk(y.db, now) && c in order && c in chats && c in y.db.chats && Others(y.db, c, u) == {}
    ensures ReadTimeOf(SyncAll(y, u, chats, order).db, c) == chats[c].readTs
  {
    var front, d := order[..|order| - 1], order[|order| - 1];
    assert order == front + [d];
    var db := SyncAll(y, u, chats, front).db;
    SyncAllFrame(y, now, u, chats, front);
    if d == c {
      SyncedEntry(y.db, db);
      hide SyncAll, SyncFrame, DbOk;
      ReportAlone(y.db, db, u, c, chats[c].readTs);
    } else {
      ReportSets(y, now, u, chats, front, c);
    }
  }

  lemma ReportAlone(db0: Db, db: Db, u: int, c: int, t: int)
    requires c in db.chats && Others(db0, c, u) == {} && forall x :: InChat(db, x, c) <==> InChat(db0, x, c)
    ensures ReadTimeOf(UpdateSync(db, u, c, t), c) == t
  {
    forall r | r in db.members && r.chat == c && r.rem == 0 ensures r.user == u {
      assert InChat(db, r.user, c);
      assert r.user != u ==> r.user in Others(db0, c, u);
    }
  }

  lemma Reports(s: Sys, sid: int, r: MemberRow, m: MessageRow) returns (order: seq<int>)
    requires SteppedOver(s, sid, r, m) && m.ts < CopyOf(s, sid, r.chat).readTs && Others(s.db, r.chat, r.user) == {}
    ensures FalseReadTime(DoPoll(s, sid, order), r.user, m)
  {
    var u, chats := r.user, s.sessions[sid].replica.chats;
    order := Listing(chats.Keys);
    assert r.chat in Elements(order);
    assert CopyOk(s.db, u, r.chat, CopyOf(s, sid, r.chat)) by { assert SessionOk(s.db, s.now, s.sessions[sid]); }
    ReportSets(Synced(s.db, s.shown), s.now, u, chats, order, r.chat);
    PollExact(s, sid, order);
    var s' := DoPoll(s, sid, order);
    var i :| 0 <= i < |s.db.members| && s.db.members[i] == r;
    hide DoPoll, NoticeOf, EventsOf, DbOk;
    assert s'.db.members[i] in s'.db.members;
    assert m in s'.db.messages && ReadTimeOf(s'.db, m.chat) == CopyOf(s, sid, r.chat).readTs;
  }

  /** READ_TIME has passed a message that an active member can see and that no client of his has been handed. */
  ghost predicate FalseReadTime(s: Sys, u: int, m: MessageRow) {
    && m in s.db.messages && m.ts < ReadTimeOf(s.db, m.chat) && (u, m.chat, m.ts) !in s.ever
    && exists r :: r in s.db.members && r.user == u && r.chat == m.chat && r.rem == 0 && r.creation < m.ts
  }

  // ---- All together -----------------------------------------------------------------------------------------------

  lemma FromSteppedOver(s: Sys, sid: int, r: MemberRow, m: MessageRow) returns (ls: seq<Label>)
    requires SteppedOver(s, sid, r, m) && CopyOf(s, sid, r.chat).box.items != []
    ensures FalseReadTime(Run(s, ls), r.user, m) && NoFetches(ls)
  {
    var s1 := DoShow(s, sid, r.chat);
    assert Step(s, Show(sid, r.chat)) == s1;
    hide Run, Step, FalseReadTime, DoShow, DoPoll, Base, Others, NoFetches;
    Reads(s, sid, r, m);
    var leave := AllLeave(s1, sid, r, m);
    var order := Reports(Run(s1, leave), sid, r, m);
    ls := ShowLeavePoll(s, sid, r.chat, leave, order);
  }

  lemma ShowLeavePoll(s: Sys, sid: int, c: int, leave: seq<Label>, order: seq<int>) returns (ls: seq<Label>)
    requires NoFetches(leave)
    ensures NoFetches(ls) && Run(s, ls) == DoPoll(Run(Step(s, Show(sid, c)), leave), sid, order)
  {
    ls := [Show(sid, c)] + leave + [Poll(sid, order)];
    hide Run, Step, DoPoll;
    RunOne(s, Show(sid, c));
    RunConcat(s, [Show(sid, c)], leave);
    RunLast(s, [Show(sid, c)] + leave, Poll(sid, order));
    StepPoll(Run(Step(s, Show(sid, c)), leave), sid, order);
  }

  lemma FromFetch(s: Sys, sid: int, c: int) returns (ls: seq<Label>, m: MessageRow)
    requires Base(s) && Delivered(s) && EverStamped(s) && Holds(s, sid, c)
    requires GetChatMessages(s.db, s.sessions[sid].user, c, CopyOf(s, sid, c).cursor).Some?
    requires !FetchSafe(s, sid, c)
    ensures m.chat == c && FalseReadTime(Run(DoFetch(s, sid, c), ls), s.sessions[sid].user, m)
    ensures SafeFetches(DoFetch(s, sid, c), ls, c)
  {
    var r, m1, say := StepsOver(s, sid, c);
    m := m1;
    var s1 := DoFetch(s, sid, c);
    hide *;
    var fill := FillsWindow(Run(s1, say), sid, r, m);
    var rest := FromSteppedOver(Run(Run(s1, say), fill), sid, r, m);
    ls := say + fill + rest;
    RunConcat(s1, say, fill);
    RunConcat(s1, say + fill, rest);
    NoneUnsafe(s1, say, c);
    NoneUnsafe(Run(s1, say + fill), rest, c);
    SafeThenSafe(s1, say, fill, c);
    SafeThenSafe(s1, say + fill, rest, c);
    InChatOf(Run(s1, say), sid, r, m);
  }

  lemma InChatOf(s: Sys, sid: int, r: MemberRow, m: MessageRow)
    requires SteppedOver(s, sid, r, m)
    ensures m.chat == r.chat
  {
  }

  /** READ_TIME has passed a message that an active member can see and that was never delivered to him. */
  ghost predicate FalseCheck(t0: int, ls: seq<Label>, c: int) {
    var s := Run(Init(t0), ls);
    exists r, m :: r in s.db.members && r.chat == c && r.rem == 0 && m in s.db.messages && m.chat == c
      && r.creation < m.ts < ReadTimeOf(s.db, c) && !WasDelivered(t0, ls, r.user, c, m.ts)
  }

  /** Whenever a fetch of a run is not harmless, the run can go on so that READ_TIME passes a message that an active
      member can see and that was never delivered to him: he sends with the stamp that his client has stepped over,
      reads the chat, the others leave, and his client reports. No further harmful fetch is needed. */
  lemma FalseCheckFollows(t0: int, ls: seq<Label>, sid: int, c: int) returns (rest: seq<Label>)
    requires 1 <= t0 && Holds(Run(Init(t0), ls), sid, c) && Asks(Run(Init(t0), ls), sid, c)
    requires !FetchSafe(Run(Init(t0), ls), sid, c)
    ensures FalseCheck(t0, ls + [Fetch(sid, c)] + rest, c)
    ensures SafeFetches(Run(Init(t0), ls + [Fetch(sid, c)]), rest, c)
  {
    var s := Run(Init(t0), ls);
    var m: MessageRow;
    BaseAlways(t0, ls);
    DeliveredAlways(t0, ls);
    EverStampedAlways(t0, ls);
    hide Run, Step, DoFetch, WasDelivered, Base, Delivered, EverStamped, FetchSafe, GetChatMessages, SafeFetches;
    rest, m := FromFetch(s, sid, c);
    RunLast(Init(t0), ls, Fetch(sid, c));
    StepFetch(s, sid, c);
    RunConcat(Init(t0), ls + [Fetch(sid, c)], rest);
    NeverDelivered(t0, ls + [Fetch(sid, c)] + rest, s.sessions[sid].user, m);
  }

  lemma NeverDelivered(t0: int, ls: seq<Label>, u: int, m: MessageRow)
    requires FalseReadTime(Run(Init(t0), ls), u, m)
    ensures FalseCheck(t0, ls, m.chat)
  {
    var s := Run(Init(t0), ls);
    var r :| r in s.db.members && r.user == u && r.chat == m.chat && r.rem == 0 && r.creation < m.ts;
    hide Run, WasDelivered;
    if WasDelivered(t0, ls, u, m.chat, m.ts) {
      DeliveredIsRecorded(t0, ls, u, m.chat, m.ts);
      assert false;
    }
  }

  /** The exact condition of the double check. After a run whose fetches of the chat were all harmless, the next fetch
      is harmless if and only if READ_TIME stays right however the run goes on, as long as it goes on with harmless
      fetches of the chat. */
  lemma DoubleCheckExactly(t0: int, ls: seq<Label>, sid: int, c: int)
    requires 1 <= t0 && SafeFetches(Init(t0), ls, c)
    requires Holds(Run(Init(t0), ls), sid, c) && Asks(Run(Init(t0), ls), sid, c)
    ensures FetchSafe(Run(Init(t0), ls), sid, c) <==>
      forall rest :: SafeFetches(Run(Init(t0), ls + [Fetch(sid, c)]), rest, c)
        ==> !FalseCheck(t0, ls + [Fetch(sid, c)] + rest, c)
  {
    hide Run, FetchSafe, GetChatMessages, SafeFetches, FalseCheck;
    if FetchSafe(Run(Init(t0), ls), sid, c) {
      OneSafe(Run(Init(t0), ls), sid, c);
      SafeThenSafe(Init(t0), ls, [Fetch(sid, c)], c);
      forall rest | SafeFetches(Run(Init(t0), ls + [Fetch(sid, c)]), rest, c)
        ensures !FalseCheck(t0, ls + [Fetch(sid, c)] + rest, c)
      {
        SafeThenSafe(Init(t0), ls + [Fetch(sid, c)], rest, c);
        NeverFalse(t0, ls + [Fetch(sid, c)] + rest, c);
      }
    } else {
      var rest := FalseCheckFollows(t0, ls, sid, c);
    }
  }

  lemma NeverFalse(t0: int, ls: seq<Label>, c: int)
    requires 1 <= t0 && SafeFetches(Init(t0), ls, c)
    ensures !FalseCheck(t0, ls, c)
  {
    assert ls[..|ls|] == ls;
    hide Run, SafeFetches, WasDelivered;
    var s := Run(Init(t0), ls);
    forall r, m | r in s.db.members && r.chat == c && r.rem == 0 && m in s.db.messages && m.chat == c
      && r.creation < m.ts < ReadTimeOf(s.db, c)
      ensures WasDelivered(t0, ls, r.user, c, m.ts)
    {
      DoubleCheckOfSafeFetches(t0, ls, |ls|, r, m);
    }
  }
}

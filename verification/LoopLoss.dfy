// The client's own update loop makes the harmful kind of fetch: a message that is fetched in the second of its stamp
// is reported once more by the next poll, and the fetch that follows overtakes the clock.
module LoopLoss {
  import opened Common
  import opened Tables
  import opened Handlers
  import opened Window
  import opened Replica
  import opened TableInvariant
  import opened RoundLemmas
  import opened System
  import opened SessionInvariant
  import opened MessageLog
  import opened Delivery
  import opened Pending
  import opened CursorExactness
  import opened Counterexamples

  /** The client polled and fetched in this second, and the chat's last message is of this second. */
  ghost predicate JustUpdated(s: Sys, sid: int, r: MemberRow, m: MessageRow) {
    && Holds(s, sid, r.chat) && r in s.db.members && r.user == s.sessions[sid].user && r.rem == 0
    && m in s.db.messages && m.chat == r.chat && r.creation < m.ts == s.now
    && s.sessions[sid].replica.lastNotif == s.now && CopyOf(s, sid, r.chat).cursor == s.now + 1
  }

  lemma SecondLater(s: Sys, sid: int, r: MemberRow, m: MessageRow)
    requires Base(s) && JustUpdated(s, sid, r, m)
    ensures var s1 := Step(s, Tick(1));
      && s1 == s.(now := s.now + 1) && Base(s1) && NextStamp(s1.db, s1.now, r.chat) == CopyOf(s1, sid, r.chat).cursor
      && SelectMessages(s1.db, r.user, r.chat, s.now + 1) == []
  {
    var s1 := Step(s, Tick(1));
    TickStep(s.db, s.now, s1.now);
    BaseServer(s, s1);
    MessagesPositive(s.db, s.now);
    FilterNone(s.db.messages, MessageFilter(s.db, r.user, r.chat, s.now + 1));
  }

  lemma {:induction false} FilterNone<T(!new)>(xs: seq<T>, p: T -> bool)
    requires forall x :: x in xs ==> !p(x)
    ensures Filter(xs, p) == []
  {
    if xs != [] {
      assert xs == xs[..|xs| - 1] + [xs[|xs| - 1]];
      FilterNone(xs[..|xs| - 1], p);
    }
  }

  /** One second later the loop polls and, finding the chat flagged, fetches: the fetch is not harmless. */
  lemma NextUpdateOvertakes(s: Sys, sid: int, order: seq<int>, r: MemberRow, m: MessageRow) returns (r': MemberRow)
    requires Base(s) && PollAccepted(s, sid, order) && JustUpdated(s, sid, r, m)
    ensures var s' := DoPoll(Step(s, Tick(1)), sid, order);
      && Overtaking(s', sid, r') && r' == r.(read := r'.read)
      && CopyOf(s', sid, r.chat).cursor == NextStamp(s'.db, s'.now, r.chat) == s'.now == s.now + 1
  {
    SecondLater(s, sid, r, m);
    hide Step, Base, DoPoll, Overtaking, NextStamp, SelectMessages;
    r' := OvertakingPoll(Step(s, Tick(1)), sid, order, r, m);
  }

  /** The loop is about to fetch the flagged chat of the row, and the fetch is not harmless. */
  ghost predicate Overtaking(s: Sys, sid: int, r: MemberRow) {
    && Holds(s, sid, r.chat) && CopyOf(s, sid, r.chat).pending > 0
    && s.sessions[sid].user == r.user && r in s.db.members && r.rem == 0
    && GetChatMessages(s.db, r.user, r.chat, CopyOf(s, sid, r.chat).cursor).Some?
    && !FetchSafe(s, sid, r.chat)
  }

  lemma PolledCopy(s: Sys, sid: int, order: seq<int>, r: MemberRow, m: MessageRow) returns (r': MemberRow)
    requires Base(s) && PollAccepted(s, sid, order)
    requires Holds(s, sid, r.chat) && r in s.db.members && r.user == s.sessions[sid].user && r.rem == 0
    requires m in s.db.messages && m.chat == r.chat && r.creation < m.ts
    requires s.sessions[sid].replica.lastNotif <= m.ts
    ensures var s' := DoPoll(s, sid, order);
      && DbOk(s'.db, s.now) && SyncFrame(s.db, s'.db) && s'.now == s.now
      && r' in s'.db.members && r' == r.(read := r'.read)
      && Holds(s', sid, r.chat) && s'.sessions[sid].user == r.user
      && CopyOf(s', sid, r.chat).pending > 0 && CopyOf(s', sid, r.chat).cursor == CopyOf(s, sid, r.chat).cursor
  {
    var s', copy := DoPoll(s, sid, order), CopyOf(s, sid, r.chat);
    var es := EventsOf(NoticeOf(s, sid, order));
    PollExact(s, sid, order);
    NoticeIs(s, sid, order);
    assert CopyOk(s.db, r.user, r.chat, copy) by { assert SessionOk(s.db, s.now, s.sessions[sid]); }
    hide DoPoll, EventsOf, NoticeOf, CopyEvents, GetNotifications, Base, DbOk, CopyOk;
    CopyEventsFrame(copy, r.chat, es);
    var i :| 0 <= i < |s.db.members| && s.db.members[i] == r;
    r' := s'.db.members[i];
    MessageReported(s'.db, s.now, r.user, s.sessions[sid].replica.lastNotif, r', m);
  }

  lemma OvertakingPoll(s: Sys, sid: int, order: seq<int>, r: MemberRow, m: MessageRow) returns (r': MemberRow)
    requires Base(s) && PollAccepted(s, sid, order)
    requires Holds(s, sid, r.chat) && r in s.db.members && r.user == s.sessions[sid].user && r.rem == 0
    requires m in s.db.messages && m.chat == r.chat && r.creation < m.ts
    requires s.sessions[sid].replica.lastNotif <= m.ts
    requires NextStamp(s.db, s.now, r.chat) == CopyOf(s, sid, r.chat).cursor == m.ts + 1
    requires SelectMessages(s.db, r.user, r.chat, m.ts + 1) == []
    ensures Overtaking(DoPoll(s, sid, order), sid, r') && r' == r.(read := r'.read)
    ensures var s' := DoPoll(s, sid, order);
      s'.now == s.now && CopyOf(s', sid, r.chat).cursor == NextStamp(s'.db, s.now, r.chat) == m.ts + 1
  {
    var s' := DoPoll(s, sid, order);
    r' := PolledCopy(s, sid, order, r, m);
    hide DoPoll, GetChatMessages, FetchSafe, SelectMessages, DbOk;
    SameReply(s.db, s'.db, s.now, r, r', m.ts + 1);
    Unsafe(s', sid, r');
  }

  /** The sync loop changes no reply of get_list_messages. */
  lemma SameReply(db: Db, db': Db, now: int, r: MemberRow, r': MemberRow, cursor: int)
    requires DbOk(db, now) && DbOk(db', now) && SyncFrame(db, db')
    requires r in db.members && r' in db'.members && r' == r.(read := r'.read) && r.rem == 0
    ensures SelectMessages(db', r.user, r.chat, cursor) == SelectMessages(db, r.user, r.chat, cursor)
    ensures UserValid(db', r.user) ==> GetChatMessages(db', r.user, r.chat, cursor).Some?
  {
    ReplyIsRange(db, now, r, cursor);
    ReplyIsRange(db', now, r', cursor);
    var i :| 0 <= i < |db'.members| && db'.members[i] == r';
    assert RowOk(db', now, db'.members[i]);
    assert InChat(db', r.user, r.chat);
  }

  lemma Unsafe(s: Sys, sid: int, r: MemberRow)
    requires DbOk(s.db, s.now) && Holds(s, sid, r.chat) && r in s.db.members && r.user == s.sessions[sid].user
    requires SelectMessages(s.db, r.user, r.chat, CopyOf(s, sid, r.chat).cursor) == []
    requires CopyOf(s, sid, r.chat).cursor == NextStamp(s.db, s.now, r.chat) > r.creation
    ensures !FetchSafe(s, sid, r.chat)
  {
  }

  // ---- Two turns of the loop --------------------------------------------------------------------------------------

  /** One turn of the update loop, with the chat c as the one that it fetches. */
  ghost function Update(s: Sys, sid: int, order: seq<int>, c: int): Sys {
    DoFetch(DoPoll(s, sid, order), sid, c)
  }

  lemma UpdateKeeps(s: Sys, sid: int, order: seq<int>, c: int)
    requires Base(s) && Delivered(s)
    ensures Base(DoPoll(s, sid, order)) && Delivered(DoPoll(s, sid, order))
    ensures Base(Update(s, sid, order, c)) && Delivered(Update(s, sid, order, c))
  {
    hide DoPoll, DoFetch;
    BasePollStep(s, sid, order);
    DeliveredPollStep(s, sid, order);
    BaseFetchShow(DoPoll(s, sid, order), sid, c);
    DeliveredFetch(DoPoll(s, sid, order), sid, c);
  }

  lemma ReplyOfThisSecond(db: Db, now: int, r: MemberRow, cursor: int, list: MessageList, m: MessageRow)
    requires DbOk(db, now) && IsReply(db, now, r, cursor, list) && cursor <= now
    requires m in db.messages && m.chat == r.chat && r.creation < m.ts == now
    ensures list.lastTimestamp == now + 1
  {
  }

  lemma ReceivedCursor(s: Sys, sid: int, c: int, r: MemberRow, list: MessageList)
    requires Base(s) && Delivered(s) && Holds(s, sid, c) && r.user == s.sessions[sid].user && r.chat == c
    requires IsReply(s.db, s.now, r, CopyOf(s, sid, c).cursor, list)
    ensures Receive(CopyOf(s, sid, c), r.user, list).cursor == list.lastTimestamp
  {
    assert CopyDelivered(s, r.user, c, CopyOf(s, sid, c));
    ReplyAscending(s.db, s.now, r, CopyOf(s, sid, c).cursor, list);
    hide Receive, DbOk, UnreadOk, RowDelivered, IsReply;
    ReceiveExact(CopyOf(s, sid, c), r.user, list);
  }

  /** A fetch that brings the message of this second leaves the cursor at the next one. */
  lemma FetchedNow(s: Sys, sid: int, r: MemberRow, m: MessageRow)
    requires Base(s) && Delivered(s) && UserValid(s.db, r.user)
    requires Holds(s, sid, r.chat) && r in s.db.members && r.user == s.sessions[sid].user && r.rem == 0
    requires m in s.db.messages && m.chat == r.chat && r.creation < m.ts == s.now
    requires s.sessions[sid].replica.lastNotif == s.now && CopyOf(s, sid, r.chat).cursor <= s.now
    ensures JustUpdated(DoFetch(s, sid, r.chat), sid, r, m)
  {
    var c, cursor := r.chat, CopyOf(s, sid, r.chat).cursor;
    SameReply(s.db, s.db, s.now, r, r, cursor);
    var q, list := FetchReply(s, sid, c);
    OneRow(s.db, r, q);
    hide DoFetch, FetchSafe, GetChatMessages, IsReply, DbOk, Delivered, Receive;
    ReplyOfThisSecond(s.db, s.now, r, cursor, list, m);
    ReceivedCursor(s, sid, c, r, list);
    FetchedCopyIs(s, sid, c, list);
  }

  lemma FirstUpdate(s: Sys, sid: int, order: seq<int>, r: MemberRow, m: MessageRow) returns (r': MemberRow)
    requires Base(s) && Delivered(s) && PollAccepted(s, sid, order)
    requires Holds(s, sid, r.chat) && r in s.db.members && r.user == s.sessions[sid].user && r.rem == 0
    requires m in s.db.messages && m.chat == r.chat && r.creation < m.ts == s.now
    requires CopyOf(s, sid, r.chat).cursor <= s.now
    ensures JustUpdated(Update(s, sid, order, r.chat), sid, r', m) && r' == r.(read := r'.read)
    ensures Update(s, sid, order, r.chat).now == s.now
  {
    assert SessionOk(s.db, s.now, s.sessions[sid]);
    UpdateKeeps(s, sid, order, r.chat);
    r' := PolledCopy(s, sid, order, r, m);
    PollExact(s, sid, order);
    hide DoPoll, DoFetch, Base, Delivered, NoticeOf, EventsOf;
    FetchedNow(DoPoll(s, sid, order), sid, r', m);
  }

  /** The update loop of the source loses messages by itself. If it fetches a message within the second of its stamp,
      and nothing more is sent to the chat before its next turn a second later, then that turn fetches again, and a
      message sent after it in the same second never reaches the client, though its stamp was not skipped before. */
  lemma LoopLoses(s: Sys, sid: int, order: seq<int>, order': seq<int>, r: MemberRow, m: MessageRow)
    requires Base(s) && Delivered(s) && PollAccepted(s, sid, order)
    requires Holds(s, sid, r.chat) && r in s.db.members && r.user == s.sessions[sid].user && r.rem == 0
    requires m in s.db.messages && m.chat == r.chat && r.creation < m.ts == s.now
    requires CopyOf(s, sid, r.chat).cursor <= s.now
    requires PollAccepted(Update(s, sid, order, r.chat), sid, order')
    ensures var s1 := Update(s, sid, order, r.chat);
      var s2 := Update(Step(s1, Tick(1)), sid, order', r.chat);
      !HasAllBut(Step(s2, Say(r.user, r.chat, "", None)), sid, r.chat, CopyOf(s, sid, r.chat).skipped)
  {
    hide Update, Step, Base, DoPoll, DoFetch, JustUpdated, HasAllBut, PollAccepted, LogOk, UnreadOk, RowDelivered;
    assert CopyDelivered(s, r.user, r.chat, CopyOf(s, sid, r.chat));
    hide Delivered;
    var s1 := Update(s, sid, order, r.chat);
    UpdateKeeps(s, sid, order, r.chat);
    var r1 := FirstUpdate(s, sid, order, r, m);
    var r2 := NextUpdateOvertakes(s1, sid, order', r1, m);
    DeliveredLabel(s1, Tick(1));
    UpdateKeeps(Step(s1, Tick(1)), sid, order', r.chat);
    LostAfter(DoPoll(Step(s1, Tick(1)), sid, order'), sid, r2, CopyOf(s, sid, r.chat).skipped);
    UpdateIs(Step(s1, Tick(1)), sid, order', r.chat);
  }

  lemma UpdateIs(s: Sys, sid: int, order: seq<int>, c: int)
    ensures Update(s, sid, order, c) == DoFetch(DoPoll(s, sid, order), sid, c)
  {
  }

  lemma SendNow(s: Sys, r: MemberRow)
    requires Base(s) && r in s.db.members && r.rem == 0 && UserValid(s.db, r.user)
    ensures var s' := Step(s, Say(r.user, r.chat, "", None)); var t := NextStamp(s.db, s.now, r.chat);
      s' == s.(db := s.db.(messages := s.db.messages + [MessageRow(r.user, r.chat, t, "", None)]), now := t)
  {
    FirstFreeIsNext(s.db, s.now, r.chat);
    assert InChat(s.db, r.user, r.chat);
  }

  lemma LostAfter(s: Sys, sid: int, r: MemberRow, but: set<int>)
    requires Base(s) && Delivered(s) && Overtaking(s, sid, r)
    requires CopyOf(s, sid, r.chat).cursor == NextStamp(s.db, s.now, r.chat)
    requires forall t :: t in but ==> t < CopyOf(s, sid, r.chat).cursor
    ensures !HasAllBut(Step(DoFetch(s, sid, r.chat), Say(r.user, r.chat, "", None)), sid, r.chat, but)
  {
    var q := EmptyFetch(s, sid, r.chat);
    OneRow(s.db, r, q);
    BaseFetchShow(s, sid, r.chat);
    var s1, t := DoFetch(s, sid, r.chat), CopyOf(s, sid, r.chat).cursor;
    hide DoFetch, FetchSafe, GetChatMessages, Step, Base, Delivered, NextStamp;
    SendNow(s1, r);
    var s2, m := Step(s1, Say(r.user, r.chat, "", None)), MessageRow(r.user, r.chat, t, "", None);
    assert s2.db.messages[|s.db.messages|] == m && Localize(r.user, m).ts == t;
  }

  /** When there is one chat in the tables, a session that holds it holds nothing else. */
  lemma OneChat(s: Sys, sid: int, c: int)
    requires Base(s) && Holds(s, sid, c) && forall d :: d in s.db.chats ==> d == c
    ensures s.sessions[sid].replica.chats.Keys == {c}
  {
    assert SessionOk(s.db, s.now, s.sessions[sid]);
    forall d | d in s.sessions[sid].replica.chats ensures d == c {
      assert CopyOk(s.db, s.sessions[sid].user, d, s.sessions[sid].replica.chats[d]);
    }
    OnlyKey(s.sessions[sid].replica.chats, c);
  }

  lemma FetchKeeps(s: Sys, sid: int, c: int)
    requires Holds(s, sid, c)
    ensures var s' := DoFetch(s, sid, c);
      s'.db == s.db && Holds(s', sid, c) && s'.sessions[sid].user == s.sessions[sid].user
  {
  }

  lemma SameChats(s: Sys, sid: int, order: seq<int>, c: int)
    requires Base(s) && Delivered(s) && PollAccepted(s, sid, order) && Holds(s, sid, c)
    requires forall d :: d in s.db.chats ==> d == c
    ensures PollAccepted(Update(s, sid, order, c), sid, order)
  {
    PollExact(s, sid, order);
    UpdateKeeps(s, sid, order, c);
    hide DoPoll, DoFetch, NoticeOf, EventsOf, GetNotifications, Base, Delivered, DbOk;
    FetchKeeps(DoPoll(s, sid, order), sid, c);
    OneChat(s, sid, c);
    OneChat(Update(s, sid, order, c), sid, c);
  }

  lemma OnlyKey(chats: map<int, ChatCopy>, c: int)
    requires c in chats && forall d :: d in chats ==> d == c
    ensures chats.Keys == {c}
  {
    forall d | d in chats.Keys ensures d in {c} {
    }
  }

  const UNTIL_NOW := ALONE + [Say(3, 7, "a", None)]
  const LOOPED := UNTIL_NOW + [Poll(30, [7]), Fetch(30, 7)] + [Tick(1), Poll(30, [7])]
                            + [Fetch(30, 7), Say(3, 7, "", None)]

  lemma UntilNow()
    ensures Run(Init(1), UNTIL_NOW) == At(2, [FIRST], LOADED, {}, {})
  {
    Alone();
    Talk();
    hide Step, Run;
    RunLast(Init(1), ALONE, Say(3, 7, "a", None));
  }

  lemma LoopRun(s: Sys)
    requires Run(Init(1), UNTIL_NOW) == s
    ensures Run(Init(1), LOOPED)
         == Step(Update(Step(Update(s, 30, [7], 7), Tick(1)), 30, [7], 7), Say(3, 7, "", None))
  {
    var s1 := Update(s, 30, [7], 7);
    assert Step(Step(s, Poll(30, [7])), Fetch(30, 7)) == s1;
    var s2 := Step(s1, Tick(1));
    assert Step(Step(s2, Poll(30, [7])), Fetch(30, 7)) == Update(s2, 30, [7], 7);
    hide Step, Run, Update;
    RunTwo(s, Poll(30, [7]), Fetch(30, 7));
    RunConcat(Init(1), UNTIL_NOW, [Poll(30, [7]), Fetch(30, 7)]);
    RunTwo(s1, Tick(1), Poll(30, [7]));
    RunConcat(Init(1), UNTIL_NOW + [Poll(30, [7]), Fetch(30, 7)], [Tick(1), Poll(30, [7])]);
    RunTwo(Step(s2, Poll(30, [7])), Fetch(30, 7), Say(3, 7, "", None));
    RunConcat(Init(1), UNTIL_NOW + [Poll(30, [7]), Fetch(30, 7)] + [Tick(1), Poll(30, [7])],
              [Fetch(30, 7), Say(3, 7, "", None)]);
  }

  lemma JustSent(s: Sys)
    requires s == At(2, [FIRST], LOADED, {}, {})
    ensures ROWS[1] in s.db.members && FIRST in s.db.messages && s.now == 2
    ensures Holds(s, 30, 7) && s.sessions[30].user == 3
    ensures CopyOf(s, 30, 7).cursor == 0 && CopyOf(s, 30, 7).skipped == {} && PollAccepted(s, 30, [7])
    ensures forall c :: c in s.db.chats ==> c == 7
  {
    AtParts(2, [FIRST], LOADED, {}, {});
    assert s.db.members == ROWS && s.db.messages == [FIRST];
    hide PollAccepted;
  }

  /** The smallest such run: the one member of a chat, logged in at 1, sends at 2, the loop turns at 2 and at 3, and
      what he sends at 3 does not reach his client. */
  lemma LoopLosesExample()
    ensures !HasAllBut(Run(Init(1), LOOPED), 30, 7, {})
  {
    UntilNow();
    var s := Run(Init(1), UNTIL_NOW);
    JustSent(s);
    BaseAlways(1, UNTIL_NOW);
    DeliveredAlways(1, UNTIL_NOW);
    hide At, Run, Step, Base, Delivered, Update, HasAllBut, PollAccepted, DoPoll, DoFetch;
    LoopRun(s);
    SameChats(s, 30, [7], 7);
    LoopLoses(s, 30, [7], [7], ROWS[1], FIRST);
  }
}

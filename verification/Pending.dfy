// The pending flag: one poll and one fetch of the flagged chats deliver everything there is to deliver.
module Pending {
  import opened Common
  import opened Tables
  import opened Handlers
  import opened Window
  import opened Replica
  import opened TableInvariant
  import opened RoundLemmas
  import opened System
  import opened SessionInvariant
  import opened Delivery

  /** The polls have reported messages of the stamp, or the client has fetched the chat with all that it had. */
  predicate Reported(copy: ChatCopy, t: int) {
    copy.cursor > 0 || copy.reportedFrom <= t
  }

  /** A reported message that an active member can see and has not fetched, stamped before the time, is flagged. */
  ghost predicate Flagged(db: Db, u: int, c: int, copy: ChatCopy, before: int) {
    forall r, m :: (
      && r in db.members && r.user == u && r.chat == c && r.rem == 0
      && m in db.messages && m.chat == c && r.creation < m.ts && copy.cursor <= m.ts < before
      && Reported(copy, m.ts)) ==> copy.pending > 0
  }

  /** Everything that an active member can see and has not fetched is flagged. */
  ghost predicate AllFlagged(db: Db, u: int, c: int, copy: ChatCopy) {
    forall r, m :: (
      && r in db.members && r.user == u && r.chat == c && r.rem == 0
      && m in db.messages && m.chat == c && r.creation < m.ts && copy.cursor <= m.ts) ==> copy.pending > 0
  }

  ghost predicate PendingOk(s: Sys) {
    forall sid, c :: Holds(s, sid, c) ==>
      Flagged(s.db, s.sessions[sid].user, c, CopyOf(s, sid, c), s.sessions[sid].replica.lastNotif)
  }

  // ---- Server steps -----------------------------------------------------------------------------------------------

  lemma FlaggedServer(db: Db, now: int, db': Db, now': int, u: int, c: int, copy: ChatCopy, t: int)
    requires DbOk(db, now) && ServerStep(db, now, db', now') && t <= now && Flagged(db, u, c, copy, t)
    ensures Flagged(db', u, c, copy, t)
  {
  }

  lemma PendingServer(s: Sys, s': Sys)
    requires Base(s) && PendingOk(s) && ServerMove(s, s')
    ensures PendingOk(s')
  {
    forall sid, c | Holds(s', sid, c)
      ensures Flagged(s'.db, s'.sessions[sid].user, c, CopyOf(s', sid, c), s'.sessions[sid].replica.lastNotif)
    {
      var u, copy, t := s.sessions[sid].user, CopyOf(s, sid, c), s.sessions[sid].replica.lastNotif;
      assert Holds(s, sid, c) && SessionOk(s.db, s.now, s.sessions[sid]);
      FlaggedServer(s.db, s.now, s'.db, s'.now, u, c, copy, t);
    }
  }

  // ---- Discovery --------------------------------------------------------------------------------------------------

  ghost function ActiveSet(db: Db, c: int): set<int> {
    set r | r in db.members && r.chat == c && r.rem == 0 :: r.user
  }

  lemma {:induction false} FilterDistinct(rows: seq<MemberRow>, p: MemberRow -> bool, c: int)
    requires forall i, j :: 0 <= i < j < |rows| && rows[i].user == rows[j].user ==> rows[i].chat != rows[j].chat
    requires forall r :: p(r) ==> r.chat == c
    ensures forall i, j :: 0 <= i < j < |Filter(rows, p)| ==> Filter(rows, p)[i].user != Filter(rows, p)[j].user
  {
    if rows != [] {
      var n := |rows| - 1;
      FilterDistinct(rows[..n], p, c);
      var out := Filter(rows[..n], p);
      forall i | 0 <= i < |out| && p(rows[n]) ensures out[i].user != rows[n].user {
        assert out[i] in out;
        var k :| 0 <= k < n && rows[..n][k] == out[i];
        assert rows[k] == out[i] && p(rows[k]);
      }
    }
  }

  /** With one row per user, a chat's list is refused only for want of room. */
  lemma RefusedExact(r: Replica, db: Db, now: int, c: int, since: int)
    requires DbOk(db, now) && CreationOf(db, c) >= since
    ensures Refused(r, db, c, since) <==> |r.chats| >= MAX_CHATS || |ActiveSet(db, c)| > MAX_MEMBERS
  {
    var names := MemberNames(db, c, since);
    FilterDistinct(db.members, MemberFilter(c, since), c);
    var rows := Filter(db.members, MemberFilter(c, since));
    assert forall i :: 0 <= i < |rows| ==> names[i] == rows[i].user;
    assert Distinct(names);
    DistinctCardinality(names);
    NewChatMembersComplete(db, now, c, since);
    hide DbOk, MemberNames, MemberFilter, Filter, Distinct, CreationOf;
    forall x ensures x in Elements(names) <==> x in ActiveSet(db, c) {
      assert x in ActiveSet(db, c) <==> InChat(db, x, c);
    }
    assert Elements(names) == ActiveSet(db, c);
  }

  ghost predicate Blocked(r: Replica, db: Db, c: int) {
    |r.chats| >= MAX_CHATS || |ActiveSet(db, c)| > MAX_MEMBERS
  }

  lemma {:induction false} FullStays(r: Replica, db: Db, rows: seq<MemberRow>, since: int, poll: Option<int>)
    requires |r.chats| >= MAX_CHATS
    ensures AddCopies(r, db, rows, since, poll) == r
  {
    if rows != [] {
      FullStays(r, db, rows[..|rows| - 1], since, poll);
    }
  }

  /** Once refused, a chat stays out for the rest of the round. */
  lemma BlockedStays(r: Replica, db: Db, now: int, u: int, poll: Option<int>, c: int)
    requires DbOk(db, now) && 0 <= r.chatsTs && c !in r.chats && Blocked(r, db, c)
    ensures c !in RecvChats(r, db, u, poll).chats && Blocked(RecvChats(r, db, u, poll), db, c)
  {
    if UserValid(db, u) {
      var rows := ChatRowsFor(db, u, r.chatsTs);
      AddCopiesExact(r, db, rows, r.chatsTs, poll);
      if |r.chats| >= MAX_CHATS {
        FullStays(r, db, rows, r.chatsTs, poll);
      } else if c in AddCopies(r, db, rows, r.chatsTs, poll).chats {
        RefusedExact(r, db, now, c, r.chatsTs);
      }
    }
  }

  /** A chat at or above the chat cursor is found by the first request for new chats, room permitting. */
  lemma FoundOrBlocked(r: Replica, db: Db, now: int, u: int, poll: Option<int>, c: int)
    requires DbOk(db, now) && UserValid(db, u) && InChat(db, u, c) && c in db.chats
    requires 0 <= r.chatsTs <= CreationOf(db, c)
    ensures var r' := RecvChats(r, db, u, poll); c in r'.chats || Blocked(r', db, c)
  {
    var rows := ChatRowsFor(db, u, r.chatsTs);
    AddCopiesExact(r, db, rows, r.chatsTs, poll);
    var row :| row in db.members && row.user == u && row.chat == c && row.rem == 0;
    assert row in rows;
    RefusedExact(RecvChats(r, db, u, poll), db, now, c, r.chatsTs);
  }

  ghost predicate AllKnown(r: Replica, es: seq<Event>) {
    forall e :: e in es ==> e.chat in r.chats
  }

  lemma {:induction false} KnownRound(r: Replica, db: Db, u: int, poll: int, es: seq<Event>)
    requires AllKnown(r, es)
    ensures var r' := ApplyEvents(r, db, u, poll, es);
      r'.chats.Keys == r.chats.Keys && r'.chatsTs == r.chatsTs
  {
    if es != [] {
      assert es == es[..|es| - 1] + [es[|es| - 1]];
      KnownRound(r, db, u, poll, es[..|es| - 1]);
    }
  }

  /** Until the first request nothing about the chat list changes. */
  ghost predicate Untouched(r: Replica, r': Replica, c: int, es: seq<Event>) {
    c !in r'.chats && r'.chatsTs == r.chatsTs && AllKnown(r, es)
  }

  /** What has become of the chat after some entries. */
  ghost predicate Fresh(r: Replica, r': Replica, db: Db, c: int, es: seq<Event>) {
    if c in r'.chats then HasMessages(c) in es <==> r'.chats[c].pending > 0
    else Blocked(r', db, c) || (Untouched(r, r', c, es) && r'.chats.Keys == r.chats.Keys)
  }

  lemma {:induction false} FreshFlagged(r: Replica, db: Db, now: int, u: int, poll: int, es: seq<Event>, c: int)
    requires DbOk(db, now) && UserValid(db, u) && InChat(db, u, c) && c in db.chats
    requires c !in r.chats && 0 <= r.chatsTs <= CreationOf(db, c) && r.chatsTs <= now
    requires forall e :: e in es ==> Fact(db, u, e)
    ensures Fresh(r, ApplyEvents(r, db, u, poll, es), db, c, es)
  {
    hide DbOk, UserValid, InChat, Fact, Novel, MadeAt, ApplyEvent, CopyEvents, Fresh;
    if es == [] {
      FreshStart(r, db, c);
    } else {
      var front, e := es[..|es| - 1], es[|es| - 1];
      assert es == front + [e];
      FreshFlagged(r, db, now, u, poll, front, c);
      ApplyEventsExact(r, db, now, u, poll, front);
      FreshOne(r, ApplyEvents(r, db, u, poll, front), db, now, u, poll, front, e, c);
    }
  }

  lemma FreshStart(r: Replica, db: Db, c: int)
    requires c !in r.chats
    ensures Fresh(r, r, db, c, [])
  {
  }

  lemma FreshOne(r: Replica, p: Replica, db: Db, now: int, u: int, poll: int, front: seq<Event>, e: Event, c: int)
    requires DbOk(db, now) && UserValid(db, u) && InChat(db, u, c) && c in db.chats
    requires 0 <= p.chatsTs <= now && (p.chatsTs != r.chatsTs || p.chatsTs <= CreationOf(db, c))
    requires Fresh(r, p, db, c, front)
    ensures Fresh(r, ApplyEvent(p, db, u, poll, e), db, c, front + [e])
  {
    hide DbOk, UserValid, InChat, Fact, Novel, RecvChats, ActiveSet, CreationOf;
    if e.chat !in p.chats {
      RecvChatsExact(p, db, now, u, Some(poll));
      if c !in p.chats {
        if Blocked(p, db, c) {
          BlockedStays(p, db, now, u, Some(poll), c);
        } else {
          FoundOrBlocked(p, db, now, u, Some(poll), c);
        }
      }
    }
  }

  // ---- A chat that is older than the chat cursor --------------------------------------------------------------------

  /** The user is in a chat that the chat cursor selects. */
  ghost predicate Stuck(db: Db, u: int, since: int) {
    ChatRowsFor(db, u, since) != []
  }

  /** Then a request moves the cursor no further than to that chat, and finds none that is older than the cursor. */
  lemma StuckRequest(r: Replica, db: Db, u: int, poll: Option<int>, c: int)
    requires UserValid(db, u) && Stuck(db, u, r.chatsTs) && 0 <= CreationOf(db, c) < r.chatsTs && c !in r.chats
    ensures var r' := RecvChats(r, db, u, poll);
      c !in r'.chats && CreationOf(db, c) < r'.chatsTs && Stuck(db, u, r'.chatsTs)
  {
    var rows := ChatRowsFor(db, u, r.chatsTs);
    AddCopiesExact(r, db, rows, r.chatsTs, poll);
    LastCreationBounds(db, rows);
    assert rows[0] in rows;
    var last :| last in rows && LastCreation(db, rows) == CreationOf(db, last.chat);
    assert last in ChatRowsFor(db, u, LastCreation(db, rows));
  }

  lemma {:induction false} LastCreationBounds(db: Db, rows: seq<MemberRow>)
    ensures forall r :: r in rows ==> CreationOf(db, r.chat) <= LastCreation(db, rows)
  {
    if rows != [] {
      assert rows == rows[..|rows| - 1] + [rows[|rows| - 1]];
      LastCreationBounds(db, rows[..|rows| - 1]);
    }
  }

  /** So the round does not find it. */
  lemma {:induction false} StuckStays(r: Replica, db: Db, u: int, poll: int, es: seq<Event>, c: int)
    requires UserValid(db, u) && Stuck(db, u, r.chatsTs) && 0 <= CreationOf(db, c) < r.chatsTs && c !in r.chats
    ensures var r' := ApplyEvents(r, db, u, poll, es);
      c !in r'.chats && CreationOf(db, c) < r'.chatsTs && Stuck(db, u, r'.chatsTs)
  {
    hide UserValid, Stuck, RecvChats, CreationOf, CopyEvent;
    if es != [] {
      var front := es[..|es| - 1];
      StuckStays(r, db, u, poll, front, c);
      StuckRequest(ApplyEvents(r, db, u, poll, front), db, u, Some(poll), c);
    }
  }

  /** Without such a chat the reply is empty and resets the cursor. */
  lemma DryRequest(r: Replica, db: Db, u: int, poll: Option<int>)
    requires UserValid(db, u) && !Stuck(db, u, r.chatsTs)
    ensures RecvChats(r, db, u, poll) == r.(chatsTs := 0)
  {
  }

  /** The entries that come after the first one for an unknown chat. */
  ghost function AfterUnknown(r: Replica, es: seq<Event>): seq<Event> {
    if es == [] then [] else if es[0].chat !in r.chats then es[1..] else AfterUnknown(r, es[1..])
  }

  lemma {:induction false} SplitUnknown(r: Replica, es: seq<Event>) returns (front: seq<Event>, e: Event)
    requires !AllKnown(r, es)
    ensures es == front + [e] + AfterUnknown(r, es) && AllKnown(r, front) && e.chat !in r.chats
  {
    if es[0].chat !in r.chats {
      front, e := [], es[0];
    } else {
      assert es == [es[0]] + es[1..];
      front, e := SplitUnknown(r, es[1..]);
      assert es == [es[0]] + front + [e] + AfterUnknown(r, es);
      front := [es[0]] + front;
    }
  }

  /** The entries that reach the copy of a chat that a round finds: all of them if the first request finds it; but if
      the chat is older than the chat cursor, the first request can only reset the cursor, and the entry that caused it
      is lost. */
  ghost function Heard(r: Replica, db: Db, c: int, es: seq<Event>): seq<Event> {
    if r.chatsTs <= CreationOf(db, c) then es else AfterUnknown(r, es)
  }

  /** A chat found in a round is flagged exactly when one of those entries says that it has messages. */
  lemma FoundFlagged(r: Replica, db: Db, now: int, u: int, poll: int, es: seq<Event>, c: int)
    requires DbOk(db, now) && UserValid(db, u) && InChat(db, u, c) && c in db.chats
    requires c !in r.chats && 0 <= r.chatsTs <= now && c in ApplyEvents(r, db, u, poll, es).chats
    requires forall e :: e in es ==> Fact(db, u, e)
    ensures HasMessages(c) in Heard(r, db, c, es) <==> ApplyEvents(r, db, u, poll, es).chats[c].pending > 0
  {
    if r.chatsTs <= CreationOf(db, c) {
      FreshFlagged(r, db, now, u, poll, es, c);
    } else {
      DryFound(r, db, now, u, poll, es, c);
      var p1 := DryRound(r, db, u, poll, es, c);
      HeardThere(r, es);
      CreationPositive(db, now, c);
      FreshFlagged(p1, db, now, u, poll, AfterUnknown(r, es), c);
    }
  }

  lemma {:induction false} HeardThere(r: Replica, es: seq<Event>)
    ensures forall e :: e in AfterUnknown(r, es) ==> e in es
  {
    if es != [] && es[0].chat in r.chats {
      HeardThere(r, es[1..]);
    }
  }

  lemma CreationPositive(db: Db, now: int, c: int)
    requires DbOk(db, now) && c in db.chats
    ensures 0 <= CreationOf(db, c)
  {
  }

  lemma UnknownEvent(r: Replica, db: Db, u: int, poll: int, e: Event)
    requires e.chat !in r.chats
    ensures var r1, r' := RecvChats(r, db, u, Some(poll)), ApplyEvent(r, db, u, poll, e);
      r'.chatsTs == r1.chatsTs && r'.chats.Keys == r1.chats.Keys && (e.chat !in r1.chats ==> r' == r1)
  {
    hide RecvChats;
  }

  /** When the chat cursor selects no chat of the user, the first entry for an unknown chat resets it. */
  lemma DryRound(r: Replica, db: Db, u: int, poll: int, es: seq<Event>, c: int) returns (p1: Replica)
    requires UserValid(db, u) && !Stuck(db, u, r.chatsTs) && !AllKnown(r, es) && c !in r.chats
    ensures p1.chats.Keys == r.chats.Keys && p1.chatsTs == 0
    ensures ApplyEvents(r, db, u, poll, es) == ApplyEvents(p1, db, u, poll, AfterUnknown(r, es))
  {
    var front, e := SplitUnknown(r, es);
    KnownRound(r, db, u, poll, front);
    var p := ApplyEvents(r, db, u, poll, front);
    p1 := ApplyEvent(p, db, u, poll, e);
    SplitRound(r, db, u, poll, front, e, AfterUnknown(r, es));
    hide UserValid, Stuck, RecvChats, ApplyEvents, ApplyEvent, AllKnown, AfterUnknown;
    UnknownEvent(p, db, u, poll, e);
    DryRequest(p, db, u, Some(poll));
  }

  lemma SplitRound(r: Replica, db: Db, u: int, poll: int, front: seq<Event>, e: Event, rest: seq<Event>)
    ensures ApplyEvents(r, db, u, poll, front + [e] + rest)
         == ApplyEvents(ApplyEvent(ApplyEvents(r, db, u, poll, front), db, u, poll, e), db, u, poll, rest)
  {
    hide ApplyEvent;
    assert (front + [e])[..|front|] == front;
    ApplyEventsConcat(r, db, u, poll, front + [e], rest);
  }

  /** A chat that is older than the chat cursor is found only after such a reset. */
  lemma DryFound(r: Replica, db: Db, now: int, u: int, poll: int, es: seq<Event>, c: int)
    requires DbOk(db, now) && UserValid(db, u) && c in db.chats && CreationOf(db, c) < r.chatsTs
    requires c !in r.chats && c in ApplyEvents(r, db, u, poll, es).chats
    ensures !Stuck(db, u, r.chatsTs) && !AllKnown(r, es)
  {
    CreationPositive(db, now, c);
    hide UserValid, Stuck, CreationOf, DbOk, RecvChats, CopyEvent;
    if AllKnown(r, es) {
      KnownRound(r, db, u, poll, es);
      assert false;
    }
    if Stuck(db, u, r.chatsTs) {
      StuckStays(r, db, u, poll, es, c);
      assert false;
    }
  }

  /** A visible message from the poll's timestamp on is reported for its chat. */
  lemma MessageReported(db: Db, now: int, u: int, t: int, r: MemberRow, m: MessageRow)
    requires r in db.members && r.user == u && r.rem == 0 && m in db.messages && m.chat == r.chat
    requires r.creation < m.ts && t <= m.ts
    ensures HasMessages(r.chat) in EventsOf(GetNotifications(db, now, u, t))
  {
  }

  lemma HeldFlagged(db: Db, db': Db, now: int, u: int, c: int, copy: ChatCopy, t: int, es: seq<Event>)
    requires SyncFrame(db, db') && Flagged(db, u, c, copy, t)
    requires es == EventsOf(GetNotifications(db', now, u, t))
    requires Distinct(copy.members) && |copy.members| <= MAX_MEMBERS
    ensures Flagged(db', u, c, CopyEvents(copy, c, es), now + 1)
  {
    hide EventsOf, GetNotifications, CopyEvents;
    CopyEventsFrame(copy, c, es);
    forall r', m | r' in db'.members && r'.user == u && r'.chat == c && r'.rem == 0
      && m in db'.messages && m.chat == c && r'.creation < m.ts && copy.cursor <= m.ts && Reported(copy, m.ts)
      ensures CopyEvents(copy, c, es).pending > 0
    {
      var r := SyncedRow(db, db', r');
      if t <= m.ts {
        MessageReported(db', now, u, t, r', m);
      }
    }
  }

  lemma MessagesInRound(db: Db, now: int, u: int, t: int, c: int)
    ensures HasMessages(c) in EventsOf(GetNotifications(db, now, u, t)) <==> HasMessages(c) in MessageEvents(db, u, t)
  {
  }

  /** The entries of the poll that reach the copy of a chat that it finds. */
  ghost function HeardBy(s: Sys, sid: int, order: seq<int>, c: int): seq<Event>
    requires sid in s.sessions
  {
    Heard(s.sessions[sid].replica, s.db, c, EventsOf(NoticeOf(s, sid, order)))
  }

  lemma NewPending(s: Sys, sid: int, order: seq<int>, c: int)
    requires Base(s) && PollAccepted(s, sid, order)
    requires Holds(DoPoll(s, sid, order), sid, c) && !Holds(s, sid, c)
    ensures CopyOf(DoPoll(s, sid, order), sid, c).pending > 0 <==> HasMessages(c) in HeardBy(s, sid, order, c)
  {
    var s', u, r := DoPoll(s, sid, order), s.sessions[sid].user, s.sessions[sid].replica;
    PollExact(s, sid, order);
    var n := NoticeOf(s, sid, order);
    var r1 := r.(lastNotif := n.lastTimestamp, friends := AddFriends(r.friends, n.friends));
    assert SessionOk(s.db, s.now, s.sessions[sid]);
    assert CopyOf(s', sid, c) == ApplyEvents(r1, s'.db, u, r.lastNotif, EventsOf(n)).chats[c];
    assert Novel(CopyOf(s', sid, c), s'.db, u, c);
    FoundFlagged(r1, s'.db, s.now, u, r.lastNotif, EventsOf(n), c);
    hide DoPoll, NoticeOf, EventsOf, ApplyEvents, Novel, DbOk;
    SameUnknown(r, r1, EventsOf(n));
  }

  lemma {:induction false} SameUnknown(r: Replica, r1: Replica, es: seq<Event>)
    requires r1.chats == r.chats
    ensures AfterUnknown(r1, es) == AfterUnknown(r, es)
  {
    if es != [] && es[0].chat in r.chats {
      SameUnknown(r, r1, es[1..]);
    }
  }

  /** Of a chat that a poll finds, everything that its member can see is flagged if and only if there is nothing to see,
      or an entry that reaches the new copy says that there are messages; the entry is sent when something to see is at
      least as new as the poll before. */
  lemma DiscoveredFlaggedExactly(s: Sys, sid: int, order: seq<int>, c: int)
    requires Base(s) && PollAccepted(s, sid, order)
    requires Holds(DoPoll(s, sid, order), sid, c) && !Holds(s, sid, c)
    ensures var s' := DoPoll(s, sid, order); var u := s'.sessions[sid].user;
      && (AllFlagged(s'.db, u, c, CopyOf(s', sid, c)) <==>
           (forall m :: !Sees(s'.db, u, c, m)) || HasMessages(c) in HeardBy(s, sid, order, c))
      && (HasMessages(c) in EventsOf(NoticeOf(s, sid, order)) <==>
           exists m :: Sees(s'.db, u, c, m) && s.sessions[sid].replica.lastNotif <= m.ts)
  {
    var s', u, t := DoPoll(s, sid, order), s.sessions[sid].user, s.sessions[sid].replica.lastNotif;
    PollExact(s, sid, order);
    NewPending(s, sid, order, c);
    MessagesPositive(s'.db, s.now);
    var copy := CopyOf(s', sid, c);
    assert copy.cursor == 0;
    NoticeIs(s, sid, order);
    MessagesInRound(s'.db, s.now, u, t, c);
    MessagesToSee(s'.db, u, t, c);
    hide DoPoll, MessageEvents, HeardBy, NoticeOf, EventsOf, GetNotifications, DbOk;
    FlaggedFromStart(s'.db, u, c, copy);
  }

  lemma MessagesToSee(db: Db, u: int, t: int, c: int)
    ensures HasMessages(c) in MessageEvents(db, u, t) <==> exists m :: Sees(db, u, c, m) && t <= m.ts
  {
    if HasMessages(c) in MessageEvents(db, u, t) {
      var r, m :| r in db.members && m in db.messages && r.user == u && r.chat == c && r.rem == 0
        && m.chat == c && m.ts > r.creation && m.ts >= t;
      assert Sees(db, u, c, m);
    }
  }

  lemma FlaggedFromStart(db: Db, u: int, c: int, copy: ChatCopy)
    requires copy.cursor == 0 && (forall m :: m in db.messages ==> 1 <= m.ts)
    ensures AllFlagged(db, u, c, copy) <==> (forall m :: !Sees(db, u, c, m)) || copy.pending > 0
  {
    forall r, m | r in db.members && r.user == u && r.chat == c && r.rem == 0
      && m in db.messages && m.chat == c && r.creation < m.ts
      ensures Sees(db, u, c, m)
    {
    }
  }

  /** A poll reports the join of a user of its own before it reports messages, and so the messages are heard of. */
  lemma JoinHeard(s: Sys, sid: int, order: seq<int>, c: int)
    requires Base(s) && PollAccepted(s, sid, order) && !Holds(s, sid, c)
    requires var u := s.sessions[sid].user; var db := SyncedBy(s, sid, order).db;
      exists r :: r in db.members && r.user == u && r.chat == c && r.rem == 0
        && r.creation >= s.sessions[sid].replica.lastNotif
    ensures HasMessages(c) in EventsOf(NoticeOf(s, sid, order)) ==> HasMessages(c) in HeardBy(s, sid, order, c)
  {
    var r, n, u := s.sessions[sid].replica, NoticeOf(s, sid, order), s.sessions[sid].user;
    assert n.added == AddedEvents(SyncedBy(s, sid, order).db, u, r.lastNotif);
    assert HasEntry(SyncedBy(s, sid, order).db, u, c);
    hide SyncAll, NoticeOf, Base, PollAccepted, AfterUnknown;
    assert Added(c, u) in n.added;
    AddedHeard(r, n, c, u);
  }

  lemma AddedHeard(r: Replica, n: Notifications, c: int, u: int)
    requires c !in r.chats && Added(c, u) in n.added && forall e :: e in n.added ==> e.Added?
    ensures HasMessages(c) in EventsOf(n) ==> HasMessages(c) in AfterUnknown(r, EventsOf(n))
  {
    var rest := n.removed + n.admins + n.withMessages + n.readTimes;
    assert EventsOf(n) == n.added + rest;
    hide EventsOf, AfterUnknown;
    var i :| 0 <= i < |n.added| && n.added[i] == Added(c, u);
    RestHeard(r, n.added, rest, i);
    assert HasMessages(c) !in n.added;
  }

  /** What follows the lists with an unknown chat comes after its first entry. */
  lemma {:induction false} RestHeard(r: Replica, es: seq<Event>, rest: seq<Event>, i: nat)
    requires i < |es| && es[i].chat !in r.chats
    ensures forall e :: e in rest ==> e in AfterUnknown(r, es + rest)
  {
    if es[0].chat !in r.chats {
      assert (es + rest)[1..] == es[1..] + rest;
    } else {
      assert (es + rest)[1..] == es[1..] + rest;
      RestHeard(r, es[1..], rest, i - 1);
    }
  }

  lemma NewFlagged(s: Sys, sid: int, order: seq<int>, c: int)
    requires Base(s) && PollAccepted(s, sid, order)
    requires Holds(DoPoll(s, sid, order), sid, c) && !Holds(s, sid, c)
    requires CopyOf(DoPoll(s, sid, order), sid, c).join >= s.sessions[sid].replica.lastNotif
    ensures var s' := DoPoll(s, sid, order);
      AllFlagged(s'.db, s'.sessions[sid].user, c, CopyOf(s', sid, c))
  {
    var s', u, t := DoPoll(s, sid, order), s.sessions[sid].user, s.sessions[sid].replica.lastNotif;
    PollExact(s, sid, order);
    var copy := CopyOf(s', sid, c);
    var r :| r in s'.db.members && r.user == u && r.chat == c && r.rem == 0 && copy.join == r.creation;
    JoinHeard(s, sid, order, c);
    DiscoveredFlaggedExactly(s, sid, order, c);
    hide DoPoll, NoticeOf, EventsOf, HeardBy, DbOk, AllFlagged;
    forall m | Sees(s'.db, u, c, m) ensures t <= m.ts {
      var q :| q in s'.db.members && q.user == u && q.chat == c && q.rem == 0 && q.creation < m.ts;
      OneRow(s'.db, r, q);
    }
  }

  lemma NoticeIs(s: Sys, sid: int, order: seq<int>)
    requires Base(s) && PollAccepted(s, sid, order)
    ensures NoticeOf(s, sid, order)
      == GetNotifications(DoPoll(s, sid, order).db, s.now, s.sessions[sid].user, s.sessions[sid].replica.lastNotif)
  {
  }

  /** After a poll every reported message that is visible and undelivered is flagged, whatever its stamp. */
  lemma PolledFlagged(s: Sys, sid: int, order: seq<int>, c: int)
    requires Base(s) && PendingOk(s) && PollAccepted(s, sid, order) && Holds(DoPoll(s, sid, order), sid, c)
    ensures var s' := DoPoll(s, sid, order);
      Flagged(s'.db, s'.sessions[sid].user, c, CopyOf(s', sid, c), s.now + 1)
  {
    var s', u, t := DoPoll(s, sid, order), s.sessions[sid].user, s.sessions[sid].replica.lastNotif;
    PollExact(s, sid, order);
    if Holds(s, sid, c) {
      var copy, es := CopyOf(s, sid, c), EventsOf(NoticeOf(s, sid, order));
      assert CopyOk(s.db, u, c, copy);
      CopyEventsFrame(copy, c, es);
      NoticeIs(s, sid, order);
      HeldFlagged(s.db, s'.db, s.now, u, c, copy, t, es);
    } else if CopyOf(s', sid, c).join >= t {
      NewFlagged(s, sid, order, c);
    } else {
      assert Novel(CopyOf(s', sid, c), s'.db, u, c) && CopyOf(s', sid, c).reportedFrom == s.now + 1;
      hide DoPoll, NoticeOf, EventsOf, DbOk, PollAccepted;
    }
  }

  lemma PendingPoll(s: Sys, sid: int, order: seq<int>)
    requires Base(s) && PendingOk(s)
    ensures PendingOk(DoPoll(s, sid, order))
  {
    var s' := DoPoll(s, sid, order);
    if PollAccepted(s, sid, order) {
      PollExact(s, sid, order);
      hide DoPoll;
      forall k, c | Holds(s', k, c)
        ensures Flagged(s'.db, s'.sessions[k].user, c, CopyOf(s', k, c), s'.sessions[k].replica.lastNotif)
      {
        if k == sid {
          PolledFlagged(s, sid, order, c);
        } else {
          assert Holds(s, k, c);
          FlaggedSynced(s.db, s'.db, s.sessions[k].user, c, CopyOf(s, k, c), s.sessions[k].replica.lastNotif);
        }
      }
    }
  }

  lemma FlaggedSynced(db: Db, db': Db, u: int, c: int, copy: ChatCopy, t: int)
    requires SyncFrame(db, db') && Flagged(db, u, c, copy, t)
    ensures Flagged(db', u, c, copy, t)
  {
  }

  // ---- Fetches ----------------------------------------------------------------------------------------------------

  /** An accepted fetch leaves nothing visible above the cursor, and delivers everything that was not skipped. */
  lemma FetchDrains(s: Sys, sid: int, c: int) returns (r: MemberRow)
    requires Base(s) && Delivered(s) && Holds(s, sid, c)
    requires GetChatMessages(s.db, s.sessions[sid].user, c, CopyOf(s, sid, c).cursor).Some?
    ensures r in s.db.members && r.user == s.sessions[sid].user && r.chat == c
    ensures var s' := DoFetch(s, sid, c);
      && Holds(s', sid, c) && CopyOf(s', sid, c).pending == 0
      && CopyOf(s', sid, c).cursor > CopyOf(s, sid, c).cursor >= 0
      && forall m :: m in s.db.messages && m.chat == c && r.creation < m.ts ==>
           && m.ts < CopyOf(s', sid, c).cursor
           && (m.ts !in CopyOf(s, sid, c).skipped ==> Has(CopyOf(s', sid, c).log, r.user, m))
  {
    var list: MessageList;
    r, list := FetchReply(s, sid, c);
    var copy := CopyOf(s, sid, c);
    assert CopyDelivered(s, r.user, c, copy);
    FetchedCopyIs(s, sid, c, list);
    ReplyCursor(s.db, s.now, r, copy.cursor, list);
    ReplyAscending(s.db, s.now, r, copy.cursor, list);
    hide DbOk, DoFetch, GetChatMessages, UnreadOk, SkipsOk;
    ReceiveExact(copy, r.user, list);
    NoGapFetch(s.db, s.now, r, copy, list, Receive(copy, r.user, list));
  }

  lemma PendingFetch(s: Sys, sid: int, c: int)
    requires Base(s) && Delivered(s) && PendingOk(s)
    ensures PendingOk(DoFetch(s, sid, c))
  {
    if Holds(s, sid, c) && GetChatMessages(s.db, s.sessions[sid].user, c, CopyOf(s, sid, c).cursor).Some? {
      var s' := DoFetch(s, sid, c);
      var r := FetchDrains(s, sid, c);
      FetchOthers(s, sid, c);
      hide DoFetch;
      forall k, d | Holds(s', k, d)
        ensures Flagged(s'.db, s'.sessions[k].user, d, CopyOf(s', k, d), s'.sessions[k].replica.lastNotif)
      {
        if k == sid && d == c {
          forall q | q in s.db.members && q.user == r.user && q.chat == c ensures q == r {
            OneRow(s.db, r, q);
          }
        } else {
          assert Flagged(s.db, s.sessions[k].user, d, CopyOf(s, k, d), s.sessions[k].replica.lastNotif);
        }
      }
    }
  }

  lemma PendingShow(s: Sys, sid: int, c: int)
    requires PendingOk(s)
    ensures PendingOk(DoShow(s, sid, c))
  {
    var s' := DoShow(s, sid, c);
    forall k, d | Holds(s', k, d)
      ensures Flagged(s'.db, s'.sessions[k].user, d, CopyOf(s', k, d), s'.sessions[k].replica.lastNotif)
    {
      assert Holds(s, k, d);
      assert Flagged(s.db, s.sessions[k].user, d, CopyOf(s, k, d), s.sessions[k].replica.lastNotif);
    }
  }

  lemma MadeFlagged(db: Db, u: int, c: int, copy: ChatCopy, now: int)
    requires MadeAt(copy, now, None) && copy.cursor == 0
    ensures Flagged(db, u, c, copy, now)
  {
  }

  lemma PendingLogin(s: Sys, sid: int, u: int)
    requires Base(s) && PendingOk(s)
    ensures PendingOk(DoLogin(s, sid, u))
  {
    if UserValid(s.db, u) {
      LoginExact(s, u);
      var s' := DoLogin(s, sid, u);
      hide LoadData, Flagged, DbOk, SessionOk, MadeAt;
      forall k, d | Holds(s', k, d)
        ensures Flagged(s'.db, s'.sessions[k].user, d, CopyOf(s', k, d), s'.sessions[k].replica.lastNotif)
      {
        if k != sid {
          assert Holds(s, k, d);
        } else {
          MadeFlagged(s.db, u, d, CopyOf(s', k, d), s.now);
        }
      }
    }
  }

  // ---- Every run --------------------------------------------------------------------------------------------------

  lemma PendingStep(s: Sys, l: Label)
    requires Base(s) && Delivered(s) && PendingOk(s)
    ensures PendingOk(Step(s, l))
  {
    hide DoLogin, DoPoll, DoFetch, DoShow, DoCreate, DoLeave, DoSay;
    match l {
      case Login(sid, u) => PendingLogin(s, sid, u);
      case Logout(sid) =>
        var s' := Step(s, l);
        assert forall k, d :: Holds(s', k, d) ==> Holds(s, k, d) && CopyOf(s', k, d) == CopyOf(s, k, d);
      case Poll(sid, order) =>
        PendingPoll(s, sid, order);
      case Fetch(sid, c) => PendingFetch(s, sid, c);
      case Show(sid, c) => PendingShow(s, sid, c);
      case _ =>
        ServerMoves(s, l);
        PendingServer(s, Step(s, l));
    }
  }

  lemma {:induction false} PendingAlways(t0: int, ls: seq<Label>)
    requires 1 <= t0
    ensures PendingOk(Run(Init(t0), ls))
  {
    if ls != [] {
      BaseAlways(t0, ls[..|ls| - 1]);
      DeliveredAlways(t0, ls[..|ls| - 1]);
      PendingAlways(t0, ls[..|ls| - 1]);
      PendingStep(Run(Init(t0), ls[..|ls| - 1]), ls[|ls| - 1]);
    }
  }
}

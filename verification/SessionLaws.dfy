// What an operation of a client does to the tables and to the client's memory: laws of the login, the poll, the fetch
// and the display, in terms of the tables as they stand.
module SessionLaws {
  import opened Common
  import opened Tables
  import opened Handlers
  import opened Window
  import opened Replica
  import opened TableInvariant
  import opened RoundLemmas
  import opened System
  import opened SessionInvariant
  import opened MessageLog
  import opened Delivery
  import opened Pending

  // ---- Friends ----------------------------------------------------------------------------------------------------

  /** The old friends stay in front, and the named ones follow while there is room. */
  ghost predicate Merged(before: seq<int>, names: seq<int>, all: seq<int>) {
    && |before| <= |all| <= Max(|before|, MAX_FRIENDS) && all[..|before|] == before
    && (forall x :: x in all ==> x in before || x in names)
    && (forall x :: x in names ==> x in all || |all| >= MAX_FRIENDS)
    && (Distinct(before) ==> Distinct(all))
  }

  lemma {:induction false} AddFriendsLaw(before: seq<int>, names: seq<int>)
    ensures Merged(before, names, AddFriends(before, names))
  {
    if names != [] {
      assert names == names[..|names| - 1] + [names[|names| - 1]];
      AddFriendsLaw(before, names[..|names| - 1]);
    }
  }

  // ---- The sync loop ----------------------------------------------------------------------------------------------

  /** What a row holds when its user has told up to where he has read some chats. */
  function ReadAfter(r: MemberRow, u: int, chats: map<int, ChatCopy>, told: set<int>): int
    requires told <= chats.Keys
  {
    if r.user == u && r.chat in told then Max(r.read, chats[r.chat].readTs) else r.read
  }

  /** Nobody who is in the chat has read less. */
  ghost predicate AllHaveRead(rows: seq<MemberRow>, c: int, t: int) {
    forall r :: r in rows && r.chat == c && r.rem == 0 ==> t <= r.read
  }

  ghost predicate RowsSynced(rows: seq<MemberRow>, rows': seq<MemberRow>, u: int, chats: map<int, ChatCopy>,
                             told: set<int>)
    requires told <= chats.Keys
  {
    && |rows'| == |rows|
    && forall i :: 0 <= i < |rows| ==> rows'[i] == rows[i].(read := ReadAfter(rows[i], u, chats, told))
  }

  /** The user's rows have what he has told, and no other row has moved; and a chat has his stamp as READ_TIME if he has
      told of it and nobody has read less. */
  ghost predicate SyncedWith(db: Db, db': Db, u: int, chats: map<int, ChatCopy>, told: set<int>)
    requires told <= chats.Keys
  {
    && db' == db.(members := db'.members, chats := db'.chats)
    && RowsSynced(db.members, db'.members, u, chats, told)
    && db'.chats.Keys == db.chats.Keys
    && forall c :: c in db.chats ==> db'.chats[c] == db.chats[c].(readTime :=
         if c in told && AllHaveRead(db'.members, c, chats[c].readTs) then chats[c].readTs else db.chats[c].readTime)
  }

  lemma RowsReported(db: Db, u: int, c: int, t: int)
    ensures var db' := UpdateSync(db, u, c, t);
      && db' == db.(members := db'.members, chats := db'.chats) && |db'.members| == |db.members|
      && forall i :: 0 <= i < |db.members| ==> var r := db.members[i];
           db'.members[i] == r.(read := if r.user == u && r.chat == c then Max(r.read, t) else r.read)
  {
  }

  lemma ChatReported(db: Db, u: int, c: int, t: int)
    ensures var db' := UpdateSync(db, u, c, t);
      && db'.chats.Keys == db.chats.Keys
      && forall d :: d in db.chats ==> db'.chats[d] == db.chats[d].(readTime :=
           if d == c && AllHaveRead(db'.members, c, t) then t else db.chats[d].readTime)
  {
  }

  lemma OneReport(db0: Db, db: Db, u: int, chats: map<int, ChatCopy>, told: set<int>, c: int)
    requires told <= chats.Keys && c in chats && SyncedWith(db0, db, u, chats, told)
    ensures SyncedWith(db0, UpdateSync(db, u, c, chats[c].readTs), u, chats, told + {c})
  {
    var t := chats[c].readTs;
    var db' := UpdateSync(db, u, c, t);
    RowsReported(db, u, c, t);
    ChatReported(db, u, c, t);
    hide UpdateSync, AllHaveRead;
    forall d | d in db0.chats ensures db'.chats[d] == db0.chats[d].(readTime :=
      if d in told + {c} && AllHaveRead(db'.members, d, chats[d].readTs) then chats[d].readTs
      else db0.chats[d].readTime)
    {
      SameReaders(db0.members, db.members, db'.members, u, chats, told, c, d);
    }
  }

  /** What another report of a chat changes nothing about. */
  lemma SameReaders(rows: seq<MemberRow>, rows1: seq<MemberRow>, rows2: seq<MemberRow>, u: int,
                    chats: map<int, ChatCopy>, told: set<int>, c: int, d: int)
    requires told <= chats.Keys && c in chats && RowsSynced(rows, rows1, u, chats, told) && |rows2| == |rows1|
    requires forall i :: 0 <= i < |rows1| ==> var r := rows1[i];
      rows2[i] == r.(read := if r.user == u && r.chat == c then Max(r.read, chats[c].readTs) else r.read)
    ensures d in told || d != c ==> forall t :: AllHaveRead(rows2, d, t) <==> AllHaveRead(rows1, d, t)
  {
    if d in told || d != c {
      forall i | 0 <= i < |rows1| && rows1[i].chat == d ensures rows2[i] == rows1[i] {
      }
      forall t ensures AllHaveRead(rows2, d, t) <==> AllHaveRead(rows1, d, t) {
        ReadersIn(rows1, rows2, d, t);
        ReadersIn(rows2, rows1, d, t);
      }
    }
  }

  lemma ReadersIn(rows: seq<MemberRow>, rows': seq<MemberRow>, d: int, t: int)
    requires |rows'| == |rows| && forall i :: 0 <= i < |rows| && rows[i].chat == d ==> rows'[i] == rows[i]
    ensures AllHaveRead(rows', d, t) ==> AllHaveRead(rows, d, t)
  {
    if AllHaveRead(rows', d, t) {
      forall r | r in rows && r.chat == d && r.rem == 0 ensures t <= r.read {
        var i :| 0 <= i < |rows| && rows[i] == r;
        assert rows'[i] in rows';
      }
    }
  }

  /** The client may name its chats in any order. */
  lemma {:induction false} SyncLaw(y: Synced, u: int, chats: map<int, ChatCopy>, order: seq<int>)
    requires Elements(order) <= chats.Keys
    ensures SyncedWith(y.db, SyncAll(y, u, chats, order).db, u, chats, Elements(order))
  {
    if order != [] {
      var front, c := order[..|order| - 1], order[|order| - 1];
      assert order == front + [c];
      assert c in Elements(order) && Elements(front) <= Elements(order);
      SyncLaw(y, u, chats, front);
      hide UpdateSync, SyncedWith;
      OneReport(y.db, SyncAll(y, u, chats, front).db, u, chats, Elements(front), c);
      assert Elements(order) == Elements(front) + {c};
    }
  }

  // ---- The round on a held chat -----------------------------------------------------------------------------------

  lemma {:induction false} ReadStampOf(copy: ChatCopy, c: int, es: seq<Event>, v: int)
    requires forall e :: e in es && e.ReadUpTo? && e.chat == c ==> e.ts == v
    ensures CopyEvents(copy, c, es).allReadTs == if ReadUpTo(c, v) in es then v else copy.allReadTs
  {
    if es != [] {
      assert es == es[..|es| - 1] + [es[|es| - 1]];
      ReadStampOf(copy, c, es[..|es| - 1], v);
    }
  }

  lemma ReadStampSent(db: Db, now: int, u: int, t: int, c: int)
    requires HasEntry(db, u, c) && c in db.chats
    ensures ReadUpTo(c, ReadTimeOf(db, c)) in EventsOf(GetNotifications(db, now, u, t))
    ensures forall e :: e in EventsOf(GetNotifications(db, now, u, t)) && e.ReadUpTo? && e.chat == c ==>
      e.ts == ReadTimeOf(db, c)
  {
    assert ReadUpTo(c, ReadTimeOf(db, c)) in ReadTimeEvents(db, u);
    forall e | e in EventsOf(GetNotifications(db, now, u, t)) && e.ReadUpTo? && e.chat == c
      ensures e.ts == ReadTimeOf(db, c)
    {
      assert e in ReadTimeEvents(db, u);
    }
  }

  /** The copy shows the READ_TIME of the tables, whether it has gone up or down, and is flagged if it was or if there
      is a message to see that is as new as the poll before; of the rest, only the admin and the members can change. */
  ghost predicate Updated(copy: ChatCopy, copy': ChatCopy, db: Db, u: int, c: int, t: int) {
    && copy' == copy.(allReadTs := ReadTimeOf(db, c), pending := copy'.pending, admin := copy'.admin,
                      members := copy'.members, refused := copy'.refused)
    && copy'.pending == if exists m :: Sees(db, u, c, m) && t <= m.ts then 1 else copy.pending
  }

  lemma RoundLaw(copy: ChatCopy, db: Db, now: int, u: int, c: int, t: int)
    requires HasEntry(db, u, c) && c in db.chats && Distinct(copy.members) && |copy.members| <= MAX_MEMBERS
    ensures Updated(copy, CopyEvents(copy, c, EventsOf(GetNotifications(db, now, u, t))), db, u, c, t)
  {
    var es := EventsOf(GetNotifications(db, now, u, t));
    CopyEventsFrame(copy, c, es);
    ReadStampSent(db, now, u, t, c);
    ReadStampOf(copy, c, es, ReadTimeOf(db, c));
    MessagesInRound(db, now, u, t, c);
    MessagesSent(db, u, t, c);
    hide CopyEvents, EventsOf, GetNotifications, Sees, HasEntry, Distinct;
  }

  lemma MessagesSent(db: Db, u: int, t: int, c: int)
    ensures HasMessages(c) in MessageEvents(db, u, t) <==> exists m :: Sees(db, u, c, m) && t <= m.ts
  {
    if m :| Sees(db, u, c, m) && t <= m.ts {
      var r :| r in db.members && r.user == u && r.chat == c && r.rem == 0 && r.creation < m.ts;
    }
    if HasMessages(c) in MessageEvents(db, u, t) {
      var r, m :| r in db.members && m in db.messages && r.user == u && r.chat == c && r.rem == 0
        && m.chat == c && m.ts > r.creation && m.ts >= t;
      assert Sees(db, u, c, m);
    }
  }

  // ---- The poll ---------------------------------------------------------------------------------------------------

  /** A poll by a valid user, naming the chats that the client holds, leaves his read stamps in the tables. The client
      then has the time of the poll, the friends made since the poll before, every chat that it held brought up to date,
      and of the others those that it has found, as they are in the tables. */
  lemma PollLaw(s: Sys, sid: int, order: seq<int>)
    requires Base(s) && PollAccepted(s, sid, order)
    ensures var s', se := Step(s, Poll(sid, order)), s.sessions[sid]; var u, r := se.user, se.replica;
      && sid in s'.sessions && s'.sessions[sid].user == u
      && s' == s.(db := s'.db, shown := s'.shown, sessions := s.sessions[sid := s'.sessions[sid]])
      && SyncedWith(s.db, s'.db, u, r.chats, r.chats.Keys)
      && var r' := s'.sessions[sid].replica;
      && r'.lastNotif == s.now && Merged(r.friends, SelectFriends(s'.db, u, r.lastNotif), r'.friends)
      && (forall c :: c in r.chats ==>
            c in r'.chats && Updated(r.chats[c], r'.chats[c], s'.db, u, c, r.lastNotif))
      && (forall c :: c in r'.chats && c !in r.chats ==>
            Novel(r'.chats[c], s'.db, u, c) && MadeAt(r'.chats[c], s.now, Some(r.lastNotif)))
  {
    hide DoPoll, Step, NoticeOf, EventsOf, CopyEvents, Novel, MadeAt, SyncedWith, Merged, Updated, Base, Fact, DbOk,
         PollAccepted, SyncFrame, SelectFriends;
    StepPoll(s, sid, order);
    PollExact(s, sid, order);
    PollFriends(s, sid, order);
    PollSyncs(s, sid, order);
    PollUpdates(s, sid, order);
  }

  lemma PollSyncs(s: Sys, sid: int, order: seq<int>)
    requires Base(s) && PollAccepted(s, sid, order)
    ensures var r := s.sessions[sid].replica;
      SyncedWith(s.db, DoPoll(s, sid, order).db, s.sessions[sid].user, r.chats, r.chats.Keys)
  {
    PollExact(s, sid, order);
    SyncLaw(Synced(s.db, s.shown), s.sessions[sid].user, s.sessions[sid].replica.chats, order);
    hide DoPoll, SyncAll, NoticeOf, EventsOf, SyncedWith, Base;
  }

  lemma PollUpdates(s: Sys, sid: int, order: seq<int>)
    requires Base(s) && PollAccepted(s, sid, order)
    ensures var s', se := DoPoll(s, sid, order), s.sessions[sid];
      && sid in s'.sessions
      && forall c :: c in se.replica.chats ==>
           && c in s'.sessions[sid].replica.chats
           && Updated(se.replica.chats[c], s'.sessions[sid].replica.chats[c], s'.db, se.user, c, se.replica.lastNotif)
  {
    PollExact(s, sid, order);
    NoticeIs(s, sid, order);
    SyncedEntry(s.db, DoPoll(s, sid, order).db);
    var s', se := DoPoll(s, sid, order), s.sessions[sid];
    hide DoPoll, NoticeOf, EventsOf, GetNotifications, CopyEvents, Novel, MadeAt, Updated, Fact, DbOk, PollAccepted;
    forall c | c in se.replica.chats
      ensures c in s'.sessions[sid].replica.chats
      ensures Updated(se.replica.chats[c], s'.sessions[sid].replica.chats[c], s'.db, se.user, c, se.replica.lastNotif)
    {
      assert SessionOk(s.db, s.now, se) && CopyOk(s.db, se.user, c, se.replica.chats[c]);
      RoundLaw(se.replica.chats[c], s'.db, s.now, se.user, c, se.replica.lastNotif);
    }
  }

  lemma PollFriends(s: Sys, sid: int, order: seq<int>)
    requires Base(s) && PollAccepted(s, sid, order)
    ensures var s', se := DoPoll(s, sid, order), s.sessions[sid];
      && sid in s'.sessions
      && Merged(se.replica.friends, SelectFriends(s'.db, se.user, se.replica.lastNotif),
                s'.sessions[sid].replica.friends)
  {
    var u, r := s.sessions[sid].user, s.sessions[sid].replica;
    var n := NoticeOf(s, sid, order);
    var r1 := r.(lastNotif := n.lastTimestamp, friends := AddFriends(r.friends, n.friends));
    AddFriendsLaw(r.friends, n.friends);
    FriendsKept(r1, SyncedBy(s, sid, order).db, u, r.lastNotif, EventsOf(n));
    hide SelectFriends, AddFriends, ApplyEvents, Merged, SyncAll, EventsOf;
  }

  lemma {:induction false} FriendsKept(r: Replica, db: Db, u: int, poll: int, es: seq<Event>)
    ensures ApplyEvents(r, db, u, poll, es).friends == r.friends
  {
    if es != [] {
      FriendsKept(r, db, u, poll, es[..|es| - 1]);
      var p, e := ApplyEvents(r, db, u, poll, es[..|es| - 1]), es[|es| - 1];
      RequestKeepsFriends(p, db, u, Some(poll));
      hide RecvChats, CopyEvent;
    }
  }

  lemma RequestKeepsFriends(r: Replica, db: Db, u: int, poll: Option<int>)
    ensures RecvChats(r, db, u, poll).friends == r.friends
  {
    if UserValid(db, u) {
      AddCopiesExact(r, db, ChatRowsFor(db, u, r.chatsTs), r.chatsTs, poll);
    }
  }

  // ---- Chats that a poll finds ------------------------------------------------------------------------------------

  /** A request for new chats comes, and the chat is not older than the chat cursor by then: the first one if it is not
      older than the cursor is now, and otherwise the second one, if the first has found nothing and so reset it. */
  ghost predicate ComesUp(r: Replica, db: Db, u: int, es: seq<Event>, c: int) {
    || r.chatsTs <= CreationOf(db, c)
    || (!Stuck(db, u, r.chatsTs) && !AllKnown(r, AfterUnknown(r, es)))
  }

  lemma FoundInRound(r: Replica, db: Db, now: int, u: int, poll: int, es: seq<Event>, e: Event)
    requires DbOk(db, now) && UserValid(db, u) && InChat(db, u, e.chat) && e.chat in db.chats
    requires e.chat !in r.chats && 0 <= r.chatsTs <= now && e in es && forall e :: e in es ==> Fact(db, u, e)
    ensures var r' := ApplyEvents(r, db, u, poll, es);
      && (e.chat in r'.chats ==> ComesUp(r, db, u, es, e.chat))
      && (ComesUp(r, db, u, es, e.chat) ==> e.chat in r'.chats || Blocked(r', db, e.chat))
  {
    hide DbOk, UserValid, InChat, Fact, Stuck, ApplyEvents, CreationOf, AfterUnknown, Blocked, RecvChats;
    var c := e.chat;
    if r.chatsTs <= CreationOf(db, c) {
      FreshFlagged(r, db, now, u, poll, es, c);
    } else if c in ApplyEvents(r, db, u, poll, es).chats {
      DryFound(r, db, now, u, poll, es, c);
      var p1 := DryRound(r, db, u, poll, es, c);
      if AllKnown(r, AfterUnknown(r, es)) {
        KnownRound(p1, db, u, poll, AfterUnknown(r, es));
        assert false;
      }
    } else if ComesUp(r, db, u, es, c) {
      var p1 := DryRound(r, db, u, poll, es, c);
      HeardThere(r, es);
      CreationPositive(db, now, c);
      FreshFlagged(p1, db, now, u, poll, AfterUnknown(r, es), c);
    }
  }

  /** A poll finds a chat that its user is in exactly when it comes up, while there is room for it: less than MAX_CHATS
      chats in the client's list, and no more than MAX_MEMBERS members in the chat. */
  lemma FoundExactly(s: Sys, sid: int, order: seq<int>, c: int)
    requires Base(s) && PollAccepted(s, sid, order) && !Holds(s, sid, c) && InChat(s.db, s.sessions[sid].user, c)
    ensures var s', se := Step(s, Poll(sid, order)), s.sessions[sid];
      var up := ComesUp(se.replica, s'.db, se.user, EventsOf(NoticeOf(s, sid, order)), c);
      && sid in s'.sessions
      && (Holds(s', sid, c) ==> up)
      && (up ==> Holds(s', sid, c) || Blocked(s'.sessions[sid].replica, s'.db, c))
  {
    var s', u, r := DoPoll(s, sid, order), s.sessions[sid].user, s.sessions[sid].replica;
    var es := EventsOf(NoticeOf(s, sid, order));
    var r1 := RoundIs(s, sid, order);
    PollExact(s, sid, order);
    StepPoll(s, sid, order);
    NoticeIs(s, sid, order);
    ActiveChat(s.db, s.now, u, c);
    SyncedEntry(s.db, s'.db);
    hide DoPoll, Step, NoticeOf, EventsOf, GetNotifications, ApplyEvents, Stuck, Blocked, DbOk, AfterUnknown, Novel,
         Fact, CopyEvents, MadeAt, UserValid, InChat, HasEntry, AllKnown, CreationOf, Elements;
    ReadStampSent(s'.db, s.now, u, r.lastNotif, c);
    FoundInRound(r1, s'.db, s.now, u, r.lastNotif, es, ReadUpTo(c, ReadTimeOf(s'.db, c)));
    SameUnknown(r, r1, es);
    SameUp(r, r1, s'.db, u, es, c);
  }

  lemma SameUp(r: Replica, r1: Replica, db: Db, u: int, es: seq<Event>, c: int)
    requires r1.chats == r.chats && r1.chatsTs == r.chatsTs && AfterUnknown(r1, es) == AfterUnknown(r, es)
    ensures ComesUp(r1, db, u, es, c) <==> ComesUp(r, db, u, es, c)
  {
    hide Stuck, AfterUnknown;
  }

  /** The chats after a poll are those of the round, from the chats before. */
  lemma RoundIs(s: Sys, sid: int, order: seq<int>) returns (r1: Replica)
    requires Base(s) && PollAccepted(s, sid, order)
    ensures var s', se := DoPoll(s, sid, order), s.sessions[sid];
      && r1.chats == se.replica.chats && r1.chatsTs == se.replica.chatsTs && 0 <= r1.chatsTs <= s.now
      && sid in s'.sessions
      && s'.sessions[sid].replica
           == ApplyEvents(r1, s'.db, se.user, se.replica.lastNotif, EventsOf(NoticeOf(s, sid, order)))
  {
    var r, n := s.sessions[sid].replica, NoticeOf(s, sid, order);
    r1 := r.(lastNotif := n.lastTimestamp, friends := AddFriends(r.friends, n.friends));
    assert SessionOk(s.db, s.now, s.sessions[sid]);
    hide SyncAll, ApplyEvents, EventsOf, AddFriends;
  }

  lemma ActiveChat(db: Db, now: int, u: int, c: int)
    requires DbOk(db, now) && InChat(db, u, c)
    ensures c in db.chats && HasEntry(db, u, c)
  {
  }

  // ---- The login --------------------------------------------------------------------------------------------------

  /** The largest creation time of the chats that the user is in, or 0. */
  ghost predicate IsChatCursor(db: Db, u: int, t: int) {
    && (forall c :: InChat(db, u, c) ==> CreationOf(db, c) <= t)
    && (t == 0 || exists c :: InChat(db, u, c) && CreationOf(db, c) == t)
  }

  /** A login of a valid user fills the client from the tables: the time, his friends, every chat that he is in, while
      there is room, and the chat cursor. */
  lemma LoginLaw(s: Sys, sid: int, u: int)
    requires Base(s) && UserValid(s.db, u)
    ensures var s' := Step(s, Login(sid, u));
      && sid in s'.sessions && s'.sessions[sid].user == u
      && s' == s.(sessions := s.sessions[sid := s'.sessions[sid]])
      && var r := s'.sessions[sid].replica;
      && r.lastNotif == s.now && IsChatCursor(s.db, u, r.chatsTs)
      && Merged([], SelectFriends(s.db, u, 0), r.friends)
      && (forall c :: c in r.chats ==>
            Novel(r.chats[c], s.db, u, c) && MadeAt(r.chats[c], s.now, None) && r.chats[c].pending == 0)
      && (forall c :: InChat(s.db, u, c) ==> c in r.chats || Blocked(r, s.db, c))
  {
    LoginExact(s, u);
    AddFriendsLaw([], SelectFriends(s.db, u, 0));
    var r0 := Replica(s.now, 0, AddFriends([], SelectFriends(s.db, u, 0)), map[]);
    RequestKeepsFriends(r0, s.db, u, None);
    CursorLaw(r0, s.db, s.now, u);
    HoldsAll(r0, s.db, s.now, u);
    StepLogin(s, sid, u);
    assert LoadData(s.db, s.now, u) == RecvChats(r0, s.db, u, None);
    hide Step, DoLogin, LoadData, RecvChats, MadeAt, UserValid, Base, SelectFriends, AddFriends, Merged, Novel, Blocked,
         IsChatCursor, InChat;
  }

  lemma StepLogin(s: Sys, sid: int, u: int)
    requires UserValid(s.db, u)
    ensures Step(s, Login(sid, u)) == s.(sessions := s.sessions[sid := Session(u, LoadData(s.db, s.now, u))])
  {
    hide LoadData;
  }

  lemma HoldsAll(r: Replica, db: Db, now: int, u: int)
    requires DbOk(db, now) && UserValid(db, u) && r.chatsTs == 0
    ensures var r' := RecvChats(r, db, u, None); forall c :: InChat(db, u, c) ==> c in r'.chats || Blocked(r', db, c)
  {
    hide RecvChats, Blocked;
    forall c | InChat(db, u, c)
      ensures c in RecvChats(r, db, u, None).chats || Blocked(RecvChats(r, db, u, None), db, c)
    {
      ActiveChat(db, now, u, c);
      CreationPositive(db, now, c);
      FoundOrBlocked(r, db, now, u, None, c);
    }
  }

  lemma CursorLaw(r: Replica, db: Db, now: int, u: int)
    requires DbOk(db, now) && UserValid(db, u) && r.chatsTs == 0
    ensures IsChatCursor(db, u, RecvChats(r, db, u, None).chatsTs)
  {
    var rows := ChatRowsFor(db, u, 0);
    LastCreationBounds(db, rows);
    forall c | InChat(db, u, c) ensures CreationOf(db, c) <= LastCreation(db, rows) {
      var q :| q in db.members && q.user == u && q.chat == c && q.rem == 0;
      assert q in rows;
    }
    if LastCreation(db, rows) != 0 {
      var q :| q in rows && LastCreation(db, rows) == CreationOf(db, q.chat);
      assert InChat(db, u, q.chat);
    }
  }

  // ---- The fetch --------------------------------------------------------------------------------------------------

  /** A fetch is accepted exactly for an active member who is a valid user. */
  lemma FetchAccepted(s: Sys, sid: int, c: int)
    requires Base(s) && Holds(s, sid, c)
    ensures var u := s.sessions[sid].user;
      GetChatMessages(s.db, u, c, CopyOf(s, sid, c).cursor).Some? <==> UserValid(s.db, u) && InChat(s.db, u, c)
  {
    if InChat(s.db, s.sessions[sid].user, c) {
      var r :| r in s.db.members && r.user == s.sessions[sid].user && r.chat == c && r.rem == 0;
      assert RowOk(s.db, s.now, r);
    }
  }

  /** The messages of the chat from the cursor on that the user can see, in stamp order. */
  ghost predicate IsBatch(db: Db, u: int, c: int, cursor: int, rows: seq<MessageRow>) {
    && Ascending(rows)
    && forall m :: m in rows <==> Sees(db, u, c, m) && cursor <= m.ts
  }

  ghost function NextCursor(cursor: int, rows: seq<MessageRow>): int {
    if rows == [] then cursor + 1 else rows[|rows| - 1].ts + 1
  }

  /** It hands the client the messages that its user can see from the cursor on, in stamp order, and moves the cursor
      behind the last of them, or one further when there are none; the chat is not flagged any more. */
  lemma FetchLaw(s: Sys, sid: int, c: int) returns (rows: seq<MessageRow>, batch: seq<Stored>)
    requires Base(s) && Delivered(s) && Holds(s, sid, c)
    requires UserValid(s.db, s.sessions[sid].user) && InChat(s.db, s.sessions[sid].user, c)
    ensures var s', u, copy := Step(s, Fetch(sid, c)), s.sessions[sid].user, CopyOf(s, sid, c);
      && Holds(s', sid, c) && IsBatch(s.db, u, c, copy.cursor, rows) && ShowsAll(batch, u, rows)
      && s'.db == s.db && s'.now == s.now
      && var copy' := CopyOf(s', sid, c);
      && copy' == copy.(box := copy'.box, pending := 0, cursor := NextCursor(copy.cursor, rows),
                        log := copy.log + batch, skipped := copy.skipped + if rows == [] then {copy.cursor} else {},
                        appended := copy.appended + TakeLast(MAX_MESSAGES, batch))
      && copy'.box.items == TakeLast(MAX_MESSAGES, copy.log + batch)
      && copy'.box.unread == copy.box.unread + CountAbove(TakeLast(MAX_MESSAGES, batch), copy.readTs)
  {
    FetchAccepted(s, sid, c);
    var u, copy := s.sessions[sid].user, CopyOf(s, sid, c);
    var r, list := FetchReply(s, sid, c);
    rows, batch := list.rows, LocalizeAll(u, list.rows);
    BatchLaw(s.db, s.now, r, copy.cursor, list);
    ReplyAscending(s.db, s.now, r, copy.cursor, list);
    assert CopyDelivered(s, u, c, copy);
    FetchedCopyIs(s, sid, c, list);
    FetchOthers(s, sid, c);
    StepFetch(s, sid, c);
    hide Step, DoFetch, GetChatMessages, Base, Delivered, IsReply, UnreadOk, SkipsOk, RowDelivered, IsBatch, Localize,
         Shows;
    ReceiveExact(copy, u, list);
  }

  lemma BatchLaw(db: Db, now: int, r: MemberRow, cursor: int, list: MessageList)
    requires DbOk(db, now) && r in db.members && r.rem == 0 && IsReply(db, now, r, cursor, list)
    ensures IsBatch(db, r.user, r.chat, cursor, list.rows)
    ensures list.lastTimestamp == NextCursor(cursor, list.rows)
  {
    ReplyAscending(db, now, r, cursor, list);
    forall m | m in db.messages ensures m.ts <= now {
    }
    forall m ensures Sees(db, r.user, r.chat, m) <==> m in db.messages && m.chat == r.chat && r.creation < m.ts {
      if Sees(db, r.user, r.chat, m) {
        var q :| q in db.members && q.user == r.user && q.chat == r.chat && q.rem == 0 && q.creation < m.ts;
        OneRow(db, r, q);
      }
    }
  }
}

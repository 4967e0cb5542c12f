// Exactly which fetches can lose a message. An empty reply moves the cursor as well, so a client that asks again in
// the second in which it is already up to date steps over the stamp that the next message will get.
module CursorExactness {
  import opened Common
  import opened Tables
  import opened Handlers
  import opened Window
  import opened Replica
  import opened TableInvariant
  import opened System
  import opened SessionInvariant
  import opened MessageLog
  import opened Delivery

  /** What makes the cursor move harmless: the reply has messages, or the cursor has not caught up with the stamps
      still to be given, or those stamps are not visible to the user anyway. */
  ghost predicate FetchSafe(s: Sys, sid: int, c: int)
    requires Holds(s, sid, c)
  {
    var u, cursor := s.sessions[sid].user, CopyOf(s, sid, c).cursor;
    || SelectMessages(s.db, u, c, cursor) != []
    || cursor < NextStamp(s.db, s.now, c)
    || exists r :: r in s.db.members && r.user == u && r.chat == c && cursor <= r.creation
  }

  ghost predicate ServerOnly(ls: seq<Label>) {
    forall l :: l in ls ==> IsServerLabel(l)
  }

  /** Below its cursor the client has everything that its user can see, but for messages with the given stamps. */
  ghost predicate HasAllBut(s: Sys, sid: int, c: int, but: set<int>) {
    && Holds(s, sid, c)
    && forall r, m :: (
         && r in s.db.members && r.user == s.sessions[sid].user && r.chat == c
         && m in s.db.messages && m.chat == c && r.creation < m.ts < CopyOf(s, sid, c).cursor && m.ts !in but)
         ==> Has(CopyOf(s, sid, c).log, r.user, m)
  }

  // ---- A safe fetch -----------------------------------------------------------------------------------------------

  /** The user sees no message of the stamp, and will not see one. */
  ghost predicate NeverSeen(db: Db, now: int, u: int, c: int, t: int) {
    forall r :: r in db.members && r.user == u && r.chat == c ==>
      && (t < NextStamp(db, now, c) || t <= r.creation)
      && forall m :: m in db.messages && m.chat == c && r.creation < m.ts ==> m.ts != t
  }

  lemma NeverSeenServer(db: Db, now: int, db': Db, now': int, u: int, c: int, t: int)
    requires DbOk(db, now) && ServerStep(db, now, db', now') && HasEntry(db, u, c) && NeverSeen(db, now, u, c, t)
    ensures NeverSeen(db', now', u, c, t)
  {
    NextStampGrows(db, now, db', now', c);
    forall r', m | r' in db'.members && r'.user == u && r'.chat == c && m in db'.messages && m.chat == c
      && r'.creation < m.ts
      ensures m.ts != t
    {
      var r := RowOrigin(db, now, db', now', r');
      RowInPast(db, now, r.value);
    }
    forall r' | r' in db'.members && r'.user == u && r'.chat == c
      ensures t < NextStamp(db', now', c) || t <= r'.creation
    {
      var r := RowOrigin(db, now, db', now', r');
      RowInPast(db, now, r.value);
    }
  }

  /** Whatever the client skipped is among the given stamps, but for one that its user does not see. */
  ghost predicate SkippedOnly(s: Sys, sid: int, c: int, but: set<int>, t: int) {
    && Holds(s, sid, c)
    && forall x :: x in CopyOf(s, sid, c).skipped && x !in but ==>
         x == t && NeverSeen(s.db, s.now, s.sessions[sid].user, c, t)
  }

  lemma HasAllNow(s: Sys, sid: int, c: int, but: set<int>, t: int)
    requires Delivered(s) && SkippedOnly(s, sid, c, but, t)
    ensures HasAllBut(s, sid, c, but)
  {
    var u, copy := s.sessions[sid].user, CopyOf(s, sid, c);
    assert CopyDelivered(s, u, c, copy);
    hide Delivered, LogOk, UnreadOk, SkipsOk, CacheOk, Localize;
  }

  lemma {:induction false} SafeStays(s: Sys, ls: seq<Label>, sid: int, c: int, but: set<int>, t: int)
    requires Base(s) && Delivered(s) && SkippedOnly(s, sid, c, but, t) && ServerOnly(ls)
    ensures var s' := Run(s, ls); Base(s') && Delivered(s') && SkippedOnly(s', sid, c, but, t)
  {
    if ls != [] {
      var front, l := ls[..|ls| - 1], ls[|ls| - 1];
      assert ls == front + [l];
      SafeStays(s, front, sid, c, but, t);
      var p := Run(s, front);
      ServerMoves(p, l);
      DeliveredLabel(p, l);
      assert SessionOk(p.db, p.now, p.sessions[sid]) && CopyOk(p.db, p.sessions[sid].user, c, CopyOf(p, sid, c));
      hide Delivered, DbOk, ServerStep, Step, NeverSeen;
      if NeverSeen(p.db, p.now, p.sessions[sid].user, c, t) {
        NeverSeenServer(p.db, p.now, Step(p, l).db, Step(p, l).now, p.sessions[sid].user, c, t);
      }
    }
  }

  lemma SafeStamp(db: Db, now: int, r: MemberRow, cursor: int, list: MessageList)
    requires DbOk(db, now) && r in db.members && IsReply(db, now, r, cursor, list) && list.rows == []
    requires cursor < NextStamp(db, now, r.chat) || cursor <= r.creation
    ensures NeverSeen(db, now, r.user, r.chat, cursor)
  {
    NothingSkipped(db, now, r, cursor, list);
    forall q | q in db.members && q.user == r.user && q.chat == r.chat ensures q == r {
      OneRow(db, r, q);
    }
    hide DbOk, IsReply, NextStamp;
  }

  lemma SafeGuard(s: Sys, sid: int, c: int, r: MemberRow)
    requires RowsUnique(s.db) && Holds(s, sid, c) && FetchSafe(s, sid, c)
    requires r in s.db.members && r.user == s.sessions[sid].user && r.chat == c
    requires SelectMessages(s.db, r.user, c, CopyOf(s, sid, c).cursor) == []
    ensures CopyOf(s, sid, c).cursor < NextStamp(s.db, s.now, c) || CopyOf(s, sid, c).cursor <= r.creation
  {
  }

  lemma FetchedSkips(s: Sys, sid: int, c: int, r: MemberRow, list: MessageList)
    requires Base(s) && Delivered(s) && Holds(s, sid, c) && r.user == s.sessions[sid].user && r.chat == c
    requires GetChatMessages(s.db, r.user, c, CopyOf(s, sid, c).cursor) == Some(list)
    requires IsReply(s.db, s.now, r, CopyOf(s, sid, c).cursor, list)
    ensures var s1, copy := DoFetch(s, sid, c), CopyOf(s, sid, c);
      && s1.db == s.db && s1.now == s.now && Holds(s1, sid, c) && s1.sessions[sid].user == r.user
      && CopyOf(s1, sid, c).skipped == copy.skipped + Skips(copy.cursor, list)
      && list.rows == SelectMessages(s.db, r.user, c, copy.cursor)
  {
    var copy := CopyOf(s, sid, c);
    FetchedCopyIs(s, sid, c, list);
    assert CopyDelivered(s, r.user, c, copy);
    ReplyAscending(s.db, s.now, r, copy.cursor, list);
    hide DbOk, IsReply, SkipsOk, UnreadOk, RowDelivered, SelectMessages, DoFetch, Receive;
    ReceiveExact(copy, r.user, list);
  }

  lemma SafeSkip(s: Sys, sid: int, c: int)
    requires Base(s) && Delivered(s) && Holds(s, sid, c)
    requires GetChatMessages(s.db, s.sessions[sid].user, c, CopyOf(s, sid, c).cursor).Some?
    requires FetchSafe(s, sid, c)
    ensures SkippedOnly(DoFetch(s, sid, c), sid, c, CopyOf(s, sid, c).skipped, CopyOf(s, sid, c).cursor)
  {
    var r, list := FetchReply(s, sid, c);
    FetchedSkips(s, sid, c, r, list);
    hide DoFetch, Delivered, NeverSeen, IsReply, DbOk, FetchSafe, GetChatMessages;
    if list.rows == [] {
      SafeGuard(s, sid, c, r);
      SafeStamp(s.db, s.now, r, CopyOf(s, sid, c).cursor, list);
    }
  }

  // ---- An unsafe fetch --------------------------------------------------------------------------------------------

  lemma EmptyFetch(s: Sys, sid: int, c: int) returns (r: MemberRow)
    requires Base(s) && Delivered(s) && Holds(s, sid, c) && !FetchSafe(s, sid, c)
    requires GetChatMessages(s.db, s.sessions[sid].user, c, CopyOf(s, sid, c).cursor).Some?
    ensures r in s.db.members && r.user == s.sessions[sid].user && r.chat == c && r.rem == 0 && UserValid(s.db, r.user)
    ensures var s1, copy := DoFetch(s, sid, c), CopyOf(s, sid, c);
      && s1 == s.(sessions := s1.sessions, missed := s1.missed) && Holds(s1, sid, c) && s1.sessions[sid].user == r.user
      && CopyOf(s1, sid, c).cursor == copy.cursor + 1 && CopyOf(s1, sid, c).log == copy.log
      && CopyOf(s1, sid, c).box == copy.box
      && copy.cursor >= NextStamp(s.db, s.now, c) && copy.cursor > r.creation
      && copy.cursor !in copy.skipped && forall e :: e in copy.log ==> e.ts < copy.cursor
  {
    var list: MessageList;
    r, list := FetchReply(s, sid, c);
    var copy := CopyOf(s, sid, c);
    assert CopyDelivered(s, r.user, c, copy);
    ReceiveEmpty(copy, r.user, list);
  }

  lemma ReceiveEmpty(copy: ChatCopy, u: int, list: MessageList)
    requires list.rows == [] && Rising(copy.log) && copy.box.items == TakeLast(MAX_MESSAGES, copy.log)
    ensures Receive(copy, u, list)
         == copy.(pending := 0, cursor := list.lastTimestamp, skipped := copy.skipped + {copy.cursor})
  {
    assert copy.log + [] == copy.log;
    RisingTakeLast(MAX_MESSAGES, copy.log);
    BatchExact(copy.box, MAX_MESSAGES, copy.readTs, []);
    hide AddMessages;
    assert copy.appended + TakeLast(MAX_MESSAGES, []) == copy.appended;
  }

  lemma NotStamped(db: Db, now: int, c: int, m: MessageRow)
    requires DbOk(db, now) && m in db.messages && m.chat == c
    ensures m.ts < NextStamp(db, now, c)
  {
  }

  /** A member can wait for a stamp that is still to come, and send with it. */
  ghost function SayAt(now: int, u: int, c: int, t: int): seq<Label>
    requires now <= t
  {
    [Tick(t - now), Say(u, c, "", None)]
  }

  lemma FreeAt(db: Db, now: int, c: int, t: int)
    requires DbOk(db, now) && NextStamp(db, now, c) <= t
    ensures FirstFree(db, c, t) == t
  {
    forall m | m in db.messages && m.chat == c ensures m.ts != t {
      NotStamped(db, now, c, m);
    }
  }

  lemma SaidAt(s: Sys, r: MemberRow, t: int)
    requires Base(s) && r in s.db.members && r.rem == 0 && UserValid(s.db, r.user)
    requires NextStamp(s.db, s.now, r.chat) <= t
    ensures Run(s, SayAt(s.now, r.user, r.chat, t))
         == s.(db := s.db.(messages := s.db.messages + [MessageRow(r.user, r.chat, t, "", None)]), now := t)
  {
    FreeAt(s.db, s.now, r.chat, t);
    assert InChat(s.db, r.user, r.chat);
    hide DbOk, FirstFree, InChat, UserValid, Run;
    var s1 := s.(now := t);
    assert DoSay(s1, r.user, r.chat, "", None)
      == s1.(db := s.db.(messages := s.db.messages + [MessageRow(r.user, r.chat, t, "", None)]));
    SayAtIs(s, r.user, r.chat, t);
  }

  lemma SayAtIs(s: Sys, u: int, c: int, t: int)
    requires s.now <= t
    ensures Run(s, SayAt(s.now, u, c, t)) == DoSay(s.(now := t), u, c, "", None)
  {
    hide Step, Run, DoSay;
    var tick, say := Tick(t - s.now), Say(u, c, "", None);
    assert SayAt(s.now, u, c, t) == [tick, say];
    StepTick(s, t - s.now);
    StepSay(s.(now := t), u, c, "", None);
    RunTwo(s, tick, say);
  }

  /** After an unsafe fetch the user himself can lose a message: the one that he sends when the clock reaches the stamp
      that the fetch has skipped. */
  lemma LossFollows(s: Sys, sid: int, c: int) returns (ls: seq<Label>)
    requires Base(s) && Delivered(s) && Holds(s, sid, c)
    requires GetChatMessages(s.db, s.sessions[sid].user, c, CopyOf(s, sid, c).cursor).Some?
    requires !FetchSafe(s, sid, c)
    ensures ServerOnly(ls) && !HasAllBut(Run(DoFetch(s, sid, c), ls), sid, c, CopyOf(s, sid, c).skipped)
    ensures ls == SayAt(s.now, s.sessions[sid].user, c, CopyOf(s, sid, c).cursor)
  {
    var r := EmptyFetch(s, sid, c);
    BaseFetchShow(s, sid, c);
    var s1, t := DoFetch(s, sid, c), CopyOf(s, sid, c).cursor;
    ls := SayAt(s.now, r.user, c, t);
    hide DoFetch, FetchSafe, GetChatMessages, Run, Base, Delivered;
    SaidAt(s1, r, t);
    var s2 := Run(s1, ls);
    var m := MessageRow(r.user, c, t, "", None);
    assert m == s2.db.messages[|s.db.messages|];
    assert Localize(r.user, m).ts == t;
    assert r in s2.db.members && r.creation < m.ts < CopyOf(s2, sid, c).cursor;
  }

  /** The guard is exact: a fetch is safe if and only if no sequence of later handler calls and clock ticks makes the
      client miss a message that its user can see and that it had not skipped before. The condition can be checked
      before the call: the chat has messages for the client, or its cursor has not reached the stamp that the next
      message will get, or not passed the user's own join. */
  lemma FetchSafeExactly(s: Sys, sid: int, c: int)
    requires Base(s) && Delivered(s) && Holds(s, sid, c)
    requires GetChatMessages(s.db, s.sessions[sid].user, c, CopyOf(s, sid, c).cursor).Some?
    ensures FetchSafe(s, sid, c) <==>
      forall ls :: ServerOnly(ls) ==> HasAllBut(Run(DoFetch(s, sid, c), ls), sid, c, CopyOf(s, sid, c).skipped)
  {
    var s1, copy := DoFetch(s, sid, c), CopyOf(s, sid, c);
    if FetchSafe(s, sid, c) {
      BaseFetchShow(s, sid, c);
      DeliveredFetch(s, sid, c);
      SafeSkip(s, sid, c);
      hide DoFetch, FetchSafe, GetChatMessages, Run, Base, Delivered, HasAllBut, SkippedOnly;
      forall ls | ServerOnly(ls) ensures HasAllBut(Run(s1, ls), sid, c, copy.skipped) {
        SafeStays(s1, ls, sid, c, copy.skipped, copy.cursor);
        HasAllNow(Run(s1, ls), sid, c, copy.skipped, copy.cursor);
      }
    } else {
      var ls := LossFollows(s, sid, c);
    }
  }
}

// What the service guarantees, stated on runs: every finite sequence of steps from the empty database.
module Guarantees {
  import opened Common
  import opened Tables
  import opened Handlers
  import opened Window
  import opened Replica
  import opened TableInvariant
  import opened System
  import opened History
  import opened SessionInvariant
  import opened MessageLog
  import opened Delivery
  import opened DoubleCheck
  import opened HarmfulFetches
  import opened CopyHistory
  import opened AdminSafety
  import opened Convergence
  import opened Pending
  import opened SmallChats

  // ---- The READ_TIMEs of the run ----------------------------------------------------------------------------------

  lemma {:induction false} ShownInRun(t0: int, ls: seq<Label>, k: nat, c: int)
    requires 1 <= t0 && k <= |ls|
    ensures ReadTimeOf(Run(Init(t0), ls[..k]).db, c) == 0
         || (c, ReadTimeOf(Run(Init(t0), ls[..k]).db, c)) in Run(Init(t0), ls).shown
    decreases |ls|
  {
    if k == |ls| {
      assert ls[..k] == ls;
      ReadAlways(t0, ls);
    } else {
      var n := |ls| - 1;
      ShownInRun(t0, ls[..n], k, c);
      assert ls[..n][..k] == ls[..k];
      ShownGrows(Run(Init(t0), ls[..n]), ls[n]);
    }
  }

  lemma ShownGrows(s: Sys, l: Label)
    ensures s.shown <= Step(s, l).shown
  {
    hide Filter, PushAll, Round, GetNotifications;
    if l.Poll? && l.sid in s.sessions {
      SyncShown(Synced(s.db, s.shown), s.sessions[l.sid].user, s.sessions[l.sid].replica.chats, l.order);
    }
  }

  lemma {:induction false} SyncShown(y: Synced, u: int, chats: map<int, ChatCopy>, order: seq<int>)
    ensures y.shown <= SyncAll(y, u, chats, order).shown
  {
    if order != [] {
      SyncShown(y, u, chats, order[..|order| - 1]);
    }
  }

  // ---- The double check -------------------------------------------------------------------------------------------

  lemma ZeroInPast(db: Db, now: int, r: MemberRow, m: MessageRow)
    requires DbOk(db, now) && r in db.members && r.creation < m.ts
    ensures 0 < m.ts
  {
  }

  /** For every READ_TIME the chat has had at any point of the run: every message stamped below it has been delivered
      to every active member who joined before the message, or a client of the chat has stepped over its stamp with a
      fetch that is not harmless. Rejoining members, whose rows keep their old READ_MSG_TIME, are included. */
  lemma DoubleCheckSound(t0: int, ls: seq<Label>, k: nat, r: MemberRow, m: MessageRow)
    requires 1 <= t0 && k <= |ls|
    requires var s := Run(Init(t0), ls); r in s.db.members && r.rem == 0 && m in s.db.messages
    requires m.chat == r.chat && r.creation < m.ts < ReadTimeOf(Run(Init(t0), ls[..k]).db, r.chat)
    ensures WasDelivered(t0, ls, r.user, r.chat, m.ts) || Harmed(t0, ls, r.chat, m.ts)
  {
    var s, v := Run(Init(t0), ls), ReadTimeOf(Run(Init(t0), ls[..k]).db, r.chat);
    ShownInRun(t0, ls, k, r.chat);
    BaseAlways(t0, ls);
    hide Run, ReadTimeOf, WasDelivered, Harmed;
    ZeroInPast(s.db, s.now, r, m);
    ShownIsDelivered(t0, ls, v, r, m);
  }

  /** The same for the stamp that a client shows ticks by, however old the client's copy of it is. */
  lemma ClientTickSound(t0: int, ls: seq<Label>, sid: int, r: MemberRow, m: MessageRow)
    requires 1 <= t0
    requires var s := Run(Init(t0), ls);
      && Holds(s, sid, r.chat) && r in s.db.members && r.rem == 0 && m in s.db.messages
      && m.chat == r.chat && r.creation < m.ts < CopyOf(s, sid, r.chat).allReadTs
    ensures WasDelivered(t0, ls, r.user, r.chat, m.ts) || Harmed(t0, ls, r.chat, m.ts)
  {
    var s := Run(Init(t0), ls);
    BaseAlways(t0, ls);
    ReadAlways(t0, ls);
    hide Run, WasDelivered, Harmed, RowsCovered, ShownCovered;
    ZeroInPast(s.db, s.now, r, m);
    assert CopyCovered(s, s.sessions[sid].user, r.chat, CopyOf(s, sid, r.chat));
    ShownIsDelivered(t0, ls, CopyOf(s, sid, r.chat).allReadTs, r, m);
  }

  /** One member: every message below his READ_MSG_TIME that he can see has been delivered to him, or his own client has
      stepped over its stamp with a fetch that is not harmless. So a tick at READ_TIME itself is right once all members
      have read beyond it. */
  lemma MemberReadSound(t0: int, ls: seq<Label>, r: MemberRow, m: MessageRow)
    requires 1 <= t0
    requires var s := Run(Init(t0), ls); r in s.db.members && m in s.db.messages
    requires m.chat == r.chat && r.creation < m.ts < r.read
    ensures WasDelivered(t0, ls, r.user, r.chat, m.ts) || HarmedBy(t0, ls, r.user, r.chat, m.ts)
  {
    var s := Run(Init(t0), ls);
    ReadAlways(t0, ls);
    hide Run, WasDelivered, HarmedBy, ValueCovered, CopiesCovered, NextStamp;
    assert Covered(s.db, s.now, s.ever, s.missed, r, r.read);
    if (r.user, r.chat, m.ts) in s.ever {
      DeliveredInRun(t0, ls, r.user, r.chat, m.ts);
    } else {
      MissIsHarm(t0, ls, r.user, r.chat, m.ts);
    }
  }

  /** While every fetch of the chat is harmless, every READ_TIME is right. */
  lemma DoubleCheckOfSafeFetches(t0: int, ls: seq<Label>, k: nat, r: MemberRow, m: MessageRow)
    requires 1 <= t0 && k <= |ls| && SafeFetches(Init(t0), ls, r.chat)
    requires var s := Run(Init(t0), ls); r in s.db.members && r.rem == 0 && m in s.db.messages
    requires m.chat == r.chat && r.creation < m.ts < ReadTimeOf(Run(Init(t0), ls[..k]).db, r.chat)
    ensures WasDelivered(t0, ls, r.user, r.chat, m.ts)
  {
    SafeIsHarmless(t0, ls, r.chat, m.ts);
    hide *;
    DoubleCheckSound(t0, ls, k, r, m);
  }

  // ---- Delivery ---------------------------------------------------------------------------------------------------

  /** In every run, what a client was handed for a chat is in stamp order without repetition, comes from the chat's
      messages, and lies below the cursor; the window is the last MAX_MESSAGES of it. */
  lemma ExactlyOnceInOrder(t0: int, ls: seq<Label>, sid: int, c: int)
    requires 1 <= t0 && Holds(Run(Init(t0), ls), sid, c)
    ensures var s := Run(Init(t0), ls);
      && LogOk(s.db, s.sessions[sid].user, c, CopyOf(s, sid, c))
      && forall e :: e in CopyOf(s, sid, c).log ==> WasDelivered(t0, ls, s.sessions[sid].user, c, e.ts)
  {
    DeliveredAlways(t0, ls);
    var s := Run(Init(t0), ls);
    assert CopyDelivered(s, s.sessions[sid].user, c, CopyOf(s, sid, c));
    forall e | e in CopyOf(s, sid, c).log ensures WasDelivered(t0, ls, s.sessions[sid].user, c, e.ts) {
      DeliveredInRun(t0, ls, s.sessions[sid].user, c, e.ts);
    }
  }

  lemma CopyInRun(t0: int, ls: seq<Label>, sid: int, r: MemberRow)
    requires 1 <= t0
    requires var s := Run(Init(t0), ls);
      Holds(s, sid, r.chat) && r in s.db.members && r.user == s.sessions[sid].user
    ensures var s := Run(Init(t0), ls); var copy := CopyOf(s, sid, r.chat);
      LogOk(s.db, r.user, r.chat, copy) && SkipsOk(s.db, s.now, r.chat, copy) && RowDelivered(s.db, r, copy)
  {
    DeliveredAlways(t0, ls);
    var s := Run(Init(t0), ls);
    hide Run, LogOk, SkipsOk, RowDelivered, UnreadOk;
    assert CopyDelivered(s, r.user, r.chat, CopyOf(s, sid, r.chat));
  }

  lemma WindowIsLogTail(db: Db, r: MemberRow, copy: ChatCopy)
    requires LogOk(db, r.user, r.chat, copy) && RowDelivered(db, r, copy) && r.creation == copy.join
    ensures var stored := Range(db.messages, r.chat, r.creation + 1, copy.cursor, copy.skipped);
      ShowsAll(copy.box.items, r.user, TakeLast(MAX_MESSAGES, stored))
  {
    var stored := Range(db.messages, r.chat, r.creation + 1, copy.cursor, copy.skipped);
    ShowsTail(MAX_MESSAGES, r.user, stored);
    hide Range, NoGap, ShowsAll, TakeLast, LocalizeAll, Rising, Shows;
  }

  lemma ShowsTail(n: nat, u: int, rows: seq<MessageRow>)
    ensures ShowsAll(TakeLast(n, LocalizeAll(u, rows)), u, TakeLast(n, rows))
  {
    hide Shows, Localize, LocalizeAll;
  }

  /** Of the messages below the cursor that a member can see, exactly those were not handed to the client whose stamps
      its own session has stepped over; and that it does with harmful fetches only. */
  lemma GapFree(t0: int, ls: seq<Label>, sid: int, r: MemberRow, m: MessageRow)
    requires 1 <= t0
    requires var s := Run(Init(t0), ls);
      && Holds(s, sid, r.chat) && r in s.db.members && r.user == s.sessions[sid].user
      && m in s.db.messages && m.chat == r.chat && r.creation < m.ts < CopyOf(s, sid, r.chat).cursor
    ensures Localize(r.user, m) in CopyOf(Run(Init(t0), ls), sid, r.chat).log <==>
      !WasSkipped(t0, ls, sid, r.chat, m.ts)
    ensures WasSkipped(t0, ls, sid, r.chat, m.ts) <==> HarmedIn(t0, ls, sid, r.chat, m.ts)
  {
    hide Run, LogOk, WasSkipped, HarmedIn, CacheOk;
    CopyInRun(t0, ls, sid, r);
    SkippedExactly(t0, ls, sid, r.chat, m.ts);
    SkipIsHarm(t0, ls, sid, r, m);
    assert Localize(r.user, m).ts == m.ts;
  }

  /** While the member has not rejoined since the copy was made, the stored messages are the last MAX_MESSAGES entries
      of the server log between the join and the cursor, without the stamps that the session has stepped over. */
  lemma CacheAgreesWithLog(t0: int, ls: seq<Label>, sid: int, r: MemberRow)
    requires 1 <= t0
    requires var s := Run(Init(t0), ls);
      && Holds(s, sid, r.chat) && r in s.db.members && r.user == s.sessions[sid].user
      && r.creation == CopyOf(s, sid, r.chat).join
    ensures var s := Run(Init(t0), ls); var copy := CopyOf(s, sid, r.chat);
      && ShowsAll(copy.box.items, r.user,
           TakeLast(MAX_MESSAGES, Range(s.db.messages, r.chat, r.creation + 1, copy.cursor, copy.skipped)))
      && forall t :: t in copy.skipped <==> WasSkipped(t0, ls, sid, r.chat, t)
  {
    hide Run, LogOk, WasSkipped, RowDelivered, SkipsOk, TakeLast, LocalizeAll, Range;
    CopyInRun(t0, ls, sid, r);
    var s := Run(Init(t0), ls);
    WindowIsLogTail(s.db, r, CopyOf(s, sid, r.chat));
    forall t ensures t in CopyOf(s, sid, r.chat).skipped <==> WasSkipped(t0, ls, sid, r.chat, t) {
      SkippedExactly(t0, ls, sid, r.chat, t);
    }
  }

  /** The failure branch of _recv_messages is unreachable: in every run an accepted reply is stored whole. */
  lemma ReceiveNeverFails(t0: int, ls: seq<Label>, sid: int, c: int)
    requires 1 <= t0 && Holds(Run(Init(t0), ls), sid, c)
    ensures var s := Run(Init(t0), ls); var copy := CopyOf(s, sid, c);
      var o := GetChatMessages(s.db, s.sessions[sid].user, c, copy.cursor);
      o.Some? ==> AddMessages(copy.box, MAX_MESSAGES, copy.readTs, LocalizeAll(s.sessions[sid].user, o.value.rows)).ok
  {
    BaseAlways(t0, ls);
    DeliveredAlways(t0, ls);
    var s := Run(Init(t0), ls);
    var u, copy := s.sessions[sid].user, CopyOf(s, sid, c);
    assert CopyDelivered(s, u, c, copy);
    if GetChatMessages(s.db, u, c, copy.cursor).Some? {
      var r, list := FetchReply(s, sid, c);
      ReplyAscending(s.db, s.now, r, copy.cursor, list);
      ReceiveExact(copy, u, list);
    }
  }

  lemma UnreadInWindow(log: seq<Stored>, seen: nat, readTs: int)
    requires seen <= |log| && |log| - seen <= MAX_MESSAGES
    requires forall i :: 0 <= i < seen ==> log[i].ts <= readTs
    ensures CountAbove(TakeLast(MAX_MESSAGES, log), readTs) == CountAbove(log[seen..], readTs)
  {
    var k := |log| - |TakeLast(MAX_MESSAGES, log)|;
    assert TakeLast(MAX_MESSAGES, log) == log[k..seen] + log[seen..];
    CountAboveZero(log[k..seen], readTs);
    CountAboveConcat(log[k..seen], log[seen..], readTs);
  }

  /** The unread counter counts what the steps have put in the window since the last display of the chat, or since the
      client came to hold it, above the read stamp; and while at most MAX_MESSAGES arrived since then, it counts exactly
      the stored messages above the read stamp. */
  lemma UnreadConservation(t0: int, ls: seq<Label>, sid: int, c: int) returns (k: nat)
    requires 1 <= t0 && Holds(Run(Init(t0), ls), sid, c)
    ensures CountsFrom(t0, ls, k, sid, c) && Holds(Run(Init(t0), ls[..k + 1]), sid, c)
    ensures var copy, before := CopyOf(Run(Init(t0), ls), sid, c), CopyOf(Run(Init(t0), ls[..k + 1]), sid, c);
      && copy.box.unread == CountAbove(PutSince(t0, ls, k, sid, c), copy.readTs)
      && (|copy.log| - |before.log| <= MAX_MESSAGES ==> copy.box.unread == CountAbove(copy.box.items, copy.readTs))
  {
    DeliveredAlways(t0, ls);
    var s := Run(Init(t0), ls);
    var copy := CopyOf(s, sid, c);
    assert CopyDelivered(s, s.sessions[sid].user, c, copy);
    k := UnreadExactly(t0, ls, sid, c);
    if |copy.log| - copy.seen <= MAX_MESSAGES {
      UnreadInWindow(copy.log, copy.seen, copy.readTs);
    }
  }

  // ---- Chats, members and admins ----------------------------------------------------------------------------------

  /** In every run there is one row per (user, chat), and a chat whose admins did not unregister is VALID exactly while
      it has an active member, with an active admin who was a member when he was appointed. */
  lemma AdminIsActiveMember(t0: int, ls: seq<Label>, c: int)
    requires 1 <= t0
    ensures RowsUnique(Run(Init(t0), ls).db)
    ensures NeverOrphaned(t0, ls, c) && c in Run(Init(t0), ls).db.chats ==>
      AdminSafe(Run(Init(t0), ls).db, c) && AdminSince(Run(Init(t0), ls).db, c)
  {
    BaseAlways(t0, ls);
    AdminAlways(t0, ls);
    OrphanInRun(t0, ls, c);
  }

  /** In every run a client's copy agrees with every membership row that last changed before the client's last poll: it
      lists exactly the active members but those that the list had no room for when a poll told of them last. And it
      names the admin of a valid chat if he was appointed before the poll, unless he is such a member. */
  lemma MembersConverge(t0: int, ls: seq<Label>, sid: int, c: int, r: MemberRow)
    requires 1 <= t0 && Holds(Run(Init(t0), ls), sid, c)
    ensures var s := Run(Init(t0), ls); var copy, t := CopyOf(s, sid, c), s.sessions[sid].replica.lastNotif;
      && (r in s.db.members && r.chat == c && LastChange(r) < t ==>
            (r.user in copy.members <==> r.rem == 0 && !StillRefused(t0, ls, sid, c, r.user)))
      && (NeverOrphaned(t0, ls, c) && ChatExist(s.db, c) && s.db.chats[c].adminTime < t ==>
            copy.admin == s.db.chats[c].admin || StillRefused(t0, ls, sid, c, s.db.chats[c].admin))
  {
    ConvergedAlways(t0, ls);
    OrphanInRun(t0, ls, c);
    var s := Run(Init(t0), ls);
    var copy := CopyOf(s, sid, c);
    assert CopyConverged(s, c, copy, s.sessions[sid].replica.lastNotif);
    RefusedExactly(t0, ls, sid, c, r.user);
    if c in s.db.chats {
      RefusedExactly(t0, ls, sid, c, s.db.chats[c].admin);
    }
    hide StillRefused, Run, Step;
  }

  /** Nobody is refused in a chat that never had more than MAX_MEMBERS different members. */
  lemma RoomForAll(t0: int, ls: seq<Label>, sid: int, c: int, x: int)
    requires 1 <= t0 && Holds(Run(Init(t0), ls), sid, c)
    requires |EverMembers(Run(Init(t0), ls).db, c)| <= MAX_MEMBERS
    ensures !StillRefused(t0, ls, sid, c, x)
  {
    RoomyAlways(t0, ls);
    RefusedExactly(t0, ls, sid, c, x);
    hide StillRefused, Run;
  }

  // ---- Pending messages -------------------------------------------------------------------------------------------

  /** In every run, in every chat that a client holds, a visible message that was not fetched and is older than the last
      poll is flagged, if the polls have reported it: if the client has fetched the chat once, or found it at the first
      poll after its user joined, or the message is newer than the poll or login by which the client found the chat. */
  lemma PendingComplete(t0: int, ls: seq<Label>, sid: int, r: MemberRow, m: MessageRow)
    requires 1 <= t0
    requires var s := Run(Init(t0), ls);
      && Holds(s, sid, r.chat) && Reported(CopyOf(s, sid, r.chat), m.ts)
      && r in s.db.members && r.user == s.sessions[sid].user && r.rem == 0
      && m in s.db.messages && m.chat == r.chat && r.creation < m.ts
      && CopyOf(s, sid, r.chat).cursor <= m.ts < s.sessions[sid].replica.lastNotif
    ensures CopyOf(Run(Init(t0), ls), sid, r.chat).pending > 0
  {
    PendingAlways(t0, ls);
    var s := Run(Init(t0), ls);
    assert Flagged(s.db, r.user, r.chat, CopyOf(s, sid, r.chat), s.sessions[sid].replica.lastNotif);
  }

  ghost function FetchIfPending(s: Sys, sid: int, c: int): Sys {
    if Holds(s, sid, c) && CopyOf(s, sid, c).pending > 0 then DoFetch(s, sid, c) else s
  }

  /** psd_recv_all_pending_messages over the chats in any order: a chat is fetched while it is flagged. */
  ghost function FetchPending(s: Sys, sid: int, todo: seq<int>): Sys {
    if todo == [] then s
    else
      FetchIfPending(FetchPending(s, sid, todo[..|todo| - 1]), sid, todo[|todo| - 1])
  }

  /** Everything that the user can see in the chat is in the log, but for messages with the given stamps. */
  ghost predicate AllDelivered(s: Sys, sid: int, c: int, but: set<int>)
    requires Holds(s, sid, c)
  {
    forall r, m :: (
      && r in s.db.members && r.user == s.sessions[sid].user && r.chat == c && r.rem == 0
      && m in s.db.messages && m.chat == c && r.creation < m.ts && m.ts !in but)
      ==> Has(CopyOf(s, sid, c).log, r.user, m)
  }

  /** A chat that the pass has fetched is done; one that it has not is as the poll left it, and if the pass came to
      it, it was not flagged. */
  ghost predicate Drained(s: Sys, s': Sys, sid: int, c: int, came: bool) {
    && Base(s') && Delivered(s') && s'.db == s.db && s'.now == s.now
    && Holds(s, sid, c) && Holds(s', sid, c) && s'.sessions[sid].user == s.sessions[sid].user
    && CopyOf(s, sid, c).skipped <= CopyOf(s', sid, c).skipped
    && (AllDelivered(s', sid, c, CopyOf(s, sid, c).skipped)
        || (CopyOf(s', sid, c) == CopyOf(s, sid, c) && (came ==> CopyOf(s, sid, c).pending <= 0)))
  }

  lemma {:induction false} FetchPendingExact(s: Sys, sid: int, todo: seq<int>, c: int)
    requires Base(s) && Delivered(s) && Holds(s, sid, c) && UserValid(s.db, s.sessions[sid].user)
    ensures Drained(s, FetchPending(s, sid, todo), sid, c, c in todo)
  {
    if todo != [] {
      hide Base, Delivered, UserValid, Drained, FetchIfPending;
      var front, d := todo[..|todo| - 1], todo[|todo| - 1];
      assert todo == front + [d];
      FetchPendingExact(s, sid, front, c);
      DrainOne(s, FetchPending(s, sid, front), sid, d, c, c in front);
    }
  }

  lemma DrainOne(s: Sys, p: Sys, sid: int, d: int, c: int, came: bool)
    requires Drained(s, p, sid, c, came) && UserValid(s.db, s.sessions[sid].user)
    ensures Drained(s, FetchIfPending(p, sid, d), sid, c, came || d == c)
  {
    var u, copy, but := p.sessions[sid].user, CopyOf(p, sid, c), CopyOf(s, sid, c).skipped;
    FetchOthers(p, sid, d);
    LogGrows(p, sid, c);
    BaseFetchShow(p, sid, d);
    DeliveredFetch(p, sid, d);
    hide DoFetch, GetChatMessages, Base, Delivered, UserValid, AllDelivered;
    if AllDelivered(p, sid, c, but) {
      MoreDelivered(p, FetchIfPending(p, sid, d), sid, c, but);
    } else if d == c && copy.pending > 0 {
      if GetChatMessages(p.db, u, c, copy.cursor).None? {
        NobodyActive(p, sid, c, but);
        FetchRefused(p, sid, c);
      } else {
        FetchedAll(p, sid, c, but);
      }
    }
  }

  lemma MoreDelivered(p: Sys, p': Sys, sid: int, c: int, but: set<int>)
    requires Holds(p, sid, c) && Holds(p', sid, c) && p'.db == p.db && p'.sessions[sid].user == p.sessions[sid].user
    requires AllDelivered(p, sid, c, but) && forall e :: e in CopyOf(p, sid, c).log ==> e in CopyOf(p', sid, c).log
    ensures AllDelivered(p', sid, c, but)
  {
    hide Localize;
  }

  lemma FetchedAll(p: Sys, sid: int, c: int, but: set<int>)
    requires Base(p) && Delivered(p) && Holds(p, sid, c) && CopyOf(p, sid, c).skipped <= but
    requires GetChatMessages(p.db, p.sessions[sid].user, c, CopyOf(p, sid, c).cursor).Some?
    ensures Holds(DoFetch(p, sid, c), sid, c) && AllDelivered(DoFetch(p, sid, c), sid, c, but)
  {
    FetchOthers(p, sid, c);
    hide DoFetch, GetChatMessages, Base, Delivered, Localize;
    var r := FetchDrains(p, sid, c);
    OnlyRow(p, r);
  }

  lemma OnlyRow(s: Sys, r: MemberRow)
    requires Base(s) && r in s.db.members
    ensures forall q :: q in s.db.members && q.user == r.user && q.chat == r.chat ==> q == r
  {
    forall q | q in s.db.members && q.user == r.user && q.chat == r.chat ensures q == r {
      OneRow(s.db, r, q);
    }
  }

  /** An active member's fetch is accepted, so there is nothing to deliver in a chat that refuses it. */
  lemma NobodyActive(p: Sys, sid: int, c: int, but: set<int>)
    requires Base(p) && Holds(p, sid, c) && UserValid(p.db, p.sessions[sid].user)
    requires GetChatMessages(p.db, p.sessions[sid].user, c, CopyOf(p, sid, c).cursor).None?
    ensures AllDelivered(p, sid, c, but)
  {
  }

  /** Nor is there anything that was reported, in a chat that is not flagged though what was reported would be. */
  lemma NothingFlagged(p: Sys, sid: int, r: MemberRow, m: MessageRow)
    requires Base(p) && Delivered(p) && Holds(p, sid, r.chat) && CopyOf(p, sid, r.chat).pending <= 0
    requires Flagged(p.db, p.sessions[sid].user, r.chat, CopyOf(p, sid, r.chat), p.now + 1)
    requires r in p.db.members && r.user == p.sessions[sid].user && r.rem == 0
    requires m in p.db.messages && m.chat == r.chat && r.creation < m.ts
    requires Reported(CopyOf(p, sid, r.chat), m.ts) && m.ts !in CopyOf(p, sid, r.chat).skipped
    ensures Has(CopyOf(p, sid, r.chat).log, r.user, m)
  {
    assert CopyDelivered(p, p.sessions[sid].user, r.chat, CopyOf(p, sid, r.chat));
    MessagesPositive(p.db, p.now);
    hide Delivered, LogOk, UnreadOk, SkipsOk, CacheOk, Localize, Reported;
  }

  lemma LogGrows(s: Sys, sid: int, c: int)
    requires Holds(s, sid, c)
    ensures Holds(DoFetch(s, sid, c), sid, c)
    ensures forall e :: e in CopyOf(s, sid, c).log ==> e in CopyOf(DoFetch(s, sid, c), sid, c).log
    ensures CopyOf(s, sid, c).skipped <= CopyOf(DoFetch(s, sid, c), sid, c).skipped
  {
    hide AddMessages, LocalizeAll, GetChatMessages, Skips;
  }

  /** In every chat that it holds, the client has exactly those of the messages that its user can see whose stamps its
      session has not stepped over; only of a chat that it has never fetched, and that its user joined before the poll
      before it was found, it has none that are as old as that finding. */
  ghost predicate CaughtUp(t0: int, ls: seq<Label>, sid: int) {
    var s := Run(Init(t0), ls);
    forall r, m :: (
      && r in s.db.members && r.rem == 0 && Holds(s, sid, r.chat) && r.user == s.sessions[sid].user
      && m in s.db.messages && m.chat == r.chat && r.creation < m.ts)
      ==> (Has(CopyOf(s, sid, r.chat).log, r.user, m) <==>
             Reported(CopyOf(s, sid, r.chat), m.ts) && !WasSkipped(t0, ls, sid, r.chat, m.ts))
  }

  /** The fetches of the pass over the chats. */
  ghost function PendingLabels(s: Sys, sid: int, todo: seq<int>): seq<Label> {
    if todo == [] then []
    else
      var front := todo[..|todo| - 1];
      var s1 := FetchPending(s, sid, front);
      var c := todo[|todo| - 1];
      PendingLabels(s, sid, front) + if Holds(s1, sid, c) && CopyOf(s1, sid, c).pending > 0 then [Fetch(sid, c)] else []
  }

  lemma {:induction false} PendingRun(s: Sys, sid: int, todo: seq<int>)
    ensures Run(s, PendingLabels(s, sid, todo)) == FetchPending(s, sid, todo)
  {
    if todo != [] {
      var front, c := todo[..|todo| - 1], todo[|todo| - 1];
      hide DoFetch, Step, Run;
      PendingRun(s, sid, front);
      OneMore(s, sid, PendingLabels(s, sid, front), FetchPending(s, sid, front), c);
    }
  }

  lemma OneMore(s: Sys, sid: int, ls: seq<Label>, p: Sys, c: int)
    requires Run(s, ls) == p
    ensures Run(s, ls + if Holds(p, sid, c) && CopyOf(p, sid, c).pending > 0 then [Fetch(sid, c)] else [])
         == FetchIfPending(p, sid, c)
  {
    assert Step(p, Fetch(sid, c)) == DoFetch(p, sid, c);
    hide DoFetch, Step, Run;
    RunLast(s, ls, Fetch(sid, c));
    assert ls + [] == ls;
  }

  /** One turn of the update loop: a poll, and one pass over the chats in which each one is fetched if it is flagged. */
  ghost function TurnLabels(s: Sys, sid: int, order: seq<int>, todo: seq<int>): seq<Label> {
    [Poll(sid, order)] + PendingLabels(DoPoll(s, sid, order), sid, todo)
  }

  lemma TurnRun(s: Sys, sid: int, order: seq<int>, todo: seq<int>)
    ensures Run(s, TurnLabels(s, sid, order, todo)) == FetchPending(DoPoll(s, sid, order), sid, todo)
  {
    hide Run, Step, DoPoll, FetchPending, PendingLabels;
    RunOne(s, Poll(sid, order));
    StepPoll(s, sid, order);
    PendingRun(DoPoll(s, sid, order), sid, todo);
    RunConcat(s, [Poll(sid, order)], PendingLabels(DoPoll(s, sid, order), sid, todo));
  }

  /** From any reachable state: one poll and one pass over all chats of the client, in any order and with nothing sent
      in between, and the client has caught up. */
  lemma PollThenFetchDelivers(t0: int, ls: seq<Label>, sid: int, order: seq<int>, todo: seq<int>)
    requires 1 <= t0 && PollAccepted(Run(Init(t0), ls), sid, order)
    requires forall c :: Holds(DoPoll(Run(Init(t0), ls), sid, order), sid, c) ==> c in todo
    ensures CaughtUp(t0, ls + TurnLabels(Run(Init(t0), ls), sid, order, todo), sid)
  {
    var s := Run(Init(t0), ls);
    TurnRun(s, sid, order, todo);
    hide Run, DoPoll, FetchPending, TurnLabels, PollAccepted, CaughtUp;
    RunConcat(Init(t0), ls, TurnLabels(s, sid, order, todo));
    CatchesUp(t0, ls, sid, order, todo, ls + TurnLabels(s, sid, order, todo));
  }

  lemma CatchesUp(t0: int, ls: seq<Label>, sid: int, order: seq<int>, todo: seq<int>, all: seq<Label>)
    requires 1 <= t0 && PollAccepted(Run(Init(t0), ls), sid, order)
    requires Run(Init(t0), all) == FetchPending(DoPoll(Run(Init(t0), ls), sid, order), sid, todo)
    requires forall c :: Holds(DoPoll(Run(Init(t0), ls), sid, order), sid, c) ==> c in todo
    ensures CaughtUp(t0, all, sid)
  {
    var s1, s2 := DoPoll(Run(Init(t0), ls), sid, order), Run(Init(t0), all);
    PolledState(t0, ls, sid, order);
    hide Run, DoPoll, FetchPending, Delivered, Base, WasSkipped, Localize, PollAccepted, Reported;
    forall r, m | r in s2.db.members && r.rem == 0 && Holds(s2, sid, r.chat) && r.user == s2.sessions[sid].user
      && m in s2.db.messages && m.chat == r.chat && r.creation < m.ts
      ensures Has(CopyOf(s2, sid, r.chat).log, r.user, m) <==>
        Reported(CopyOf(s2, sid, r.chat), m.ts) && !WasSkipped(t0, all, sid, r.chat, m.ts)
    {
      PendingHolds(s1, sid, todo, r.chat);
      DeliversIn(s1, sid, todo, r, m);
      SkippedExactly(t0, all, sid, r.chat, m.ts);
    }
  }

  lemma {:induction false} PendingHolds(s: Sys, sid: int, todo: seq<int>, c: int)
    ensures Holds(FetchPending(s, sid, todo), sid, c) <==> Holds(s, sid, c)
  {
    if todo != [] {
      hide DoFetch;
      var n := |todo| - 1;
      PendingHolds(s, sid, todo[..n], c);
      FetchOthers(FetchPending(s, sid, todo[..n]), sid, todo[n]);
    }
  }

  /** A state that a poll can leave behind. */
  ghost predicate Polled(s: Sys, sid: int) {
    && Base(s) && Delivered(s) && sid in s.sessions && UserValid(s.db, s.sessions[sid].user)
    && forall c :: Holds(s, sid, c) ==> Flagged(s.db, s.sessions[sid].user, c, CopyOf(s, sid, c), s.now + 1)
  }

  lemma PolledState(t0: int, ls: seq<Label>, sid: int, order: seq<int>)
    requires 1 <= t0 && PollAccepted(Run(Init(t0), ls), sid, order)
    ensures Polled(DoPoll(Run(Init(t0), ls), sid, order), sid)
  {
    var s := Run(Init(t0), ls);
    var s1 := DoPoll(s, sid, order);
    BaseAlways(t0, ls);
    DeliveredAlways(t0, ls);
    PendingAlways(t0, ls);
    BasePollStep(s, sid, order);
    DeliveredPollStep(s, sid, order);
    PollExact(s, sid, order);
    assert UserValid(s1.db, s.sessions[sid].user) && s1.sessions[sid].user == s.sessions[sid].user && s1.now == s.now;
    hide DoPoll, Run, Delivered, Base, Flagged, PendingOk, PollAccepted;
    forall c | Holds(s1, sid, c)
      ensures Flagged(s1.db, s1.sessions[sid].user, c, CopyOf(s1, sid, c), s1.now + 1)
    {
      PolledFlagged(s, sid, order, c);
    }
  }

  lemma DeliversIn(s: Sys, sid: int, todo: seq<int>, r: MemberRow, m: MessageRow)
    requires Polled(s, sid) && Holds(s, sid, r.chat) && r.chat in todo
    requires var s' := FetchPending(s, sid, todo);
      && sid in s'.sessions && r in s'.db.members && r.rem == 0 && r.user == s'.sessions[sid].user
      && m in s'.db.messages && m.chat == r.chat && r.creation < m.ts
    ensures var s' := FetchPending(s, sid, todo);
      && Holds(s', sid, r.chat)
      && (Has(CopyOf(s', sid, r.chat).log, r.user, m) <==>
           Reported(CopyOf(s', sid, r.chat), m.ts) && m.ts !in CopyOf(s', sid, r.chat).skipped)
  {
    var c, s' := r.chat, FetchPending(s, sid, todo);
    FetchPendingExact(s, sid, todo, c);
    hide FetchPending, Base, Delivered, Flagged, UserValid, Localize;
    HeldIsReported(s', sid, r, m);
    var copy' := CopyOf(s', sid, c);
    if !AllDelivered(s', sid, c, CopyOf(s, sid, c).skipped) && Reported(copy', m.ts) && m.ts !in copy'.skipped {
      NothingFlagged(s', sid, r, m);
    }
  }

  /** What a client has, it was told of, and it has not stepped over it. */
  lemma HeldIsReported(s: Sys, sid: int, r: MemberRow, m: MessageRow)
    requires Base(s) && Delivered(s) && Holds(s, sid, r.chat) && m in s.db.messages
    ensures Has(CopyOf(s, sid, r.chat).log, r.user, m) ==>
      Reported(CopyOf(s, sid, r.chat), m.ts) && m.ts !in CopyOf(s, sid, r.chat).skipped
  {
    assert CopyDelivered(s, s.sessions[sid].user, r.chat, CopyOf(s, sid, r.chat));
    MessagesPositive(s.db, s.now);
    assert Localize(r.user, m).ts == m.ts;
    hide Base, Delivered, UnreadOk, RowDelivered;
  }

  // ---- Read stamps ------------------------------------------------------------------------------------------------

  /** READ_MSG_TIME never decreases: every row of the table keeps its place, its user and its chat, and only gains. */
  lemma {:induction false} ReadNeverDecreases(t0: int, ls: seq<Label>, k: nat, i: nat)
    requires 1 <= t0 && k <= |ls| && i < |Run(Init(t0), ls[..k]).db.members|
    ensures i < |Run(Init(t0), ls).db.members|
    ensures var r, r' := Run(Init(t0), ls[..k]).db.members[i], Run(Init(t0), ls).db.members[i];
      r'.user == r.user && r'.chat == r.chat && r.read <= r'.read
    decreases |ls|
  {
    if k == |ls| {
      assert ls[..k] == ls;
    } else {
      var n := |ls| - 1;
      assert ls[..n][..k] == ls[..k];
      ReadNeverDecreases(t0, ls[..n], k, i);
      BaseAlways(t0, ls[..n]);
      RowsAdvance(Run(Init(t0), ls[..n]), ls[n]);
    }
  }

  lemma RowsAdvance(s: Sys, l: Label)
    requires Base(s)
    ensures |s.db.members| <= |Step(s, l).db.members|
    ensures forall i :: 0 <= i < |s.db.members| ==>
      var r, r' := s.db.members[i], Step(s, l).db.members[i];
      r'.user == r.user && r'.chat == r.chat && r.read <= r'.read
  {
    hide DoPoll, DoCreate, DoLeave, DoSay;
    if IsServerLabel(l) {
      ServerMoves(s, l);
    } else if l.Poll? {
      if PollAccepted(s, l.sid, l.order) {
        PollExact(s, l.sid, l.order);
      } else {
        PollRefused(s, l.sid, l.order);
      }
    }
  }
}

// Reading the history variables of the state machine off the run that led there.
module History {
  import opened Common
  import opened Tables
  import opened Handlers
  import opened Window
  import opened Replica
  import opened TableInvariant
  import opened RoundLemmas
  import opened System
  import opened SessionInvariant

  /** The reply that the k-th step of the run hands to a client, if that step is an accepted fetch. */
  ghost predicate FetchedAt(t0: int, ls: seq<Label>, k: nat) {
    && k < |ls| && ls[k].Fetch?
    && var s := Run(Init(t0), ls[..k]);
    && Holds(s, ls[k].sid, ls[k].chat)
    && GetChatMessages(s.db, s.sessions[ls[k].sid].user, ls[k].chat, CopyOf(s, ls[k].sid, ls[k].chat).cursor).Some?
  }

  /** That reply is for the user and the chat and has a message of the stamp. */
  ghost predicate DeliveredAt(t0: int, ls: seq<Label>, k: nat, u: int, c: int, ts: int) {
    && FetchedAt(t0, ls, k) && ls[k].chat == c
    && var s := Run(Init(t0), ls[..k]);
    && s.sessions[ls[k].sid].user == u
    && exists m :: m in SelectMessages(s.db, u, c, CopyOf(s, ls[k].sid, c).cursor) && m.ts == ts
  }

  /** Some fetch of the run handed the message of this chat and stamp to a client of the user. */
  ghost predicate WasDelivered(t0: int, ls: seq<Label>, u: int, c: int, ts: int) {
    exists k: nat :: DeliveredAt(t0, ls, k, u, c, ts)
  }

  /** The k-th step is an accepted fetch of the chat that asks with this cursor and gets nothing. */
  ghost predicate EmptyAt(t0: int, ls: seq<Label>, k: nat, c: int, ts: int) {
    && FetchedAt(t0, ls, k) && ls[k].chat == c
    && BringsNothing(Run(Init(t0), ls[..k]), ls[k].sid, c, ts)
  }

  ghost predicate BringsNothing(s: Sys, sid: int, c: int, ts: int)
    requires Holds(s, sid, c)
  {
    CopyOf(s, sid, c).cursor == ts && SelectMessages(s.db, s.sessions[sid].user, c, ts) == []
  }

  /** Some client of the user stepped over the stamp: it asked with it as its cursor, and got nothing. */
  ghost predicate WasMissed(t0: int, ls: seq<Label>, u: int, c: int, ts: int) {
    exists k: nat :: EmptyAt(t0, ls, k, c, ts) && Run(Init(t0), ls[..k]).sessions[ls[k].sid].user == u
  }

  /** A logout, or a login that replaces the session. */
  ghost predicate Ends(s: Sys, l: Label, sid: int) {
    l == Logout(sid) || (l.Login? && l.sid == sid && UserValid(s.db, l.user))
  }

  ghost predicate SameSession(t0: int, ls: seq<Label>, k: nat, sid: int) {
    forall j: nat | k < j < |ls| :: !Ends(Run(Init(t0), ls[..j]), ls[j], sid)
  }

  /** The session that the client is in stepped over the stamp. */
  ghost predicate WasSkipped(t0: int, ls: seq<Label>, sid: int, c: int, ts: int) {
    exists k: nat :: EmptyAt(t0, ls, k, c, ts) && ls[k].sid == sid && SameSession(t0, ls, k, sid)
  }

  /** No admin of the chat ever unregistered while it was valid. */
  ghost predicate NeverOrphaned(t0: int, ls: seq<Label>, c: int) {
    forall k: nat | k < |ls| && ls[k].Leave? ::
      var s := Run(Init(t0), ls[..k]);
      !(UserValid(s.db, ls[k].user) && ChatExist(s.db, c) && IsAdmin(s.db, ls[k].user, c))
  }

  lemma {:induction false} DeliveredInRun(t0: int, ls: seq<Label>, u: int, c: int, ts: int)
    requires (u, c, ts) in Run(Init(t0), ls).ever
    ensures WasDelivered(t0, ls, u, c, ts)
  {
    hide GetChatMessages, SelectMessages;
    if ls != [] {
      var n := |ls| - 1;
      var s, l := Run(Init(t0), ls[..n]), ls[n];
      if (u, c, ts) in s.ever {
        DeliveredInRun(t0, ls[..n], u, c, ts);
        var k: nat :| DeliveredAt(t0, ls[..n], k, u, c, ts);
        assert ls[..n][..k] == ls[..k];
        assert DeliveredAt(t0, ls, k, u, c, ts);
      } else {
        NewlyDelivered(s, l, u, c, ts);
        assert DeliveredAt(t0, ls, n, u, c, ts);
      }
    }
  }

  lemma {:induction false} EverGrows(t0: int, ls: seq<Label>, k: nat)
    requires k <= |ls|
    ensures Run(Init(t0), ls[..k]).ever <= Run(Init(t0), ls).ever
    decreases |ls|
  {
    if k == |ls| {
      assert ls[..k] == ls;
    } else {
      var n := |ls| - 1;
      assert ls[..n][..k] == ls[..k];
      EverGrows(t0, ls[..n], k);
      StepGrows(Run(Init(t0), ls[..n]), ls[n]);
    }
  }

  lemma StepGrows(s: Sys, l: Label)
    ensures s.ever <= Step(s, l).ever
  {
  }

  lemma PollKeepsEver(s: Sys, sid: int, order: seq<int>)
    ensures DoPoll(s, sid, order).ever == s.ever
    ensures DoPoll(s, sid, order).now == s.now
    ensures PollAccepted(s, sid, order) ==> DoPoll(s, sid, order).db == SyncedBy(s, sid, order).db
  {
  }

  /** The converse: the history variable records every delivery. */
  lemma DeliveredIsRecorded(t0: int, ls: seq<Label>, u: int, c: int, ts: int)
    requires WasDelivered(t0, ls, u, c, ts)
    ensures (u, c, ts) in Run(Init(t0), ls).ever
  {
    var k: nat :| DeliveredAt(t0, ls, k, u, c, ts);
    RecordedThere(t0, ls, k, u, c, ts);
    EverGrows(t0, ls, k + 1);
  }

  lemma RecordedThere(t0: int, ls: seq<Label>, k: nat, u: int, c: int, ts: int)
    requires DeliveredAt(t0, ls, k, u, c, ts)
    ensures k < |ls| && (u, c, ts) in Run(Init(t0), ls[..k + 1]).ever
  {
    hide GetChatMessages, SelectMessages, Run, DoFetch, CopyOf;
    assert ls[..k + 1] == ls[..k] + [ls[k]];
    RecordedNow(Run(Init(t0), ls[..k]), ls[k].sid, c, u, ts);
    RunLast(Init(t0), ls[..k], ls[k]);
  }

  lemma RecordedNow(s: Sys, sid: int, c: int, u: int, ts: int)
    requires Holds(s, sid, c) && s.sessions[sid].user == u
    requires GetChatMessages(s.db, u, c, CopyOf(s, sid, c).cursor).Some?
    requires exists m :: m in SelectMessages(s.db, u, c, CopyOf(s, sid, c).cursor) && m.ts == ts
    ensures (u, c, ts) in DoFetch(s, sid, c).ever
  {
  }

  lemma NewlyDelivered(s: Sys, l: Label, u: int, c: int, ts: int)
    requires (u, c, ts) in Step(s, l).ever && (u, c, ts) !in s.ever
    ensures l.Fetch? && l.chat == c && Holds(s, l.sid, c) && s.sessions[l.sid].user == u
    ensures GetChatMessages(s.db, u, c, CopyOf(s, l.sid, c).cursor).Some?
    ensures exists m :: m in SelectMessages(s.db, u, c, CopyOf(s, l.sid, c).cursor) && m.ts == ts
  {
    hide Filter, PushAll;
  }

  lemma {:induction false} MissedInRun(t0: int, ls: seq<Label>, u: int, c: int, ts: int)
    requires (u, c, ts) in Run(Init(t0), ls).missed
    ensures WasMissed(t0, ls, u, c, ts)
  {
    hide GetChatMessages, SelectMessages, BringsNothing;
    if ls != [] {
      var n := |ls| - 1;
      var s, l := Run(Init(t0), ls[..n]), ls[n];
      if (u, c, ts) in s.missed {
        MissedInRun(t0, ls[..n], u, c, ts);
        var k: nat :| EmptyAt(t0, ls[..n], k, c, ts) && Run(Init(t0), ls[..n][..k]).sessions[ls[k].sid].user == u;
        assert ls[..n][..k] == ls[..k];
        assert EmptyAt(t0, ls, k, c, ts);
      } else {
        NewlyMissed(s, l, u, c, ts);
        assert EmptyAt(t0, ls, n, c, ts);
      }
    }
  }

  lemma NewlyMissed(s: Sys, l: Label, u: int, c: int, ts: int)
    requires (u, c, ts) in Step(s, l).missed && (u, c, ts) !in s.missed
    ensures l.Fetch? && l.chat == c && Holds(s, l.sid, c) && s.sessions[l.sid].user == u
    ensures GetChatMessages(s.db, u, c, CopyOf(s, l.sid, c).cursor).Some?
    ensures BringsNothing(s, l.sid, c, ts)
  {
    hide Filter, PushAll;
  }

  ghost predicate Asks(s: Sys, sid: int, c: int)
    requires Holds(s, sid, c)
  {
    GetChatMessages(s.db, s.sessions[sid].user, c, CopyOf(s, sid, c).cursor).Some?
  }

  /** The stamp that the step makes the session skip in the chat. */
  ghost function SkippedNow(s: Sys, l: Label, sid: int, c: int): set<int>
    requires Holds(s, sid, c)
  {
    if l == Fetch(sid, c) && Asks(s, sid, c) && BringsNothing(s, sid, c, CopyOf(s, sid, c).cursor)
    then {CopyOf(s, sid, c).cursor} else {}
  }

  /** How one step changes what the session has skipped in a chat. */
  lemma SkipStep(s: Sys, l: Label, sid: int, c: int)
    requires Base(s)
    ensures Holds(s, sid, c) && !Ends(s, l, sid) ==> Holds(Step(s, l), sid, c)
    ensures Holds(Step(s, l), sid, c) ==>
      CopyOf(Step(s, l), sid, c).skipped ==
        if Holds(s, sid, c) && !Ends(s, l, sid) then CopyOf(s, sid, c).skipped + SkippedNow(s, l, sid, c) else {}
  {
    assert Holds(s, sid, c) && l != Fetch(sid, c) ==> SkippedNow(s, l, sid, c) == {};
    hide Base, DoPoll, DoLogin, DoCreate, DoLeave, DoSay, DoFetch, DoShow, SkippedNow;
    match l {
      case Login(k, u) => SkipLogin(s, k, u, sid, c);
      case Logout(k) =>
      case Poll(k, order) => SkipPoll(s, k, order, sid, c);
      case Fetch(k, d) => SkipFetch(s, k, d, sid, c);
      case Show(k, d) => SkipShow(s, k, d, sid, c);
      case _ => SkipServer(s, l);
    }
  }

  lemma SkipServer(s: Sys, l: Label)
    requires Base(s) && IsServerLabel(l)
    ensures Step(s, l).sessions == s.sessions
  {
    ServerMoves(s, l);
    hide Base, Step;
  }

  lemma SkipLogin(s: Sys, k: int, u: int, sid: int, c: int)
    requires Base(s)
    ensures Ends(s, Login(k, u), sid) && Holds(DoLogin(s, k, u), sid, c) ==>
      CopyOf(DoLogin(s, k, u), sid, c).skipped == {}
    ensures !Ends(s, Login(k, u), sid) ==>
      Holds(DoLogin(s, k, u), sid, c) == Holds(s, sid, c) && (Holds(s, sid, c) ==>
        CopyOf(DoLogin(s, k, u), sid, c) == CopyOf(s, sid, c))
  {
    if UserValid(s.db, u) {
      LoginExact(s, u);
      hide LoadData;
    }
  }

  lemma SkipShow(s: Sys, k: int, d: int, sid: int, c: int)
    ensures Holds(DoShow(s, k, d), sid, c) <==> Holds(s, sid, c)
    ensures Holds(s, sid, c) ==> CopyOf(DoShow(s, k, d), sid, c).skipped == CopyOf(s, sid, c).skipped
  {
  }

  lemma SkipPoll(s: Sys, k: int, order: seq<int>, sid: int, c: int)
    requires Base(s)
    ensures Holds(s, sid, c) ==> Holds(DoPoll(s, k, order), sid, c)
    ensures Holds(DoPoll(s, k, order), sid, c) ==>
      CopyOf(DoPoll(s, k, order), sid, c).skipped == if Holds(s, sid, c) then CopyOf(s, sid, c).skipped else {}
  {
    if PollAccepted(s, k, order) {
      PollExact(s, k, order);
      hide DoPoll, NoticeOf, EventsOf;
      if k == sid && Holds(s, k, c) {
        assert CopyOk(s.db, s.sessions[k].user, c, CopyOf(s, k, c));
        CopyEventsFrame(CopyOf(s, k, c), c, EventsOf(NoticeOf(s, k, order)));
      }
    } else {
      PollRefused(s, k, order);
    }
  }

  lemma ReceiveSkips(copy: ChatCopy, u: int, list: MessageList)
    ensures Receive(copy, u, list).skipped == copy.skipped + Skips(copy.cursor, list)
  {
  }

  lemma SkipFetch(s: Sys, k: int, d: int, sid: int, c: int)
    ensures Holds(DoFetch(s, k, d), sid, c) <==> Holds(s, sid, c)
    ensures Holds(s, sid, c) ==>
      CopyOf(DoFetch(s, k, d), sid, c).skipped == CopyOf(s, sid, c).skipped + SkippedNow(s, Fetch(k, d), sid, c)
  {
    FetchOthers(s, k, d);
    if k == sid && d == c && Holds(s, k, d) {
      match GetChatMessages(s.db, s.sessions[k].user, d, CopyOf(s, k, d).cursor) {
        case None => FetchRefused(s, k, d);
        case Some(list) =>
          FetchedCopyIs(s, k, d, list);
          ReceiveSkips(CopyOf(s, k, d), s.sessions[k].user, list);
      }
    }
    hide DoFetch, SelectMessages, Receive, LastStamp, UserValid, InChat;
  }

  /** What a client has skipped is exactly what its session stepped over. */
  lemma SkippedExactly(t0: int, ls: seq<Label>, sid: int, c: int, ts: int)
    requires 1 <= t0 && Holds(Run(Init(t0), ls), sid, c)
    ensures ts in CopyOf(Run(Init(t0), ls), sid, c).skipped <==> WasSkipped(t0, ls, sid, c, ts)
  {
    if ts in CopyOf(Run(Init(t0), ls), sid, c).skipped {
      var k := SkippedInRun(t0, ls, sid, c, ts);
    }
    if WasSkipped(t0, ls, sid, c, ts) {
      var k: nat :| EmptyAt(t0, ls, k, c, ts) && ls[k].sid == sid && SameSession(t0, ls, k, sid);
      SkippedRecorded(t0, ls, k, sid, c, ts);
    }
  }

  /** A skipped stamp was skipped before in the same session, or is the cursor of this fetch. */
  lemma SkippedBefore(s: Sys, l: Label, sid: int, c: int, ts: int)
    requires Base(s) && Holds(Step(s, l), sid, c) && ts in CopyOf(Step(s, l), sid, c).skipped
    ensures Holds(s, sid, c) && !Ends(s, l, sid)
    ensures ts in CopyOf(s, sid, c).skipped || (l == Fetch(sid, c) && Asks(s, sid, c) && BringsNothing(s, sid, c, ts))
  {
    SkipStep(s, l, sid, c);
    hide Base, Step, GetChatMessages, Ends, SelectMessages;
  }

  lemma SkippedAfter(s: Sys, l: Label, sid: int, c: int, ts: int)
    requires Base(s) && Holds(s, sid, c) && !Ends(s, l, sid)
    requires ts in CopyOf(s, sid, c).skipped || (l == Fetch(sid, c) && Asks(s, sid, c) && BringsNothing(s, sid, c, ts))
    ensures Holds(Step(s, l), sid, c) && ts in CopyOf(Step(s, l), sid, c).skipped
  {
    SkipStep(s, l, sid, c);
    hide Base, Step, GetChatMessages, Ends, SelectMessages;
  }

  lemma EmptyHere(t0: int, ls: seq<Label>, n: nat, sid: int, c: int, ts: int)
    requires n < |ls| && ls[n] == Fetch(sid, c) && Holds(Run(Init(t0), ls[..n]), sid, c)
    ensures EmptyAt(t0, ls, n, c, ts) <==>
      Asks(Run(Init(t0), ls[..n]), sid, c) && BringsNothing(Run(Init(t0), ls[..n]), sid, c, ts)
  {
    hide Run, GetChatMessages, BringsNothing, Holds, CopyOf;
  }

  /** What happened before the last step happened in the whole run. */
  lemma EmptyEarlier(t0: int, ls: seq<Label>, k: nat, sid: int, c: int, ts: int)
    requires ls != [] && k < |ls| - 1
    ensures EmptyAt(t0, ls[..|ls| - 1], k, c, ts) <==> EmptyAt(t0, ls, k, c, ts)
    ensures SameSession(t0, ls, k, sid) <==>
      SameSession(t0, ls[..|ls| - 1], k, sid) && !Ends(Run(Init(t0), ls[..|ls| - 1]), ls[|ls| - 1], sid)
  {
    var n := |ls| - 1;
    assert ls[..n][..k] == ls[..k];
    forall j: nat | k < j < n ensures ls[..n][..j] == ls[..j] {
    }
    hide Run, GetChatMessages, BringsNothing, Ends, Holds, CopyOf;
  }

  lemma {:induction false} SkippedInRun(t0: int, ls: seq<Label>, sid: int, c: int, ts: int) returns (k: nat)
    requires 1 <= t0 && Holds(Run(Init(t0), ls), sid, c) && ts in CopyOf(Run(Init(t0), ls), sid, c).skipped
    ensures EmptyAt(t0, ls, k, c, ts) && ls[k].sid == sid && SameSession(t0, ls, k, sid)
  {
    assert ls != [];
    var n := |ls| - 1;
    var s, l := Run(Init(t0), ls[..n]), ls[n];
    BaseAlways(t0, ls[..n]);
    assert Run(Init(t0), ls) == Step(s, l);
    assert SameSession(t0, ls, n, sid);
    hide Run, Base, Step, EmptyAt, SameSession, Asks, BringsNothing, Ends, Holds, CopyOf;
    SkippedBefore(s, l, sid, c, ts);
    if ts in CopyOf(s, sid, c).skipped {
      k := SkippedInRun(t0, ls[..n], sid, c, ts);
      EmptyBounds(t0, ls[..n], k, c, ts);
      EmptyEarlier(t0, ls, k, sid, c, ts);
    } else {
      k := n;
      EmptyHere(t0, ls, n, sid, c, ts);
    }
  }

  lemma EmptyBounds(t0: int, ls: seq<Label>, k: nat, c: int, ts: int)
    requires EmptyAt(t0, ls, k, c, ts)
    ensures k < |ls| && ls[k].Fetch? && ls[k] == Fetch(ls[k].sid, c) && Holds(Run(Init(t0), ls[..k]), ls[k].sid, c)
  {
    hide Run, BringsNothing;
  }

  lemma {:induction false} SkippedRecorded(t0: int, ls: seq<Label>, k: nat, sid: int, c: int, ts: int)
    requires 1 <= t0 && EmptyAt(t0, ls, k, c, ts) && ls[k].sid == sid && SameSession(t0, ls, k, sid)
    ensures Holds(Run(Init(t0), ls), sid, c) && ts in CopyOf(Run(Init(t0), ls), sid, c).skipped
    decreases |ls|
  {
    EmptyBounds(t0, ls, k, c, ts);
    var n := |ls| - 1;
    var s, l := Run(Init(t0), ls[..n]), ls[n];
    BaseAlways(t0, ls[..n]);
    assert Run(Init(t0), ls) == Step(s, l);
    assert k == n ==> !Ends(s, l, sid);
    hide Run, Base, Step, EmptyAt, SameSession, Asks, BringsNothing, Ends, Holds, CopyOf;
    if k < n {
      EmptyEarlier(t0, ls, k, sid, c, ts);
      SkippedRecorded(t0, ls[..n], k, sid, c, ts);
    } else {
      EmptyHere(t0, ls, n, sid, c, ts);
    }
    SkippedAfter(s, l, sid, c, ts);
  }

  lemma {:induction false} OrphanInRun(t0: int, ls: seq<Label>, c: int)
    ensures c in Run(Init(t0), ls).orphaned ==> !NeverOrphaned(t0, ls, c)
  {
    if ls != [] && c in Run(Init(t0), ls).orphaned {
      var n := |ls| - 1;
      var s, l := Run(Init(t0), ls[..n]), ls[n];
      if c in s.orphaned {
        OrphanInRun(t0, ls[..n], c);
        var k: nat :| k < n && ls[..n][k].Leave? && var s := Run(Init(t0), ls[..n][..k]);
          UserValid(s.db, ls[k].user) && ChatExist(s.db, c) && IsAdmin(s.db, ls[k].user, c);
        assert ls[..n][..k] == ls[..k];
      } else {
        NewlyOrphaned(s, l, c);
      }
    }
  }

  lemma NewlyOrphaned(s: Sys, l: Label, c: int)
    requires c in Step(s, l).orphaned && c !in s.orphaned
    ensures l.Leave? && UserValid(s.db, l.user) && ChatExist(s.db, c) && IsAdmin(s.db, l.user, c)
  {
    hide Filter, PushAll;
  }
}

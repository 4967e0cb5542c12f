// The history fields of a chat copy, read off the run: when the client came to hold the chat, what was put in its
// window since it was last displayed, and which members it had no room for.
module CopyHistory {
  import opened Common
  import opened Tables
  import opened Handlers
  import opened Window
  import opened Replica
  import opened TableInvariant
  import opened RoundLemmas
  import opened System
  import opened History
  import opened SessionInvariant
  import opened Delivery
  import opened SessionLaws

  // ---- One step ---------------------------------------------------------------------------------------------------

  /** The step by which the session comes to hold the chat. */
  ghost predicate Makes(s: Sys, l: Label, sid: int, c: int) {
    Holds(Step(s, l), sid, c) && (!Holds(s, sid, c) || Ends(s, l, sid))
  }

  /** The chat is displayed, and has a message to display. */
  ghost predicate Clears(s: Sys, l: Label, sid: int, c: int) {
    l == Show(sid, c) && Holds(s, sid, c) && CopyOf(s, sid, c).box.items != []
  }

  /** What the step puts in the window of the chat. */
  ghost function Put(s: Sys, l: Label, sid: int, c: int): seq<Stored> {
    if l == Fetch(sid, c) && Holds(s, sid, c) && Asks(s, sid, c) then
      var u := s.sessions[sid].user;
      TakeLast(MAX_MESSAGES, LocalizeAll(u, SelectMessages(s.db, u, c, CopyOf(s, sid, c).cursor)))
    else []
  }

  /** The entries that the step applies to the session's chats. */
  ghost function RoundOf(s: Sys, l: Label, sid: int): seq<Event> {
    if l.Poll? && l.sid == sid && PollAccepted(s, sid, l.order) then EventsOf(NoticeOf(s, sid, l.order)) else []
  }

  /** The entry is about x's membership. */
  ghost predicate Concerns(e: Event, c: int, x: int) {
    (e.Added? || e.Removed?) && e.chat == c && e.user == x
  }

  /** The i-th entry adds x, and the list has no room for him. */
  ghost predicate RefusedEntry(copy: ChatCopy, c: int, es: seq<Event>, i: nat, x: int) {
    && i < |es| && es[i] == Added(c, x)
    && var p := CopyEvents(copy, c, es[..i]); x !in p.members && |p.members| >= MAX_MEMBERS
  }

  /** It does, and is the last word about him. */
  ghost predicate RefusedIn(copy: ChatCopy, c: int, es: seq<Event>, x: int) {
    exists i: nat :: RefusedEntry(copy, c, es, i, x) && forall j | i < j < |es| :: !Concerns(es[j], c, x)
  }

  ghost predicate ToldIn(es: seq<Event>, c: int, x: int) {
    exists j | 0 <= j < |es| :: Concerns(es[j], c, x)
  }

  /** The step tells the session about x's membership. */
  ghost predicate Tells(s: Sys, l: Label, sid: int, c: int, x: int) {
    ToldIn(RoundOf(s, l, sid), c, x)
  }

  /** It tells that x is a member, and the list has no room for him. */
  ghost predicate Refuses(s: Sys, l: Label, sid: int, c: int, x: int) {
    Holds(s, sid, c) && RefusedIn(CopyOf(s, sid, c), c, RoundOf(s, l, sid), x)
  }

  lemma {:induction false} RefusedInRound(copy: ChatCopy, c: int, es: seq<Event>, x: int)
    ensures x in CopyEvents(copy, c, es).refused <==>
      RefusedIn(copy, c, es, x) || (x in copy.refused && !ToldIn(es, c, x))
  {
    if es != [] {
      var n := |es| - 1;
      RefusedInRound(copy, c, es[..n], x);
      LastEntry(copy, c, es, x);
      RefusedInSnoc(copy, c, es, x);
      hide CopyEvents, RefusedIn, ToldIn, RefusedEntry, Concerns;
    }
  }

  lemma LastEntry(copy: ChatCopy, c: int, es: seq<Event>, x: int)
    requires es != []
    ensures var p := CopyEvents(copy, c, es[..|es| - 1]);
      x in CopyEvents(copy, c, es).refused <==>
        RefusedEntry(copy, c, es, |es| - 1, x) || (x in p.refused && !Concerns(es[|es| - 1], c, x))
  {
  }

  lemma RefusedInSnoc(copy: ChatCopy, c: int, es: seq<Event>, x: int)
    requires es != []
    ensures RefusedIn(copy, c, es, x) <==>
      RefusedEntry(copy, c, es, |es| - 1, x) || (RefusedIn(copy, c, es[..|es| - 1], x) && !Concerns(es[|es| - 1], c, x))
    ensures ToldIn(es, c, x) <==> ToldIn(es[..|es| - 1], c, x) || Concerns(es[|es| - 1], c, x)
  {
    var n := |es| - 1;
    forall i: nat | i < n ensures RefusedEntry(copy, c, es, i, x) <==> RefusedEntry(copy, c, es[..n], i, x) {
      assert es[..n][..i] == es[..i];
    }
    hide CopyEvents, RefusedEntry, Concerns;
    if i: nat :| RefusedEntry(copy, c, es[..n], i, x) && forall j | i < j < n :: !Concerns(es[..n][j], c, x) {
      assert RefusedEntry(copy, c, es, i, x) by { assert i < n by { IndexOf(copy, c, es[..n], i, x); } }
    }
    if i: nat :| RefusedEntry(copy, c, es, i, x) && forall j | i < j < |es| :: !Concerns(es[j], c, x) {
      IndexOf(copy, c, es, i, x);
      assert i < n ==> RefusedEntry(copy, c, es[..n], i, x);
      assert forall j | i < j < n :: !Concerns(es[..n][j], c, x);
    }
  }

  lemma IndexOf(copy: ChatCopy, c: int, es: seq<Event>, i: nat, x: int)
    requires RefusedEntry(copy, c, es, i, x)
    ensures i < |es| && Concerns(es[i], c, x)
  {
  }

  lemma MadeStep(s: Sys, l: Label, sid: int, c: int)
    requires Base(s) && Makes(s, l, sid, c)
    ensures var s', copy := Step(s, l), CopyOf(Step(s, l), sid, c);
      && (l.Login? || l.Poll?) && s'.now == s.now
      && Novel(copy, s'.db, s'.sessions[sid].user, c)
      && copy.reportedFrom == if l.Poll? && copy.join >= s.sessions[sid].replica.lastNotif then 0 else s.now + 1
  {
    hide DoPoll, DoFetch, DoCreate, DoLeave, DoSay, LoadData, Novel, Base;
    match l {
      case Login(k, u) => LoginExact(s, u);
      case Poll(k, order) =>
        if PollAccepted(s, k, order) {
          PollExact(s, k, order);
        } else {
          PollRefused(s, k, order);
        }
      case Fetch(k, d) => FetchOthers(s, k, d);
      case Logout(_) =>
      case Show(k, d) => ShowFrame(s, k, d);
      case _ => SkipServer(s, l);
    }
  }

  ghost predicate ListMoves(s: Sys, l: Label, sid: int, c: int, copy: ChatCopy, copy': ChatCopy) {
    forall x :: x in copy'.refused <==> Refuses(s, l, sid, c, x) || (x in copy.refused && !Tells(s, l, sid, c, x))
  }

  /** Nothing is unread up to the cursor. */
  ghost predicate Cleared(copy: ChatCopy) {
    copy.readTs == copy.cursor && copy.box.unread == 0 && copy.seen == |copy.log| && copy.appended == []
  }

  /** How a step changes the history of a copy that the session keeps. */
  ghost predicate Moves(s: Sys, l: Label, sid: int, c: int, copy: ChatCopy, copy': ChatCopy) {
    && copy'.join == copy.join && copy'.reportedFrom == copy.reportedFrom
    && ListMoves(s, l, sid, c, copy, copy')
    && (if Clears(s, l, sid, c) then Cleared(copy')
        else copy'.seen == copy.seen && copy'.appended == copy.appended + Put(s, l, sid, c)
             && copy'.readTs == copy.readTs)
  }

  lemma ToldNothing(s: Sys, l: Label, sid: int, c: int, copy: ChatCopy, copy': ChatCopy)
    requires !(l.Poll? && l.sid == sid && PollAccepted(s, sid, l.order)) && copy'.refused == copy.refused
    ensures ListMoves(s, l, sid, c, copy, copy')
  {
  }

  lemma StillMoves(s: Sys, l: Label, sid: int, c: int, copy: ChatCopy)
    requires !l.Fetch? && !l.Show? && !(l.Poll? && l.sid == sid)
    ensures Moves(s, l, sid, c, copy, copy)
  {
    ToldNothing(s, l, sid, c, copy, copy);
    hide Holds, PollAccepted, ListMoves;
    assert copy.appended + [] == copy.appended;
  }

  lemma FetchMoves(s: Sys, k: int, d: int, sid: int, c: int)
    requires Base(s) && Delivered(s) && Holds(s, sid, c)
    ensures Holds(DoFetch(s, k, d), sid, c)
    ensures Moves(s, Fetch(k, d), sid, c, CopyOf(s, sid, c), CopyOf(DoFetch(s, k, d), sid, c))
  {
    var copy := CopyOf(s, sid, c);
    assert copy.appended + [] == copy.appended;
    FetchOthers(s, k, d);
    hide Base, Delivered, DoFetch, IsReply, SelectMessages, GetChatMessages, ListMoves, PollAccepted;
    if k == sid && d == c && Asks(s, sid, c) {
      AcceptedMoves(s, sid, c);
    } else {
      if k == sid && d == c {
        FetchRefused(s, sid, c);
      }
      ToldNothing(s, Fetch(k, d), sid, c, copy, CopyOf(DoFetch(s, k, d), sid, c));
    }
  }

  lemma AcceptedMoves(s: Sys, sid: int, c: int)
    requires Base(s) && Delivered(s) && Holds(s, sid, c) && Asks(s, sid, c)
    ensures Holds(DoFetch(s, sid, c), sid, c)
    ensures Moves(s, Fetch(sid, c), sid, c, CopyOf(s, sid, c), CopyOf(DoFetch(s, sid, c), sid, c))
  {
    var u, copy := s.sessions[sid].user, CopyOf(s, sid, c);
    var r, list := FetchReply(s, sid, c);
    ReplyAscending(s.db, s.now, r, copy.cursor, list);
    assert CopyDelivered(s, u, c, copy);
    FetchedCopyIs(s, sid, c, list);
    assert list.rows == SelectMessages(s.db, u, c, copy.cursor);
    hide Base, Delivered, DoFetch, IsReply, SelectMessages, UnreadOk, SkipsOk, RowDelivered, GetChatMessages;
    ReceiveExact(copy, u, list);
    ToldNothing(s, Fetch(sid, c), sid, c, copy, CopyOf(DoFetch(s, sid, c), sid, c));
    hide Receive, Rising, TakeLast, Asks, LocalizeAll, Skips, Distinct, ListMoves;
  }

  lemma ShowMoves(s: Sys, k: int, d: int, sid: int, c: int)
    requires Holds(s, sid, c)
    ensures Holds(DoShow(s, k, d), sid, c)
    ensures Moves(s, Show(k, d), sid, c, CopyOf(s, sid, c), CopyOf(DoShow(s, k, d), sid, c))
  {
    assert CopyOf(s, sid, c).appended + [] == CopyOf(s, sid, c).appended;
    ToldNothing(s, Show(k, d), sid, c, CopyOf(s, sid, c), CopyOf(DoShow(s, k, d), sid, c));
    hide PollAccepted, ListMoves;
  }

  lemma PollMoves(s: Sys, k: int, order: seq<int>, sid: int, c: int)
    requires Base(s) && Holds(s, sid, c)
    ensures Holds(DoPoll(s, k, order), sid, c)
    ensures Moves(s, Poll(k, order), sid, c, CopyOf(s, sid, c), CopyOf(DoPoll(s, k, order), sid, c))
  {
    var copy := CopyOf(s, sid, c);
    assert copy.appended + [] == copy.appended;
    if PollAccepted(s, k, order) {
      PolledCopy(s, k, order, sid, c);
    } else {
      PollRefused(s, k, order);
    }
    hide Base, DoPoll, NoticeOf, EventsOf, CopyEvents, Distinct, PollAccepted, ListMoves;
    if k == sid && PollAccepted(s, k, order) {
      CopyEventsFrame(copy, c, EventsOf(NoticeOf(s, sid, order)));
      ListPolled(s, sid, order, c);
    } else {
      ToldNothing(s, Poll(k, order), sid, c, copy, copy);
    }
  }

  lemma ListPolled(s: Sys, sid: int, order: seq<int>, c: int)
    requires Holds(s, sid, c) && PollAccepted(s, sid, order)
    ensures var copy := CopyOf(s, sid, c);
      ListMoves(s, Poll(sid, order), sid, c, copy, CopyEvents(copy, c, EventsOf(NoticeOf(s, sid, order))))
  {
    var copy, es := CopyOf(s, sid, c), EventsOf(NoticeOf(s, sid, order));
    forall x
      ensures x in CopyEvents(copy, c, es).refused <==>
        RefusedIn(copy, c, es, x) || (x in copy.refused && !ToldIn(es, c, x))
    {
      RefusedInRound(copy, c, es, x);
    }
    hide RefusedIn, ToldIn, CopyEvents, EventsOf, NoticeOf;
  }

  lemma PolledCopy(s: Sys, k: int, order: seq<int>, sid: int, c: int)
    requires Base(s) && Holds(s, sid, c) && PollAccepted(s, k, order)
    ensures Distinct(CopyOf(s, sid, c).members) && |CopyOf(s, sid, c).members| <= MAX_MEMBERS
    ensures Holds(DoPoll(s, k, order), sid, c)
    ensures CopyOf(DoPoll(s, k, order), sid, c) ==
      if k == sid then CopyEvents(CopyOf(s, sid, c), c, EventsOf(NoticeOf(s, sid, order))) else CopyOf(s, sid, c)
  {
    PollExact(s, k, order);
    assert CopyOk(s.db, s.sessions[sid].user, c, CopyOf(s, sid, c)) by {
      assert SessionOk(s.db, s.now, s.sessions[sid]);
    }
    hide DoPoll, NoticeOf, EventsOf, Base, CopyEvents;
  }

  lemma KeptStep(s: Sys, l: Label, sid: int, c: int)
    requires Base(s) && Delivered(s) && Holds(s, sid, c) && !Ends(s, l, sid)
    ensures Holds(Step(s, l), sid, c) && Moves(s, l, sid, c, CopyOf(s, sid, c), CopyOf(Step(s, l), sid, c))
  {
    var copy := CopyOf(s, sid, c);
    hide DoPoll, DoFetch, DoShow, DoCreate, DoLeave, DoSay, LoadData, Moves, Base, Delivered;
    match l {
      case Login(_, _) => StillMoves(s, l, sid, c, copy);
      case Logout(_) => StillMoves(s, l, sid, c, copy);
      case Fetch(k, d) => FetchMoves(s, k, d, sid, c);
      case Show(k, d) => ShowMoves(s, k, d, sid, c);
      case Poll(k, order) => PollMoves(s, k, order, sid, c);
      case _ =>
        SkipServer(s, l);
        StillMoves(s, l, sid, c, copy);
    }
  }

  /** The step is an accepted poll of the session. */
  ghost predicate Polls(s: Sys, l: Label, sid: int) {
    l.Poll? && l.sid == sid && PollAccepted(s, sid, l.order)
  }

  lemma TickStep(s: Sys, l: Label, sid: int, c: int)
    requires Base(s) && Holds(s, sid, c) && !Ends(s, l, sid)
    ensures var s' := Step(s, l);
      && Holds(s', sid, c)
      && CopyOf(s', sid, c).allReadTs == if Polls(s, l, sid) then ReadTimeOf(s'.db, c) else CopyOf(s, sid, c).allReadTs
  {
    hide DoPoll, DoFetch, DoCreate, DoLeave, DoSay, LoadData, Base, PollAccepted;
    match l {
      case Login(_, _) =>
      case Logout(_) =>
      case Fetch(k, d) => TickFetched(s, k, d, sid, c);
      case Show(k, d) => ShowFrame(s, k, d);
      case Poll(k, order) =>
        if PollAccepted(s, k, order) {
          PolledCopy(s, k, order, sid, c);
          if k == sid {
            PollLaw(s, sid, order);
          }
        } else {
          PollRefused(s, k, order);
        }
      case _ => SkipServer(s, l);
    }
  }

  lemma TickFetched(s: Sys, k: int, d: int, sid: int, c: int)
    requires Holds(s, sid, c)
    ensures Holds(DoFetch(s, k, d), sid, c)
    ensures CopyOf(DoFetch(s, k, d), sid, c).allReadTs == CopyOf(s, sid, c).allReadTs
  {
    hide GetChatMessages, AddMessages, LocalizeAll, Skips;
  }

  // ---- The whole run ----------------------------------------------------------------------------------------------

  /** The k-th step makes the copy that the session still has. */
  ghost predicate MadeBy(t0: int, ls: seq<Label>, k: nat, sid: int, c: int) {
    k < |ls| && Makes(Run(Init(t0), ls[..k]), ls[k], sid, c) && SameSession(t0, ls, k, sid)
  }

  /** The k-th step displays the chat. */
  ghost predicate ClearedBy(t0: int, ls: seq<Label>, k: nat, sid: int, c: int) {
    k < |ls| && Clears(Run(Init(t0), ls[..k]), ls[k], sid, c) && SameSession(t0, ls, k, sid)
  }

  /** The k-th step is the last one that made the copy or cleared its counter. */
  ghost predicate CountsFrom(t0: int, ls: seq<Label>, k: nat, sid: int, c: int) {
    && (MadeBy(t0, ls, k, sid, c) || ClearedBy(t0, ls, k, sid, c))
    && forall j: nat | k < j :: !ClearedBy(t0, ls, j, sid, c)
  }

  /** What the steps after the k-th have put in the window. */
  ghost function PutSince(t0: int, ls: seq<Label>, k: nat, sid: int, c: int): seq<Stored> {
    if |ls| <= k + 1 then []
    else
      var n := |ls| - 1;
      PutSince(t0, ls[..n], k, sid, c) + Put(Run(Init(t0), ls[..n]), ls[n], sid, c)
  }

  ghost predicate RefusedBy(t0: int, ls: seq<Label>, k: nat, sid: int, c: int, x: int) {
    k < |ls| && Refuses(Run(Init(t0), ls[..k]), ls[k], sid, c, x) && SameSession(t0, ls, k, sid)
  }

  ghost predicate ToldBy(t0: int, ls: seq<Label>, k: nat, sid: int, c: int, x: int) {
    k < |ls| && Tells(Run(Init(t0), ls[..k]), ls[k], sid, c, x) && SameSession(t0, ls, k, sid)
  }

  /** The last poll that told the session about x found no room for him. */
  ghost predicate StillRefused(t0: int, ls: seq<Label>, sid: int, c: int, x: int) {
    exists k: nat :: RefusedBy(t0, ls, k, sid, c, x) && forall j: nat | k < j :: !ToldBy(t0, ls, j, sid, c, x)
  }

  ghost predicate EndsAt(t0: int, ls: seq<Label>, j: nat, sid: int) {
    j < |ls| && Ends(Run(Init(t0), ls[..j]), ls[j], sid)
  }

  lemma SameIs(t0: int, ls: seq<Label>, k: nat, sid: int)
    ensures SameSession(t0, ls, k, sid) <==> forall j: nat | k < j :: !EndsAt(t0, ls, j, sid)
  {
    hide Run, Ends;
    if forall j: nat | k < j :: !EndsAt(t0, ls, j, sid) {
      forall j: nat | k < j < |ls| ensures !Ends(Run(Init(t0), ls[..j]), ls[j], sid) {
        assert !EndsAt(t0, ls, j, sid);
      }
    }
  }

  lemma SameEarlier(t0: int, ls: seq<Label>, k: nat, sid: int)
    requires ls != [] && k < |ls| - 1
    ensures ls[..|ls| - 1][..k] == ls[..k]
    ensures SameSession(t0, ls, k, sid) <==>
      SameSession(t0, ls[..|ls| - 1], k, sid) && !Ends(Run(Init(t0), ls[..|ls| - 1]), ls[|ls| - 1], sid)
  {
    var n := |ls| - 1;
    PrefixAt(ls, n, k);
    SameIs(t0, ls, k, sid);
    SameIs(t0, ls[..n], k, sid);
    assert EndsAt(t0, ls, n, sid) <==> Ends(Run(Init(t0), ls[..n]), ls[n], sid);
    forall j: nat
      ensures j < n ==> (EndsAt(t0, ls, j, sid) <==> EndsAt(t0, ls[..n], j, sid))
      ensures j > n ==> !EndsAt(t0, ls, j, sid)
      ensures j >= n ==> !EndsAt(t0, ls[..n], j, sid)
    {
      hide Run, Ends;
      if j < n {
        PrefixAt(ls, n, j);
      }
    }
    hide EndsAt, SameSession, Run, Ends;
  }

  lemma PrefixAt(ls: seq<Label>, n: nat, j: nat)
    requires j < n <= |ls|
    ensures ls[..n][..j] == ls[..j] && ls[..n][j] == ls[j]
  {
  }

  /** How the session came to hold the chat: the member's row at that time is the one that `join` remembers, and
      `reportedFrom` is 0 exactly when he had joined since the poll before. */
  lemma {:induction false} MadeExactly(t0: int, ls: seq<Label>, sid: int, c: int) returns (k: nat)
    requires 1 <= t0 && Holds(Run(Init(t0), ls), sid, c)
    ensures MadeBy(t0, ls, k, sid, c) && (ls[k].Login? || ls[k].Poll?)
    ensures var s, copy := Run(Init(t0), ls[..k]), CopyOf(Run(Init(t0), ls), sid, c);
      && copy.reportedFrom == (if ls[k].Poll? && copy.join >= s.sessions[sid].replica.lastNotif then 0 else s.now + 1)
      && exists r :: r in Step(s, ls[k]).db.members && r.user == Step(s, ls[k]).sessions[sid].user && r.chat == c
           && r.rem == 0 && r.creation == copy.join
  {
    assert ls != [];
    var n := |ls| - 1;
    var s, l := Run(Init(t0), ls[..n]), ls[n];
    BaseAlways(t0, ls[..n]);
    DeliveredAlways(t0, ls[..n]);
    assert Run(Init(t0), ls) == Step(s, l);
    assert SameSession(t0, ls, n, sid);
    hide Run, Step, Base, Delivered, Ends, SameSession, Put, ListMoves, Clears;
    if Makes(s, l, sid, c) {
      MadeStep(s, l, sid, c);
      k := n;
    } else {
      KeptStep(s, l, sid, c);
      k := MadeExactly(t0, ls[..n], sid, c);
      SameEarlier(t0, ls, k, sid);
    }
  }

  /** `appended` is what was put in the window after the k-th step, which made the copy or displayed it last, `seen` the
      length of the log at that time, and the read stamp what that step has left. */
  ghost predicate UnreadSince(t0: int, ls: seq<Label>, k: nat, sid: int, c: int)
    requires Holds(Run(Init(t0), ls), sid, c)
  {
    && CountsFrom(t0, ls, k, sid, c) && Holds(Run(Init(t0), ls[..k + 1]), sid, c)
    && CopyOf(Run(Init(t0), ls), sid, c).appended == PutSince(t0, ls, k, sid, c)
    && CopyOf(Run(Init(t0), ls), sid, c).seen == |CopyOf(Run(Init(t0), ls[..k + 1]), sid, c).log|
    && CopyOf(Run(Init(t0), ls), sid, c).readTs == CopyOf(Run(Init(t0), ls[..k + 1]), sid, c).readTs
    && Starts(Run(Init(t0), ls[..k]), ls[k], sid, c)
  }

  /** The step leaves the read stamp at the cursor, if it displays the chat, and otherwise at READ_MSG_TIME. */
  ghost predicate Starts(s: Sys, l: Label, sid: int, c: int) {
    && Holds(Step(s, l), sid, c)
    && if Clears(s, l, sid, c) then Cleared(CopyOf(Step(s, l), sid, c))
       else Novel(CopyOf(Step(s, l), sid, c), Step(s, l).db, Step(s, l).sessions[sid].user, c)
  }

  /** The unread counter's history is that of the run since the last display of the chat in the session, or since the
      session came to hold it. */
  lemma {:induction false} UnreadExactly(t0: int, ls: seq<Label>, sid: int, c: int) returns (k: nat)
    requires 1 <= t0 && Holds(Run(Init(t0), ls), sid, c)
    ensures UnreadSince(t0, ls, k, sid, c)
  {
    assert ls != [];
    var n := |ls| - 1;
    var s, l := Run(Init(t0), ls[..n]), ls[n];
    assert Run(Init(t0), ls) == Step(s, l);
    hide Run, Step, Clears, Makes, UnreadSince, Holds;
    if Makes(s, l, sid, c) || Clears(s, l, sid, c) {
      StartsCounting(t0, ls, sid, c);
      k := n;
    } else {
      StillHeld(s, l, sid, c);
      k := UnreadExactly(t0, ls[..n], sid, c);
      GoesOnCounting(t0, ls, k, sid, c);
    }
  }

  lemma GoesOnCounting(t0: int, ls: seq<Label>, k: nat, sid: int, c: int)
    requires 1 <= t0 && ls != [] && Holds(Run(Init(t0), ls[..|ls| - 1]), sid, c)
    requires var s, l := Run(Init(t0), ls[..|ls| - 1]), ls[|ls| - 1]; !Clears(s, l, sid, c) && !Ends(s, l, sid)
    requires UnreadSince(t0, ls[..|ls| - 1], k, sid, c)
    ensures Holds(Run(Init(t0), ls), sid, c) && UnreadSince(t0, ls, k, sid, c)
  {
    var n := |ls| - 1;
    BaseAlways(t0, ls[..n]);
    DeliveredAlways(t0, ls[..n]);
    assert Run(Init(t0), ls) == Step(Run(Init(t0), ls[..n]), ls[n]);
    hide Run, Step, Base, Delivered, Put, PutSince, Clears, CountsFrom, Ends, Starts;
    CountsOn(t0, ls, k, sid, c);
    PrefixAt(ls, n, k);
    UnreadStep(Run(Init(t0), ls[..n]), ls[n], sid, c);
    PutMore(t0, ls, k, sid, c);
  }

  lemma StillHeld(s: Sys, l: Label, sid: int, c: int)
    requires Holds(Step(s, l), sid, c) && !Makes(s, l, sid, c)
    ensures Holds(s, sid, c) && !Ends(s, l, sid)
  {
  }

  lemma UnreadStep(s: Sys, l: Label, sid: int, c: int)
    requires Base(s) && Delivered(s) && Holds(s, sid, c) && !Ends(s, l, sid)
    ensures Holds(Step(s, l), sid, c)
    ensures var copy, copy' := CopyOf(s, sid, c), CopyOf(Step(s, l), sid, c);
      if Clears(s, l, sid, c) then Cleared(copy')
      else copy'.seen == copy.seen && copy'.appended == copy.appended + Put(s, l, sid, c)
           && copy'.readTs == copy.readTs
  {
    KeptStep(s, l, sid, c);
    hide Step, Base, Delivered, Ends, Clears, Put, ListMoves;
  }

  lemma StartsCounting(t0: int, ls: seq<Label>, sid: int, c: int)
    requires 1 <= t0 && ls != [] && Holds(Run(Init(t0), ls), sid, c)
    requires var s, l := Run(Init(t0), ls[..|ls| - 1]), ls[|ls| - 1]; Makes(s, l, sid, c) || Clears(s, l, sid, c)
    ensures UnreadSince(t0, ls, |ls| - 1, sid, c)
  {
    var n := |ls| - 1;
    BaseAlways(t0, ls[..n]);
    DeliveredAlways(t0, ls[..n]);
    assert Run(Init(t0), ls) == Step(Run(Init(t0), ls[..n]), ls[n]) && ls[..n + 1] == ls;
    CountsFromHere(t0, ls, sid, c);
    hide Run, Step, Base, Delivered, CountsFrom, Makes, Clears;
    Restarts(Run(Init(t0), ls[..n]), ls[n], sid, c);
  }

  lemma CountsFromHere(t0: int, ls: seq<Label>, sid: int, c: int)
    requires ls != []
    requires var s, l := Run(Init(t0), ls[..|ls| - 1]), ls[|ls| - 1]; Makes(s, l, sid, c) || Clears(s, l, sid, c)
    ensures CountsFrom(t0, ls, |ls| - 1, sid, c)
  {
    assert SameSession(t0, ls, |ls| - 1, sid);
    hide Run, Makes, Clears, SameSession;
  }

  lemma Restarts(s: Sys, l: Label, sid: int, c: int)
    requires Base(s) && Delivered(s) && Holds(Step(s, l), sid, c) && (Makes(s, l, sid, c) || Clears(s, l, sid, c))
    ensures var copy := CopyOf(Step(s, l), sid, c); copy.appended == [] && copy.seen == |copy.log|
    ensures Starts(s, l, sid, c)
  {
    if Makes(s, l, sid, c) {
      MadeStep(s, l, sid, c);
    } else {
      StillHeld(s, l, sid, c);
      UnreadStep(s, l, sid, c);
    }
    assert Clears(s, l, sid, c) ==> !Makes(s, l, sid, c);
    hide Step, Base, Delivered, Makes, Clears, Put, Novel;
  }

  lemma PutMore(t0: int, ls: seq<Label>, k: nat, sid: int, c: int)
    requires k < |ls| - 1
    ensures PutSince(t0, ls, k, sid, c)
      == PutSince(t0, ls[..|ls| - 1], k, sid, c) + Put(Run(Init(t0), ls[..|ls| - 1]), ls[|ls| - 1], sid, c)
  {
    hide Run, Put;
  }

  lemma CountsOn(t0: int, ls: seq<Label>, k: nat, sid: int, c: int)
    requires ls != [] && CountsFrom(t0, ls[..|ls| - 1], k, sid, c)
    requires var s, l := Run(Init(t0), ls[..|ls| - 1]), ls[|ls| - 1]; !Clears(s, l, sid, c) && !Ends(s, l, sid)
    ensures k < |ls| - 1
    ensures CountsFrom(t0, ls, k, sid, c) && ls[..|ls| - 1][..k + 1] == ls[..k + 1]
  {
    var n := |ls| - 1;
    assert k < n;
    assert ls[..n][..k + 1] == ls[..k + 1];
    forall j: nat | k < j ensures !ClearedBy(t0, ls, j, sid, c) {
      assert !ClearedBy(t0, ls[..n], j, sid, c);
      StillUncleared(t0, ls, j, sid, c);
    }
    PrefixAt(ls, n, k);
    hide Run, Clears, Makes, SameSession;
    SameEarlier(t0, ls, k, sid);
  }

  lemma StillUncleared(t0: int, ls: seq<Label>, j: nat, sid: int, c: int)
    requires ls != [] && !ClearedBy(t0, ls[..|ls| - 1], j, sid, c)
    requires !Clears(Run(Init(t0), ls[..|ls| - 1]), ls[|ls| - 1], sid, c)
    ensures !ClearedBy(t0, ls, j, sid, c)
  {
    hide Run, Clears, Ends, SameSession;
    if j < |ls| - 1 {
      SameEarlier(t0, ls, j, sid);
      PrefixAt(ls, |ls| - 1, j);
    }
  }

  ghost predicate PolledBy(t0: int, ls: seq<Label>, k: nat, sid: int) {
    k < |ls| && Polls(Run(Init(t0), ls[..k]), ls[k], sid) && SameSession(t0, ls, k, sid)
  }

  /** The k-th step is the last poll of the session, or the later one that made the copy. */
  ghost predicate ToldLast(t0: int, ls: seq<Label>, k: nat, sid: int, c: int) {
    && (PolledBy(t0, ls, k, sid) || MadeBy(t0, ls, k, sid, c))
    && forall j: nat | k < j :: !PolledBy(t0, ls, j, sid)
  }

  /** The tick stamp is the READ_TIME that the k-th step has left in the tables. */
  ghost predicate TickFrom(t0: int, ls: seq<Label>, k: nat, sid: int, c: int)
    requires Holds(Run(Init(t0), ls), sid, c)
  {
    && ToldLast(t0, ls, k, sid, c)
    && CopyOf(Run(Init(t0), ls), sid, c).allReadTs == ReadTimeOf(Run(Init(t0), ls[..k + 1]).db, c)
  }

  /** The stamp up to which the client draws the double check is the chat's READ_TIME as of the session's last poll, or
      as of the request that made the copy if no poll came later. */
  lemma {:induction false} TickExactly(t0: int, ls: seq<Label>, sid: int, c: int) returns (k: nat)
    requires 1 <= t0 && Holds(Run(Init(t0), ls), sid, c)
    ensures TickFrom(t0, ls, k, sid, c)
  {
    assert ls != [];
    var n := |ls| - 1;
    var s, l := Run(Init(t0), ls[..n]), ls[n];
    assert Run(Init(t0), ls) == Step(s, l);
    hide Run, Step, Makes, Polls, TickFrom, Holds;
    if Makes(s, l, sid, c) || Polls(s, l, sid) {
      k := n;
      TickHere(t0, ls, sid, c);
    } else {
      StillHeld(s, l, sid, c);
      k := TickExactly(t0, ls[..n], sid, c);
      TickOn(t0, ls, k, sid, c);
    }
  }

  lemma TickHere(t0: int, ls: seq<Label>, sid: int, c: int)
    requires 1 <= t0 && ls != [] && Holds(Run(Init(t0), ls), sid, c)
    requires var s, l := Run(Init(t0), ls[..|ls| - 1]), ls[|ls| - 1]; Makes(s, l, sid, c) || Polls(s, l, sid)
    ensures TickFrom(t0, ls, |ls| - 1, sid, c)
  {
    var n := |ls| - 1;
    BaseAlways(t0, ls[..n]);
    assert Run(Init(t0), ls) == Step(Run(Init(t0), ls[..n]), ls[n]) && ls[..n + 1] == ls;
    ToldHere(t0, ls, sid, c);
    hide Run, Step, Base, ToldLast, Makes, Polls;
    TickTold(Run(Init(t0), ls[..n]), ls[n], sid, c);
  }

  lemma TickTold(s: Sys, l: Label, sid: int, c: int)
    requires Base(s) && Holds(Step(s, l), sid, c) && (Makes(s, l, sid, c) || Polls(s, l, sid))
    ensures CopyOf(Step(s, l), sid, c).allReadTs == ReadTimeOf(Step(s, l).db, c)
  {
    if Makes(s, l, sid, c) {
      MadeStep(s, l, sid, c);
    } else {
      StillHeld(s, l, sid, c);
      TickStep(s, l, sid, c);
    }
    hide Step, Base, Makes, Polls;
  }

  lemma TickOn(t0: int, ls: seq<Label>, k: nat, sid: int, c: int)
    requires 1 <= t0 && ls != [] && Holds(Run(Init(t0), ls[..|ls| - 1]), sid, c)
    requires var s, l := Run(Init(t0), ls[..|ls| - 1]), ls[|ls| - 1]; !Polls(s, l, sid) && !Ends(s, l, sid)
    requires TickFrom(t0, ls[..|ls| - 1], k, sid, c)
    ensures Holds(Run(Init(t0), ls), sid, c) && TickFrom(t0, ls, k, sid, c)
  {
    var n := |ls| - 1;
    BaseAlways(t0, ls[..n]);
    assert Run(Init(t0), ls) == Step(Run(Init(t0), ls[..n]), ls[n]);
    hide Run, Step, Base, ToldLast, Polls, Ends;
    ToldOn(t0, ls, k, sid, c);
    TickStep(Run(Init(t0), ls[..n]), ls[n], sid, c);
  }

  lemma ToldHere(t0: int, ls: seq<Label>, sid: int, c: int)
    requires ls != []
    requires var s, l := Run(Init(t0), ls[..|ls| - 1]), ls[|ls| - 1]; Makes(s, l, sid, c) || Polls(s, l, sid)
    ensures ToldLast(t0, ls, |ls| - 1, sid, c)
  {
    assert SameSession(t0, ls, |ls| - 1, sid);
    hide Run, Makes, Polls, SameSession;
  }

  lemma ToldOn(t0: int, ls: seq<Label>, k: nat, sid: int, c: int)
    requires ls != [] && ToldLast(t0, ls[..|ls| - 1], k, sid, c)
    requires var s, l := Run(Init(t0), ls[..|ls| - 1]), ls[|ls| - 1]; !Polls(s, l, sid) && !Ends(s, l, sid)
    ensures k < |ls| - 1 && ToldLast(t0, ls, k, sid, c) && ls[..|ls| - 1][..k + 1] == ls[..k + 1]
  {
    var n := |ls| - 1;
    assert k < n;
    assert ls[..n][..k + 1] == ls[..k + 1];
    forall j: nat | k < j ensures !PolledBy(t0, ls, j, sid) {
      assert !PolledBy(t0, ls[..n], j, sid);
      StillUnpolled(t0, ls, j, sid);
    }
    PrefixAt(ls, n, k);
    hide Run, Polls, Makes, SameSession;
    SameEarlier(t0, ls, k, sid);
  }

  lemma StillUnpolled(t0: int, ls: seq<Label>, j: nat, sid: int)
    requires ls != [] && !PolledBy(t0, ls[..|ls| - 1], j, sid)
    requires !Polls(Run(Init(t0), ls[..|ls| - 1]), ls[|ls| - 1], sid)
    ensures !PolledBy(t0, ls, j, sid)
  {
    hide Run, Polls, Ends, SameSession;
    if j < |ls| - 1 {
      SameEarlier(t0, ls, j, sid);
      PrefixAt(ls, |ls| - 1, j);
    }
  }

  /** `refused` holds the users of whom the last poll with a word about them, since the login of the session, told that
      they are members when the list had no room. */
  lemma {:induction false} RefusedExactly(t0: int, ls: seq<Label>, sid: int, c: int, x: int)
    requires 1 <= t0 && Holds(Run(Init(t0), ls), sid, c)
    ensures x in CopyOf(Run(Init(t0), ls), sid, c).refused <==> StillRefused(t0, ls, sid, c, x)
  {
    assert ls != [];
    var n := |ls| - 1;
    var s, l := Run(Init(t0), ls[..n]), ls[n];
    BaseAlways(t0, ls[..n]);
    DeliveredAlways(t0, ls[..n]);
    assert Run(Init(t0), ls) == Step(s, l);
    hide Run, Step, Base, Delivered, Put, Refuses, Tells, Clears, StillRefused;
    if Makes(s, l, sid, c) {
      MadeStep(s, l, sid, c);
      NoneBefore(t0, ls, sid, c, x);
    } else {
      KeptStep(s, l, sid, c);
      RefusedExactly(t0, ls[..n], sid, c, x);
      StillRefusedSnoc(t0, ls, sid, c, x);
    }
  }

  lemma StillRefusedSnoc(t0: int, ls: seq<Label>, sid: int, c: int, x: int)
    requires ls != [] && !Ends(Run(Init(t0), ls[..|ls| - 1]), ls[|ls| - 1], sid)
    ensures var s, l := Run(Init(t0), ls[..|ls| - 1]), ls[|ls| - 1];
      StillRefused(t0, ls, sid, c, x) <==>
        Refuses(s, l, sid, c, x) || (StillRefused(t0, ls[..|ls| - 1], sid, c, x) && !Tells(s, l, sid, c, x))
  {
    var n := |ls| - 1;
    forall j: nat
      ensures j < n ==> (RefusedBy(t0, ls, j, sid, c, x) <==> RefusedBy(t0, ls[..n], j, sid, c, x))
      ensures j < n ==> (ToldBy(t0, ls, j, sid, c, x) <==> ToldBy(t0, ls[..n], j, sid, c, x))
    {
      if j < n {
        WordEarlier(t0, ls, j, sid, c, x);
      }
    }
    WordNow(t0, ls, sid, c, x);
    forall j: nat
      ensures RefusedBy(t0, ls, j, sid, c, x) || ToldBy(t0, ls, j, sid, c, x) ==> j <= n
      ensures RefusedBy(t0, ls[..n], j, sid, c, x) || ToldBy(t0, ls[..n], j, sid, c, x) ==> j < n
    {
      hide Refuses, Tells, SameSession, Run;
    }
    hide RefusedBy, ToldBy, Run, Refuses, Tells, Ends, SameSession, StillRefused;
    LastWord(t0, ls, ls[..n], n, sid, c, x);
  }

  /** The words before the n-th one are those of `front`. */
  lemma LastWord(t0: int, ls: seq<Label>, front: seq<Label>, n: nat, sid: int, c: int, x: int)
    requires forall j: nat | j < n :: RefusedBy(t0, ls, j, sid, c, x) <==> RefusedBy(t0, front, j, sid, c, x)
    requires forall j: nat | j < n :: ToldBy(t0, ls, j, sid, c, x) <==> ToldBy(t0, front, j, sid, c, x)
    requires forall j: nat :: RefusedBy(t0, ls, j, sid, c, x) || ToldBy(t0, ls, j, sid, c, x) ==> j <= n
    requires forall j: nat :: RefusedBy(t0, front, j, sid, c, x) || ToldBy(t0, front, j, sid, c, x) ==> j < n
    ensures StillRefused(t0, ls, sid, c, x) <==>
      RefusedBy(t0, ls, n, sid, c, x) || (StillRefused(t0, front, sid, c, x) && !ToldBy(t0, ls, n, sid, c, x))
  {
    hide RefusedBy, ToldBy;
  }

  lemma WordEarlier(t0: int, ls: seq<Label>, j: nat, sid: int, c: int, x: int)
    requires j < |ls| - 1 && !Ends(Run(Init(t0), ls[..|ls| - 1]), ls[|ls| - 1], sid)
    ensures ToldBy(t0, ls, j, sid, c, x) <==> ToldBy(t0, ls[..|ls| - 1], j, sid, c, x)
    ensures RefusedBy(t0, ls, j, sid, c, x) <==> RefusedBy(t0, ls[..|ls| - 1], j, sid, c, x)
  {
    hide Run, Tells, Refuses, Ends, SameSession;
    SameEarlier(t0, ls, j, sid);
  }

  lemma WordNow(t0: int, ls: seq<Label>, sid: int, c: int, x: int)
    requires ls != []
    ensures var n := |ls| - 1;
      && (ToldBy(t0, ls, n, sid, c, x) <==> Tells(Run(Init(t0), ls[..n]), ls[n], sid, c, x))
      && (RefusedBy(t0, ls, n, sid, c, x) <==> Refuses(Run(Init(t0), ls[..n]), ls[n], sid, c, x))
  {
    hide Run, Tells, Refuses, Ends;
  }

  /** Nobody is refused in a chat that the session does not hold. */
  lemma NoneBefore(t0: int, ls: seq<Label>, sid: int, c: int, x: int)
    requires 1 <= t0 && ls != [] && Makes(Run(Init(t0), ls[..|ls| - 1]), ls[|ls| - 1], sid, c)
    ensures !StillRefused(t0, ls, sid, c, x)
  {
    hide Run, Refuses, Makes;
    if k: nat :| RefusedBy(t0, ls, k, sid, c, x) {
      RefusedHeld(t0, ls, k, sid, c, x);
      MakesAnew(Run(Init(t0), ls[..|ls| - 1]), ls[|ls| - 1], sid, c);
    }
  }

  lemma MakesAnew(s: Sys, l: Label, sid: int, c: int)
    requires Makes(s, l, sid, c)
    ensures !Holds(s, sid, c) || Ends(s, l, sid)
  {
  }

  /** A session that has refused somebody has held the chat ever since. */
  lemma RefusedHeld(t0: int, ls: seq<Label>, k: nat, sid: int, c: int, x: int)
    requires 1 <= t0 && ls != [] && RefusedBy(t0, ls, k, sid, c, x)
    ensures var s := Run(Init(t0), ls[..|ls| - 1]); Holds(s, sid, c) && !Ends(s, ls[|ls| - 1], sid)
  {
    var n := |ls| - 1;
    RefusalHolds(Run(Init(t0), ls[..k]), ls[k], sid, c, x);
    hide Run, Refuses, Ends, Holds;
    if k < n {
      SameEarlier(t0, ls, k, sid);
      assert ls[..n][..k] == ls[..k] && ls[..n][k] == ls[k];
      HeldSince(t0, ls[..n], k, sid, c);
    }
  }

  lemma RefusalHolds(s: Sys, l: Label, sid: int, c: int, x: int)
    requires Refuses(s, l, sid, c, x)
    ensures Holds(s, sid, c) && !Ends(s, l, sid)
  {
  }

  lemma {:induction false} HeldSince(t0: int, ls: seq<Label>, k: nat, sid: int, c: int)
    requires 1 <= t0 && k < |ls| && SameSession(t0, ls, k, sid)
    requires Holds(Run(Init(t0), ls[..k]), sid, c) && !Ends(Run(Init(t0), ls[..k]), ls[k], sid)
    ensures Holds(Run(Init(t0), ls), sid, c)
    decreases |ls|
  {
    var n := |ls| - 1;
    BaseAlways(t0, ls[..n]);
    DeliveredAlways(t0, ls[..n]);
    assert Run(Init(t0), ls) == Step(Run(Init(t0), ls[..n]), ls[n]);
    hide Run, Step, Base, Delivered, Ends, Moves, Holds, CopyOf;
    if k < n {
      SameEarlier(t0, ls, k, sid);
      HeldSince(t0, ls[..n], k, sid, c);
    }
    KeptStep(Run(Init(t0), ls[..n]), ls[n], sid, c);
  }
}

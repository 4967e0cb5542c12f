// Only harmful fetches break the double check: an empty reply to a harmless fetch steps over a stamp that its user does
// not get to see, and that no READ_TIME has to vouch for.
module HarmfulFetches {
  import opened Common
  import opened Tables
  import opened Handlers
  import opened Replica
  import opened TableInvariant
  import opened System
  import opened History
  import opened SessionInvariant
  import opened MessageLog
  import opened Delivery
  import opened DoubleCheck
  import opened CursorExactness

  /** The k-th step is a fetch of the chat that asks with this cursor, gets nothing, and is not harmless. */
  ghost predicate HarmAt(t0: int, ls: seq<Label>, k: nat, c: int, ts: int) {
    EmptyAt(t0, ls, k, c, ts) && !FetchSafe(Run(Init(t0), ls[..k]), ls[k].sid, c)
  }

  /** Some client of the chat has stepped over the stamp in a harmful way. */
  ghost predicate Harmed(t0: int, ls: seq<Label>, c: int, ts: int) {
    exists k: nat :: HarmAt(t0, ls, k, c, ts)
  }

  /** A client of this user has. */
  ghost predicate HarmedBy(t0: int, ls: seq<Label>, u: int, c: int, ts: int) {
    exists k: nat :: HarmAt(t0, ls, k, c, ts) && Run(Init(t0), ls[..k]).sessions[ls[k].sid].user == u
  }

  /** The session that the client is in has. */
  ghost predicate HarmedIn(t0: int, ls: seq<Label>, sid: int, c: int, ts: int) {
    exists k: nat :: HarmAt(t0, ls, k, c, ts) && ls[k].sid == sid && SameSession(t0, ls, k, sid)
  }

  /** Every accepted fetch of the chat in the steps taken from the state is harmless. */
  ghost predicate SafeFetches(s: Sys, ls: seq<Label>, c: int) {
    forall k: nat | k < |ls| && ls[k].Fetch? && ls[k].chat == c :: FetchIsSafe(Run(s, ls[..k]), ls[k].sid, c)
  }

  ghost predicate FetchIsSafe(s: Sys, sid: int, c: int) {
    Holds(s, sid, c) && Asks(s, sid, c) ==> FetchSafe(s, sid, c)
  }

  lemma SafeIsHarmless(t0: int, ls: seq<Label>, c: int, ts: int)
    requires SafeFetches(Init(t0), ls, c)
    ensures !Harmed(t0, ls, c, ts)
  {
    hide Run, FetchSafe, GetChatMessages, BringsNothing;
  }

  lemma SafeThenSafe(s: Sys, a: seq<Label>, b: seq<Label>, c: int)
    requires SafeFetches(s, a, c) && SafeFetches(Run(s, a), b, c)
    ensures SafeFetches(s, a + b, c)
  {
    hide Run, FetchIsSafe;
    forall k: nat | k < |a + b| && (a + b)[k].Fetch? && (a + b)[k].chat == c
      ensures FetchIsSafe(Run(s, (a + b)[..k]), (a + b)[k].sid, c)
    {
      if k < |a| {
        assert (a + b)[..k] == a[..k];
      } else {
        assert (a + b)[..k] == a + b[..k - |a|];
        RunConcat(s, a, b[..k - |a|]);
      }
    }
  }

  // ---- A harmless fetch steps over what is never seen -------------------------------------------------------------

  lemma SafeMiss(s: Sys, sid: int, c: int, ts: int)
    requires Base(s) && Holds(s, sid, c) && Asks(s, sid, c) && BringsNothing(s, sid, c, ts) && FetchSafe(s, sid, c)
    ensures HasEntry(s.db, s.sessions[sid].user, c) && NeverSeen(s.db, s.now, s.sessions[sid].user, c, ts)
  {
    var r, list := FetchReply(s, sid, c);
    assert list.rows == [];
    hide NeverSeen, IsReply, DbOk, FetchSafe, GetChatMessages;
    SafeGuard(s, sid, c, r);
    SafeStamp(s.db, s.now, r, ts, list);
  }

  lemma NeverSeenSynced(db: Db, db': Db, now: int, u: int, c: int, t: int)
    requires SyncFrame(db, db') && NeverSeen(db, now, u, c, t)
    ensures NeverSeen(db', now, u, c, t)
  {
    forall r' | r' in db'.members && r'.user == u && r'.chat == c
      ensures && (t < NextStamp(db', now, c) || t <= r'.creation)
              && forall m :: m in db'.messages && m.chat == c && r'.creation < m.ts ==> m.ts != t
    {
      var r := SyncedRow(db, db', r');
    }
  }

  lemma NeverSeenStep(s: Sys, l: Label, u: int, c: int, t: int)
    requires Base(s) && HasEntry(s.db, u, c) && NeverSeen(s.db, s.now, u, c, t)
    ensures HasEntry(Step(s, l).db, u, c) && NeverSeen(Step(s, l).db, Step(s, l).now, u, c, t)
  {
    hide NeverSeen, DoPoll, DoFetch, DoCreate, DoLeave, DoSay, LoadData, HasEntry, Base, DbOk;
    match l {
      case Login(_, _) =>
      case Logout(_) =>
      case Show(_, _) =>
      case Fetch(sid, d) => FetchOthers(s, sid, d);
      case Poll(sid, order) => NeverSeenPoll(s, sid, order, u, c, t);
      case _ => NeverSeenMove(s, l, u, c, t);
    }
  }

  lemma NeverSeenPoll(s: Sys, sid: int, order: seq<int>, u: int, c: int, t: int)
    requires Base(s) && HasEntry(s.db, u, c) && NeverSeen(s.db, s.now, u, c, t)
    ensures var s' := DoPoll(s, sid, order); HasEntry(s'.db, u, c) && NeverSeen(s'.db, s'.now, u, c, t)
  {
    if PollAccepted(s, sid, order) {
      PollExact(s, sid, order);
      hide DoPoll, NeverSeen, DbOk, NoticeOf, EventsOf;
      SyncedEntry(s.db, DoPoll(s, sid, order).db);
      NeverSeenSynced(s.db, DoPoll(s, sid, order).db, s.now, u, c, t);
    } else {
      PollRefused(s, sid, order);
    }
  }

  lemma NeverSeenMove(s: Sys, l: Label, u: int, c: int, t: int)
    requires Base(s) && IsServerLabel(l) && HasEntry(s.db, u, c) && NeverSeen(s.db, s.now, u, c, t)
    ensures var s' := Step(s, l); HasEntry(s'.db, u, c) && NeverSeen(s'.db, s'.now, u, c, t)
  {
    ServerMoves(s, l);
    hide Step, NeverSeen, DbOk, ServerStep;
    EntryKept(s.db, s.now, Step(s, l).db, Step(s, l).now, u, c);
    NeverSeenServer(s.db, s.now, Step(s, l).db, Step(s, l).now, u, c, t);
  }

  /** What a harmless fetch has stepped over, its user never sees. */
  lemma {:induction false} NeverSeenAfter(t0: int, ls: seq<Label>, k: nat, u: int, c: int, ts: int)
    requires 1 <= t0 && EmptyAt(t0, ls, k, c, ts) && FetchSafe(Run(Init(t0), ls[..k]), ls[k].sid, c)
    requires Run(Init(t0), ls[..k]).sessions[ls[k].sid].user == u
    ensures HasEntry(Run(Init(t0), ls).db, u, c) && NeverSeen(Run(Init(t0), ls).db, Run(Init(t0), ls).now, u, c, ts)
    decreases |ls|
  {
    EmptyBounds(t0, ls, k, c, ts);
    var n := |ls| - 1;
    var s, l := Run(Init(t0), ls[..n]), ls[n];
    BaseAlways(t0, ls[..n]);
    assert Run(Init(t0), ls) == Step(s, l);
    if k < n {
      EmptyEarlier(t0, ls, k, ls[k].sid, c, ts);
      assert ls[..n][..k] == ls[..k];
      hide Run, Base, Step, EmptyAt, FetchSafe, NeverSeen, HasEntry;
      NeverSeenAfter(t0, ls[..n], k, u, c, ts);
    } else {
      hide Run, Base, Step, FetchSafe, NeverSeen, HasEntry, GetChatMessages, BringsNothing;
      SafeMiss(s, ls[k].sid, c, ts);
    }
    NeverSeenStep(s, l, u, c, ts);
  }

  // ---- What is missed ---------------------------------------------------------------------------------------------

  /** Whatever a client has stepped over, it has stepped over in a harmful way, or its user never sees it. */
  ghost predicate MissedKnown(s: Sys, harms: iset<(int, int)>) {
    forall u, c, t :: (u, c, t) in s.missed ==>
      (c, t) in harms || (HasEntry(s.db, u, c) && NeverSeen(s.db, s.now, u, c, t))
  }

  ghost function Harms(t0: int, ls: seq<Label>): iset<(int, int)> {
    iset p: (int, int) | Harmed(t0, ls, p.0, p.1)
  }

  lemma MissIsHarm(t0: int, ls: seq<Label>, u: int, c: int, ts: int)
    requires 1 <= t0 && (u, c, ts) in Run(Init(t0), ls).missed
    ensures HarmedBy(t0, ls, u, c, ts) ||
      (HasEntry(Run(Init(t0), ls).db, u, c) && NeverSeen(Run(Init(t0), ls).db, Run(Init(t0), ls).now, u, c, ts))
  {
    MissedInRun(t0, ls, u, c, ts);
    var k: nat :| EmptyAt(t0, ls, k, c, ts) && Run(Init(t0), ls[..k]).sessions[ls[k].sid].user == u;
    EmptyBounds(t0, ls, k, c, ts);
    hide Run, EmptyAt, FetchSafe, NeverSeen, HasEntry;
    if FetchSafe(Run(Init(t0), ls[..k]), ls[k].sid, c) {
      NeverSeenAfter(t0, ls, k, u, c, ts);
    } else {
      assert HarmAt(t0, ls, k, c, ts);
    }
  }

  lemma MissedInHarms(t0: int, ls: seq<Label>)
    requires 1 <= t0
    ensures MissedKnown(Run(Init(t0), ls), Harms(t0, ls))
  {
    var s := Run(Init(t0), ls);
    hide Run, HarmAt, NeverSeen, HasEntry;
    forall u, c, t | (u, c, t) in s.missed
      ensures (c, t) in Harms(t0, ls) || (HasEntry(s.db, u, c) && NeverSeen(s.db, s.now, u, c, t))
    {
      MissIsHarm(t0, ls, u, c, t);
      if HarmedBy(t0, ls, u, c, t) {
        assert Harmed(t0, ls, c, t);
      }
    }
  }

  lemma HarmsGrow(t0: int, ls: seq<Label>)
    requires ls != []
    ensures Harms(t0, ls[..|ls| - 1]) <= Harms(t0, ls)
  {
    var n := |ls| - 1;
    hide Run, FetchSafe, EmptyAt;
    forall p | p in Harms(t0, ls[..n]) ensures p in Harms(t0, ls) {
      var k: nat :| HarmAt(t0, ls[..n], k, p.0, p.1);
      EmptyBounds(t0, ls[..n], k, p.0, p.1);
      EmptyEarlier(t0, ls, k, 0, p.0, p.1);
      assert ls[..n][..k] == ls[..k];
      assert HarmAt(t0, ls, k, p.0, p.1);
    }
  }

  // ---- What a READ_TIME vouches for -------------------------------------------------------------------------------

  /** The chat has given the stamp away, and if to a message then a client of the user has been handed it. */
  ghost predicate Settled(s: Sys, u: int, c: int, t: int) {
    t < NextStamp(s.db, s.now, c) && (Stamped(s.db, c, t) ==> (u, c, t) in s.ever)
  }

  /** Below the stamp, and above the row's join, everything is settled for its user but for harmful steps. */
  ghost predicate RowVouched(s: Sys, harms: iset<(int, int)>, r: MemberRow, v: int) {
    forall t :: r.creation < t < v ==> (r.chat, t) in harms || Settled(s, r.user, r.chat, t)
  }

  ghost predicate Vouched(s: Sys, harms: iset<(int, int)>) {
    forall p, r :: p in s.shown && r in s.db.members && r.chat == p.0 && r.rem == 0 ==> RowVouched(s, harms, r, p.1)
  }

  lemma VouchedMore(s: Sys, s': Sys, harms: iset<(int, int)>, harms': iset<(int, int)>, r: MemberRow, r': MemberRow,
                    v: int)
    requires s'.db.messages == s.db.messages && s'.now == s.now && s.ever <= s'.ever && harms <= harms'
    requires r'.user == r.user && r'.chat == r.chat && r'.creation == r.creation && RowVouched(s, harms, r, v)
    ensures RowVouched(s', harms', r', v)
  {
  }

  // ---- Server steps -----------------------------------------------------------------------------------------------

  lemma SettledServer(s: Sys, s': Sys, u: int, c: int, t: int)
    requires ServerMove(s, s') && Settled(s, u, c, t)
    ensures Settled(s', u, c, t)
  {
  }

  /** A READ_TIME that is ahead of the clock vouches for nothing but harmful steps. */
  lemma AheadIsHarm(s: Sys, harms: iset<(int, int)>, c: int, v: int, t: int)
    requires DbOk(s.db, s.now) && MissedKnown(s, harms) && ValueCovered(s, c, v) && s.now < t < v
    ensures (c, t) in harms
  {
    assert NextStamp(s.db, s.now, c) <= t;
    assert AnyMissed(s.missed, c, t);
    var u :| (u, c, t) in s.missed;
    forall q | q in s.db.members ensures q.creation < t {
      RowInPast(s.db, s.now, q);
    }
  }

  lemma RowVouchedServer(s: Sys, s': Sys, harms: iset<(int, int)>, r': MemberRow, v: int)
    requires DbOk(s.db, s.now) && ServerMove(s, s') && MissedKnown(s, harms) && Vouched(s, harms)
    requires (r'.chat, v) in s.shown && ValueCovered(s, r'.chat, v) && r' in s'.db.members && r'.rem == 0
    ensures RowVouched(s', harms, r', v)
  {
    var r := RowOrigin(s.db, s.now, s'.db, s'.now, r');
    hide MissedKnown, ValueCovered, Vouched, Settled, DbOk;
    forall t | r'.creation < t < v
      ensures (r'.chat, t) in harms || Settled(s', r'.user, r'.chat, t)
    {
      if r'.creation >= s.now {
        AheadIsHarm(s, harms, r'.chat, v, t);
      } else {
        OldRow(s, harms, r.value, (r'.chat, v));
        if (r'.chat, t) !in harms {
          SettledServer(s, s', r'.user, r'.chat, t);
        }
      }
    }
  }

  lemma OldRow(s: Sys, harms: iset<(int, int)>, r: MemberRow, p: (int, int))
    requires Vouched(s, harms) && p in s.shown && r in s.db.members && r.chat == p.0 && r.rem == 0
    ensures RowVouched(s, harms, r, p.1)
  {
  }

  lemma VouchedServer(s: Sys, s': Sys, harms: iset<(int, int)>)
    requires Base(s) && ReadOk(s) && ServerMove(s, s') && MissedKnown(s, harms) && Vouched(s, harms)
    ensures Vouched(s', harms)
  {
    hide DbOk, RowVouched, ValueCovered, MissedKnown, RowsCovered, CopiesCovered, SessionOk, ServerStep;
    forall p, r' | p in s'.shown && r' in s'.db.members && r'.chat == p.0 && r'.rem == 0
      ensures RowVouched(s', harms, r', p.1)
    {
      RowVouchedServer(s, s', harms, r', p.1);
    }
  }

  // ---- Polls ------------------------------------------------------------------------------------------------------

  /** What a member has read he has, or could not see, or has stepped over in a harmful way. */
  lemma ReadIsVouched(s: Sys, harms: iset<(int, int)>, r: MemberRow, v: int)
    requires MissedKnown(s, harms) && r in s.db.members && v <= r.read
    requires Covered(s.db, s.now, s.ever, s.missed, r, r.read)
    ensures RowVouched(s, harms, r, v)
  {
    forall t | r.creation < t < v && (r.chat, t) !in harms
      ensures Settled(s, r.user, r.chat, t)
    {
      MissedRow(s, harms, r, t);
    }
  }

  lemma MissedRow(s: Sys, harms: iset<(int, int)>, r: MemberRow, t: int)
    requires MissedKnown(s, harms) && r in s.db.members && r.creation < t && (r.chat, t) !in harms
    ensures (r.user, r.chat, t) in s.missed ==> t < NextStamp(s.db, s.now, r.chat) && !Stamped(s.db, r.chat, t)
  {
  }

  lemma SyncedMissed(s: Sys, s': Sys, harms: iset<(int, int)>)
    requires SyncFrame(s.db, s'.db) && s'.now == s.now && s'.missed == s.missed && MissedKnown(s, harms)
    ensures MissedKnown(s', harms)
  {
    SyncedEntry(s.db, s'.db);
    hide NeverSeen, HasEntry;
    forall u, c, t | (u, c, t) in s'.missed && (c, t) !in harms
      ensures HasEntry(s'.db, u, c) && NeverSeen(s'.db, s'.now, u, c, t)
    {
      NeverSeenSynced(s.db, s'.db, s.now, u, c, t);
    }
  }

  /** The state of the sync loop, as SyncedOk speaks of it. */
  ghost function During(s: Sys, y: Synced): Sys {
    s.(db := y.db, shown := y.shown, sessions := map[])
  }

  lemma VouchedSame(s1: Sys, s2: Sys, harms: iset<(int, int)>, p: (int, int), r': MemberRow)
    requires Vouched(s1, harms) && SyncFrame(s1.db, s2.db) && s2.now == s1.now && s2.ever == s1.ever
    requires p in s1.shown && r' in s2.db.members && r'.chat == p.0 && r'.rem == 0
    ensures RowVouched(s2, harms, r', p.1)
  {
    var r := SyncedRow(s1.db, s2.db, r');
    OldRow(s1, harms, r, p);
    VouchedMore(s1, s2, harms, harms, r, r', p.1);
  }

  /** The READ_TIME after one report. */
  lemma ReportVouched(s: Sys, y: Synced, harms: iset<(int, int)>, u: int, c: int, t: int, r: MemberRow)
    requires DbOk(y.db, s.now) && SyncFrame(y.db, UpdateSync(y.db, u, c, t))
    requires Vouched(During(s, y), harms) && ShownCovered(During(s, y))
    requires var db := UpdateSync(y.db, u, c, t);
      && MissedKnown(s.(db := db), harms) && r in db.members && r.chat == c && r.rem == 0
      && Covered(db, s.now, s.ever, s.missed, r, r.read)
    ensures var db := UpdateSync(y.db, u, c, t); RowVouched(s.(db := db), harms, r, ReadTimeOf(db, c))
  {
    var db := UpdateSync(y.db, u, c, t);
    var v := ReadTimeOf(db, c);
    UpdateSyncEnds(y.db, u, c, t);
    hide UpdateSync, ValueCovered, Covered, MissedKnown;
    if db.chats != y.db.chats {
      ReadIsVouched(s.(db := db), harms, r, v);
    } else if v != 0 {
      assert (c, v) in y.shown;
      VouchedSame(During(s, y), s.(db := db), harms, (c, v), r);
    } else {
      var q := SyncedRow(y.db, db, r);
      RowInPast(y.db, s.now, q);
    }
  }

  lemma SyncOneVouched(s: Sys, y: Synced, harms: iset<(int, int)>, u: int, c: int, copy: ChatCopy)
    requires DbOk(s.db, s.now) && SyncedOk(s, y) && DbOk(y.db, s.now) && CopyOk(s.db, u, c, copy)
    requires CopyCovered(s, u, c, copy) && MissedKnown(s, harms) && Vouched(During(s, y), harms)
    ensures var db := UpdateSync(y.db, u, c, copy.readTs);
      Vouched(During(s, Synced(db, y.shown + {(c, ReadTimeOf(db, c))})), harms)
  {
    var db := UpdateSync(y.db, u, c, copy.readTs);
    hide UpdateSync, DbOk, CopyOk, CopyCovered, Covered, ValueCovered, MissedKnown, RowVouched, CopiesCovered;
    SyncTables(s, y, u, c, copy);
    SyncedRows(s, y, u, c, copy);
    SyncedMissed(s, s.(db := db), harms);
    hide SyncFrame;
    var s2 := During(s, Synced(db, y.shown + {(c, ReadTimeOf(db, c))}));
    forall p, r | p in s2.shown && r in db.members && r.chat == p.0 && r.rem == 0
      ensures RowVouched(s2, harms, r, p.1)
    {
      if p in y.shown {
        VouchedSame(During(s, y), s2, harms, p, r);
      } else {
        ReportVouched(s, y, harms, u, c, copy.readTs, r);
        VouchedMore(s.(db := db), s2, harms, harms, r, r, p.1);
      }
    }
  }

  lemma {:induction false} SyncAllVouched(s: Sys, harms: iset<(int, int)>, u: int, chats: map<int, ChatCopy>,
                                          order: seq<int>)
    requires DbOk(s.db, s.now) && ReadOk(s) && ReportsCovered(s, u, chats)
    requires MissedKnown(s, harms) && Vouched(s, harms)
    ensures Vouched(During(s, SyncAll(Synced(s.db, s.shown), u, chats, order)), harms)
  {
    var y0 := Synced(s.db, s.shown);
    if order == [] {
      SameVouched(s, During(s, y0), harms);
    } else {
      var rest, c := order[..|order| - 1], order[|order| - 1];
      hide DbOk, ReadOk, MissedKnown, Vouched, SyncFrame, CopyOk, CopyCovered, UpdateSync;
      SyncAllVouched(s, harms, u, chats, rest);
      SyncAllFrame(y0, s.now, u, chats, rest);
      SyncAllCovered(s, u, chats, rest);
      if c in chats {
        SyncOneVouched(s, SyncAll(y0, u, chats, rest), harms, u, c, chats[c]);
      }
    }
  }

  /** Sessions do not matter, and deliveries and harms only add. */
  lemma SameVouched(s: Sys, s': Sys, harms: iset<(int, int)>)
    requires s'.db == s.db && s'.now == s.now && s'.shown == s.shown && s.ever <= s'.ever && Vouched(s, harms)
    ensures Vouched(s', harms)
  {
    hide RowVouched;
    forall p, r | p in s'.shown && r in s'.db.members && r.chat == p.0 && r.rem == 0
      ensures RowVouched(s', harms, r, p.1)
    {
      VouchedMore(s, s', harms, harms, r, r, p.1);
    }
  }

  lemma VouchedPoll(s: Sys, sid: int, order: seq<int>, harms: iset<(int, int)>)
    requires Base(s) && ReadOk(s) && MissedKnown(s, harms) && Vouched(s, harms)
    ensures Vouched(DoPoll(s, sid, order), harms)
  {
    if PollAccepted(s, sid, order) {
      var se := s.sessions[sid];
      PollExact(s, sid, order);
      ReportsAreCovered(s, sid);
      hide DoPoll, Base, ReadOk, MissedKnown, Vouched, NoticeOf, EventsOf, ReportsCovered, PollAccepted;
      BaseTables(s);
      SyncAllVouched(s, harms, se.user, se.replica.chats, order);
      SameVouched(During(s, SyncedBy(s, sid, order)), DoPoll(s, sid, order), harms);
    } else {
      PollRefused(s, sid, order);
    }
  }

  lemma BaseTables(s: Sys)
    requires Base(s)
    ensures DbOk(s.db, s.now)
  {
  }

  // ---- Every run --------------------------------------------------------------------------------------------------

  lemma VouchedStep(s: Sys, l: Label, harms: iset<(int, int)>)
    requires Base(s) && ReadOk(s) && MissedKnown(s, harms) && Vouched(s, harms)
    ensures Vouched(Step(s, l), harms)
  {
    hide DoPoll, DoFetch, DoCreate, DoLeave, DoSay, LoadData, Base, ReadOk, MissedKnown, Vouched;
    match l {
      case Login(_, _) => SameVouched(s, Step(s, l), harms);
      case Logout(_) => SameVouched(s, Step(s, l), harms);
      case Show(_, _) => SameVouched(s, Step(s, l), harms);
      case Fetch(sid, c) =>
        FetchOthers(s, sid, c);
        SameVouched(s, Step(s, l), harms);
      case Poll(sid, order) => VouchedPoll(s, sid, order, harms);
      case _ =>
        ServerMoves(s, l);
        VouchedServer(s, Step(s, l), harms);
    }
  }

  lemma FewerVouched(s: Sys, harms: iset<(int, int)>, harms': iset<(int, int)>)
    requires harms <= harms' && Vouched(s, harms)
    ensures Vouched(s, harms')
  {
    hide RowVouched;
    forall p, r | p in s.shown && r in s.db.members && r.chat == p.0 && r.rem == 0
      ensures RowVouched(s, harms', r, p.1)
    {
      VouchedMore(s, s, harms, harms', r, r, p.1);
    }
  }

  lemma {:induction false} VouchedAlways(t0: int, ls: seq<Label>)
    requires 1 <= t0
    ensures Vouched(Run(Init(t0), ls), Harms(t0, ls))
  {
    if ls != [] {
      var n := |ls| - 1;
      BaseAlways(t0, ls[..n]);
      ReadAlways(t0, ls[..n]);
      VouchedAlways(t0, ls[..n]);
      MissedInHarms(t0, ls[..n]);
      HarmsGrow(t0, ls);
      assert Run(Init(t0), ls) == Step(Run(Init(t0), ls[..n]), ls[n]);
      hide Run, Step, Base, ReadOk, Vouched, MissedKnown, Harms;
      VouchedStep(Run(Init(t0), ls[..n]), ls[n], Harms(t0, ls[..n]));
      FewerVouched(Run(Init(t0), ls), Harms(t0, ls[..n]), Harms(t0, ls));
    }
  }

  /** What a READ_TIME of the run vouches for. */
  lemma ShownIsDelivered(t0: int, ls: seq<Label>, v: int, r: MemberRow, m: MessageRow)
    requires 1 <= t0 && (r.chat, v) in Run(Init(t0), ls).shown
    requires var s := Run(Init(t0), ls); r in s.db.members && r.rem == 0 && m in s.db.messages
    requires m.chat == r.chat && r.creation < m.ts < v
    ensures WasDelivered(t0, ls, r.user, r.chat, m.ts) || Harmed(t0, ls, r.chat, m.ts)
  {
    var s := Run(Init(t0), ls);
    VouchedAlways(t0, ls);
    hide Run, WasDelivered, Harmed;
    OldRow(s, Harms(t0, ls), r, (r.chat, v));
    assert Stamped(s.db, r.chat, m.ts);
    if (r.chat, m.ts) !in Harms(t0, ls) {
      DeliveredInRun(t0, ls, r.user, r.chat, m.ts);
    } else {
      assert (r.chat, m.ts).0 == r.chat && (r.chat, m.ts).1 == m.ts;
    }
  }

  // ---- Sessions ---------------------------------------------------------------------------------------------------

  lemma UserKept(s: Sys, l: Label, sid: int)
    requires Base(s) && sid in s.sessions && !Ends(s, l, sid)
    ensures sid in Step(s, l).sessions && Step(s, l).sessions[sid].user == s.sessions[sid].user
  {
    hide DoPoll, DoFetch, DoCreate, DoLeave, DoSay, LoadData, Base;
    match l {
      case Login(_, _) =>
      case Logout(_) =>
      case Show(_, _) =>
      case Fetch(k, c) => FetchOthers(s, k, c);
      case Poll(k, order) =>
        if PollAccepted(s, k, order) {
          PollExact(s, k, order);
        } else {
          PollRefused(s, k, order);
        }
      case _ => SkipServer(s, l);
    }
  }

  lemma {:induction false} UserOfSession(t0: int, ls: seq<Label>, k: nat, c: int, ts: int, sid: int)
    requires 1 <= t0 && EmptyAt(t0, ls, k, c, ts) && ls[k].sid == sid && SameSession(t0, ls, k, sid)
    ensures sid in Run(Init(t0), ls).sessions
    ensures Run(Init(t0), ls).sessions[sid].user == Run(Init(t0), ls[..k]).sessions[sid].user
    decreases |ls|
  {
    EmptyBounds(t0, ls, k, c, ts);
    var n := |ls| - 1;
    var s, l := Run(Init(t0), ls[..n]), ls[n];
    BaseAlways(t0, ls[..n]);
    assert Run(Init(t0), ls) == Step(s, l);
    assert k == n ==> !Ends(s, l, sid);
    if k < n {
      EmptyEarlier(t0, ls, k, sid, c, ts);
      assert ls[..n][..k] == ls[..k];
      hide Run, Base, Step, EmptyAt, SameSession, Ends;
      UserOfSession(t0, ls[..n], k, c, ts, sid);
    }
    hide Run, Base, Step, EmptyAt, SameSession, Ends;
    UserKept(s, l, sid);
  }

  /** Of a message that its user can see, a session steps over the stamp only in a harmful way. */
  lemma SkipIsHarm(t0: int, ls: seq<Label>, sid: int, r: MemberRow, m: MessageRow)
    requires 1 <= t0
    requires var s := Run(Init(t0), ls);
      && sid in s.sessions && r in s.db.members && r.user == s.sessions[sid].user
      && m in s.db.messages && m.chat == r.chat && r.creation < m.ts
    ensures WasSkipped(t0, ls, sid, r.chat, m.ts) <==> HarmedIn(t0, ls, sid, r.chat, m.ts)
  {
    if WasSkipped(t0, ls, sid, r.chat, m.ts) {
      var k: nat :| EmptyAt(t0, ls, k, r.chat, m.ts) && ls[k].sid == sid && SameSession(t0, ls, k, sid);
      EmptyBounds(t0, ls, k, r.chat, m.ts);
      UserOfSession(t0, ls, k, r.chat, m.ts, sid);
      hide Run, EmptyAt, FetchSafe, SameSession;
      if FetchSafe(Run(Init(t0), ls[..k]), sid, r.chat) {
        NeverSeenAfter(t0, ls, k, r.user, r.chat, m.ts);
      }
      assert HarmAt(t0, ls, k, r.chat, m.ts);
    }
  }
}

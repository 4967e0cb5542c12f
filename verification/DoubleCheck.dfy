// The double check: a READ_TIME promises that every message below it has reached every active member, unless a client
// of the chat has stepped over its stamp.
module DoubleCheck {
  import opened Common
  import opened Tables
  import opened Handlers
  import opened Window
  import opened Replica
  import opened TableInvariant
  import opened RoundLemmas
  import opened System
  import opened SessionInvariant
  import opened Delivery

  /** Some client of the chat stepped over the stamp. */
  ghost predicate AnyMissed(missed: set<(int, int, int)>, c: int, t: int) {
    exists u :: (u, c, t) in missed
  }

  /** What the member can see below the stamp has been handed to a client of his, or a client of his has stepped over
      it; and so it has over every stamp that the chat can still give below it. */
  ghost predicate Covered(db: Db, now: int, ever: set<(int, int, int)>, missed: set<(int, int, int)>, r: MemberRow,
                          t: int)
  {
    && (forall x :: NextStamp(db, now, r.chat) <= x < t ==> (r.user, r.chat, x) in missed)
    && forall m :: m in db.messages && m.chat == r.chat && r.creation < m.ts < t
         ==> (r.user, r.chat, m.ts) in ever + missed
  }

  ghost predicate RowsCovered(s: Sys) {
    forall r :: r in s.db.members ==> Covered(s.db, s.now, s.ever, s.missed, r, r.read)
  }

  ghost predicate CopyCovered(s: Sys, u: int, c: int, copy: ChatCopy) {
    && (forall r :: r in s.db.members && r.user == u && r.chat == c ==>
          Covered(s.db, s.now, s.ever, s.missed, r, copy.readTs))
    && (copy.allReadTs == 0 || (c, copy.allReadTs) in s.shown)
  }

  ghost predicate CopiesCovered(s: Sys) {
    forall sid, c :: Holds(s, sid, c) ==> CopyCovered(s, s.sessions[sid].user, c, CopyOf(s, sid, c))
  }

  /** What an active member can see below the stamp has been handed to a client of his, or some client of the chat has
      stepped over it. */
  ghost predicate ValueCovered(s: Sys, c: int, v: int) {
    && (forall x :: NextStamp(s.db, s.now, c) <= x < v ==> AnyMissed(s.missed, c, x))
    && forall r, m :: (
         && r in s.db.members && r.chat == c && r.rem == 0
         && m in s.db.messages && m.chat == c && r.creation < m.ts < v)
         ==> (r.user, c, m.ts) in s.ever || AnyMissed(s.missed, c, m.ts)
  }

  ghost predicate ShownCovered(s: Sys) {
    && (forall p :: p in s.shown ==> ValueCovered(s, p.0, p.1))
    && (forall c :: c in s.db.chats ==> s.db.chats[c].readTime == 0 || (c, s.db.chats[c].readTime) in s.shown)
  }

  ghost predicate ReadOk(s: Sys) {
    RowsCovered(s) && CopiesCovered(s) && ShownCovered(s)
  }

  // ---- Server steps -----------------------------------------------------------------------------------------------

  lemma CoveredServer(s: Sys, s': Sys, r: MemberRow, r': MemberRow, t: int)
    requires DbOk(s.db, s.now) && ServerMove(s, s')
    requires r in s.db.members && RowStep(r, r', s.now)
    requires Covered(s.db, s.now, s.ever, s.missed, r, t)
    ensures Covered(s'.db, s'.now, s'.ever, s'.missed, r', t)
  {
  }

  lemma ReadServer(s: Sys, s': Sys)
    requires Base(s) && ReadOk(s) && ServerMove(s, s')
    ensures ReadOk(s')
  {
    forall r' | r' in s'.db.members
      ensures Covered(s'.db, s'.now, s'.ever, s'.missed, r', r'.read)
    {
      var r := RowOrigin(s.db, s.now, s'.db, s'.now, r');
      if r.Some? {
        CoveredServer(s, s', r.value, r', r'.read);
      }
    }
    forall sid, c | Holds(s', sid, c)
      ensures CopyCovered(s', s'.sessions[sid].user, c, CopyOf(s', sid, c))
    {
      assert Holds(s, sid, c) && CopyOk(s.db, s.sessions[sid].user, c, CopyOf(s, sid, c));
      forall r' | r' in s'.db.members && r'.user == s.sessions[sid].user && r'.chat == c
        ensures Covered(s'.db, s'.now, s'.ever, s'.missed, r', CopyOf(s, sid, c).readTs)
      {
        var r := RowOrigin(s.db, s.now, s'.db, s'.now, r');
        CoveredServer(s, s', r.value, r', CopyOf(s, sid, c).readTs);
      }
    }
    forall p | p in s'.shown
      ensures ValueCovered(s', p.0, p.1)
    {
      ValueServer(s, s', p.0, p.1);
    }
  }

  lemma ValueServer(s: Sys, s': Sys, c: int, v: int)
    requires DbOk(s.db, s.now) && ValueCovered(s, c, v) && ServerMove(s, s')
    ensures ValueCovered(s', c, v)
  {
  }

  // ---- The sync loop ----------------------------------------------------------------------------------------------

  /** Reports that are covered for the reporting member's row. */
  ghost predicate ReportsCovered(s: Sys, u: int, chats: map<int, ChatCopy>) {
    forall c :: c in chats ==> CopyOk(s.db, u, c, chats[c]) && CopyCovered(s, u, c, chats[c])
  }

  ghost predicate SyncedOk(s: Sys, y: Synced) {
    && SyncFrame(s.db, y.db) && s.shown <= y.shown
    && ReadOk(s.(db := y.db, shown := y.shown, sessions := map[]))
  }

  lemma CoveredSame(db: Db, db': Db, s: Sys, r: MemberRow, r': MemberRow, t: int)
    requires Covered(db, s.now, s.ever, s.missed, r, t)
    requires db'.messages == db.messages && r' == r.(read := r'.read)
    ensures Covered(db', s.now, s.ever, s.missed, r', t)
  {
  }

  lemma SyncedRows(s: Sys, y: Synced, u: int, c: int, copy: ChatCopy)
    requires SyncedOk(s, y) && CopyCovered(s, u, c, copy)
    requires SyncFrame(y.db, UpdateSync(y.db, u, c, copy.readTs))
    ensures var db := UpdateSync(y.db, u, c, copy.readTs);
      forall r :: r in db.members ==> Covered(db, s.now, s.ever, s.missed, r, r.read)
  {
    var db := UpdateSync(y.db, u, c, copy.readTs);
    assert db.messages == y.db.messages == s.db.messages;
    forall r' | r' in db.members
      ensures Covered(db, s.now, s.ever, s.missed, r', r'.read)
    {
      var r := SyncOrigin(y.db, u, c, copy.readTs, r');
      assert Covered(y.db, s.now, s.ever, s.missed, r, r.read);
      var q := SyncedRow(s.db, y.db, r);
      hide UpdateSync, Covered, ShownCovered, CopiesCovered, SyncFrame;
      if r' == r {
        CoveredSame(y.db, db, s, r, r', r.read);
      } else {
        CoveredSame(s.db, db, s, q, r', copy.readTs);
      }
    }
  }

  lemma SyncTables(s: Sys, y: Synced, u: int, c: int, copy: ChatCopy)
    requires SyncedOk(s, y) && DbOk(y.db, s.now)
    ensures var db := UpdateSync(y.db, u, c, copy.readTs);
      && SyncFrame(y.db, db) && SyncFrame(s.db, db)
      && forall d :: d in db.chats && d != c ==> d in y.db.chats && db.chats[d] == y.db.chats[d]
  {
    UpdateSyncFrame(y.db, s.now, u, c, copy.readTs);
    OtherReadTimes(y.db, u, c, copy.readTs);
    hide UpdateSync, DbOk, ReadOk;
    SyncFrameTwice(s.db, y.db, UpdateSync(y.db, u, c, copy.readTs));
  }

  lemma SyncOne(s: Sys, y: Synced, u: int, c: int, copy: ChatCopy)
    requires DbOk(s.db, s.now) && SyncedOk(s, y) && DbOk(y.db, s.now)
    requires CopyOk(s.db, u, c, copy) && CopyCovered(s, u, c, copy)
    ensures var db := UpdateSync(y.db, u, c, copy.readTs);
      SyncedOk(s, Synced(db, y.shown + {(c, ReadTimeOf(db, c))}))
  {
    var db := UpdateSync(y.db, u, c, copy.readTs);
    var s1 := s.(db := y.db, shown := y.shown, sessions := map[]);
    var s2 := s.(db := db, shown := y.shown + {(c, ReadTimeOf(db, c))}, sessions := map[]);
    hide UpdateSync, DbOk, CopyOk, CopyCovered, Covered, SyncFrame, ValueCovered;
    SyncTables(s, y, u, c, copy);
    SyncedRows(s, y, u, c, copy);
    SyncedValue(s, y, u, c, copy);
    SameValue(s.(db := db), s2, c, ReadTimeOf(db, c));
    SyncedShown(s1, s2, c);
  }

  lemma SyncFrameTwice(db0: Db, db1: Db, db2: Db)
    requires SyncFrame(db0, db1) && SyncFrame(db1, db2)
    ensures SyncFrame(db0, db2)
  {
  }

  lemma OtherReadTimes(db: Db, u: int, c: int, t: int)
    ensures forall d :: d in UpdateSync(db, u, c, t).chats && d != c ==> (
      d in db.chats && UpdateSync(db, u, c, t).chats[d] == db.chats[d])
  {
  }

  lemma SyncedShown(s1: Sys, s2: Sys, c: int)
    requires SyncFrame(s1.db, s2.db) && s2 == s1.(db := s2.db, shown := s1.shown + {(c, ReadTimeOf(s2.db, c))})
    requires ShownCovered(s1) && ValueCovered(s2, c, ReadTimeOf(s2.db, c))
    requires forall d :: d in s2.db.chats && d != c ==> s2.db.chats[d] == s1.db.chats[d]
    ensures ShownCovered(s2)
  {
    hide ValueCovered;
    forall p | p in s2.shown
      ensures ValueCovered(s2, p.0, p.1)
    {
      if p != (c, ReadTimeOf(s2.db, c)) {
        ValueSame(s1, s2, p.0, p.1);
      }
    }
  }

  lemma SameValue(s1: Sys, s2: Sys, c: int, v: int)
    requires s2.db == s1.db && s2.now == s1.now && s2.ever == s1.ever && s2.missed == s1.missed
    ensures ValueCovered(s2, c, v) <==> ValueCovered(s1, c, v)
  {
  }

  lemma ValueSame(s1: Sys, s2: Sys, c: int, v: int)
    requires SyncFrame(s1.db, s2.db) && s2.now == s1.now && s2.ever == s1.ever && s2.missed == s1.missed
    requires ValueCovered(s1, c, v)
    ensures ValueCovered(s2, c, v)
  {
    hide AnyMissed;
    forall r', m | r' in s2.db.members && r'.chat == c && r'.rem == 0
      && m in s2.db.messages && m.chat == c && r'.creation < m.ts < v
      ensures (r'.user, c, m.ts) in s2.ever || AnyMissed(s2.missed, c, m.ts)
    {
      var r := SyncedRow(s1.db, s2.db, r');
    }
  }

  /** Whatever READ_TIME the chat has after the report is covered: either the report replaced it, and then every
      active member had read that far, or it was there before. */
  lemma SyncedValue(s: Sys, y: Synced, u: int, c: int, copy: ChatCopy)
    requires DbOk(s.db, s.now) && SyncedOk(s, y) && DbOk(y.db, s.now)
    requires CopyOk(s.db, u, c, copy) && CopyCovered(s, u, c, copy)
    requires SyncFrame(y.db, UpdateSync(y.db, u, c, copy.readTs))
    requires forall r :: r in UpdateSync(y.db, u, c, copy.readTs).members && r.chat == c ==>
      Covered(UpdateSync(y.db, u, c, copy.readTs), s.now, s.ever, s.missed, r, r.read)
    ensures var db := UpdateSync(y.db, u, c, copy.readTs);
      ValueCovered(s.(db := db), c, ReadTimeOf(db, c))
  {
    ReportAhead(s, u, c, copy);
    var db := UpdateSync(y.db, u, c, copy.readTs);
    UpdateSyncEnds(y.db, u, c, copy.readTs);
    hide UpdateSync, DbOk, CopyOk, CopyCovered, Covered, SyncFrame, AnyMissed;
    if db.chats != y.db.chats {
      NextStampSame(s.db, db, s.now, c);
      ReplacedValue(s, db, c, copy.readTs);
    } else {
      KeptValue(s, y, db, c);
    }
  }

  lemma NextStampSame(db: Db, db': Db, now: int, c: int)
    requires db'.messages == db.messages
    ensures NextStamp(db', now, c) == NextStamp(db, now, c)
  {
  }

  /** A report that changes the chat table sets the READ_TIME to its stamp, and then nobody active has read less. */
  lemma UpdateSyncEnds(db: Db, u: int, c: int, t: int)
    ensures var db' := UpdateSync(db, u, c, t);
      db'.chats != db.chats ==>
        ReadTimeOf(db', c) == t && forall r :: r in db'.members && r.chat == c && r.rem == 0 ==> t <= r.read
  {
  }

  lemma ReplacedValue(s: Sys, db: Db, c: int, t: int)
    requires forall x :: NextStamp(db, s.now, c) <= x < t ==> AnyMissed(s.missed, c, x)
    requires forall r :: r in db.members && r.chat == c ==> Covered(db, s.now, s.ever, s.missed, r, r.read)
    requires forall r :: r in db.members && r.chat == c && r.rem == 0 ==> t <= r.read
    ensures ValueCovered(s.(db := db), c, t)
  {
  }

  lemma KeptValue(s: Sys, y: Synced, db: Db, c: int)
    requires SyncedOk(s, y) && DbOk(y.db, s.now)
    requires SyncFrame(y.db, db) && ReadTimeOf(db, c) == ReadTimeOf(y.db, c)
    ensures ValueCovered(s.(db := db), c, ReadTimeOf(db, c))
  {
    var v := ReadTimeOf(y.db, c);
    var s1 := s.(db := y.db, shown := y.shown, sessions := map[]);
    if v == 0 {
      MessagesPositive(y.db, s.now);
      ZeroCovered(s.(db := db), c);
    } else {
      assert (c, v) in s1.shown;
      ValueSame(s1, s.(db := db), c, v);
    }
  }

  lemma ReportAhead(s: Sys, u: int, c: int, copy: ChatCopy)
    requires CopyOk(s.db, u, c, copy) && CopyCovered(s, u, c, copy)
    ensures forall x :: NextStamp(s.db, s.now, c) <= x < copy.readTs ==> AnyMissed(s.missed, c, x)
  {
    var r :| r in s.db.members && r.user == u && r.chat == c;
    assert Covered(s.db, s.now, s.ever, s.missed, r, copy.readTs);
    forall x | NextStamp(s.db, s.now, c) <= x < copy.readTs ensures AnyMissed(s.missed, c, x) {
      assert (u, c, x) in s.missed;
    }
  }

  lemma ZeroCovered(s: Sys, c: int)
    requires 1 <= s.now && forall m :: m in s.db.messages ==> 1 <= m.ts
    ensures ValueCovered(s, c, 0)
  {
    assert 1 <= NextStamp(s.db, s.now, c);
    hide NextStamp, AnyMissed;
  }

  lemma {:induction false} SyncAllCovered(s: Sys, u: int, chats: map<int, ChatCopy>, order: seq<int>)
    requires DbOk(s.db, s.now) && ReadOk(s) && ReportsCovered(s, u, chats)
    ensures SyncedOk(s, SyncAll(Synced(s.db, s.shown), u, chats, order))
  {
    if order == [] {
      assert RowsCovered(s.(sessions := map[])) && ShownCovered(s.(sessions := map[]));
    } else {
      var rest, c := order[..|order| - 1], order[|order| - 1];
      SyncAllCovered(s, u, chats, rest);
      SyncAllFrame(Synced(s.db, s.shown), s.now, u, chats, rest);
      if c in chats {
        SyncOne(s, SyncAll(Synced(s.db, s.shown), u, chats, rest), u, c, chats[c]);
      }
    }
  }

  // ---- Client steps -----------------------------------------------------------------------------------------------

  lemma NovelCovered(s: Sys, u: int, c: int, copy: ChatCopy)
    requires DbOk(s.db, s.now) && RowsCovered(s) && ShownCovered(s) && Novel(copy, s.db, u, c)
    ensures CopyCovered(s, u, c, copy)
  {
  }

  lemma CopySynced(s: Sys, s': Sys, u: int, c: int, copy: ChatCopy, copy': ChatCopy)
    requires SyncFrame(s.db, s'.db) && s'.now == s.now && s'.ever == s.ever && s'.missed == s.missed
    requires s.shown <= s'.shown && CopyCovered(s, u, c, copy) && copy'.readTs == copy.readTs
    requires copy'.allReadTs == copy.allReadTs || copy'.allReadTs == 0 || (c, copy'.allReadTs) in s'.shown
    ensures CopyCovered(s', u, c, copy')
  {
    forall r' | r' in s'.db.members && r'.user == u && r'.chat == c
      ensures Covered(s'.db, s'.now, s'.ever, s'.missed, r', copy'.readTs)
    {
      var r := SyncedRow(s.db, s'.db, r');
      assert Covered(s.db, s.now, s.ever, s.missed, r, copy.readTs);
    }
  }

  lemma ReadEvents(s: Sys, u: int, c: int, copy: ChatCopy, es: seq<Event>)
    requires ShownCovered(s) && c in s.db.chats && Distinct(copy.members) && |copy.members| <= MAX_MEMBERS
    requires forall e :: e in es ==> Fact(s.db, u, e)
    ensures var k := CopyEvents(copy, c, es);
      && k.readTs == copy.readTs
      && (k.allReadTs == copy.allReadTs || k.allReadTs == 0 || (c, k.allReadTs) in s.shown)
  {
    hide CopyEvents, ValueCovered;
    CopyEventsFrame(copy, c, es);
    var v := CopyEvents(copy, c, es).allReadTs;
    assert ReadUpTo(c, v) in es ==> Fact(s.db, u, ReadUpTo(c, v));
  }

  lemma ReadPoll(s: Sys, sid: int, s': Sys, es: seq<Event>)
    requires Base(s) && ReadOk(s) && PollMove(s, sid, s', es)
    requires SyncedOk(s, Synced(s'.db, s'.shown))
    ensures ReadOk(s')
  {
    assert RowsCovered(s') && ShownCovered(s') by {
      assert s'.(sessions := map[]) == s.(db := s'.db, shown := s'.shown, sessions := map[]);
    }
    hide Covered, ValueCovered, DbOk, SyncFrame, Fact, CopyEvents;
    forall k, c | Holds(s', k, c)
      ensures CopyCovered(s', s'.sessions[k].user, c, CopyOf(s', k, c))
    {
      var u := s'.sessions[k].user;
      if Holds(s, k, c) {
        assert CopyOk(s.db, u, c, CopyOf(s, k, c)) && CopyCovered(s, u, c, CopyOf(s, k, c));
        if k == sid {
          ReadEvents(s', u, c, CopyOf(s, k, c), es);
        }
        CopySynced(s, s', u, c, CopyOf(s, k, c), CopyOf(s', k, c));
      } else {
        NovelCovered(s', u, c, CopyOf(s', k, c));
      }
    }
  }

  lemma ReportsAreCovered(s: Sys, sid: int)
    requires Base(s) && ReadOk(s) && sid in s.sessions
    ensures ReportsCovered(s, s.sessions[sid].user, s.sessions[sid].replica.chats)
  {
    var se := s.sessions[sid];
    forall c | c in se.replica.chats
      ensures CopyOk(s.db, se.user, c, se.replica.chats[c]) && CopyCovered(s, se.user, c, se.replica.chats[c])
    {
      assert Holds(s, sid, c);
    }
  }

  lemma PollSynced(s: Sys, sid: int, order: seq<int>)
    requires Base(s) && ReadOk(s) && sid in s.sessions
    ensures SyncedOk(s, SyncedBy(s, sid, order))
  {
    ReportsAreCovered(s, sid);
    SyncAllCovered(s, s.sessions[sid].user, s.sessions[sid].replica.chats, order);
  }

  lemma ReadLogin(s: Sys, sid: int, u: int)
    requires Base(s) && ReadOk(s)
    ensures ReadOk(DoLogin(s, sid, u))
  {
    if UserValid(s.db, u) {
      LoginExact(s, u);
      var s' := DoLogin(s, sid, u);
      assert RowsCovered(s') && ShownCovered(s');
      forall k, c | Holds(s', k, c)
        ensures CopyCovered(s', s'.sessions[k].user, c, CopyOf(s', k, c))
      {
        if k == sid {
          NovelCovered(s', u, c, CopyOf(s', k, c));
        } else {
          assert Holds(s, k, c) && CopyCovered(s, s.sessions[k].user, c, CopyOf(s, k, c));
        }
      }
    }
  }

  /** Reading a chat reports the cursor, and everything visible below the cursor has been delivered. */
  lemma ReadShow(s: Sys, sid: int, c: int)
    requires Base(s) && Delivered(s) && ReadOk(s)
    ensures ReadOk(DoShow(s, sid, c))
  {
    if Holds(s, sid, c) {
      var s' := DoShow(s, sid, c);
      assert RowsCovered(s') && ShownCovered(s');
      forall k, d | Holds(s', k, d)
        ensures CopyCovered(s', s'.sessions[k].user, d, CopyOf(s', k, d))
      {
        var u := s.sessions[k].user;
        assert Holds(s, k, d);
        assert CopyCovered(s, u, d, CopyOf(s, k, d)) && CopyDelivered(s, u, d, CopyOf(s, k, d));
        if k == sid && d == c {
          forall r | r in s.db.members && r.user == u && r.chat == d
            ensures Covered(s.db, s.now, s.ever, s.missed, r, CopyOf(s, k, d).cursor)
          {
            DeliveredIsCovered(s, r, CopyOf(s, k, d));
          }
        }
      }
    }
  }

  lemma DeliveredIsCovered(s: Sys, r: MemberRow, copy: ChatCopy)
    requires r in s.db.members && CopyDelivered(s, r.user, r.chat, copy)
    ensures Covered(s.db, s.now, s.ever, s.missed, r, copy.cursor)
  {
  }

  /** A fetch touches neither the tables nor any read stamp. */
  lemma FetchKeepsStamps(s: Sys, sid: int, c: int)
    ensures var s' := DoFetch(s, sid, c);
      forall k, d :: Holds(s', k, d) ==> (
        && Holds(s, k, d)
        && CopyOf(s', k, d).readTs == CopyOf(s, k, d).readTs && CopyOf(s', k, d).allReadTs == CopyOf(s, k, d).allReadTs)
  {
    hide GetChatMessages, AddMessages;
  }

  lemma ReadFetch(s: Sys, sid: int, c: int)
    requires ReadOk(s)
    ensures ReadOk(DoFetch(s, sid, c))
  {
    FetchOthers(s, sid, c);
    FetchKeepsStamps(s, sid, c);
    hide DoFetch, NextStamp;
    var s' := DoFetch(s, sid, c);
    forall r | r in s'.db.members
      ensures Covered(s'.db, s'.now, s'.ever, s'.missed, r, r.read)
    {
      assert Covered(s.db, s.now, s.ever, s.missed, r, r.read);
    }
    forall k, d | Holds(s', k, d)
      ensures CopyCovered(s', s'.sessions[k].user, d, CopyOf(s', k, d))
    {
      assert CopyCovered(s, s.sessions[k].user, d, CopyOf(s, k, d));
    }
    forall p | p in s'.shown
      ensures ValueCovered(s', p.0, p.1)
    {
      ValueGrows(s, s', p.0, p.1);
    }
  }

  lemma ValueGrows(s: Sys, s': Sys, c: int, v: int)
    requires s'.db == s.db && s'.now == s.now && s.ever <= s'.ever && s.missed <= s'.missed && ValueCovered(s, c, v)
    ensures ValueCovered(s', c, v)
  {
    assert forall x :: AnyMissed(s.missed, c, x) ==> AnyMissed(s'.missed, c, x);
    hide AnyMissed, NextStamp;
  }

  // ---- Every run --------------------------------------------------------------------------------------------------

  lemma ReadPollStep(s: Sys, sid: int, order: seq<int>)
    requires Base(s) && ReadOk(s)
    ensures ReadOk(DoPoll(s, sid, order))
  {
    if PollAccepted(s, sid, order) {
      PollExact(s, sid, order);
      PollSynced(s, sid, order);
      ReadPoll(s, sid, DoPoll(s, sid, order), EventsOf(NoticeOf(s, sid, order)));
    }
  }

  lemma ReadStep(s: Sys, l: Label)
    requires Base(s) && Delivered(s) && ReadOk(s)
    ensures ReadOk(Step(s, l))
  {
    hide DoLogin, DoPoll, DoFetch, DoShow, DoCreate, DoLeave, DoSay;
    match l {
      case Login(sid, u) => ReadLogin(s, sid, u);
      case Logout(sid) =>
        var s' := Step(s, l);
        assert forall k, d :: Holds(s', k, d) ==> Holds(s, k, d) && CopyOf(s', k, d) == CopyOf(s, k, d);
      case Poll(sid, order) => ReadPollStep(s, sid, order);
      case Fetch(sid, c) => ReadFetch(s, sid, c);
      case Show(sid, c) => ReadShow(s, sid, c);
      case _ =>
        ServerMoves(s, l);
        ReadServer(s, Step(s, l));
    }
  }

  lemma {:induction false} ReadAlways(t0: int, ls: seq<Label>)
    requires 1 <= t0
    ensures ReadOk(Run(Init(t0), ls))
  {
    if ls != [] {
      BaseAlways(t0, ls[..|ls| - 1]);
      DeliveredAlways(t0, ls[..|ls| - 1]);
      ReadAlways(t0, ls[..|ls| - 1]);
      ReadStep(Run(Init(t0), ls[..|ls| - 1]), ls[|ls| - 1]);
    }
  }
}

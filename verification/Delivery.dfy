// Gap-free, exactly-once delivery and the message cache, in every run of the whole system.
module Delivery {
  import opened Common
  import opened Tables
  import opened Handlers
  import opened Window
  import opened Replica
  import opened TableInvariant
  import opened RoundLemmas
  import opened System
  import opened SessionInvariant
  import opened MessageLog

  // ---- The invariant of one copy ----------------------------------------------------------------------------------

  ghost predicate Rising(log: seq<Stored>) {
    forall i, j :: 0 <= i < j < |log| ==> log[i].ts < log[j].ts
  }

  /** What was delivered came from the chat's log, each message once and in stamp order, and the window is its tail. */
  ghost predicate LogOk(db: Db, u: int, c: int, copy: ChatCopy) {
    && Rising(copy.log)
    && (forall e :: e in copy.log ==> e.ts < copy.cursor)
    && (forall e :: e in copy.log ==> exists m :: m in db.messages && m.chat == c && Shows(e, u, m))
    && copy.box.items == TakeLast(MAX_MESSAGES, copy.log)
  }

  ghost predicate UnreadOk(copy: ChatCopy) {
    && copy.box.unread == CountAbove(copy.appended, copy.readTs)
    && copy.seen <= |copy.log|
    && (forall i :: 0 <= i < copy.seen ==> copy.log[i].ts <= copy.readTs)
    && (|copy.log| - copy.seen <= MAX_MESSAGES ==> copy.appended == copy.log[copy.seen..])
  }

  /** What was skipped lies below the cursor and was not delivered, and every stamp that the cursor has passed before
      the chat could give it to a message was skipped. */
  ghost predicate SkipsOk(db: Db, now: int, c: int, copy: ChatCopy) {
    && (forall t :: t in copy.skipped ==> t < copy.cursor)
    && (forall e :: e in copy.log ==> e.ts !in copy.skipped)
    && (forall t :: NextStamp(db, now, c) <= t < copy.cursor ==> t in copy.skipped)
  }

  ghost predicate NoGap(db: Db, r: MemberRow, copy: ChatCopy) {
    forall m :: m in db.messages && m.chat == r.chat && r.creation < m.ts < copy.cursor && m.ts !in copy.skipped
      ==> Has(copy.log, r.user, m)
  }

  /** Without a rejoin since the copy was made, the delivered messages are exactly the log from the join to the cursor,
      without the skipped stamps. */
  ghost predicate CacheOk(db: Db, r: MemberRow, copy: ChatCopy) {
    r.creation == copy.join ==>
      copy.log == LocalizeAll(r.user, Range(db.messages, r.chat, copy.join + 1, copy.cursor, copy.skipped))
  }

  ghost predicate RowDelivered(db: Db, r: MemberRow, copy: ChatCopy) {
    NoGap(db, r, copy) && CacheOk(db, r, copy)
  }

  ghost predicate CopyDelivered(s: Sys, u: int, c: int, copy: ChatCopy) {
    && LogOk(s.db, u, c, copy) && UnreadOk(copy) && SkipsOk(s.db, s.now, c, copy)
    && (forall e :: e in copy.log ==> (u, c, e.ts) in s.ever)
    && (forall t :: t in copy.skipped ==> (u, c, t) in s.missed)
    && (forall r :: r in s.db.members && r.user == u && r.chat == c ==> RowDelivered(s.db, r, copy))
  }

  ghost predicate Delivered(s: Sys) {
    forall sid, c :: Holds(s, sid, c) ==> CopyDelivered(s, s.sessions[sid].user, c, CopyOf(s, sid, c))
  }

  // ---- Server steps -----------------------------------------------------------------------------------------------

  lemma NextStampGrows(db: Db, now: int, db': Db, now': int, c: int)
    requires ServerStep(db, now, db', now')
    ensures NextStamp(db, now, c) <= NextStamp(db', now', c)
  {
  }

  lemma RowInPast(db: Db, now: int, r: MemberRow)
    requires DbOk(db, now) && r in db.members
    ensures 1 <= r.creation <= now
  {
  }

  /** A message that comes later is stamped above the cursor, or with a stamp that was skipped. */
  lemma OldMessage(db: Db, now: int, db': Db, now': int, c: int, copy: ChatCopy, m: MessageRow)
    requires ServerStep(db, now, db', now') && SkipsOk(db, now, c, copy)
    requires m in db'.messages && m.chat == c && m.ts < copy.cursor && m.ts !in copy.skipped
    ensures m in db.messages
  {
  }

  lemma CacheServer(db: Db, now: int, db': Db, now': int, r: MemberRow, r': MemberRow, copy: ChatCopy)
    requires ServerStep(db, now, db', now') && SkipsOk(db, now, r.chat, copy) && CacheOk(db, r, copy)
    requires r'.user == r.user && r'.chat == r.chat && (r'.creation == copy.join ==> r.creation == copy.join)
    ensures CacheOk(db', r', copy)
  {
    RangeStable(db.messages, db'.messages, r.chat, copy.join + 1, copy.cursor, copy.skipped);
    hide ServerStep, SkipsOk, Range, LocalizeAll;
  }

  lemma NoGapServer(db: Db, now: int, db': Db, now': int, r: MemberRow, r': MemberRow, copy: ChatCopy)
    requires ServerStep(db, now, db', now') && SkipsOk(db, now, r.chat, copy)
    requires r'.user == r.user && r'.chat == r.chat && r.creation <= r'.creation && NoGap(db, r, copy)
    ensures NoGap(db', r', copy)
  {
    forall m | m in db'.messages && m.chat == r.chat && m.ts < copy.cursor && m.ts !in copy.skipped
      ensures m in db.messages
    {
      OldMessage(db, now, db', now', r.chat, copy, m);
    }
    hide ServerStep, SkipsOk, Localize;
  }

  lemma RowDeliveredServer(db: Db, now: int, db': Db, now': int, r: MemberRow, r': MemberRow, copy: ChatCopy)
    requires DbOk(db, now) && ServerStep(db, now, db', now')
    requires r in db.members && RowStep(r, r', now) && SkipsOk(db, now, r.chat, copy)
    requires copy.join <= r.creation && RowDelivered(db, r, copy)
    ensures RowDelivered(db', r', copy)
  {
    RowInPast(db, now, r);
    hide DbOk, ServerStep, SkipsOk, NoGap, CacheOk;
    NoGapServer(db, now, db', now', r, r', copy);
    CacheServer(db, now, db', now', r, r', copy);
  }

  lemma DeliveredServer(s: Sys, s': Sys)
    requires Base(s) && Delivered(s) && ServerMove(s, s')
    ensures Delivered(s')
  {
    forall sid, c | Holds(s', sid, c)
      ensures CopyDelivered(s', s'.sessions[sid].user, c, CopyOf(s', sid, c))
    {
      var u, copy := s.sessions[sid].user, CopyOf(s, sid, c);
      assert Holds(s, sid, c);
      assert CopyOk(s.db, u, c, copy);
      assert LogOk(s'.db, u, c, copy) by {
        assert forall m :: m in s.db.messages ==> m in s'.db.messages;
      }
      NextStampGrows(s.db, s.now, s'.db, s'.now, c);
      hide NextStamp, DbOk;
      forall r' | r' in s'.db.members && r'.user == u && r'.chat == c
        ensures RowDelivered(s'.db, r', copy)
      {
        var r := RowOrigin(s.db, s.now, s'.db, s'.now, r');
        RowDeliveredServer(s.db, s.now, s'.db, s'.now, r.value, r', copy);
      }
    }
  }

  lemma DeliveredLabel(s: Sys, l: Label)
    requires Base(s) && Delivered(s) && IsServerLabel(l)
    ensures Base(Step(s, l)) && Delivered(Step(s, l))
  {
    ServerMoves(s, l);
    hide Delivered, Step;
    BaseServer(s, Step(s, l));
    DeliveredServer(s, Step(s, l));
  }

  // ---- Polls and logins -------------------------------------------------------------------------------------------

  lemma NovelDelivered(s: Sys, u: int, c: int, copy: ChatCopy)
    requires DbOk(s.db, s.now) && Novel(copy, s.db, u, c)
    ensures CopyDelivered(s, u, c, copy)
  {
  }

  lemma MessagesPositive(db: Db, now: int)
    requires DbOk(db, now)
    ensures forall m :: m in db.messages ==> 1 <= m.ts <= now
  {
  }

  lemma DeliveredPoll(s: Sys, sid: int, s': Sys, es: seq<Event>)
    requires Base(s) && Delivered(s) && PollMove(s, sid, s', es)
    ensures Delivered(s')
  {
    forall k, c | Holds(s', k, c)
      ensures CopyDelivered(s', s'.sessions[k].user, c, CopyOf(s', k, c))
    {
      var u := s'.sessions[k].user;
      if Holds(s, k, c) {
        assert CopyOk(s.db, u, c, CopyOf(s, k, c));
        CopyEventsFrame(CopyOf(s, k, c), c, es);
        DeliveredSynced(s, s', u, c, CopyOf(s, k, c), CopyOf(s', k, c));
      } else {
        NovelDelivered(s', u, c, CopyOf(s', k, c));
      }
    }
  }

  /** The fields that a round leaves alone. */
  ghost predicate SameMessages(copy: ChatCopy, copy': ChatCopy) {
    && copy'.readTs == copy.readTs && copy'.cursor == copy.cursor && copy'.box == copy.box && copy'.log == copy.log
    && copy'.skipped == copy.skipped && copy'.seen == copy.seen && copy'.appended == copy.appended
    && copy'.join == copy.join
  }

  lemma DeliveredSynced(s: Sys, s': Sys, u: int, c: int, copy: ChatCopy, copy': ChatCopy)
    requires SyncFrame(s.db, s'.db) && s'.now == s.now && s'.ever == s.ever && s'.missed == s.missed
    requires SameMessages(copy, copy') && CopyDelivered(s, u, c, copy)
    ensures CopyDelivered(s', u, c, copy')
  {
    forall r' | r' in s'.db.members && r'.user == u && r'.chat == c
      ensures RowDelivered(s'.db, r', copy')
    {
      hide LogOk, UnreadOk, SkipsOk, RowDelivered, SameMessages;
      var r := SyncedRow(s.db, s'.db, r');
      assert RowDelivered(s.db, r, copy);
      RowSynced(s.db, s'.db, r, r', copy, copy');
    }
    LogSynced(s.db, s'.db, s.now, u, c, copy, copy');
    hide LogOk, UnreadOk, SkipsOk, RowDelivered;
  }

  lemma RowSynced(db: Db, db': Db, r: MemberRow, r': MemberRow, copy: ChatCopy, copy': ChatCopy)
    requires db'.messages == db.messages && r' == r.(read := r'.read) && SameMessages(copy, copy')
    requires RowDelivered(db, r, copy)
    ensures RowDelivered(db', r', copy')
  {
    hide Range, LocalizeAll, Has;
  }

  lemma LogSynced(db: Db, db': Db, now: int, u: int, c: int, copy: ChatCopy, copy': ChatCopy)
    requires db'.messages == db.messages && SameMessages(copy, copy')
    requires LogOk(db, u, c, copy) && UnreadOk(copy) && SkipsOk(db, now, c, copy)
    ensures LogOk(db', u, c, copy') && UnreadOk(copy') && SkipsOk(db', now, c, copy')
  {
    assert NextStamp(db', now, c) == NextStamp(db, now, c);
    hide TakeLast, CountAbove, Rising, Shows, NextStamp;
  }

  lemma DeliveredLogin(s: Sys, sid: int, u: int)
    requires Base(s) && Delivered(s)
    ensures Delivered(DoLogin(s, sid, u))
  {
    if UserValid(s.db, u) {
      LoginExact(s, u);
      var s' := DoLogin(s, sid, u);
      forall k, c | Holds(s', k, c)
        ensures CopyDelivered(s', s'.sessions[k].user, c, CopyOf(s', k, c))
      {
        if k == sid {
          NovelDelivered(s', u, c, CopyOf(s', k, c));
        } else {
          assert Holds(s, k, c);
          assert CopyDelivered(s, s.sessions[k].user, c, CopyOf(s, k, c));
        }
      }
    }
  }

  // ---- Fetches ----------------------------------------------------------------------------------------------------

  lemma RisingTakeLast(n: nat, log: seq<Stored>)
    requires Rising(log)
    ensures DistinctStamps(TakeLast(n, log))
  {
  }

  /** A reply of newer messages in stamp order is taken whole: the failure branch of _recv_messages is not reached. */
  lemma ReceiveExact(copy: ChatCopy, u: int, list: MessageList)
    requires Rising(copy.log) && (forall e :: e in copy.log ==> e.ts < copy.cursor)
    requires copy.box.items == TakeLast(MAX_MESSAGES, copy.log)
    requires Ascending(list.rows) && forall m :: m in list.rows ==> copy.cursor <= m.ts
    ensures var batch := LocalizeAll(u, list.rows);
      && Rising(copy.log + batch)
      && Receive(copy, u, list) == copy.(
           box := Box(TakeLast(MAX_MESSAGES, copy.log + batch),
                      copy.box.unread + CountAbove(TakeLast(MAX_MESSAGES, batch), copy.readTs)),
           pending := 0, cursor := list.lastTimestamp, log := copy.log + batch,
           skipped := copy.skipped + Skips(copy.cursor, list),
           appended := copy.appended + TakeLast(MAX_MESSAGES, batch))
  {
    var batch := LocalizeAll(u, list.rows);
    var all := copy.log + batch;
    forall i, j | 0 <= i < j < |all|
      ensures all[i].ts < all[j].ts
    {
      if i < |copy.log| <= j {
        assert copy.log[i] in copy.log && list.rows[j - |copy.log|] in list.rows;
      }
    }
    TakeLastTwice(MAX_MESSAGES, copy.log, batch);
    RisingTakeLast(MAX_MESSAGES, all);
    RisingTakeLast(MAX_MESSAGES, copy.log);
    BatchExact(copy.box, MAX_MESSAGES, copy.readTs, batch);
  }

  lemma AppendedSince(log: seq<Stored>, batch: seq<Stored>, seen: nat, appended: seq<Stored>)
    requires seen <= |log|
    requires |log| - seen <= MAX_MESSAGES ==> appended == log[seen..]
    ensures |log + batch| - seen <= MAX_MESSAGES ==>
      appended + TakeLast(MAX_MESSAGES, batch) == (log + batch)[seen..]
  {
  }

  lemma UnreadReceive(copy: ChatCopy, batch: seq<Stored>, copy': ChatCopy)
    requires UnreadOk(copy) && copy'.seen == copy.seen && copy'.readTs == copy.readTs
    requires copy'.log == copy.log + batch && copy'.appended == copy.appended + TakeLast(MAX_MESSAGES, batch)
    requires copy'.box.unread == copy.box.unread + CountAbove(TakeLast(MAX_MESSAGES, batch), copy.readTs)
    ensures UnreadOk(copy')
  {
    AppendedSince(copy.log, batch, copy.seen, copy.appended);
    hide CountAbove, TakeLast;
    CountAboveConcat(copy.appended, TakeLast(MAX_MESSAGES, batch), copy.readTs);
    assert forall i :: 0 <= i < copy.seen ==> (copy.log + batch)[i] == copy.log[i];
  }

  /** The reply of a fetch, for the row that the member was admitted with. */
  ghost predicate IsReply(db: Db, now: int, r: MemberRow, cursor: int, list: MessageList) {
    && list.rows == Range(db.messages, r.chat, Max(cursor, r.creation + 1), now + 1, {})
    && list.lastTimestamp == LastStamp(list.rows, cursor) + 1
  }

  lemma LocalizeConcat(u: int, a: seq<MessageRow>, b: seq<MessageRow>)
    ensures LocalizeAll(u, a + b) == LocalizeAll(u, a) + LocalizeAll(u, b)
  {
  }

  lemma ReplyAscending(db: Db, now: int, r: MemberRow, cursor: int, list: MessageList)
    requires DbOk(db, now) && IsReply(db, now, r, cursor, list)
    ensures Ascending(list.rows) && forall m :: m in list.rows ==> cursor <= m.ts <= now && m.chat == r.chat
  {
    RangeAscending(db.messages, r.chat, Max(cursor, r.creation + 1), now + 1, {});
  }

  lemma ReplyEnd(db: Db, now: int, r: MemberRow, cursor: int, list: MessageList)
    requires DbOk(db, now) && IsReply(db, now, r, cursor, list) && list.rows != []
    ensures var last := list.rows[|list.rows| - 1];
      last in db.messages && last.chat == r.chat && last.ts <= now && list.lastTimestamp == last.ts + 1
  {
    ReplyAscending(db, now, r, cursor, list);
    assert list.rows[0] in list.rows && list.rows[|list.rows| - 1] in list.rows;
    LastStampIsLast(list.rows, cursor);
  }

  lemma ReplyPast(db: Db, now: int, r: MemberRow, cursor: int, list: MessageList)
    requires DbOk(db, now) && IsReply(db, now, r, cursor, list)
    ensures forall m :: m in db.messages && m.chat == r.chat && r.creation < m.ts ==> m.ts < list.lastTimestamp
  {
  }

  /** The next cursor lies past everything the member can see, and not past the stamps to come if the reply had
      messages. */
  lemma ReplyCursor(db: Db, now: int, r: MemberRow, cursor: int, list: MessageList)
    requires DbOk(db, now) && IsReply(db, now, r, cursor, list)
    ensures cursor < list.lastTimestamp
    ensures forall m :: m in db.messages && m.chat == r.chat && r.creation < m.ts ==> m.ts < list.lastTimestamp
    ensures list.rows != [] ==> list.lastTimestamp <= NextStamp(db, now, r.chat)
    ensures list.rows == [] ==> list.lastTimestamp == cursor + 1
  {
    ReplyPast(db, now, r, cursor, list);
    hide DbOk, Range;
    if list.rows != [] {
      ReplyEnd(db, now, r, cursor, list);
      if list.lastTimestamp == now + 1 {
        assert Stamped(db, r.chat, now);
      }
    }
  }

  /** Log up to the old cursor, then the reply: together the log up to the new cursor, nothing more being skipped. */
  lemma RangeReply(ms: seq<MessageRow>, c: int, lo: int, cursor: int, now: int, next: int, skip: set<int>,
                   skip': set<int>)
    requires ChatOrdered(ms, c) && cursor < next && skip <= skip' && forall t :: t in skip ==> t < cursor
    requires forall m :: m in ms && m.chat == c ==> m.ts <= now && (lo <= m.ts ==> m.ts < next)
    requires forall m :: m in ms && m.chat == c && lo <= m.ts && m.ts in skip' ==> m.ts in skip
    ensures Range(ms, c, lo, cursor, skip) + Range(ms, c, Max(cursor, lo), now + 1, {}) == Range(ms, c, lo, next, skip')
  {
    var mid := Max(cursor, lo);
    var hi := Max(mid, next);
    SameRange(ms, c, lo, cursor, skip, lo, mid, skip);
    SameRange(ms, c, mid, now + 1, {}, mid, hi, skip);
    SameRange(ms, c, lo, next, skip', lo, hi, skip);
    RangeSplit(ms, c, lo, mid, hi, skip);
  }

  ghost predicate Extends(copy: ChatCopy, u: int, list: MessageList, copy': ChatCopy) {
    && copy'.join == copy.join && copy'.cursor == list.lastTimestamp
    && copy'.log == copy.log + LocalizeAll(u, list.rows)
    && copy'.skipped == copy.skipped + Skips(copy.cursor, list)
  }

  lemma NoGapFetch(db: Db, now: int, r: MemberRow, copy: ChatCopy, list: MessageList, copy': ChatCopy)
    requires DbOk(db, now) && IsReply(db, now, r, copy.cursor, list)
    requires NoGap(db, r, copy) && Extends(copy, r.user, list, copy')
    ensures forall m :: m in db.messages && m.chat == r.chat && r.creation < m.ts && m.ts !in copy.skipped ==>
      Has(copy'.log, r.user, m)
  {
  }

  lemma CacheFetch(db: Db, r: MemberRow, copy: ChatCopy, list: MessageList, copy': ChatCopy)
    requires CacheOk(db, r, copy) && Extends(copy, r.user, list, copy')
    requires Range(db.messages, r.chat, r.creation + 1, copy.cursor, copy.skipped) + list.rows
          == Range(db.messages, r.chat, r.creation + 1, list.lastTimestamp, copy'.skipped)
    ensures CacheOk(db, r, copy')
  {
    hide Range, LocalizeAll;
    if r.creation == copy.join {
      LocalizeConcat(r.user, Range(db.messages, r.chat, r.creation + 1, copy.cursor, copy.skipped), list.rows);
    }
  }

  lemma FetchedRange(db: Db, now: int, r: MemberRow, copy: ChatCopy, list: MessageList)
    requires DbOk(db, now) && IsReply(db, now, r, copy.cursor, list) && SkipsOk(db, now, r.chat, copy)
    ensures Range(db.messages, r.chat, r.creation + 1, copy.cursor, copy.skipped) + list.rows
         == Range(db.messages, r.chat, r.creation + 1, list.lastTimestamp, copy.skipped + Skips(copy.cursor, list))
  {
    ReplyCursor(db, now, r, copy.cursor, list);
    MessagesPositive(db, now);
    OrderedMessages(db, now, r.chat);
    NothingSkipped(db, now, r, copy.cursor, list);
    hide DbOk, IsReply, Range, ChatOrdered, LastStamp, NextStamp;
    RangeReply(db.messages, r.chat, r.creation + 1, copy.cursor, now, list.lastTimestamp, copy.skipped,
               copy.skipped + Skips(copy.cursor, list));
    ReplyRows(db, now, r, copy.cursor, list);
  }

  /** The stamp that an empty reply skips is not on a message that the member can see by now. */
  lemma NothingSkipped(db: Db, now: int, r: MemberRow, cursor: int, list: MessageList)
    requires DbOk(db, now) && IsReply(db, now, r, cursor, list)
    ensures forall m :: m in db.messages && m.chat == r.chat && r.creation < m.ts ==> m.ts !in Skips(cursor, list)
  {
    forall m | m in db.messages && m.chat == r.chat && r.creation < m.ts && m.ts == cursor ensures list.rows != [] {
      assert m in list.rows;
    }
  }

  lemma OrderedMessages(db: Db, now: int, c: int)
    requires DbOk(db, now)
    ensures ChatOrdered(db.messages, c)
  {
  }

  lemma ReplyRows(db: Db, now: int, r: MemberRow, cursor: int, list: MessageList)
    requires IsReply(db, now, r, cursor, list)
    ensures list.rows == Range(db.messages, r.chat, Max(cursor, r.creation + 1), now + 1, {})
  {
  }

  lemma RowDeliveredFetch(db: Db, now: int, r: MemberRow, copy: ChatCopy, list: MessageList, copy': ChatCopy)
    requires DbOk(db, now) && IsReply(db, now, r, copy.cursor, list) && SkipsOk(db, now, r.chat, copy)
    requires Extends(copy, r.user, list, copy') && RowDelivered(db, r, copy)
    ensures RowDelivered(db, r, copy')
  {
    hide DbOk, Range, LocalizeAll, LastStamp, SkipsOk;
    NoGapFetch(db, now, r, copy, list, copy');
    FetchedRange(db, now, r, copy, list);
    CacheFetch(db, r, copy, list, copy');
  }

  lemma SkipsFetch(db: Db, now: int, r: MemberRow, copy: ChatCopy, list: MessageList, copy': ChatCopy)
    requires DbOk(db, now) && IsReply(db, now, r, copy.cursor, list) && SkipsOk(db, now, r.chat, copy)
    requires Extends(copy, r.user, list, copy') && forall e :: e in copy.log ==> e.ts < copy.cursor
    ensures SkipsOk(db, now, r.chat, copy')
  {
    ReplyCursor(db, now, r, copy.cursor, list);
    ReplyAscending(db, now, r, copy.cursor, list);
    hide DbOk, IsReply, NextStamp;
    var batch := LocalizeAll(r.user, list.rows);
    forall e | e in batch ensures copy.cursor <= e.ts && list.rows != [] {
      var i :| 0 <= i < |batch| && batch[i] == e;
      assert list.rows[i] in list.rows;
    }
  }

  /** What an accepted fetch returns, in terms of the caller's one membership row. */
  lemma FetchReply(s: Sys, sid: int, c: int) returns (r: MemberRow, list: MessageList)
    requires DbOk(s.db, s.now) && Holds(s, sid, c)
    requires GetChatMessages(s.db, s.sessions[sid].user, c, CopyOf(s, sid, c).cursor).Some?
    ensures r in s.db.members && r.user == s.sessions[sid].user && r.chat == c && r.rem == 0
    ensures GetChatMessages(s.db, r.user, c, CopyOf(s, sid, c).cursor) == Some(list)
    ensures IsReply(s.db, s.now, r, CopyOf(s, sid, c).cursor, list)
  {
    hide Range, LastStamp, Filter;
    var u, cursor := s.sessions[sid].user, CopyOf(s, sid, c).cursor;
    r :| r in s.db.members && r.user == u && r.chat == c && r.rem == 0;
    list := GetChatMessages(s.db, u, c, cursor).value;
    ReplyIsRange(s.db, s.now, r, cursor);
  }

  lemma DeliveredFetch(s: Sys, sid: int, c: int)
    requires Base(s) && Delivered(s)
    ensures Delivered(DoFetch(s, sid, c))
  {
    hide DbOk, RowDelivered, LogOk, UnreadOk, SkipsOk, Receive, LastStamp, Range;
    var s' := DoFetch(s, sid, c);
    if Holds(s, sid, c) && GetChatMessages(s.db, s.sessions[sid].user, c, CopyOf(s, sid, c).cursor).Some? {
      var u, copy := s.sessions[sid].user, CopyOf(s, sid, c);
      var r, list := FetchReply(s, sid, c);
      FetchedCopy(s, sid, c, r, list);
      forall k, d | Holds(s', k, d)
        ensures CopyDelivered(s', s'.sessions[k].user, d, CopyOf(s', k, d))
      {
        if k != sid || d != c {
          assert Holds(s, k, d);
          assert CopyDelivered(s, s.sessions[k].user, d, CopyOf(s, k, d));
        }
      }
    }
  }

  lemma ReceivedLog(s: Sys, sid: int, c: int, r: MemberRow, list: MessageList)
    requires DbOk(s.db, s.now) && Holds(s, sid, c) && r.user == s.sessions[sid].user && r.chat == c
    requires CopyDelivered(s, r.user, c, CopyOf(s, sid, c))
    requires GetChatMessages(s.db, r.user, c, CopyOf(s, sid, c).cursor) == Some(list)
    requires IsReply(s.db, s.now, r, CopyOf(s, sid, c).cursor, list)
    ensures forall e :: e in CopyOf(s, sid, c).log + LocalizeAll(r.user, list.rows) ==>
      && e.ts < list.lastTimestamp && (r.user, c, e.ts) in DoFetch(s, sid, c).ever
      && exists m :: m in s.db.messages && m.chat == c && Shows(e, r.user, m)
  {
    var u, copy, s' := r.user, CopyOf(s, sid, c), DoFetch(s, sid, c);
    var batch := LocalizeAll(u, list.rows);
    ReplyCursor(s.db, s.now, r, copy.cursor, list);
    hide DbOk, Range, UnreadOk, SkipsOk, RowDelivered, Receive;
    forall e | e in copy.log + batch
      ensures && e.ts < list.lastTimestamp && (u, c, e.ts) in s'.ever
              && exists m :: m in s.db.messages && m.chat == c && Shows(e, u, m)
    {
      if e !in copy.log {
        var i :| 0 <= i < |batch| && batch[i] == e;
        assert list.rows[i] in list.rows;
      }
    }
  }

  lemma ReceivedSkips(s: Sys, sid: int, c: int, list: MessageList)
    requires Holds(s, sid, c) && CopyDelivered(s, s.sessions[sid].user, c, CopyOf(s, sid, c))
    requires GetChatMessages(s.db, s.sessions[sid].user, c, CopyOf(s, sid, c).cursor) == Some(list)
    ensures forall t :: t in CopyOf(s, sid, c).skipped + Skips(CopyOf(s, sid, c).cursor, list) ==>
      (s.sessions[sid].user, c, t) in DoFetch(s, sid, c).missed
  {
    hide LogOk, UnreadOk, SkipsOk, RowDelivered, Receive, GetChatMessages;
  }

  lemma FetchedCopy(s: Sys, sid: int, c: int, r: MemberRow, list: MessageList)
    requires Base(s) && Holds(s, sid, c) && CopyDelivered(s, s.sessions[sid].user, c, CopyOf(s, sid, c))
    requires r in s.db.members && r.user == s.sessions[sid].user && r.chat == c
    requires GetChatMessages(s.db, r.user, c, CopyOf(s, sid, c).cursor) == Some(list)
    requires IsReply(s.db, s.now, r, CopyOf(s, sid, c).cursor, list)
    ensures CopyDelivered(DoFetch(s, sid, c), r.user, c, Receive(CopyOf(s, sid, c), r.user, list))
  {
    var u, copy, s' := r.user, CopyOf(s, sid, c), DoFetch(s, sid, c);
    ReplyCursor(s.db, s.now, r, copy.cursor, list);
    ReplyAscending(s.db, s.now, r, copy.cursor, list);
    ReceiveExact(copy, u, list);
    var copy' := Receive(copy, u, list);
    UnreadReceive(copy, LocalizeAll(u, list.rows), copy');
    ReceivedLog(s, sid, c, r, list);
    ReceivedSkips(s, sid, c, list);
    SkipsFetch(s.db, s.now, r, copy, list, copy');
    RowDeliveredFetch(s.db, s.now, r, copy, list, copy');
    forall q | q in s.db.members && q.user == u && q.chat == c
      ensures RowDelivered(s.db, q, copy')
    {
      OneRow(s.db, r, q);
    }
  }

  lemma UnreadCleared(copy: ChatCopy)
    requires UnreadOk(copy) && forall e :: e in copy.log ==> e.ts < copy.cursor
    ensures UnreadOk(ClearUnread(copy))
  {
    assert forall i :: 0 <= i < |copy.log| ==> copy.log[i] in copy.log;
  }

  /** Displaying a chat leaves alone what the other parts of the invariant speak of. */
  lemma ClearedDelivered(s: Sys, s': Sys, u: int, c: int, copy: ChatCopy)
    requires s' == s.(sessions := s'.sessions) && CopyDelivered(s, u, c, copy)
    ensures CopyDelivered(s', u, c, ClearUnread(copy))
  {
    UnreadCleared(copy);
    var copy' := ClearUnread(copy);
    assert copy' == copy.(readTs := copy'.readTs, box := copy'.box, seen := copy'.seen, appended := copy'.appended);
    assert copy'.box.items == copy.box.items;
    hide UnreadOk, ClearUnread, Range, LocalizeAll, TakeLast, NextStamp;
    SameRows(s.db, u, c, copy, copy');
    hide RowDelivered;
  }

  lemma SameRows(db: Db, u: int, c: int, copy: ChatCopy, copy': ChatCopy)
    requires copy'.log == copy.log && copy'.cursor == copy.cursor && copy'.skipped == copy.skipped
    requires copy'.join == copy.join
    ensures forall r :: RowDelivered(db, r, copy) ==> RowDelivered(db, r, copy')
  {
    hide Range, LocalizeAll, Localize;
  }

  lemma ShowFrame(s: Sys, sid: int, c: int)
    ensures var s' := DoShow(s, sid, c);
      && s' == s.(sessions := s'.sessions)
      && forall k, d :: Holds(s', k, d) ==> (
           && Holds(s, k, d) && s'.sessions[k].user == s.sessions[k].user
           && CopyOf(s', k, d) == if k == sid && d == c then ClearUnread(CopyOf(s, k, d)) else CopyOf(s, k, d))
  {
    hide ClearUnread;
  }

  lemma DeliveredShow(s: Sys, sid: int, c: int)
    requires Base(s) && Delivered(s)
    ensures Delivered(DoShow(s, sid, c))
  {
    ShowFrame(s, sid, c);
    hide Base, DoShow, ClearUnread, LogOk, UnreadOk, SkipsOk, RowDelivered;
    var s' := DoShow(s, sid, c);
    forall k, d | Holds(s', k, d)
      ensures CopyDelivered(s', s'.sessions[k].user, d, CopyOf(s', k, d))
    {
      assert CopyDelivered(s, s.sessions[k].user, d, CopyOf(s, k, d));
      if k == sid && d == c {
        ClearedDelivered(s, s', s.sessions[k].user, d, CopyOf(s, k, d));
      }
    }
  }

  // ---- Every run --------------------------------------------------------------------------------------------------

  lemma DeliveredPollStep(s: Sys, sid: int, order: seq<int>)
    requires Base(s) && Delivered(s)
    ensures Delivered(DoPoll(s, sid, order))
  {
    if PollAccepted(s, sid, order) {
      PollExact(s, sid, order);
      DeliveredPoll(s, sid, DoPoll(s, sid, order), EventsOf(NoticeOf(s, sid, order)));
    }
  }

  lemma DeliveredStep(s: Sys, l: Label)
    requires Base(s) && Delivered(s)
    ensures Delivered(Step(s, l))
  {
    hide DoLogin, DoPoll, DoFetch, DoShow, DoCreate, DoLeave, DoSay;
    match l {
      case Login(sid, u) => DeliveredLogin(s, sid, u);
      case Logout(sid) =>
        var s' := Step(s, l);
        assert forall k, d :: Holds(s', k, d) ==> Holds(s, k, d) && CopyOf(s', k, d) == CopyOf(s, k, d);
      case Poll(sid, order) => DeliveredPollStep(s, sid, order);
      case Fetch(sid, c) => DeliveredFetch(s, sid, c);
      case Show(sid, c) => DeliveredShow(s, sid, c);
      case _ =>
        ServerMoves(s, l);
        DeliveredServer(s, Step(s, l));
    }
  }

  lemma {:induction false} DeliveredAlways(t0: int, ls: seq<Label>)
    requires 1 <= t0
    ensures Delivered(Run(Init(t0), ls))
  {
    if ls != [] {
      BaseAlways(t0, ls[..|ls| - 1]);
      DeliveredAlways(t0, ls[..|ls| - 1]);
      DeliveredStep(Run(Init(t0), ls[..|ls| - 1]), ls[|ls| - 1]);
    }
  }
}

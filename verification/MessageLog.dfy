// The server's message log cut by stamps, and the reply of get_list_messages as such a cut.
module MessageLog {
  import opened Common
  import opened Tables
  import opened Handlers
  import opened TableInvariant

  /** The messages of the chat with lo <= stamp < hi and a stamp that is not skipped, in insertion order. */
  ghost function Range(ms: seq<MessageRow>, c: int, lo: int, hi: int, skip: set<int>): (out: seq<MessageRow>)
    ensures forall m :: m in out <==> m in ms && m.chat == c && lo <= m.ts < hi && m.ts !in skip
  {
    if ms == [] then []
    else
      var last := ms[|ms| - 1];
      assert ms == ms[..|ms| - 1] + [last];
      var out := Range(ms[..|ms| - 1], c, lo, hi, skip);
      if last.chat == c && lo <= last.ts < hi && last.ts !in skip then out + [last] else out
  }

  ghost predicate ChatOrdered(ms: seq<MessageRow>, c: int) {
    forall i, j :: 0 <= i < j < |ms| && ms[i].chat == c && ms[j].chat == c ==> ms[i].ts < ms[j].ts
  }

  ghost predicate Ascending(ms: seq<MessageRow>) {
    forall i, j :: 0 <= i < j < |ms| ==> ms[i].ts < ms[j].ts
  }

  lemma {:induction false} RangeAscending(ms: seq<MessageRow>, c: int, lo: int, hi: int, skip: set<int>)
    requires ChatOrdered(ms, c)
    ensures Ascending(Range(ms, c, lo, hi, skip))
  {
    if ms != [] {
      var n := |ms| - 1;
      RangeAscending(ms[..n], c, lo, hi, skip);
      forall m | m in Range(ms[..n], c, lo, hi, skip) && ms[n].chat == c
        ensures m.ts < ms[n].ts
      {
        var i :| 0 <= i < n && ms[..n][i] == m;
      }
    }
  }

  lemma {:induction false} RangeEmpty(ms: seq<MessageRow>, c: int, lo: int, hi: int, skip: set<int>)
    requires forall m :: m in ms && m.chat == c ==> m.ts < lo || hi <= m.ts || m.ts in skip
    ensures Range(ms, c, lo, hi, skip) == []
  {
    if ms != [] {
      assert ms == ms[..|ms| - 1] + [ms[|ms| - 1]];
      RangeEmpty(ms[..|ms| - 1], c, lo, hi, skip);
    }
  }

  lemma NoneAbove(ms: seq<MessageRow>, c: int, lo: int, hi: int, skip: set<int>)
    requires ChatOrdered(ms, c) && ms != [] && ms[|ms| - 1].chat == c && ms[|ms| - 1].ts < lo
    ensures Range(ms[..|ms| - 1], c, lo, hi, skip) == []
  {
    var n := |ms| - 1;
    forall m | m in ms[..n] && m.chat == c ensures m.ts < lo {
      var i :| 0 <= i < n && ms[..n][i] == m;
    }
    RangeEmpty(ms[..n], c, lo, hi, skip);
  }

  /** The log up to `hi` is the log up to `mid` followed by the rest. */
  lemma {:induction false} RangeSplit(ms: seq<MessageRow>, c: int, lo: int, mid: int, hi: int, skip: set<int>)
    requires ChatOrdered(ms, c) && lo <= mid <= hi
    ensures Range(ms, c, lo, hi, skip) == Range(ms, c, lo, mid, skip) + Range(ms, c, mid, hi, skip)
  {
    if ms != [] {
      var n := |ms| - 1;
      var last := ms[n];
      var below, above := Range(ms[..n], c, lo, mid, skip), Range(ms[..n], c, mid, hi, skip);
      RangeSplit(ms[..n], c, lo, mid, hi, skip);
      if last.chat == c && lo <= last.ts < mid {
        NoneAbove(ms, c, mid, hi, skip);
        assert below + above + [last] == below + [last];
      } else if last.chat == c && mid <= last.ts < hi {
        assert below + above + [last] == below + (above + [last]);
      }
    }
  }

  /** Messages stamped at or after `hi`, or with a skipped stamp, do not change the log below `hi`. */
  lemma {:induction false} RangeStable(ms: seq<MessageRow>, ms': seq<MessageRow>, c: int, lo: int, hi: int,
                                       skip: set<int>)
    requires ms <= ms'
    requires forall i :: |ms| <= i < |ms'| && ms'[i].chat == c && lo <= ms'[i].ts < hi ==> ms'[i].ts in skip
    ensures Range(ms', c, lo, hi, skip) == Range(ms, c, lo, hi, skip)
    decreases |ms'|
  {
    if |ms| < |ms'| {
      RangeStable(ms, ms'[..|ms'| - 1], c, lo, hi, skip);
    } else {
      assert ms == ms';
    }
  }

  /** Two cuts are the same if they take the same messages. */
  lemma {:induction false} SameRange(ms: seq<MessageRow>, c: int, lo: int, hi: int, skip: set<int>, lo': int, hi': int,
                                     skip': set<int>)
    requires forall m :: m in ms && m.chat == c ==>
      (lo <= m.ts < hi && m.ts !in skip <==> lo' <= m.ts < hi' && m.ts !in skip')
    ensures Range(ms, c, lo, hi, skip) == Range(ms, c, lo', hi', skip')
  {
    if ms != [] {
      assert ms == ms[..|ms| - 1] + [ms[|ms| - 1]];
      SameRange(ms[..|ms| - 1], c, lo, hi, skip, lo', hi', skip');
    }
  }

  lemma {:induction false} FilterIsRange(ms: seq<MessageRow>, p: MessageRow -> bool, c: int, lo: int, hi: int)
    requires forall m :: m in ms ==> (p(m) <==> m.chat == c && lo <= m.ts < hi)
    ensures Filter(ms, p) == Range(ms, c, lo, hi, {})
  {
    if ms != [] {
      assert ms == ms[..|ms| - 1] + [ms[|ms| - 1]];
      FilterIsRange(ms[..|ms| - 1], p, c, lo, hi);
    }
  }

  /** What get_list_messages returns to a member: his part of the log, from the cursor to now. */
  lemma ReplyIsRange(db: Db, now: int, r: MemberRow, cursor: int)
    requires DbOk(db, now) && r in db.members
    ensures SelectMessages(db, r.user, r.chat, cursor)
         == Range(db.messages, r.chat, Max(cursor, r.creation + 1), now + 1, {})
  {
    forall m | m in db.messages && m.chat == r.chat
      ensures m.ts <= now && (VisibleTo(db, r.user, m) <==> r.creation < m.ts)
    {
      var i :| 0 <= i < |db.messages| && db.messages[i] == m;
      if VisibleTo(db, r.user, m) {
        var q :| q in db.members && q.user == r.user && q.chat == m.chat && m.ts > q.creation;
        OneRow(db, r, q);
      }
    }
    FilterIsRange(db.messages, MessageFilter(db, r.user, r.chat, cursor), r.chat, Max(cursor, r.creation + 1), now + 1);
  }

  /** The running maximum of the reply is the stamp of its last row. */
  lemma LastStampIsLast(rows: seq<MessageRow>, floor: int)
    requires Ascending(rows) && rows != [] && floor <= rows[0].ts
    ensures LastStamp(rows, floor) == rows[|rows| - 1].ts
  {
  }
}

// READ_TIME catches up: after one round of reports it is what the slowest member has read.
module ReadProgress {
  import opened Tables
  import opened Handlers
  import opened TableInvariant

  predicate IsActive(db: Db, c: int, r: MemberRow) {
    r in db.members && r.chat == c && r.rem == 0
  }

  /** Members report the stamp that the table already holds for them, one after the other. */
  function Reports(db: Db, c: int, order: seq<MemberRow>): Db {
    if order == [] then db
    else
      var last := order[|order| - 1];
      UpdateSync(Reports(db, c, order[..|order| - 1]), last.user, c, last.read)
  }

  ghost predicate Slowest(db: Db, c: int, r: MemberRow) {
    IsActive(db, c, r) && forall q :: IsActive(db, c, q) ==> r.read <= q.read
  }

  /** A repeated report changes no row, and sets READ_TIME exactly when the reporter is among the slowest. */
  lemma RepeatedReport(db: Db, now: int, c: int, r: MemberRow)
    requires DbOk(db, now) && IsActive(db, c, r) && c in db.chats
    ensures UpdateSync(db, r.user, c, r.read) ==
      if Slowest(db, c, r) then db.(chats := db.chats[c := db.chats[c].(readTime := r.read)]) else db
  {
    var db1 := SyncMember(db, r.user, c, r.read);
    forall i | 0 <= i < |db.members| ensures db1.members[i] == db.members[i] {
      if db.members[i].user == r.user && db.members[i].chat == c {
        OneRow(db, r, db.members[i]);
      }
    }
    assert db1.members == db.members;
  }

  lemma {:induction false} ReportsKeep(db: Db, now: int, c: int, order: seq<MemberRow>)
    requires DbOk(db, now) && c in db.chats && forall r :: r in order ==> IsActive(db, c, r)
    ensures var db' := Reports(db, c, order);
      && DbOk(db', now) && db'.members == db.members && c in db'.chats
      && ((exists r :: r in order && Slowest(db, c, r)) ==>
            exists r :: Slowest(db, c, r) && db'.chats[c].readTime == r.read)
  {
    if order != [] {
      var front, last := order[..|order| - 1], order[|order| - 1];
      assert order == front + [last] && last in order;
      ReportsKeep(db, now, c, front);
      var p := Reports(db, c, front);
      RepeatedReport(p, now, c, last);
      assert Slowest(p, c, last) <==> Slowest(db, c, last);
      UpdateSyncFrame(p, now, last.user, c, last.read);
    }
  }

  lemma {:induction false} SomeSlowest(rows: seq<MemberRow>, c: int) returns (r: MemberRow)
    requires exists q :: q in rows && q.chat == c && q.rem == 0
    ensures r in rows && r.chat == c && r.rem == 0
    ensures forall q :: q in rows && q.chat == c && q.rem == 0 ==> r.read <= q.read
  {
    var front, last := rows[..|rows| - 1], rows[|rows| - 1];
    assert rows == front + [last];
    if exists q :: q in front && q.chat == c && q.rem == 0 {
      r := SomeSlowest(front, c);
      if last.chat == c && last.rem == 0 && last.read < r.read {
        r := last;
      }
    } else {
      r := last;
    }
  }

  /** If every active member re-reports once, in any order and with nothing else happening, READ_TIME ends at the
      minimum READ_MSG_TIME over the active members. */
  lemma ReadTimeReachesMinimum(db: Db, now: int, c: int, order: seq<MemberRow>)
    requires DbOk(db, now) && c in db.chats && StillUsers(db, c)
    requires forall r :: r in order <==> IsActive(db, c, r)
    ensures var t := ReadTimeOf(Reports(db, c, order), c);
      && (exists r :: IsActive(db, c, r) && r.read == t)
      && (forall r :: IsActive(db, c, r) ==> t <= r.read)
  {
    ReportsKeep(db, now, c, order);
    var r := SomeSlowest(db.members, c);
    assert Slowest(db, c, r) && r in order;
  }
}

// The client's member lists and admins follow the tables, one polling round at a time.
module Convergence {
  import opened Common
  import opened Tables
  import opened Handlers
  import opened Window
  import opened Replica
  import opened TableInvariant
  import opened RoundLemmas
  import opened System
  import opened SessionInvariant
  import opened AdminSafety

  /** The rounds have told the copy that x is a member, whether or not its list had room for him. */
  ghost predicate Knows(copy: ChatCopy, x: int) {
    x in copy.members || x in copy.refused
  }

  ghost predicate Apart(copy: ChatCopy) {
    forall x :: x in copy.refused ==> x !in copy.members
  }

  /** The copy knows of every row of the chat that last changed before the stamp. */
  ghost predicate Agrees(copy: ChatCopy, db: Db, c: int, before: int) {
    && Apart(copy)
    && (forall r :: r in db.members && r.chat == c && LastChange(r) < before ==> (Knows(copy, r.user) <==> r.rem == 0))
    && (forall x :: Knows(copy, x) ==> HasEntry(db, x, c))
  }

  ghost predicate KnowsAll(copy: ChatCopy, db: Db, c: int) {
    Apart(copy) && forall x :: Knows(copy, x) <==> InChat(db, x, c)
  }

  ghost predicate Mirrors(copy: ChatCopy, db: Db, c: int) {
    forall x :: x in copy.members <==> InChat(db, x, c)
  }

  /** The copy names the admin that was appointed before the stamp, or had no room for him. */
  ghost predicate AdminAgrees(copy: ChatCopy, db: Db, c: int, before: int) {
    ChatExist(db, c) && db.chats[c].adminTime < before ==>
      copy.admin == db.chats[c].admin || db.chats[c].admin in copy.refused
  }

  /** What a copy knows; the admin needs an admin that did not unregister. */
  ghost predicate CopyConverged(s: Sys, c: int, copy: ChatCopy, before: int) {
    && Agrees(copy, s.db, c, before)
    && (c !in s.orphaned ==> AdminAgrees(copy, s.db, c, before))
  }

  ghost predicate Converged(s: Sys) {
    forall sid, c :: Holds(s, sid, c) ==> CopyConverged(s, c, CopyOf(s, sid, c), s.sessions[sid].replica.lastNotif)
  }

  // ---- One round on a held chat -----------------------------------------------------------------------------------

  /** The users whose join the poll reports for the chat. */
  ghost function JoinedSince(db: Db, c: int, t: int): set<int> {
    set r | r in db.members && r.chat == c && r.creation >= t && r.rem == 0 :: r.user
  }

  ghost function AddedUsers(c: int, es: seq<Event>): set<int> {
    set e | e in es && e.Added? && e.chat == c :: e.user
  }

  lemma {:induction false} CopyEventsConcat(copy: ChatCopy, c: int, a: seq<Event>, b: seq<Event>)
    ensures CopyEvents(copy, c, a + b) == CopyEvents(CopyEvents(copy, c, a), c, b)
    decreases |b|
  {
    if b == [] {
      assert a + b == a;
    } else {
      assert (a + b)[..|a + b| - 1] == a + b[..|b| - 1];
      CopyEventsConcat(copy, c, a, b[..|b| - 1]);
    }
  }

  /** One more join: the list grows towards `all`, and misses somebody exactly when `all` is too large. */
  ghost predicate Filled(k: ChatCopy, base: set<int>, all: set<int>) {
    && Distinct(k.members) && |k.members| <= MAX_MEMBERS
    && base <= Elements(k.members) <= all
    && (|all| <= MAX_MEMBERS <==> Elements(k.members) == all)
  }

  lemma FillOne(p: ChatCopy, base: set<int>, all: set<int>, e: Event)
    requires e.Added? && Filled(p, base, all)
    ensures Filled(CopyEvent(p, e), base, all + {e.user})
  {
    var x, k := e.user, CopyEvent(p, e);
    if x in p.members {
      assert x in Elements(p.members);
      assert all + {x} == all;
    } else {
      assert x !in Elements(p.members);
      DistinctCardinality(p.members);
      DistinctCardinality(k.members);
      SubsetCardinality(all, all + {x});
      if |p.members| >= MAX_MEMBERS {
        SubsetCardinality(Elements(p.members) + {x}, all + {x});
      } else {
        assert Elements(k.members) == Elements(p.members) + {x};
        SubsetCardinality(Elements(k.members), all + {x});
      }
    }
  }

  lemma FillStart(copy: ChatCopy, c: int)
    requires Distinct(copy.members) && |copy.members| <= MAX_MEMBERS
    ensures Filled(copy, Elements(copy.members), Elements(copy.members) + AddedUsers(c, []))
  {
    assert Elements(copy.members) + AddedUsers(c, []) == Elements(copy.members);
    DistinctCardinality(copy.members);
  }

  lemma AddedUsersSnoc(c: int, front: seq<Event>, e: Event)
    requires e.Added?
    ensures AddedUsers(c, front + [e]) == AddedUsers(c, front) + if e.chat == c then {e.user} else {}
  {
  }

  /** The joins fill the list up to MAX_MEMBERS; nobody is left out exactly when everybody fits. */
  lemma {:induction false} AddedExact(copy: ChatCopy, c: int, es: seq<Event>)
    requires forall e :: e in es ==> e.Added?
    requires Distinct(copy.members) && |copy.members| <= MAX_MEMBERS
    ensures Filled(CopyEvents(copy, c, es), Elements(copy.members), Elements(copy.members) + AddedUsers(c, es))
  {
    hide Filled, AddedUsers;
    FillStart(copy, c);
    if es != [] {
      var front, e := es[..|es| - 1], es[|es| - 1];
      assert e in es && es == front + [e];
      AddedExact(copy, c, front);
      AddedUsersSnoc(c, front, e);
      var base, joined := Elements(copy.members), AddedUsers(c, front);
      if e.chat == c {
        FillOne(CopyEvents(copy, c, front), base, base + joined, e);
        assert base + (joined + {e.user}) == base + joined + {e.user};
      } else {
        assert joined + {} == joined;
      }
    }
  }

  /** Everybody whose join is reported is known afterwards. */
  lemma {:induction false} AddedKnown(copy: ChatCopy, c: int, es: seq<Event>)
    requires (forall e :: e in es ==> e.Added?) && Apart(copy)
    ensures var k := CopyEvents(copy, c, es);
      && k == copy.(members := k.members, refused := k.refused) && Apart(k)
      && forall x :: Knows(k, x) <==> Knows(copy, x) || Added(c, x) in es
  {
    if es != [] {
      assert es[|es| - 1] in es && es == es[..|es| - 1] + [es[|es| - 1]];
      AddedKnown(copy, c, es[..|es| - 1]);
    }
  }

  lemma {:induction false} RemovedExact(copy: ChatCopy, c: int, es: seq<Event>)
    requires forall e :: e in es ==> e.Removed?
    requires Distinct(copy.members)
    ensures var k := CopyEvents(copy, c, es);
      && k == copy.(members := k.members, refused := k.refused) && Distinct(k.members)
      && (forall x :: x in k.members <==> x in copy.members && Removed(c, x) !in es)
      && (forall x :: x in k.refused <==> x in copy.refused && Removed(c, x) !in es)
  {
    if es != [] {
      assert es[|es| - 1] in es && es == es[..|es| - 1] + [es[|es| - 1]];
      RemovedExact(copy, c, es[..|es| - 1]);
    }
  }

  /** All entries for the chat name the same admin; the last step succeeds exactly when that admin is in the list. */
  lemma {:induction false} AdminExact(copy: ChatCopy, c: int, es: seq<Event>, a: int)
    requires forall e :: e in es ==> e.NewAdmin? && (e.chat == c ==> e.user == a)
    ensures CopyEvents(copy, c, es) == if NewAdmin(c, a) in es && a in copy.members then copy.(admin := a) else copy
  {
    if es != [] {
      assert es == es[..|es| - 1] + [es[|es| - 1]];
      AdminExact(copy, c, es[..|es| - 1], a);
    }
  }

  lemma {:induction false} OtherExact(copy: ChatCopy, c: int, es: seq<Event>)
    requires forall e :: e in es ==> e.HasMessages? || e.ReadUpTo?
    ensures var k := CopyEvents(copy, c, es);
      k == copy.(pending := k.pending, allReadTs := k.allReadTs)
  {
    if es != [] {
      assert es[|es| - 1] in es && es == es[..|es| - 1] + [es[|es| - 1]];
      OtherExact(copy, c, es[..|es| - 1]);
    }
  }

  lemma RoundSplit(copy: ChatCopy, db: Db, now: int, u: int, c: int, t: int)
    ensures CopyEvents(copy, c, EventsOf(GetNotifications(db, now, u, t))) ==
      CopyEvents(CopyEvents(CopyEvents(CopyEvents(copy, c, AddedEvents(db, u, t)), c, RemovedEvents(db, u, t)), c,
                            AdminEvents(db, u, t)), c, MessageEvents(db, u, t) + ReadTimeEvents(db, u))
  {
    var n := GetNotifications(db, now, u, t);
    assert EventsOf(n) == n.added + n.removed + n.admins + (n.withMessages + n.readTimes);
    CopyEventsConcat(copy, c, n.added, n.removed);
    CopyEventsConcat(copy, c, n.added + n.removed, n.admins);
    CopyEventsConcat(copy, c, n.added + n.removed + n.admins, n.withMessages + n.readTimes);
  }

  /** The round seen from outside: the list grows to k1 and shrinks to its final value, then the admin follows. */
  ghost predicate Segments(copy: ChatCopy, k1: ChatCopy, k: ChatCopy, db: Db, u: int, c: int, t: int) {
    && Filled(k1, Elements(copy.members), Elements(copy.members) + JoinedSince(db, c, t))
    && Apart(k1) && (forall x :: Knows(k1, x) <==> Knows(copy, x) || x in JoinedSince(db, c, t))
    && (forall x :: x in k.members <==> x in k1.members && Removed(c, x) !in RemovedEvents(db, u, t))
    && (forall x :: x in k.refused <==> x in k1.refused && Removed(c, x) !in RemovedEvents(db, u, t))
    && k.admin == if NewAdmin(c, AdminOf(db, c)) in AdminEvents(db, u, t) && AdminOf(db, c) in k.members
                  then AdminOf(db, c) else copy.admin
  }

  lemma RoundSegments(copy: ChatCopy, db: Db, now: int, u: int, c: int, t: int) returns (k1: ChatCopy)
    requires HasEntry(db, u, c) && Distinct(copy.members) && |copy.members| <= MAX_MEMBERS && Apart(copy)
    ensures Segments(copy, k1, CopyEvents(copy, c, EventsOf(GetNotifications(db, now, u, t))), db, u, c, t)
  {
    RoundSplit(copy, db, now, u, c, t);
    hide GetNotifications, EventsOf, CopyEvents, AddedEvents, RemovedEvents, AdminEvents, MessageEvents, ReadTimeEvents;
    k1 := JoinSegment(copy, db, u, c, t);
    hide Filled, Knows, Apart, JoinedSince, HasEntry, AdminOf, Elements;
    var k2 := LeaveSegment(k1, db, u, c, t);
    AdminSegment(k2, db, u, c, t);
  }

  lemma LeaveSegment(k1: ChatCopy, db: Db, u: int, c: int, t: int) returns (k2: ChatCopy)
    requires Distinct(k1.members)
    ensures k2 == CopyEvents(k1, c, RemovedEvents(db, u, t)) && k2.admin == k1.admin
    ensures forall x :: x in k2.members <==> x in k1.members && Removed(c, x) !in RemovedEvents(db, u, t)
    ensures forall x :: x in k2.refused <==> x in k1.refused && Removed(c, x) !in RemovedEvents(db, u, t)
  {
    RemovedExact(k1, c, RemovedEvents(db, u, t));
    k2 := CopyEvents(k1, c, RemovedEvents(db, u, t));
  }

  lemma AdminSegment(k2: ChatCopy, db: Db, u: int, c: int, t: int)
    ensures var k3 := CopyEvents(k2, c, AdminEvents(db, u, t));
      var k := CopyEvents(k3, c, MessageEvents(db, u, t) + ReadTimeEvents(db, u));
      && k.members == k2.members && k.refused == k2.refused
      && k.admin == if NewAdmin(c, AdminOf(db, c)) in AdminEvents(db, u, t) && AdminOf(db, c) in k2.members
                    then AdminOf(db, c) else k2.admin
  {
    AdminExact(k2, c, AdminEvents(db, u, t), AdminOf(db, c));
    OtherExact(CopyEvents(k2, c, AdminEvents(db, u, t)), c, MessageEvents(db, u, t) + ReadTimeEvents(db, u));
    hide CopyEvents;
  }

  lemma JoinSegment(copy: ChatCopy, db: Db, u: int, c: int, t: int) returns (k1: ChatCopy)
    requires HasEntry(db, u, c) && Distinct(copy.members) && |copy.members| <= MAX_MEMBERS && Apart(copy)
    ensures k1 == CopyEvents(copy, c, AddedEvents(db, u, t)) == copy.(members := k1.members, refused := k1.refused)
    ensures Filled(k1, Elements(copy.members), Elements(copy.members) + JoinedSince(db, c, t)) && Distinct(k1.members)
    ensures Apart(k1) && forall x :: Knows(k1, x) <==> Knows(copy, x) || x in JoinedSince(db, c, t)
  {
    AddedExact(copy, c, AddedEvents(db, u, t));
    AddedKnown(copy, c, AddedEvents(db, u, t));
    JoinsReported(db, u, c, t);
    k1 := CopyEvents(copy, c, AddedEvents(db, u, t));
    hide Apart, Knows, CopyEvents, JoinedSince;
  }

  lemma JoinsReported(db: Db, u: int, c: int, t: int)
    requires HasEntry(db, u, c)
    ensures AddedUsers(c, AddedEvents(db, u, t)) == JoinedSince(db, c, t)
    ensures forall x :: x in JoinedSince(db, c, t) <==> Added(c, x) in AddedEvents(db, u, t)
  {
  }

  /** One user: an active member was known or is reported as joined, and is not reported as removed; anybody else who
      is known then is reported as removed. */
  lemma MemberAfterRound(copy: ChatCopy, db: Db, now: int, u: int, c: int, t: int, x: int)
    requires DbOk(db, now) && 1 <= t && HasEntry(db, u, c) && Agrees(copy, db, c, t)
    ensures InChat(db, x, c) ==> Knows(copy, x) || x in JoinedSince(db, c, t)
    ensures InChat(db, x, c) ==> Removed(c, x) !in RemovedEvents(db, u, t)
    ensures x in JoinedSince(db, c, t) ==> InChat(db, x, c)
    ensures Knows(copy, x) && !InChat(db, x, c) ==> Removed(c, x) in RemovedEvents(db, u, t)
  {
    if HasEntry(db, x, c) {
      var r :| r in db.members && r.user == x && r.chat == c;
      forall q | q in db.members && q.user == x && q.chat == c ensures q == r {
        OneRow(db, r, q);
      }
      assert InChat(db, x, c) <==> r.rem == 0;
    }
  }

  lemma KnownAfterRound(copy: ChatCopy, k1: ChatCopy, k: ChatCopy, db: Db, now: int, u: int, c: int, t: int)
    requires DbOk(db, now) && 1 <= t && HasEntry(db, u, c) && Agrees(copy, db, c, t)
    requires Segments(copy, k1, k, db, u, c, t)
    ensures KnowsAll(k, db, c)
  {
    hide DbOk, Agrees, InChat, HasEntry, JoinedSince, RemovedEvents, AdminEvents, Filled, Elements, AdminOf;
    forall x ensures Knows(k, x) <==> InChat(db, x, c) {
      MemberAfterRound(copy, db, now, u, c, t, x);
      assert Knows(k1, x) <==> Knows(copy, x) || x in JoinedSince(db, c, t);
    }
  }

  /** After a round the copy knows exactly the active members, if it knew what had changed up to the poll before. */
  lemma RoundKnowsAll(copy: ChatCopy, db: Db, now: int, u: int, c: int, t: int)
    requires DbOk(db, now) && 1 <= t && HasEntry(db, u, c)
    requires Distinct(copy.members) && |copy.members| <= MAX_MEMBERS && Agrees(copy, db, c, t)
    ensures KnowsAll(CopyEvents(copy, c, EventsOf(GetNotifications(db, now, u, t))), db, c)
  {
    var k1 := RoundSegments(copy, db, now, u, c, t);
    hide CopyEvents, EventsOf, GetNotifications, DbOk, Segments, HasEntry, KnowsAll, Distinct;
    KnownAfterRound(copy, k1, CopyEvents(copy, c, EventsOf(GetNotifications(db, now, u, t))), db, now, u, c, t);
  }

  lemma MirrorsExactly(k: ChatCopy, db: Db, c: int)
    requires KnowsAll(k, db, c)
    ensures Mirrors(k, db, c) <==> k.refused == {}
  {
    forall x ensures InChat(db, x, c) <==> Knows(k, x) {
    }
    if Mirrors(k, db, c) {
      forall x ensures x !in k.refused {
        assert x in k.refused ==> Knows(k, x);
      }
    }
  }

  /** After a round the list is exactly the set of active members if and only if the old list and the reported joins fit
      into MAX_MEMBERS together, and every member that was refused before has left or is reported again. */
  lemma RoundConvergesExactly(copy: ChatCopy, db: Db, now: int, u: int, c: int, t: int)
    requires DbOk(db, now) && 1 <= t && HasEntry(db, u, c)
    requires Distinct(copy.members) && |copy.members| <= MAX_MEMBERS && Agrees(copy, db, c, t)
    ensures var k := CopyEvents(copy, c, EventsOf(GetNotifications(db, now, u, t)));
      && (Mirrors(k, db, c) <==>
            && |Elements(copy.members) + JoinedSince(db, c, t)| <= MAX_MEMBERS
            && forall x :: x in copy.refused && InChat(db, x, c) ==> x in JoinedSince(db, c, t))
      && (Mirrors(k, db, c) <==> k.refused == {})
  {
    var k1 := RoundSegments(copy, db, now, u, c, t);
    var k := CopyEvents(copy, c, EventsOf(GetNotifications(db, now, u, t)));
    RoundKnowsAll(copy, db, now, u, c, t);
    MirrorsExactly(k, db, c);
    forall x ensures x in JoinedSince(db, c, t) ==> InChat(db, x, c) {
      MemberAfterRound(copy, db, now, u, c, t, x);
    }
    hide CopyEvents, EventsOf, GetNotifications, RemovedEvents, JoinedSince, DbOk, InChat, HasEntry, KnowsAll;
    ListAfterRound(copy, k1, k, db, u, c, t);
  }

  lemma ListAfterRound(copy: ChatCopy, k1: ChatCopy, k: ChatCopy, db: Db, u: int, c: int, t: int)
    requires Segments(copy, k1, k, db, u, c, t) && KnowsAll(k, db, c) && Apart(copy)
    requires forall x :: x in JoinedSince(db, c, t) ==> InChat(db, x, c)
    ensures k.refused == {} <==>
      && |Elements(copy.members) + JoinedSince(db, c, t)| <= MAX_MEMBERS
      && forall x :: x in copy.refused && InChat(db, x, c) ==> x in JoinedSince(db, c, t)
  {
    hide RemovedEvents, JoinedSince, InChat, AdminEvents;
    var all := Elements(copy.members) + JoinedSince(db, c, t);
    assert forall x :: x in k1.members ==> x in all by {
      assert forall x :: x in k1.members <==> x in Elements(k1.members);
    }
    assert forall x :: InChat(db, x, c) <==> Knows(k, x);
    if x :| x in k.refused {
      assert Knows(k, x) && Knows(k1, x) && x !in k1.members;
      if |all| <= MAX_MEMBERS {
        assert x !in all && x in copy.refused && InChat(db, x, c);
      }
    } else {
      assert k.refused == {} by {
        forall x ensures x !in k.refused {
        }
      }
      forall x | x in all ensures x in Elements(k1.members) {
        if x in JoinedSince(db, c, t) {
          assert x in k.members;
        }
      }
      assert Elements(k1.members) == all;
    }
  }

  /** The adds-removes-admins order makes the admin change succeed, unless the list has no room for the admin: an admin
      who is an active member is known by then. */
  lemma RoundAdmin(copy: ChatCopy, db: Db, now: int, u: int, c: int, t: int)
    requires DbOk(db, now) && 1 <= t && HasEntry(db, u, c)
    requires Distinct(copy.members) && |copy.members| <= MAX_MEMBERS && Agrees(copy, db, c, t)
    requires AdminSafe(db, c) && AdminSince(db, c) && AdminAgrees(copy, db, c, t)
    ensures AdminAgrees(CopyEvents(copy, c, EventsOf(GetNotifications(db, now, u, t))), db, c, now + 1)
  {
    var k1 := RoundSegments(copy, db, now, u, c, t);
    var k := CopyEvents(copy, c, EventsOf(GetNotifications(db, now, u, t)));
    RoundKnowsAll(copy, db, now, u, c, t);
    hide CopyEvents, EventsOf, GetNotifications, RemovedEvents, DbOk;
    if ChatExist(db, c) {
      var a := db.chats[c].admin;
      assert Knows(k, a);
      if a in k.members && db.chats[c].adminTime < t {
        assert a in Elements(k1.members) && a !in JoinedSince(db, c, t);
        assert a in Elements(copy.members);
      }
    }
  }

  // ---- Every run --------------------------------------------------------------------------------------------------

  lemma KnowsAllAgrees(copy: ChatCopy, db: Db, c: int, before: int)
    requires RowsUnique(db) && KnowsAll(copy, db, c)
    ensures Agrees(copy, db, c, before)
  {
    forall r | r in db.members && r.chat == c ensures Knows(copy, r.user) <==> r.rem == 0 {
      if InChat(db, r.user, c) {
        var q :| q in db.members && q.user == r.user && q.chat == c && q.rem == 0;
        OneRow(db, r, q);
      }
    }
  }

  lemma NovelConverged(s: Sys, u: int, c: int, copy: ChatCopy, before: int)
    requires DbOk(s.db, s.now) && Novel(copy, s.db, u, c)
    ensures CopyConverged(s, c, copy, before)
  {
  }

  lemma AgreesServer(db: Db, now: int, db': Db, now': int, c: int, copy: ChatCopy, t: int)
    requires ServerStep(db, now, db', now') && t <= now && Agrees(copy, db, c, t)
    ensures Agrees(copy, db', c, t)
  {
  }

  lemma ConvergedServer(s: Sys, s': Sys)
    requires Base(s) && Converged(s) && ServerMove(s, s')
    ensures Converged(s')
  {
    forall sid, c | Holds(s', sid, c)
      ensures CopyConverged(s', c, CopyOf(s', sid, c), s'.sessions[sid].replica.lastNotif)
    {
      var copy, t := CopyOf(s, sid, c), s.sessions[sid].replica.lastNotif;
      assert SessionOk(s.db, s.now, s.sessions[sid]) && CopyOk(s.db, s.sessions[sid].user, c, copy);
      assert CopyConverged(s, c, copy, t);
      hide DbOk, Agrees, CopyOk;
      AgreesServer(s.db, s.now, s'.db, s'.now, c, copy, t);
      assert ChatStep(s.db.chats[c], s'.db.chats[c], s.now);
    }
  }

  lemma AgreesSynced(db: Db, db': Db, c: int, copy: ChatCopy, t: int)
    requires SyncFrame(db, db')
    ensures Agrees(copy, db, c, t) ==> Agrees(copy, db', c, t)
    ensures AdminAgrees(copy, db, c, t) ==> AdminAgrees(copy, db', c, t)
  {
  }

  lemma HeldConverged(s: Sys, s': Sys, u: int, c: int, copy: ChatCopy, t: int)
    requires SyncFrame(s.db, s'.db) && s'.orphaned == s.orphaned && s'.now == s.now && DbOk(s'.db, s.now)
    requires CopyOk(s.db, u, c, copy) && CopyConverged(s, c, copy, t) && AdminOk(s') && 1 <= t
    ensures CopyConverged(s', c, CopyEvents(copy, c, EventsOf(GetNotifications(s'.db, s.now, u, t))), s.now)
  {
    SyncedEntry(s.db, s'.db);
    var k := CopyEvents(copy, c, EventsOf(GetNotifications(s'.db, s.now, u, t)));
    AgreesSynced(s.db, s'.db, c, copy, t);
    RoundKnowsAll(copy, s'.db, s.now, u, c, t);
    hide CopyEvents, EventsOf, GetNotifications, Agrees, KnowsAll, AdminSafe, AdminSince;
    KnowsAllAgrees(k, s'.db, c, s.now);
    if c !in s.orphaned && c in s'.db.chats {
      RoundAdmin(copy, s'.db, s.now, u, c, t);
    }
  }

  lemma ConvergedPoll(s: Sys, sid: int, order: seq<int>)
    requires Base(s) && AdminOk(s) && Converged(s) && PollAccepted(s, sid, order)
    ensures Converged(DoPoll(s, sid, order))
  {
    var s' := DoPoll(s, sid, order);
    PollExact(s, sid, order);
    AdminPoll(s, sid, order);
    ConvergedPolled(s, sid, s', EventsOf(NoticeOf(s, sid, order)));
  }

  lemma ConvergedPolled(s: Sys, sid: int, s': Sys, es: seq<Event>)
    requires Base(s) && Converged(s) && AdminOk(s') && PollMove(s, sid, s', es)
    requires es == EventsOf(GetNotifications(s'.db, s.now, s.sessions[sid].user, s.sessions[sid].replica.lastNotif))
    ensures Converged(s')
  {
    hide GetNotifications, EventsOf, CopyEvents;
    forall k, c | Holds(s', k, c)
      ensures CopyConverged(s', c, CopyOf(s', k, c), s'.sessions[k].replica.lastNotif)
    {
      var u := s'.sessions[k].user;
      if !Holds(s, k, c) {
        NovelConverged(s', u, c, CopyOf(s', k, c), s.now);
      } else {
        var copy, t := CopyOf(s, k, c), s.sessions[k].replica.lastNotif;
        assert SessionOk(s.db, s.now, s.sessions[k]);
        assert CopyOk(s.db, u, c, copy) && CopyConverged(s, c, copy, t);
        if k == sid {
          HeldConverged(s, s', u, c, copy, t);
        } else {
          AgreesSynced(s.db, s'.db, c, copy, t);
        }
      }
    }
  }

  lemma ConvergedLogin(s: Sys, sid: int, u: int)
    requires Base(s) && Converged(s)
    ensures Converged(DoLogin(s, sid, u))
  {
    if UserValid(s.db, u) {
      LoginExact(s, u);
      var s' := DoLogin(s, sid, u);
      forall k, c | Holds(s', k, c)
        ensures CopyConverged(s', c, CopyOf(s', k, c), s'.sessions[k].replica.lastNotif)
      {
        if k == sid {
          NovelConverged(s', u, c, CopyOf(s', k, c), s.now);
        } else {
          assert Holds(s, k, c) && CopyConverged(s, c, CopyOf(s, k, c), s.sessions[k].replica.lastNotif);
        }
      }
    }
  }

  /** Fetching and displaying leave the tables, the member lists and the admins alone. */
  ghost predicate MessagesOnly(s: Sys, s': Sys) {
    && s'.db == s.db && s'.orphaned == s.orphaned
    && forall k, d :: Holds(s', k, d) ==> (
         && Holds(s, k, d) && s'.sessions[k].replica.lastNotif == s.sessions[k].replica.lastNotif
         && CopyOf(s', k, d).members == CopyOf(s, k, d).members && CopyOf(s', k, d).admin == CopyOf(s, k, d).admin
         && CopyOf(s', k, d).refused == CopyOf(s, k, d).refused)
  }

  lemma FetchShowMessages(s: Sys, sid: int, c: int)
    ensures MessagesOnly(s, DoFetch(s, sid, c)) && MessagesOnly(s, DoShow(s, sid, c))
  {
    hide SelectMessages, AddMessages, LocalizeAll, LastStamp;
  }

  lemma ConvergedMessages(s: Sys, s': Sys)
    requires Converged(s) && MessagesOnly(s, s')
    ensures Converged(s')
  {
  }

  lemma ConvergedStep(s: Sys, l: Label)
    requires Base(s) && AdminOk(s) && Converged(s)
    ensures Converged(Step(s, l))
  {
    hide DoLogin, DoPoll, DoFetch, DoShow, DoCreate, DoLeave, DoSay;
    match l {
      case Login(sid, u) => ConvergedLogin(s, sid, u);
      case Logout(sid) =>
        var s' := Step(s, l);
        assert forall k, d :: Holds(s', k, d) ==> Holds(s, k, d) && CopyOf(s', k, d) == CopyOf(s, k, d);
      case Poll(sid, order) =>
        if PollAccepted(s, sid, order) {
          ConvergedPoll(s, sid, order);
        } else {
          PollRefused(s, sid, order);
        }
      case Fetch(sid, c) =>
        FetchShowMessages(s, sid, c);
        ConvergedMessages(s, Step(s, l));
      case Show(sid, c) =>
        FetchShowMessages(s, sid, c);
        ConvergedMessages(s, Step(s, l));
      case _ =>
        ServerMoves(s, l);
        ConvergedServer(s, Step(s, l));
    }
  }

  lemma {:induction false} ConvergedAlways(t0: int, ls: seq<Label>)
    requires 1 <= t0
    ensures Converged(Run(Init(t0), ls))
  {
    if ls != [] {
      BaseAlways(t0, ls[..|ls| - 1]);
      AdminAlways(t0, ls[..|ls| - 1]);
      ConvergedAlways(t0, ls[..|ls| - 1]);
      ConvergedStep(Run(Init(t0), ls[..|ls| - 1]), ls[|ls| - 1]);
    }
  }
}

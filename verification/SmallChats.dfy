// A chat that never had more than MAX_MEMBERS different members is never short of room on any client.
module SmallChats {
  import opened Common
  import opened Tables
  import opened Handlers
  import opened Replica
  import opened TableInvariant
  import opened RoundLemmas
  import opened System
  import opened SessionInvariant
  import opened Convergence

  /** Everybody who is or was a member. */
  ghost function EverMembers(db: Db, c: int): (users: set<int>)
    ensures forall x :: x in users <==> HasEntry(db, x, c)
  {
    set r | r in db.members && r.chat == c :: r.user
  }

  ghost predicate Roomy(s: Sys) {
    forall sid, c :: Holds(s, sid, c) && |EverMembers(s.db, c)| <= MAX_MEMBERS ==> CopyOf(s, sid, c).refused == {}
  }

  lemma EverGrows(db: Db, db': Db, c: int)
    requires forall x :: HasEntry(db, x, c) ==> HasEntry(db', x, c)
    ensures |EverMembers(db, c)| <= |EverMembers(db', c)|
  {
    SubsetCardinality(EverMembers(db, c), EverMembers(db', c));
  }

  lemma RoomyServer(s: Sys, s': Sys)
    requires Base(s) && Roomy(s) && ServerMove(s, s')
    ensures Roomy(s')
  {
    forall sid, c | Holds(s', sid, c) && |EverMembers(s'.db, c)| <= MAX_MEMBERS
      ensures CopyOf(s', sid, c).refused == {}
    {
      forall x | HasEntry(s.db, x, c) ensures HasEntry(s'.db, x, c) {
        EntryKept(s.db, s.now, s'.db, s'.now, x, c);
      }
      EverGrows(s.db, s'.db, c);
      assert Holds(s, sid, c);
    }
  }

  /** The old list and the reported joins all have rows, so together they fit. */
  lemma FitsTogether(copy: ChatCopy, db: Db, c: int, t: int)
    requires forall x :: x in copy.members ==> HasEntry(db, x, c)
    ensures |Elements(copy.members) + JoinedSince(db, c, t)| <= |EverMembers(db, c)|
  {
    forall x | x in Elements(copy.members) + JoinedSince(db, c, t) ensures x in EverMembers(db, c) {
      if x in JoinedSince(db, c, t) {
        var r :| r in db.members && r.chat == c && r.user == x;
      }
    }
    SubsetCardinality(Elements(copy.members) + JoinedSince(db, c, t), EverMembers(db, c));
  }

  lemma RoomyHeld(s: Sys, sid: int, c: int, db': Db)
    requires Base(s) && Roomy(s) && Converged(s) && Holds(s, sid, c)
    requires DbOk(db', s.now) && SyncFrame(s.db, db') && |EverMembers(db', c)| <= MAX_MEMBERS
    ensures var se := s.sessions[sid];
      CopyEvents(CopyOf(s, sid, c), c, EventsOf(GetNotifications(db', s.now, se.user, se.replica.lastNotif))).refused
        == {}
  {
    var se, copy := s.sessions[sid], CopyOf(s, sid, c);
    SyncedEntry(s.db, db');
    assert EverMembers(db', c) == EverMembers(s.db, c);
    assert SessionOk(s.db, s.now, se) && CopyOk(s.db, se.user, c, copy);
    assert CopyConverged(s, c, copy, se.replica.lastNotif);
    AgreesSynced(s.db, db', c, copy, se.replica.lastNotif);
    FitsTogether(copy, db', c, se.replica.lastNotif);
    hide CopyEvents, EventsOf, GetNotifications, JoinedSince, EverMembers, DbOk, Agrees;
    RoundConvergesExactly(copy, db', s.now, se.user, c, se.replica.lastNotif);
  }

  lemma RoomyPoll(s: Sys, sid: int, order: seq<int>)
    requires Base(s) && Roomy(s) && Converged(s)
    ensures Roomy(DoPoll(s, sid, order))
  {
    var s' := DoPoll(s, sid, order);
    if PollAccepted(s, sid, order) {
      PollExact(s, sid, order);
      var es := EventsOf(NoticeOf(s, sid, order));
      assert NoticeOf(s, sid, order)
        == GetNotifications(s'.db, s.now, s.sessions[sid].user, s.sessions[sid].replica.lastNotif);
      hide DoPoll, NoticeOf, EventsOf, GetNotifications, CopyEvents;
      SyncedEntry(s.db, s'.db);
      forall k, c | Holds(s', k, c) && |EverMembers(s'.db, c)| <= MAX_MEMBERS
        ensures CopyOf(s', k, c).refused == {}
      {
        EverGrows(s.db, s'.db, c);
        if k == sid && Holds(s, k, c) {
          RoomyHeld(s, sid, c, s'.db);
        } else if k != sid {
          assert Holds(s, k, c);
        }
      }
    }
  }

  lemma RoomyMessages(s: Sys, s': Sys)
    requires Roomy(s) && MessagesOnly(s, s')
    ensures Roomy(s')
  {
  }

  lemma RoomyLogin(s: Sys, sid: int, u: int)
    requires Base(s) && Roomy(s)
    ensures Roomy(DoLogin(s, sid, u))
  {
    if UserValid(s.db, u) {
      LoginExact(s, u);
      var s' := DoLogin(s, sid, u);
      forall k, c | Holds(s', k, c) && |EverMembers(s'.db, c)| <= MAX_MEMBERS
        ensures CopyOf(s', k, c).refused == {}
      {
        if k != sid {
          assert Holds(s, k, c);
        }
      }
    }
  }

  lemma RoomyStep(s: Sys, l: Label)
    requires Base(s) && Roomy(s) && Converged(s)
    ensures Roomy(Step(s, l))
  {
    hide DoLogin, DoPoll, DoFetch, DoShow, DoCreate, DoLeave, DoSay;
    match l {
      case Login(sid, u) => RoomyLogin(s, sid, u);
      case Logout(sid) =>
        var s' := Step(s, l);
        assert forall k, d :: Holds(s', k, d) ==> Holds(s, k, d) && CopyOf(s', k, d) == CopyOf(s, k, d);
      case Poll(sid, order) => RoomyPoll(s, sid, order);
      case Fetch(sid, c) =>
        FetchShowMessages(s, sid, c);
        RoomyMessages(s, Step(s, l));
      case Show(sid, c) =>
        FetchShowMessages(s, sid, c);
        RoomyMessages(s, Step(s, l));
      case _ =>
        ServerMoves(s, l);
        RoomyServer(s, Step(s, l));
    }
  }

  lemma {:induction false} RoomyAlways(t0: int, ls: seq<Label>)
    requires 1 <= t0
    ensures Roomy(Run(Init(t0), ls))
  {
    if ls != [] {
      BaseAlways(t0, ls[..|ls| - 1]);
      ConvergedAlways(t0, ls[..|ls| - 1]);
      RoomyAlways(t0, ls[..|ls| - 1]);
      RoomyStep(Run(Init(t0), ls[..|ls| - 1]), ls[|ls| - 1]);
    }
  }
}

// The friends and friends_request tables over every run.
module Friendship {
  import opened Common
  import opened Tables
  import opened Handlers
  import opened Replica
  import opened System
  import opened SessionInvariant
  import opened RoundLemmas
  import opened TableInvariant
  import opened Pending
  import opened SessionLaws
  import opened Requests

  ghost predicate PairsUnique(rows: seq<FriendRow>) {
    forall i, j :: 0 <= i < j < |rows| && rows[i].id1 == rows[j].id1 ==> rows[i].id2 != rows[j].id2
  }

  ghost predicate NoSelfPairs(rows: seq<FriendRow>) {
    forall f :: f in rows ==> f.id1 != f.id2
  }

  /** Requests and friendships are of known users, nobody befriends himself, an ordered pair has at most one request and
      one friendship, and a pair that is befriended in this order has no open request in the same order. */
  ghost predicate FriendsOk(db: Db) {
    && NoSelfPairs(db.friends) && NoSelfPairs(db.requests)
    && PairsUnique(db.friends) && PairsUnique(db.requests)
    && (forall f, q :: f in db.friends && q in db.requests && f.id1 == q.id1 ==> f.id2 != q.id2)
    && (forall f :: f in db.friends ==> 0 <= f.creation && f.id1 in db.users && f.id2 in db.users)
    && (forall q :: q in db.requests ==> q.id1 in db.users && q.id2 in db.users)
  }

  lemma {:induction false} FilterUnique(rows: seq<FriendRow>, p: FriendRow -> bool)
    requires PairsUnique(rows)
    ensures PairsUnique(Filter(rows, p))
  {
    if rows != [] {
      var n := |rows| - 1;
      assert rows == rows[..n] + [rows[n]];
      FilterUnique(rows[..n], p);
      var out := Filter(rows[..n], p);
      forall i | 0 <= i < |out| && out[i].id1 == rows[n].id1 ensures out[i].id2 != rows[n].id2 {
        assert out[i] in out;
        var k :| 0 <= k < n && rows[..n][k] == out[i];
        assert rows[k] == out[i];
      }
    }
  }

  /** The same requests are open but for the given pair. */
  ghost predicate SameRequests(db: Db, db': Db, a: int, b: int) {
    forall x, y :: x != a || y != b ==> (Requested(db', x, y) <==> Requested(db, x, y))
  }

  /** The rows of all other requests stay. */
  ghost predicate OnlyClosed(db: Db, db': Db, a: int, b: int) {
    forall q :: q in db'.requests <==> q in db.requests && !(q.id1 == a && q.id2 == b)
  }

  ghost predicate SameFriends(db: Db, db': Db, a: int, b: int) {
    forall x, y :: (x != a || y != b) && (x != b || y != a) ==> (Friendly(db', x, y) <==> Friendly(db, x, y))
  }

  /** A request is refused exactly for a user that is not valid, for oneself, for a friend, and when it is open already;
      otherwise it is open then, and no other one changes. */
  lemma RequestOk(db: Db, now: int, login: int, name: int)
    requires FriendsOk(db) && -1 !in db.users
    ensures var o := SendFriendRequest(db, now, login, name);
      && FriendsOk(o.db) && o.db == db.(requests := o.db.requests) && SameRequests(db, o.db, login, name)
      && (o.ok ==> Requested(o.db, login, name) && o.db.requests == db.requests + [FriendRow(login, name, now)])
      && (o.ok <==> UserValid(db, login) && UserValid(db, name) && login != name
                    && !Friendly(db, login, name) && !Requested(db, login, name))
      && (!o.ok ==> o.db == db)
  {
    var o := SendFriendRequest(db, now, login, name);
    if o.ok {
      assert o.db.requests[|db.requests|] in o.db.requests;
    }
  }

  /** Declining closes the request of the pair and no other. */
  lemma DeclineOk(db: Db, login: int, name: int)
    requires FriendsOk(db) && -1 !in db.users
    ensures var o := DeclineRequest(db, login, name);
      && FriendsOk(o.db) && o.db.friends == db.friends && SameRequests(db, o.db, name, login)
      && o.db == db.(requests := o.db.requests)
      && (o.ok <==> UserValid(db, login) && UserValid(db, name) && Requested(db, name, login))
      && (o.ok ==> !Requested(o.db, name, login) && OnlyClosed(db, o.db, name, login)) && (!o.ok ==> o.db == db)
  {
    FilterUnique(db.requests, OtherRequests(name, login));
    FilterUnique(db.requests, OtherRequests(-1, login));
  }

  /** Accepting turns the request into a friendship: no pair is in both tables, and the friendship is new. */
  lemma AcceptOk(db: Db, now: int, login: int, name: int)
    requires FriendsOk(db) && -1 !in db.users && 0 <= now
    ensures var o := AcceptRequest(db, now, login, name);
      && FriendsOk(o.db) && SameRequests(db, o.db, name, login) && SameFriends(db, o.db, name, login)
      && (o.ok <==> UserValid(db, login) && UserValid(db, name) && Requested(db, name, login))
      && (o.ok ==>
            && Friendly(o.db, login, name) && !Requested(o.db, name, login) && OnlyClosed(db, o.db, name, login)
            && o.db == db.(friends := db.friends + [FriendRow(name, login, now)], requests := o.db.requests))
      && (!o.ok ==> o.db == db)
  {
    var o := AcceptRequest(db, now, login, name);
    if o.ok {
      var q :| q in db.requests && q.id1 == name && q.id2 == login;
      FilterUnique(db.requests, OtherRequests(name, login));
      forall f | f in db.friends && f.id1 == name ensures f.id2 != login {
        assert f.id1 == q.id1;
      }
      assert o.db.friends[|db.friends|] in o.db.friends && forall f :: f in db.friends ==> f in o.db.friends;
    }
  }

  lemma FriendsStep(s: Sys, l: Label)
    requires Base(s) && FriendsOk(s.db)
    ensures FriendsOk(Step(s, l).db)
  {
    hide DoLogin, DoPoll, DoFetch, DoShow, DoCreate, DoLeave, DoSay;
    match l {
      case Befriend(u, v) => RequestOk(s.db, s.now, u, v);
      case Accept(u, v) => AcceptOk(s.db, s.now, u, v);
      case Decline(u, v) => DeclineOk(s.db, u, v);
      case _ => OthersKeepFriends(s, l);
    }
  }

  lemma OthersKeepFriends(s: Sys, l: Label)
    requires Base(s) && !l.Befriend? && !l.Accept? && !l.Decline?
    ensures Step(s, l).db.friends == s.db.friends && Step(s, l).db.requests == s.db.requests
    ensures forall u :: u in s.db.users ==> u in Step(s, l).db.users
  {
    hide Filter, Round, GetNotifications, DoPoll;
    if l.Poll? && PollAccepted(s, l.sid, l.order) {
      PollExact(s, l.sid, l.order);
    } else if l.Poll? {
      PollRefused(s, l.sid, l.order);
    }
  }

  lemma {:induction false} FriendsAlways(t0: int, ls: seq<Label>)
    requires 1 <= t0
    ensures FriendsOk(Run(Init(t0), ls).db)
  {
    if ls != [] {
      BaseAlways(t0, ls[..|ls| - 1]);
      FriendsAlways(t0, ls[..|ls| - 1]);
      FriendsStep(Run(Init(t0), ls[..|ls| - 1]), ls[|ls| - 1]);
    }
  }

  /** In every run the friend list of a user, taken from the beginning, is exactly the set of valid users he is
      befriended with, and it is symmetric among valid users, even when crossed requests left two rows. */
  lemma FriendListExact(t0: int, ls: seq<Label>, u: int, v: int)
    requires 1 <= t0
    ensures var db := Run(Init(t0), ls).db;
      && (v in SelectFriends(db, u, 0) <==> UserValid(db, v) && Friendly(db, u, v))
      && (UserValid(db, u) && UserValid(db, v) ==> (v in SelectFriends(db, u, 0) <==> u in SelectFriends(db, v, 0)))
  {
    FriendsAlways(t0, ls);
    FriendListOf(Run(Init(t0), ls).db, u, v);
    FriendListOf(Run(Init(t0), ls).db, v, u);
  }

  lemma FriendListOf(db: Db, u: int, v: int)
    requires FriendsOk(db)
    ensures v in SelectFriends(db, u, 0) <==> UserValid(db, v) && Friendly(db, u, v)
  {
  }

  // ---- The friend lists of the clients ----------------------------------------------------------------------------

  predicate IsPair(f: FriendRow, u: int, v: int) {
    (f.id1 == u && f.id2 == v) || (f.id1 == v && f.id2 == u)
  }

  /** Friends only, each once; and all valid ones befriended before the stamp, while there is room. */
  ghost predicate ListOk(db: Db, u: int, list: seq<int>, before: int) {
    && Distinct(list) && |list| <= MAX_FRIENDS
    && (forall v :: v in list ==> Friendly(db, u, v))
    && forall f, v :: f in db.friends && IsPair(f, u, v) && f.creation < before && UserValid(db, v) ==>
         v in list || |list| == MAX_FRIENDS
  }

  ghost predicate ListsOk(s: Sys) {
    forall sid :: sid in s.sessions ==>
      ListOk(s.db, s.sessions[sid].user, s.sessions[sid].replica.friends, s.sessions[sid].replica.lastNotif)
  }

  /** The service makes friends from now on, and nobody who was known becomes valid. */
  ghost predicate MoreFriends(db: Db, db': Db, now: int) {
    && db.friends <= db'.friends
    && (forall i :: |db.friends| <= i < |db'.friends| ==> db'.friends[i].creation >= now)
    && (forall v :: v in db.users && UserValid(db', v) ==> UserValid(db, v))
  }

  lemma FriendsGrow(s: Sys, l: Label)
    requires Base(s) && IsServerLabel(l)
    ensures MoreFriends(s.db, Step(s, l).db, s.now)
  {
    hide Filter, FirstFree, FirstUser, GetNotifications;
  }

  lemma ListServer(db: Db, db': Db, now: int, u: int, list: seq<int>, t: int)
    requires FriendsOk(db) && MoreFriends(db, db', now) && t <= now && ListOk(db, u, list, t)
    ensures ListOk(db', u, list, t)
  {
    forall v | v in list ensures Friendly(db', u, v) {
      var f :| f in db.friends && IsPair(f, u, v);
      assert f in db'.friends;
    }
    forall f, v | f in db'.friends && IsPair(f, u, v) && f.creation < t && UserValid(db', v)
      ensures v in list || |list| == MAX_FRIENDS
    {
      var i :| 0 <= i < |db'.friends| && db'.friends[i] == f;
      assert i < |db.friends| && f == db.friends[i];
    }
  }

  lemma ListMerged(db: Db, u: int, before: seq<int>, list: seq<int>, t: int, now: int)
    requires FriendsOk(db) && ListOk(db, u, before, t) && Merged(before, SelectFriends(db, u, t), list)
    ensures ListOk(db, u, list, now)
  {
    forall v | v in list ensures Friendly(db, u, v) {
    }
    forall f, v | f in db.friends && IsPair(f, u, v) && UserValid(db, v)
      ensures v in list || |list| == MAX_FRIENDS
    {
      if f.creation >= t {
        assert v in SelectFriends(db, u, t);
      } else if v in before {
        assert v in list[..|before|];
      }
    }
  }

  lemma ListsPoll(s: Sys, sid: int, order: seq<int>)
    requires Base(s) && FriendsOk(s.db) && ListsOk(s) && PollAccepted(s, sid, order)
    ensures ListsOk(Step(s, Poll(sid, order)))
  {
    var s', u, r := Step(s, Poll(sid, order)), s.sessions[sid].user, s.sessions[sid].replica;
    PollLaw(s, sid, order);
    assert s'.db.friends == s.db.friends && s'.db.users == s.db.users;
    hide Step, ListOk, SyncedWith, Updated, Novel, MadeAt, Merged, SelectFriends;
    forall k | k in s'.sessions
      ensures ListOk(s'.db, s'.sessions[k].user, s'.sessions[k].replica.friends, s'.sessions[k].replica.lastNotif)
    {
      var se := s.sessions[k];
      SameList(s.db, s'.db, se.user, se.replica.friends, se.replica.lastNotif);
      if k == sid {
        ListMerged(s'.db, u, r.friends, s'.sessions[sid].replica.friends, r.lastNotif, s.now);
      }
    }
  }

  lemma SameList(db: Db, db': Db, u: int, list: seq<int>, t: int)
    requires ListOk(db, u, list, t) && db'.friends == db.friends && db'.users == db.users
    ensures ListOk(db', u, list, t)
  {
  }

  lemma ListsLogin(s: Sys, sid: int, u: int)
    requires Base(s) && FriendsOk(s.db) && ListsOk(s) && UserValid(s.db, u)
    ensures ListsOk(Step(s, Login(sid, u)))
  {
    LoginLaw(s, sid, u);
    assert ListOk(s.db, u, [], 0);
    hide Step, ListOk, Novel, MadeAt, Merged, SelectFriends, Blocked, IsChatCursor, FriendsOk;
    ListMerged(s.db, u, [], Step(s, Login(sid, u)).sessions[sid].replica.friends, 0, s.now);
  }

  lemma ListsStep(s: Sys, l: Label)
    requires Base(s) && FriendsOk(s.db) && ListsOk(s)
    ensures ListsOk(Step(s, l))
  {
    hide ListOk, DoLogin, DoPoll, Receive, ClearUnread, GetChatMessages, DoCreate, DoLeave, DoSay, Base, FriendsOk;
    match l {
      case Login(sid, u) =>
        if UserValid(s.db, u) {
          ListsLogin(s, sid, u);
        } else {
          assert Step(s, l) == s by { LoginRefused(s, sid, u); }
        }
      case Logout(_) =>
      case Poll(sid, order) =>
        if PollAccepted(s, sid, order) {
          ListsPoll(s, sid, order);
        } else {
          PollRefused(s, sid, order);
        }
      case Fetch(_, _) =>
      case Show(_, _) =>
      case _ => ListsServer(s, l);
    }
  }

  lemma LoginRefused(s: Sys, sid: int, u: int)
    requires !UserValid(s.db, u)
    ensures Step(s, Login(sid, u)) == s
  {
  }

  lemma ListsServer(s: Sys, l: Label)
    requires Base(s) && FriendsOk(s.db) && ListsOk(s) && IsServerLabel(l)
    ensures ListsOk(Step(s, l))
  {
    FriendsGrow(s, l);
    ServerMoves(s, l);
    hide Step, ListOk, MoreFriends, FriendsOk, ServerStep;
    forall sid | sid in s.sessions
      ensures ListOk(Step(s, l).db, s.sessions[sid].user, s.sessions[sid].replica.friends,
                     s.sessions[sid].replica.lastNotif)
    {
      var se := s.sessions[sid];
      assert SessionOk(s.db, s.now, se);
      ListServer(s.db, Step(s, l).db, s.now, se.user, se.replica.friends, se.replica.lastNotif);
    }
  }

  /** In every run the friend list of a client holds friends of its user only, each once, and every valid one that he
      was befriended with before its last poll, unless the list is full. */
  lemma {:induction false} FriendListsFollow(t0: int, ls: seq<Label>)
    requires 1 <= t0
    ensures ListsOk(Run(Init(t0), ls))
  {
    if ls != [] {
      BaseAlways(t0, ls[..|ls| - 1]);
      FriendsAlways(t0, ls[..|ls| - 1]);
      FriendListsFollow(t0, ls[..|ls| - 1]);
      ListsStep(Run(Init(t0), ls[..|ls| - 1]), ls[|ls| - 1]);
    }
  }

  /** A client asks for a new chat with a name of its friend list only, and so chats come to be among friends: a request
      that changes anything is one of a valid user, for a friend of his. If the friend is valid, the chat then is there,
      with the two as its members; and if he has unregistered since, with its creator alone. */
  lemma CreateAmongFriends(s: Sys, sid: int, name: int, d: string, id: int)
    requires Base(s) && ListsOk(s)
    ensures var s' := Step(s, Create(sid, name, d, id));
      && s' == s.(db := s'.db)
      && (s' != s <==> && sid in s.sessions && UserValid(s.db, s.sessions[sid].user)
                       && name in s.sessions[sid].replica.friends && id !in s.db.chats && 1 <= id)
      && (s' != s ==>
            && var u := s.sessions[sid].user;
            && Friendly(s.db, u, name) && name != u
            && ChatExist(s'.db, id) && IsAdmin(s'.db, u, id)
            && forall x, k :: InChat(s'.db, x, k) <==>
                 InChat(s.db, x, k) || (k == id && (x == u || (x == name && UserValid(s.db, name)))))
  {
    if sid in s.sessions {
      var se := s.sessions[sid];
      assert SessionOk(s.db, s.now, se) && ListOk(s.db, se.user, se.replica.friends, se.replica.lastNotif);
      CreateChatLaw(s.db, s.now, se.user, name, d, id);
      hide Base, CreateChat, ListOk, Friendly;
    }
  }
}

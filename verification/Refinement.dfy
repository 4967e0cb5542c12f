// The programs refine the state machine: what the classes of Server and Client compute is what System's steps say,
// so that the run theorems hold of them.
module Refinement {
  import opened Common
  import opened Tables
  import opened Handlers
  import opened Replica
  import opened System
  import opened RoundLemmas
  import opened SessionInvariant
  import opened TableInvariant
  import opened History
  import opened Pending
  import opened Guarantees
  import opened Server
  import opened Client
  import opened Peers

  /** The service, one client of it, and all the others stand in a state of the machine. */
  ghost predicate Represents(client: Messenger, peers: map<int, Session>, s: Sys, sid: int)
    reads client, client.service, client.service.db, client.friends, client.friends.list
  {
    && Serves(client.service, s) && peers == Others(s, sid)
    && sid in s.sessions && s.sessions[sid] == Session(client.user, client.Value())
  }

  /** What a client does leaves the others alone. */
  lemma OwnStep(s: Sys, l: Label, sid: int)
    requires !IsForeign(l, sid)
    ensures Others(Step(s, l), sid) == Others(s, sid)
  {
    hide LoadData, Receive, GetChatMessages, ClearUnread, Round, GetNotifications, SyncAll, CreateChat;
  }

  lemma IndexedKeys(chats: map<int, ChatCopy>, ids: seq<int>)
    requires Indexed(chats, ids)
    ensures Elements(ids) == chats.Keys
  {
    forall c | c in ids ensures c in chats {
      var k :| 0 <= k < |ids| && ids[k] == c;
    }
    assert forall c :: c in Elements(ids) <==> c in chats.Keys;
  }

  lemma {:induction false} PendingRefines(s: Sys, sid: int, todo: seq<int>)
    requires sid in s.sessions
    ensures var s' := FetchPending(s, sid, todo); var se := s.sessions[sid];
      s' == s.(sessions := s.sessions[sid := Session(se.user, RecvPending(se.replica, s.db, se.user, todo))],
               ever := s'.ever, missed := s'.missed)
  {
    var se := s.sessions[sid];
    assert s.sessions == s.sessions[sid := Session(se.user, se.replica)];
    if todo != [] {
      var n := |todo| - 1;
      PendingRefines(s, sid, todo[..n]);
      FetchRefines(FetchPending(s, sid, todo[..n]), sid, todo[n]);
    }
  }

  // ---- The client -------------------------------------------------------------------------------------------------

  /** psd_recv_all_data on a new client is a login. */
  method LogIn(client: Messenger, ghost peers: map<int, Session>, ghost s: Sys, ghost sid: int) returns (ok: bool)
    requires client.Valid() && client.service.Valid() && Serves(client.service, s) && peers == Others(s, sid)
    requires client.Value() == Replica(0, 0, [], map[])
    modifies client.Repr
    ensures client.Valid() && fresh(client.Repr - old(client.Repr))
    ensures ok <==> UserValid(s.db, client.user)
    ensures ok ==> Represents(client, peers, Step(s, Login(sid, client.user)), sid)
    ensures !ok ==> Step(s, Login(sid, client.user)) == s && client.Value() == old(client.Value())
  {
    client.Separate();
    hide Messenger.Valid, AllData, LoadData;
    ok := client.RecvAllData();
    OwnStep(s, Login(sid, client.user), sid);
    if ok {
      LoginRefines(s, sid, client.user);
    }
  }

  /** psd_recv_notifications is a poll over the chats in list order. */
  method PollNow(client: Messenger, ghost peers: map<int, Session>, ghost s: Sys, ghost sid: int)
    returns (ok: bool, ghost order: seq<int>)
    requires client.Valid() && client.service.Valid() && Represents(client, peers, s, sid)
    modifies client.Repr, client.service.db
    ensures client.Valid() && fresh(client.Repr - old(client.Repr)) && client.service.Valid()
    ensures ok <==> PollAccepted(s, sid, order)
    ensures ok <==> UserValid(s.db, client.user)
    ensures Represents(client, peers, Step(s, Poll(sid, order)), sid)
  {
    client.Separate();
    hide Messenger.Valid, Round, SyncList, GetNotifications, SyncAll, Step, PollAccepted, UserValid;
    order := client.ids;
    ok := client.RecvNotifications();
    OwnStep(s, Poll(sid, order), sid);
    IndexedKeys(s.sessions[sid].replica.chats, order);
    if ok {
      PollRefines(s, sid, order);
    } else {
      NoPoll(s, sid, order);
    }
  }

  lemma NoPoll(s: Sys, sid: int, order: seq<int>)
    requires sid in s.sessions && !UserValid(s.db, s.sessions[sid].user)
    ensures Step(s, Poll(sid, order)) == s && !PollAccepted(s, sid, order)
  {
  }

  /** psd_recv_all_pending_messages is a fetch of every flagged chat, in list order. */
  method FetchFlagged(client: Messenger, ghost peers: map<int, Session>, ghost s: Sys, ghost sid: int)
    returns (ghost todo: seq<int>)
    requires client.Valid() && client.service.Valid() && Represents(client, peers, s, sid)
    modifies client.Repr
    ensures client.Valid() && fresh(client.Repr - old(client.Repr))
    ensures Represents(client, peers, Run(s, PendingLabels(s, sid, todo)), sid)
    ensures forall c :: Holds(s, sid, c) ==> c in todo
  {
    client.Separate();
    hide Messenger.Valid, RecvPending, Run, PendingLabels, FetchPending;
    todo := client.ids;
    client.RecvAllPending();
    PendingRefines(s, sid, todo);
    PendingRun(s, sid, todo);
    assert Others(FetchPending(s, sid, todo), sid) == Others(s, sid);
  }

  /** Displaying a chat of the list. */
  method Display(client: Messenger, c: int, ghost peers: map<int, Session>, ghost s: Sys, ghost sid: int)
    requires client.Valid() && Represents(client, peers, s, sid)
    modifies client.Repr
    ensures client.Valid() && fresh(client.Repr - old(client.Repr))
    ensures Represents(client, peers, Step(s, Show(sid, c)), sid)
  {
    client.Separate();
    hide Messenger.Valid, ClearUnread;
    OwnStep(s, Show(sid, c), sid);
    var chat, k := client.FindChat(c);
    if chat != null {
      client.ShowHere(chat, k);
    }
  }

  /** psd_recv_messages on a chat of the list. */
  method FetchNow(client: Messenger, c: int, ghost peers: map<int, Session>, ghost s: Sys, ghost sid: int)
    requires client.Valid() && client.service.Valid() && Represents(client, peers, s, sid)
    modifies client.Repr
    ensures client.Valid() && fresh(client.Repr - old(client.Repr))
    ensures Represents(client, peers, Step(s, Fetch(sid, c)), sid)
  {
    client.Separate();
    hide Messenger.Valid, Recv;
    var chat, k := client.FindChat(c);
    FetchRefines(s, sid, c);
    OwnStep(s, Fetch(sid, c), sid);
    if chat == null {
      NotHeldRecv(client.Value(), client.service.State(), client.user, c);
    } else {
      var n := client.RecvMessagesHere(chat, k);
    }
    hide Step;
  }

  lemma NotHeldRecv(r: Replica, db: Db, u: int, c: int)
    requires c !in r.chats
    ensures Recv(r, db, u, c) == r
  {
  }

  /** psd_create_chat with a new chat id. */
  method NewChat(client: Messenger, member: int, description: string, id: int, ghost peers: map<int, Session>,
                 ghost s: Sys, ghost sid: int)
    returns (ok: bool)
    requires client.Valid() && client.service.Valid() && Represents(client, peers, s, sid)
    requires id !in client.service.State().chats && 1 <= id
    modifies client.service.db
    ensures client.Valid() && client.service.Valid() && client.Repr == old(client.Repr)
    ensures Represents(client, peers, Step(s, Create(sid, member, description, id)), sid)
  {
    client.Separate();
    hide Messenger.Valid, Handlers.CreateChat;
    ok := client.CreateChat(description, member, id);
    OwnStep(s, Create(sid, member, description, id), sid);
  }

  method ServeAll(service: Service, requests: seq<Label>, ghost t0: int, ghost sid: int)
    returns (peers: map<int, Session>)
    requires service.Valid() && Serves(service, Init(t0)) && forall l :: l in requests ==> IsForeign(l, sid)
    modifies service, service.db
    ensures service.Valid() && Serves(service, Run(Init(t0), requests))
    ensures peers == Others(Run(Init(t0), requests), sid)
  {
    peers := map[];
    assert requests[..0] == [] && Run(Init(t0), []) == Init(t0);
    hide Service.Valid, Serves, Step, IsForeign, Run;
    for i := 0 to |requests|
      invariant service.Valid() && Serves(service, Run(Init(t0), requests[..i]))
      invariant peers == Others(Run(Init(t0), requests[..i]), sid)
    {
      peers := Serve(service, peers, requests[i], Run(Init(t0), requests[..i]), sid);
      RunLast(Init(t0), requests[..i], requests[i]);
      assert requests[..i] + [requests[i]] == requests[..i + 1];
    }
    assert requests[..|requests|] == requests;
  }

  /** A new client logs in to a service that other clients use. */
  method Enter(service: Service, user: int, ghost peers: map<int, Session>, ghost s: Sys, ghost sid: int)
    returns (client: Messenger, ok: bool)
    requires service.Valid() && Serves(service, s) && peers == Others(s, sid)
    ensures client.Valid() && client.service == service && client.user == user && service.Valid()
    ensures fresh(client.Repr)
    ensures ok <==> UserValid(s.db, user)
    ensures ok ==> Represents(client, peers, Step(s, Login(sid, user)), sid)
  {
    client := new Messenger(user, service);
    client.Separate();
    hide Messenger.Valid, Step, Others, UserValid;
    ok := LogIn(client, peers, s, sid);
  }

  /** A service on the empty database that has answered any requests of any clients, and a new client that logs in to
      it. */
  method Start(t0: int, requests: seq<Label>, user: int, ghost sid: int)
    returns (client: Messenger, peers: map<int, Session>, ok: bool, ghost ls: seq<Label>)
    requires forall l :: l in requests ==> IsForeign(l, sid)
    ensures client.Valid() && client.service.Valid()
    ensures fresh(client.Repr) && fresh(client.service) && fresh(client.service.db)
    ensures ok <==> UserValid(Run(Init(t0), requests).db, user)
    ensures ls == requests + [Login(sid, user)] && (ok ==> Represents(client, peers, Run(Init(t0), ls), sid))
  {
    var service := new Service(t0);
    assert Serves(service, Init(t0));
    hide Run, Step, Init, Messenger.Valid, Others, UserValid, IsForeign, Service.Valid, Serves, Represents;
    peers := ServeAll(service, requests, t0, sid);
    client, ok := Enter(service, user, peers, Run(Init(t0), requests), sid);
    ls := requests + [Login(sid, user)];
    RunLast(Init(t0), requests, Login(sid, user));
  }

  // ---- The update loop --------------------------------------------------------------------------------------------

  /** What can happen between two turns of the loop: what the others do, time that passes, and what the user does. */
  datatype Action =
    | Elsewhere(step: Label)
    | ShowChat(chat: int)
    | FetchChat(chat: int)
    | MakeChat(member: int, description: string, id: int)

  predicate Proper(a: Action, sid: int) {
    a.Elsewhere? ==> IsForeign(a.step, sid)
  }

  method Act(client: Messenger, peers: map<int, Session>, a: Action, ghost s: Sys, ghost sid: int)
    returns (peers': map<int, Session>, ghost l: Label)
    requires client.Valid() && client.service.Valid() && Represents(client, peers, s, sid) && Proper(a, sid)
    modifies client.Repr, client.service, client.service.db
    ensures client.Valid() && fresh(client.Repr - old(client.Repr)) && client.service.Valid()
    ensures Represents(client, peers', Step(s, l), sid)
  {
    client.Separate();
    hide Messenger.Valid, Step;
    peers' := peers;
    match a {
      case Elsewhere(step) =>
        l := step;
        peers' := Serve(client.service, peers, step, s, sid);
      case ShowChat(c) =>
        l := Show(sid, c);
        Display(client, c, peers, s, sid);
      case FetchChat(c) =>
        l := Fetch(sid, c);
        FetchNow(client, c, peers, s, sid);
      case MakeChat(member, description, id) =>
        l := Create(sid, member, description, id);
        if id in client.service.State().chats || id < 1 {
          CreateRefused(s, sid, member, description, id);
        } else {
          var ok := NewChat(client, member, description, id, peers, s, sid);
        }
    }
  }

  lemma CreateRefused(s: Sys, sid: int, member: int, description: string, id: int)
    requires id in s.db.chats || id < 1
    ensures Step(s, Create(sid, member, description, id)) == s
  {
  }

  method ActAll(client: Messenger, peers: map<int, Session>, actions: seq<Action>, ghost t0: int,
                ghost ls: seq<Label>, ghost sid: int)
    returns (peers': map<int, Session>, ghost all: seq<Label>)
    requires client.Valid() && client.service.Valid() && Represents(client, peers, Run(Init(t0), ls), sid)
    requires forall a :: a in actions ==> Proper(a, sid)
    modifies client.Repr, client.service, client.service.db
    ensures client.Valid() && fresh(client.Repr - old(client.Repr)) && client.service.Valid()
    ensures ls <= all && Represents(client, peers', Run(Init(t0), all), sid)
  {
    hide Messenger.Valid, Run, Step;
    peers', all := peers, ls;
    for i := 0 to |actions|
      invariant client.Valid() && fresh(client.Repr - old(client.Repr)) && client.service.Valid()
      invariant ls <= all && Represents(client, peers', Run(Init(t0), all), sid)
    {
      ghost var l;
      peers', l := Act(client, peers', actions[i], Run(Init(t0), all), sid);
      RunLast(Init(t0), all, l);
      all := all + [l];
    }
  }

  /** A user that is not valid is in no chat. */
  lemma NobodyCatchesUp(t0: int, ls: seq<Label>, sid: int)
    requires 1 <= t0 && sid in Run(Init(t0), ls).sessions
    requires !UserValid(Run(Init(t0), ls).db, Run(Init(t0), ls).sessions[sid].user)
    ensures CaughtUp(t0, ls, sid)
  {
    BaseAlways(t0, ls);
    var s := Run(Init(t0), ls);
    forall r | r in s.db.members && r.rem == 0 ensures r.user != s.sessions[sid].user {
      ActiveValid(s.db, s.now, r);
    }
    hide Run, Base, UserValid, WasSkipped, Reported;
  }

  lemma ActiveValid(db: Db, now: int, r: MemberRow)
    requires DbOk(db, now) && r in db.members && r.rem == 0
    ensures UserValid(db, r.user)
  {
  }

  /** One turn of the loop, from any state that a run of the machine can reach: a poll and a pass over the chats. The
      client then has caught up. */
  method Turn(client: Messenger, ghost peers: map<int, Session>, ghost t0: int, ghost ls: seq<Label>, ghost sid: int)
    returns (ghost all: seq<Label>)
    requires client.Valid() && client.service.Valid() && Represents(client, peers, Run(Init(t0), ls), sid) && 1 <= t0
    modifies client.Repr, client.service.db
    ensures client.Valid() && fresh(client.Repr - old(client.Repr)) && client.service.Valid()
    ensures ls <= all && Represents(client, peers, Run(Init(t0), all), sid) && CaughtUp(t0, all, sid)
  {
    client.Separate();
    hide Messenger.Valid, Run, Step, PollAccepted, PendingLabels, UserValid, CaughtUp;
    ghost var s := Run(Init(t0), ls);
    var ok, order := PollNow(client, peers, s, sid);
    ghost var todo := FetchFlagged(client, peers, Step(s, Poll(sid, order)), sid);
    ghost var fetches := PendingLabels(Step(s, Poll(sid, order)), sid, todo);
    all := ls + ([Poll(sid, order)] + fetches);
    TurnOf(t0, ls, sid, order, todo, ok);
  }

  lemma TurnOf(t0: int, ls: seq<Label>, sid: int, order: seq<int>, todo: seq<int>, ok: bool)
    requires 1 <= t0 && sid in Run(Init(t0), ls).sessions
    requires var s := Run(Init(t0), ls);
      (ok <==> PollAccepted(s, sid, order)) && (ok <==> UserValid(s.db, s.sessions[sid].user))
    requires forall c :: Holds(Step(Run(Init(t0), ls), Poll(sid, order)), sid, c) ==> c in todo
    ensures var s1 := Step(Run(Init(t0), ls), Poll(sid, order));
      var all := ls + ([Poll(sid, order)] + PendingLabels(s1, sid, todo));
      Run(Init(t0), all) == Run(s1, PendingLabels(s1, sid, todo)) && CaughtUp(t0, all, sid)
  {
    var s := Run(Init(t0), ls);
    var s1 := Step(s, Poll(sid, order));
    assert s1 == DoPoll(s, sid, order);
    hide Run, Step, DoPoll, UserValid, PollAccepted, CaughtUp, PendingLabels, TurnLabels;
    TurnIs(t0, ls, sid, order, todo);
    if ok {
      PollThenFetchDelivers(t0, ls, sid, order, todo);
    } else {
      PollRefused(s, sid, order);
      StillNobody(s, sid, todo);
      NobodyCatchesUp(t0, ls + ([Poll(sid, order)] + PendingLabels(s1, sid, todo)), sid);
    }
  }

  lemma StillNobody(s: Sys, sid: int, todo: seq<int>)
    requires sid in s.sessions
    ensures var s' := Run(s, PendingLabels(s, sid, todo));
      s'.db == s.db && sid in s'.sessions && s'.sessions[sid].user == s.sessions[sid].user
  {
    hide Run, PendingLabels, FetchPending, RecvPending;
    PendingRun(s, sid, todo);
    PendingRefines(s, sid, todo);
  }

  lemma TurnIs(t0: int, ls: seq<Label>, sid: int, order: seq<int>, todo: seq<int>)
    ensures var s1 := DoPoll(Run(Init(t0), ls), sid, order);
      && TurnLabels(Run(Init(t0), ls), sid, order, todo) == [Poll(sid, order)] + PendingLabels(s1, sid, todo)
      && Run(Init(t0), ls + TurnLabels(Run(Init(t0), ls), sid, order, todo)) == Run(s1, PendingLabels(s1, sid, todo))
  {
    TurnRun(Run(Init(t0), ls), sid, order, todo);
    PendingRun(DoPoll(Run(Init(t0), ls), sid, order), sid, todo);
    hide Run, DoPoll, FetchPending, PendingLabels;
    RunConcat(Init(t0), ls, TurnLabels(Run(Init(t0), ls), sid, order, todo));
  }

  /** The run has been caught up with at each of these points. */
  ghost predicate CaughtUpAt(t0: int, sid: int, all: seq<Label>, turns: seq<seq<Label>>) {
    forall i :: 0 <= i < |turns| ==> turns[i] <= all && CaughtUp(t0, turns[i], sid)
  }

  lemma CaughtUpMore(t0: int, sid: int, all: seq<Label>, turns: seq<seq<Label>>, all': seq<Label>)
    requires CaughtUpAt(t0, sid, all, turns) && all <= all' && CaughtUp(t0, all', sid)
    ensures CaughtUpAt(t0, sid, all', turns + [all'])
  {
    hide CaughtUp;
  }

  method ActThenTurn(client: Messenger, peers: map<int, Session>, actions: seq<Action>, ghost t0: int,
                     ghost ls: seq<Label>, ghost sid: int)
    returns (peers': map<int, Session>, ghost all: seq<Label>)
    requires client.Valid() && client.service.Valid() && Represents(client, peers, Run(Init(t0), ls), sid) && 1 <= t0
    requires forall a :: a in actions ==> Proper(a, sid)
    modifies client.Repr, client.service, client.service.db
    ensures client.Valid() && fresh(client.Repr - old(client.Repr)) && client.service.Valid()
    ensures ls <= all && Represents(client, peers', Run(Init(t0), all), sid) && CaughtUp(t0, all, sid)
  {
    hide Messenger.Valid, Run, CaughtUp, Represents, Proper;
    peers', all := ActAll(client, peers, actions, t0, ls, sid);
    all := Turn(client, peers', t0, all, sid);
  }

  /** The update loop of the client's screen, with anything going on between its turns: whatever anybody else does, the
      polls and new chats of other clients included, and what the user does. What happens is a run of the state machine,
      and at the end of every turn, up to which the run is in `turns`, the client has caught up. */
  method UpdateLoop(client: Messenger, peers: map<int, Session>, script: seq<seq<Action>>, ghost t0: int,
                    ghost ls: seq<Label>, ghost sid: int)
    returns (peers': map<int, Session>, ghost all: seq<Label>, ghost turns: seq<seq<Label>>)
    requires client.Valid() && client.service.Valid() && Represents(client, peers, Run(Init(t0), ls), sid) && 1 <= t0
    requires forall i :: 0 <= i < |script| ==> forall a :: a in script[i] ==> Proper(a, sid)
    modifies client.Repr, client.service, client.service.db
    ensures client.Valid() && client.service.Valid()
    ensures ls <= all && Represents(client, peers', Run(Init(t0), all), sid)
    ensures |turns| == |script| && CaughtUpAt(t0, sid, all, turns)
  {
    peers', all, turns := peers, ls, [];
    assert CaughtUpAt(t0, sid, all, turns);
    hide Messenger.Valid, Run, CaughtUpAt, Represents, Proper, CaughtUp;
    for i := 0 to |script|
      invariant client.Valid() && fresh(client.Repr - old(client.Repr)) && client.service.Valid()
      invariant ls <= all && Represents(client, peers', Run(Init(t0), all), sid)
      invariant |turns| == i && CaughtUpAt(t0, sid, all, turns)
    {
      ghost var next;
      peers', next := ActThenTurn(client, peers', script[i], t0, all, sid);
      CaughtUpMore(t0, sid, all, turns, next);
      all, turns := next, turns + [next];
    }
  }
}

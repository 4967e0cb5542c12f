// The service in use by any number of other clients, whose memory is kept as values: all that happens in the system
// besides what one client does.
module Peers {
  import opened Common
  import opened Tables
  import opened Handlers
  import opened Replica
  import opened System
  import opened SessionInvariant
  import opened Server
  import opened Client

  /** The service's tables and clock, as they stand in a state of the machine. */
  ghost predicate Serves(service: Service, s: Sys)
    reads service, service.db
  {
    s.db == service.State() && s.now == service.clock
  }

  /** The sessions of the other clients. */
  function Others(s: Sys, sid: int): map<int, Session> {
    s.sessions - {sid}
  }

  ghost predicate Untouched(s: Sys, s': Sys, sid: int) {
    (sid in s'.sessions <==> sid in s.sessions) && (sid in s.sessions ==> s'.sessions[sid] == s.sessions[sid])
  }

  /** The steps in which the client at hand has no part. */
  predicate IsForeign(l: Label, sid: int) {
    match l
    case Create(k, _, _, _) => k != sid
    case Login(k, _) => k != sid
    case Logout(k) => k != sid
    case Poll(k, _) => k != sid
    case Fetch(k, _) => k != sid
    case Show(k, _) => k != sid
    case _ => true
  }

  // ---- What the steps of the machine say --------------------------------------------------------------------------

  lemma {:induction false} SyncIsSyncAll(y: Synced, u: int, chats: map<int, ChatCopy>, ids: seq<int>)
    requires forall k :: 0 <= k < |ids| ==> ids[k] in chats
    ensures SyncAll(y, u, chats, ids).db == SyncList(y.db, u, PairsOf(chats, ids))
  {
    if ids != [] {
      var front := ids[..|ids| - 1];
      SyncIsSyncAll(y, u, chats, front);
      assert PairsOf(chats, ids)[..|ids| - 1] == PairsOf(chats, front);
    }
  }

  /** A Poll step does to the tables what the sync loop does, and to the session what the round does. */
  lemma PollRefines(s: Sys, sid: int, ids: seq<int>)
    requires sid in s.sessions && UserValid(s.db, s.sessions[sid].user)
    requires Elements(ids) == s.sessions[sid].replica.chats.Keys
    ensures forall k :: 0 <= k < |ids| ==> ids[k] in s.sessions[sid].replica.chats
    ensures var u, r := s.sessions[sid].user, s.sessions[sid].replica;
      var db := SyncList(s.db, u, PairsOf(r.chats, ids));
      var r' := Round(r, db, u, GetNotifications(db, s.now, u, r.lastNotif));
      var s' := Step(s, Poll(sid, ids));
      && PollAccepted(s, sid, ids)
      && s' == s.(db := db, shown := s'.shown, sessions := s.sessions[sid := Session(u, r')])
  {
    var u, r := s.sessions[sid].user, s.sessions[sid].replica;
    forall k | 0 <= k < |ids| ensures ids[k] in r.chats {
      assert ids[k] in Elements(ids);
    }
    SyncIsSyncAll(Synced(s.db, s.shown), u, r.chats, ids);
  }

  /** Fetch steps do to the session what receiving messages does. */
  lemma FetchRefines(s: Sys, sid: int, c: int)
    requires sid in s.sessions
    ensures var s' := Step(s, Fetch(sid, c)); var se := s.sessions[sid];
      s' == s.(sessions := s.sessions[sid := Session(se.user, Recv(se.replica, s.db, se.user, c))],
               ever := s'.ever, missed := s'.missed)
  {
  }

  /** A Login step starts the session as psd_recv_all_data fills a new client. */
  lemma LoginRefines(s: Sys, sid: int, u: int)
    requires UserValid(s.db, u)
    ensures Step(s, Login(sid, u))
         == s.(sessions := s.sessions[sid := Session(u, AllData(Replica(0, 0, [], map[]), s.db, s.now, u))])
  {
  }

  lemma OthersMoved(s: Sys, s': Sys, sid: int, k: int, se: Session)
    requires k != sid && s'.sessions == s.sessions[k := se]
    ensures Others(s', sid) == Others(s, sid)[k := se] && Untouched(s, s', sid)
  {
  }

  // ---- Requests ---------------------------------------------------------------------------------------------------

  /** Every request that concerns no session is handled as the step of the machine says, and time passes as it does
      there. */
  method Answer(service: Service, l: Label, ghost s: Sys)
    requires IsServerLabel(l) && !l.Create? && service.Valid() && Serves(service, s)
    modifies service, service.db
    ensures service.Valid() && Serves(service, Step(s, l)) && Step(s, l).sessions == s.sessions
  {
    hide Handlers.Register, DelUserAllChats, Handlers.AddMember, Handlers.RemoveMember, Handlers.Quit;
    hide Handlers.SendMessage, Handlers.SendFriendRequest, Handlers.AcceptRequest, Handlers.DeclineRequest;
    var ok;
    match l {
      case Tick(n) => service.Sleep(n);
      case Join(u) => ok := service.UserRegister(u);
      case Leave(u) => ok := service.UserUnregister(u);
      case Befriend(u, v) => ok := service.SendFriendRequest(u, v);
      case Accept(u, v) => ok := service.AcceptRequest(u, v);
      case Decline(u, v) => ok := service.DeclineRequest(u, v);
      case Invite(u, v, c) => ok := service.AddMember(u, v, c);
      case Expel(u, v, c) => ok := service.RemoveMember(u, v, c);
      case Part(u, c) => ok := service.QuitFromChat(u, c);
      case Say(u, c, text, file) => ok := service.SendMessage(u, c, text, file);
    }
  }

  method AnswerCreate(service: Service, peers: map<int, Session>, l: Label, ghost s: Sys, ghost sid: int)
    requires l.Create? && l.sid != sid && service.Valid() && Serves(service, s) && peers == Others(s, sid)
    modifies service.db
    ensures service.Valid() && Serves(service, Step(s, l)) && Step(s, l).sessions == s.sessions
  {
    hide Handlers.CreateChat;
    if l.sid in peers && l.name in peers[l.sid].replica.friends && l.id !in service.State().chats && 1 <= l.id {
      var ok := service.CreateChat(peers[l.sid].user, l.name, l.description, l.id);
    }
  }

  /** Another client asks for its notifications, with the read stamps of its chats, and applies the reply. */
  method AnswerPoll(service: Service, peers: map<int, Session>, k: int, order: seq<int>, ghost s: Sys, ghost sid: int)
    returns (peers': map<int, Session>)
    requires k != sid && service.Valid() && Serves(service, s) && peers == Others(s, sid)
    modifies service.db
    ensures service.Valid() && Serves(service, Step(s, Poll(k, order)))
    ensures peers' == Others(Step(s, Poll(k, order)), sid) && Untouched(s, Step(s, Poll(k, order)), sid)
  {
    hide GetNotifications, Round, SyncList, SyncAll;
    peers' := peers;
    if k in peers && Elements(order) == peers[k].replica.chats.Keys {
      var u, r := peers[k].user, peers[k].replica;
      if UserValid(s.db, u) {
        PollRefines(s, k, order);
      }
      forall i | 0 <= i < |order| ensures order[i] in r.chats {
        assert order[i] in Elements(order);
      }
      var reply := service.GetPendingNotifications(u, r.lastNotif, PairsOf(r.chats, order));
      if reply.Some? {
        peers' := peers[k := Session(u, Round(r, service.State(), u, reply.value))];
        OthersMoved(s, Step(s, Poll(k, order)), sid, k, peers'[k]);
      }
    }
  }

  /** Another client logs in, or does something that leaves the service alone. */
  method AnswerClient(service: Service, peers: map<int, Session>, l: Label, ghost s: Sys, ghost sid: int)
    returns (peers': map<int, Session>)
    requires IsForeign(l, sid) && (l.Login? || l.Logout? || l.Fetch? || l.Show?)
    requires service.Valid() && Serves(service, s) && peers == Others(s, sid)
    ensures service.Valid() && Serves(service, Step(s, l))
    ensures peers' == Others(Step(s, l), sid) && Untouched(s, Step(s, l), sid)
  {
    hide LoadData, Receive, H.GetChatMessages, ClearUnread;
    peers' := peers;
    match l {
      case Login(k, u) =>
        var reply := service.GetAllData(u);
        if reply.Some? {
          peers' := peers[k := Session(u, LoadData(service.State(), service.clock, u))];
          OthersMoved(s, Step(s, l), sid, k, peers'[k]);
        }
      case Logout(k) => peers' := peers - {k};
      case Fetch(k, c) =>
        if k in peers && c in peers[k].replica.chats {
          var u, copy := peers[k].user, peers[k].replica.chats[c];
          var reply := service.GetChatMessages(u, c, copy.cursor);
          if reply.Some? {
            peers' := WithCopy(peers, k, c, Receive(copy, u, reply.value));
            OthersMoved(s, Step(s, l), sid, k, peers'[k]);
          }
        }
      case Show(k, c) =>
        if k in peers && c in peers[k].replica.chats {
          peers' := WithCopy(peers, k, c, ClearUnread(peers[k].replica.chats[c]));
          OthersMoved(s, Step(s, l), sid, k, peers'[k]);
        }
    }
  }

  function WithCopy(peers: map<int, Session>, k: int, c: int, copy: ChatCopy): map<int, Session>
    requires k in peers
  {
    peers[k := peers[k].(replica := peers[k].replica.(chats := peers[k].replica.chats[c := copy]))]
  }

  /** Whatever anybody else does, the service and the other clients are left as the step of the machine says, and the
      client at hand is left alone. */
  method Serve(service: Service, peers: map<int, Session>, l: Label, ghost s: Sys, ghost sid: int)
    returns (peers': map<int, Session>)
    requires IsForeign(l, sid) && service.Valid() && Serves(service, s) && peers == Others(s, sid)
    modifies service, service.db
    ensures service.Valid() && Serves(service, Step(s, l))
    ensures peers' == Others(Step(s, l), sid) && Untouched(s, Step(s, l), sid)
  {
    hide Step;
    match l {
      case Poll(k, order) => peers' := AnswerPoll(service, peers, k, order, s, sid);
      case Login(_, _) | Logout(_) | Fetch(_, _) | Show(_, _) => peers' := AnswerClient(service, peers, l, s, sid);
      case Create(_, _, _, _) =>
        peers' := peers;
        AnswerCreate(service, peers, l, s, sid);
      case _ =>
        peers' := peers;
        Answer(service, l, s);
    }
  }
}

// The whole service as one state machine: the tables, the clock and every client session, moving by one handler
// call, one client operation or one clock tick at a time.
module System {
  import opened Common
  import opened Tables
  import opened Handlers
  import opened Replica

  datatype Session = Session(user: int, replica: Replica)

  /** The last four fields are history. `ever` holds (user, chat, stamp) for every message handed to a client of the
      user, `shown` every READ_TIME that a sync gave a chat (a new chat has 0), `missed` holds (user, chat, stamp) for
      every cursor with which a client of the user asked and got nothing, and `orphaned` the chats whose admin
      unregistered. */
  datatype Sys = Sys(
    db: Db,
    now: int,
    sessions: map<int, Session>,
    ever: set<(int, int, int)>,
    shown: set<(int, int)>,
    missed: set<(int, int, int)>,
    orphaned: set<int>)

  /** Steps of sessions carry a session id: one user may have several clients. */
  datatype Label =
    | Tick(seconds: nat)
    | Join(user: int)
    | Leave(user: int)
    | Befriend(user: int, name: int)
    | Accept(user: int, name: int)
    | Decline(user: int, name: int)
    | Create(sid: int, name: int, description: string, id: int)
    | Invite(user: int, name: int, chat: int)
    | Expel(user: int, name: int, chat: int)
    | Part(user: int, chat: int)
    | Say(user: int, chat: int, text: string, file: Option<string>)
    | Login(sid: int, user: int)
    | Logout(sid: int)
    | Poll(sid: int, order: seq<int>)
    | Fetch(sid: int, chat: int)
    | Show(sid: int, chat: int)

  /** The schema's initial content. */
  function Init(now: int): Sys {
    Sys(Db(map[SYSTEM := false], map[], [], [], [], []), now, map[], {}, {}, {}, {})
  }

  function SetCopy(s: Sys, sid: int, c: int, copy: ChatCopy): Sys
    requires sid in s.sessions
  {
    var se := s.sessions[sid];
    s.(sessions := s.sessions[sid := se.(replica := se.replica.(chats := se.replica.chats[c := copy]))])
  }

  predicate Holds(s: Sys, sid: int, c: int) {
    sid in s.sessions && c in s.sessions[sid].replica.chats
  }

  function CopyOf(s: Sys, sid: int, c: int): ChatCopy
    requires Holds(s, sid, c)
  {
    s.sessions[sid].replica.chats[c]
  }

  function DoFetch(s: Sys, sid: int, c: int): Sys {
    if !Holds(s, sid, c) then s
    else
      var u := s.sessions[sid].user;
      match GetChatMessages(s.db, u, c, CopyOf(s, sid, c).cursor)
      case None => s
      case Some(list) =>
        SetCopy(s, sid, c, Receive(CopyOf(s, sid, c), u, list)).(
          ever := s.ever + set m | m in list.rows :: (u, c, m.ts),
          missed := s.missed + set t | t in Skips(CopyOf(s, sid, c).cursor, list) :: (u, c, t))
  }

  function DoShow(s: Sys, sid: int, c: int): Sys {
    if !Holds(s, sid, c) then s else SetCopy(s, sid, c, ClearUnread(CopyOf(s, sid, c)))
  }

  datatype Synced = Synced(db: Db, shown: set<(int, int)>)

  /** The sync loop of psdims__get_pending_notifications over the client's chats in list order. */
  function SyncAll(y: Synced, u: int, chats: map<int, ChatCopy>, order: seq<int>): Synced {
    if order == [] then y
    else
      var y1 := SyncAll(y, u, chats, order[..|order| - 1]);
      var c := order[|order| - 1];
      if c !in chats then y1
      else
        var db := UpdateSync(y1.db, u, c, chats[c].readTs);
        Synced(db, y1.shown + {(c, ReadTimeOf(db, c))})
  }

  /** psd_recv_notifications, with the client's chats in any order. */
  function DoPoll(s: Sys, sid: int, order: seq<int>): Sys {
    if sid !in s.sessions then s
    else
      var u, r := s.sessions[sid].user, s.sessions[sid].replica;
      if !UserValid(s.db, u) || Elements(order) != r.chats.Keys then s
      else
        var y := SyncAll(Synced(s.db, s.shown), u, r.chats, order);
        var r1 := Round(r, y.db, u, GetNotifications(y.db, s.now, u, r.lastNotif));
        s.(db := y.db, shown := y.shown, sessions := s.sessions[sid := Session(u, r1)])
  }

  function DoLogin(s: Sys, sid: int, u: int): Sys {
    if !UserValid(s.db, u) then s
    else s.(sessions := s.sessions[sid := Session(u, LoadData(s.db, s.now, u))])
  }

  /** psd_create_chat: the client offers only its own friends as members. */
  function DoCreate(s: Sys, sid: int, name: int, description: string, id: int): Sys {
    if sid !in s.sessions || name !in s.sessions[sid].replica.friends || id in s.db.chats || id < 1 then s
    else
      s.(db := CreateChat(s.db, s.now, s.sessions[sid].user, name, description, id).db)
  }

  function DoLeave(s: Sys, u: int): Sys {
    if !UserValid(s.db, u) then s
    else
      s.(db := Unregister(s.db, s.now, u).db,
         orphaned := s.orphaned + set c | c in s.db.chats && ChatExist(s.db, c) && IsAdmin(s.db, u, c))
  }

  function DoSay(s: Sys, u: int, c: int, text: string, file: Option<string>): Sys {
    var o := SendMessage(s.db, s.now, u, c, text, file);
    s.(db := o.db, now := o.now)
  }

  function Step(s: Sys, l: Label): Sys {
    match l
    case Tick(n) => s.(now := s.now + n)
    case Join(u) => s.(db := Register(s.db, u).db)
    case Leave(u) => DoLeave(s, u)
    case Befriend(u, v) => s.(db := SendFriendRequest(s.db, s.now, u, v).db)
    case Accept(u, v) => s.(db := AcceptRequest(s.db, s.now, u, v).db)
    case Decline(u, v) => s.(db := DeclineRequest(s.db, u, v).db)
    case Create(sid, v, d, id) => DoCreate(s, sid, v, d, id)
    case Invite(u, v, c) => s.(db := AddMember(s.db, s.now, u, v, c).db)
    case Expel(u, v, c) => s.(db := RemoveMember(s.db, s.now, u, v, c).db)
    case Part(u, c) => s.(db := Quit(s.db, s.now, u, c).db)
    case Say(u, c, text, file) => DoSay(s, u, c, text, file)
    case Login(sid, u) => DoLogin(s, sid, u)
    case Logout(sid) => s.(sessions := s.sessions - {sid})
    case Poll(sid, order) => DoPoll(s, sid, order)
    case Fetch(sid, c) => DoFetch(s, sid, c)
    case Show(sid, c) => DoShow(s, sid, c)
  }

  function Run(s: Sys, ls: seq<Label>): Sys {
    if ls == [] then s else Step(Run(s, ls[..|ls| - 1]), ls[|ls| - 1])
  }

  lemma StepTick(s: Sys, n: nat)
    ensures Step(s, Tick(n)) == s.(now := s.now + n)
  {
  }

  lemma StepSay(s: Sys, u: int, c: int, text: string, file: Option<string>)
    ensures Step(s, Say(u, c, text, file)) == DoSay(s, u, c, text, file)
  {
  }

  lemma StepPoll(s: Sys, sid: int, order: seq<int>)
    ensures Step(s, Poll(sid, order)) == DoPoll(s, sid, order)
  {
  }

  lemma StepFetch(s: Sys, sid: int, c: int)
    ensures Step(s, Fetch(sid, c)) == DoFetch(s, sid, c)
  {
  }

  lemma RunLast(s: Sys, ls: seq<Label>, l: Label)
    ensures Run(s, ls + [l]) == Step(Run(s, ls), l)
  {
  }

  lemma RunOne(s: Sys, l: Label)
    ensures Run(s, [l]) == Step(s, l)
  {
  }

  lemma RunTwo(s: Sys, a: Label, b: Label)
    ensures Run(s, [a, b]) == Step(Step(s, a), b)
  {
    hide Step;
    RunOne(s, a);
    assert [a, b][..1] == [a];
  }

  lemma {:induction false} RunConcat(s: Sys, a: seq<Label>, b: seq<Label>)
    ensures Run(s, a + b) == Run(Run(s, a), b)
    decreases |b|
  {
    if b == [] {
      assert a + b == a;
    } else {
      hide Step;
      assert (a + b)[..|a + b| - 1] == a + b[..|b| - 1];
      RunConcat(s, a, b[..|b| - 1]);
    }
  }
}

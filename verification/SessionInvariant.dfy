// The ground that every run theorem stands on: the tables keep their invariant, and every session's cursors lie in
// the past and point at rows that exist.
module SessionInvariant {
  import opened Common
  import opened Tables
  import opened Handlers
  import opened Window
  import opened Replica
  import opened TableInvariant
  import opened RoundLemmas
  import opened System

  ghost predicate CopyOk(db: Db, u: int, c: int, copy: ChatCopy) {
    && c in db.chats && HasEntry(db, u, c) && 0 <= copy.cursor
    && (forall r :: r in db.members && r.user == u && r.chat == c ==> copy.join <= r.creation)
    && Distinct(copy.members) && |copy.members| <= MAX_MEMBERS
  }

  ghost predicate SessionOk(db: Db, now: int, se: Session) {
    && se.user in db.users && se.user !in se.replica.friends
    && 1 <= se.replica.lastNotif <= now
    && 0 <= se.replica.chatsTs <= se.replica.lastNotif
    && forall c :: c in se.replica.chats ==> CopyOk(db, se.user, c, se.replica.chats[c])
  }

  ghost predicate Base(s: Sys) {
    && DbOk(s.db, s.now)
    && forall sid :: sid in s.sessions ==> SessionOk(s.db, s.now, s.sessions[sid])
  }

  /** A step of the server on its own: no client is involved. */
  ghost predicate ServerMove(s: Sys, s': Sys) {
    && ServerStep(s.db, s.now, s'.db, s'.now)
    && s' == s.(db := s'.db, now := s'.now, orphaned := s'.orphaned)
    && s.orphaned <= s'.orphaned
  }

  predicate IsServerLabel(l: Label) {
    !l.Login? && !l.Logout? && !l.Poll? && !l.Fetch? && !l.Show?
  }

  lemma ServerMoves(s: Sys, l: Label)
    requires Base(s) && IsServerLabel(l)
    ensures ServerMove(s, Step(s, l))
  {
    TickStep(s.db, s.now, s.now);
    match l {
      case Tick(n) => TickStep(s.db, s.now, s.now + n);
      case Join(u) => RegisterStep(s.db, s.now, u);
      case Leave(u) => UnregisterStep(s.db, s.now, u);
      case Befriend(u, v) => FriendStep(s.db, s.now, SendFriendRequest(s.db, s.now, u, v).db);
      case Accept(u, v) => FriendStep(s.db, s.now, AcceptRequest(s.db, s.now, u, v).db);
      case Decline(u, v) => FriendStep(s.db, s.now, DeclineRequest(s.db, u, v).db);
      case Create(sid, v, d, id) =>
        if Step(s, l) != s {
          CreateChatStep(s.db, s.now, s.sessions[sid].user, v, d, id);
        }
      case Invite(u, v, c) => AddMemberStep(s.db, s.now, u, v, c);
      case Expel(u, v, c) => RemoveMemberStep(s.db, s.now, u, v, c);
      case Part(u, c) => QuitStep(s.db, s.now, u, c);
      case Say(u, c, text, file) => SendMessageStep(s.db, s.now, u, c, text, file);
    }
  }

  // ---- What a poll does -------------------------------------------------------------------------------------------

  lemma {:induction false} SyncAllFrame(y: Synced, now: int, u: int, chats: map<int, ChatCopy>, order: seq<int>)
    requires DbOk(y.db, now)
    ensures var y' := SyncAll(y, u, chats, order);
      DbOk(y'.db, now) && SyncFrame(y.db, y'.db) && y.shown <= y'.shown
  {
    if order != [] {
      SyncAllFrame(y, now, u, chats, order[..|order| - 1]);
      var y1 := SyncAll(y, u, chats, order[..|order| - 1]);
      var c := order[|order| - 1];
      if c in chats {
        UpdateSyncFrame(y1.db, now, u, c, chats[c].readTs);
      }
    }
  }

  ghost function SyncedBy(s: Sys, sid: int, order: seq<int>): Synced
    requires sid in s.sessions
  {
    SyncAll(Synced(s.db, s.shown), s.sessions[sid].user, s.sessions[sid].replica.chats, order)
  }

  ghost function NoticeOf(s: Sys, sid: int, order: seq<int>): Notifications
    requires sid in s.sessions
  {
    GetNotifications(SyncedBy(s, sid, order).db, s.now, s.sessions[sid].user, s.sessions[sid].replica.lastNotif)
  }

  predicate PollAccepted(s: Sys, sid: int, order: seq<int>) {
    && sid in s.sessions && UserValid(s.db, s.sessions[sid].user)
    && Elements(order) == s.sessions[sid].replica.chats.Keys
  }

  /** A poll moves the read stamps, hands every held chat its entries, and discovers copies that agree with the
      tables. */
  ghost predicate PollMove(s: Sys, sid: int, s': Sys, es: seq<Event>) {
    && sid in s.sessions && sid in s'.sessions
    && var r, r' := s.sessions[sid].replica, s'.sessions[sid].replica;
    && s' == s.(db := s'.db, shown := s'.shown, sessions := s.sessions[sid := s.sessions[sid].(replica := r')])
    && DbOk(s'.db, s.now) && SyncFrame(s.db, s'.db) && s.shown <= s'.shown
    && (forall e :: e in es ==> Fact(s'.db, s.sessions[sid].user, e))
    && r'.lastNotif == s.now && 0 <= r'.chatsTs <= s.now && s.sessions[sid].user !in r'.friends
    && (forall c :: c in r.chats ==> c in r'.chats && r'.chats[c] == CopyEvents(r.chats[c], c, es))
    && (forall c :: c in r'.chats && c !in r.chats ==>
          && Novel(r'.chats[c], s'.db, s.sessions[sid].user, c)
          && MadeAt(r'.chats[c], s.now, Some(r.lastNotif)))
  }

  lemma PollExact(s: Sys, sid: int, order: seq<int>)
    requires Base(s) && PollAccepted(s, sid, order)
    ensures PollMove(s, sid, DoPoll(s, sid, order), EventsOf(NoticeOf(s, sid, order)))
    ensures DoPoll(s, sid, order).db == SyncedBy(s, sid, order).db
    ensures DoPoll(s, sid, order).shown == SyncedBy(s, sid, order).shown
  {
    var u, r := s.sessions[sid].user, s.sessions[sid].replica;
    var y := SyncedBy(s, sid, order);
    SyncAllFrame(Synced(s.db, s.shown), s.now, u, r.chats, order);
    NotificationsAreFacts(y.db, s.now, u, r.lastNotif);
    var n := NoticeOf(s, sid, order);
    var r1 := r.(lastNotif := n.lastTimestamp, friends := AddFriends(r.friends, n.friends));
    ApplyEventsExact(r1, y.db, s.now, u, r.lastNotif, EventsOf(n));
  }

  lemma PollRefused(s: Sys, sid: int, order: seq<int>)
    requires !PollAccepted(s, sid, order)
    ensures DoPoll(s, sid, order) == s
  {
  }

  lemma NovelOk(copy: ChatCopy, db: Db, now: int, u: int, c: int)
    requires DbOk(db, now) && Novel(copy, db, u, c)
    ensures CopyOk(db, u, c, copy)
  {
  }

  lemma LoginExact(s: Sys, u: int)
    requires Base(s) && UserValid(s.db, u)
    ensures var r := LoadData(s.db, s.now, u);
      && r.lastNotif == s.now && 0 <= r.chatsTs <= s.now && u !in r.friends
      && forall c :: c in r.chats ==>
           Novel(r.chats[c], s.db, u, c) && MadeAt(r.chats[c], s.now, None) && r.chats[c].pending == 0
  {
    RecvChatsExact(Replica(s.now, 0, AddFriends([], SelectFriends(s.db, u, 0)), map[]), s.db, s.now, u, None);
  }

  // ---- What a fetch does ------------------------------------------------------------------------------------------

  /** A fetch changes one copy and the history, and nothing if it is refused. */
  lemma FetchOthers(s: Sys, sid: int, c: int)
    ensures var s' := DoFetch(s, sid, c);
      && s' == s.(sessions := s'.sessions, ever := s'.ever, missed := s'.missed) && s'.sessions.Keys == s.sessions.Keys
      && s.ever <= s'.ever && s.missed <= s'.missed
      && (forall k :: k in s.sessions ==>
            && s'.sessions[k].user == s.sessions[k].user
            && s'.sessions[k].replica.lastNotif == s.sessions[k].replica.lastNotif)
      && (forall k, d :: Holds(s', k, d) <==> Holds(s, k, d))
      && (forall k, d :: Holds(s, k, d) && (k != sid || d != c) ==> CopyOf(s', k, d) == CopyOf(s, k, d))
  {
    hide GetChatMessages, Receive;
  }

  lemma FetchRefused(s: Sys, sid: int, c: int)
    requires !Holds(s, sid, c) || GetChatMessages(s.db, s.sessions[sid].user, c, CopyOf(s, sid, c).cursor).None?
    ensures DoFetch(s, sid, c) == s
  {
  }

  lemma FetchedCopyIs(s: Sys, sid: int, c: int, list: MessageList)
    requires Holds(s, sid, c)
    requires GetChatMessages(s.db, s.sessions[sid].user, c, CopyOf(s, sid, c).cursor) == Some(list)
    ensures var s' := DoFetch(s, sid, c); var u := s.sessions[sid].user;
      && Holds(s', sid, c) && CopyOf(s', sid, c) == Receive(CopyOf(s, sid, c), u, list)
  {
    hide GetChatMessages, Receive;
  }

  // ---- Base holds in every run ------------------------------------------------------------------------------------

  lemma CopyOkSynced(db: Db, db': Db, u: int, c: int, copy: ChatCopy)
    requires SyncFrame(db, db') && CopyOk(db, u, c, copy)
    ensures CopyOk(db', u, c, copy)
  {
  }

  lemma BaseServer(s: Sys, s': Sys)
    requires Base(s) && ServerMove(s, s')
    ensures Base(s')
  {
  }

  lemma BasePoll(s: Sys, sid: int, s': Sys, es: seq<Event>)
    requires Base(s) && PollMove(s, sid, s', es)
    ensures Base(s')
  {
    forall k, c | k in s'.sessions && c in s'.sessions[k].replica.chats
      ensures CopyOk(s'.db, s'.sessions[k].user, c, s'.sessions[k].replica.chats[c])
    {
      var u := s'.sessions[k].user;
      if Holds(s, k, c) {
        CopyOkSynced(s.db, s'.db, u, c, CopyOf(s, k, c));
        CopyEventsFrame(CopyOf(s, k, c), c, es);
      } else {
        NovelOk(s'.sessions[k].replica.chats[c], s'.db, s.now, u, c);
      }
    }
  }

  lemma BaseLogin(s: Sys, sid: int, u: int)
    requires Base(s)
    ensures Base(DoLogin(s, sid, u))
  {
    if UserValid(s.db, u) {
      LoginExact(s, u);
      var r := LoadData(s.db, s.now, u);
      forall c | c in r.chats ensures CopyOk(s.db, u, c, r.chats[c]) {
        NovelOk(r.chats[c], s.db, s.now, u, c);
      }
    }
  }

  lemma BaseFetchShow(s: Sys, sid: int, c: int)
    requires Base(s)
    ensures Base(DoFetch(s, sid, c)) && Base(DoShow(s, sid, c))
  {
    hide DbOk, Filter, SelectMessages, LocalizeAll, AddMessages;
  }

  lemma BasePollStep(s: Sys, sid: int, order: seq<int>)
    requires Base(s)
    ensures Base(DoPoll(s, sid, order))
  {
    if PollAccepted(s, sid, order) {
      PollExact(s, sid, order);
      BasePoll(s, sid, DoPoll(s, sid, order), EventsOf(NoticeOf(s, sid, order)));
    }
  }

  lemma BaseStep(s: Sys, l: Label)
    requires Base(s)
    ensures Base(Step(s, l))
  {
    hide DoLogin, DoPoll, DoFetch, DoShow, DoCreate, DoLeave, DoSay;
    match l {
      case Login(sid, u) => BaseLogin(s, sid, u);
      case Logout(sid) =>
      case Poll(sid, order) => BasePollStep(s, sid, order);
      case Fetch(sid, c) => BaseFetchShow(s, sid, c);
      case Show(sid, c) => BaseFetchShow(s, sid, c);
      case _ =>
        ServerMoves(s, l);
        BaseServer(s, Step(s, l));
    }
  }

  lemma {:induction false} BaseAlways(t0: int, ls: seq<Label>)
    requires 1 <= t0
    ensures Base(Run(Init(t0), ls))
  {
    if ls != [] {
      BaseAlways(t0, ls[..|ls| - 1]);
      BaseStep(Run(Init(t0), ls[..|ls| - 1]), ls[|ls| - 1]);
    }
  }

  lemma {:induction false} BaseRun(s: Sys, ls: seq<Label>)
    requires Base(s)
    ensures Base(Run(s, ls))
  {
    if ls != [] {
      BaseRun(s, ls[..|ls| - 1]);
      BaseStep(Run(s, ls[..|ls| - 1]), ls[|ls| - 1]);
    }
  }
}

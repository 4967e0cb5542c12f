// How a notification round acts on one chat: on a chat the client already held, and on one it discovers.
module RoundLemmas {
  import opened Common
  import opened Tables
  import opened Handlers
  import opened Window
  import opened Replica
  import opened TableInvariant

  /** The round restricted to the entries for one held chat. */
  ghost function CopyEvents(copy: ChatCopy, c: int, es: seq<Event>): ChatCopy {
    if es == [] then copy
    else
      var p := CopyEvents(copy, c, es[..|es| - 1]);
      if es[|es| - 1].chat == c then CopyEvent(p, es[|es| - 1]) else p
  }

  /** Every membership row is at least as young as its chat, so the cursor that selects a chat drops none of its
      active members. */
  lemma NewChatMembersComplete(db: Db, now: int, c: int, since: int)
    requires DbOk(db, now) && CreationOf(db, c) >= since
    ensures forall x :: x in MemberNames(db, c, since) <==> InChat(db, x, c)
  {
  }

  // ---- Discovered chats -------------------------------------------------------------------------------------------

  /** A copy that agrees with the tables in everything and has received no message yet. */
  ghost predicate Novel(copy: ChatCopy, db: Db, u: int, c: int) {
    && (exists r :: r in db.members && r.user == u && r.chat == c && r.rem == 0
          && copy.readTs == r.read && copy.join == r.creation)
    && copy.allReadTs == ReadTimeOf(db, c) && c in db.chats
    && copy.cursor == 0 && copy.box == Box([], 0) && copy.log == [] && copy.skipped == {}
    && copy.seen == 0 && copy.appended == []
    && copy.refused == {} && copy.admin == AdminOf(db, c)
    && Distinct(copy.members) && |copy.members| <= MAX_MEMBERS
    && (forall x :: x in copy.members <==> InChat(db, x, c))
  }

  /** The copy was made at `now`, at login or in the round of the poll with this stamp. */
  ghost predicate MadeAt(copy: ChatCopy, now: int, poll: Option<int>) {
    copy.reportedFrom == if poll.Some? && copy.join >= poll.value then 0 else now + 1
  }

  /** A message that an active member of the chat can see. */
  ghost predicate Sees(db: Db, u: int, c: int, m: MessageRow) {
    && m in db.messages && m.chat == c
    && exists r :: r in db.members && r.user == u && r.chat == c && r.rem == 0 && r.creation < m.ts
  }

  /** What an entry for the user says holds in the tables, and it is about a chat of his. */
  ghost predicate Fact(db: Db, u: int, e: Event) {
    HasEntry(db, u, e.chat) &&
    match e
    case Added(c, x) => InChat(db, x, c)
    case Removed(c, x) => !InChat(db, x, c)
    case NewAdmin(c, x) => c in db.chats && AdminOf(db, c) == x
    case HasMessages(c) => exists m :: Sees(db, u, c, m)
    case ReadUpTo(c, v) => c in db.chats && ReadTimeOf(db, c) == v
  }

  lemma NovelEvent(copy: ChatCopy, db: Db, u: int, e: Event)
    requires Novel(copy, db, u, e.chat) && Fact(db, u, e)
    ensures Novel(CopyEvent(copy, e), db, u, e.chat)
    ensures CopyEvent(copy, e).reportedFrom == copy.reportedFrom && CopyEvent(copy, e).join == copy.join
  {
  }

  lemma NotificationsAreFacts(db: Db, now: int, u: int, t: int)
    requires DbOk(db, now) && 1 <= t
    ensures forall e :: e in EventsOf(GetNotifications(db, now, u, t)) ==> Fact(db, u, e)
  {
    forall e | e in EventsOf(GetNotifications(db, now, u, t))
      ensures Fact(db, u, e)
    {
      match e {
        case Removed(c, x) =>
          var r :| r in db.members && r.chat == c && r.user == x && r.rem >= t;
          if InChat(db, x, c) {
            var q :| q in db.members && q.chat == c && q.user == x && q.rem == 0;
            OneRow(db, r, q);
          }
        case Added(c, x) =>
          assert e in AddedEvents(db, u, t);
        case NewAdmin(c, x) =>
          assert e in AdminEvents(db, u, t);
        case HasMessages(c) =>
          assert e in MessageEvents(db, u, t);
          var r, m :| r in db.members && m in db.messages && r.user == u && r.chat == c && r.rem == 0
            && m.chat == c && m.ts > r.creation && m.ts >= t;
          assert Sees(db, u, c, m);
        case ReadUpTo(c, v) =>
          assert e in ReadTimeEvents(db, u);
      }
    }
  }

  lemma {:induction false} AddCopiesExact(r: Replica, db: Db, rows: seq<MemberRow>, since: int, poll: Option<int>)
    ensures var r' := AddCopies(r, db, rows, since, poll);
      && r' == r.(chats := r'.chats)
      && |r.chats| <= |r'.chats|
      && (forall c :: c in r.chats ==> c in r'.chats && r'.chats[c] == r.chats[c])
      && (forall c :: c in r'.chats && c !in r.chats ==>
            exists row :: row in rows && row.chat == c && r'.chats[c] == NewCopy(db, row, since, r.lastNotif, poll)
              && |MemberNames(db, c, since)| <= MAX_MEMBERS && Distinct(MemberNames(db, c, since)))
      && (forall row :: row in rows ==> row.chat in r'.chats || Refused(r', db, row.chat, since))
  {
    if rows != [] {
      var row := rows[|rows| - 1];
      assert rows == rows[..|rows| - 1] + [row];
      AddCopiesExact(r, db, rows[..|rows| - 1], since, poll);
    }
  }

  lemma RecvChatsExact(r: Replica, db: Db, now: int, u: int, poll: Option<int>)
    requires DbOk(db, now) && 0 <= r.chatsTs <= now
    ensures var r' := RecvChats(r, db, u, poll);
      && r' == r.(chats := r'.chats, chatsTs := r'.chatsTs)
      && 0 <= r'.chatsTs <= now
      && |r.chats| <= |r'.chats|
      && (forall c :: c in r.chats ==> c in r'.chats && r'.chats[c] == r.chats[c])
      && (forall c :: c in r'.chats && c !in r.chats ==>
            Novel(r'.chats[c], db, u, c) && MadeAt(r'.chats[c], r.lastNotif, poll) && r'.chats[c].pending == 0)
  {
    if UserValid(db, u) {
      var rows := ChatRowsFor(db, u, r.chatsTs);
      AddCopiesExact(r, db, rows, r.chatsTs, poll);
      var r' := RecvChats(r, db, u, poll);
      forall c | c in r'.chats && c !in r.chats
        ensures Novel(r'.chats[c], db, u, c) && MadeAt(r'.chats[c], r.lastNotif, poll) && r'.chats[c].pending == 0
      {
        NewChatMembersComplete(db, now, c, r.chatsTs);
      }
    }
  }

  lemma {:induction false} ApplyEventsExact(r: Replica, db: Db, now: int, u: int, poll: int, es: seq<Event>)
    requires DbOk(db, now) && 0 <= r.chatsTs <= now
    requires forall e :: e in es ==> Fact(db, u, e)
    ensures var r' := ApplyEvents(r, db, u, poll, es);
      && r' == r.(chats := r'.chats, chatsTs := r'.chatsTs)
      && 0 <= r'.chatsTs <= now
      && (forall c :: c in r.chats ==> c in r'.chats && r'.chats[c] == CopyEvents(r.chats[c], c, es))
      && (forall c :: c in r'.chats && c !in r.chats ==>
            Novel(r'.chats[c], db, u, c) && MadeAt(r'.chats[c], r.lastNotif, Some(poll)))
  {
    hide DbOk, Fact, Novel, RecvChats;
    if es != [] {
      var e := es[|es| - 1];
      assert es == es[..|es| - 1] + [e];
      ApplyEventsExact(r, db, now, u, poll, es[..|es| - 1]);
      var p := ApplyEvents(r, db, u, poll, es[..|es| - 1]);
      RecvChatsExact(p, db, now, u, Some(poll));
      var p1 := if e.chat in p.chats then p else RecvChats(p, db, u, Some(poll));
      if e.chat in p1.chats && e.chat !in r.chats {
        NovelEvent(p1.chats[e.chat], db, u, e);
      }
    }
  }

  lemma {:induction false} ApplyEventsConcat(r: Replica, db: Db, u: int, poll: int, a: seq<Event>, b: seq<Event>)
    ensures ApplyEvents(r, db, u, poll, a + b) == ApplyEvents(ApplyEvents(r, db, u, poll, a), db, u, poll, b)
    decreases |b|
  {
    if b == [] {
      assert a + b == a;
    } else {
      assert (a + b)[..|a + b| - 1] == a + b[..|b| - 1];
      ApplyEventsConcat(r, db, u, poll, a, b[..|b| - 1]);
    }
  }

  // ---- Held chats -------------------------------------------------------------------------------------------------

  /** A round writes only the admin, the members, the pending flag and the double-check stamp of a held chat. */
  lemma {:induction false} CopyEventsFrame(copy: ChatCopy, c: int, es: seq<Event>)
    requires Distinct(copy.members) && |copy.members| <= MAX_MEMBERS
    ensures var k := CopyEvents(copy, c, es);
      && k == copy.(pending := k.pending, admin := k.admin, members := k.members, allReadTs := k.allReadTs,
                    refused := k.refused)
      && (k.pending == copy.pending || k.pending == 1)
      && (HasMessages(c) in es ==> k.pending == 1) && (HasMessages(c) !in es ==> k.pending == copy.pending)
      && (k.allReadTs == copy.allReadTs || ReadUpTo(c, k.allReadTs) in es)
      && Distinct(k.members) && |k.members| <= MAX_MEMBERS
  {
    if es != [] {
      assert es == es[..|es| - 1] + [es[|es| - 1]];
      CopyEventsFrame(copy, c, es[..|es| - 1]);
    }
  }
}

// The client's copy of its chats and the operations of src/client/psd_ims_client.c that maintain it, as functions.
module Replica {
  import opened Common
  import opened Tables
  import opened Handlers
  import opened Window

  const MAX_FRIENDS: nat := 50
  const MAX_CHATS: nat := 50
  const MAX_MESSAGES: nat := 50
  const MAX_MEMBERS: nat := 50

  /** struct chat_info, with the timestamp of its message list as `cursor`. The last seven fields are history: no
      operation reads them. `log` is every message the server handed to this copy, `skipped` the cursors with which it
      asked and got nothing, `seen` the length of the log at the last clear, `appended` what was put in the window
      since then, `join` the user's CREATION_TIME when the copy was made, `reportedFrom` the stamp from which on the
      polls have reported the chat's messages to it, and `refused` the members that it was told of and had no room
      for. */
  datatype ChatCopy = ChatCopy(
    readTs: int,
    allReadTs: int,
    pending: int,
    admin: int,
    members: seq<int>,
    cursor: int,
    box: Box,
    log: seq<Stored>,
    skipped: set<int>,
    seen: nat,
    appended: seq<Stored>,
    join: int,
    reportedFrom: int,
    refused: set<int>)

  datatype Replica = Replica(lastNotif: int, chatsTs: int, friends: seq<int>, chats: map<int, ChatCopy>)

  // ---- Chat lists -------------------------------------------------------------------------------------------------

  function MemberFilter(c: int, since: int): MemberRow -> bool {
    (r: MemberRow) => r.chat == c && r.creation >= since && r.rem == 0
  }

  /** get_member_list_chats: the active members that joined at or after `since`. */
  function MemberNames(db: Db, c: int, since: int): (names: seq<int>)
    ensures forall x :: x in names <==>
      exists r :: r in db.members && r.user == x && r.chat == c && r.creation >= since && r.rem == 0
  {
    Map((r: MemberRow) => r.user, Filter(db.members, MemberFilter(c, since)))
  }

  function ChatRowFilter(db: Db, u: int, since: int): MemberRow -> bool {
    (r: MemberRow) => r.user == u && r.rem == 0 && r.chat in db.chats && db.chats[r.chat].creation >= since
  }

  /** get_list_chats: the user's active rows in chats created at or after `since`. */
  function ChatRowsFor(db: Db, u: int, since: int): (rows: seq<MemberRow>)
    ensures forall r :: r in rows <==>
      r in db.members && r.user == u && r.rem == 0 && r.chat in db.chats && db.chats[r.chat].creation >= since
  {
    Filter(db.members, ChatRowFilter(db, u, since))
  }

  function CreationOf(db: Db, c: int): int {
    if c in db.chats then db.chats[c].creation else 0
  }

  /** The running maximum that becomes the next chat cursor; it restarts from 0. */
  function LastCreation(db: Db, rows: seq<MemberRow>): (t: int)
    ensures 0 <= t
    ensures t == 0 || exists r :: r in rows && t == CreationOf(db, r.chat)
  {
    if rows == [] then 0
    else
      var last := rows[|rows| - 1];
      assert rows == rows[..|rows| - 1] + [last];
      Max(LastCreation(db, rows[..|rows| - 1]), CreationOf(db, last.chat))
  }

  /** The polls report messages from the poll before on, and so everything to a user who has joined since then; to
      others they report what is stamped after the request that made the copy, at `now`. `poll` is None at login, and
      the last_timestamp the client polled with otherwise. */
  function ReportedFrom(row: MemberRow, now: int, poll: Option<int>): int {
    match poll
    case None => now + 1
    case Some(t) => if row.creation >= t then 0 else now + 1
  }

  /** A copy without members and messages. */
  function BlankCopy(readTs: int, allReadTs: int, admin: int, join: int, reportedFrom: int): ChatCopy {
    ChatCopy(readTs, allReadTs, 0, admin, [], 0, Box([], 0), [], {}, 0, [], join, reportedFrom, {})
  }

  function NewCopy(db: Db, row: MemberRow, since: int, now: int, poll: Option<int>): ChatCopy {
    BlankCopy(row.read, ReadTimeOf(db, row.chat), AdminOf(db, row.chat), row.creation, ReportedFrom(row, now, poll)).(
      members := MemberNames(db, row.chat, since))
  }

  /** Why cha_add_chat refuses a chat that the client does not hold. */
  predicate Refused(r: Replica, db: Db, c: int, since: int) {
    var names := MemberNames(db, c, since);
    |r.chats| >= MAX_CHATS || |names| > MAX_MEMBERS || !Distinct(names)
  }

  function AddCopy(r: Replica, db: Db, row: MemberRow, since: int, poll: Option<int>): Replica {
    if row.chat in r.chats || Refused(r, db, row.chat, since) then r
    else r.(chats := r.chats[row.chat := NewCopy(db, row, since, r.lastNotif, poll)])
  }

  function AddCopies(r: Replica, db: Db, rows: seq<MemberRow>, since: int, poll: Option<int>): Replica {
    if rows == [] then r
    else AddCopy(AddCopies(r, db, rows[..|rows| - 1], since, poll), db, rows[|rows| - 1], since, poll)
  }

  /** psd_recv_chats */
  function RecvChats(r: Replica, db: Db, u: int, poll: Option<int>): Replica {
    if !UserValid(db, u) then r
    else
      var rows := ChatRowsFor(db, u, r.chatsTs);
      AddCopies(r, db, rows, r.chatsTs, poll).(chatsTs := LastCreation(db, rows))
  }

  /** fri_add_friend on each name; a full list or a known name is skipped. */
  function AddFriends(friends: seq<int>, names: seq<int>): (out: seq<int>)
    ensures forall x :: x in out ==> x in friends || x in names
    ensures forall x :: x in friends ==> x in out
  {
    if names == [] then friends
    else
      var last := names[|names| - 1];
      assert names == names[..|names| - 1] + [last];
      var out := AddFriends(friends, names[..|names| - 1]);
      if |out| >= MAX_FRIENDS || last in out then out else out + [last]
  }

  /** psd_recv_all_data */
  function LoadData(db: Db, now: int, u: int): Replica {
    var friends := AddFriends([], SelectFriends(db, u, 0));
    RecvChats(Replica(now, 0, friends, map[]), db, u, None)
  }

  // ---- Notification rounds ----------------------------------------------------------------------------------------

  /** Deletes the first occurrence. */
  function Without(xs: seq<int>, x: int): (ys: seq<int>)
    ensures forall y :: y in ys ==> y in xs
    ensures forall y :: y in xs && y != x ==> y in ys
    ensures x !in xs ==> ys == xs
    ensures Distinct(xs) ==> Distinct(ys) && x !in ys
    ensures |ys| <= |xs|
  {
    if xs == [] then []
    else
      var rest := xs[1..];
      assert xs == [xs[0]] + rest;
      assert Distinct(xs) ==> xs[0] !in rest && Distinct(rest);
      if xs[0] == x then rest else [xs[0]] + Without(rest, x)
  }

  /** One list entry applied to the chat it names: cha_add_member, cha_del_member, cha_change_admin,
      cha_set_pending and cha_set_all_read_timestamp, their failures ignored. */
  function CopyEvent(copy: ChatCopy, e: Event): ChatCopy {
    match e
    case Added(_, x) =>
      if x in copy.members then copy.(refused := copy.refused - {x})
      else if |copy.members| >= MAX_MEMBERS then copy.(refused := copy.refused + {x})
      else copy.(members := copy.members + [x], refused := copy.refused - {x})
    case Removed(_, x) => copy.(members := Without(copy.members, x), refused := copy.refused - {x})
    case NewAdmin(_, x) => if x in copy.members then copy.(admin := x) else copy
    case HasMessages(_) => copy.(pending := 1)
    case ReadUpTo(_, v) => copy.(allReadTs := v)
  }

  /** An entry for a chat the client does not hold first makes it ask for new chats. */
  function ApplyEvent(r: Replica, db: Db, u: int, poll: int, e: Event): Replica {
    var r1 := if e.chat in r.chats then r else RecvChats(r, db, u, Some(poll));
    if e.chat in r1.chats then r1.(chats := r1.chats[e.chat := CopyEvent(r1.chats[e.chat], e)]) else r1
  }

  function ApplyEvents(r: Replica, db: Db, u: int, poll: int, es: seq<Event>): Replica {
    if es == [] then r
    else ApplyEvent(ApplyEvents(r, db, u, poll, es[..|es| - 1]), db, u, poll, es[|es| - 1])
  }

  function EventsOf(n: Notifications): seq<Event> {
    n.added + n.removed + n.admins + n.withMessages + n.readTimes
  }

  /** The client half of psd_recv_notifications. */
  function Round(r: Replica, db: Db, u: int, n: Notifications): Replica {
    var r1 := r.(lastNotif := n.lastTimestamp, friends := AddFriends(r.friends, n.friends));
    ApplyEvents(r1, db, u, r.lastNotif, EventsOf(n))
  }

  // ---- Messages ---------------------------------------------------------------------------------------------------

  /** The stored message is what the client of u is to show of the row: its text, its stamp, its file, and its sender
      unless that is u himself. */
  ghost predicate Shows(e: Stored, u: int, m: MessageRow) {
    && e.text == m.text && e.ts == m.ts && e.file == m.file
    && (e.sender.None? <==> m.sender == u) && (e.sender.Some? ==> e.sender.value == m.sender)
  }

  ghost predicate Has(log: seq<Stored>, u: int, m: MessageRow) {
    exists e :: e in log && Shows(e, u, m)
  }

  ghost predicate ShowsAll(log: seq<Stored>, u: int, rows: seq<MessageRow>) {
    |log| == |rows| && forall i :: 0 <= i < |rows| ==> Shows(log[i], u, rows[i])
  }

  function Localize(u: int, m: MessageRow): (e: Stored)
    ensures Shows(e, u, m)
  {
    Stored(if m.sender == u then None else Some(m.sender), m.text, m.ts, m.file)
  }

  function LocalizeAll(u: int, rows: seq<MessageRow>): (out: seq<Stored>)
    ensures |out| == |rows| && forall i :: 0 <= i < |rows| ==> out[i] == Localize(u, rows[i])
  {
    if rows == [] then [] else LocalizeAll(u, rows[..|rows| - 1]) + [Localize(u, rows[|rows| - 1])]
  }

  /** The stamp that an empty reply makes the client step over. */
  function Skips(cursor: int, list: MessageList): set<int> {
    if list.rows == [] then {cursor} else {}
  }

  /** _recv_messages after the reply has arrived. When the window refuses a message the chat keeps its cursor. */
  function Receive(copy: ChatCopy, u: int, list: MessageList): ChatCopy {
    var batch := LocalizeAll(u, list.rows);
    var r := AddMessages(copy.box, MAX_MESSAGES, copy.readTs, batch);
    if !r.ok then copy.(box := r.box)
    else copy.(box := r.box, pending := 0, cursor := list.lastTimestamp, log := copy.log + batch,
               skipped := copy.skipped + Skips(copy.cursor, list),
               appended := copy.appended + TakeLast(MAX_MESSAGES, batch))
  }

  /** cha_clear_unread, which the chat screen reaches only when the chat has a message to iterate over. */
  function ClearUnread(copy: ChatCopy): ChatCopy {
    if copy.box.items == [] then copy
    else copy.(box := copy.box.(unread := 0), readTs := copy.cursor, seen := |copy.log|, appended := [])
  }
}

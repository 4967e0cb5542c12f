// The request handlers of src/server/psd_ims_server.c as functions on the tables. Each handler is one atomic step
// at clock value `now`; a refused request leaves the tables as the statements issued before the refusal left them.
module Handlers {
  import opened Common
  import opened Tables

  datatype Outcome = Outcome(db: Db, ok: bool)

  /** A freshly inserted user row gets an unused, positive AUTO_INCREMENT id. */
  function Register(db: Db, u: int): Outcome {
    if u in db.users || u < 1 then Outcome(db, false) else Outcome(db.(users := db.users[u := true]), true)
  }

  function Unregister(db: Db, now: int, login: int): Outcome {
    if !UserValid(db, login) then Outcome(db, false)
    else Outcome(DelUserAllChats(db.(users := db.users[login := false]), login, now), true)
  }

  /** `id` is the AUTO_INCREMENT value. An unknown member is looked up as -1 and noticed only by the foreign key,
      when the chat and the creator's row are already in. */
  function CreateChat(db: Db, now: int, login: int, member: int, description: string, id: int): Outcome {
    if !UserValid(db, login) then Outcome(db, false)
    else
      var idMember := if UserValid(db, member) then member else -1;
      var db1 := AddChat(db, id, login, description, now);
      match AddUserChat(db1, login, id, now, now)
      case None => Outcome(DelChat(db1, id), false)
      case Some(db2) =>
        match AddUserChat(db2, idMember, id, now, now)
        case None => Outcome(db2, false)
        case Some(db3) => Outcome(db3, true)
  }

  function AddMember(db: Db, now: int, login: int, name: int, c: int): Outcome {
    if !UserValid(db, login) || !ChatExist(db, c) || !IsAdmin(db, login, c) || !UserValid(db, name)
       || name == login || !Friendly(db, name, login) || InChat(db, name, c)
    then Outcome(db, false)
    else if HasEntry(db, name, c) then Outcome(RecoverUserChat(db, name, c, now), true)
    else
      match AddUserChat(db, name, c, now, now)
      case None => Outcome(db, false)
      case Some(db1) => Outcome(db1, true)
  }

  function RemoveMember(db: Db, now: int, login: int, name: int, c: int): Outcome {
    if !UserValid(db, login) || !ChatExist(db, c) || !IsAdmin(db, login, c) || !UserValid(db, name)
       || name == login || !InChat(db, name, c)
    then Outcome(db, false)
    else Outcome(DelUserChat(db, name, c, now), true)
  }

  /** The leaving admin hands over to the first remaining member, unless that is user 1. */
  function Quit(db: Db, now: int, login: int, c: int): Outcome {
    if !UserValid(db, login) || !ChatExist(db, c) || !InChat(db, login, c) then Outcome(db, false)
    else
      var db1 := DelUserChat(db, login, c, now);
      if !StillUsers(db1, c) then Outcome(DelChat(db1, c), true)
      else if !IsAdmin(db1, login, c) then Outcome(db1, true)
      else
        var first := FirstUser(db1, c);
        if first == SYSTEM then Outcome(db1, false) else Outcome(ChangeAdmin(db1, first, c, now), true)
  }

  /** The loop of psdims__send_message: sleep a second while the chat has a message of this stamp. */
  function FirstFree(db: Db, c: int, now: int): (t: int)
    ensures now <= t && !Stamped(db, c, t)
    ensures forall k :: now <= k < t ==> Stamped(db, c, k)
    decreases LastStamp(db.messages, 0) + 1 - now
  {
    if Stamped(db, c, now) then FirstFree(db, c, now + 1) else now
  }

  /** The least stamp that a message of the chat can still get. */
  function NextStamp(db: Db, now: int, c: int): int {
    if Stamped(db, c, now) then now + 1 else now
  }

  datatype SendOutcome = SendOutcome(db: Db, now: int, ok: bool)

  function SendMessage(db: Db, now: int, login: int, c: int, text: string, file: Option<string>): SendOutcome {
    if !UserValid(db, login) || !InChat(db, login, c) then SendOutcome(db, now, false)
    else
      var t := FirstFree(db, c, now);
      SendOutcome(InsertMessage(db, c, login, t, text, file), t, true)
  }

  function SendFriendRequest(db: Db, now: int, login: int, name: int): Outcome {
    if !UserValid(db, login) then Outcome(db, false)
    else
      var id := if UserValid(db, name) then name else -1;
      if id == login || Friendly(db, login, id) || Requested(db, login, id) then Outcome(db, false)
      else
        match SendRequest(db, login, id, now)
        case None => Outcome(db, false)
        case Some(db1) => Outcome(db1, true)
  }

  function AcceptRequest(db: Db, now: int, login: int, name: int): Outcome {
    if !UserValid(db, login) then Outcome(db, false)
    else
      var id := if UserValid(db, name) then name else -1;
      if !Requested(db, id, login) then Outcome(db, false)
      else Outcome(AcceptFriendRequest(db, id, login, now), true)
  }

  function DeclineRequest(db: Db, login: int, name: int): Outcome {
    if !UserValid(db, login) then Outcome(db, false)
    else
      var id := if UserValid(db, name) then name else -1;
      if !Requested(db, id, login) then Outcome(db, false) else Outcome(DeclineFriendRequest(db, id, login), true)
  }

  /** psdims__get_chat_messages: the rows and the next cursor, which moves even when there are no rows. */
  datatype MessageList = MessageList(rows: seq<MessageRow>, lastTimestamp: int)

  function GetChatMessages(db: Db, login: int, c: int, cursor: int): Option<MessageList> {
    if !UserValid(db, login) || !ChatExist(db, c) || !InChat(db, login, c) then None
    else
      var rows := SelectMessages(db, login, c, cursor);
      Some(MessageList(rows, LastStamp(rows, cursor) + 1))
  }

  // ---- Notifications ----------------------------------------------------------------------------------------------

  /** One entry of a notification list, addressed to one chat of the client. */
  datatype Event =
    | Added(chat: int, user: int)
    | Removed(chat: int, user: int)
    | NewAdmin(chat: int, user: int)
    | HasMessages(chat: int)
    | ReadUpTo(chat: int, ts: int)

  datatype Notifications = Notifications(
    lastTimestamp: int,
    friends: seq<int>,
    added: seq<Event>,
    removed: seq<Event>,
    admins: seq<Event>,
    withMessages: seq<Event>,
    readTimes: seq<Event>)

  function AddedFilter(db: Db, u: int, t: int): MemberRow -> bool {
    (r: MemberRow) => r.creation >= t && r.rem == 0 && HasEntry(db, u, r.chat)
  }

  /** get_notif_chat_members */
  function AddedEvents(db: Db, u: int, t: int): (out: seq<Event>)
    ensures forall e :: e in out ==> e.Added?
    ensures forall c, x :: Added(c, x) in out <==>
      exists r :: r in db.members && r.chat == c && r.user == x && r.creation >= t && r.rem == 0 && HasEntry(db, u, c)
  {
    Map((r: MemberRow) => Added(r.chat, r.user),
        Filter(db.members, AddedFilter(db, u, t)))
  }

  function RemovedFilter(db: Db, u: int, t: int): MemberRow -> bool {
    (r: MemberRow) => r.rem >= t && HasEntry(db, u, r.chat)
  }

  /** get_notif_chat_rem_members */
  function RemovedEvents(db: Db, u: int, t: int): (out: seq<Event>)
    ensures forall e :: e in out ==> e.Removed?
    ensures forall c, x :: Removed(c, x) in out <==>
      exists r :: r in db.members && r.chat == c && r.user == x && r.rem >= t && HasEntry(db, u, c)
  {
    Map((r: MemberRow) => Removed(r.chat, r.user),
        Filter(db.members, RemovedFilter(db, u, t)))
  }

  function AdminOf(db: Db, c: int): int {
    if c in db.chats then db.chats[c].admin else 0
  }

  function ReadTimeOf(db: Db, c: int): int {
    if c in db.chats then db.chats[c].readTime else 0
  }

  function AdminsFilter(db: Db, u: int, t: int): MemberRow -> bool {
    (r: MemberRow) => r.user == u && r.chat in db.chats && db.chats[r.chat].adminTime >= t
  }

  /** get_notif_chat_admins */
  function AdminEvents(db: Db, u: int, t: int): (out: seq<Event>)
    ensures forall e :: e in out ==> e.NewAdmin?
    ensures forall c, a :: NewAdmin(c, a) in out <==>
      c in db.chats && db.chats[c].admin == a && db.chats[c].adminTime >= t && HasEntry(db, u, c)
  {
    Map((r: MemberRow) => NewAdmin(r.chat, AdminOf(db, r.chat)),
        Filter(db.members, AdminsFilter(db, u, t)))
  }

  function MessagesFilter(db: Db, u: int, t: int): MemberRow -> bool {
    (r: MemberRow) => r.user == u && r.rem == 0
      && exists m :: m in db.messages && m.chat == r.chat && m.ts > r.creation && m.ts >= t
  }

  /** get_notif_chats_with_messages */
  function MessageEvents(db: Db, u: int, t: int): (out: seq<Event>)
    ensures forall e :: e in out ==> e.HasMessages?
    ensures forall c :: HasMessages(c) in out <==>
      exists r, m :: r in db.members && m in db.messages && r.user == u && r.chat == c && r.rem == 0
        && m.chat == c && m.ts > r.creation && m.ts >= t
  {
    Map((r: MemberRow) => HasMessages(r.chat),
        Filter(db.members, MessagesFilter(db, u, t)))
  }

  function ReadTimesFilter(db: Db, u: int): MemberRow -> bool {
    (r: MemberRow) => r.user == u && r.chat in db.chats
  }

  /** get_notif_chats_read_times, for every chat in which the user has a row, active or not. */
  function ReadTimeEvents(db: Db, u: int): (out: seq<Event>)
    ensures forall e :: e in out ==> e.ReadUpTo?
    ensures forall c, v :: ReadUpTo(c, v) in out <==>
      c in db.chats && db.chats[c].readTime == v && HasEntry(db, u, c)
  {
    Map((r: MemberRow) => ReadUpTo(r.chat, ReadTimeOf(db, r.chat)),
        Filter(db.members, ReadTimesFilter(db, u)))
  }

  /** The reply of psdims__get_pending_notifications, after its sync loop has run. */
  function GetNotifications(db: Db, now: int, u: int, t: int): Notifications {
    Notifications(now, SelectFriends(db, u, t), AddedEvents(db, u, t), RemovedEvents(db, u, t), AdminEvents(db, u, t),
                  MessageEvents(db, u, t), ReadTimeEvents(db, u))
  }
}

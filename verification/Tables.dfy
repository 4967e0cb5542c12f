// The MySQL tables of script/sql/db-psd.sql and the statements that src/server/persistence.c issues on them.
// A table without a primary key is a sequence of rows in insertion order; users and chats are keyed by ID.
module Tables {
  import opened Common

  datatype ChatRow = ChatRow(admin: int, description: string, creation: int, adminTime: int, valid: bool, readTime: int)
  datatype MemberRow = MemberRow(user: int, chat: int, creation: int, read: int, rem: int)
  datatype MessageRow = MessageRow(sender: int, chat: int, ts: int, text: string, file: Option<string>)
  datatype FriendRow = FriendRow(id1: int, id2: int, creation: int)

  datatype Db = Db(
    users: map<int, bool>,
    chats: map<int, ChatRow>,
    members: seq<MemberRow>,
    messages: seq<MessageRow>,
    friends: seq<FriendRow>,
    requests: seq<FriendRow>)

  /** The id of the row ('System') that the schema inserts without a VALID flag. */
  const SYSTEM := 1

  // ---- SELECT statements ------------------------------------------------------------------------------------------

  /** get_user_id finds only rows with VALID = 1, and so does the password lookup of check_login. */
  predicate UserValid(db: Db, u: int) {
    u in db.users && db.users[u]
  }

  predicate InChat(db: Db, u: int, c: int) {
    exists r :: r in db.members && r.user == u && r.chat == c && r.rem == 0
  }

  predicate HasEntry(db: Db, u: int, c: int) {
    exists r :: r in db.members && r.user == u && r.chat == c
  }

  predicate ChatExist(db: Db, c: int) {
    c in db.chats && db.chats[c].valid
  }

  predicate IsAdmin(db: Db, u: int, c: int) {
    c in db.chats && db.chats[c].admin == u
  }

  predicate StillUsers(db: Db, c: int) {
    exists r :: r in db.members && r.chat == c && r.rem == 0
  }

  function ActiveFilter(c: int): MemberRow -> bool {
    (r: MemberRow) => r.chat == c && r.rem == 0
  }

  predicate IsFirstActive(db: Db, c: int, i: nat) {
    && i < |db.members| && db.members[i].chat == c && db.members[i].rem == 0
    && forall j :: 0 <= j < i && db.members[j].chat == c ==> db.members[j].rem != 0
  }

  /** Row 0 of the active members of the chat, in table order. */
  function FirstUser(db: Db, c: int): (u: int)
    requires StillUsers(db, c)
    ensures exists i :: 0 <= i < |db.members| && db.members[i].user == u && IsFirstActive(db, c, i)
  {
    var rows := Filter(db.members, ActiveFilter(c));
    FilterFirst(db.members, ActiveFilter(c));
    assert rows != [] by {
      var r :| r in db.members && r.chat == c && r.rem == 0;
      assert r in rows;
    }
    assert rows[0] in rows;
    rows[0].user
  }

  predicate Friendly(db: Db, a: int, b: int) {
    exists f :: f in db.friends && ((f.id1 == a && f.id2 == b) || (f.id1 == b && f.id2 == a))
  }

  predicate Requested(db: Db, a: int, b: int) {
    exists f :: f in db.requests && f.id1 == a && f.id2 == b
  }

  predicate Stamped(db: Db, c: int, t: int) {
    exists m :: m in db.messages && m.chat == c && m.ts == t
  }

  /** The join condition of get_list_messages: sent strictly after the user's CREATION_TIME in the chat. */
  predicate VisibleTo(db: Db, u: int, m: MessageRow) {
    exists r :: r in db.members && r.user == u && r.chat == m.chat && m.ts > r.creation
  }

  function MessageFilter(db: Db, u: int, c: int, cursor: int): MessageRow -> bool {
    (m: MessageRow) => m.chat == c && m.ts >= cursor && VisibleTo(db, u, m)
  }

  /** The rows of get_list_messages, in insertion order. */
  function SelectMessages(db: Db, u: int, c: int, cursor: int): seq<MessageRow> {
    Filter(db.messages, MessageFilter(db, u, c, cursor))
  }

  /** The largest stamp of the rows, or the given floor. */
  function LastStamp(rows: seq<MessageRow>, floor: int): (t: int)
    ensures floor <= t
    ensures forall m :: m in rows ==> m.ts <= t
    ensures t == floor || exists m :: m in rows && m.ts == t
  {
    if rows == [] then floor
    else
      var last := rows[|rows| - 1];
      assert rows == rows[..|rows| - 1] + [last];
      Max(LastStamp(rows[..|rows| - 1], floor), last.ts)
  }

  /** The valid users befriended with u since t, without repetition (get_list_friends). */
  function SelectFriends(db: Db, u: int, t: int): (out: seq<int>)
    ensures forall v :: v in out <==> (
      && v != u && UserValid(db, v)
      && exists f :: f in db.friends && (f.id1 == v || f.id2 == v) && (f.id1 == u || f.id2 == u) && f.creation >= t)
  {
    FriendsOf(db, db.friends, u, t)
  }

  function FriendsOf(db: Db, rows: seq<FriendRow>, u: int, t: int): (out: seq<int>)
    ensures forall v :: v in out <==> (
      && v != u && UserValid(db, v)
      && exists f :: f in rows && (f.id1 == v || f.id2 == v) && (f.id1 == u || f.id2 == u) && f.creation >= t)
  {
    if rows == [] then []
    else
      var last := rows[|rows| - 1];
      assert rows == rows[..|rows| - 1] + [last];
      var out := FriendsOf(db, rows[..|rows| - 1], u, t);
      if (last.id1 != u && last.id2 != u) || last.creation < t then out
      else
        var v := if last.id1 == u then last.id2 else last.id1;
        if v == u || !UserValid(db, v) || v in out then out else out + [v]
  }

  // ---- INSERT, UPDATE and DELETE statements -----------------------------------------------------------------------

  function AddChat(db: Db, id: int, admin: int, description: string, now: int): Db {
    db.(chats := db.chats[id := ChatRow(admin, description, now, now, true, 0)])
  }

  /** Fails on an unknown user or chat: both columns are foreign keys. */
  function AddUserChat(db: Db, u: int, c: int, read: int, now: int): Option<Db> {
    if u in db.users && c in db.chats
    then Some(db.(members := db.members + [MemberRow(u, c, now, read, 0)]))
    else None
  }

  /** The row keeps its old READ_MSG_TIME. */
  function RecoverUserChat(db: Db, u: int, c: int, now: int): Db {
    db.(members := seq(|db.members|, i requires 0 <= i < |db.members| =>
      var r := db.members[i];
      if r.user == u && r.chat == c then r.(rem := 0, creation := now) else r))
  }

  function DelUserChat(db: Db, u: int, c: int, now: int): Db {
    db.(members := seq(|db.members|, i requires 0 <= i < |db.members| =>
      var r := db.members[i];
      if r.user == u && r.chat == c then r.(rem := now) else r))
  }

  function DelUserAllChats(db: Db, u: int, now: int): Db {
    db.(members := seq(|db.members|, i requires 0 <= i < |db.members| =>
      var r := db.members[i];
      if r.user == u then r.(rem := now) else r))
  }

  function DelChat(db: Db, c: int): Db {
    if c in db.chats then db.(chats := db.chats[c := db.chats[c].(valid := false)]) else db
  }

  function ChangeAdmin(db: Db, u: int, c: int, now: int): Db {
    if c in db.chats then db.(chats := db.chats[c := db.chats[c].(admin := u, adminTime := now)]) else db
  }

  /** The first statement of update_sync: READ_MSG_TIME only moves forward. */
  function SyncMember(db: Db, u: int, c: int, t: int): Db {
    db.(members := seq(|db.members|, i requires 0 <= i < |db.members| =>
      var r := db.members[i];
      if r.user == u && r.chat == c && r.read < t then r.(read := t) else r))
  }

  /** The second: READ_TIME is set when no active member of the chat has read less. */
  function SyncChat(db: Db, c: int, t: int): Db {
    if c !in db.chats || exists r :: r in db.members && r.chat == c && r.read < t && r.rem == 0
    then db
    else db.(chats := db.chats[c := db.chats[c].(readTime := t)])
  }

  function UpdateSync(db: Db, u: int, c: int, t: int): Db {
    SyncChat(SyncMember(db, u, c, t), c, t)
  }

  function InsertMessage(db: Db, c: int, u: int, now: int, text: string, file: Option<string>): Db {
    db.(messages := db.messages + [MessageRow(u, c, now, text, file)])
  }

  function OtherRequests(a: int, b: int): FriendRow -> bool {
    (f: FriendRow) => !(f.id1 == a && f.id2 == b)
  }

  function DeclineFriendRequest(db: Db, a: int, b: int): Db {
    db.(requests := Filter(db.requests, OtherRequests(a, b)))
  }

  function AcceptFriendRequest(db: Db, a: int, b: int, now: int): Db {
    DeclineFriendRequest(db.(friends := db.friends + [FriendRow(a, b, now)]), a, b)
  }

  /** Fails on an unknown user: both columns are foreign keys. */
  function SendRequest(db: Db, a: int, b: int, now: int): Option<Db> {
    if a in db.users && b in db.users then Some(db.(requests := db.requests + [FriendRow(a, b, now)])) else None
  }
}

// The request handlers of src/server/psd_ims_server.c in place: each one is a sequence of statements on the
// database, and ends in the state that the handler functions describe.
module Server {
  import opened Common
  import opened Tables
  import opened Handlers
  import opened Persistence
  import opened System
  import H = Handlers

  /** The sync loop over the pairs (chat id, read timestamp) that the client sends. */
  ghost function SyncList(db: Db, u: int, sync: seq<(int, int)>): Db {
    if sync == [] then db
    else
      var (c, t) := sync[|sync| - 1];
      UpdateSync(SyncList(db, u, sync[..|sync| - 1]), u, c, t)
  }

  /** psdims__client_data, without the friend requests. */
  datatype ClientData = ClientData(timestamp: int, chats: ChatList, friends: seq<int>)

  class Service {
    const db: Database
    /** time(NULL), which never runs backwards. */
    var clock: int

    constructor (clock: int)
      ensures Valid() && this.clock == clock && db.State() == Init(clock).db && fresh(db)
    {
      db := new Database();
      this.clock := clock;
    }

    /** AUTO_INCREMENT ids are positive, so -1 is no user's id. */
    ghost predicate Valid()
      reads this, db
    {
      forall u :: u in db.users ==> 1 <= u
    }

    function State(): Db
      reads this, db
    {
      db.State()
    }

    /** check_login without the password: the user's id, or -1. */
    function CheckLogin(login: int): (id: int)
      reads this, db
      ensures id == if UserValid(State(), login) then login else -1
    {
      db.GetUserId(login)
    }

    /** Time passes between requests. */
    method Sleep(seconds: nat)
      requires Valid()
      modifies `clock
      ensures Valid() && clock == old(clock) + seconds
    {
      clock := clock + seconds;
    }

    // ---- Users ----------------------------------------------------------------------------------------------------

    method UserRegister(u: int) returns (ok: bool)
      requires Valid()
      modifies db
      ensures Valid()
      ensures Outcome(State(), ok) == Register(old(State()), u)
    {
      if u in db.users || u < 1 {
        return false;
      }
      db.AddUser(u);
      ok := true;
    }

    method UserUnregister(login: int) returns (ok: bool)
      requires Valid()
      modifies db
      ensures Valid()
      ensures Outcome(State(), ok) == Unregister(old(State()), clock, login)
    {
      var id := CheckLogin(login);
      if id < 0 {
        return false;
      }
      var timestamp := clock;
      db.DelUser(login);
      db.DelUserAllChats(id, timestamp);
      ok := true;
    }

    // ---- Chats ----------------------------------------------------------------------------------------------------

    /** `newId` is the AUTO_INCREMENT value; the check of the member's id looks at the wrong variable. */
    method CreateChat(login: int, member: int, description: string, newId: int) returns (ok: bool)
      requires Valid()
      modifies db
      ensures Valid()
      ensures Outcome(State(), ok) == H.CreateChat(old(State()), clock, login, member, description, newId)
    {
      var idUser := CheckLogin(login);
      if idUser < 0 {
        return false;
      }
      var timestamp := clock;
      var idMember := db.GetUserId(member);
      db.AddChat(newId, idUser, description, timestamp);
      ok := db.AddUserChat(idUser, newId, timestamp, timestamp);
      // Both rows that the foreign keys ask for exist, so the fallback to del_chat is never taken.
      assert ok;
      ok := db.AddUserChat(idMember, newId, timestamp, timestamp);
    }

    method AddMember(login: int, name: int, c: int) returns (ok: bool)
      requires Valid()
      modifies db
      ensures Valid()
      ensures Outcome(State(), ok) == H.AddMember(old(State()), clock, login, name, c)
    {
      var idLogin := CheckLogin(login);
      if idLogin < 0 {
        return false;
      }
      var timestamp := clock;
      if !ChatExist(State(), c) {
        return false;
      }
      if !IsAdmin(State(), idLogin, c) {
        return false;
      }
      var idUser := db.GetUserId(name);
      if idUser == -1 {
        return false;
      }
      if idUser == idLogin {
        return false;
      }
      if !Friendly(State(), idUser, idLogin) {
        return false;
      }
      if InChat(State(), idUser, c) {
        return false;
      }
      if HasEntry(State(), idUser, c) {
        db.RecoverUserChat(idUser, c, timestamp);
        ok := true;
      } else {
        ok := db.AddUserChat(idUser, c, timestamp, timestamp);
      }
    }

    method RemoveMember(login: int, name: int, c: int) returns (ok: bool)
      requires Valid()
      modifies db
      ensures Valid()
      ensures Outcome(State(), ok) == H.RemoveMember(old(State()), clock, login, name, c)
    {
      var idLogin := CheckLogin(login);
      if idLogin < 0 {
        return false;
      }
      if !ChatExist(State(), c) {
        return false;
      }
      if !IsAdmin(State(), idLogin, c) {
        return false;
      }
      var idUser := db.GetUserId(name);
      if idUser == -1 {
        return false;
      }
      if idUser == idLogin {
        return false;
      }
      if !InChat(State(), idUser, c) {
        return false;
      }
      var timestamp := clock;
      db.DelUserChat(idUser, c, timestamp);
      ok := true;
    }

    method QuitFromChat(login: int, c: int) returns (ok: bool)
      requires Valid()
      modifies db
      ensures Valid()
      ensures Outcome(State(), ok) == Quit(old(State()), clock, login, c)
    {
      var idUser := CheckLogin(login);
      if idUser < 0 {
        return false;
      }
      if !ChatExist(State(), c) {
        return false;
      }
      if !InChat(State(), idUser, c) {
        return false;
      }
      var timestamp := clock;
      db.DelUserChat(idUser, c, timestamp);
      if StillUsers(State(), c) {
        if IsAdmin(State(), idUser, c) {
          var firstUser := FirstUser(State(), c);
          if firstUser == 1 {
            return false;
          }
          db.ChangeAdmin(firstUser, c, timestamp);
        }
      } else {
        db.DelChat(c);
      }
      ok := true;
    }

    // ---- Messages -------------------------------------------------------------------------------------------------

    /** The stamp is the first second in which the chat has no message yet; the handler sleeps until then. */
    method SendMessage(login: int, c: int, text: string, file: Option<string>) returns (ok: bool)
      requires Valid()
      modifies this, db
      ensures Valid()
      ensures SendOutcome(State(), clock, ok) == H.SendMessage(old(State()), old(clock), login, c, text, file)
    {
      var idUser := CheckLogin(login);
      if idUser < 0 {
        return false;
      }
      if !InChat(State(), idUser, c) {
        return false;
      }
      var localTime := clock;
      while Stamped(State(), c, localTime)
        invariant localTime == clock && State() == old(State())
        invariant FirstFree(State(), c, localTime) == FirstFree(State(), c, old(clock))
        decreases LastStamp(db.messages, 0) + 1 - localTime
      {
        clock := clock + 1;
        localTime := clock;
      }
      db.SendMessages(c, idUser, localTime, text, file);
      ok := true;
    }

    method GetChatMessages(login: int, c: int, cursor: int) returns (reply: Option<MessageList>)
      requires Valid()
      ensures reply == H.GetChatMessages(State(), login, c, cursor)
    {
      var id := CheckLogin(login);
      if id < 0 || !ChatExist(State(), c) || !InChat(State(), id, c) {
        return None;
      }
      var list := db.GetListMessages(c, id, cursor);
      reply := Some(list);
    }

    // ---- Chat lists and login data --------------------------------------------------------------------------------

    method GetChats(login: int, since: int) returns (reply: Option<ChatList>)
      requires Valid()
      ensures reply == if UserValid(State(), login) then Some(ListChats(State(), login, since)) else None
    {
      var id := CheckLogin(login);
      if id < 0 {
        return None;
      }
      var list := db.GetListChats(id, since);
      reply := Some(list);
    }

    method GetAllData(login: int) returns (reply: Option<ClientData>)
      requires Valid()
      ensures reply == if UserValid(State(), login)
                       then Some(ClientData(clock, ListChats(State(), login, 0), SelectFriends(State(), login, 0)))
                       else None
    {
      var id := CheckLogin(login);
      if id < 0 {
        return None;
      }
      var timestamp := clock;
      var list := db.GetListChats(id, 0);
      reply := Some(ClientData(timestamp, list, SelectFriends(State(), id, 0)));
    }

    // ---- Friends --------------------------------------------------------------------------------------------------

    method SendFriendRequest(login: int, name: int) returns (ok: bool)
      requires Valid()
      modifies db
      ensures Valid()
      ensures Outcome(State(), ok) == H.SendFriendRequest(old(State()), clock, login, name)
    {
      var idUser := CheckLogin(login);
      if idUser < 0 {
        return false;
      }
      var idName := db.GetUserId(name);
      if idName == idUser {
        return false;
      }
      var timestamp := clock;
      if Friendly(State(), idUser, idName) {
        return false;
      }
      if Requested(State(), idUser, idName) {
        return false;
      }
      ok := db.SendRequest(idUser, idName, timestamp);
    }

    method AcceptRequest(login: int, name: int) returns (ok: bool)
      requires Valid()
      modifies db
      ensures Valid()
      ensures Outcome(State(), ok) == H.AcceptRequest(old(State()), clock, login, name)
    {
      var idUser := CheckLogin(login);
      if idUser < 0 {
        return false;
      }
      var idName := db.GetUserId(name);
      var timestamp := clock;
      if !Requested(State(), idName, idUser) {
        return false;
      }
      db.AcceptFriendRequest(idName, idUser, timestamp);
      ok := true;
    }

    method DeclineRequest(login: int, name: int) returns (ok: bool)
      requires Valid()
      modifies db
      ensures Valid()
      ensures Outcome(State(), ok) == H.DeclineRequest(old(State()), login, name)
    {
      var idUser := CheckLogin(login);
      if idUser < 0 {
        return false;
      }
      var idName := db.GetUserId(name);
      if !Requested(State(), idName, idUser) {
        return false;
      }
      db.DeclineFriendRequest(idName, idUser);
      ok := true;
    }

    // ---- Sync -----------------------------------------------------------------------------------------------------

    method GetPendingNotifications(login: int, timestamp: int, sync: seq<(int, int)>)
      returns (reply: Option<Notifications>)
      requires Valid()
      modifies db
      ensures Valid()
      ensures reply.Some? <==> UserValid(old(State()), login)
      ensures State() == if reply.Some? then SyncList(old(State()), login, sync) else old(State())
      ensures reply.Some? ==> reply.value == GetNotifications(State(), clock, login, timestamp)
    {
      var idUser := CheckLogin(login);
      if idUser < 0 {
        return None;
      }
      hide UpdateSync, GetNotifications;
      for i := 0 to |sync|
        invariant db.users == old(db.users)
        invariant State() == SyncList(old(State()), login, sync[..i])
      {
        assert sync[..i + 1][..i] == sync[..i];
        db.UpdateSync(idUser, sync[i].0, sync[i].1);
      }
      assert sync[..|sync|] == sync;
      var n := db.GetNotifs(idUser, timestamp, clock);
      reply := Some(n);
    }
  }
}

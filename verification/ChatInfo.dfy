// struct chat_info of src/client/chats.h and its operations in src/client/chats.c, in place, over two linked lists.
module ChatInfo {
  import opened Common
  import opened Tables
  import opened Handlers
  import opened Window
  import opened Replica
  import LinkedList
  import R = Replica

  class Chat {
    const id: int
    var readTimestamp: int
    var allReadTimestamp: int
    var unreadMessages: int
    var pendingMessages: int
    var admin: int
    /** The timestamp kept in the list_info of the message list. */
    var messagesTimestamp: int
    const members: LinkedList.List<int>
    const messages: LinkedList.List<Stored>

    /** The chat as a value. */
    ghost var copy: ChatCopy
    ghost var Repr: set<object>

    ghost predicate Valid()
      reads this, Repr
      ensures Valid() ==> this in Repr
    {
      && this in Repr && members in Repr && messages in Repr
      && members.Repr <= Repr && messages.Repr <= Repr
      && this !in members.Repr && this !in messages.Repr && members.Repr !! messages.Repr
      && members.Valid() && messages.Valid()
      && members.maxElems == MAX_MEMBERS && messages.maxElems == MAX_MESSAGES
      && (forall x, y :: members.itemComp(x, y) <==> x == y)
      && (forall x, y :: messages.itemComp(x, y) <==> x.ts == y.ts)
      && copy == copy.(readTs := readTimestamp, allReadTs := allReadTimestamp, pending := pendingMessages,
                       admin := admin, cursor := messagesTimestamp, members := members.Contents,
                       box := Box(messages.Contents, unreadMessages))
    }

    /** The rest of cha_add_chat, which fills in the members, is AddCopy of the replica. */
    constructor (id: int, admin: int, readTimestamp: int, allReadTimestamp: int, ghost join: int,
                 ghost reportedFrom: int)
      ensures Valid() && fresh(Repr) && this.id == id
      ensures copy == BlankCopy(readTimestamp, allReadTimestamp, admin, join, reportedFrom)
    {
      this.id := id;
      this.readTimestamp := readTimestamp;
      this.allReadTimestamp := allReadTimestamp;
      unreadMessages := 0;
      pendingMessages := 0;
      this.admin := admin;
      messagesTimestamp := 0;
      members := new LinkedList.List<int>(MAX_MEMBERS, (x, y) => x == y);
      messages := new LinkedList.List<Stored>(MAX_MESSAGES, (x: Stored, y: Stored) => x.ts == y.ts);
      copy := BlankCopy(readTimestamp, allReadTimestamp, admin, join, reportedFrom);
      new;
      Repr := {this} + members.Repr + messages.Repr;
    }

    // ---- Messages -------------------------------------------------------------------------------------------------

    /** mes_add_message, then the unread update. */
    method PushMessage(m: Stored) returns (ok: bool)
      requires Valid()
      modifies Repr
      ensures Valid() && fresh(Repr - old(Repr))
      ensures ok == Push(old(copy.box), MAX_MESSAGES, copy.readTs, m).ok
      ensures copy == old(copy).(box := Push(old(copy.box), MAX_MESSAGES, copy.readTs, m).box)
    {
      ok := messages.AddItem(m);
      Repr := Repr + messages.Repr;
      if ok && m.ts > readTimestamp {
        unreadMessages := unreadMessages + 1;
      }
      copy := copy.(box := Box(messages.Contents, unreadMessages));
    }

    method DelFirstMessages(n: int)
      requires Valid()
      modifies Repr
      ensures Valid() && fresh(Repr - old(Repr))
      ensures copy == old(copy).(box := old(copy.box).(items := DropFirst(old(copy.box.items), n)))
    {
      messages.DeleteFirst(n);
      copy := copy.(box := Box(messages.Contents, unreadMessages));
    }

    /** cha_add_message */
    method AddMessage(m: Stored) returns (ok: bool)
      requires Valid()
      modifies Repr
      ensures Valid() && fresh(Repr - old(Repr))
      ensures var r := Window.AddMessage(old(copy.box), MAX_MESSAGES, old(copy.readTs), m);
        ok == r.ok && copy == old(copy).(box := r.box)
    {
      if messages.nElems >= messages.maxElems {
        DelFirstMessages(1);
      }
      ok := PushMessage(m);
    }

    /** The insertion loop of cha_add_messages. */
    method PushMessages(batch: seq<Stored>) returns (ok: bool)
      requires Valid()
      modifies Repr
      ensures Valid() && fresh(Repr - old(Repr))
      ensures var r := PushAll(old(copy.box), MAX_MESSAGES, old(copy.readTs), batch);
        ok == r.ok && copy == old(copy).(box := r.box)
    {
      var i := 0;
      while i < |batch|
        invariant 0 <= i <= |batch|
        invariant Valid() && fresh(Repr - old(Repr))
        invariant copy == old(copy).(box := copy.box)
        invariant PushAll(copy.box, MAX_MESSAGES, copy.readTs, batch[i..])
               == PushAll(old(copy.box), MAX_MESSAGES, old(copy.readTs), batch)
      {
        assert batch[i..][0] == batch[i] && batch[i..][1..] == batch[i + 1..];
        ok := PushMessage(batch[i]);
        if !ok {
          // mes_del_last_messages has an empty body: what was added stays.
          return;
        }
        i := i + 1;
      }
      assert batch[i..] == [];
      ok := true;
    }

    /** cha_add_messages */
    method AddMessages(batch: seq<Stored>) returns (ok: bool)
      requires Valid()
      modifies Repr
      ensures Valid() && fresh(Repr - old(Repr))
      ensures var r := Window.AddMessages(old(copy.box), MAX_MESSAGES, old(copy.readTs), batch);
        ok == r.ok && copy == old(copy).(box := r.box)
    {
      var skip := 0;
      if |batch| > messages.maxElems {
        skip := |batch| - messages.maxElems;
      }
      var gapsNeeded := |batch| - skip - (messages.maxElems - messages.nElems);
      if gapsNeeded > 0 {
        DelFirstMessages(gapsNeeded);
      }
      ok := PushMessages(batch[skip..]);
    }

    /** _recv_messages, from the arrived reply on. */
    method RecvMessages(user: int, list: MessageList) returns (n: int)
      requires Valid()
      modifies Repr
      ensures Valid() && fresh(Repr - old(Repr))
      ensures copy == Receive(old(copy), user, list)
      ensures n == if Takes(old(copy), user, list) then |list.rows| else -1
    {
      var batch := LocalizeRows(user, list.rows);
      var ok := AddMessages(batch);
      if !ok {
        return -1;
      }
      pendingMessages := 0;
      messagesTimestamp := list.lastTimestamp;
      copy := copy.(pending := 0, cursor := list.lastTimestamp, log := copy.log + batch,
                    skipped := copy.skipped + Skips(copy.cursor, list),
                    appended := copy.appended + TakeLast(MAX_MESSAGES, batch));
      n := |list.rows|;
    }

    /** cha_clear_unread, reached through the message iterator. */
    method ClearUnread()
      requires Valid()
      modifies this
      ensures Valid() && Repr == old(Repr) && copy == R.ClearUnread(old(copy))
    {
      if messages.nElems != 0 {
        unreadMessages := 0;
        readTimestamp := messagesTimestamp;
        copy := R.ClearUnread(copy);
      }
    }

    // ---- Members, admin and flags ---------------------------------------------------------------------------------

    /** cha_add_member */
    method AddMember(x: int) returns (ok: bool)
      requires Valid()
      modifies Repr
      ensures Valid() && fresh(Repr - old(Repr))
      ensures copy == CopyEvent(old(copy), Added(id, x))
      ensures ok <==> x !in old(copy.members) && |old(copy.members)| < MAX_MEMBERS
    {
      ok := members.AddItem(x);
      Repr := Repr + members.Repr;
      copy := CopyEvent(copy, Added(id, x));
    }

    /** cha_del_member */
    method DelMember(x: int) returns (ok: bool)
      requires Valid()
      modifies Repr
      ensures Valid() && fresh(Repr - old(Repr))
      ensures copy == CopyEvent(old(copy), Removed(id, x))
      ensures ok <==> x in old(copy.members)
    {
      var node, k := members.FindNode(y => y == x);
      if node == null {
        copy := CopyEvent(copy, Removed(id, x));
        return false;
      }
      WithoutAt(members.Contents, x, k);
      members.DeleteNode(node, k);
      copy := CopyEvent(copy, Removed(id, x));
      ok := true;
    }

    /** cha_change_admin */
    method ChangeAdmin(x: int) returns (ok: bool)
      requires Valid()
      modifies this
      ensures Valid() && Repr == old(Repr)
      ensures copy == CopyEvent(old(copy), NewAdmin(id, x))
      ensures ok <==> x in copy.members
    {
      var item := members.FindItem(y => y == x);
      if item == None {
        return false;
      }
      admin := x;
      copy := CopyEvent(copy, NewAdmin(id, x));
      ok := true;
    }

    method SetPending()
      requires Valid()
      modifies this
      ensures Valid() && Repr == old(Repr) && copy == CopyEvent(old(copy), HasMessages(id))
    {
      pendingMessages := 1;
      copy := copy.(pending := 1);
    }

    method SetAllReadTimestamp(v: int)
      requires Valid()
      modifies this
      ensures Valid() && Repr == old(Repr) && copy == CopyEvent(old(copy), ReadUpTo(id, v))
    {
      allReadTimestamp := v;
      copy := copy.(allReadTs := v);
    }

    /** One entry of a notification list, applied to the chat that it names. */
    method Apply(e: Event)
      requires Valid()
      modifies Repr
      ensures Valid() && fresh(Repr - old(Repr)) && copy == CopyEvent(old(copy), e)
    {
      match e {
        case Added(_, x) => var ok := AddMember(x);
        case Removed(_, x) => var ok := DelMember(x);
        case NewAdmin(_, x) => var ok := ChangeAdmin(x);
        case HasMessages(_) => SetPending();
        case ReadUpTo(_, v) => SetAllReadTimestamp(v);
      }
    }
  }

  /** The window accepts the whole reply. */
  predicate Takes(copy: ChatCopy, user: int, list: MessageList) {
    Window.AddMessages(copy.box, MAX_MESSAGES, copy.readTs, LocalizeAll(user, list.rows)).ok
  }

  /** The loop of _recv_messages that turns the reply into client messages. */
  method LocalizeRows(user: int, rows: seq<MessageRow>) returns (batch: seq<Stored>)
    ensures batch == LocalizeAll(user, rows) && ShowsAll(batch, user, rows)
  {
    batch := [];
    for i := 0 to |rows|
      invariant batch == LocalizeAll(user, rows[..i])
    {
      assert rows[..i + 1][..i] == rows[..i];
      var m := rows[i];
      batch := batch + [Stored(if m.sender == user then None else Some(m.sender), m.text, m.ts, m.file)];
    }
    assert rows[..|rows|] == rows;
  }

  /** Deleting the first matching node is deleting the first occurrence. */
  lemma {:induction false} WithoutAt(xs: seq<int>, x: int, k: nat)
    requires k < |xs| && xs[k] == x && forall j :: 0 <= j < k ==> xs[j] != x
    ensures Without(xs, x) == xs[..k] + xs[k + 1..]
  {
    if k > 0 {
      WithoutAt(xs[1..], x, k - 1);
      assert xs[..k] + xs[k + 1..] == [xs[0]] + (xs[1..][..k - 1] + xs[1..][k..]);
    }
  }
}

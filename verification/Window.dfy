// The bounded message window of one chat: cha_add_message and cha_add_messages of src/client/chats.c over the
// list operations of src/client/messages.c, on the list's contents.
module Window {
  import opened Common

  /** A message as the client keeps it; sender None marks the client's own messages. */
  datatype Stored = Stored(sender: Option<int>, text: string, ts: int, file: Option<string>)

  /** The messages kept for a chat and its unread counter. */
  datatype Box = Box(items: seq<Stored>, unread: int)

  datatype Pushed = Pushed(box: Box, ok: bool)

  predicate HasStamp(items: seq<Stored>, t: int) {
    exists m :: m in items && m.ts == t
  }

  ghost predicate DistinctStamps(items: seq<Stored>) {
    forall i, j :: 0 <= i < j < |items| ==> items[i].ts != items[j].ts
  }

  /** How many of the messages are newer than the chat's read stamp. */
  function CountAbove(items: seq<Stored>, readTs: int): nat {
    if items == [] then 0 else (if items[0].ts > readTs then 1 else 0) + CountAbove(items[1..], readTs)
  }

  /** mes_add_message followed by the unread update; a full list or a known stamp refuses the message. */
  function Push(b: Box, max: nat, readTs: int, m: Stored): Pushed {
    if |b.items| >= max || HasStamp(b.items, m.ts) then Pushed(b, false)
    else Pushed(Box(b.items + [m], b.unread + if m.ts > readTs then 1 else 0), true)
  }

  /** cha_add_message: makes room by dropping the oldest message. */
  function AddMessage(b: Box, max: nat, readTs: int, m: Stored): Pushed {
    Push(if |b.items| >= max then b.(items := DropFirst(b.items, 1)) else b, max, readTs, m)
  }

  /** The insertion loop of cha_add_messages; its rollback, mes_del_last_messages, deletes nothing. */
  function PushAll(b: Box, max: nat, readTs: int, batch: seq<Stored>): Pushed
    decreases |batch|
  {
    if batch == [] then Pushed(b, true)
    else
      var r := Push(b, max, readTs, batch[0]);
      if r.ok then PushAll(r.box, max, readTs, batch[1..]) else r
  }

  /** cha_add_messages: skips what cannot fit anyway, then makes the room that is missing. */
  function AddMessages(b: Box, max: nat, readTs: int, batch: seq<Stored>): Pushed {
    var skip := if |batch| > max then |batch| - max else 0;
    var gapsNeeded := |batch| - skip - (max - |b.items|);
    PushAll(b.(items := DropFirst(b.items, gapsNeeded)), max, readTs, batch[skip..])
  }

  /** One cha_add_message per element. */
  function AddEach(b: Box, max: nat, readTs: int, batch: seq<Stored>): Box
    decreases |batch|
  {
    if batch == [] then b else AddEach(AddMessage(b, max, readTs, batch[0]).box, max, readTs, batch[1..])
  }

  lemma {:induction false} CountAboveConcat(xs: seq<Stored>, ys: seq<Stored>, readTs: int)
    ensures CountAbove(xs + ys, readTs) == CountAbove(xs, readTs) + CountAbove(ys, readTs)
  {
    if xs == [] {
      assert xs + ys == ys;
    } else {
      assert (xs + ys)[1..] == xs[1..] + ys;
      CountAboveConcat(xs[1..], ys, readTs);
    }
  }

  lemma {:induction false} CountAboveZero(xs: seq<Stored>, readTs: int)
    ensures CountAbove(xs, readTs) == 0 <==> forall m :: m in xs ==> m.ts <= readTs
  {
    if xs != [] {
      CountAboveZero(xs[1..], readTs);
      assert xs == [xs[0]] + xs[1..];
    }
  }

  /** With room for the whole batch, the loop succeeds exactly when no stamp repeats, and then appends the batch. */
  lemma {:induction false} PushAllExact(b: Box, max: nat, readTs: int, batch: seq<Stored>)
    requires |b.items| + |batch| <= max
    requires DistinctStamps(b.items)
    ensures var r := PushAll(b, max, readTs, batch);
      && (r.ok <==> DistinctStamps(b.items + batch))
      && (r.ok ==> r.box == Box(b.items + batch, b.unread + CountAbove(batch, readTs)))
    decreases |batch|
  {
    if batch == [] {
      assert b.items + batch == b.items;
    } else {
      var all := b.items + batch;
      assert all == (b.items + [batch[0]]) + batch[1..];
      var r := Push(b, max, readTs, batch[0]);
      if r.ok {
        PushAllExact(r.box, max, readTs, batch[1..]);
      } else {
        var i :| 0 <= i < |b.items| && b.items[i].ts == batch[0].ts;
        assert all[i].ts == all[|b.items|].ts;
      }
    }
  }

  /** The k-th stamp is the first that repeats. */
  ghost predicate StopsAt(all: seq<Stored>, k: nat) {
    k < |all| && DistinctStamps(all[..k]) && HasStamp(all[..k], all[k].ts)
  }

  /** When the loop fails, it has appended what comes before the first repeated stamp. */
  lemma {:induction false} PushAllStops(b: Box, max: nat, readTs: int, batch: seq<Stored>) returns (n: nat)
    requires |b.items| + |batch| <= max && DistinctStamps(b.items) && !PushAll(b, max, readTs, batch).ok
    ensures n < |batch| && StopsAt(b.items + batch, |b.items| + n)
    ensures PushAll(b, max, readTs, batch).box
         == Box(b.items + batch[..n], b.unread + CountAbove(batch[..n], readTs))
    decreases |batch|
  {
    var r := Push(b, max, readTs, batch[0]);
    if r.ok {
      PushedDistinct(b.items, batch[0]);
      var k := PushAllStops(r.box, max, readTs, batch[1..]);
      n := k + 1;
      hide DistinctStamps, HasStamp, PushAll;
      OneFurther(b, readTs, batch, k);
    } else {
      n := 0;
      assert (b.items + batch)[..|b.items|] == b.items && b.items + batch[..0] == b.items;
    }
  }

  lemma PushedDistinct(items: seq<Stored>, m: Stored)
    requires DistinctStamps(items) && !HasStamp(items, m.ts)
    ensures DistinctStamps(items + [m])
  {
  }

  lemma OneFurther(b: Box, readTs: int, batch: seq<Stored>, n: nat)
    requires n + 1 < |batch|
    ensures (b.items + [batch[0]]) + batch[1..] == b.items + batch
    ensures (b.items + [batch[0]]) + batch[1..][..n] == b.items + batch[..n + 1]
    ensures CountAbove(batch[..n + 1], readTs)
      == (if batch[0].ts > readTs then 1 else 0) + CountAbove(batch[1..][..n], readTs)
  {
    assert batch[..n + 1][1..] == batch[1..][..n];
  }

  lemma DistinctDropFirst(items: seq<Stored>, n: int)
    requires DistinctStamps(items)
    ensures DistinctStamps(DropFirst(items, n))
  {
  }

  /** The room made and the messages skipped leave the last `max` of old ++ batch. */
  lemma KeptSplit(items: seq<Stored>, batch: seq<Stored>, max: nat)
    requires |items| <= max
    ensures var skip := if |batch| > max then |batch| - max else 0;
      DropFirst(items, |batch| - skip - (max - |items|)) + batch[skip..] == TakeLast(max, items + batch)
  {
  }

  /** cha_add_messages succeeds exactly when the messages it means to keep have distinct stamps. It then keeps the
      last `max` of old ++ batch, for a batch of any size, and counts the unread ones among the kept part of the
      batch. */
  lemma BatchExact(b: Box, max: nat, readTs: int, batch: seq<Stored>)
    requires |b.items| <= max && DistinctStamps(b.items)
    ensures var r := AddMessages(b, max, readTs, batch);
      var kept := TakeLast(max, b.items + batch);
      && (r.ok <==> DistinctStamps(kept))
      && (r.ok ==> r.box == Box(kept, b.unread + CountAbove(TakeLast(max, batch), readTs)))
  {
    hide DistinctStamps, DropFirst;
    var skip := if |batch| > max then |batch| - max else 0;
    var gapsNeeded := |batch| - skip - (max - |b.items|);
    var rest := DropFirst(b.items, gapsNeeded);
    assert batch[skip..] == TakeLast(max, batch);
    KeptSplit(b.items, batch, max);
    DistinctDropFirst(b.items, gapsNeeded);
    PushAllExact(b.(items := rest), max, readTs, batch[skip..]);
  }

  /** When it fails, it leaves the beginning of that, up to the first message whose stamp repeats: the rollback takes
      nothing back. */
  lemma BatchStops(b: Box, max: nat, readTs: int, batch: seq<Stored>) returns (k: nat)
    requires |b.items| <= max && DistinctStamps(b.items) && !AddMessages(b, max, readTs, batch).ok
    ensures var kept := TakeLast(max, b.items + batch);
      var stay := |kept| - |TakeLast(max, batch)|;
      && stay <= k < |kept| && StopsAt(kept, k)
      && AddMessages(b, max, readTs, batch).box == Box(kept[..k], b.unread + CountAbove(kept[stay..k], readTs))
  {
    hide DistinctStamps, DropFirst, HasStamp, StopsAt;
    var skip := if |batch| > max then |batch| - max else 0;
    var gapsNeeded := |batch| - skip - (max - |b.items|);
    var rest := DropFirst(b.items, gapsNeeded);
    assert batch[skip..] == TakeLast(max, batch);
    KeptSplit(b.items, batch, max);
    DistinctDropFirst(b.items, gapsNeeded);
    var n := PushAllStops(b.(items := rest), max, readTs, batch[skip..]);
    k := |rest| + n;
    var kept := TakeLast(max, b.items + batch);
    assert kept[..k] == rest + batch[skip..][..n] && kept[|rest|..k] == batch[skip..][..n];
  }

  /** One message is refused exactly when its stamp is among the messages that stay; the oldest is dropped to make room
      all the same. */
  lemma AddOneExact(b: Box, max: nat, readTs: int, m: Stored)
    requires 1 <= max && |b.items| <= max
    ensures var stay := TakeLast(max - 1, b.items);
      AddMessage(b, max, readTs, m) ==
        if HasStamp(stay, m.ts) then Pushed(b.(items := stay), false)
        else Pushed(Box(TakeLast(max, b.items + [m]), b.unread + if m.ts > readTs then 1 else 0), true)
  {
  }

  lemma DistinctTakeLast(max: nat, xs: seq<Stored>, ys: seq<Stored>)
    requires DistinctStamps(xs + ys)
    ensures DistinctStamps(TakeLast(max, xs) + ys)
  {
    var drop := |xs| - |TakeLast(max, xs)|;
    assert TakeLast(max, xs) + ys == (xs + ys)[drop..];
  }

  lemma {:induction false} AddEachExact(b: Box, max: nat, readTs: int, batch: seq<Stored>)
    requires 1 <= max && |b.items| <= max && DistinctStamps(b.items + batch)
    ensures AddEach(b, max, readTs, batch)
         == Box(TakeLast(max, b.items + batch), b.unread + CountAbove(batch, readTs))
    decreases |batch|
  {
    if batch == [] {
      assert b.items + batch == b.items;
    } else {
      var m, rest := batch[0], batch[1..];
      assert b.items + batch == (b.items + [m]) + rest;
      FreshHead(b.items, m, rest);
      AddOneExact(b, max, readTs, m);
      DistinctTakeLast(max, b.items + [m], rest);
      AddEachExact(AddMessage(b, max, readTs, m).box, max, readTs, rest);
      TakeLastTwice(max, b.items + [m], rest);
    }
  }

  lemma FreshHead(xs: seq<Stored>, m: Stored, rest: seq<Stored>)
    requires DistinctStamps((xs + [m]) + rest)
    ensures !HasStamp(xs, m.ts)
  {
    var all := (xs + [m]) + rest;
    assert all[|xs|] == m;
    assert forall i :: 0 <= i < |xs| ==> all[i] == xs[i];
  }

  lemma SkippedUnread(batch: seq<Stored>, max: nat, readTs: int)
    ensures CountAbove(TakeLast(max, batch), readTs) == CountAbove(batch, readTs) <==>
      forall i :: 0 <= i < |batch| - max ==> batch[i].ts <= readTs
  {
    var skip := if |batch| > max then |batch| - max else 0;
    assert batch == batch[..skip] + TakeLast(max, batch);
    CountAboveConcat(batch[..skip], TakeLast(max, batch), readTs);
    CountAboveZero(batch[..skip], readTs);
    assert forall i :: 0 <= i < skip ==> batch[..skip][i] == batch[i];
  }

  /** The batch form refines one-at-a-time appends: same window for every batch of fresh distinct stamps, and the
      same unread counter if and only if no message it skipped was newer than the read stamp. */
  lemma BatchRefinesFold(b: Box, max: nat, readTs: int, batch: seq<Stored>)
    requires 1 <= max && |b.items| <= max && DistinctStamps(b.items + batch)
    ensures var r := AddMessages(b, max, readTs, batch);
      var each := AddEach(b, max, readTs, batch);
      && r.ok && r.box.items == each.items
      && (r.box.unread == each.unread <==>
          forall i :: 0 <= i < |batch| - max ==> batch[i].ts <= readTs)
  {
    var all := b.items + batch;
    assert forall i :: 0 <= i < |b.items| ==> all[i] == b.items[i];
    BatchExact(b, max, readTs, batch);
    AddEachExact(b, max, readTs, batch);
    hide DistinctStamps, CountAbove, AddMessages, AddEach, TakeLast;
    SkippedUnread(batch, max, readTs);
  }
}

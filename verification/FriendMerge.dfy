// The client's friend list of src/client/friends.c and the merge with rollback of psd_recv_friends.
module FriendMerge {
  import opened Replica
  import LinkedList

  /** A user's name is unique, and stands here as the user's id. */
  datatype Friend = Friend(name: int, information: string)

  ghost predicate DistinctNames(friends: seq<Friend>) {
    forall i, j :: 0 <= i < j < |friends| ==> friends[i].name != friends[j].name
  }

  /** What one merge can achieve: everything fits and no name repeats. */
  ghost predicate Mergeable(friends: seq<Friend>, batch: seq<Friend>) {
    |friends| + |batch| <= MAX_FRIENDS && DistinctNames(friends + batch)
  }

  class Friends {
    const list: LinkedList.List<Friend>
    ghost var Repr: set<object>

    ghost predicate Valid()
      reads this, Repr
      ensures Valid() ==> this in Repr
    {
      && this in Repr && list in Repr && list.Repr <= Repr && this !in list.Repr
      && list.Valid() && list.maxElems == MAX_FRIENDS
      && (forall x, y :: list.itemComp(x, y) <==> x.name == y.name)
    }

    ghost function Contents(): seq<Friend>
      reads this, list
    {
      list.Contents
    }

    constructor ()
      ensures Valid() && fresh(Repr) && Contents() == []
    {
      list := new LinkedList.List<Friend>(MAX_FRIENDS, (x: Friend, y: Friend) => x.name == y.name);
      new;
      Repr := {this} + list.Repr;
    }

    /** fri_add_friend */
    method AddFriend(friend: Friend) returns (ok: bool)
      requires Valid()
      modifies Repr
      ensures Valid() && fresh(Repr - old(Repr))
      ensures ok <==> |old(Contents())| < MAX_FRIENDS && forall x :: x in old(Contents()) ==> x.name != friend.name
      ensures Contents() == if ok then old(Contents()) + [friend] else old(Contents())
    {
      ok := list.AddItem(friend);
      Repr := Repr + list.Repr;
    }

    /** fri_del_friend: the first friend of the name. */
    method DelFriend(name: int) returns (ok: bool, ghost k: nat)
      requires Valid()
      modifies Repr
      ensures Valid() && fresh(Repr - old(Repr))
      ensures k <= |old(Contents())| && forall j :: 0 <= j < k ==> old(Contents())[j].name != name
      ensures ok <==> k < |old(Contents())|
      ensures ok ==> old(Contents())[k].name == name
      ensures Contents() == if ok then old(Contents())[..k] + old(Contents())[k + 1..] else old(Contents())
    {
      var node;
      node, k := list.FindNode((x: Friend) => x.name == name);
      if node == null {
        return false, k;
      }
      list.DeleteNode(node, k);
      ok := true;
    }

    /** fri_find_friend */
    method FindFriend(name: int) returns (found: bool)
      requires Valid()
      ensures found <==> exists x :: x in Contents() && x.name == name
    {
      var item := list.FindItem((x: Friend) => x.name == name);
      found := item.Some?;
    }

    /** The undo loop: the first i friends of the batch, last one first. */
    method Rollback(batch: seq<Friend>, i: nat, ghost before: seq<Friend>) returns (critical: bool)
      requires Valid() && i <= |batch| && Contents() == before + batch[..i]
      modifies Repr
      ensures Valid() && fresh(Repr - old(Repr))
      ensures !critical && Contents() == before
    {
      critical := false;
      var j := i - 1;
      AllNamesDiffer();
      while j >= 0 && !critical
        invariant -1 <= j < i && !critical
        invariant Valid() && fresh(Repr - old(Repr))
        invariant Contents() == before + batch[..j + 1] && DistinctNames(before + batch[..j + 1])
        decreases j
      {
        var ok, k := DelFriend(batch[j].name);
        LastOfName(before + batch[..j + 1], k);
        DropLastOne(before, batch, j);
        critical := !ok;
        j := j - 1;
      }
      assert before + batch[..0] == before;
    }

    lemma AllNamesDiffer()
      requires Valid()
      ensures DistinctNames(Contents())
    {
    }

    /** psd_recv_friends after the reply has arrived: all of the batch, or nothing and the old order. The result is the
        size of the batch or -1; the "could not restore" exit, which `critical` reports, is never taken. */
    method RecvFriends(batch: seq<Friend>) returns (n: int, critical: bool)
      requires Valid()
      modifies Repr
      ensures Valid() && fresh(Repr - old(Repr))
      ensures !critical
      ensures n == if Mergeable(old(Contents()), batch) then |batch| else -1
      ensures Contents() == if Mergeable(old(Contents()), batch) then old(Contents()) + batch else old(Contents())
    {
      critical := false;
      ghost var before := Contents();
      AllNamesDiffer();
      assert before + batch[..0] == before;
      var i := 0;
      while i < |batch|
        invariant 0 <= i <= |batch|
        invariant Valid() && fresh(Repr - old(Repr))
        invariant Contents() == before + batch[..i] && Mergeable(before, batch[..i])
      {
        var ok := AddFriend(batch[i]);
        if !ok {
          NotMergeable(before, batch, i);
          break;
        }
        MergeOne(before, batch, i);
        i := i + 1;
      }
      if i < |batch| {
        critical := Rollback(batch, i, before);
        return -1, critical;
      }
      assert batch[..i] == batch;
      n := |batch|;
    }
  }

  lemma MergeOne(before: seq<Friend>, batch: seq<Friend>, i: nat)
    requires i < |batch| && Mergeable(before, batch[..i]) && |before| + i < MAX_FRIENDS
    requires forall x :: x in before + batch[..i] ==> x.name != batch[i].name
    ensures before + batch[..i] + [batch[i]] == before + batch[..i + 1]
    ensures Mergeable(before, batch[..i + 1])
  {
  }

  lemma NotMergeable(before: seq<Friend>, batch: seq<Friend>, i: nat)
    requires i < |batch|
    requires |before + batch[..i]| >= MAX_FRIENDS || exists x :: x in before + batch[..i] && x.name == batch[i].name
    ensures !Mergeable(before, batch)
  {
    if exists x :: x in before + batch[..i] && x.name == batch[i].name {
      var k :| 0 <= k < |before + batch[..i]| && (before + batch[..i])[k].name == batch[i].name;
      assert (before + batch)[k] == (before + batch[..i])[k];
      assert (before + batch)[|before| + i] == batch[i];
    }
  }

  /** In a list without repeated names the search for the last name ends at the last friend. */
  lemma LastOfName(friends: seq<Friend>, k: nat)
    requires friends != [] && DistinctNames(friends) && k <= |friends|
    requires forall j :: 0 <= j < k ==> friends[j].name != friends[|friends| - 1].name
    requires k < |friends| ==> friends[k].name == friends[|friends| - 1].name
    ensures k == |friends| - 1
  {
    var last := friends[|friends| - 1];
    assert k == |friends| || friends[k].name == last.name;
  }

  lemma DropLastOne(before: seq<Friend>, batch: seq<Friend>, j: nat)
    requires j < |batch| && DistinctNames(before + batch[..j + 1])
    ensures var all := before + batch[..j + 1]; all[..|all| - 1] + all[|all|..] == before + batch[..j]
    ensures DistinctNames(before + batch[..j])
  {
  }
}

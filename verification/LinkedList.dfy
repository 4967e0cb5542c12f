// The generic list of src/common/list.c: a circular doubly linked list through a ghost node, with a capacity and no
// two items that compare equal.
module LinkedList {
  import opened Common

  /** A list node; the ghost node carries no item. */
  class Node<T> {
    var item: Option<T>
    var next: Node<T>
    var prev: Node<T>

    constructor (item: Option<T>)
      ensures this.item == item && next == this && prev == this
    {
      this.item := item;
      next := this;
      prev := this;
    }
  }

  /** No item compares equal to a later one. */
  ghost predicate NoneEqual<T>(items: seq<T>, itemComp: (T, T) -> bool) {
    forall i, j :: 0 <= i < j < |items| ==> !itemComp(items[i], items[j])
  }

  lemma NoneEqualDelete<T>(items: seq<T>, itemComp: (T, T) -> bool, k: nat)
    requires NoneEqual(items, itemComp) && k < |items|
    ensures NoneEqual(items[..k] + items[k + 1..], itemComp)
  {
  }

  /** No node twice, except for the first one at the end. */
  ghost predicate OneRound<T>(ring: seq<Node<T>>) {
    forall i, j :: 0 <= i < j < |ring| - 1 ==> ring[i] != ring[j]
  }

  lemma OneRoundDelete<T>(ring: seq<Node<T>>, k: nat)
    requires OneRound(ring) && 0 < k < |ring| - 1 && ring[|ring| - 1] == ring[0]
    ensures OneRound(ring[..k] + ring[k + 1..])
    ensures forall i :: 0 <= i < |ring| && i != k ==> ring[i] != ring[k]
    ensures forall i :: 0 <= i < |ring| - 1 && ring[i] == ring[k - 1] ==> i == k - 1
    ensures forall i :: 0 < i < |ring| && ring[i] == ring[k + 1] ==> i == k + 1
  {
  }

  class List<T> {
    const ghostItem: Node<T>
    const maxElems: int
    /** item_comp, read as "compares equal". */
    const itemComp: (T, T) -> bool
    var nElems: int

    /** The items, first to last. */
    ghost var Contents: seq<T>
    /** The nodes in ring order, with the ghost node at both ends. */
    ghost var ring: seq<Node<T>>
    ghost var Repr: set<object>

    /** The nodes form one ring through the ghost node, backward order is forward order reversed, and the counter
        tells its length. */
    ghost predicate Valid()
      reads this, Repr
      ensures Valid() ==> this in Repr
    {
      && this in Repr
      && |ring| == |Contents| + 2 && ring[0] == ring[|ring| - 1] == ghostItem
      && (forall i :: 0 <= i < |ring| ==> ring[i] in Repr)
      && OneRound(ring)
      && (forall i {:trigger ring[i].next} :: 0 <= i < |ring| - 1 ==> ring[i].next == ring[i + 1])
      && (forall i {:trigger ring[i].prev} :: 0 < i < |ring| ==> ring[i].prev == ring[i - 1])
      && (forall i {:trigger ring[i].item} :: 0 < i < |ring| - 1 ==> ring[i].item == Some(Contents[i - 1]))
      && nElems == |Contents| <= Max(maxElems, 0)
      && NoneEqual(Contents, itemComp)
    }

    constructor (maxElems: int, itemComp: (T, T) -> bool)
      ensures Valid() && fresh(Repr) && Contents == []
      ensures this.maxElems == maxElems && this.itemComp == itemComp
    {
      ghostItem := new Node<T>(None);
      this.maxElems := maxElems;
      this.itemComp := itemComp;
      nElems := 0;
      new;
      Contents := [];
      ring := [ghostItem, ghostItem];
      Repr := {this, ghostItem};
    }

    /** _find_node, with item_value_comp or item_comp fixed to one value: the first node whose item matches. */
    method FindNode(matches: T -> bool) returns (node: Node?<T>, ghost k: nat)
      requires Valid()
      ensures k <= |Contents| && forall j :: 0 <= j < k ==> !matches(Contents[j])
      ensures node == null <==> k == |Contents|
      ensures node != null ==> node == ring[k + 1] && matches(Contents[k])
    {
      var current := ghostItem.next;
      k := 0;
      while current != ghostItem
        invariant k <= |Contents| && current == ring[k + 1]
        invariant forall j :: 0 <= j < k ==> !matches(Contents[j])
        decreases |Contents| - k
      {
        assert k != |Contents|;
        if matches(current.item.value) {
          return current, k;
        }
        current := current.next;
        k := k + 1;
      }
      node := null;
    }

    /** _node_add: before the ghost node, that is, at the end. */
    method NodeAdd(node: Node<T>)
      requires Valid() && node !in Repr && node.item.Some? && nElems < maxElems
      requires forall x :: x in Contents ==> !itemComp(x, node.item.value)
      modifies this, Repr, node
      ensures Valid() && Repr == old(Repr) + {node}
      ensures ring == old(ring)[..|old(ring)| - 1] + [node, ghostItem]
      ensures Contents == old(Contents) + [old(node.item.value)]
    {
      var last := ghostItem.prev;
      assert ring[|ring| - 1].prev == ring[|ring| - 2];
      node.next := ghostItem;
      node.prev := last;
      last.next := node;
      ghostItem.prev := node;
      nElems := nElems + 1;
      ring := ring[..|ring| - 1] + [node, ghostItem];
      Contents := Contents + [node.item.value];
      Repr := Repr + {node};
    }

    /** list_add_item: refuses when the list is full or has an equal item. */
    method AddItem(item: T) returns (ok: bool)
      requires Valid()
      modifies this, Repr
      ensures Valid() && fresh(Repr - old(Repr))
      ensures ok <==> |old(Contents)| < maxElems && forall x :: x in old(Contents) ==> !itemComp(x, item)
      ensures Contents == if ok then old(Contents) + [item] else old(Contents)
    {
      if nElems >= maxElems {
        return false;
      }
      var found, k := FindNode(x => itemComp(x, item));
      if found != null {
        return false;
      }
      var node := new Node<T>(Some(item));
      NodeAdd(node);
      ok := true;
    }

    /** _node_delete and the count: the ring closes over the gap, and every other node keeps its item. */
    method DeleteNode(node: Node<T>, ghost k: nat)
      requires Valid() && k < |Contents| && node == ring[k + 1]
      modifies this, Repr
      ensures Valid() && Repr == old(Repr) - {node}
      ensures ring == old(ring)[..k + 1] + old(ring)[k + 2..]
      ensures Contents == old(Contents)[..k] + old(Contents)[k + 1..]
    {
      NoneEqualDelete(Contents, itemComp, k);
      OneRoundDelete(ring, k + 1);
      hide NoneEqual, OneRound;
      assert ring[k + 1].prev == ring[k] && ring[k + 1].next == ring[k + 2];
      node.prev.next := node.next;
      node.next.prev := node.prev;
      nElems, ring, Contents, Repr :=
        nElems - 1, ring[..k + 1] + ring[k + 2..], Contents[..k] + Contents[k + 1..], Repr - {node};
      forall i | 0 <= i < |ring| - 1 ensures ring[i].next == ring[i + 1] && ring[i + 1].prev == ring[i] {
        var j := if i <= k then i else i + 1;
        assert ring[i] == old(ring)[j];
        assert old(ring[j].next) == old(ring[j + 1]) && old(ring[j + 1].prev) == old(ring[j]);
      }
      forall i | 0 < i < |ring| - 1 ensures ring[i].item == Some(Contents[i - 1]) {
        var j := if i <= k then i else i + 1;
        assert ring[i] == old(ring)[j] && old(ring[j].item) == Some(old(Contents)[j - 1]);
      }
    }

    /** list_find_item */
    method FindItem(matches: T -> bool) returns (item: Option<T>)
      requires Valid()
      ensures item == None ==> forall x :: x in Contents ==> !matches(x)
      ensures item != None ==> exists k :: 0 <= k < |Contents| && Contents[k] == item.value && matches(item.value)
                                        && forall j :: 0 <= j < k ==> !matches(Contents[j])
    {
      var node, k := FindNode(matches);
      item := if node != null then node.item else None;
    }

    /** list_delete_first: the loop stops quietly when the list runs empty. */
    method DeleteFirst(numElems: int)
      requires Valid()
      modifies this, Repr
      ensures Valid() && Repr <= old(Repr)
      ensures Contents == DropFirst(old(Contents), numElems)
    {
      var left := numElems;
      while left > 0
        invariant Valid() && Repr <= old(Repr)
        invariant left <= Max(numElems, 0) && (left >= 0 || left == numElems)
        invariant Contents == DropFirst(old(Contents), numElems - left)
      {
        assert ring[0].next == ring[1];
        if ghostItem.next == ghostItem {
          assert Contents == [];
          return;
        }
        DeleteNode(ghostItem.next, 0);
        left := left - 1;
      }
    }

    /** list_delete_last */
    method DeleteLast(numElems: int)
      requires Valid()
      modifies this, Repr
      ensures Valid() && Repr <= old(Repr)
      ensures Contents == DropLast(old(Contents), numElems)
    {
      var left := numElems;
      while left > 0
        invariant Valid() && Repr <= old(Repr)
        invariant left <= Max(numElems, 0) && (left >= 0 || left == numElems)
        invariant Contents == DropLast(old(Contents), numElems - left)
      {
        assert ring[|ring| - 1].prev == ring[|ring| - 2];
        if ghostItem.prev == ghostItem {
          assert Contents == [];
          return;
        }
        DeleteNode(ghostItem.prev, |Contents| - 1);
        left := left - 1;
      }
    }

    /** list_free: deletes the node after the ghost node until the ghost node is alone. */
    method Free()
      requires Valid()
      modifies this, Repr
      ensures Valid() && Contents == [] && Repr <= old(Repr)
    {
      while ghostItem != ghostItem.next
        invariant Valid() && Repr <= old(Repr)
        decreases |Contents|
      {
        assert ring[0].next == ring[1];
        DeleteNode(ghostItem.next, 0);
      }
      assert ring[0].next == ring[1];
    }

    /** The list iterator: list_iterator, then list_iterator_next until it is NULL. */
    method Forward() returns (items: seq<T>)
      requires Valid()
      ensures items == Contents
    {
      items := [];
      var it: Node?<T> := if ghostItem.next != ghostItem then ghostItem.next else null;
      assert ring[0].next == ring[1];
      while it != null
        invariant |items| <= |Contents| && items == Contents[..|items|]
        invariant if it == null then |items| == |Contents| else |items| < |Contents| && it == ring[|items| + 1]
        decreases |Contents| - |items|
      {
        ghost var k := |items| + 1;
        assert ring[k].next == ring[k + 1];
        items := items + [it.item.value];
        it := if it.next != ghostItem then it.next else null;
      }
    }

    /** The same backwards with list_iterator_prev, from the last node: it meets the items in reverse order. */
    method Backward() returns (items: seq<T>)
      requires Valid()
      ensures |items| == |Contents| && forall i :: 0 <= i < |items| ==> items[i] == Contents[|Contents| - 1 - i]
    {
      items := [];
      var it: Node?<T> := if ghostItem.prev != ghostItem then ghostItem.prev else null;
      assert ring[|ring| - 1].prev == ring[|ring| - 2];
      while it != null
        invariant |items| <= |Contents|
        invariant forall i :: 0 <= i < |items| ==> items[i] == Contents[|Contents| - 1 - i]
        invariant if it == null then |items| == |Contents| else |items| < |Contents| && it == ring[|Contents| - |items|]
        decreases |Contents| - |items|
      {
        ghost var k := |Contents| - |items|;
        assert ring[k].prev == ring[k - 1];
        items := items + [it.item.value];
        it := if it.prev != ghostItem then it.prev else null;
      }
    }
  }
}

// The allocation registry of src/common/leak_detector_c.c: a singly linked chain with head and tail pointers, and the
// replacements of malloc, calloc, realloc and free that keep it.
module Registry {
  import opened Common

  /** struct _MEM_INFO without the source position. */
  datatype Entry = Entry(address: int, size: int)

  // ---- As values --------------------------------------------------------------------------------------------------

  datatype Log = Log(entries: seq<Entry>, alloc: int, allocErrors: int, freeErrors: int)

  /** A call, with what the C library answers: None is NULL. */
  datatype Op =
    | Malloc(size: int, result: Option<int>)
    | Calloc(elements: int, size: int, result: Option<int>)
    | Realloc(ptr: int, size: int, result: Option<int>)
    | Free(ptr: int)

  predicate Tracked(entries: seq<Entry>, a: int) {
    exists e :: e in entries && e.address == a
  }

  /** Without the first entry of the address. */
  function Remove(entries: seq<Entry>, a: int): seq<Entry> {
    if entries == [] then []
    else if entries[0].address == a then entries[1..]
    else [entries[0]] + Remove(entries[1..], a)
  }

  /** xrealloc and xcalloc do not count a failure, and xrealloc does not look whether it removed anything. */
  function Apply(g: Log, op: Op): Log {
    match op
    case Malloc(size, None) => g.(allocErrors := g.allocErrors + 1)
    case Malloc(size, Some(p)) => g.(entries := g.entries + [Entry(p, size)], alloc := g.alloc + 1)
    case Calloc(n, size, None) => g
    case Calloc(n, size, Some(p)) => g.(entries := g.entries + [Entry(p, n * size)], alloc := g.alloc + 1)
    case Realloc(q, size, None) => g
    case Realloc(q, size, Some(p)) => g.(entries := Remove(g.entries, q) + [Entry(p, size)])
    case Free(q) =>
      if Tracked(g.entries, q) then g.(entries := Remove(g.entries, q), alloc := g.alloc - 1)
      else g.(freeErrors := g.freeErrors + 1)
  }

  function After(ops: seq<Op>): Log {
    if ops == [] then Log([], 0, 0, 0) else Apply(After(ops[..|ops| - 1]), ops[|ops| - 1])
  }

  lemma {:induction false} RemoveAt(entries: seq<Entry>, a: int, k: nat)
    requires k <= |entries| && (forall j :: 0 <= j < k ==> entries[j].address != a)
    requires k < |entries| ==> entries[k].address == a
    ensures Remove(entries, a) == if k < |entries| then entries[..k] + entries[k + 1..] else entries
  {
    if k == 0 || entries == [] {
    } else {
      RemoveAt(entries[1..], a, k - 1);
      assert entries == [entries[0]] + entries[1..];
    }
  }

  lemma {:induction false} Position(entries: seq<Entry>, a: int) returns (k: nat)
    ensures k <= |entries| && (forall j :: 0 <= j < k ==> entries[j].address != a)
    ensures k < |entries| ==> entries[k].address == a
    ensures k < |entries| <==> Tracked(entries, a)
  {
    if entries == [] || entries[0].address == a {
      k := 0;
      assert entries != [] ==> entries[0] in entries;
    } else {
      var j := Position(entries[1..], a);
      k := j + 1;
      assert entries == [entries[0]] + entries[1..];
      assert k < |entries| ==> entries[k] in entries;
    }
  }

  lemma RemoveUntracked(entries: seq<Entry>, a: int)
    requires !Tracked(entries, a)
    ensures Remove(entries, a) == entries
  {
  }

  // ---- In place ---------------------------------------------------------------------------------------------------

  class Leak {
    var info: Entry
    var next: Leak?

    constructor (info: Entry)
      ensures this.info == info && next == null
    {
      this.info := info;
      next := null;
    }
  }

  ghost predicate NoRepeat(chain: seq<Leak>) {
    forall i, j :: 0 <= i < j < |chain| ==> chain[i] != chain[j]
  }

  lemma NoRepeatDelete(chain: seq<Leak>, k: nat)
    requires NoRepeat(chain) && k < |chain|
    ensures NoRepeat(chain[..k] + chain[k + 1..])
    ensures forall j :: 0 <= j < |chain| && j != k ==> chain[j] != chain[k]
    ensures k > 0 ==> forall j :: 0 <= j < |chain| && j != k - 1 ==> chain[j] != chain[k - 1]
  {
  }

  class LeakDetector {
    var ptrStart: Leak?
    var ptrLast: Leak?
    var nElemsList: int
    var nElemsAlloc: int
    var nAllocErrors: int
    var nFreeErrors: int

    /** The nodes in chain order, and what they hold. */
    ghost var chain: seq<Leak>
    ghost var entries: seq<Entry>
    ghost var Repr: set<object>

    ghost predicate Valid()
      reads this, Repr
    {
      && this in Repr && (forall i :: 0 <= i < |chain| ==> chain[i] in Repr)
      && |chain| == |entries| == nElemsList
      && NoRepeat(chain)
      && (forall i {:trigger chain[i].info} :: 0 <= i < |chain| ==> chain[i].info == entries[i])
      && (forall i {:trigger chain[i].next} :: 0 <= i < |chain| ==> chain[i].next == NodeAt(i + 1))
      && ptrStart == NodeAt(0) && ptrLast == NodeAt(|chain| - 1)
    }

    /** The i-th node, or NULL beyond the ends. */
    ghost function NodeAt(i: int): Leak?
      reads `chain
    {
      if 0 <= i < |chain| then chain[i] else null
    }

    ghost function Value(): Log
      reads this
    {
      Log(entries, nElemsAlloc, nAllocErrors, nFreeErrors)
    }

    constructor ()
      ensures Valid() && fresh(Repr) && chain == [] && Value() == After([])
    {
      ptrStart, ptrLast := null, null;
      nElemsList, nElemsAlloc, nAllocErrors, nFreeErrors := 0, 0, 0, 0;
      chain, entries, Repr := [], [], {this};
    }

    /** add_mem_info */
    method AddMemInfo(address: int, size: int)
      requires Valid()
      modifies Repr
      ensures Valid() && fresh(Repr - old(Repr))
      ensures Value() == old(Value()).(entries := old(entries) + [Entry(address, size)])
    {
      var memLeak := new Leak(Entry(address, size));
      if ptrStart == null {
        ptrStart := memLeak;
        ptrLast := memLeak;
      } else {
        ptrLast.next := memLeak;
        ptrLast := memLeak;
      }
      nElemsList := nElemsList + 1;
      chain := chain + [memLeak];
      entries := entries + [memLeak.info];
      Repr := Repr + {memLeak};
    }

    /** The deletion in remove_mem_info, for the node at k and the one before it. */
    method Unlink(leakInfo: Leak, leakInfoPrev: Leak?, ghost k: nat)
      requires Valid() && k < |chain| && leakInfo == chain[k] && leakInfoPrev == NodeAt(k - 1)
      modifies Repr
      ensures Valid() && Repr == old(Repr)
      ensures Value() == old(Value()).(entries := old(entries)[..k] + old(entries)[k + 1..])
    {
      assert leakInfo.next == NodeAt(k + 1);
      NoRepeatDelete(chain, k);
      hide NoRepeat;
      if leakInfoPrev == null {
        ptrStart := leakInfo.next;
        if ptrLast == leakInfo {
          ptrLast := null;
        }
      } else {
        leakInfoPrev.next := leakInfo.next;
        if ptrLast == leakInfo {
          ptrLast := leakInfoPrev;
        }
      }
      nElemsList, chain, entries := nElemsList - 1, chain[..k] + chain[k + 1..], entries[..k] + entries[k + 1..];
      assert ptrStart == NodeAt(0) && ptrLast == NodeAt(|chain| - 1);
      forall i | 0 <= i < |chain|
        ensures chain[i] in Repr && chain[i].info == entries[i] && chain[i].next == NodeAt(i + 1)
      {
        var j := if i < k then i else i + 1;
        assert chain[i] == old(chain)[j];
        assert old(chain[j].info) == old(entries)[j] && old(chain[j].next) == old(NodeAt(j + 1));
      }
    }

    /** remove_mem_info: false is -1. */
    method RemoveMemInfo(address: int) returns (ok: bool)
      requires Valid()
      modifies Repr
      ensures Valid() && Repr == old(Repr)
      ensures ok <==> Tracked(old(entries), address)
      ensures Value() == old(Value()).(entries := Remove(old(entries), address))
    {
      var leakInfo, leakInfoPrev := ptrStart, null;
      ghost var k := 0;
      while leakInfo != null
        invariant 0 <= k <= |chain| && leakInfo == NodeAt(k) && leakInfoPrev == NodeAt(k - 1)
        invariant forall j :: 0 <= j < k ==> entries[j].address != address
        decreases |chain| - k
      {
        if leakInfo.info.address == address {
          assert entries[k] in entries;
          RemoveAt(entries, address, k);
          Unlink(leakInfo, leakInfoPrev, k);
          return true;
        }
        leakInfoPrev := leakInfo;
        leakInfo := leakInfo.next;
        k := k + 1;
      }
      RemoveAt(entries, address, k);
      ok := false;
    }

    /** xmalloc */
    method XMalloc(size: int, result: Option<int>)
      requires Valid()
      modifies Repr
      ensures Valid() && fresh(Repr - old(Repr)) && Value() == Apply(old(Value()), Malloc(size, result))
    {
      match result {
        case None => nAllocErrors := nAllocErrors + 1;
        case Some(ptr) =>
          nElemsAlloc := nElemsAlloc + 1;
          AddMemInfo(ptr, size);
      }
    }

    /** xcalloc */
    method XCalloc(elements: int, size: int, result: Option<int>)
      requires Valid()
      modifies Repr
      ensures Valid() && fresh(Repr - old(Repr)) && Value() == Apply(old(Value()), Calloc(elements, size, result))
    {
      if result.Some? {
        nElemsAlloc := nElemsAlloc + 1;
        var totalSize := elements * size;
        AddMemInfo(result.value, totalSize);
      }
    }

    /** xrealloc */
    method XRealloc(ptr: int, size: int, result: Option<int>)
      requires Valid()
      modifies Repr
      ensures Valid() && fresh(Repr - old(Repr)) && Value() == Apply(old(Value()), Realloc(ptr, size, result))
    {
      if result.Some? {
        var ignored := RemoveMemInfo(ptr);
        AddMemInfo(result.value, size);
      }
    }

    /** xfree */
    method XFree(ptr: int)
      requires Valid()
      modifies Repr
      ensures Valid() && fresh(Repr - old(Repr)) && Value() == Apply(old(Value()), Free(ptr))
    {
      var ok := RemoveMemInfo(ptr);
      if ok {
        nElemsAlloc := nElemsAlloc - 1;
      } else {
        RemoveUntracked(old(entries), ptr);
        nFreeErrors := nFreeErrors + 1;
      }
    }
  }

  // ---- Every sequence of calls ------------------------------------------------------------------------------------

  /** The i-th call is a successful xrealloc of a pointer that is not in the list, for example of NULL. */
  predicate Untracked(ops: seq<Op>, i: int)
    requires 0 <= i < |ops|
  {
    ops[i].Realloc? && ops[i].result.Some? && !Tracked(After(ops[..i]).entries, ops[i].ptr)
  }

  function UntrackedCount(ops: seq<Op>): nat {
    if ops == [] then 0
    else UntrackedCount(ops[..|ops| - 1]) + if Untracked(ops, |ops| - 1) then 1 else 0
  }

  /** n_elems_list runs ahead of n_elems_alloc by the xreallocs of pointers that the registry did not know. */
  lemma {:induction false} CountersDiffer(ops: seq<Op>)
    ensures |After(ops).entries| == After(ops).alloc + UntrackedCount(ops)
  {
    if ops != [] {
      var front, op := ops[..|ops| - 1], ops[|ops| - 1];
      CountersDiffer(front);
      if op.Realloc? || op.Free? {
        var k := Position(After(front).entries, op.ptr);
        RemoveAt(After(front).entries, op.ptr, k);
      }
    }
  }

  /** The two counters agree if and only if every pointer that was ever reallocated was in the list at that moment. */
  lemma CountersAgreeExactly(ops: seq<Op>)
    ensures |After(ops).entries| == After(ops).alloc <==> forall i :: 0 <= i < |ops| ==> !Untracked(ops, i)
  {
    CountersDiffer(ops);
    NoneUntracked(ops);
  }

  lemma {:induction false} NoneUntracked(ops: seq<Op>)
    ensures UntrackedCount(ops) == 0 <==> forall i :: 0 <= i < |ops| ==> !Untracked(ops, i)
  {
    if ops != [] {
      var n := |ops| - 1;
      NoneUntracked(ops[..n]);
      forall i | 0 <= i < n ensures Untracked(ops[..n], i) == Untracked(ops, i) {
        assert ops[..n][..i] == ops[..i];
      }
      hide After, Untracked;
      if UntrackedCount(ops) != 0 && UntrackedCount(ops[..n]) != 0 {
        var i :| 0 <= i < n && Untracked(ops[..n], i);
        assert Untracked(ops, i);
      }
    }
  }

  /** The failed xmallocs. */
  ghost function FailedMallocs(ops: seq<Op>): set<int> {
    set i | 0 <= i < |ops| && ops[i].Malloc? && ops[i].result.None?
  }

  /** The xfrees of pointers that were not in the list. */
  ghost function UnknownFrees(ops: seq<Op>): set<int> {
    set i | 0 <= i < |ops| && ops[i].Free? && !Tracked(After(ops[..i]).entries, ops[i].ptr)
  }

  lemma ErrorsLast(ops: seq<Op>)
    requires ops != []
    ensures var n, op := |ops| - 1, ops[|ops| - 1];
      && FailedMallocs(ops) == FailedMallocs(ops[..n]) + (if op.Malloc? && op.result.None? then {n} else {})
      && UnknownFrees(ops) == UnknownFrees(ops[..n])
           + (if op.Free? && !Tracked(After(ops[..n]).entries, op.ptr) then {n} else {})
      && n !in FailedMallocs(ops[..n]) && n !in UnknownFrees(ops[..n])
  {
    var n := |ops| - 1;
    forall i | 0 <= i < n ensures ops[..n][..i] == ops[..i] {
    }
    hide After, Tracked;
  }

  /** Of the errors, exactly the failed xmallocs and the xfrees of unknown pointers are counted: a failed xcalloc or
      xrealloc is not. */
  lemma {:induction false} ErrorsCounted(ops: seq<Op>)
    ensures After(ops).allocErrors == |FailedMallocs(ops)| && After(ops).freeErrors == |UnknownFrees(ops)|
  {
    if ops == [] {
      assert FailedMallocs(ops) == {} && UnknownFrees(ops) == {};
    } else {
      var n := |ops| - 1;
      ErrorsCounted(ops[..n]);
      ErrorsLast(ops);
      assert After(ops) == Apply(After(ops[..n]), ops[n]);
      hide After, FailedMallocs, UnknownFrees, Tracked, Remove;
    }
  }

  lemma ReallocNull(p: int)
    ensures var g := After([Realloc(0, 1, Some(p))]); |g.entries| == 1 && g.alloc == 0
  {
  }

  /** The address that a call puts in the list, and the one that it takes out. */
  function Registered(op: Op): Option<Entry> {
    match op
    case Malloc(size, Some(p)) => Some(Entry(p, size))
    case Calloc(n, size, Some(p)) => Some(Entry(p, n * size))
    case Realloc(_, size, Some(p)) => Some(Entry(p, size))
    case _ => None
  }

  /** The address that a call takes out of the list. */
  function Released(op: Op): Option<int> {
    match op
    case Free(q) => Some(q)
    case Realloc(q, _, Some(_)) => Some(q)
    case _ => None
  }

  function Kept(entries: seq<Entry>, op: Op): seq<Entry> {
    match Released(op)
    case None => entries
    case Some(q) => Remove(entries, q)
  }

  lemma ApplyEntries(g: Log, op: Op)
    ensures Apply(g, op).entries ==
      Kept(g.entries, op) + if Registered(op) == None then [] else [Registered(op).value]
  {
    if op.Free? && !Tracked(g.entries, op.ptr) {
      RemoveUntracked(g.entries, op.ptr);
    }
  }

  /** The allocator never returns an address that is in use; a reallocated block may stay where it is. */
  ghost predicate Honest(ops: seq<Op>) {
    forall i :: 0 <= i < |ops| && Registered(ops[i]).Some? ==>
      forall e :: e in After(ops[..i]).entries && e.address == Registered(ops[i]).value.address ==>
        Released(ops[i]) == Some(e.address)
  }

  /** The call registered a block that no later call released. */
  ghost predicate Live(ops: seq<Op>, i: int)
    requires 0 <= i < |ops|
  {
    && Registered(ops[i]).Some?
    && forall j :: i < j < |ops| ==> Released(ops[j]) != Some(Registered(ops[i]).value.address)
  }

  /** `at` lists those of the first n calls whose blocks are live, in order, and the entries are theirs. */
  ghost predicate Indexes(ops: seq<Op>, n: nat, at: seq<int>, entries: seq<Entry>)
    requires n <= |ops|
  {
    && |at| == |entries|
    && (forall k :: 0 <= k < |at| ==> 0 <= at[k] < n && Live(ops, at[k]) && Registered(ops[at[k]]) == Some(entries[k]))
    && (forall j, k :: 0 <= j < k < |at| ==> at[j] < at[k])
    && (forall i :: 0 <= i < n && Live(ops, i) ==> i in at)
  }

  ghost predicate DistinctAddresses(entries: seq<Entry>) {
    forall i, j :: 0 <= i < j < |entries| ==> entries[i].address != entries[j].address
  }

  lemma {:induction false} PrefixHonest(ops: seq<Op>, n: nat)
    requires Honest(ops) && n <= |ops|
    ensures Honest(ops[..n])
  {
    forall i | 0 <= i < n ensures ops[..n][..i] == ops[..i] && ops[..n][i] == ops[i] {
    }
  }

  lemma KeptWithout(g: seq<Entry>, op: Op)
    requires DistinctAddresses(g)
    ensures DistinctAddresses(Kept(g, op))
    ensures forall e :: e in Kept(g, op) ==> e in g && Released(op) != Some(e.address)
  {
    if Released(op).Some? {
      var k := Position(g, Released(op).value);
      RemoveAt(g, Released(op).value, k);
    }
  }

  /** With an allocator that does not hand out addresses in use, the list has no address twice. */
  lemma {:induction false} AddressesDistinct(ops: seq<Op>)
    requires Honest(ops)
    ensures DistinctAddresses(After(ops).entries)
  {
    if ops != [] {
      var n := |ops| - 1;
      PrefixHonest(ops, n);
      AddressesDistinct(ops[..n]);
      var g := After(ops[..n]);
      ApplyEntries(g, ops[n]);
      KeptWithout(g.entries, ops[n]);
      hide Apply, Kept, Released;
      var kept := Kept(g.entries, ops[n]);
      assert forall j :: 0 <= j < |kept| ==> kept[j] in kept;
    }
  }

  lemma LiveStep(ops: seq<Op>, i: nat)
    requires i + 1 < |ops|
    ensures Live(ops, i) <==>
      Live(ops[..|ops| - 1], i) && Released(ops[|ops| - 1]) != Some(Registered(ops[i]).value.address)
  {
  }

  /** The last call releases the block of the call was[k]. */
  lemma WithoutBlock(ops: seq<Op>, was: seq<int>, g: seq<Entry>, k: nat)
    requires ops != [] && Indexes(ops[..|ops| - 1], |ops| - 1, was, g) && DistinctAddresses(g)
    requires k < |g| && Released(ops[|ops| - 1]) == Some(g[k].address)
    ensures Indexes(ops, |ops| - 1, was[..k] + was[k + 1..], g[..k] + g[k + 1..])
  {
    var n, at, rest := |ops| - 1, was[..k] + was[k + 1..], g[..k] + g[k + 1..];
    hide Live, Registered, Released;
    forall i | 0 <= i < |at|
      ensures 0 <= at[i] < n && Live(ops, at[i]) && Registered(ops[at[i]]) == Some(rest[i])
    {
      var j := if i < k then i else i + 1;
      assert at[i] == was[j] && rest[i] == g[j];
      LiveStep(ops, was[j]);
    }
    OthersIn(ops, was, g, k);
    assert forall i, j :: 0 <= i < j < |at| ==> at[i] < at[j];
  }

  lemma OthersIn(ops: seq<Op>, was: seq<int>, g: seq<Entry>, k: nat)
    requires ops != [] && Indexes(ops[..|ops| - 1], |ops| - 1, was, g)
    requires k < |g| && Released(ops[|ops| - 1]) == Some(g[k].address)
    ensures forall i :: 0 <= i < |ops| - 1 && Live(ops, i) ==> i in was[..k] + was[k + 1..]
  {
    hide Registered, Released;
    forall i | 0 <= i < |ops| - 1 && Live(ops, i) ensures i in was[..k] + was[k + 1..] {
      LiveStep(ops, i);
      hide Live;
      var j :| 0 <= j < |was| && was[j] == i;
      assert j != k;
      assert (was[..k] + was[k + 1..])[if j < k then j else j - 1] == i;
    }
  }

  lemma WithAllBlocks(ops: seq<Op>, was: seq<int>, g: seq<Entry>)
    requires ops != [] && Indexes(ops[..|ops| - 1], |ops| - 1, was, g)
    requires forall k :: 0 <= k < |g| ==> Released(ops[|ops| - 1]) != Some(g[k].address)
    ensures Indexes(ops, |ops| - 1, was, g)
  {
  }

  /** The last call leaves those blocks live that it does not release. */
  lemma Surviving(ops: seq<Op>, was: seq<int>, g: seq<Entry>) returns (at: seq<int>)
    requires ops != [] && Indexes(ops[..|ops| - 1], |ops| - 1, was, g) && DistinctAddresses(g)
    ensures Indexes(ops, |ops| - 1, at, Kept(g, ops[|ops| - 1]))
  {
    var n := |ops| - 1;
    at := was;
    assert |was| == |g|;
    hide Indexes, DistinctAddresses;
    if Released(ops[n]) == None {
      WithAllBlocks(ops, was, g);
    } else {
      var k := Position(g, Released(ops[n]).value);
      RemoveAt(g, Released(ops[n]).value, k);
      if k < |g| {
        at := was[..k] + was[k + 1..];
        WithoutBlock(ops, was, g, k);
      } else {
        WithAllBlocks(ops, was, g);
      }
    }
  }

  lemma LastCall(ops: seq<Op>, at: seq<int>, entries: seq<Entry>)
    requires ops != [] && Indexes(ops, |ops| - 1, at, entries)
    ensures var n := |ops| - 1;
      if Registered(ops[n]) == None then Indexes(ops, |ops|, at, entries)
      else Indexes(ops, |ops|, at + [n], entries + [Registered(ops[n]).value])
  {
  }

  /** After any calls, the chain lists exactly the blocks that were registered and not released since, in the order of
      their registration. */
  lemma {:induction false} ChainIsLive(ops: seq<Op>) returns (at: seq<int>)
    requires Honest(ops)
    ensures Indexes(ops, |ops|, at, After(ops).entries)
  {
    at := [];
    if ops != [] {
      var n := |ops| - 1;
      PrefixHonest(ops, n);
      AddressesDistinct(ops[..n]);
      var was := ChainIsLive(ops[..n]);
      var g := After(ops[..n]);
      ApplyEntries(g, ops[n]);
      hide Indexes, Honest, DistinctAddresses, Apply, Kept, Registered;
      at := Surviving(ops, was, g.entries);
      LastCall(ops, at, Kept(g.entries, ops[n]));
      if Registered(ops[n]).Some? {
        at := at + [n];
      } else {
        assert Kept(g.entries, ops[n]) + [] == Kept(g.entries, ops[n]);
      }
    }
  }
}

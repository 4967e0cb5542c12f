// Worker counting and shutdown: mthread_listen_connection, thread_serve_request and free_server of
// src/server/psd_ims_server.c under the signal handler of src/server/server.c, as interleaved steps.
module Shutdown {
  const MAX_ALIVE_THREADS: nat := 200

  /** The listening thread: in soap_accept, past it, holding the mutex, counted but before pthread_create, or out of
      the listen loop. */
  datatype ListenerPc = Accepting | Accepted | InSection | Counted | Ended

  /** The thread that the signal interrupts, which stands still until its handler returns. */
  datatype Host = Listener | Worker(id: int)

  /** free_server inside the signal handler: before the mutex, in pthread_cond_wait, or past free_persistence. */
  datatype Handler = Absent | Locking(host: Host) | Waiting(host: Host, signalled: bool) | Freed

  /** `running` holds the ids of the worker threads; `failed` counts the connections that were counted but whose
      pthread_create failed, which nobody notices. */
  datatype State = State(pc: ListenerPc, running: seq<int>, failed: nat, count: int, handler: Handler)

  datatype Label =
    | Accept
    | Refuse
    | TimeOut
    | GiveUp
    | Enter
    | Leave
    | Spawn(id: int)
    | SpawnFails
    | End(k: nat)
    | Interrupt(host: Host)
    | Check
    | Wake
    | SpuriousWake

  const INIT := State(Accepting, [], 0, 0, Absent)

  predicate Active(s: State) {
    s.handler.Locking? || s.handler.Waiting?
  }

  predicate Suspended(s: State, h: Host) {
    Active(s) && s.handler.host == h
  }

  /** Only the listener can be stopped inside its critical section; the others' sections are single steps. */
  predicate MutexFree(s: State) {
    s.pc != InSection
  }

  /** A signal handler that has begun has closed the listening socket, so that soap_accept fails. Without one it can
      time out or fail; and after it the connection is dropped if the database is gone or the copy of the soap struct
      fails. */
  predicate Enabled(s: State, l: Label) {
    match l
    case Accept => s.pc == Accepting && s.handler == Absent
    case Refuse => s.pc == Accepting && s.handler != Absent && !Suspended(s, Listener)
    case TimeOut => s.pc == Accepting && s.handler == Absent
    case GiveUp => s.pc == Accepted && !Suspended(s, Listener)
    case Enter => s.pc == Accepted && !Suspended(s, Listener)
    case Leave => s.pc == InSection && !Suspended(s, Listener)
    case Spawn(id) => s.pc == Counted && !Suspended(s, Listener) && id !in s.running
    case SpawnFails => s.pc == Counted && !Suspended(s, Listener)
    case End(k) => k < |s.running| && !Suspended(s, Worker(s.running[k])) && MutexFree(s)
    case Interrupt(h) => s.handler == Absent && (if h.Worker? then h.id in s.running else s.pc != Ended)
    case Check => s.handler.Locking? && MutexFree(s)
    case Wake => s.handler.Waiting? && s.handler.signalled && MutexFree(s)
    case SpuriousWake => s.handler.Waiting? && !s.handler.signalled && MutexFree(s)
  }

  /** The test of the wait loop, under the mutex. */
  function Test(s: State): State
    requires Active(s)
  {
    s.(handler := if s.count > 0 then Waiting(s.handler.host, false) else Freed)
  }

  /** The signal handler clears continue_listening when free_server has returned. */
  function LoopAgain(s: State): ListenerPc {
    if s.handler == Freed then Ended else Accepting
  }

  function Next(s: State, l: Label): State
    requires Enabled(s, l)
  {
    match l
    case Accept => s.(pc := Accepted)
    case Refuse => s.(pc := Ended)
    case TimeOut => s.(pc := Ended)
    case GiveUp => s.(pc := Ended)
    case Enter => s.(pc := InSection)
    case Leave => if s.count >= MAX_ALIVE_THREADS then s.(pc := Ended) else s.(pc := Counted, count := s.count + 1)
    case Spawn(id) => s.(pc := LoopAgain(s), running := s.running + [id])
    case SpawnFails => s.(pc := LoopAgain(s), failed := s.failed + 1)
    case End(k) =>
      s.(running := s.running[..k] + s.running[k + 1..], count := s.count - 1,
         handler := if s.count == 1 && s.handler.Waiting? then s.handler.(signalled := true) else s.handler)
    case Interrupt(h) => s.(handler := Locking(h))
    case Check => Test(s)
    case Wake => Test(s)
    case SpuriousWake => Test(s)
  }

  /** A step that is not enabled does not happen. */
  function Run(s: State, ls: seq<Label>): State {
    if ls == [] then s
    else
      var p := Run(s, ls[..|ls| - 1]);
      if Enabled(p, ls[|ls| - 1]) then Next(p, ls[|ls| - 1]) else p
  }

  // ---- Every interleaving -----------------------------------------------------------------------------------------

  function InFlight(s: State): nat {
    if s.pc == Counted then 1 else 0
  }

  ghost predicate Ok(s: State) {
    && s.count == |s.running| + InFlight(s) + s.failed <= MAX_ALIVE_THREADS
    && (Active(s) && s.handler.host.Worker? ==> s.handler.host.id in s.running)
    && (s.handler.Waiting? ==> (s.handler.signalled <==> s.count == 0))
  }

  lemma OkStep(s: State, l: Label)
    requires Ok(s) && Enabled(s, l)
    ensures Ok(Next(s, l))
  {
  }

  /** In every interleaving the counter is the number of live workers, of the connection between its count and its
      thread, and of failed thread creations; it never passes the limit; and whoever waits without having been
      signalled waits for a positive count, so no wake-up is lost. */
  lemma {:induction false} CountAlways(ls: seq<Label>)
    ensures Ok(Run(INIT, ls))
  {
    if ls != [] {
      var p := Run(INIT, ls[..|ls| - 1]);
      CountAlways(ls[..|ls| - 1]);
      if Enabled(p, ls[|ls| - 1]) {
        OkStep(p, ls[|ls| - 1]);
      }
    }
  }

  /** The count is the number of live workers exactly while none is being created and no creation has failed. */
  lemma CountIsWorkers(ls: seq<Label>)
    ensures var s := Run(INIT, ls); s.count == |s.running| <==> s.pc != Counted && s.failed == 0
  {
    CountAlways(ls);
  }

  /** free_persistence runs only when no worker is alive and none is on its way. */
  lemma FreesWhenIdle(ls: seq<Label>, l: Label)
    requires var s := Run(INIT, ls); s.handler != Freed && Enabled(s, l) && Next(s, l).handler == Freed
    ensures var s := Run(INIT, ls); s.running == [] && s.pc != Counted && s.failed == 0
  {
    CountAlways(ls);
  }

  // ---- Does the shutdown end? -------------------------------------------------------------------------------------

  /** The handler runs in a worker, or inside or right after the listener's critical section, or after a failed thread
      creation. */
  predicate Doomed(s: State) {
    Active(s) && (s.handler.host.Worker? || s.pc == InSection || s.pc == Counted || s.failed > 0)
  }

  lemma {:induction false} DoomedStays(s: State, ls: seq<Label>)
    requires Ok(s) && Doomed(s)
    ensures Ok(Run(s, ls)) && Doomed(Run(s, ls))
  {
    if ls != [] {
      var p := Run(s, ls[..|ls| - 1]);
      DoomedStays(s, ls[..|ls| - 1]);
      if Enabled(p, ls[|ls| - 1]) {
        OkStep(p, ls[|ls| - 1]);
        DoomedStep(p, ls[|ls| - 1]);
      }
    }
  }

  lemma DoomedStep(s: State, l: Label)
    requires Ok(s) && Doomed(s) && Enabled(s, l)
    ensures Doomed(Next(s, l))
  {
  }

  /** What is left to do before the handler returns. */
  function Left(s: State): nat {
    if !Active(s) then 0 else 2 * |s.running| + if s.handler.Locking? then 2 else 1
  }

  /** Unless it is doomed, a shutdown is never stuck, and every step but a spurious wake-up brings it closer. */
  lemma Advances(s: State) returns (l: Label)
    requires Ok(s) && Active(s) && !Doomed(s)
    ensures Enabled(s, l) && l != SpuriousWake
  {
    l := if s.running != [] then End(0) else if s.handler.Locking? then Check else Wake;
  }

  lemma Closer(s: State, l: Label)
    requires Ok(s) && Active(s) && !Doomed(s) && Enabled(s, l) && l != SpuriousWake
    ensures Ok(Next(s, l)) && !Doomed(Next(s, l)) && Left(Next(s, l)) < Left(s)
    ensures Active(Next(s, l)) || Next(s, l).handler == Freed
  {
  }

  lemma {:induction false} RunCons(s: State, l: Label, ls: seq<Label>)
    requires Enabled(s, l)
    ensures Run(s, [l] + ls) == Run(Next(s, l), ls)
  {
    if ls == [] {
      assert [l] + ls == [l] && [l][..0] == [];
    } else {
      assert ([l] + ls)[..|ls|] == [l] + ls[..|ls| - 1];
      RunCons(s, l, ls[..|ls| - 1]);
    }
  }

  lemma Finishes(s: State) returns (ls: seq<Label>)
    requires Ok(s) && Active(s) && !Doomed(s)
    ensures Run(s, ls).handler == Freed
    decreases Left(s)
  {
    var l := Advances(s);
    Closer(s, l);
    var rest := [];
    if Active(Next(s, l)) {
      rest := Finishes(Next(s, l));
    }
    ls := [l] + rest;
    RunCons(s, l, rest);
  }

  /** A shutdown that has begun can end if and only if it is not doomed: the signal interrupted the listener, outside
      the stretch from its critical section to pthread_create, and no thread creation has failed. */
  lemma ShutdownEndsExactly(s: State)
    requires Ok(s) && Active(s)
    ensures (exists ls :: Run(s, ls).handler == Freed) <==> !Doomed(s)
  {
    if Doomed(s) {
      forall ls ensures Run(s, ls).handler != Freed {
        DoomedStays(s, ls);
      }
    } else {
      var ls := Finishes(s);
    }
  }

  /** All labels take effect, and none is a spurious wake-up. */
  predicate Effective(s: State, ls: seq<Label>)
    decreases |ls|
  {
    ls == [] || (ls[0] != SpuriousWake && Enabled(s, ls[0]) && Effective(Next(s, ls[0]), ls[1..]))
  }

  /** It then ends in every order of the remaining steps, after at most twice the live workers and two. */
  lemma {:induction false} EveryOrderEnds(s: State, ls: seq<Label>) returns (k: nat)
    requires Ok(s) && Active(s) && !Doomed(s) && Effective(s, ls) && |ls| >= Left(s)
    ensures k <= |ls| && Run(s, ls[..k]).handler == Freed
    decreases |ls|
  {
    var l, rest := ls[0], ls[1..];
    var s' := Next(s, l);
    Closer(s, l);
    if Active(s') {
      var j := EveryOrderEnds(s', rest);
      k := j + 1;
      RunCons(s, l, rest[..j]);
      assert ls[..k] == [l] + rest[..j];
    } else {
      k := 1;
      RunCons(s, l, []);
      assert ls[..1] == [l] + [];
    }
  }

  // ---- After the shutdown -----------------------------------------------------------------------------------------

  predicate PastAccept(s: State) {
    s.pc == Accepted || s.pc == InSection || s.pc == Counted
  }

  lemma {:induction false} NoneLater(s: State, ls: seq<Label>)
    requires s.handler == Freed && s.running == [] && !PastAccept(s)
    ensures var s' := Run(s, ls); s'.handler == Freed && s'.running == [] && !PastAccept(s')
  {
    if ls != [] {
      NoneLater(s, ls[..|ls| - 1]);
    }
  }

  /** A worker can still start on the freed database if and only if the signal came when the listener was past
      soap_accept with a connection that it had not counted yet. */
  lemma WorkerAfterFreeExactly(s: State)
    requires Ok(s) && s.handler == Freed && s.running == [] && s.failed == 0
    ensures (exists ls :: Run(s, ls).running != []) <==> PastAccept(s)
  {
    if PastAccept(s) {
      var all := [Enter, Leave, Spawn(0)];
      assert all[..2] == [Enter, Leave] && all[..2][..1] == [Enter] && [Enter][..0] == [];
      assert Run(s, []) == s;
      assert Run(s, [Enter]).pc != Accepted;
      assert Run(s, all[..2]).pc == Counted;
      assert Run(s, all).running != [];
    } else {
      forall ls ensures Run(s, ls).running == [] {
        NoneLater(s, ls);
      }
    }
  }
}

/** Processes that cooperate through semaphores of their own while the rest of the system does what it likes: a
    client is blocked exactly while it waits in one of their semaphores, and nobody else changes these. */
module SemaphoreClients {
  import opened Basics
  import opened SchedulerSpec
  import opened PidQueues
  import opened SchedulerInvariant
  import opened SemaphoreSpec
  import Sems = SemaphoreTheorems
  import ST = SchedulerTheorems

  predicate Alive(s: Sched, x: nat) {
    x in s.procs && x != IDLE && x != INIT && s.procs[x].status != Terminated
  }

  /** Ready or running. */
  predicate Lively(s: Sched, x: nat) {
    Alive(s, x) && s.procs[x].status != Blocked
  }

  predicate Stopped(s: Sched, x: nat) {
    Alive(s, x) && s.procs[x].status == Blocked
  }

  ghost predicate Waits(w: Sems.World, names: set<string>, x: nat) {
    exists name :: name in names && name in w.k.sems && x in w.k.sems[name].blocked
  }

  ghost predicate Settled(w: Sems.World, names: set<string>, clients: set<nat>) {
    && Sems.WInv(w)
    && (forall name :: name in names ==> name in w.k.sems)
    && (forall x :: x in clients ==> if Waits(w, names, x) then Stopped(w.k.sched, x) else Lively(w.k.sched, x))
  }

  /** The rest of the system leaves the semaphores and the clients alone. */
  ghost predicate Foreign(w: Sems.World, names: set<string>, clients: set<nat>, op: Sems.Op)
    requires w.logs.Keys == w.k.sems.Keys
  {
    && Sems.Allowed(w, op)
    && match op
       case DoSched(o) => Spares(w.k.sched, clients, o)
       case DoOpen(name, _) => name !in names
       case DoClose(name) => name !in names
       case DoWait(name) => name !in names && Absent(w.k.sched, clients)
       case DoPost(name) => name !in names
       case DoWithdraw(name, _) => name !in names
  }

  predicate Absent(s: Sched, clients: set<nat>) {
    s.running.Some? ==> s.running.value !in clients
  }

  predicate Spares(s: Sched, clients: set<nat>, o: SchedulerSpec.Op) {
    match o
    case DoBlock(x) => x !in clients
    case DoUnblock(x) => x !in clients
    case DoKill(x) => x !in clients
    case DoExit => Absent(s, clients)
    case _ => true
  }

  // ---- a process that may run goes on to be one that may run

  lemma TickLively(s: Sched, x: nat)
    requires Inv(s) && Lively(s, x)
    ensures Lively(Tick(s), x)
  {
    TickInv(s);
    ST.AgingOf(s, MAX_PRIORITY, x);
    ST.PreemptionOf(Aging(s), x);
    ST.DispatchOf(Preempt(UseQuantum(Aging(s))), MAX_PRIORITY + 1, x);
  }

  lemma StaysLively(s: Sched, o: SchedulerSpec.Op, x: nat)
    requires Inv(s) && Lively(s, x)
    requires o != DoKill(x) && o != DoBlock(x) && (o.DoExit? ==> s.running != Some(x))
    ensures Lively(SchedulerSpec.Step(s, o), x)
  {
    if o.DoTick? {
      TickLively(s, x);
    }
  }

  lemma PostLively(w: Sems.World, name: string, x: nat)
    requires Sems.WInv(w) && Lively(w.k.sched, x)
    ensures Lively(Sems.Step(w, Sems.DoPost(name)).k.sched, x)
  {
    if name in w.k.sems && w.k.sems[name].blocked != [] {
      var y := w.k.sems[name].blocked[0];
      assert y in w.k.sems[name].blocked && Sems.Stalled(w.k.sched, y);
    }
  }

  // ---- the environment

  lemma ForeignLively(w: Sems.World, names: set<string>, clients: set<nat>, op: Sems.Op, x: nat)
    requires Settled(w, names, clients) && Foreign(w, names, clients, op) && x in clients && Lively(w.k.sched, x)
    ensures Lively(Sems.Step(w, op).k.sched, x)
  {
    if op.DoSched? {
      StaysLively(w.k.sched, op.op, x);
    } else if op.DoPost? {
      PostLively(w, op.name, x);
    }
  }

  lemma ForeignSems(w: Sems.World, names: set<string>, clients: set<nat>, op: Sems.Op)
    requires Settled(w, names, clients) && Foreign(w, names, clients, op)
    ensures var t := Sems.Step(w, op);
            forall name :: name in names ==> name in t.k.sems && t.k.sems[name] == w.k.sems[name]
  {
  }

  lemma QueuedIsStopped(w: Sems.World, name: string, x: nat)
    requires Sems.WInv(w) && name in w.k.sems && x in w.k.sems[name].blocked
    ensures Stopped(w.k.sched, x)
  {
    assert Sems.Stalled(w.k.sched, x);
  }

  /** Whatever the rest of the system does, no client starts or stops waiting. */
  lemma ForeignKeeps(w: Sems.World, names: set<string>, clients: set<nat>, op: Sems.Op)
    requires Settled(w, names, clients) && Foreign(w, names, clients, op)
    ensures var t := Sems.Step(w, op);
            && Settled(t, names, clients)
            && forall name :: name in names ==> t.k.sems[name] == w.k.sems[name]
  {
    var t := Sems.Step(w, op);
    Sems.StepKeeps(w, op);
    ForeignSems(w, names, clients, op);
    forall x | x in clients
      ensures if Waits(t, names, x) then Stopped(t.k.sched, x) else Lively(t.k.sched, x)
    {
      if Waits(w, names, x) {
        var name :| name in names && name in w.k.sems && x in w.k.sems[name].blocked;
        QueuedIsStopped(t, name, x);
      } else {
        ForeignLively(w, names, clients, op, x);
      }
    }
  }

  // ---- the clients

  /** A wait by the executing client takes a unit, or blocks the client and nobody else. */
  lemma WaitKeeps(w: Sems.World, names: set<string>, clients: set<nat>, name: string, x: nat)
    requires Settled(w, names, clients) && name in names && x in clients && Executing(w.k.sched, x)
    ensures var t := Sems.Step(w, Sems.DoWait(name));
            Settled(t, names, clients) && t.k.sems == w.k.sems[name := Take(w.k.sems[name], x)]
  {
    Sems.StepKeeps(w, Sems.DoWait(name));
    var t, m := Sems.Step(w, Sems.DoWait(name)), w.k.sems[name];
    assert t.k.sems == w.k.sems[name := Take(m, x)];
    if m.value == 0 {
      Sems.BlockStalls(w.k.sched, x);
      assert Take(m, x).blocked == m.blocked + [x];
    }
    forall y | y in clients
      ensures if Waits(t, names, y) then Stopped(t.k.sched, y) else Lively(t.k.sched, y)
    {
      WaitOf(w, t, names, name, x, y);
    }
  }

  lemma WaitOf(w: Sems.World, t: Sems.World, names: set<string>, name: string, x: nat, y: nat)
    requires name in names && name in w.k.sems && t.k.sems == w.k.sems[name := Take(w.k.sems[name], x)]
    ensures Waits(t, names, y) <==> Waits(w, names, y) || (y == x && w.k.sems[name].value == 0)
  {
    if Waits(w, names, y) {
      var n :| n in names && n in w.k.sems && y in w.k.sems[n].blocked;
      assert n in t.k.sems && y in t.k.sems[n].blocked;
    }
    if w.k.sems[name].value == 0 {
      assert x in t.k.sems[name].blocked;
    }
  }

  /** A post wakes the process that has waited longest, and nobody else. */
  lemma PostKeeps(w: Sems.World, names: set<string>, clients: set<nat>, name: string)
    requires Settled(w, names, clients) && name in names
    requires w.k.sems[name].blocked != [] || w.k.sems[name].value + 1 < VALUE_LIMIT
    ensures var t := Sems.Step(w, Sems.DoPost(name));
            Settled(t, names, clients) && t.k.sems == w.k.sems[name := Give(w.k.sems[name])]
  {
    Sems.StepKeeps(w, Sems.DoPost(name));
    var t, m := Sems.Step(w, Sems.DoPost(name)), w.k.sems[name];
    assert t.k.sems == w.k.sems[name := Give(m)];
    if m.blocked != [] {
      QueuedIsStopped(w, name, m.blocked[0]);
    }
    forall y | y in clients
      ensures if Waits(t, names, y) then Stopped(t.k.sched, y) else Lively(t.k.sched, y)
    {
      PostOf(w, t, names, name, y);
    }
  }

  lemma PostOf(w: Sems.World, t: Sems.World, names: set<string>, name: string, y: nat)
    requires Sems.WInv(w) && name in names && name in w.k.sems && t.k.sems == w.k.sems[name := Give(w.k.sems[name])]
    ensures Waits(t, names, y) <==>
              Waits(w, names, y) && (w.k.sems[name].blocked == [] || y != w.k.sems[name].blocked[0])
  {
    var queue := w.k.sems[name].blocked;
    if queue != [] {
      assert queue[0] in queue;
      assert queue == [queue[0]] + queue[1..];
      assert queue[0] !in queue[1..];
    }
    if Waits(t, names, y) {
      var n :| n in names && n in t.k.sems && y in t.k.sems[n].blocked;
      assert n in w.k.sems && y in w.k.sems[n].blocked;
    }
    if Waits(w, names, y) && (queue == [] || y != queue[0]) {
      var n :| n in names && n in w.k.sems && y in w.k.sems[n].blocked;
      assert n in t.k.sems && y in t.k.sems[n].blocked;
    }
  }

  /** A process that is no client any more is taken out of a queue; the clients do not notice. */
  lemma WithdrawKeeps(w: Sems.World, names: set<string>, clients: set<nat>, name: string, x: nat)
    requires Settled(w, names, clients) && name in names && x !in clients
    ensures var t, m := Sems.Step(w, Sems.DoWithdraw(name, x)), w.k.sems[name];
            Settled(t, names, clients) && t.k.sems == w.k.sems[name := m.(blocked := Remove(m.blocked, x))]
  {
    Sems.StepKeeps(w, Sems.DoWithdraw(name, x));
    var t, m := Sems.Step(w, Sems.DoWithdraw(name, x)), w.k.sems[name];
    assert t.k.sems == w.k.sems[name := m.(blocked := Remove(m.blocked, x))];
    RemoveEffect(m.blocked, x);
    forall y | y in clients
      ensures if Waits(t, names, y) then Stopped(t.k.sched, y) else Lively(t.k.sched, y)
    {
      if Waits(w, names, y) {
        var n :| n in names && n in w.k.sems && y in w.k.sems[n].blocked;
        assert n in t.k.sems && y in t.k.sems[n].blocked;
      }
      assert Waits(t, names, y) ==> Waits(w, names, y);
    }
  }

  lemma FewerClients(w: Sems.World, names: set<string>, clients: set<nat>, fewer: set<nat>)
    requires Settled(w, names, clients) && fewer <= clients
    ensures Settled(w, names, fewer)
  {
  }

  /** A process that is not blocked waits nowhere, so that it may join. */
  lemma JoinKeeps(w: Sems.World, names: set<string>, clients: set<nat>, x: nat)
    requires Settled(w, names, clients) && Lively(w.k.sched, x)
    ensures Settled(w, names, clients + {x})
  {
    if Waits(w, names, x) {
      var name :| name in names && name in w.k.sems && x in w.k.sems[name].blocked;
      QueuedIsStopped(w, name, x);
    }
  }

  lemma SameWaits(w: Sems.World, t: Sems.World, names: set<string>, x: nat)
    requires forall name :: name in names ==> name in w.k.sems && name in t.k.sems
    requires forall name :: name in names ==> t.k.sems[name].blocked == w.k.sems[name].blocked
    ensures Waits(t, names, x) <==> Waits(w, names, x)
  {
    if Waits(w, names, x) {
      var name :| name in names && name in w.k.sems && x in w.k.sems[name].blocked;
      assert x in t.k.sems[name].blocked;
    }
  }

  /** One more user of one of the semaphores. */
  lemma OpenKeeps(w: Sems.World, names: set<string>, clients: set<nat>, name: string, value: uint16)
    requires Settled(w, names, clients) && name in names && |name| < MAX_SEM_LENGTH
    ensures var t, m := Sems.Step(w, Sems.DoOpen(name, value)), w.k.sems[name];
            Settled(t, names, clients) && t.k.sems == w.k.sems[name := m.(users := m.users + 1)]
  {
    var t := Sems.Step(w, Sems.DoOpen(name, value));
    Sems.OpenStep(w, name, value);
    forall x | x in clients ensures Waits(t, names, x) <==> Waits(w, names, x) {
      SameWaits(w, t, names, x);
    }
  }

  /** One user fewer, but not the last. */
  lemma CloseKeeps(w: Sems.World, names: set<string>, clients: set<nat>, name: string)
    requires Settled(w, names, clients) && name in names && w.k.sems[name].users > 1
    ensures var t, m := Sems.Step(w, Sems.DoClose(name)), w.k.sems[name];
            Settled(t, names, clients) && t.k.sems == w.k.sems[name := m.(users := m.users - 1)]
  {
    var t := Sems.Step(w, Sems.DoClose(name));
    Sems.CloseStep(w, name);
    forall x | x in clients ensures Waits(t, names, x) <==> Waits(w, names, x) {
      SameWaits(w, t, names, x);
    }
  }

  // ---- several calls in a row

  ghost function MakeCalls(world: Sems.World, calls: seq<Sems.Op>): Sems.World
    decreases |calls|
  {
    if calls == [] || !Sems.WInv(world) then world else MakeCalls(Sems.Step(world, calls[0]), calls[1..])
  }

  lemma OneCall(world: Sems.World, call: Sems.Op)
    requires Sems.WInv(world)
    ensures MakeCalls(world, [call]) == Sems.Step(world, call)
  {
    assert [call][1..] == [];
    assert MakeCalls(Sems.Step(world, call), []) == Sems.Step(world, call);
  }

  lemma FirstCall(world: Sems.World, call: Sems.Op, rest: seq<Sems.Op>)
    requires Sems.WInv(world)
    ensures MakeCalls(world, [call] + rest) == MakeCalls(Sems.Step(world, call), rest)
  {
    assert ([call] + rest)[1..] == rest;
  }
}

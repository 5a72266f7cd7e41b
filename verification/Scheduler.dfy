/** The scheduler's procedures on mutable tables and queues with iterators, each proved to take the step the
    specification describes. */
module Scheduler {
  import opened Basics
  import opened SchedulerSpec
  import QS = QueueSpec
  import PQ = PidQueues
  import AP = AgingPasses

  function Items(queues: seq<QS.Q<nat>>): (r: seq<seq<nat>>)
    ensures |r| == |queues|
    ensures forall k {:trigger r[k]} :: 0 <= k < |r| ==> r[k] == queues[k].items
  {
    seq(|queues|, k requires 0 <= k < |queues| => queues[k].items)
  }

  lemma ItemsUpdate(queues: seq<QS.Q<nat>>, k: nat, q: QS.Q<nat>)
    requires k < |queues|
    ensures Items(queues[k := q]) == Items(queues)[k := q.items]
  {
  }

  class Scheduler {
    var procs: map<nat, Proc>
    var queues: seq<QS.Q<nat>>
    var running: Option<nat>

    function Now(): Sched
      reads this
    {
      Sched(procs, Items(queues), running)
    }

    ghost predicate Valid()
      reads this
    {
      && WellFormed(Now())
      && (forall x :: x in procs ==> x < MAX_PROCESSES)
      && forall k :: 0 <= k < |queues| ==> QS.WellFormed(queues[k])
    }

    /** As after init_scheduler: empty queues, and the idle process running. */
    constructor ()
      ensures Valid() && Now() == Boot()
    {
      procs := map[IDLE := Proc(Running, MIN_PRIORITY, MIN_PRIORITY, 0, DEFAULT_QUANTUM)];
      queues := [QS.Q([], None), QS.Q([], None), QS.Q([], None), QS.Q([], None)];
      running := Some(IDLE);
    }

    method SetQueue(k: nat, q: QS.Q<nat>)
      requires |queues| == MAX_PRIORITY + 1 && k <= MAX_PRIORITY && QS.WellFormed(q)
      requires forall j :: 0 <= j < |queues| ==> QS.WellFormed(queues[j])
      modifies `queues
      ensures queues == old(queues)[k := q]
      ensures Now() == old(Now()).(queues := old(Now()).queues[k := q.items])
      ensures forall j :: 0 <= j < |queues| ==> QS.WellFormed(queues[j])
    {
      ItemsUpdate(queues, k, q);
      queues := queues[k := q];
    }

    // ---- aging

    method ApplyAging()
      requires Valid() && AgingEnds(Now())
      modifies this
      ensures Valid() && Now() == Aging(old(Now()))
    {
      for priority := 0 to MAX_PRIORITY
        invariant Valid() && Now() == AgeBelow(old(Now()), priority)
      {
        AgePass(priority);
      }
    }

    /** Walks one queue with its cyclic iterator, removing processes from it on the way. */
    method AgePass(priority: nat)
      requires Valid() && priority < MAX_PRIORITY && Ends(Now(), priority)
      modifies this
      ensures Valid() && Now() == AgeQueue(old(Now()), priority)
    {
      ghost var s := Now();
      ghost var last: nat :| Rounds(Enter(s, priority), priority, last).over;
      ghost var n: nat := 0;
      if queues[priority].items == [] {
        AP.WalkOver(s, priority, 0, Enter(s, priority));
        return;
      }
      SetQueue(priority, QS.Begin(queues[priority]));
      ghost var w := Enter(s, priority);
      var more := true;
      while more
        invariant Valid() && w == Walk(Now(), queues[priority].iter, !more)
        invariant w == Rounds(Enter(s, priority), priority, n)
        invariant n <= last
        decreases more, last - n
      {
        AP.NextRound(s, priority, n, w);
        AP.GoesOn(s, priority, n, w, last);
        w, n := Round(w, priority), n + 1;
        if queues[priority].iter.None? {
          more := false;
        } else {
          var looped := AgeTurn(priority);
          more := !looped;
        }
      }
      AP.WalkEnds(s, priority, n, w);
    }

    /** Takes the process under the iterator and moves the iterator on. */
    method AgeTurn(priority: nat) returns (looped: bool)
      requires Valid() && priority < MAX_PRIORITY && queues[priority].iter.Some?
      modifies this
      ensures Valid()
      ensures Walk(Now(), queues[priority].iter, looped)
              == Round(Walk(old(Now()), old(queues)[priority].iter, false), priority)
    {
      var q := queues[priority];
      var p := q.items[q.iter.value];
      assert p in q.items && p in Now().queues[priority];
      SetQueue(priority, QS.Advance(q));
      if procs[p].status == Ready && p != IDLE {
        Wait(priority, p);
        looped := QS.Looped(queues[priority]);
      } else {
        looped := false;
      }
    }

    /** One more tick of waiting for the ready process `p`, which moves to the top queue when that is enough. */
    method Wait(priority: nat, p: nat)
      requires Valid() && priority < MAX_PRIORITY && p in procs
      modifies this
      ensures Valid() && running == old(running) && procs == old(procs)[p := Aged(old(procs)[p])]
      ensures queues == if !Due(old(procs)[p]) then old(queues)
                        else old(queues)[priority := QS.Remove(old(queues)[priority], Compare, p)]
                                        [MAX_PRIORITY := QS.Enqueue(old(queues)[MAX_PRIORITY], p)]
    {
      procs := procs[p := procs[p].(waitTicks := procs[p].waitTicks + 1)];
      if procs[p].waitTicks >= AGING_THRESHOLD {
        procs := procs[p := procs[p].(priority := MAX_PRIORITY)];
        MoveUp(priority, p);
        procs := procs[p := procs[p].(waitTicks := 0)];
      }
    }

    /** From its queue to the end of the top one. */
    method MoveUp(priority: nat, p: nat)
      requires Valid() && priority < MAX_PRIORITY && p in procs
      modifies `queues
      ensures Valid()
      ensures queues == old(queues)[priority := QS.Remove(old(queues)[priority], Compare, p)]
                                   [MAX_PRIORITY := QS.Enqueue(old(queues)[MAX_PRIORITY], p)]
    {
      ghost var before := Now().queues;
      PQ.RemoveKeeps(before[priority], p);
      SetQueue(priority, QS.Remove(queues[priority], Compare, p));
      assert Now().queues == before[priority := Remove(before[priority], p)];
      SetQueue(MAX_PRIORITY, QS.Enqueue(queues[MAX_PRIORITY], p));
      assert Now().queues[MAX_PRIORITY] == before[MAX_PRIORITY] + [p];
    }

    // ---- the scheduling decision

    /** One call of schedule(); what it returns is the stack of the process left in `running`. */
    method Schedule()
      requires Valid() && AgingEnds(Now())
      modifies this
      ensures Valid() && Now() == Tick(old(Now()))
    {
      ApplyAging();
      var goesOn := EndTurn();
      if !goesOn {
        DispatchNext();
      }
    }

    /** Takes the processor from the interrupted process, unless its quantum goes on. */
    method EndTurn() returns (goesOn: bool)
      requires Valid()
      modifies this
      ensures Valid() && goesOn == InsideQuantum(old(Now()))
      ensures Now() == if goesOn then UseQuantum(old(Now())) else Preempt(UseQuantum(old(Now())))
    {
      if running.None? { return false; }
      var r := running.value;
      if procs[r].status == Terminated {
        running := None;
      } else if procs[r].status == Blocked {
        running := None;
      } else if procs[r].status == Running {
        procs := procs[r := procs[r].(quantum := procs[r].quantum - 1)];
        if procs[r].quantum > 0 {
          return true;
        }
        procs := procs[r := procs[r].(quantum := DEFAULT_QUANTUM)];
        procs := procs[r := procs[r].(status := Ready)];
        ghost var used := UseQuantum(old(Now())).procs;
        assert procs == used[r := used[r].(quantum := DEFAULT_QUANTUM, status := Ready)];
        AddToScheduler(r);
      }
      return false;
    }

    method AddToScheduler(p: nat)
      requires Valid() && p in procs
      modifies this
      ensures Valid() && Now() == Add(old(Now()), p)
    {
      if p == IDLE { return; }
      procs := procs[p := procs[p].(status := Ready)];
      SetQueue(procs[p].priority, QS.Enqueue(queues[procs[p].priority], p));
      assert Now() == Add(old(Now()), p);
    }

    /** Dequeues from the highest priority down until a runnable process turns up. */
    method DispatchNext()
      requires Valid()
      modifies this
      ensures Valid() && Now() == Dispatch(old(Now()), MAX_PRIORITY + 1)
    {
      ghost var s := Now();
      var next: Option<nat> := None;
      var priority: nat := MAX_PRIORITY + 1;
      while priority > 0 && next.None?
        invariant Valid() && priority <= MAX_PRIORITY + 1
        invariant next.None? ==> Dispatch(Now(), priority) == Dispatch(s, MAX_PRIORITY + 1)
        invariant next.Some? ==> Runnable(procs, next.value) && Chosen(Now(), next.value) == Dispatch(s, MAX_PRIORITY + 1)
      {
        priority := priority - 1;
        next := NextIn(priority);
      }
      if next.None? || procs[next.value].status != Ready {
        procs := procs[IDLE := procs[IDLE].(status := Running)];
        running := Some(IDLE);
      } else {
        SwitchTo(next.value);
      }
    }

    method SwitchTo(x: nat)
      requires Valid() && Runnable(procs, x)
      modifies `procs, `running
      ensures Valid() && Now() == Chosen(old(Now()), x)
    {
      procs := procs[x := procs[x].(status := Running, quantum := DEFAULT_QUANTUM)];
      running := Some(x);
      if x != IDLE {
        procs := procs[x := procs[x].(waitTicks := 0)];
      }
    }

    /** Dequeues from one queue until a runnable process turns up; the others are dropped. */
    method NextIn(priority: nat) returns (next: Option<nat>)
      requires Valid() && priority <= MAX_PRIORITY
      modifies this
      ensures Valid()
      ensures match next
              case None => Dispatch(Now(), priority) == Dispatch(old(Now()), priority + 1)
              case Some(x) => Runnable(procs, x) && Chosen(Now(), x) == Dispatch(old(Now()), priority + 1)
    {
      while queues[priority].items != []
        invariant Valid() && Dispatch(Now(), priority + 1) == Dispatch(old(Now()), priority + 1)
        decreases |queues[priority].items|
      {
        DispatchHead(Now(), priority + 1);
        var q := queues[priority];
        var x := q.items[0];
        assert x in Now().queues[priority];
        DequeueItems(q);
        SetQueue(priority, QS.Dequeue(q));
        if procs[x].status == Ready && x != IDLE {
          return Some(x);
        }
      }
      DispatchEmpty(Now(), priority + 1);
      return None;
    }

    // ---- blocking, waking, ending

    method RemoveFromAllPriorityQueues(p: nat)
      requires Valid() && p in procs
      modifies this
      ensures Valid() && Now() == Drop(old(Now()), p)
    {
      var k := procs[p].priority;
      PQ.RemoveKeeps(queues[k].items, p);
      assert queues[k].items == Now().queues[k];
      SetQueue(k, QS.Remove(queues[k], Compare, p));
      assert Now() == Drop(old(Now()), p);
    }

    method RemoveProcessFromScheduler(p: nat)
      requires Valid() && p in procs
      modifies this
      ensures Valid() && Now() == Unschedule(old(Now()), p)
    {
      if p == IDLE { return; }
      RemoveFromAllPriorityQueues(p);
      if running == Some(p) {
        running := None;
      }
    }

    /** Blocks a process; when it is the running one the scheduler is entered at once. */
    method BlockProcess(p: nat) returns (ok: bool)
      requires Valid() && (running == Some(p) ==> AgingEnds(Block(Now(), p)))
      modifies this
      ensures Valid() && (!ok ==> Now() == old(Now()))
      ensures ok <==> p in old(procs) && p != IDLE && p != INIT &&
                      (old(procs)[p].status == Ready || old(procs)[p].status == Running)
      ensures Now() == if ok && old(running) == Some(p) then Tick(Block(old(Now()), p)) else Block(old(Now()), p)
    {
      if p !in procs || p == IDLE || p == INIT || procs[p].status == Blocked || procs[p].status == Terminated {
        return false;
      }
      RemoveFromAllPriorityQueues(p);
      procs := procs[p := procs[p].(status := Blocked)];
      procs := procs[p := procs[p].(waitTicks := 0)];
      assert Now() == Block(old(Now()), p);
      if running == Some(p) {
        Schedule();
      }
      return true;
    }

    method UnblockProcess(p: nat) returns (ok: bool)
      requires Valid()
      modifies this
      ensures Valid() && Now() == Unblock(old(Now()), p)
      ensures ok <==> p in old(procs) && p != IDLE && p != INIT && old(procs)[p].status == Blocked
      ensures !ok ==> Now() == old(Now())
    {
      if p !in procs || p == IDLE || p == INIT || procs[p].status != Blocked { return false; }
      procs := procs[p := procs[p].(status := Ready)];
      AddToScheduler(p);
      assert Now() == Unblock(old(Now()), p);
      return true;
    }

    /** The lowest free pid; every lower one belongs to a process that has not terminated. */
    method FindPid() returns (pid: Option<nat>)
      ensures pid == AssignPid(procs, 0)
    {
      var i: nat := 0;
      while i < MAX_PROCESSES
        invariant i <= MAX_PROCESSES && AssignPid(procs, i) == AssignPid(procs, 0)
      {
        if i !in procs || procs[i].status == Terminated {
          return Some(i);
        }
        i := i + 1;
      }
      return None;
    }

    method CreateProcess(priority: int) returns (pid: Option<nat>)
      requires Valid()
      modifies this
      ensures Now() == Create(old(Now()), priority)
      ensures Valid() <==> pid.Some? ==> Collected(Born(old(Now()), pid.value, priority))
      ensures pid == AssignPid(old(procs), 0)
      ensures pid.None? ==> Now() == old(Now())
    {
      pid := FindPid();
      if pid.None? { return; }
      var level := if priority < MIN_PRIORITY || priority > MAX_PRIORITY then DEFAULT_PRIORITY else priority;
      procs := procs[pid.value := Proc(Ready, level, level, 0, DEFAULT_QUANTUM)];
      AddToScheduler(pid.value);
      assert Now() == Born(old(Now()), pid.value, priority);
      ReapTerminatedProcesses();
    }

    /** Frees what has terminated. A process that is still on a queue or on the processor leaves its pid there. */
    method ReapTerminatedProcesses()
      requires Valid()
      modifies this
      ensures Now() == Reap(old(Now()))
      ensures Valid() <==> Collected(old(Now()))
    {
      ghost var before := procs;
      for i := 0 to MAX_PROCESSES
        invariant queues == old(queues) && running == old(running)
        invariant procs == map x | x in before && (i <= x || before[x].status != Terminated) :: before[x]
      {
        if i in procs && procs[i].status == Terminated {
          procs := procs - {i};
        }
      }
      assert procs == Reap(old(Now())).procs;
      CollectedIs(old(Now()));
    }

    /** What the running process does last. */
    method ProcessTerminator()
      requires Valid() && running.Some? && running != Some(IDLE) && procs[running.value].status == Running
      modifies this
      ensures Valid() && Now() == Exit(old(Now()))
    {
      var p := running.value;
      procs := procs[p := procs[p].(status := Terminated)];
      RemoveProcessFromScheduler(p);
    }

    method KillProcess(p: nat) returns (ok: bool)
      requires Valid()
      modifies this
      ensures Now() == Kill(old(Now()), p)
      ensures ok <==> p != IDLE && p != INIT && p in old(procs)
      ensures !ok ==> Now() == old(Now())
      ensures Valid() <==> (ok ==> forall k :: 0 <= k <= MAX_PRIORITY ==> p !in Drop(old(Now()), p).queues[k])
    {
      if p == IDLE || p == INIT || p !in procs { return false; }
      procs := procs[p := procs[p].(status := Terminated)];
      RemoveProcessFromScheduler(p);
      procs := procs - {p};
      assert Now().queues == Drop(old(Now()), p).queues;
      PQ.RemoveKeeps(old(Now()).queues[old(procs)[p].priority], p);
      return true;
    }

    method ChangePriority(p: nat, priority: int) returns (ok: bool)
      requires Valid()
      modifies this
      ensures Valid() && Now() == SetPriority(old(Now()), p, priority)
      ensures ok <==> MIN_PRIORITY <= priority <= MAX_PRIORITY && p in old(procs)
      ensures !ok ==> Now() == old(Now())
    {
      if priority < MIN_PRIORITY || priority > MAX_PRIORITY || p !in procs { return false; }
      procs := procs[p := procs[p].(priority := priority, original := priority, quantum := DEFAULT_QUANTUM)];
      return true;
    }

    /** The processor is given up: the rest of the quantum is forfeited and the scheduler entered. */
    method YieldCpu()
      requires Valid() && AgingEnds(Yield(Now()))
      modifies this
      ensures Valid() && Now() == Tick(Yield(old(Now())))
    {
      if running.Some? && procs[running.value].status == Running {
        procs := procs[running.value := procs[running.value].(quantum := 0)];
      }
      assert Now() == Yield(old(Now()));
      Schedule();
    }
  }

  /** What has terminated is on no queue and not on the processor. */
  ghost predicate Collected(s: Sched)
    requires WellFormed(s)
  {
    forall x :: x in s.procs && s.procs[x].status == Terminated ==>
      x != IDLE && s.running != Some(x) && forall k :: 0 <= k <= MAX_PRIORITY ==> x !in s.queues[k]
  }

  lemma CollectedIs(s: Sched)
    requires WellFormed(s)
    ensures WellFormed(Reap(s)) <==> Collected(s)
  {
    if WellFormed(Reap(s)) {
      forall x, k | x in s.procs && s.procs[x].status == Terminated && 0 <= k <= MAX_PRIORITY ensures x !in s.queues[k] {
        assert x !in Reap(s).procs;
      }
    }
  }

  /** `x`, just dequeued, is given the processor. */
  function Chosen(s: Sched, x: nat): Sched
    requires x in s.procs
  {
    s.(procs := s.procs[x := s.procs[x].(status := Running, quantum := DEFAULT_QUANTUM, waitTicks := 0)],
       running := Some(x))
  }

  lemma DequeueItems(q: QS.Q<nat>)
    requires q.items != []
    ensures QS.Dequeue(q).items == q.items[1..]
  {
  }

  lemma DispatchHead(s: Sched, n: nat)
    requires |s.queues| == MAX_PRIORITY + 1 && IDLE in s.procs && 0 < n <= MAX_PRIORITY + 1 && s.queues[n - 1] != []
    ensures var items := s.queues[n - 1];
            var t := s.(queues := s.queues[n - 1 := items[1..]]);
            Dispatch(s, n) == if Runnable(s.procs, items[0]) then Chosen(t, items[0]) else Dispatch(t, n)
  {
    var items := s.queues[n - 1];
    var i := FirstRunnable(s.procs, items);
    if i > 0 {
      assert FirstRunnable(s.procs, items[1..]) == i - 1;
      if i < |items| {
        assert items[1..][i..] == items[i + 1..];
      } else {
        assert s.queues[n - 1 := items[1..]][n - 1 := []] == s.queues[n - 1 := []];
      }
    }
  }

  lemma DispatchEmpty(s: Sched, n: nat)
    requires |s.queues| == MAX_PRIORITY + 1 && IDLE in s.procs && 0 < n <= MAX_PRIORITY + 1 && s.queues[n - 1] == []
    ensures Dispatch(s, n) == Dispatch(s, n - 1)
  {
    assert s.queues[n - 1 := []] == s.queues;
  }
}

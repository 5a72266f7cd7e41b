/** Every kernel operation on processes keeps the scheduler's invariant. */
module SchedulerInvariant {
  import opened Basics
  import opened SchedulerSpec
  import opened PidQueues
  import opened AgingPasses

  // ---- aging

  lemma AgedPlace(s: Sched, k: nat, n: nat, j: nat, x: nat)
    requires Inv(s) && k < MAX_PRIORITY && n <= |s.queues[k]| && j <= MAX_PRIORITY
    ensures x in AgeFirst(s, k, n).queues[j] <==> Belongs(AgeFirst(s, k, n).procs, j, x)
  {
    SliceDistinct(s.queues[k], n);
    assert x in s.queues[k] <==> Belongs(s.procs, k, x);
    assert x in s.queues[j] <==> Belongs(s.procs, j, x);
    assert x in s.queues[MAX_PRIORITY] <==> Belongs(s.procs, MAX_PRIORITY, x);
  }

  lemma AgeFirstInv(s: Sched, k: nat, n: nat)
    requires Inv(s) && k < MAX_PRIORITY && n <= |s.queues[k]|
    ensures Inv(AgeFirst(s, k, n))
  {
    var items, a := s.queues[k], AgeFirst(s, k, n);
    var turn, rest := items[..n], items[n..];
    SliceDistinct(items, n);
    FilterDistinct(s.procs, turn);
    AppendDistinct(Stay(s.procs, turn), rest);
    AppendDistinct(s.queues[MAX_PRIORITY], Leave(s.procs, turn));
    forall j, x | 0 <= j <= MAX_PRIORITY ensures x in a.queues[j] <==> Belongs(a.procs, j, x) {
      AgedPlace(s, k, n, j, x);
    }
    AgeKeepsForm(s, k, n);
  }

  lemma InvOrderly(s: Sched, k: nat)
    requires Inv(s) && k < MAX_PRIORITY
    ensures Orderly(s, k)
  {
    assert forall x :: x in s.queues[k] <==> Belongs(s.procs, k, x);
  }

  lemma AgeQueueInv(s: Sched, k: nat)
    requires Inv(s) && k < MAX_PRIORITY
    ensures Ends(s, k) && AgeQueue(s, k) == AgeFirst(s, k, Turn(s, k)) && Inv(AgeQueue(s, k))
  {
    InvOrderly(s, k);
    AgeQueueIs(s, k);
    AgeFirstInv(s, k, Turn(s, k));
  }

  lemma {:induction false} AgingInv(s: Sched, n: nat)
    requires Inv(s) && n <= MAX_PRIORITY
    ensures Inv(AgeBelow(s, n))
  {
    if n != 0 {
      AgingInv(s, n - 1);
      var a := AgeBelow(s, n - 1);
      AgeQueueInv(a, n - 1);
    }
  }

  /** While priorities are not changed behind the queues, the timer interrupt returns. */
  lemma AgingReturns(s: Sched)
    requires Inv(s)
    ensures AgingEnds(s)
  {
    forall k | 0 <= k < MAX_PRIORITY ensures Ends(AgeBelow(s, k), k) {
      AgingInv(s, k);
      AgeQueueInv(AgeBelow(s, k), k);
    }
  }

  // ---- entering and leaving the queues

  lemma AddInv(s: Sched, x: nat)
    requires Inv(s) && x in s.procs && x != IDLE && s.procs[x].status != Ready && s.procs[x].status != Terminated
    ensures Inv(Add(s, x))
  {
    var a := Add(s, x);
    var k := s.procs[x].priority;
    assert !Belongs(s.procs, k, x);
    AppendDistinct(s.queues[k], [x]);
    forall j, y | 0 <= j <= MAX_PRIORITY ensures y in a.queues[j] <==> Belongs(a.procs, j, y) {
      assert y in s.queues[j] <==> Belongs(s.procs, j, y);
    }
  }

  /** A process leaves its queue and stops being ready. */
  lemma DropInv(s: Sched, x: nat, p: Proc)
    requires Inv(s) && x in s.procs && x != IDLE && Sane(x, p) && (p.status == Blocked || p.status == Terminated)
    requires p.status == Terminated ==> s.running != Some(x)
    ensures Inv(Drop(s, x).(procs := s.procs[x := p]))
  {
    var k, a := s.procs[x].priority, Drop(s, x).(procs := s.procs[x := p]);
    RemoveEffect(s.queues[k], x);
    forall j, y | 0 <= j <= MAX_PRIORITY ensures y in a.queues[j] <==> Belongs(a.procs, j, y) {
      assert y in s.queues[j] <==> Belongs(s.procs, j, y);
    }
  }

  // ---- one scheduling decision

  lemma PreemptInv(s: Sched)
    requires Inv(s)
    ensures Inv(Preempt(s))
    ensures forall x :: x in Preempt(s).procs ==> Preempt(s).procs[x].status != Running
  {
    if s.running.Some? && s.procs[s.running.value].status == Running {
      var r := s.running.value;
      var t := s.(procs := s.procs[r := s.procs[r].(quantum := DEFAULT_QUANTUM)]);
      assert forall k, x :: Belongs(t.procs, k, x) <==> Belongs(s.procs, k, x);
      if r != IDLE {
        AddInv(t, r);
        assert Preempt(s) == Add(t, r);
      } else {
        assert forall k, x :: Belongs(Preempt(s).procs, k, x) <==> Belongs(s.procs, k, x);
      }
    }
  }

  /** With every queued process ready, the decision takes the head of the highest queue that has one. */
  lemma {:induction false} DispatchInv(s: Sched, n: nat)
    requires Inv(s) && n <= MAX_PRIORITY + 1
    requires forall x :: x in s.procs ==> s.procs[x].status != Running
    requires forall k :: n <= k <= MAX_PRIORITY ==> s.queues[k] == []
    ensures Inv(Dispatch(s, n))
    decreases n
  {
    if n == 0 {
      var t := Dispatch(s, 0);
      assert forall k, x :: Belongs(t.procs, k, x) <==> Belongs(s.procs, k, x);
    } else {
      var items := s.queues[n - 1];
      if items == [] {
        assert s.queues[n - 1 := []] == s.queues;
        DispatchInv(s, n - 1);
      } else {
        HeadInv(s, n);
      }
    }
  }

  lemma HeadInv(s: Sched, n: nat)
    requires Inv(s) && 0 < n <= MAX_PRIORITY + 1 && s.queues[n - 1] != []
    requires forall x :: x in s.procs ==> s.procs[x].status != Running
    ensures FirstRunnable(s.procs, s.queues[n - 1]) == 0
    ensures Inv(Dispatch(s, n))
  {
    var items, t := s.queues[n - 1], Dispatch(s, n);
    assert items[0] in items && Belongs(s.procs, n - 1, items[0]);
    SliceDistinct(items, 1);
    assert items[..1] == [items[0]];
    forall j, y | 0 <= j <= MAX_PRIORITY ensures y in t.queues[j] <==> Belongs(t.procs, j, y) {
      assert y in s.queues[j] <==> Belongs(s.procs, j, y);
    }
  }

  lemma TickInv(s: Sched)
    requires Inv(s)
    ensures Inv(Tick(s)) && !InsideQuantum(Aging(s))
  {
    AgingInv(s, MAX_PRIORITY);
    var a := Aging(s);
    var b := UseQuantum(a);
    assert forall k, x :: Belongs(b.procs, k, x) <==> Belongs(a.procs, k, x);
    PreemptInv(b);
    DispatchInv(Preempt(b), MAX_PRIORITY + 1);
  }

  // ---- the other operations

  lemma BlockInv(s: Sched, x: nat)
    requires Inv(s)
    ensures Inv(Block(s, x))
  {
    if Block(s, x) != s {
      DropInv(s, x, s.procs[x].(status := Blocked, waitTicks := 0));
    }
  }

  lemma UnblockInv(s: Sched, x: nat)
    requires Inv(s)
    ensures Inv(Unblock(s, x))
  {
    if Unblock(s, x) != s {
      AddInv(s, x);
    }
  }

  lemma ReapInv(s: Sched)
    requires Inv(s)
    ensures Inv(Reap(s))
  {
    assert forall k, x :: Belongs(Reap(s).procs, k, x) <==> Belongs(s.procs, k, x);
  }

  lemma BornInv(s: Sched, x: nat, priority: int)
    requires Inv(s) && AssignPid(s.procs, 0) == Some(x)
    ensures Inv(Born(s, x, priority))
  {
    var p := Proc(Ready, Level(priority), Level(priority), 0, DEFAULT_QUANTUM);
    var t := s.(procs := s.procs[x := p.(status := Blocked)]);
    assert x != IDLE;
    assert forall k, y :: Belongs(t.procs, k, y) <==> Belongs(s.procs, k, y);
    AddInv(t, x);
    assert t.procs[x := p] == s.procs[x := p][x := p];
    assert Add(t, x) == Born(s, x, priority);
  }

  lemma CreateInv(s: Sched, priority: int)
    requires Inv(s)
    ensures Inv(Create(s, priority))
  {
    var r := AssignPid(s.procs, 0);
    if r.Some? {
      BornInv(s, r.value, priority);
      ReapInv(Born(s, r.value, priority));
    }
  }

  lemma ExitInv(s: Sched)
    requires Inv(s)
    ensures Inv(Exit(s))
  {
    if Exit(s) != s {
      var x := s.running.value;
      var t := s.(running := None, procs := s.procs[x := s.procs[x].(status := Blocked)]);
      assert forall k, y :: Belongs(t.procs, k, y) <==> Belongs(s.procs, k, y);
      DropInv(t, x, s.procs[x].(status := Terminated));
      assert Exit(s) == Drop(t, x).(procs := t.procs[x := s.procs[x].(status := Terminated)]);
    }
  }

  lemma KillInv(s: Sched, x: nat)
    requires Inv(s)
    ensures Inv(Kill(s, x))
  {
    if Kill(s, x) != s {
      var t := Block(s, x);
      BlockInv(s, x);
      var u := Kill(s, x);
      RemoveEffect(s.queues[s.procs[x].priority], x);
      forall j, y | 0 <= j <= MAX_PRIORITY ensures y in u.queues[j] <==> Belongs(u.procs, j, y) {
        assert y in s.queues[j] <==> Belongs(s.procs, j, y);
      }
    }
  }

  lemma YieldInv(s: Sched)
    requires Inv(s)
    ensures Inv(Yield(s))
  {
    assert forall k, x :: Belongs(Yield(s).procs, k, x) <==> Belongs(s.procs, k, x);
  }

  /** Changing a priority keeps the invariant exactly when the process is not queued elsewhere. */
  lemma SetPriorityInv(s: Sched, x: nat, priority: int)
    requires Inv(s)
    ensures Inv(SetPriority(s, x, priority)) <==> !Requeues(s, x, priority)
  {
    var t := SetPriority(s, x, priority);
    if Requeues(s, x, priority) {
      assert Belongs(s.procs, s.procs[x].priority, x) && !Belongs(t.procs, s.procs[x].priority, x);
    } else {
      assert forall k, y :: 0 <= k <= MAX_PRIORITY ==> (Belongs(t.procs, k, y) <==> Belongs(s.procs, k, y));
    }
  }

  lemma StepInv(s: Sched, op: Op)
    requires Inv(s) && Allowed(s, op)
    ensures Inv(Step(s, op))
  {
    match op
    case DoTick => TickInv(s);
    case DoCreate(priority) => CreateInv(s, priority);
    case DoBlock(x) => BlockInv(s, x);
    case DoUnblock(x) => UnblockInv(s, x);
    case DoExit => ExitInv(s);
    case DoKill(x) => KillInv(s, x);
    case DoYield => YieldInv(s);
    case DoReap => ReapInv(s);
    case DoSetPriority(x, priority) => SetPriorityInv(s, x, priority);
  }
}

/** What the scheduler guarantees over whole runs: the partition of processes into queues, the order of service,
    and a bound on how long a ready process can be passed over. */
module SchedulerTheorems {
  import opened Basics
  import opened SchedulerSpec
  import opened PidQueues
  import opened AgingPasses
  import opened SchedulerInvariant

  // ---- runs

  ghost predicate Legal(s: Sched, ops: seq<Op>)
    requires Inv(s)
    decreases |ops|
  {
    ops == [] || (Allowed(s, ops[0]) && (StepInv(s, ops[0]); Legal(Step(s, ops[0]), ops[1..])))
  }

  ghost function Run(s: Sched, ops: seq<Op>): (t: Sched)
    requires Inv(s) && Legal(s, ops)
    ensures Inv(t)
    decreases |ops|
  {
    if ops == [] then s
    else
      StepInv(s, ops[0]);
      Run(Step(s, ops[0]), ops[1..])
  }

  lemma LegalCons(s: Sched, op: Op, ops: seq<Op>)
    requires Inv(s) && Allowed(s, op) && Inv(Step(s, op)) && Legal(Step(s, op), ops)
    ensures Legal(s, [op] + ops) && Run(s, [op] + ops) == Run(Step(s, op), ops)
  {
    assert ([op] + ops)[1..] == ops;
  }

  /** How often `x` stands in the ready queues. */
  ghost function Occurrences(s: Sched, x: nat): nat
    requires |s.queues| == MAX_PRIORITY + 1
  {
    multiset(s.queues[0])[x] + multiset(s.queues[1])[x] + multiset(s.queues[2])[x] + multiset(s.queues[3])[x]
  }

  lemma {:induction false} CountDistinct(items: seq<nat>, x: nat)
    requires Distinct(items)
    ensures multiset(items)[x] == if x in items then 1 else 0
  {
    if items != [] {
      var n := |items| - 1;
      SliceDistinct(items, n);
      CountDistinct(items[..n], x);
      assert items == items[..n] + [items[n]];
      assert items[n..] == [items[n]];
    }
  }

  /** Whatever the kernel has done since boot, a ready process stands in the queues exactly once, in the queue of its
      priority; the idle process and processes that are running, blocked or gone stand in none. */
  lemma Partition(ops: seq<Op>, x: nat)
    requires Legal(Boot(), ops)
    ensures var s := Run(Boot(), ops);
            var ready := x in s.procs && x != IDLE && s.procs[x].status == Ready;
            && Occurrences(s, x) == (if ready then 1 else 0)
            && (ready ==> x in s.queues[s.procs[x].priority])
            && (x in s.procs && s.procs[x].status == Running ==> s.running == Some(x))
  {
    var s := Run(Boot(), ops);
    CountDistinct(s.queues[0], x);
    CountDistinct(s.queues[1], x);
    CountDistinct(s.queues[2], x);
    CountDistinct(s.queues[3], x);
    assert forall k :: 0 <= k <= MAX_PRIORITY ==> (x in s.queues[k] <==> Belongs(s.procs, k, x));
  }

  predicate Waiting(s: Sched, x: nat) {
    Runnable(s.procs, x)
  }

  predicate Dispatched(s: Sched, x: nat) {
    x in s.procs && s.procs[x].status == Running && s.running == Some(x)
  }

  /** A process moved while it is queued and killed afterwards leaves its pid behind in a ready queue. */
  lemma MovedThenKilled(s: Sched, x: nat, priority: int)
    requires Inv(s) && Requeues(s, x, priority) && x != INIT
    ensures var t := Kill(SetPriority(s, x, priority), x);
            x !in t.procs && x in t.queues[s.procs[x].priority]
  {
    assert Belongs(s.procs, s.procs[x].priority, x);
  }

  /** In every state with a free pid this can happen: a new process is given another priority before it has run. */
  lemma MovedWhileQueued(s: Sched, x: nat, priority: int)
    requires Inv(s) && AssignPid(s.procs, 0) == Some(x) && MIN_PRIORITY < priority <= MAX_PRIORITY
    ensures var t := Step(s, DoCreate(DEFAULT_PRIORITY));
            Requeues(t, x, priority) && !Inv(Step(t, DoSetPriority(x, priority)))
  {
    StepInv(s, DoCreate(DEFAULT_PRIORITY));
    SetPriorityInv(Step(s, DoCreate(DEFAULT_PRIORITY)), x, priority);
  }

  /** Blocking and waking a process puts it at the back of the queue of its priority and changes nothing else. */
  lemma UnblockUndoesBlock(s: Sched, x: nat)
    requires Inv(s) && x in s.procs && x != IDLE && x != INIT
    requires s.procs[x].status == Ready || s.procs[x].status == Running
    ensures WellFormed(Block(s, x))
    ensures var t, k := Unblock(Block(s, x), x), s.procs[x].priority;
            && t.running == s.running
            && t.procs == s.procs[x := s.procs[x].(status := Ready, waitTicks := 0)]
            && t.queues == s.queues[k := Remove(s.queues[k], x) + [x]]
            && (forall y :: y != x ==> (y in t.queues[k] <==> y in s.queues[k]))
  {
    BlockInv(s, x);
    RemoveEffect(s.queues[s.procs[x].priority], x);
  }

  /** A process killed right after it was created leaves no trace. */
  lemma KillUndoesCreate(s: Sched, priority: int, x: nat)
    requires Inv(s) && AssignPid(s.procs, 0) == Some(x) && x != INIT
    requires forall y :: y in s.procs ==> s.procs[y].status != Terminated
    ensures WellFormed(Create(s, priority)) && Kill(Create(s, priority), x) == s
  {
    CreateInv(s, priority);
    var k := Level(priority);
    var c := Create(s, priority);
    assert !Belongs(s.procs, k, x);
    assert c.queues[k] == s.queues[k] + [x];
    assert c.procs == s.procs[x := c.procs[x]] && c.procs[x].priority == k;
    PositionLast(s.queues[k], x);
    assert Remove(c.queues[k], x) == s.queues[k];
    assert s.queues[k := s.queues[k] + [x]][k := s.queues[k]] == s.queues;
    assert Kill(c, x).procs == s.procs;
  }

  // ---- what one aging pass does

  lemma NotLast(front: seq<nat>, last: nat, x: nat, y: nat)
    requires y in front + [last]
    ensures x !in front ==> x !in front + [last] || Position(front + [last], y) <= Position(front + [last], x)
  {
    var items := front + [last];
    assert x !in front && x in items ==> x == last;
    if x !in front {
      PositionLast(front, x);
      assert Position(items, y) < |items|;
    }
  }

  lemma KeptLater(procs: map<nat, Proc>, front: seq<nat>, last: nat, x: nat)
    requires Distinct(front + [last]) && (forall z :: z in front + [last] ==> z in procs) && x in front
    ensures !Due(procs[x]) ==>
              Position(Stay(procs, front + [last]), x) == Position(Stay(procs, front), x) < |Stay(procs, front)|
    ensures Due(procs[x]) ==>
              Position(Leave(procs, front + [last]), x) == Position(Leave(procs, front), x) < |Leave(procs, front)|
  {
    OneMore(procs, front, last);
    if Due(procs[x]) {
      PositionAppend(Leave(procs, front), [last], x);
    } else {
      PositionAppend(Stay(procs, front), [last], x);
    }
  }

  /** Processes that move together, or stay together, keep the order they had in the queue. */
  lemma {:induction false} KeepsOrder(procs: map<nat, Proc>, items: seq<nat>, x: nat, y: nat)
    requires Distinct(items) && (forall z :: z in items ==> z in procs) && x in items && y in items
    requires Due(procs[x]) == Due(procs[y]) && Position(items, x) < Position(items, y)
    ensures !Due(procs[x]) ==> Position(Stay(procs, items), x) < Position(Stay(procs, items), y)
    ensures Due(procs[x]) ==> Position(Leave(procs, items), x) < Position(Leave(procs, items), y)
  {
    var n := |items| - 1;
    var front, last := items[..n], items[n];
    assert items == front + [last];
    NotBefore(items, n);
    SliceDistinct(items, n);
    OneMore(procs, front, last);
    NotLast(front, last, x, y);
    KeptLater(procs, front, last, x);
    PositionAppend(front, [last], x);
    if y in front {
      PositionAppend(front, [last], y);
      KeptLater(procs, front, last, y);
      KeepsOrder(procs, front, x, y);
    } else {
      PositionLast(if Due(procs[y]) then Leave(procs, front) else Stay(procs, front), y);
    }
  }

  /** One pass over a queue, exactly: a head that is due moves to the top queue and ends the pass; otherwise every
      process is aged once and those that are due move to the end of the top queue. */
  lemma AgingPass(s: Sched, k: nat)
    requires Inv(s) && k < MAX_PRIORITY && s.queues[k] != []
    ensures var items, a := s.queues[k], AgeQueue(s, k);
            if Due(s.procs[items[0]]) then
              && a.queues == s.queues[k := items[1..]][MAX_PRIORITY := s.queues[MAX_PRIORITY] + [items[0]]]
              && a.procs == s.procs[items[0] := s.procs[items[0]].(priority := MAX_PRIORITY, waitTicks := 0)]
            else
              && a.queues == s.queues[k := Stay(s.procs, items)]
                                     [MAX_PRIORITY := s.queues[MAX_PRIORITY] + Leave(s.procs, items)]
              && (forall x :: x in s.procs ==>
                    && x in a.procs
                    && a.procs[x] == (if x !in items then s.procs[x]
                                      else if Due(s.procs[x]) then s.procs[x].(priority := MAX_PRIORITY, waitTicks := 0)
                                      else s.procs[x].(waitTicks := s.procs[x].waitTicks + 1)))
  {
    AgeQueueInv(s, k);
    if Due(s.procs[s.queues[k][0]]) {
      HeadLeaves(s, k);
    } else {
      AllAge(s, k);
    }
  }

  lemma AllAge(s: Sched, k: nat)
    requires WellFormed(s) && k < MAX_PRIORITY
    ensures var items := s.queues[k];
            var a := AgeFirst(s, k, |items|);
            && a.queues == s.queues[k := Stay(s.procs, items)]
                                   [MAX_PRIORITY := s.queues[MAX_PRIORITY] + Leave(s.procs, items)]
            && (forall x :: x in s.procs ==> x in a.procs && a.procs[x] == if x in items then Aged(s.procs[x]) else s.procs[x])
  {
    var items := s.queues[k];
    assert items[..|items|] == items;
    assert Stay(s.procs, items) + items[|items|..] == Stay(s.procs, items);
  }

  lemma HeadLeaves(s: Sched, k: nat)
    requires WellFormed(s) && k < MAX_PRIORITY && s.queues[k] != [] && Due(s.procs[s.queues[k][0]])
    ensures var items, a := s.queues[k], AgeFirst(s, k, 1);
            && a.queues == s.queues[k := items[1..]][MAX_PRIORITY := s.queues[MAX_PRIORITY] + [items[0]]]
            && a.procs == s.procs[items[0] := Aged(s.procs[items[0]])]
  {
    var items := s.queues[k];
    assert items[..1] == [items[0]];
    assert Stay(s.procs, [items[0]]) == [] && Leave(s.procs, [items[0]]) == [items[0]];
    assert [] + items[1..] == items[1..];
  }

  // ---- what a scheduler call does to one process

  lemma OtherQueueKept(s: Sched, j: nat, k: nat)
    requires Inv(s) && j < k < MAX_PRIORITY
    ensures var a := AgeQueue(s, j);
            Inv(a) && a.queues[k] == s.queues[k] && forall x :: x in s.queues[k] ==> x in a.procs && a.procs[x] == s.procs[x]
  {
    AgeQueueInv(s, j);
    forall x | x in s.queues[k] ensures x !in s.queues[j] {
      assert Belongs(s.procs, k, x);
    }
  }

  lemma {:induction false} BelowKeeps(s: Sched, n: nat, k: nat) returns (a: Sched)
    requires Inv(s) && n <= k < MAX_PRIORITY
    ensures a == AgeBelow(s, n) && Inv(a)
    ensures a.queues[k] == s.queues[k] && forall x :: x in s.queues[k] ==> a.procs[x] == s.procs[x]
  {
    if n == 0 {
      a := s;
    } else {
      var b := BelowKeeps(s, n - 1, k);
      OtherQueueKept(b, n - 1, k);
      a := AgeQueue(b, n - 1);
    }
  }

  /** Aging moves `x` up: it is due, and the pass over its queue does not end before it. */
  ghost predicate Boosted(s: Sched, x: nat)
    requires Inv(s)
  {
    && Waiting(s, x) && s.procs[x].priority < MAX_PRIORITY && Due(s.procs[x])
    && var items := s.queues[s.procs[x].priority];
       items != [] && (items[0] == x || !Due(s.procs[items[0]]))
  }

  /** What one pass makes of a process. */
  lemma PassOf(s: Sched, k: nat, x: nat)
    requires Inv(s) && k < MAX_PRIORITY && x in s.procs
    ensures var a := AgeQueue(s, k);
            && Inv(a) && x in a.procs && a.procs[x].status == s.procs[x].status && a.procs[x].original == s.procs[x].original
            && a.procs[x].priority == if x in s.queues[k] && Boosted(s, x) then MAX_PRIORITY else s.procs[x].priority
  {
    AgeQueueInv(s, k);
    assert x in s.queues[k] <==> Belongs(s.procs, k, x);
    if s.queues[k] != [] {
      AgingPass(s, k);
      HeadIsMember(s.queues[k]);
    } else {
      NoTurns(s, k);
    }
  }

  /** What aging makes of a process, once the queues below `n` have been walked. */
  lemma {:induction false} AgingOf(s: Sched, n: nat, x: nat)
    requires Inv(s) && n <= MAX_PRIORITY && x in s.procs
    ensures var a := AgeBelow(s, n);
            && Inv(a) && x in a.procs && a.procs[x].status == s.procs[x].status && a.procs[x].original == s.procs[x].original
            && a.procs[x].priority ==
               if Boosted(s, x) && s.procs[x].priority < n then MAX_PRIORITY else s.procs[x].priority
  {
    if n != 0 {
      AgingOf(s, n - 1, x);
      var a := AgeBelow(s, n - 1);
      PassOf(a, n - 1, x);
      var _ := BelowKeeps(s, n - 1, n - 1);
      assert x in a.queues[n - 1] <==> Belongs(a.procs, n - 1, x);
      assert x in s.queues[n - 1] <==> Belongs(s.procs, n - 1, x);
      HeadIsMember(s.queues[n - 1]);
    }
  }

  lemma PreemptionOf(s: Sched, x: nat)
    requires WellFormed(s) && x in s.procs
    ensures var t := Preempt(UseQuantum(s));
            && x in t.procs && t.procs[x].priority == s.procs[x].priority && t.procs[x].original == s.procs[x].original
            && (t.procs[x].status == s.procs[x].status || t.procs[x].status == Ready)
  {
  }

  lemma {:induction false} DispatchOf(s: Sched, n: nat, x: nat)
    requires |s.queues| == MAX_PRIORITY + 1 && IDLE in s.procs && n <= MAX_PRIORITY + 1 && x in s.procs
    ensures var t := Dispatch(s, n);
            && x in t.procs && t.procs[x].priority == s.procs[x].priority && t.procs[x].original == s.procs[x].original
            && (t.procs[x].status == s.procs[x].status || t.procs[x].status == Running)
    decreases n
  {
    if n != 0 && FirstRunnable(s.procs, s.queues[n - 1]) == |s.queues[n - 1]| {
      DispatchOf(s.(queues := s.queues[n - 1 := []]), n - 1, x);
    }
  }

  /** A process that aging has moved up does not get its original priority back when it runs: after a scheduler call
      it has it exactly if it had it before and was not moved up in this call. */
  lemma BoostIsPermanent(s: Sched, x: nat)
    requires Inv(s) && x in s.procs
    ensures x in Tick(s).procs
    ensures var p, q := s.procs[x], Tick(s).procs[x];
            && q.original == p.original
            && q.priority == (if Boosted(s, x) then MAX_PRIORITY else p.priority)
            && (q.priority == q.original <==> p.priority == p.original && !Boosted(s, x))
  {
    TickInv(s);
    AgingOf(s, MAX_PRIORITY, x);
    PreemptionOf(Aging(s), x);
    DispatchOf(Preempt(UseQuantum(Aging(s))), MAX_PRIORITY + 1, x);
  }

  // ---- who runs next

  /** A scheduling decision serves the highest priority that has a ready process, and the longest queued there. */
  lemma {:induction false} ServesHighest(s: Sched, n: nat)
    requires Inv(s) && n <= MAX_PRIORITY + 1
    requires forall k :: n <= k <= MAX_PRIORITY ==> s.queues[k] == []
    ensures var t := Dispatch(s, n);
            && t.running.Some? && t.running.value in s.procs && Dispatched(t, t.running.value)
            && (forall x :: x in s.procs && x != IDLE && s.procs[x].status == Ready && x != t.running.value ==>
                  && t.running != Some(IDLE) && s.procs[x].priority <= s.procs[t.running.value].priority
                  && (s.procs[x].priority == s.procs[t.running.value].priority ==>
                        var queue := s.queues[s.procs[x].priority];
                        Position(queue, t.running.value) < Position(queue, x)))
    decreases n
  {
    forall x | x in s.procs && x != IDLE && s.procs[x].status == Ready
      ensures x in s.queues[s.procs[x].priority] && s.procs[x].priority < n
    {
      assert Belongs(s.procs, s.procs[x].priority, x);
    }
    if n != 0 {
      var items := s.queues[n - 1];
      if items == [] {
        assert s.queues[n - 1 := []] == s.queues;
        ServesHighest(s, n - 1);
      } else {
        assert items[0] in items && Belongs(s.procs, n - 1, items[0]);
        assert FirstRunnable(s.procs, items) == 0;
      }
    }
  }

  lemma {:induction false} AgingKeys(s: Sched, n: nat)
    requires Inv(s) && n <= MAX_PRIORITY
    ensures AgeBelow(s, n).procs.Keys == s.procs.Keys
  {
    if n != 0 {
      AgingKeys(s, n - 1);
      AgingInv(s, n - 1);
      AgeQueueInv(AgeBelow(s, n - 1), n - 1);
    }
  }

  /** The state in which the scheduler decides. */
  ghost function Deciding(s: Sched): (b: Sched)
    requires WellFormed(s)
    ensures WellFormed(b)
  {
    Preempt(UseQuantum(Aging(s)))
  }

  lemma DecidingOf(s: Sched, y: nat)
    requires Inv(s) && (y in s.procs ==> !Due(s.procs[y]))
    ensures var b := Deciding(s); (y in b.procs <==> y in s.procs) && (y in b.procs ==> b.procs[y].priority == s.procs[y].priority)
  {
    AgingKeys(s, MAX_PRIORITY);
    if y in s.procs {
      AgingOf(s, MAX_PRIORITY, y);
      PreemptionOf(Aging(s), y);
    }
  }

  lemma DecidingWaits(s: Sched, x: nat)
    requires Inv(s) && Waiting(s, x)
    ensures var b := Deciding(s);
            Inv(b) && Waiting(b, x) && forall y :: y in b.procs ==> b.procs[y].status != Running
  {
    AgingPatience(s, x);
    PreemptPatience(Aging(s), x);
  }

  lemma HighestRuns(b: Sched, x: nat)
    requires Inv(b) && Waiting(b, x) && forall y :: y in b.procs ==> b.procs[y].status != Running
    requires forall y :: y in b.procs && y != x && y != IDLE ==> b.procs[y].priority < b.procs[x].priority
    ensures Dispatched(Dispatch(b, MAX_PRIORITY + 1), x)
  {
    ServesHighest(b, MAX_PRIORITY + 1);
  }

  /** A waiting process above all others is the next to run, if nobody is due. */
  lemma LoneTop(s: Sched, x: nat)
    requires Inv(s) && Waiting(s, x)
    requires forall y :: y in s.procs ==> !Due(s.procs[y])
    requires forall y :: y in s.procs && y != x && y != IDLE ==> s.procs[y].priority < s.procs[x].priority
    ensures Inv(Tick(s)) && Dispatched(Tick(s), x)
  {
    TickInv(s);
    DecidingWaits(s, x);
    DecidingOf(s, x);
    var b := Deciding(s);
    forall y | y in b.procs && y != x && y != IDLE ensures b.procs[y].priority < b.procs[x].priority {
      DecidingOf(s, y);
    }
    HighestRuns(b, x);
  }

  // ---- no starvation

  lemma PositionRemove(items: seq<nat>, x: nat, y: nat)
    requires x in items && x != y && Distinct(items)
    ensures x in Remove(items, y) && Position(Remove(items, y), x) <= Position(items, x) < |items|
  {
    RemoveEffect(items, y);
    var i, k := Position(items, x), Position(items, y);
    var rest := Remove(items, y);
    if k < |items| {
      assert rest[if i < k then i else i - 1] == x;
    }
  }

  lemma {:induction false} PositionStay(procs: map<nat, Proc>, items: seq<nat>, x: nat)
    requires (forall z :: z in items ==> z in procs) && x in items && !Due(procs[x])
    ensures Position(Stay(procs, items), x) <= Position(items, x) < |items|
  {
    var n := |items| - 1;
    var front := items[..n];
    assert items == front + [items[n]];
    if x in front {
      PositionStay(procs, front, x);
      PositionAppend(front, [items[n]], x);
      PositionAppend(Stay(procs, front), [items[n]], x);
    } else {
      assert Stay(procs, items) == Stay(procs, front) + [x];
      assert (Stay(procs, front) + [x])[|Stay(procs, front)|] == x;
      assert Position(items, x) == n;
    }
  }

  lemma {:induction false} Pigeonhole(items: seq<nat>, n: nat)
    requires Distinct(items) && forall x :: x in items ==> 0 < x <= n
    ensures |items| <= n
  {
    if n != 0 {
      RemoveEffect(items, n);
      Pigeonhole(Remove(items, n), n - 1);
    } else {
      HeadIsMember(items);
    }
  }

  lemma HeadIsMember(items: seq<nat>)
    ensures items == [] || items[0] in items
  {
  }

  lemma QueueIsShort(s: Sched, k: nat)
    requires Inv(s) && k <= MAX_PRIORITY
    ensures |s.queues[k]| < MAX_PROCESSES
  {
    forall x | x in s.queues[k] ensures 0 < x <= MAX_PROCESSES - 1 {
      assert Belongs(s.procs, k, x);
    }
    Pigeonhole(s.queues[k], MAX_PROCESSES - 1);
  }

  /** An upper bound on the scheduler calls that can pass over `x` from now on. */
  ghost function Patience(s: Sched, x: nat): nat
    requires Inv(s) && Waiting(s, x)
  {
    var p := s.procs[x];
    if p.priority == MAX_PRIORITY then Position(s.queues[MAX_PRIORITY], x)
    else Position(s.queues[p.priority], x) + (AGING_THRESHOLD - p.waitTicks) + MAX_PROCESSES
  }

  lemma Queued(s: Sched, x: nat)
    requires Inv(s) && Waiting(s, x)
    ensures x in s.queues[s.procs[x].priority]
    ensures Position(s.queues[s.procs[x].priority], x) < MAX_PROCESSES - 1
  {
    var k := s.procs[x].priority;
    assert Belongs(s.procs, k, x);
    QueueIsShort(s, k);
  }

  lemma PatienceBound(s: Sched, x: nat)
    requires Inv(s) && Waiting(s, x)
    ensures Patience(s, x) < AGING_THRESHOLD + 2 * MAX_PROCESSES
  {
    Queued(s, x);
  }

  lemma HeadPatience(s: Sched, x: nat)
    requires Inv(s) && Waiting(s, x) && s.procs[x].priority < MAX_PRIORITY
    requires var items := s.queues[s.procs[x].priority]; items != [] && Due(s.procs[items[0]])
    ensures var a := AgeQueue(s, s.procs[x].priority);
            && Inv(a) && Waiting(a, x) && Patience(a, x) < Patience(s, x)
            && (a.procs[x].priority != s.procs[x].priority ==> a.procs[x].priority == MAX_PRIORITY)
  {
    var k := s.procs[x].priority;
    AgeQueueInv(s, k);
    Queued(s, x);
    AgingPass(s, k);
    var a, items := AgeQueue(s, k), s.queues[k];
    if x == items[0] {
      assert a.procs[x].priority == MAX_PRIORITY;
      Queued(a, x);
    } else {
      assert a.procs[x] == s.procs[x] && a.queues[k] == items[1..];
      PositionTail(items, x);
    }
  }

  /** An aging pass over the queue of `x` brings it closer to its turn. */
  lemma OwnQueuePatience(s: Sched, x: nat)
    requires Inv(s) && Waiting(s, x) && s.procs[x].priority < MAX_PRIORITY
    ensures var a := AgeQueue(s, s.procs[x].priority);
            && Inv(a) && Waiting(a, x) && Patience(a, x) < Patience(s, x)
            && (a.procs[x].priority != s.procs[x].priority ==> a.procs[x].priority == MAX_PRIORITY)
  {
    var k := s.procs[x].priority;
    var items := s.queues[k];
    Queued(s, x);
    if Due(s.procs[items[0]]) {
      HeadPatience(s, x);
    } else {
      AgeQueueInv(s, k);
      AgingPass(s, k);
      Queued(AgeQueue(s, k), x);
      if !Due(s.procs[x]) {
        PositionStay(s.procs, items, x);
      }
    }
  }

  /** A pass over another queue changes nothing for `x`. */
  lemma OtherQueuePatience(s: Sched, k: nat, x: nat)
    requires Inv(s) && Waiting(s, x) && k < MAX_PRIORITY && s.procs[x].priority != k
    ensures var a := AgeQueue(s, k);
            Inv(a) && Waiting(a, x) && Patience(a, x) == Patience(s, x) && a.procs[x] == s.procs[x]
  {
    AgeQueueInv(s, k);
    Queued(s, x);
    var top := s.queues[MAX_PRIORITY];
    assert x in s.queues[k] <==> Belongs(s.procs, k, x);
    if x in top {
      PositionAppend(top, Leave(s.procs, s.queues[k][..Turn(s, k)]), x);
    }
  }

  lemma PositionTail(items: seq<nat>, x: nat)
    requires x in items && x != items[0]
    ensures Position(items[1..], x) == Position(items, x) - 1
  {
    var i, j := Position(items, x), Position(items[1..], x);
    assert items[1..][i - 1] == x;
    assert j < |items[1..]| ==> items[j + 1] == x;
  }

  lemma {:induction false} AgingBeforeOwn(s: Sched, n: nat, x: nat) returns (a: Sched)
    requires Inv(s) && Waiting(s, x) && n <= s.procs[x].priority
    ensures a == AgeBelow(s, n)
    ensures Inv(a) && Waiting(a, x) && Patience(a, x) == Patience(s, x) && a.procs[x] == s.procs[x]
  {
    if n == 0 {
      return s;
    }
    var b := AgingBeforeOwn(s, n - 1, x);
    OtherQueuePatience(b, n - 1, x);
    return AgeQueue(b, n - 1);
  }

  lemma OwnPass(s: Sched, b: Sched, x: nat)
    requires Inv(s) && Waiting(s, x) && s.procs[x].priority < MAX_PRIORITY
    requires Inv(b) && Waiting(b, x) && Patience(b, x) == Patience(s, x) && b.procs[x] == s.procs[x]
    ensures Advanced(s, AgeQueue(b, s.procs[x].priority), x)
  {
    OwnQueuePatience(b, x);
  }

  lemma LaterPass(s: Sched, b: Sched, k: nat, x: nat)
    requires Inv(s) && Waiting(s, x) && s.procs[x].priority < k < MAX_PRIORITY && Advanced(s, b, x)
    ensures Advanced(s, AgeQueue(b, k), x)
  {
    OtherQueuePatience(b, k, x);
  }

  /** `x` has come closer to its turn, in its own queue or in the top one. */
  ghost predicate Advanced(s: Sched, a: Sched, x: nat)
    requires Inv(s) && Waiting(s, x)
  {
    && Inv(a) && Waiting(a, x) && Patience(a, x) < Patience(s, x)
    && (a.procs[x].priority == s.procs[x].priority || a.procs[x].priority == MAX_PRIORITY)
  }

  lemma {:induction false} AgingPastOwn(s: Sched, n: nat, x: nat) returns (a: Sched)
    requires Inv(s) && Waiting(s, x) && s.procs[x].priority < n <= MAX_PRIORITY
    ensures a == AgeBelow(s, n) && Advanced(s, a, x)
    decreases n
  {
    if n - 1 == s.procs[x].priority {
      var b := AgingBeforeOwn(s, n - 1, x);
      OwnPass(s, b, x);
      return AgeQueue(b, n - 1);
    } else {
      var b := AgingPastOwn(s, n - 1, x);
      LaterPass(s, b, n - 1, x);
      return AgeQueue(b, n - 1);
    }
  }

  lemma AgingPatience(s: Sched, x: nat)
    requires Inv(s) && Waiting(s, x)
    ensures var a := Aging(s);
            && Inv(a) && Waiting(a, x)
            && (s.procs[x].priority < MAX_PRIORITY ==> Patience(a, x) < Patience(s, x))
            && (s.procs[x].priority == MAX_PRIORITY ==> Patience(a, x) == Patience(s, x) && a.procs[x] == s.procs[x])
  {
    if s.procs[x].priority < MAX_PRIORITY {
      var _ := AgingPastOwn(s, MAX_PRIORITY, x);
    } else {
      var _ := AgingBeforeOwn(s, MAX_PRIORITY, x);
    }
  }

  lemma FrontPass(s: Sched, x: nat)
    requires Inv(s) && Waiting(s, x) && s.procs[x].priority < MAX_PRIORITY
    requires s.queues[s.procs[x].priority] != [] && s.queues[s.procs[x].priority][0] == x
    ensures var a := AgeQueue(s, s.procs[x].priority); Inv(a) && Waiting(a, x) && a.procs[x] == Aged(s.procs[x])
  {
    HeadIsMember(s.queues[s.procs[x].priority]);
    AgeQueueInv(s, s.procs[x].priority);
    AgingPass(s, s.procs[x].priority);
  }

  ghost predicate WaitsAs(a: Sched, x: nat, p: Proc) {
    Inv(a) && Waiting(a, x) && a.procs[x] == p
  }

  lemma LaterKeeps(s: Sched, k: nat, x: nat, p: Proc)
    requires WaitsAs(s, x, p) && k < MAX_PRIORITY && p.priority != k
    ensures WaitsAs(AgeQueue(s, k), x, p)
  {
    OtherQueuePatience(s, k, x);
  }

  lemma OwnAges(s: Sched, x: nat) returns (a: Sched)
    requires Inv(s) && Waiting(s, x) && s.procs[x].priority < MAX_PRIORITY
    requires s.queues[s.procs[x].priority] != [] && s.queues[s.procs[x].priority][0] == x
    ensures a == AgeBelow(s, s.procs[x].priority + 1) && WaitsAs(a, x, Aged(s.procs[x]))
  {
    var k := s.procs[x].priority;
    var b := BelowKeeps(s, k, k);
    HeadIsMember(s.queues[k]);
    FrontPass(b, x);
    a := AgeQueue(b, k);
  }

  /** A pass that finds `x` at the front of its queue ages it, and no later pass changes it again. */
  lemma {:induction false} AgedAtFront(s: Sched, n: nat, x: nat) returns (a: Sched)
    requires Inv(s) && Waiting(s, x) && s.procs[x].priority < n <= MAX_PRIORITY
    requires s.queues[s.procs[x].priority] != [] && s.queues[s.procs[x].priority][0] == x
    ensures a == AgeBelow(s, n) && WaitsAs(a, x, Aged(s.procs[x]))
    decreases n
  {
    if n - 1 == s.procs[x].priority {
      a := OwnAges(s, x);
      return;
    }
    var b := AgedAtFront(s, n - 1, x);
    LaterKeeps(b, n - 1, x, Aged(s.procs[x]));
    return AgeQueue(b, n - 1);
  }

  /** A decision changes no process but the one it gives the processor to. */
  lemma {:induction false} DispatchLeaves(s: Sched, n: nat, x: nat)
    requires |s.queues| == MAX_PRIORITY + 1 && IDLE in s.procs && n <= MAX_PRIORITY + 1
    ensures var t := Dispatch(s, n);
            t.procs.Keys == s.procs.Keys && (x in s.procs && t.running != Some(x) ==> t.procs[x] == s.procs[x])
    decreases n
  {
    if n != 0 && FirstRunnable(s.procs, s.queues[n - 1]) == |s.queues[n - 1]| {
      DispatchLeaves(s.(queues := s.queues[n - 1 := []]), n - 1, x);
    }
  }

  lemma PreemptPatience(s: Sched, x: nat)
    requires Inv(s) && Waiting(s, x)
    ensures var t := Preempt(UseQuantum(s));
            && Inv(t) && Waiting(t, x) && t.procs[x] == s.procs[x] && Patience(t, x) == Patience(s, x)
            && (forall y :: y in t.procs ==> t.procs[y].status != Running)
  {
    var u := UseQuantum(s);
    assert forall k, y :: Belongs(u.procs, k, y) <==> Belongs(s.procs, k, y);
    PreemptInv(u);
    Queued(s, x);
    if u.running.Some? && u.procs[u.running.value].status == Running && u.running != Some(IDLE) {
      PositionAppend(s.queues[s.procs[x].priority], [u.running.value], x);
    }
  }

  lemma {:induction false} DispatchPatience(s: Sched, n: nat, x: nat)
    requires Inv(s) && Waiting(s, x) && n <= MAX_PRIORITY + 1
    requires forall y :: y in s.procs ==> s.procs[y].status != Running
    requires forall k :: n <= k <= MAX_PRIORITY ==> s.queues[k] == []
    ensures var t := Dispatch(s, n);
            && Inv(t)
            && (Dispatched(t, x) || (Waiting(t, x) && Patience(t, x) <= Patience(s, x)))
            && (Dispatched(t, x) || n <= MAX_PRIORITY || s.procs[x].priority < MAX_PRIORITY ||
                Patience(t, x) < Patience(s, x))
    decreases n
  {
    Queued(s, x);
    DispatchInv(s, n);
    if n != 0 {
      var items := s.queues[n - 1];
      if items == [] {
        assert s.queues[n - 1 := []] == s.queues;
        DispatchPatience(s, n - 1, x);
      } else {
        HeadInv(s, n);
        if x in items && x != items[0] {
          PositionTail(items, x);
        }
      }
    }
  }

  /** Each call of the scheduler runs the waiting process or uses up some of its patience. */
  lemma TickPatience(s: Sched, x: nat)
    requires Inv(s) && Waiting(s, x)
    ensures var t := Tick(s);
            Inv(t) && (Dispatched(t, x) || (Waiting(t, x) && Patience(t, x) < Patience(s, x)))
  {
    TickInv(s);
    AgingPatience(s, x);
    var a := Aging(s);
    PreemptPatience(a, x);
    DispatchPatience(Preempt(UseQuantum(a)), MAX_PRIORITY + 1, x);
  }

  /** The operation is aimed at `x` itself. */
  predicate Targets(op: Op, x: nat) {
    match op
    case DoBlock(y) => x == y
    case DoKill(y) => x == y
    case DoSetPriority(y, _) => x == y
    case _ => false
  }

  lemma RemovePatience(s: Sched, t: Sched, x: nat, y: nat)
    requires Inv(s) && Inv(t) && Waiting(s, x) && x != y && y in s.procs
    requires x in t.procs && t.procs[x] == s.procs[x]
    requires t.queues == Drop(s, y).queues
    ensures Waiting(t, x) && Patience(t, x) <= Patience(s, x)
  {
    Queued(s, x);
    PositionRemove(s.queues[s.procs[x].priority], x, y);
  }

  lemma AppendPatience(s: Sched, t: Sched, x: nat, k: nat, more: seq<nat>)
    requires Inv(s) && Inv(t) && Waiting(s, x) && k <= MAX_PRIORITY
    requires x in t.procs && t.procs[x].(quantum := 0) == s.procs[x].(quantum := 0)
    requires t.queues == s.queues[k := s.queues[k] + more]
    ensures Waiting(t, x) && Patience(t, x) == Patience(s, x)
  {
    Queued(s, x);
    if s.procs[x].priority == k {
      PositionAppend(s.queues[k], more, x);
    }
  }

  /** A process blocked, killed or ended leaves a queue. */
  lemma LeavingPatience(s: Sched, op: Op, x: nat, y: nat)
    requires Inv(s) && Allowed(s, op) && Waiting(s, x) && x != y
    requires op == DoBlock(y) || op == DoKill(y) || (op.DoExit? && s.running == Some(y))
    ensures var t := Step(s, op);
            Inv(t) && Waiting(t, x) && Patience(t, x) <= Patience(s, x)
  {
    StepInv(s, op);
    if Step(s, op) != s { RemovePatience(s, Step(s, op), x, y); }
  }

  /** A process woken or created joins a queue at its end. */
  lemma JoiningPatience(s: Sched, op: Op, x: nat)
    requires Inv(s) && Allowed(s, op) && Waiting(s, x) && (op.DoUnblock? || op.DoCreate?)
    ensures var t := Step(s, op);
            Inv(t) && Waiting(t, x) && Patience(t, x) <= Patience(s, x)
  {
    StepInv(s, op);
    Queued(s, x);
    var t := Step(s, op);
    if op.DoUnblock? {
      if t != s { AppendPatience(s, t, x, s.procs[op.x].priority, [op.x]); }
    } else {
      var r := AssignPid(s.procs, 0);
      if r.Some? { AppendPatience(s, t, x, Level(op.priority), [r.value]); }
    }
  }

  /** Nothing else the kernel does, to other processes, delays a waiting process. */
  lemma OtherPatience(s: Sched, op: Op, x: nat)
    requires Inv(s) && Allowed(s, op) && Waiting(s, x) && !Targets(op, x) && !op.DoTick?
    ensures var t := Step(s, op);
            Inv(t) && Waiting(t, x) && Patience(t, x) <= Patience(s, x)
  {
    match op
    case DoBlock(y) => LeavingPatience(s, op, x, y);
    case DoKill(y) => LeavingPatience(s, op, x, y);
    case DoExit => if s.running.Some? && s.running != Some(x) { LeavingPatience(s, op, x, s.running.value); }
    case DoUnblock(_) => JoiningPatience(s, op, x);
    case DoCreate(_) => JoiningPatience(s, op, x);
    case _ => StepInv(s, op);
  }

  function Ticks(ops: seq<Op>): nat {
    if ops == [] then 0 else (if ops[0].DoTick? then 1 else 0) + Ticks(ops[1..])
  }

  ghost predicate EverDispatched(s: Sched, ops: seq<Op>, x: nat)
    requires Inv(s) && Legal(s, ops)
    decreases |ops|
  {
    Dispatched(s, x) || (ops != [] && (StepInv(s, ops[0]); EverDispatched(Step(s, ops[0]), ops[1..], x)))
  }

  lemma {:induction false} PatienceRunsOut(s: Sched, ops: seq<Op>, x: nat)
    requires Inv(s) && Legal(s, ops) && Waiting(s, x) && Patience(s, x) < Ticks(ops)
    requires forall op :: op in ops ==> !Targets(op, x)
    ensures EverDispatched(s, ops, x)
    decreases |ops|
  {
    StepInv(s, ops[0]);
    var t := Step(s, ops[0]);
    if ops[0].DoTick? {
      TickPatience(s, x);
    } else {
      OtherPatience(s, ops[0], x);
    }
    if !Dispatched(t, x) {
      PatienceRunsOut(t, ops[1..], x);
    }
  }

  /** A ready process that is not itself blocked, killed or given a new priority runs within
      AGING_THRESHOLD + 2 * MAX_PROCESSES scheduler calls, whatever all other processes do. */
  lemma NoStarvation(s: Sched, ops: seq<Op>, x: nat)
    requires Inv(s) && Legal(s, ops) && Waiting(s, x)
    requires forall op :: op in ops ==> !Targets(op, x)
    requires Ticks(ops) >= AGING_THRESHOLD + 2 * MAX_PROCESSES
    ensures EverDispatched(s, ops, x)
  {
    PatienceBound(s, x);
    PatienceRunsOut(s, ops, x);
  }
}

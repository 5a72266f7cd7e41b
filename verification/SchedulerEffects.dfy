/** What each operation of the scheduler does to the processes, whatever it was that brought them there. */
module SchedulerEffects {
  import opened Basics
  import opened SchedulerSpec
  import opened PidQueues
  import opened SchedulerInvariant
  import opened SchedulerTheorems
  import AP = AgingPasses

  // ---- who gets the processor, and what becomes of it

  predicate NoneRunnable(procs: map<nat, Proc>, items: seq<nat>) {
    forall i :: 0 <= i < |items| ==> !Runnable(procs, items[i])
  }

  /** Below `n`, the decision falls on the first runnable process of the highest queue `k` that has one, at position
      `i`. What stood before it, and what stood in higher queues, was not runnable and is gone; the rest stays. Without
      any runnable process it falls on idle, and then `k` is `n`. */
  ghost predicate Falls(s: Sched, n: nat, t: Sched, k: nat, i: nat)
    requires |s.queues| == |t.queues| == MAX_PRIORITY + 1 && n <= MAX_PRIORITY + 1
  {
    && (forall j :: n <= j <= MAX_PRIORITY ==> t.queues[j] == s.queues[j])
    && (k == n ==>
          t.running == Some(IDLE) && forall j :: 0 <= j < n ==> t.queues[j] == [] && NoneRunnable(s.procs, s.queues[j]))
    && (k < n ==>
          && i < |s.queues[k]| && t.running == Some(s.queues[k][i]) && Runnable(s.procs, s.queues[k][i])
          && NoneRunnable(s.procs, s.queues[k][..i]) && t.queues[k] == s.queues[k][i + 1..]
          && (forall j :: k < j < n ==> t.queues[j] == [] && NoneRunnable(s.procs, s.queues[j]))
          && (forall j :: 0 <= j < k ==> t.queues[j] == s.queues[j]))
  }

  /** The highest queue has nothing to offer. */
  lemma FallsLower(s: Sched, n: nat, rest: Sched, t: Sched, k: nat, i: nat)
    requires |s.queues| == |t.queues| == MAX_PRIORITY + 1 && n <= MAX_PRIORITY && NoneRunnable(s.procs, s.queues[n])
    requires rest == s.(queues := s.queues[n := []]) && k <= n && Falls(rest, n, t, k, i)
    ensures Falls(s, n + 1, t, if k == n then n + 1 else k, i)
  {
    assert t.queues[n] == rest.queues[n] == [];
    assert forall j :: 0 <= j <= MAX_PRIORITY && j != n ==> rest.queues[j] == s.queues[j];
  }

  lemma {:induction false} DispatchFalls(s: Sched, n: nat) returns (k: nat, i: nat)
    requires |s.queues| == MAX_PRIORITY + 1 && IDLE in s.procs && n <= MAX_PRIORITY + 1
    ensures |Dispatch(s, n).queues| == MAX_PRIORITY + 1 && k <= n && Falls(s, n, Dispatch(s, n), k, i)
    decreases n
  {
    if n == 0 {
      return 0, 0;
    }
    var items := s.queues[n - 1];
    i := FirstRunnable(s.procs, items);
    if i < |items| {
      return n - 1, i;
    }
    var rest := s.(queues := s.queues[n - 1 := []]);
    k, i := DispatchFalls(rest, n - 1);
    FallsLower(s, n - 1, rest, Dispatch(s, n), k, i);
    if k == n - 1 {
      return n, i;
    }
  }

  /** Whoever gets the processor runs, and unless it is idle starts with a full quantum and with no time waited. */
  predicate Afresh(t: Sched) {
    && t.running.Some? && t.running.value in t.procs && t.procs[t.running.value].status == Running
    && (t.running != Some(IDLE) ==> t.procs[t.running.value].waitTicks == 0 && t.procs[t.running.value].quantum == 1)
  }

  lemma {:induction false} DispatchesAfresh(s: Sched, n: nat)
    requires |s.queues| == MAX_PRIORITY + 1 && IDLE in s.procs && n <= MAX_PRIORITY + 1
    ensures Afresh(Dispatch(s, n))
    decreases n
  {
    if n != 0 && FirstRunnable(s.procs, s.queues[n - 1]) == |s.queues[n - 1]| {
      DispatchesAfresh(s.(queues := s.queues[n - 1 := []]), n - 1);
    }
  }

  /** After every call of the scheduler somebody runs, afresh. */
  lemma StartsAfresh(s: Sched)
    requires Inv(s)
    ensures Afresh(Tick(s))
  {
    TickInv(s);
    DispatchesAfresh(Preempt(UseQuantum(Aging(s))), MAX_PRIORITY + 1);
  }

  // ---- the end of a turn

  /** The running process goes to the back of the queue of its priority, with a full quantum; idle is not queued, and
      one that does not run loses the processor. Nobody else is concerned. */
  lemma TurnOver(s: Sched, x: nat)
    requires WellFormed(s) && s.running == Some(x)
    ensures var t, p := Preempt(UseQuantum(s)), s.procs[x];
            && (p.status == Running ==>
                  && t.procs == s.procs[x := p.(status := Ready, quantum := 1)]
                  && t.queues == (if x == IDLE then s.queues
                                  else s.queues[p.priority := s.queues[p.priority] + [x]]))
            && (p.status == Blocked || p.status == Terminated ==> t == s.(running := None))
            && (p.status == Ready ==> t == s)
  {
  }

  /** Within a quantum the process goes on, with one tick less. */
  lemma TurnGoesOn(s: Sched, x: nat)
    requires WellFormed(s) && s.running == Some(x) && s.procs[x].status == Running && s.procs[x].quantum > 1
    ensures InsideQuantum(s) && var t := UseQuantum(s);
            && t.procs[x].quantum == s.procs[x].quantum - 1
            && t == s.(procs := s.procs[x := s.procs[x].(quantum := t.procs[x].quantum)])
  {
  }

  /** An interrupted process is given the processor again, or stands at the very end of the queue of its priority. */
  lemma RoundRobin(s: Sched, x: nat)
    requires Inv(s) && Dispatched(s, x) && x != IDLE
    ensures var t := Tick(s);
            && Inv(t) && x in t.procs && t.procs[x].priority == s.procs[x].priority
            && (Dispatched(t, x) || (Waiting(t, x) && EndsWith(t.queues[t.procs[x].priority], x)))
  {
    TickInv(s);
    PutBack(s, x);
    DecidedFor(Deciding(s), x);
  }

  /** Before the decision it waits at the end of its queue. */
  lemma PutBack(s: Sched, x: nat)
    requires Inv(s) && Dispatched(s, x) && x != IDLE
    ensures var b := Deciding(s);
            Runnable(b.procs, x) && b.procs[x].priority == s.procs[x].priority && EndsWith(b.queues[b.procs[x].priority], x)
  {
    AgingUnqueued(s, MAX_PRIORITY, x);
    TurnOver(Aging(s), x);
  }

  lemma DecidedFor(b: Sched, x: nat)
    requires WellFormed(b) && Runnable(b.procs, x) && EndsWith(b.queues[b.procs[x].priority], x)
    ensures var t := Dispatch(b, MAX_PRIORITY + 1);
            && |t.queues| == MAX_PRIORITY + 1 && x in t.procs && t.procs[x].priority == b.procs[x].priority
            && (Dispatched(t, x) || (Waiting(t, x) && EndsWith(t.queues[t.procs[x].priority], x)))
  {
    var k, i := DispatchFalls(b, MAX_PRIORITY + 1);
    DispatchLeaves(b, MAX_PRIORITY + 1, x);
    DispatchOf(b, MAX_PRIORITY + 1, x);
    DispatchesAfresh(b, MAX_PRIORITY + 1);
    StillLast(b, Dispatch(b, MAX_PRIORITY + 1), k, i, x);
  }

  predicate EndsWith(items: seq<nat>, x: nat) {
    items != [] && items[|items| - 1] == x
  }

  lemma StillLast(b: Sched, t: Sched, k: nat, i: nat, x: nat)
    requires WellFormed(b) && |t.queues| == MAX_PRIORITY + 1 && k <= MAX_PRIORITY + 1 && Falls(b, MAX_PRIORITY + 1, t, k, i)
    requires Runnable(b.procs, x) && EndsWith(b.queues[b.procs[x].priority], x)
    ensures t.running == Some(x) || EndsWith(t.queues[b.procs[x].priority], x)
  {
    var p := b.procs[x].priority;
    var last := |b.queues[p]| - 1;
    assert k <= p ==> k == p || t.queues[p] == [];
    SomeRunnable(b.procs, b.queues[p], x);
    if k == p && i < last {
      assert t.queues[p] == b.queues[p][i + 1..];
    }
  }

  lemma SomeRunnable(procs: map<nat, Proc>, items: seq<nat>, x: nat)
    requires EndsWith(items, x) && Runnable(procs, x)
    ensures !NoneRunnable(procs, items)
  {
  }

  /** Aging does not touch a process that stands in no queue, nor who runs. */
  lemma {:induction false} AgingUnqueued(s: Sched, n: nat, x: nat)
    requires Inv(s) && n <= MAX_PRIORITY && x in s.procs && s.procs[x].status != Ready
    ensures var a := AgeBelow(s, n); Inv(a) && x in a.procs && a.procs[x] == s.procs[x] && a.running == s.running
  {
    if n != 0 {
      AgingUnqueued(s, n - 1, x);
      var a := AgeBelow(s, n - 1);
      AgeQueueInv(a, n - 1);
      assert x in a.queues[n - 1] <==> Belongs(a.procs, n - 1, x);
    }
  }

  // ---- ending

  /** A process that ends is queued nowhere, off the processor and done with: it cannot be woken, the next reaping takes it
      away, and its pid is free from then on. Nobody else is concerned. */
  lemma ExitEnds(s: Sched, x: nat)
    requires Inv(s) && Dispatched(s, x) && x != IDLE
    ensures var t := Exit(s);
            && Inv(t) && t.running == None && t.queues == s.queues
            && (forall k :: 0 <= k <= MAX_PRIORITY ==> x !in t.queues[k])
            && x in t.procs && t.procs == s.procs[x := t.procs[x]]
            && Unblock(t, x) == t && Block(t, x) == t
            && Reap(t).procs == Reap(s).procs - {x}
            && PidFree(t.procs, x) && PidFree(Reap(t).procs, x)
  {
    ExitInv(s);
    var t, k := Exit(s), s.procs[x].priority;
    assert x in s.queues[k] <==> Belongs(s.procs, k, x);
    NotQueued(s.queues[k], x);
    forall j | 0 <= j <= MAX_PRIORITY ensures x !in t.queues[j] {
      assert x in s.queues[j] <==> Belongs(s.procs, j, x);
    }
    PidIsFree(t.procs, x);
    PidIsFree(Reap(t).procs, x);
  }

  lemma NotQueued(items: seq<nat>, x: nat)
    requires x !in items
    ensures Remove(items, x) == items
  {
  }

  /** The next process to be created is given this pid, or a lower one. */
  predicate PidFree(procs: map<nat, Proc>, x: nat) {
    AssignPid(procs, 0).Some? && AssignPid(procs, 0).value <= x
  }

  lemma PidIsFree(procs: map<nat, Proc>, x: nat)
    requires x < MAX_PROCESSES && (x in procs ==> procs[x].status == Terminated)
    ensures PidFree(procs, x)
  {
  }

  /** A killed process is gone from table, queues and processor, and its pid is free; the others keep their order. */
  lemma KillEnds(s: Sched, x: nat)
    requires Inv(s) && x in s.procs
    ensures x == IDLE || x == INIT ==> Kill(s, x) == s
    ensures x != IDLE && x != INIT ==>
              var t := Kill(s, x);
              && Inv(t) && t.procs == s.procs - {x} && t.running == (if s.running == Some(x) then None else s.running)
              && Gone(s.queues, t.queues, x) && PidFree(t.procs, x)
  {
    KillInv(s, x);
    if x != IDLE && x != INIT {
      QueuedOnce(s, x);
      PidIsFree(Kill(s, x).procs, x);
    }
  }

  /** One process is gone from the queues, and nothing else is changed. */
  ghost predicate Gone(queues: seq<seq<nat>>, after: seq<seq<nat>>, x: nat) {
    && |after| == |queues|
    && forall k :: 0 <= k < |queues| ==>
         && x !in after[k]
         && (x !in queues[k] ==> after[k] == queues[k])
         && (x in queues[k] ==> exists i :: 0 <= i <= |after[k]| && queues[k] == after[k][..i] + [x] + after[k][i..])
  }

  lemma RemovedAt(items: seq<nat>, x: nat)
    requires Distinct(items)
    ensures var r := Remove(items, x);
            && x !in r && (x !in items ==> r == items)
            && (x in items ==> exists i :: 0 <= i <= |r| && items == r[..i] + [x] + r[i..])
  {
    RemoveEffect(items, x);
    var i, r := Position(items, x), Remove(items, x);
    if x in items {
      assert r[..i] == items[..i] && r[i..] == items[i + 1..];
      assert items == r[..i] + [x] + r[i..];
    }
  }

  lemma QueuedOnce(s: Sched, x: nat)
    requires Inv(s) && x in s.procs
    ensures Gone(s.queues, Drop(s, x).queues, x)
  {
    forall k | 0 <= k <= MAX_PRIORITY
      ensures var q, r := s.queues[k], Drop(s, x).queues[k];
              && x !in r && (x !in q ==> r == q)
              && (x in q ==> exists i :: 0 <= i <= |r| && q == r[..i] + [x] + r[i..])
    {
      assert x in s.queues[k] <==> Belongs(s.procs, k, x);
      RemovedAt(s.queues[k], x);
    }
  }

  /** Exactly the terminated processes are reaped. */
  lemma ReapsEnded(s: Sched)
    ensures var t := Reap(s);
            && t.queues == s.queues && t.running == s.running
            && (forall x :: x in t.procs <==> x in s.procs && s.procs[x].status != Terminated)
            && (forall x :: x in t.procs ==> t.procs[x] == s.procs[x])
  {
  }

  // ---- blocking and waking

  /** A blocked process stands in no queue and has waited for nothing; the others keep their order. */
  lemma BlockStops(s: Sched, x: nat)
    requires Inv(s) && x in s.procs
    ensures x == IDLE || x == INIT || s.procs[x].status == Blocked || s.procs[x].status == Terminated ==> Block(s, x) == s
    ensures x != IDLE && x != INIT && (s.procs[x].status == Ready || s.procs[x].status == Running) ==>
              var t := Block(s, x);
              && Inv(t) && t.running == s.running && t.procs == s.procs[x := s.procs[x].(status := Blocked, waitTicks := 0)]
              && Gone(s.queues, t.queues, x)
  {
    BlockInv(s, x);
    QueuedOnce(s, x);
  }

  /** A blocked process that is woken waits at the end of the queue of its priority. */
  lemma UnblockWakes(s: Sched, x: nat)
    requires Inv(s) && x in s.procs
    ensures x == IDLE || x == INIT || s.procs[x].status != Blocked ==> Unblock(s, x) == s
    ensures x != IDLE && x != INIT && s.procs[x].status == Blocked ==>
              var t, k := Unblock(s, x), s.procs[x].priority;
              && Inv(t) && t.running == s.running && t.procs == s.procs[x := s.procs[x].(status := Ready)]
              && t.queues == s.queues[k := s.queues[k] + [x]]
  {
    UnblockInv(s, x);
  }

  // ---- creation and priorities

  /** The four priorities are themselves; anything else is the lowest. */
  lemma Levels(priority: int)
    ensures 0 <= priority <= 3 ==> Level(priority) == priority
    ensures priority < 0 || 3 < priority ==> Level(priority) == 0
  {
  }

  /** Pid `x` is unused or belongs to a process that has ended, and every lower one is in use. */
  predicate LowestFree(procs: map<nat, Proc>, x: nat) {
    && (x in procs ==> procs[x].status == Terminated)
    && forall j :: 0 <= j < x ==> j in procs && procs[j].status != Terminated
  }

  /** The new process has the lowest pid that is free, waits at the end of the queue of its priority, and has waited for
      nothing yet. */
  lemma CreateAdds(s: Sched, priority: int, x: nat)
    requires Inv(s) && x < 64 && LowestFree(s.procs, x)
    ensures var t, k := Create(s, priority), if 0 <= priority <= 3 then priority else 0;
            && Inv(t) && t.running == s.running && t.queues == s.queues[k := s.queues[k] + [x]]
            && t.procs == Reap(s).procs[x := Proc(Ready, k, k, 0, 1)]
  {
    assert AssignPid(s.procs, 0) == Some(x);
    Levels(priority);
    CreateInv(s, priority);
    BornAlone(s, x, priority);
  }

  /** With all 64 pids in use nothing happens. */
  lemma CreateFails(s: Sched, priority: int)
    requires WellFormed(s) && forall j :: 0 <= j < 64 ==> j in s.procs && s.procs[j].status != Terminated
    ensures Create(s, priority) == s
  {
  }

  lemma BornAlone(s: Sched, x: nat, priority: int)
    requires Inv(s) && AssignPid(s.procs, 0) == Some(x)
    ensures var p := Proc(Ready, Level(priority), Level(priority), 0, 1);
            Reap(Born(s, x, priority)).procs == Reap(s).procs[x := p]
  {
    assert x != IDLE;
  }

  /** A priority from 0 to 3 is recorded, as the original one as well, with a full quantum; no other is. Nothing else is
      changed. */
  lemma PriorityIsSet(s: Sched, x: nat, priority: int)
    ensures x in s.procs && 0 <= priority <= 3 ==>
              var t := SetPriority(s, x, priority);
              && x in t.procs && t.procs[x].priority == t.procs[x].original == priority && t.procs[x].quantum == 1
              && t.procs[x].status == s.procs[x].status && t.procs[x].waitTicks == s.procs[x].waitTicks
              && t == s.(procs := s.procs[x := t.procs[x]])
    ensures x !in s.procs || priority < 0 || 3 < priority ==> SetPriority(s, x, priority) == s
  {
  }

  /** A running process that is given a priority competes with it from the next call of the scheduler on. */
  lemma PriorityTakesEffect(s: Sched, x: nat, priority: nat)
    requires Inv(s) && Dispatched(s, x) && x != IDLE && priority <= 3
    ensures var t := Tick(SetPriority(s, x, priority));
            && Inv(t) && x in t.procs && t.procs[x].priority == t.procs[x].original == priority
            && (Dispatched(t, x) || (Waiting(t, x) && EndsWith(t.queues[priority], x)))
  {
    SetPriorityInv(s, x, priority);
    var u := SetPriority(s, x, priority);
    RoundRobin(u, x);
    BoostIsPermanent(u, x);
  }

  // ---- giving up the rest of a quantum

  /** The same processes, with the same state and quantum, and the same one on the processor. */
  predicate SameTurns(s: Sched, t: Sched) {
    && t.running == s.running && t.procs.Keys == s.procs.Keys
    && forall x :: x in s.procs ==> t.procs[x].status == s.procs[x].status && t.procs[x].quantum == s.procs[x].quantum
  }

  lemma RoundSameTurns(w: Walk, k: nat)
    requires OnQueue(w, k)
    ensures SameTurns(w.s, Round(w, k).s)
  {
  }

  lemma {:induction false} RoundsSameTurns(s: Sched, k: nat, n: nat) returns (w: Walk)
    requires WellFormed(s) && k < MAX_PRIORITY
    ensures w == Rounds(Enter(s, k), k, n) && SameTurns(s, w.s)
  {
    if n == 0 {
      return Enter(s, k);
    }
    var v := RoundsSameTurns(s, k, n - 1);
    AP.NextRound(s, k, n - 1, v);
    RoundSameTurns(v, k);
    return Round(v, k);
  }

  lemma PassSameTurns(s: Sched, k: nat)
    requires WellFormed(s) && k < MAX_PRIORITY
    ensures SameTurns(s, AgeQueue(s, k))
  {
    if Ends(s, k) {
      var n: nat :| Rounds(Enter(s, k), k, n).over;
      var w := RoundsSameTurns(s, k, n);
      AP.WalkEnds(s, k, n, w);
    }
  }

  lemma {:induction false} AgingSameTurns(s: Sched, n: nat) returns (a: Sched)
    requires WellFormed(s) && n <= MAX_PRIORITY
    ensures a == AgeBelow(s, n) && WellFormed(a) && SameTurns(s, a)
  {
    if n == 0 {
      return s;
    }
    var b := AgingSameTurns(s, n - 1);
    PassSameTurns(b, n - 1);
    return AgeQueue(b, n - 1);
  }

  /** However much of its quantum is left, after giving it up the process does not go on in it; nothing else is changed. */
  lemma YieldEndsTurn(s: Sched, x: nat)
    requires WellFormed(s) && Dispatched(s, x)
    ensures WellFormed(Yield(s)) && Yield(s) == s.(procs := s.procs[x := s.procs[x].(quantum := 0)])
    ensures !InsideQuantum(Aging(Yield(s)))
  {
    var _ := AgingSameTurns(Yield(s), MAX_PRIORITY);
  }

  /** A longer quantum is used up tick by tick. */
  lemma QuantumGoesOn(s: Sched, x: nat)
    requires WellFormed(s) && Dispatched(s, x) && s.procs[x].quantum > 1
    ensures var t := Tick(s); Dispatched(t, x) && t.procs[x].quantum == s.procs[x].quantum - 1
  {
    var a := AgingSameTurns(s, MAX_PRIORITY);
    TurnGoesOn(a, x);
  }
}

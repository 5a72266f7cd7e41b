/** The first processes after boot: what they are, and runs they can be brought into. */
module FirstProcesses {
  import opened Basics
  import opened SchedulerSpec
  import opened SchedulerInvariant
  import opened SchedulerTheorems

  lemma CreateIs(s: Sched, priority: int, x: nat)
    requires Inv(s) && AssignPid(s.procs, 0) == Some(x)
    ensures var k, t := Level(priority), Create(s, priority);
            && Inv(t) && t.queues == s.queues[k := s.queues[k] + [x]] && t.running == s.running
            && x in t.procs && t.procs[x] == Proc(Ready, k, k, 0, DEFAULT_QUANTUM)
            && (forall y :: y in t.procs && y != x ==> y in s.procs && t.procs[y] == s.procs[y])
            && (forall y :: y in s.procs && s.procs[y].status != Terminated ==> y in t.procs)
  {
    CreateInv(s, priority);
  }

  /** The pids below `n` are taken, and no process has ended. */
  ghost predicate Living(s: Sched, n: nat) {
    && Inv(s) && (forall x: nat :: x in s.procs <==> x < n)
    && (forall x :: x in s.procs ==> s.procs[x].status != Terminated)
  }

  lemma NextPid(procs: map<nat, Proc>, n: nat)
    requires n < MAX_PROCESSES && forall x: nat :: x in procs <==> x < n
    requires forall x :: x in procs ==> procs[x].status != Terminated
    ensures AssignPid(procs, 0) == Some(n)
  {
    assert n !in procs;
  }

  lemma CreateLives(s: Sched, n: nat, priority: int)
    requires Living(s, n) && n < MAX_PROCESSES
    ensures AssignPid(s.procs, 0) == Some(n) && Living(Create(s, priority), n + 1)
  {
    NextPid(s.procs, n);
    CreateIs(s, priority, n);
  }

  lemma BootLives()
    ensures Living(Boot(), 1)
  {
  }

  lemma FirstCreate(priority: int)
    ensures AssignPid(Boot().procs, 0) == Some(1)
    ensures Living(Create(Boot(), priority), 2) && AssignPid(Create(Boot(), priority).procs, 0) == Some(2)
  {
    BootLives();
    CreateLives(Boot(), 1, priority);
    NextPid(Create(Boot(), priority).procs, 2);
  }

  lemma CreatedAbove(s: Sched, x: nat)
    requires Inv(s) && AssignPid(s.procs, 0) == Some(x)
    requires forall y :: y in s.procs ==> s.procs[y].waitTicks == 0 && s.procs[y].priority == 0
    ensures var t := Create(s, 1);
            && Inv(t) && Waiting(t, x) && t.procs[x].priority == 1
            && (forall y :: y in t.procs ==> !Due(t.procs[y]) && (y == x || t.procs[y].priority == 0))
  {
    CreateIs(s, 1, x);
  }

  /** Created above init, the second process is the first to run. */
  lemma SecondRuns() returns (t: Sched)
    ensures Inv(Create(Boot(), 0)) && t == Create(Create(Boot(), 0), 1)
    ensures Inv(t) && Inv(Tick(t)) && Dispatched(Tick(t), 2)
  {
    FirstCreate(0);
    CreateIs(Boot(), 0, 1);
    CreatedAbove(Create(Boot(), 0), 2);
    t := Create(Create(Boot(), 0), 1);
    LoneTop(t, 2);
  }

  /** Init, alone, is the first to run. */
  lemma InitRuns() returns (t: Sched)
    ensures t == Create(Boot(), 0) && Inv(t) && Inv(Tick(t)) && Dispatched(Tick(t), INIT)
  {
    FirstCreate(0);
    CreateIs(Boot(), 0, INIT);
    t := Create(Boot(), 0);
    LoneTop(t, INIT);
  }

  // ---- a process that is moved up and stays up

  /** Init has the top priority, and process 2 has been passed over `n` times. */
  ghost predicate PassedOver(s: Sched, n: nat) {
    && Inv(s) && s.procs.Keys == {IDLE, INIT, 2}
    && s.procs[INIT].priority == MAX_PRIORITY && (Waiting(s, INIT) || Dispatched(s, INIT))
    && Waiting(s, 2) && s.procs[2].priority == s.procs[2].original == 0 && s.procs[2].waitTicks == n
    && (0 < n ==> Dispatched(s, INIT))
  }

  /** Process 2 is alone in its queue. */
  lemma AloneThere(s: Sched, n: nat)
    requires PassedOver(s, n)
    ensures s.queues[0] != [] && s.queues[0][0] == 2
  {
    Queued(s, 2);
    HeadIsMember(s.queues[0]);
    assert Belongs(s.procs, 0, s.queues[0][0]);
  }

  lemma InitReady(s: Sched, n: nat)
    requires PassedOver(s, n)
    ensures var b := Deciding(s);
            && Inv(b) && Waiting(b, INIT) && b.procs[INIT].priority == MAX_PRIORITY
            && b.procs.Keys == s.procs.Keys && (forall y :: y in b.procs ==> b.procs[y].status != Running)
            && Waiting(b, 2) && b.procs[2] == Aged(s.procs[2])
  {
    AloneThere(s, n);
    var a := AgedAtFront(s, MAX_PRIORITY, 2);
    assert a.procs.Keys == s.procs.Keys && a.procs[INIT].priority == MAX_PRIORITY
           && a.procs[INIT].status == s.procs[INIT].status by {
      AgingKeys(s, MAX_PRIORITY);
      AgingOf(s, MAX_PRIORITY, INIT);
    }
    ReadyThen(a);
  }

  lemma ReadyThen(a: Sched)
    requires Inv(a) && Waiting(a, 2) && INIT in a.procs && (a.procs[INIT].status == Ready || a.procs[INIT].status == Running)
    ensures var b := Preempt(UseQuantum(a));
            && Inv(b) && Waiting(b, INIT) && b.procs[INIT].priority == a.procs[INIT].priority
            && b.procs.Keys == a.procs.Keys && (forall y :: y in b.procs ==> b.procs[y].status != Running)
            && Waiting(b, 2) && b.procs[2] == a.procs[2]
  {
    PreemptPatience(a, 2);
    PreemptionOf(a, INIT);
  }

  lemma PassedOnce(s: Sched, n: nat)
    requires PassedOver(s, n) && n + 1 < AGING_THRESHOLD
    ensures PassedOver(Tick(s), n + 1)
  {
    TickInv(s);
    InitReady(s, n);
    var b := Deciding(s);
    HighestRuns(b, INIT);
    DispatchLeaves(b, MAX_PRIORITY + 1, 2);
  }

  /** It runs at the top priority, and was never given another than the lowest. */
  predicate RunsAbove(s: Sched, x: nat) {
    Dispatched(s, x) && s.procs[x].priority == MAX_PRIORITY && s.procs[x].original == MIN_PRIORITY
  }

  /** After the last tick of waiting it is in the top queue before init is put there. */
  lemma MovedUp(s: Sched)
    requires PassedOver(s, AGING_THRESHOLD - 1)
    ensures Inv(Tick(s)) && RunsAbove(Tick(s), 2)
  {
    var n := AGING_THRESHOLD - 1;
    TickInv(s);
    InitReady(s, n);
    AloneThere(s, n);
    var b := Deciding(s);
    FrontOfTop(s, Aging(s), b);
    HeadInv(b, MAX_PRIORITY + 1);
  }

  lemma FrontOfTop(s: Sched, a: Sched, b: Sched)
    requires PassedOver(s, AGING_THRESHOLD - 1) && a == Aging(s) && b == Preempt(UseQuantum(a))
    ensures b.queues[MAX_PRIORITY] != [] && b.queues[MAX_PRIORITY][0] == 2
  {
    AloneThere(s, AGING_THRESHOLD - 1);
    var _ := AgedAtFront(s, MAX_PRIORITY, 2);
    AgingKeys(s, MAX_PRIORITY);
    AgingOf(s, MAX_PRIORITY, INIT);
    Queued(a, 2);
    var top := a.queues[MAX_PRIORITY];
    HeadIsMember(top);
    assert Belongs(a.procs, MAX_PRIORITY, top[0]);
    assert b.queues[MAX_PRIORITY] == top || b.queues[MAX_PRIORITY] == top + [INIT];
  }

  function TickTimes(n: nat): seq<Op> {
    if n == 0 then [] else [DoTick] + TickTimes(n - 1)
  }

  lemma NextTick(s: Sched, n: nat) returns (t: Sched)
    requires PassedOver(s, n) && n < AGING_THRESHOLD
    ensures t == Step(s, DoTick) && Inv(t)
    ensures if n + 1 < AGING_THRESHOLD then PassedOver(t, n + 1) else RunsAbove(t, 2)
  {
    TickInv(s);
    if n + 1 < AGING_THRESHOLD {
      PassedOnce(s, n);
    } else {
      MovedUp(s);
    }
    t := Tick(s);
  }

  lemma {:induction false} TicksMoveUp(s: Sched, n: nat, left: nat)
    requires PassedOver(s, n) && n + left == AGING_THRESHOLD && 0 < left
    ensures Legal(s, TickTimes(left)) && RunsAbove(Run(s, TickTimes(left)), 2)
    decreases left
  {
    var t := NextTick(s, n);
    if 1 < left {
      TicksMoveUp(t, n + 1, left - 1);
    }
    LegalCons(s, DoTick, TickTimes(left - 1));
  }

  /** Init at the top priority, a process below it, and as many ticks as it takes to be moved up. */
  function BoostRun(): seq<Op> {
    [DoCreate(MAX_PRIORITY)] + ([DoCreate(0)] + TickTimes(AGING_THRESHOLD))
  }

  lemma BelowInit() returns (s: Sched)
    ensures Inv(Create(Boot(), MAX_PRIORITY)) && s == Create(Create(Boot(), MAX_PRIORITY), 0) && PassedOver(s, 0)
  {
    FirstCreate(MAX_PRIORITY);
    CreateIs(Boot(), MAX_PRIORITY, INIT);
    SecondBelow(Create(Boot(), MAX_PRIORITY));
    s := Create(Create(Boot(), MAX_PRIORITY), 0);
  }

  lemma SecondBelow(t: Sched)
    requires Living(t, 2) && t.procs[INIT].priority == MAX_PRIORITY && t.procs[INIT].status == Ready
    ensures PassedOver(Create(t, 0), 0)
  {
    CreateLives(t, 2, 0);
    CreateIs(t, 0, 2);
    assert Create(t, 0).procs.Keys == {IDLE, INIT, 2};
  }

  /** It happens: in a run from boot a process runs at the top priority, which it was never given. */
  lemma BoostReached()
    ensures Legal(Boot(), BoostRun())
    ensures RunsAbove(Run(Boot(), BoostRun()), 2)
  {
    var s := BelowInit();
    TicksMoveUp(s, 0, AGING_THRESHOLD);
    LegalCons(Create(Boot(), MAX_PRIORITY), DoCreate(0), TickTimes(AGING_THRESHOLD));
    LegalCons(Boot(), DoCreate(MAX_PRIORITY), [DoCreate(0)] + TickTimes(AGING_THRESHOLD));
  }
}

/** Inputs on which the timer interrupt never returns: processes whose priority is changed while they stand in a queue. */
module AgingHangs {
  import opened Basics
  import opened SchedulerSpec
  import opened PidQueues
  import AE = AgingEnds
  import FP = FirstProcesses

  /** Process `x` is given another priority, and then blocked. */
  function Away(s: Sched, x: nat, priority: int): (t: Sched)
    requires WellFormed(s) && MIN_PRIORITY <= priority <= MAX_PRIORITY
    ensures WellFormed(t)
  {
    RemoveKeeps(s.queues[priority], x);
    Block(SetPriority(s, x, priority), x)
  }

  /** Process `x` is given back the lowest priority, and then woken. */
  function Back(s: Sched, x: nat): (t: Sched)
    requires WellFormed(s)
    ensures WellFormed(t)
  {
    Unblock(SetPriority(s, x, MIN_PRIORITY), x)
  }

  /** It stays in the queue it stood in. */
  lemma AwayIs(s: Sched, x: nat, priority: int)
    requires WellFormed(s) && MIN_PRIORITY <= priority <= MAX_PRIORITY && x in s.procs && x != IDLE && x != INIT
    requires s.procs[x].status == Ready && x !in s.queues[priority]
    ensures var t := Away(s, x, priority);
            && t.queues == s.queues && t.running == s.running
            && t.procs == s.procs[x := Proc(Blocked, priority, priority, 0, DEFAULT_QUANTUM)]
  {
  }

  /** A process alone in the lowest queue, given another priority and then blocked, hangs the next timer interrupt. */
  lemma MovedThenBlocked(s: Sched, x: nat, priority: int)
    requires Inv(s) && s.queues[0] == [x] && x != INIT && MIN_PRIORITY < priority <= MAX_PRIORITY
    ensures x in Away(s, x, priority).procs && Away(s, x, priority).procs[x].status == Blocked
    ensures !AgingEnds(Away(s, x, priority))
  {
    assert x in s.queues[0] && Belongs(s.procs, 0, x);
    assert x in s.queues[priority] <==> Belongs(s.procs, priority, x);
    AwayIs(s, x, priority);
    AE.TimerReturnsExactly(Away(s, x, priority));
    assert !AE.Open(Away(s, x, priority), 0);
  }

  /** Whenever no other process waits in the lowest queue this can happen to a new process. */
  lemma NewThenBlocked(s: Sched, x: nat, priority: int)
    requires Inv(s) && AssignPid(s.procs, 0) == Some(x) && x != INIT && s.queues[0] == []
    requires MIN_PRIORITY < priority <= MAX_PRIORITY
    ensures WellFormed(Create(s, 0)) && Requeues(Create(s, 0), x, priority)
    ensures !AgingEnds(Away(Create(s, 0), x, priority))
  {
    FP.CreateIs(s, 0, x);
    var t := Create(s, 0);
    assert t.queues[0] == [x] && x in t.queues[0] && Belongs(t.procs, 0, x);
    MovedThenBlocked(t, x, priority);
  }

  /** For instance in a run from boot: init is created at the top priority, and process 2 is the new one. */
  lemma TimerHangs(priority: int)
    requires MIN_PRIORITY < priority <= MAX_PRIORITY
    ensures var s := Create(Boot(), MAX_PRIORITY);
            && Inv(s) && AssignPid(s.procs, 0) == Some(2) && WellFormed(Create(s, 0))
            && !AgingEnds(Away(Create(s, 0), 2, priority))
  {
    var s := Create(Boot(), MAX_PRIORITY);
    FP.FirstCreate(MAX_PRIORITY);
    FP.CreateIs(Boot(), MAX_PRIORITY, 1);
    NewThenBlocked(s, 2, priority);
  }

  // ---- a first process that waits is not enough

  /** A queue whose first process stands in it twice, in front of others that do not wait, is left exactly when that
      process is due or has waited an odd number of ticks: its two places age it by two in each lap. */
  lemma TwoPlaces(s: Sched, k: nat, x: nat, y: nat, z: nat)
    requires WellFormed(s) && k < MAX_PRIORITY && s.queues[k] == [x, y, x, z]
    requires Runnable(s.procs, x) && !Runnable(s.procs, y) && !Runnable(s.procs, z)
    ensures x in s.procs && (Ends(s, k) <==> Due(s.procs[x]) || s.procs[x].waitTicks % 2 == 1)
  {
    assert multiset([x, y, x, z])[x] == 2;
    AE.PassEndsExactly(s, k);
  }

  /** `x` joins the lowest queue once more. */
  lemma InTwoPlaces(s: Sched, x: nat, y: nat, priority: int)
    requires Inv(s) && s.queues[0] == [x, y] && x != INIT && MIN_PRIORITY < priority <= MAX_PRIORITY
    ensures var b := Back(Away(s, x, priority), x);
            && b.queues == s.queues[0 := [x, y] + [x]] && b.running == s.running
            && x in s.procs && b.procs == s.procs[x := Proc(Ready, 0, 0, 0, DEFAULT_QUANTUM)]
  {
    assert x in s.queues[0] && Belongs(s.procs, 0, x);
    assert x in s.queues[priority] <==> Belongs(s.procs, priority, x);
    AwayIs(s, x, priority);
  }

  lemma SamePid(procs: map<nat, Proc>, after: map<nat, Proc>, z: nat)
    requires AssignPid(procs, 0) == Some(z) && after.Keys == procs.Keys
    requires forall x :: x in procs ==> procs[x].status != Terminated && after[x].status != Terminated
    ensures AssignPid(after, 0) == Some(z) && z !in procs
  {
    assert z !in after.Keys;
    assert forall j :: 0 <= j < z ==> j in procs.Keys;
    assert AssignPid(after, 0).Some? ==> AssignPid(after, 0).value !in after.Keys;
  }

  lemma CreatedLast(s: Sched, z: nat)
    requires WellFormed(s) && AssignPid(s.procs, 0) == Some(z)
    requires forall x :: x in s.procs ==> s.procs[x].status != Terminated
    ensures var c := Create(s, 0);
            && WellFormed(c) && c.queues == s.queues[0 := s.queues[0] + [z]] && c.running == s.running
            && c.procs == s.procs[z := Proc(Ready, 0, 0, 0, DEFAULT_QUANTUM)]
  {
    assert z != IDLE;
    assert Reap(Born(s, z, 0)).procs == s.procs[z := Proc(Ready, 0, 0, 0, DEFAULT_QUANTUM)];
  }

  /** Such a queue comes about. Blocked and woken between two changes of its priority, `x` stands in the lowest queue a
      second time; a new process comes after it, and this and `y` are then moved and blocked. */
  lemma FirstStandsTwice(s: Sched, x: nat, y: nat, z: nat, priority: int)
    requires Inv(s) && s.queues[0] == [x, y] && AssignPid(s.procs, 0) == Some(z)
    requires INIT !in {x, y, z} && MIN_PRIORITY < priority <= MAX_PRIORITY
    requires forall p :: p in s.procs ==> s.procs[p].status != Terminated
    ensures var b := Back(Away(s, x, priority), x);
            && AssignPid(b.procs, 0) == Some(z) && WellFormed(Create(b, 0))
            && var t := Away(Away(Create(b, 0), y, priority), z, priority);
               AE.FirstWaits(t, 0) && t.queues[0] == [x, y, x, z] && !AgingEnds(t)
  {
    InTwoPlaces(s, x, y, priority);
    var b := Back(Away(s, x, priority), x);
    SamePid(s.procs, b.procs, z);
    CreatedLast(b, z);
    OthersAway(s, Create(b, 0), x, y, z, priority);
  }

  lemma OthersAway(s: Sched, c: Sched, x: nat, y: nat, z: nat, priority: int)
    requires Inv(s) && s.queues[0] == [x, y] && z !in s.procs && z != IDLE
    requires INIT !in {x, y, z} && MIN_PRIORITY < priority <= MAX_PRIORITY
    requires var p := Proc(Ready, 0, 0, 0, DEFAULT_QUANTUM);
             WellFormed(c) && c.queues == s.queues[0 := [x, y] + [x] + [z]] && x in s.procs && c.procs == s.procs[x := p][z := p]
    ensures var t := Away(Away(c, y, priority), z, priority);
            AE.FirstWaits(t, 0) && t.queues[0] == [x, y, x, z] && !AgingEnds(t)
  {
    assert x in s.queues[0] && Belongs(s.procs, 0, x);
    assert y in s.queues[0] && Belongs(s.procs, 0, y);
    assert y in s.queues[priority] <==> Belongs(s.procs, priority, y);
    assert s.queues[0][0] != s.queues[0][1];
    AwayIs(c, y, priority);
    var d := Away(c, y, priority);
    AwayIs(d, z, priority);
    var t := Away(d, z, priority);
    TwoPlaces(t, 0, x, y, z);
    assert AgeBelow(t, 0) == t;
  }

  lemma ThreeCreated() returns (s: Sched)
    ensures Inv(Create(Boot(), MAX_PRIORITY)) && Inv(Create(Create(Boot(), MAX_PRIORITY), 0))
    ensures s == Create(Create(Create(Boot(), MAX_PRIORITY), 0), 0) && FP.Living(s, 4) && s.queues[0] == [2, 3]
  {
    FP.FirstCreate(MAX_PRIORITY);
    FP.CreateIs(Boot(), MAX_PRIORITY, 1);
    var a := Create(Boot(), MAX_PRIORITY);
    FP.CreateLives(a, 2, 0);
    FP.CreateIs(a, 0, 2);
    var b := Create(a, 0);
    FP.CreateLives(b, 3, 0);
    FP.CreateIs(b, 0, 3);
    s := Create(b, 0);
    assert s.queues[0] == [] + [2] + [3];
  }

  /** For instance in a run from boot: init at the top priority, and processes 2, 3 and 4. */
  lemma TimerHangsAgain(priority: int) returns (s: Sched)
    requires MIN_PRIORITY < priority <= MAX_PRIORITY
    ensures Inv(Create(Boot(), MAX_PRIORITY)) && Inv(Create(Create(Boot(), MAX_PRIORITY), 0))
    ensures s == Create(Create(Create(Boot(), MAX_PRIORITY), 0), 0) && WellFormed(s)
    ensures var b := Back(Away(s, 2, priority), 2);
            && WellFormed(Create(b, 0))
            && var t := Away(Away(Create(b, 0), 3, priority), 4, priority);
               AE.FirstWaits(t, 0) && t.queues[0] == [2, 3, 2, 4] && !AgingEnds(t)
  {
    s := ThreeCreated();
    FP.NextPid(s.procs, 4);
    FirstStandsTwice(s, 2, 3, 4, priority);
  }
}

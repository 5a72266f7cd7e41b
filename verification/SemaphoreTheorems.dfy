/** What semaphores guarantee in every run: units are conserved, granted in the order they were asked for, and
    never lost while their waiters live. */
module SemaphoreTheorems {
  import opened Basics
  import opened SchedulerSpec
  import opened PidQueues
  import opened SchedulerInvariant
  import opened SemaphoreSpec
  import ST = SchedulerTheorems
  import FP = FirstProcesses

  /** The history of one semaphore: its first value, how often it was posted, and which processes asked for a unit
      and were given one, in order. */
  datatype Log = Log(initial: nat, posts: nat, asked: seq<nat>, granted: seq<nat>)

  datatype World = World(k: Kernel, logs: map<string, Log>)

  ghost predicate SemInv(m: Sem, log: Log) {
    && m.users > 0
    && (m.value > 0 ==> m.blocked == [])
    && Distinct(m.blocked)
    && log.asked == log.granted + m.blocked
    && log.initial + log.posts == m.value + |log.granted|
  }

  predicate Stalled(s: Sched, x: nat) {
    x in s.procs && x != IDLE && x != INIT && s.procs[x].status == Blocked
  }

  ghost predicate Queued(sems: map<string, Sem>, x: nat) {
    exists name :: name in sems && x in sems[name].blocked
  }

  ghost predicate WInv(w: World) {
    && Inv(w.k.sched)
    && w.logs.Keys == w.k.sems.Keys
    && (forall name :: name in w.k.sems ==> SemInv(w.k.sems[name], w.logs[name]))
    && (forall name, x :: name in w.k.sems && x in w.k.sems[name].blocked ==> Stalled(w.k.sched, x))
    && Apart(w.k.sems)
  }

  ghost predicate Apart(sems: map<string, Sem>) {
    forall m, n, x :: m in sems && n in sems && x in sems[m].blocked && x in sems[n].blocked ==> m == n
  }

  datatype Op =
    | DoSched(op: SchedulerSpec.Op)
    | DoOpen(name: string, value: uint16)
    | DoClose(name: string)
    | DoWait(name: string)
    | DoPost(name: string)
    | DoWithdraw(name: string, x: nat)

  ghost function Step(w: World, op: Op): World
    requires WellFormed(w.k.sched) && w.logs.Keys == w.k.sems.Keys
  {
    match op
    case DoSched(o) => w.(k := w.k.(sched := SchedulerSpec.Step(w.k.sched, o)))
    case DoOpen(name, value) =>
      var k := Open(w.k, name, value);
      World(k, if name in k.sems && name !in w.logs then w.logs[name := Log(value, 0, [], [])] else w.logs)
    case DoClose(name) =>
      var k := Close(w.k, name);
      World(k, map n | n in w.logs && n in k.sems :: w.logs[n])
    case DoWait(name) =>
      if name !in w.logs || w.k.sched.running.None? || !Executing(w.k.sched, w.k.sched.running.value) then w
      else
        var x, log := w.k.sched.running.value, w.logs[name];
        World(Wait(w.k, name, x),
              w.logs[name := log.(asked := log.asked + [x],
                                  granted := if w.k.sems[name].value > 0 then log.granted + [x] else log.granted)])
    case DoPost(name) =>
      if name !in w.logs then w
      else
        var m, log := w.k.sems[name], w.logs[name];
        World(Post(w.k, name),
              w.logs[name := log.(posts := log.posts + 1,
                                  granted := if m.blocked != [] then log.granted + [m.blocked[0]] else log.granted)])
    case DoWithdraw(name, x) =>
      if name !in w.logs then w
      else
        var k, log := Withdraw(w.k, name, x), w.logs[name];
        World(k, w.logs[name := log.(asked := log.granted + k.sems[name].blocked)])
  }

  /** What may be done without breaking the guarantees: a waiting process is not killed or woken behind the back of
      its semaphore, init does not wait, and a value does not overflow its 16 bits. */
  ghost predicate Allowed(w: World, op: Op)
    requires w.logs.Keys == w.k.sems.Keys
  {
    match op
    case DoSched(o) =>
      && SchedulerSpec.Allowed(w.k.sched, o)
      && (o.DoKill? ==> !Queued(w.k.sems, o.x))
      && (o.DoUnblock? ==> !Queued(w.k.sems, o.x))
    case DoWait(name) =>
      name in w.logs && w.k.sems[name].value == 0 ==> !Executing(w.k.sched, INIT) && !Executing(w.k.sched, IDLE)
    case DoPost(name) => name in w.logs && w.k.sems[name].blocked == [] ==> w.k.sems[name].value + 1 < VALUE_LIMIT
    case _ => true
  }

  // ---- a blocked process stays blocked until it is woken

  lemma AgingSpares(s: Sched, n: nat, x: nat)
    requires Inv(s) && n <= MAX_PRIORITY && x in s.procs && s.procs[x].status != Ready
    ensures x in AgeBelow(s, n).procs && AgeBelow(s, n).procs[x] == s.procs[x]
  {
    if n != 0 {
      AgingInv(s, n - 1);
      AgingSpares(s, n - 1, x);
      var a := AgeBelow(s, n - 1);
      AgeQueueInv(a, n - 1);
      assert x in a.queues[n - 1] <==> Belongs(a.procs, n - 1, x);
    }
  }

  lemma {:induction false} DispatchSpares(s: Sched, n: nat, x: nat)
    requires |s.queues| == MAX_PRIORITY + 1 && IDLE in s.procs && n <= MAX_PRIORITY + 1
    requires x in s.procs && s.procs[x].status == Blocked && x != IDLE
    ensures x in Dispatch(s, n).procs && Dispatch(s, n).procs[x] == s.procs[x]
    decreases n
  {
    if n != 0 {
      var i := FirstRunnable(s.procs, s.queues[n - 1]);
      if i == |s.queues[n - 1]| {
        DispatchSpares(s.(queues := s.queues[n - 1 := []]), n - 1, x);
      }
    }
  }

  lemma PreemptSpares(s: Sched, x: nat)
    requires WellFormed(s) && x in s.procs && s.procs[x].status == Blocked
    ensures x in Preempt(UseQuantum(s)).procs && Preempt(UseQuantum(s)).procs[x] == s.procs[x]
  {
  }

  lemma TickSpares(s: Sched, x: nat)
    requires Inv(s) && Stalled(s, x)
    ensures Stalled(Tick(s), x)
  {
    AgingInv(s, MAX_PRIORITY);
    AgingSpares(s, MAX_PRIORITY, x);
    TickInv(s);
    PreemptSpares(Aging(s), x);
    DispatchSpares(Preempt(UseQuantum(Aging(s))), MAX_PRIORITY + 1, x);
  }

  lemma CreateSpares(s: Sched, priority: int, x: nat)
    requires Inv(s) && Stalled(s, x)
    ensures Stalled(Create(s, priority), x)
  {
    var r := AssignPid(s.procs, 0);
    assert r != Some(x);
  }

  lemma StaysStalled(s: Sched, op: SchedulerSpec.Op, x: nat)
    requires Inv(s) && SchedulerSpec.Allowed(s, op) && Stalled(s, x)
    requires op != DoKill(x) && op != DoUnblock(x)
    ensures Stalled(SchedulerSpec.Step(s, op), x)
  {
    match op
    case DoTick => TickSpares(s, x);
    case DoCreate(priority) => CreateSpares(s, priority, x);
    case _ =>
  }

  lemma BlockStalls(s: Sched, x: nat)
    requires Inv(s) && Executing(s, x) && x != IDLE && x != INIT
    ensures Inv(Block(s, x)) && Stalled(Block(s, x), x)
    ensures forall y :: Stalled(s, y) ==> Stalled(Block(s, x), y)
  {
    BlockInv(s, x);
  }

  lemma UnblockWakes(s: Sched, x: nat)
    requires Inv(s) && Stalled(s, x)
    ensures Inv(Unblock(s, x)) && ST.Waiting(Unblock(s, x), x)
    ensures forall y :: Stalled(s, y) && y != x ==> Stalled(Unblock(s, x), y)
  {
    UnblockInv(s, x);
  }

  // ---- every step keeps the invariant exactly when it is allowed

  lemma SchedStep(w: World, o: SchedulerSpec.Op)
    requires WInv(w)
    ensures WInv(Step(w, DoSched(o))) <==> Allowed(w, DoSched(o))
  {
    var t := Step(w, DoSched(o));
    if !SchedulerSpec.Allowed(w.k.sched, o) {
      SetPriorityInv(w.k.sched, o.x, o.newPriority);
    } else if (o.DoKill? || o.DoUnblock?) && Queued(w.k.sems, o.x) {
      var name :| name in w.k.sems && o.x in w.k.sems[name].blocked;
      assert name in t.k.sems && o.x in t.k.sems[name].blocked;
      assert Stalled(w.k.sched, o.x) && !Stalled(t.k.sched, o.x);
    } else {
      StepInv(w.k.sched, o);
      forall name, x | name in w.k.sems && x in w.k.sems[name].blocked ensures Stalled(t.k.sched, x) {
        assert Queued(w.k.sems, x);
        StaysStalled(w.k.sched, o, x);
      }
    }
  }

  lemma OpenStep(w: World, name: string, value: uint16)
    requires WInv(w)
    ensures WInv(Step(w, DoOpen(name, value)))
  {
    if |name| < MAX_SEM_LENGTH && name !in w.k.sems {
      OpenNew(w, name, value);
    }
  }

  lemma OpenNew(w: World, name: string, value: uint16)
    requires WInv(w) && |name| < MAX_SEM_LENGTH && name !in w.k.sems
    ensures WInv(Step(w, DoOpen(name, value)))
  {
    var t := Step(w, DoOpen(name, value));
    assert t.k.sems == w.k.sems[name := Sem(value, 1, [])];
    assert SemInv(Sem(value, 1, []), Log(value, 0, [], []));
  }

  lemma CloseStep(w: World, name: string)
    requires WInv(w)
    ensures WInv(Step(w, DoClose(name)))
  {
  }

  lemma WaitStep(w: World, name: string)
    requires WInv(w)
    ensures WInv(Step(w, DoWait(name))) <==> Allowed(w, DoWait(name))
  {
    var t, s := Step(w, DoWait(name)), w.k.sched;
    if name in w.logs && s.running.Some? && Executing(s, s.running.value) {
      var x, m, log := s.running.value, w.k.sems[name], w.logs[name];
      if m.value == 0 {
        WaitBlocks(w, name);
      } else {
        assert log.granted + [x] + [] == log.granted + [x];
      }
    }
  }

  lemma WaitBlocks(w: World, name: string)
    requires WInv(w) && name in w.k.sems && w.k.sems[name].value == 0
    requires w.k.sched.running.Some? && Executing(w.k.sched, w.k.sched.running.value)
    ensures WInv(Step(w, DoWait(name))) <==> Allowed(w, DoWait(name))
  {
    var x := w.k.sched.running.value;
    if x == IDLE || x == INIT {
      WaitUnblocked(w, name, x);
    } else {
      WaitQueues(w, name, x);
    }
  }

  /** A process that cannot be blocked is queued while it goes on. */
  lemma WaitUnblocked(w: World, name: string, x: nat)
    requires WInv(w) && name in w.k.sems && w.k.sems[name].value == 0 && (x == IDLE || x == INIT)
    requires Executing(w.k.sched, x)
    ensures var t := Step(w, DoWait(name));
            !WInv(t) && t.k.sched == w.k.sched && name in t.k.sems && x in t.k.sems[name].blocked
  {
    var t, m := Step(w, DoWait(name)), w.k.sems[name];
    assert t.k.sems[name].blocked == m.blocked + [x];
    assert x in t.k.sems[name].blocked && !Stalled(t.k.sched, x);
  }

  lemma WaitQueues(w: World, name: string, x: nat)
    requires WInv(w) && name in w.k.sems && w.k.sems[name].value == 0 && x != IDLE && x != INIT
    requires Executing(w.k.sched, x)
    ensures WInv(Step(w, DoWait(name)))
  {
    var t, s, m := Step(w, DoWait(name)), w.k.sched, w.k.sems[name];
    assert !Stalled(s, x);
    assert t.k.sems[name].blocked == m.blocked + [x];
    BlockStalls(s, x);
    AppendDistinct(m.blocked, [x]);
    assert w.logs[name].asked + [x] == w.logs[name].granted + (m.blocked + [x]);
    forall n, y | n in t.k.sems && y in t.k.sems[n].blocked ensures Stalled(t.k.sched, y) {
      assert y == x || (n in w.k.sems && y in w.k.sems[n].blocked && Stalled(s, y));
    }
  }

  lemma PostStep(w: World, name: string)
    requires WInv(w)
    ensures WInv(Step(w, DoPost(name))) <==> Allowed(w, DoPost(name))
  {
    if name in w.logs {
      if w.k.sems[name].blocked != [] {
        PostWakes(w, name);
      } else {
        PostStores(w, name);
      }
    }
  }

  /** The value of a semaphore has 16 bits. */
  lemma PostCounts(w: World, name: string)
    requires WInv(w) && name in w.k.sems && w.k.sems[name].blocked == []
    ensures var v, t := w.k.sems[name].value, Step(w, DoPost(name)).k;
            && t.sched == w.k.sched && t.sems == w.k.sems[name := t.sems[name]] && t.sems[name].blocked == []
            && t.sems[name].users == w.k.sems[name].users && t.sems[name].value == if v == 65535 then 0 else v + 1
  {
  }

  lemma PostStores(w: World, name: string)
    requires WInv(w) && name in w.k.sems && w.k.sems[name].blocked == []
    ensures WInv(Step(w, DoPost(name))) <==> w.k.sems[name].value + 1 < VALUE_LIMIT
  {
    var t, m, log := Step(w, DoPost(name)), w.k.sems[name], w.logs[name];
    assert SemInv(m, log);
    assert SemInv(t.k.sems[name], t.logs[name]) <==> m.value + 1 < VALUE_LIMIT;
  }

  lemma PostWakes(w: World, name: string)
    requires WInv(w) && name in w.k.sems && w.k.sems[name].blocked != []
    ensures var x, t := w.k.sems[name].blocked[0], Step(w, DoPost(name));
            WInv(t) && ST.Waiting(t.k.sched, x) && !Queued(t.k.sems, x)
  {
    var t, m, log := Step(w, DoPost(name)), w.k.sems[name], w.logs[name];
    var x := m.blocked[0];
    assert x in m.blocked && Stalled(w.k.sched, x);
    UnblockWakes(w.k.sched, x);
    SliceDistinct(m.blocked, 1);
    assert m.blocked[..1] == [x];
    assert log.granted + [x] + m.blocked[1..] == log.granted + m.blocked;
    forall n, y | n in t.k.sems && y in t.k.sems[n].blocked
      ensures y != x && Stalled(t.k.sched, y)
    {
      assert y in w.k.sems[n].blocked && Stalled(w.k.sched, y);
    }
  }

  lemma WithdrawStep(w: World, name: string, x: nat)
    requires WInv(w)
    ensures WInv(Step(w, DoWithdraw(name, x)))
  {
    if name in w.logs {
      RemoveEffect(w.k.sems[name].blocked, x);
    }
  }

  /** No operation breaks the guarantees unless it is one of the forbidden ones, and each of those does. */
  lemma StepKeeps(w: World, op: Op)
    requires WInv(w)
    ensures WInv(Step(w, op)) <==> Allowed(w, op)
  {
    match op
    case DoSched(o) => SchedStep(w, o);
    case DoOpen(name, value) => OpenStep(w, name, value);
    case DoClose(name) => CloseStep(w, name);
    case DoWait(name) => WaitStep(w, name);
    case DoPost(name) => PostStep(w, name);
    case DoWithdraw(name, x) => WithdrawStep(w, name, x);
  }

  // ---- whole runs

  ghost predicate Legal(w: World, ops: seq<Op>)
    requires WInv(w)
    decreases |ops|
  {
    ops == [] || (Allowed(w, ops[0]) && (StepKeeps(w, ops[0]); Legal(Step(w, ops[0]), ops[1..])))
  }

  ghost function Run(w: World, ops: seq<Op>): (t: World)
    requires WInv(w) && Legal(w, ops)
    ensures WInv(t)
    decreases |ops|
  {
    if ops == [] then w
    else
      StepKeeps(w, ops[0]);
      Run(Step(w, ops[0]), ops[1..])
  }

  lemma RunCons(w: World, op: Op, ops: seq<Op>)
    requires WInv(w) && Allowed(w, op) && WInv(Step(w, op)) && Legal(Step(w, op), ops)
    ensures Legal(w, [op] + ops) && Run(w, [op] + ops) == Run(Step(w, op), ops)
  {
    assert ([op] + ops)[1..] == ops;
  }

  function Start(): (w: World)
    ensures WInv(w)
  {
    World(SemaphoreSpec.Kernel(Boot(), map[]), map[])
  }

  /** In every run: units are conserved, a unit is left over only when nobody waits for it, every waiting process is
      a live blocked one that waits once and in one place, and units are granted in the order they were asked for. */
  lemma Conservation(ops: seq<Op>, name: string)
    requires Legal(Start(), ops)
    requires name in Run(Start(), ops).k.sems
    ensures var w := Run(Start(), ops);
            var m, log := w.k.sems[name], w.logs[name];
            && log.initial + log.posts == m.value + |log.granted|
            && (m.value > 0 ==> m.blocked == [])
            && log.granted <= log.asked
            && (forall x :: x in m.blocked ==>
                  && x in w.k.sched.procs && w.k.sched.procs[x].status == Blocked
                  && multiset(m.blocked)[x] == 1
                  && forall other :: other in w.k.sems && other != name ==> x !in w.k.sems[other].blocked)
  {
    var w := Run(Start(), ops);
    var m, log := w.k.sems[name], w.logs[name];
    assert log.granted <= log.granted + m.blocked;
    forall x | x in m.blocked ensures Stalled(w.k.sched, x) && multiset(m.blocked)[x] == 1 {
      ST.CountDistinct(m.blocked, x);
    }
  }

  /** Closing undoes opening, whether the semaphore was there before or not. */
  lemma CloseUndoesOpen(w: World, name: string, value: uint16)
    requires WInv(w) && |name| < MAX_SEM_LENGTH
    ensures Close(Open(w.k, name, value), name) == w.k
  {
    assert Close(Open(w.k, name, value), name).sems == w.k.sems;
  }

  /** A post with processes waiting makes the first of them ready and keeps no unit for a later one to take. */
  lemma HandOff(w: World, name: string)
    requires WInv(w) && name in w.k.sems && w.k.sems[name].blocked != []
    ensures var x, t := w.k.sems[name].blocked[0], Step(w, DoPost(name));
            && WInv(t) && t.k.sems[name].value == 0
            && ST.Waiting(t.k.sched, x) && !Queued(t.k.sems, x)
            && t.logs[name].granted == w.logs[name].granted + [x]
  {
    PostWakes(w, name);
  }

  /** Nothing the system does apart from scheduler calls delays a waiting process, unless it is aimed at it. */
  lemma StepPatience(w: World, op: Op, x: nat)
    requires WInv(w) && Allowed(w, op) && ST.Waiting(w.k.sched, x) && !Targets(op, x) && op != DoSched(DoTick)
    ensures var t := Step(w, op);
            WInv(t) && ST.Waiting(t.k.sched, x) && ST.Patience(t.k.sched, x) <= ST.Patience(w.k.sched, x)
  {
    StepKeeps(w, op);
    match op
    case DoSched(o) => ST.OtherPatience(w.k.sched, o, x);
    case DoWait(name) =>
      if w.k.sched.running.Some? && Executing(w.k.sched, w.k.sched.running.value) {
        ST.OtherPatience(w.k.sched, DoBlock(w.k.sched.running.value), x);
      }
    case DoPost(name) =>
      if name in w.logs && w.k.sems[name].blocked != [] {
        ST.OtherPatience(w.k.sched, DoUnblock(w.k.sems[name].blocked[0]), x);
      }
    case _ =>
  }

  predicate Targets(op: Op, x: nat) {
    op.DoSched? && ST.Targets(op.op, x)
  }

  function Ticks(ops: seq<Op>): nat {
    if ops == [] then 0 else (if ops[0] == DoSched(DoTick) then 1 else 0) + Ticks(ops[1..])
  }

  ghost predicate EverDispatched(w: World, ops: seq<Op>, x: nat)
    requires WInv(w) && Legal(w, ops)
    decreases |ops|
  {
    || ST.Dispatched(w.k.sched, x)
    || (ops != [] && (StepKeeps(w, ops[0]); EverDispatched(Step(w, ops[0]), ops[1..], x)))
  }

  lemma {:induction false} PatienceRunsOut(w: World, ops: seq<Op>, x: nat)
    requires WInv(w) && Legal(w, ops) && ST.Waiting(w.k.sched, x) && ST.Patience(w.k.sched, x) < Ticks(ops)
    requires forall op :: op in ops ==> !Targets(op, x)
    ensures EverDispatched(w, ops, x)
    decreases |ops|
  {
    StepKeeps(w, ops[0]);
    var t := Step(w, ops[0]);
    if ops[0] == DoSched(DoTick) {
      ST.TickPatience(w.k.sched, x);
    } else {
      StepPatience(w, ops[0], x);
    }
    if !ST.Dispatched(t.k.sched, x) {
      PatienceRunsOut(t, ops[1..], x);
    }
  }

  /** The process a unit is handed to runs within the scheduler's bound, whatever else goes on: waits, posts, opening
      and closing included. */
  lemma GrantedRuns(w: World, name: string, ops: seq<Op>)
    requires WInv(w) && name in w.k.sems && w.k.sems[name].blocked != [] && Legal(w, [DoPost(name)] + ops)
    requires forall op :: op in ops ==> !Targets(op, w.k.sems[name].blocked[0])
    requires Ticks(ops) >= AGING_THRESHOLD + 2 * MAX_PROCESSES
    ensures !ST.Dispatched(w.k.sched, w.k.sems[name].blocked[0])
    ensures EverDispatched(w, [DoPost(name)] + ops, w.k.sems[name].blocked[0])
  {
    var x := w.k.sems[name].blocked[0];
    HandOff(w, name);
    assert ([DoPost(name)] + ops)[1..] == ops;
    assert x in w.k.sems[name].blocked;
    ST.PatienceBound(Step(w, DoPost(name)).k.sched, x);
    PatienceRunsOut(Step(w, DoPost(name)), ops, x);
  }

  /** A waiting process that is killed takes a unit with it: the post that reaches it is granted to nobody. */
  lemma KilledWaiterLosesPost(w: World, name: string)
    requires WInv(w) && name in w.k.sems && w.k.sems[name].blocked != []
    ensures var x := w.k.sems[name].blocked[0];
            var t := Kill(w.k.sched, x);
            && WellFormed(t)
            && Post(w.k.(sched := t), name) ==
               SemaphoreSpec.Kernel(t, w.k.sems[name := w.k.sems[name].(blocked := w.k.sems[name].blocked[1..])])
  {
    KillInv(w.k.sched, w.k.sems[name].blocked[0]);
    assert w.k.sems[name].blocked[0] in w.k.sems[name].blocked;
  }

  /** A run with one process waiting: the second process finds the semaphore empty. */
  function WaiterRun(name: string): seq<Op> {
    [DoOpen(name, 0)] + ([DoSched(DoCreate(0))] + ([DoSched(DoCreate(1))] + [DoSched(DoTick), DoWait(name)]))
  }

  /** It happens: in a run from the start a process waits, is killed, and a post is lost on it. */
  lemma PostIsLost(name: string)
    requires |name| < MAX_SEM_LENGTH
    ensures Legal(Start(), WaiterRun(name))
    ensures var k := Run(Start(), WaiterRun(name)).k;
            && name in k.sems && k.sems[name] == Sem(0, 1, [2])
            && WellFormed(Kill(k.sched, 2))
            && Post(k.(sched := Kill(k.sched, 2)), name).sems[name] == Sem(0, 1, [])
  {
    WaiterRunIs(name);
    KilledWaiterLosesPost(Run(Start(), WaiterRun(name)), name);
  }

  /** The last two operations, from a state in which process 2 is the next to run. */
  lemma TickAndWait(w: World, name: string)
    requires WInv(w) && name in w.k.sems && w.k.sems[name] == Sem(0, 1, [])
    requires Inv(Tick(w.k.sched)) && ST.Dispatched(Tick(w.k.sched), 2)
    ensures Legal(w, [DoSched(DoTick), DoWait(name)])
    ensures var k := Run(w, [DoSched(DoTick), DoWait(name)]).k; name in k.sems && k.sems[name] == Sem(0, 1, [2])
  {
    var t := Step(w, DoSched(DoTick));
    StepKeeps(w, DoSched(DoTick));
    StepKeeps(t, DoWait(name));
    RunCons(t, DoWait(name), []);
    RunCons(w, DoSched(DoTick), [DoWait(name)]);
    assert [DoWait(name)] + [] == [DoWait(name)] && [DoSched(DoTick)] + [DoWait(name)] == [DoSched(DoTick), DoWait(name)];
  }

  lemma TwoCreates(w: World, rest: seq<Op>) returns (t: World)
    requires WInv(w) && w.k.sched == Boot()
    ensures WInv(t) && t.k.sems == w.k.sems && Inv(Tick(t.k.sched)) && ST.Dispatched(Tick(t.k.sched), 2)
    ensures Legal(t, rest) ==>
              var ops := [DoSched(DoCreate(0))] + ([DoSched(DoCreate(1))] + rest);
              Legal(w, ops) && Run(w, ops) == Run(t, rest)
  {
    StepKeeps(w, DoSched(DoCreate(0)));
    var a := Step(w, DoSched(DoCreate(0)));
    StepKeeps(a, DoSched(DoCreate(1)));
    t := Step(a, DoSched(DoCreate(1)));
    var s := FP.SecondRuns();
    assert t.k.sched == s;
    if Legal(t, rest) {
      RunCons(a, DoSched(DoCreate(1)), rest);
      RunCons(w, DoSched(DoCreate(0)), [DoSched(DoCreate(1))] + rest);
    }
  }

  lemma FirstOpen(name: string, rest: seq<Op>) returns (t: World)
    requires |name| < MAX_SEM_LENGTH
    ensures WInv(t) && t.k.sched == Boot() && name in t.k.sems && t.k.sems[name] == Sem(0, 1, [])
    ensures Legal(t, rest) ==>
              Legal(Start(), [DoOpen(name, 0)] + rest) && Run(Start(), [DoOpen(name, 0)] + rest) == Run(t, rest)
  {
    StepKeeps(Start(), DoOpen(name, 0));
    t := Step(Start(), DoOpen(name, 0));
    if Legal(t, rest) {
      RunCons(Start(), DoOpen(name, 0), rest);
    }
  }

  lemma WaiterRunIs(name: string)
    requires |name| < MAX_SEM_LENGTH
    ensures Legal(Start(), WaiterRun(name))
    ensures var k := Run(Start(), WaiterRun(name)).k; name in k.sems && k.sems[name] == Sem(0, 1, [2])
  {
    var rest := [DoSched(DoTick), DoWait(name)];
    var creates := [DoSched(DoCreate(0))] + ([DoSched(DoCreate(1))] + rest);
    var w := FirstOpen(name, creates);
    var t := TwoCreates(w, rest);
    TickAndWait(t, name);
  }

  // ---- init does not wait

  function InitRun(name: string): seq<Op> {
    [DoOpen(name, 0)] + ([DoSched(DoCreate(0))] + [DoSched(DoTick)])
  }

  lemma CreateAndTick(w: World) returns (t: World)
    requires WInv(w) && w.k.sched == Boot()
    ensures Legal(w, [DoSched(DoCreate(0))] + [DoSched(DoTick)])
    ensures t == Run(w, [DoSched(DoCreate(0))] + [DoSched(DoTick)])
    ensures WInv(t) && t.k.sems == w.k.sems && ST.Dispatched(t.k.sched, INIT)
  {
    var s := FP.InitRuns();
    StepKeeps(w, DoSched(DoCreate(0)));
    var a := Step(w, DoSched(DoCreate(0)));
    assert a.k.sched == s;
    t := OneTick(a);
    RunCons(w, DoSched(DoCreate(0)), [DoSched(DoTick)]);
  }

  lemma OneTick(w: World) returns (t: World)
    requires WInv(w)
    ensures t == Step(w, DoSched(DoTick)) && WInv(t)
    ensures Legal(w, [DoSched(DoTick)]) && Run(w, [DoSched(DoTick)]) == t
  {
    StepKeeps(w, DoSched(DoTick));
    t := Step(w, DoSched(DoTick));
    RunCons(w, DoSched(DoTick), []);
    assert [DoSched(DoTick)] + [] == [DoSched(DoTick)];
  }

  /** It happens: in a run from the start init waits on an empty semaphore, is queued there, and executes all the same. */
  lemma InitPasses(name: string)
    requires |name| < MAX_SEM_LENGTH
    ensures Legal(Start(), InitRun(name))
    ensures var w := Run(Start(), InitRun(name));
            && name in w.k.sems && w.k.sems[name].value == 0 && Executing(w.k.sched, INIT)
            && var t := Step(w, DoWait(name));
               !WInv(t) && Executing(t.k.sched, INIT) && name in t.k.sems && INIT in t.k.sems[name].blocked
  {
    var w := FirstOpen(name, [DoSched(DoCreate(0))] + [DoSched(DoTick)]);
    var t := CreateAndTick(w);
    WaitUnblocked(t, name, INIT);
  }

  // ---- closing a semaphore in which processes wait

  /** Blocked, and in no semaphore any more. */
  ghost predicate Stranded(w: World, x: nat) {
    Stalled(w.k.sched, x) && !Queued(w.k.sems, x)
  }

  /** A close strands exactly the processes that wait in a semaphore with one user left. */
  lemma CloseStrands(w: World, name: string, x: nat)
    requires WInv(w)
    ensures Stranded(Step(w, DoClose(name)), x) <==>
              Stranded(w, x) || (name in w.k.sems && w.k.sems[name].users == 1 && x in w.k.sems[name].blocked)
  {
    var t := Step(w, DoClose(name));
    if Queued(w.k.sems, x) {
      var n :| n in w.k.sems && x in w.k.sems[n].blocked;
      assert n in t.k.sems ==> x in t.k.sems[n].blocked;
      assert n !in t.k.sems ==> n == name && forall m :: m in t.k.sems ==> x !in t.k.sems[m].blocked;
    }
  }

  lemma WaitStrands(w: World, name: string, x: nat)
    requires WInv(w) && Allowed(w, DoWait(name)) && Stranded(w, x)
    ensures Stranded(Step(w, DoWait(name)), x)
  {
    var t, s := Step(w, DoWait(name)), w.k.sched;
    if t != w && w.k.sems[name].value == 0 {
      BlockStalls(s, s.running.value);
    }
  }

  lemma PostStrands(w: World, name: string, x: nat)
    requires WInv(w) && Stranded(w, x)
    ensures Stranded(Step(w, DoPost(name)), x)
  {
    if name in w.logs && w.k.sems[name].blocked != [] {
      var y := w.k.sems[name].blocked[0];
      assert y in w.k.sems[name].blocked;
      UnblockWakes(w.k.sched, y);
    }
  }

  lemma WithdrawStrands(w: World, name: string, y: nat, x: nat)
    requires WInv(w) && Stranded(w, x)
    ensures Stranded(Step(w, DoWithdraw(name, y)), x)
  {
  }

  lemma OpenStrands(w: World, name: string, value: uint16, x: nat)
    requires WInv(w) && Stranded(w, x)
    ensures Stranded(Step(w, DoOpen(name, value)), x)
  {
  }

  lemma StaysStranded(w: World, op: Op, x: nat)
    requires WInv(w) && Allowed(w, op) && Stranded(w, x) && !Frees(op, x)
    ensures WInv(Step(w, op)) && Stranded(Step(w, op), x)
  {
    StepKeeps(w, op);
    match op
    case DoSched(o) => StaysStalled(w.k.sched, o, x);
    case DoOpen(name, value) => OpenStrands(w, name, value, x);
    case DoClose(name) => CloseStrands(w, name, x);
    case DoWait(name) => WaitStrands(w, name, x);
    case DoPost(name) => PostStrands(w, name, x);
    case DoWithdraw(name, y) => WithdrawStrands(w, name, y, x);
  }

  /** Only a system call that names it can help a stranded process. */
  predicate Frees(op: Op, x: nat) {
    op == DoSched(DoKill(x)) || op == DoSched(DoUnblock(x))
  }

  lemma {:induction false} StrandedForever(w: World, ops: seq<Op>, x: nat)
    requires WInv(w) && Legal(w, ops) && Stranded(w, x) && forall op :: op in ops ==> !Frees(op, x)
    ensures Stranded(Run(w, ops), x)
    decreases |ops|
  {
    if ops != [] {
      StaysStranded(w, ops[0], x);
      StrandedForever(Step(w, ops[0]), ops[1..], x);
    }
  }

  /** It happens: in a run from the start the last user closes a semaphore under the process that waits in it. */
  lemma WaiterStranded(name: string)
    requires |name| < MAX_SEM_LENGTH
    ensures Legal(Start(), WaiterRun(name))
    ensures var w := Run(Start(), WaiterRun(name)); Allowed(w, DoClose(name)) && Stranded(Step(w, DoClose(name)), 2)
  {
    WaiterRunIs(name);
    CloseStrands(Run(Start(), WaiterRun(name)), name, 2);
  }
}

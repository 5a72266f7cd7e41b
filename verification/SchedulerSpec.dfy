/** The scheduler as a state machine over processes named by pid and four first-in first-out ready queues. */
module SchedulerSpec {
  import opened Basics
  import QS = QueueSpec

  const MIN_PRIORITY := 0
  const MAX_PRIORITY := 3
  const DEFAULT_PRIORITY := 0
  const AGING_THRESHOLD := 50
  const DEFAULT_QUANTUM := 1
  const MAX_PROCESSES := 64
  const IDLE := 0
  const INIT := 1

  datatype Status = Ready | Running | Blocked | Terminated

  /** `original` is the priority the process was last given; `priority` is the one it is scheduled with. */
  datatype Proc = Proc(status: Status, priority: nat, original: nat, waitTicks: nat, quantum: int)

  datatype Sched = Sched(procs: map<nat, Proc>, queues: seq<seq<nat>>, running: Option<nat>)

  // ---- what every reachable state satisfies

  /** Queue `k` is where process `x` has to be. */
  predicate Belongs(procs: map<nat, Proc>, k: nat, x: nat) {
    x in procs && x != IDLE && procs[x].status == Ready && procs[x].priority == k
  }

  ghost predicate Distinct(items: seq<nat>) {
    forall i, j :: 0 <= i < j < |items| ==> items[i] != items[j]
  }

  ghost predicate Inv(s: Sched) {
    && WellFormed(s)
    && (forall x :: x in s.procs ==> Sane(x, s.procs[x]))
    && (forall k, x :: 0 <= k <= MAX_PRIORITY ==> (x in s.queues[k] <==> Belongs(s.procs, k, x)))
    && (forall k :: 0 <= k <= MAX_PRIORITY ==> Distinct(s.queues[k]))
    && (forall x :: x in s.procs && s.procs[x].status == Running ==> s.running == Some(x))
    && (s.running.Some? ==> s.procs[s.running.value].status != Terminated)
  }

  /** There are four queues of known processes, a queue for every priority in use, and an idle process. */
  ghost predicate WellFormed(s: Sched) {
    && |s.queues| == MAX_PRIORITY + 1
    && IDLE in s.procs
    && (s.running.Some? ==> s.running.value in s.procs)
    && (forall x :: x in s.procs ==> s.procs[x].priority <= MAX_PRIORITY)
    && (forall k, x :: 0 <= k <= MAX_PRIORITY && x in s.queues[k] ==> x in s.procs)
  }

  predicate Sane(x: nat, p: Proc) {
    && x < MAX_PROCESSES && p.priority <= MAX_PRIORITY && p.waitTicks < AGING_THRESHOLD && p.quantum <= DEFAULT_QUANTUM
    && (p.priority == p.original || p.priority == MAX_PRIORITY)
    && (x == IDLE ==> p.status == Ready || p.status == Running)
  }

  function Compare(a: nat, b: nat): int {
    a - b
  }

  /** How many processes stand in front of `x`; the length of the queue if it is not there. */
  function Position(items: seq<nat>, x: nat): (i: nat)
    ensures i <= |items|
    ensures i < |items| ==> items[i] == x
    ensures forall j :: 0 <= j < i ==> items[j] != x
  {
    QS.FirstMatch(items, Compare, x)
  }

  function Remove(items: seq<nat>, x: nat): seq<nat> {
    var i := Position(items, x);
    if i == |items| then items else items[..i] + items[i + 1..]
  }

  // ---- entering and leaving the ready queues

  /** Appends `x` to the queue of its priority. The idle process is never queued. */
  function Add(s: Sched, x: nat): (r: Sched)
    requires WellFormed(s) && x in s.procs
    ensures WellFormed(r)
  {
    if x == IDLE then s
    else
      var k := s.procs[x].priority;
      s.(procs := s.procs[x := s.procs[x].(status := Ready)], queues := s.queues[k := s.queues[k] + [x]])
  }

  function Drop(s: Sched, x: nat): Sched
    requires WellFormed(s) && x in s.procs
  {
    var k := s.procs[x].priority;
    s.(queues := s.queues[k := Remove(s.queues[k], x)])
  }

  function Unschedule(s: Sched, x: nat): Sched
    requires WellFormed(s) && x in s.procs
  {
    if x == IDLE then s
    else Drop(s, x).(running := if s.running == Some(x) then None else s.running)
  }

  // ---- aging

  /** One more tick of waiting reaches the threshold. */
  predicate Due(p: Proc) {
    p.waitTicks + 1 >= AGING_THRESHOLD
  }

  function Aged(p: Proc): Proc {
    if Due(p) then p.(priority := MAX_PRIORITY, waitTicks := 0) else p.(waitTicks := p.waitTicks + 1)
  }

  predicate Runnable(procs: map<nat, Proc>, x: nat) {
    x in procs && procs[x].status == Ready && x != IDLE
  }

  /** The process at position `i` of queue `k` has waited one tick more; when it is due it moves to the top queue. */
  function AgeAt(s: Sched, k: nat, i: nat): (r: Sched)
    requires WellFormed(s) && k < MAX_PRIORITY && i < |s.queues[k]|
    ensures WellFormed(r)
  {
    var x := s.queues[k][i];
    s.(procs := s.procs[x := Aged(s.procs[x])],
       queues := if !Due(s.procs[x]) then s.queues
                 else s.queues[k := Remove(s.queues[k], x)][MAX_PRIORITY := s.queues[MAX_PRIORITY] + [x]])
  }

  /** A walk over one queue with its cyclic iterator: the state so far, the iterator, and whether the walk is over. */
  datatype Walk = Walk(s: Sched, iter: Option<nat>, over: bool)

  ghost predicate OnQueue(w: Walk, k: nat) {
    WellFormed(w.s) && k < MAX_PRIORITY && (w.iter.Some? ==> w.iter.value < |w.s.queues[k]|)
  }

  function Enter(s: Sched, k: nat): Walk
    requires WellFormed(s) && k < MAX_PRIORITY
  {
    Walk(s, if s.queues[k] == [] then None else Some(0), false)
  }

  /** One round: the process under the iterator is aged after the iterator has moved on, and the walk is over when the
      iterator is then back at the front. A process that is not waiting to run is passed over without that test. */
  function Round(w: Walk, k: nat): (r: Walk)
    requires OnQueue(w, k)
    ensures OnQueue(r, k)
  {
    if w.over || w.iter.None? then w.(over := true)
    else
      var items := w.s.queues[k];
      var x := items[w.iter.value];
      var q := QS.Advance(QS.Q(items, w.iter));
      if !Runnable(w.s.procs, x) then w.(iter := q.iter)
      else
        var next := if Due(w.s.procs[x]) then QS.Remove(q, Compare, x) else q;
        Walk(AgeAt(w.s, k, w.iter.value), next.iter, QS.Looped(next))
  }

  function Rounds(w: Walk, k: nat, n: nat): (r: Walk)
    requires OnQueue(w, k)
    ensures OnQueue(r, k)
  {
    if n == 0 then w else Round(Rounds(w, k, n - 1), k)
  }

  /** The walk over queue `k` comes to an end. */
  ghost predicate Ends(s: Sched, k: nat)
    requires WellFormed(s) && k < MAX_PRIORITY
  {
    exists n: nat :: Rounds(Enter(s, k), k, n).over
  }

  /** The state a walk over queue `k` ends in. A walk that does not end leaves none: the value then means nothing. */
  ghost function AgeQueue(s: Sched, k: nat): (r: Sched)
    requires WellFormed(s) && k < MAX_PRIORITY
    ensures WellFormed(r)
  {
    if Ends(s, k) then
      var n: nat :| Rounds(Enter(s, k), k, n).over;
      Rounds(Enter(s, k), k, n).s
    else s
  }

  /** Every queue below the top one is aged, lowest first. */
  ghost function AgeBelow(s: Sched, n: nat): (r: Sched)
    requires WellFormed(s) && n <= MAX_PRIORITY
    ensures WellFormed(r)
  {
    if n == 0 then s else AgeQueue(AgeBelow(s, n - 1), n - 1)
  }

  ghost function Aging(s: Sched): (r: Sched)
    requires WellFormed(s)
    ensures WellFormed(r)
  {
    AgeBelow(s, MAX_PRIORITY)
  }

  ghost predicate AgingEnds(s: Sched)
    requires WellFormed(s)
  {
    forall k :: 0 <= k < MAX_PRIORITY ==> Ends(AgeBelow(s, k), k)
  }

  // ---- the scheduling decision

  /** What becomes of the process that was interrupted, given that its quantum is over. */
  function Preempt(s: Sched): (r: Sched)
    requires WellFormed(s)
    ensures WellFormed(r)
  {
    match s.running
    case None => s
    case Some(r) =>
      match s.procs[r].status
      case Terminated => s.(running := None)
      case Blocked => s.(running := None)
      case Running => Add(s.(procs := s.procs[r := s.procs[r].(quantum := DEFAULT_QUANTUM, status := Ready)]), r)
      case Ready => s
  }

  /** The first runnable process of a queue; |items| when there is none. */
  function FirstRunnable(procs: map<nat, Proc>, items: seq<nat>): (i: nat)
    ensures i <= |items|
    ensures i < |items| ==> Runnable(procs, items[i])
    ensures forall j :: 0 <= j < i ==> !Runnable(procs, items[j])
  {
    if items == [] || Runnable(procs, items[0]) then 0 else FirstRunnable(procs, items[1..]) + 1
  }

  /** Gives the processor to the first runnable process of queues n - 1 down to 0, discarding what stands before it. */
  function Dispatch(s: Sched, n: nat): Sched
    requires |s.queues| == MAX_PRIORITY + 1 && IDLE in s.procs && n <= MAX_PRIORITY + 1
    decreases n
  {
    if n == 0 then
      s.(procs := s.procs[IDLE := s.procs[IDLE].(status := Running)], running := Some(IDLE))
    else
      var items := s.queues[n - 1];
      var i := FirstRunnable(s.procs, items);
      if i == |items| then Dispatch(s.(queues := s.queues[n - 1 := []]), n - 1)
      else
        var x := items[i];
        Sched(s.procs[x := s.procs[x].(status := Running, quantum := DEFAULT_QUANTUM, waitTicks := 0)],
              s.queues[n - 1 := items[i + 1..]],
              Some(x))
  }

  /** One call of the scheduler: the timer interrupt, or an interrupt forced by the kernel. */
  ghost function Tick(s: Sched): Sched
    requires WellFormed(s)
  {
    var a := Aging(s);
    if InsideQuantum(a) then UseQuantum(a) else Dispatch(Preempt(UseQuantum(a)), MAX_PRIORITY + 1)
  }

  predicate InsideQuantum(s: Sched)
    requires WellFormed(s)
  {
    s.running.Some? && var p := s.procs[s.running.value]; p.status == Running && p.quantum - 1 > 0
  }

  /** The interrupted process has used up one tick of its quantum. */
  function UseQuantum(s: Sched): (r: Sched)
    requires WellFormed(s)
    ensures WellFormed(r)
  {
    match s.running
    case None => s
    case Some(x) =>
      var p := s.procs[x];
      if p.status == Running then s.(procs := s.procs[x := p.(quantum := p.quantum - 1)]) else s
  }

  // ---- the operations of the rest of the kernel

  function Block(s: Sched, x: nat): Sched
    requires WellFormed(s)
  {
    if x !in s.procs || x == IDLE || x == INIT || s.procs[x].status == Blocked || s.procs[x].status == Terminated then s
    else
      Drop(s, x).(procs := s.procs[x := s.procs[x].(status := Blocked, waitTicks := 0)])
  }

  function Unblock(s: Sched, x: nat): Sched
    requires WellFormed(s)
  {
    if x !in s.procs || x == IDLE || x == INIT || s.procs[x].status != Blocked then s
    else Add(s, x)
  }

  /** The lowest pid from `i` on that is unused or belongs to a terminated process. */
  function AssignPid(procs: map<nat, Proc>, i: nat): (r: Option<nat>)
    requires i <= MAX_PROCESSES
    ensures match r
            case None => forall j :: i <= j < MAX_PROCESSES ==> j in procs && procs[j].status != Terminated
            case Some(x) => i <= x < MAX_PROCESSES && (x in procs ==> procs[x].status == Terminated) &&
                            forall j :: i <= j < x ==> j in procs && procs[j].status != Terminated
    decreases MAX_PROCESSES - i
  {
    if i == MAX_PROCESSES then None
    else if i !in procs || procs[i].status == Terminated then Some(i)
    else AssignPid(procs, i + 1)
  }

  /** Removes the terminated processes from the table. */
  function Reap(s: Sched): Sched {
    s.(procs := map x | x in s.procs && s.procs[x].status != Terminated :: s.procs[x])
  }

  /** A priority out of range is replaced by the default. */
  function Level(priority: int): nat {
    if MIN_PRIORITY <= priority <= MAX_PRIORITY then priority else DEFAULT_PRIORITY
  }

  /** A new ready process with pid `x`. */
  function Born(s: Sched, x: nat, priority: int): (r: Sched)
    requires WellFormed(s)
    ensures WellFormed(r)
  {
    var p := Proc(Ready, Level(priority), Level(priority), 0, DEFAULT_QUANTUM);
    Add(s.(procs := s.procs[x := p]), x)
  }

  function Create(s: Sched, priority: int): Sched
    requires WellFormed(s)
  {
    match AssignPid(s.procs, 0)
    case None => s
    case Some(x) => Reap(Born(s, x, priority))
  }

  /** The running process returns from its entry point. The idle process never does. */
  function Exit(s: Sched): Sched
    requires WellFormed(s)
  {
    if s.running.None? || s.running == Some(IDLE) || s.procs[s.running.value].status != Running then s
    else
      var x := s.running.value;
      Unschedule(s.(procs := s.procs[x := s.procs[x].(status := Terminated)]), x)
  }

  function Kill(s: Sched, x: nat): Sched
    requires WellFormed(s)
  {
    if x == IDLE || x == INIT || x !in s.procs then s
    else
      var t := Unschedule(s.(procs := s.procs[x := s.procs[x].(status := Terminated)]), x);
      t.(procs := t.procs - {x})
  }

  /** Gives up the rest of the quantum; the forced interrupt is the tick that follows. */
  function Yield(s: Sched): Sched
    requires WellFormed(s)
  {
    if s.running.Some? && s.procs[s.running.value].status == Running then
      var x := s.running.value;
      s.(procs := s.procs[x := s.procs[x].(quantum := 0)])
    else s
  }

  /** The new priority is recorded; a process that is queued stays in the queue of its old one. */
  function SetPriority(s: Sched, x: nat, priority: int): Sched {
    if x !in s.procs || !(MIN_PRIORITY <= priority <= MAX_PRIORITY) then s
    else s.(procs := s.procs[x := s.procs[x].(priority := priority, original := priority, quantum := DEFAULT_QUANTUM)])
  }

  datatype Op =
    | DoTick
    | DoCreate(priority: int)
    | DoBlock(x: nat)
    | DoUnblock(x: nat)
    | DoExit
    | DoKill(x: nat)
    | DoYield
    | DoReap
    | DoSetPriority(x: nat, newPriority: int)

  ghost function Step(s: Sched, op: Op): Sched
    requires WellFormed(s)
  {
    match op
    case DoTick => Tick(s)
    case DoCreate(priority) => Create(s, priority)
    case DoBlock(x) => Block(s, x)
    case DoUnblock(x) => Unblock(s, x)
    case DoExit => Exit(s)
    case DoKill(x) => Kill(s, x)
    case DoYield => Yield(s)
    case DoReap => Reap(s)
    case DoSetPriority(x, priority) => SetPriority(s, x, priority)
  }

  /** A process standing in a queue may not be given another priority. */
  predicate Allowed(s: Sched, op: Op) {
    op.DoSetPriority? ==> !Requeues(s, op.x, op.newPriority)
  }

  predicate Requeues(s: Sched, x: nat, priority: int) {
    && x in s.procs && x != IDLE && s.procs[x].status == Ready
    && MIN_PRIORITY <= priority <= MAX_PRIORITY && priority != s.procs[x].priority
  }

  /** After boot the idle process runs, alone. */
  function Boot(): (s: Sched)
    ensures Inv(s)
  {
    Sched(map[IDLE := Proc(Running, 0, 0, 0, DEFAULT_QUANTUM)], [[], [], [], []], Some(IDLE))
  }
}

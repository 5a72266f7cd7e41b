/** The MVar running on the kernel: participants are created one by one and call it whenever the scheduler lets them
    execute, and anything may happen in between. */
module MVarSystem {
  import opened Basics
  import opened SchedulerSpec
  import opened SemaphoreSpec
  import opened SemaphoreClients
  import opened MVarSpec
  import Sems = SemaphoreTheorems
  import MT = MVarTheorems

  const EMPTY := "mvar_empty"
  const FULL := "mvar_full"
  const NAMES := {EMPTY, FULL}

  datatype System = System(w: Sems.World, m: MVar)

  /** The kernel's two semaphores are the protocol's. */
  ghost predicate Matches(s: System) {
    && EMPTY in s.w.k.sems && s.w.k.sems[EMPTY] == s.m.empty
    && FULL in s.w.k.sems && s.w.k.sems[FULL] == s.m.full
  }

  ghost predicate SysInv(s: System) {
    Settled(s.w, NAMES, s.m.calls.Keys) && Matches(s) && MInv(s.m)
  }

  /** The semaphore call behind a participant's next call, if it is one. */
  function SemCall(c: Call): Option<Sems.Op> {
    match c
    case PutWait(_) => Some(Sems.DoWait(EMPTY))
    case PutPost(_) => Some(Sems.DoPost(FULL))
    case GetWait => Some(Sems.DoWait(FULL))
    case GetPost(_) => Some(Sems.DoPost(EMPTY))
    case _ => None
  }

  /** A process joins with its first call, a participant makes its next one, or the rest of the system does something. */
  datatype Op = Join(who: nat, first: Call) | Participant(x: nat) | Environment(op: Sems.Op)

  ghost function SysStep(s: System, op: Op): System
    requires WellFormed(s.w.k.sched) && s.w.logs.Keys == s.w.k.sems.Keys
  {
    match op
    case Join(x, call) => s.(m := s.m.(calls := s.m.calls[x := call]))
    case Environment(o) => s.(w := Sems.Step(s.w, o))
    case Participant(x) =>
      if x !in s.m.calls || !Executing(s.w.k.sched, x) then s
      else
        var call := SemCall(s.m.calls[x]);
        System(if call.Some? then Sems.Step(s.w, call.value) else s.w, Act(s.m, x))
  }

  ghost predicate SysAllowed(s: System, op: Op)
    requires s.w.logs.Keys == s.w.k.sems.Keys
  {
    match op
    case Join(x, call) => x !in s.m.calls && Lively(s.w.k.sched, x) && (call.GetWait? || (call.PutWait? && call.v != 0))
    case Participant(_) => true
    case Environment(o) => Foreign(s.w, NAMES, s.m.calls.Keys, o)
  }

  lemma ParkedWaits(s: System, x: nat)
    requires Matches(s)
    ensures Waits(s.w, NAMES, x) <==> Parked(s.m, x)
  {
    if x in s.m.empty.blocked {
      assert x in s.w.k.sems[EMPTY].blocked;
    } else if x in s.m.full.blocked {
      assert x in s.w.k.sems[FULL].blocked;
    }
  }

  /** An executing participant is not parked, so that its call is a step of the protocol. */
  lemma ParticipantActs(s: System, x: nat)
    requires SysInv(s) && x in s.m.calls && Executing(s.w.k.sched, x)
    ensures !Parked(s.m, x) && MInv(Act(s.m, x))
  {
    ParkedWaits(s, x);
    MT.ActKeeps(s.m, x);
  }

  lemma WaitMatches(s: System, x: nat, name: string)
    requires SysInv(s) && x in s.m.calls && Executing(s.w.k.sched, x) && name in NAMES
    requires SemCall(s.m.calls[x]) == Some(Sems.DoWait(name))
    ensures var t := SysStep(s, Participant(x)); Settled(t.w, NAMES, s.m.calls.Keys) && Matches(t)
  {
    WaitKeeps(s.w, NAMES, s.m.calls.Keys, name, x);
    assert SysStep(s, Participant(x)) == System(Sems.Step(s.w, Sems.DoWait(name)), Act(s.m, x));
  }

  lemma PostMatches(s: System, x: nat, name: string)
    requires SysInv(s) && x in s.m.calls && Executing(s.w.k.sched, x) && name in NAMES
    requires SemCall(s.m.calls[x]) == Some(Sems.DoPost(name))
    ensures var t := SysStep(s, Participant(x)); Settled(t.w, NAMES, s.m.calls.Keys) && Matches(t)
  {
    ParkedWaits(s, x);
    MT.Alone(s.m, x);
    PostKeeps(s.w, NAMES, s.m.calls.Keys, name);
    assert SysStep(s, Participant(x)) == System(Sems.Step(s.w, Sems.DoPost(name)), Act(s.m, x));
  }

  /** On the kernel, each call of an executing participant is a step of the protocol, and it leaves every participant
      blocked exactly if it waits. */
  lemma ParticipantKeeps(s: System, x: nat)
    requires SysInv(s) && x in s.m.calls && Executing(s.w.k.sched, x)
    ensures SysInv(SysStep(s, Participant(x))) && SysStep(s, Participant(x)).m == Act(s.m, x)
  {
    ParticipantActs(s, x);
    assert Act(s.m, x).calls.Keys == s.m.calls.Keys;
    match s.m.calls[x]
    case PutWait(_) => WaitMatches(s, x, EMPTY);
    case GetWait => WaitMatches(s, x, FULL);
    case PutPost(_) => PostMatches(s, x, FULL);
    case GetPost(_) => PostMatches(s, x, EMPTY);
    case _ =>
  }

  lemma JoinerKeeps(s: System, x: nat, call: Call)
    requires SysInv(s) && SysAllowed(s, Join(x, call))
    ensures SysInv(SysStep(s, Join(x, call)))
  {
    var t := SysStep(s, Join(x, call));
    JoinKeeps(s.w, NAMES, s.m.calls.Keys, x);
    assert t.m.calls.Keys == s.m.calls.Keys + {x};
    MT.NewcomerKeeps(s.m, x, call);
  }

  lemma SysKeeps(s: System, op: Op)
    requires SysInv(s) && SysAllowed(s, op)
    ensures SysInv(SysStep(s, op))
  {
    match op
    case Join(x, call) => JoinerKeeps(s, x, call);
    case Participant(x) => if SysStep(s, op) != s { ParticipantKeeps(s, x); }
    case Environment(o) => ForeignKeeps(s.w, NAMES, s.m.calls.Keys, o);
  }

  // ---- whole runs

  ghost predicate Legal(s: System, ops: seq<Op>)
    requires SysInv(s)
    decreases |ops|
  {
    ops == [] || (SysAllowed(s, ops[0]) && (SysKeeps(s, ops[0]); Legal(SysStep(s, ops[0]), ops[1..])))
  }

  ghost function Run(s: System, ops: seq<Op>): (t: System)
    requires SysInv(s) && Legal(s, ops)
    ensures SysInv(t)
    decreases |ops|
  {
    if ops == [] then s
    else
      SysKeeps(s, ops[0]);
      Run(SysStep(s, ops[0]), ops[1..])
  }

  /** The state mvarInit leaves when nobody had the two semaphores open, before anybody uses the MVar. */
  ghost predicate Started(s: System): (b: bool)
    ensures b ==> SysInv(s)
  {
    MT.InitialWhenAlone(s.m);
    Sems.WInv(s.w) && Matches(s) && Initial(s.m) && s.m.calls == map[]
  }

  /** The MVar is a one-slot channel, for any numbers of writers and readers, joining at any time, and any interleaving: one
      token in all, values read in the order they were put and at most one behind, each of them handed to a caller of
      mvarGet in that order, and none of them the failure code. */
  lemma OneSlotChannel(s: System, ops: seq<Op>)
    requires Started(s) && Legal(s, ops)
    ensures var t := Run(s, ops);
            && t.w.k.sems[EMPTY].value + t.w.k.sems[FULL].value + |Holders(t.m)| == 1
            && t.m.gets <= t.m.puts && |t.m.puts| <= |t.m.gets| + 1
            && t.m.returned <= t.m.puts && t.m.returned <= t.m.gets && |t.m.gets| <= |t.m.returned| + 1
            && (forall v :: v in t.m.returned ==> v != 0)
  {
    MT.OneSlot(Run(s, ops).m);
  }

  /** With at least one writer and one reader, some participant is always ready to run or running. */
  lemma NeverAllBlocked(s: System, ops: seq<Op>, writer: nat, reader: nat)
    requires Started(s) && Legal(s, ops)
    requires writer in Run(s, ops).m.calls && MT.Writes(Run(s, ops).m.calls[writer])
    requires reader in Run(s, ops).m.calls && !MT.Writes(Run(s, ops).m.calls[reader])
    ensures var t := Run(s, ops);
            exists x :: x in t.m.calls && x in t.w.k.sched.procs &&
                        (t.w.k.sched.procs[x].status == Ready || t.w.k.sched.procs[x].status == Running)
  {
    var t := Run(s, ops);
    var x := MT.SomebodyRuns(t.m, writer, reader);
    ParkedWaits(t, x);
    assert Lively(t.w.k.sched, x);
  }
}

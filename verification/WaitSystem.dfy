/** Waiting for a child on the kernel: the handshake's semaphore calls made by processes, with everything else going on. */
module WaitSystem {
  import opened Basics
  import opened SchedulerSpec
  import opened SemaphoreSpec
  import opened SemaphoreClients
  import WE = WaitExit
  import Sems = SemaphoreTheorems

  /** `name` is the name of the child's semaphore in the registry. */
  datatype System = System(w: Sems.World, h: WE.Wait, name: string)

  ghost predicate SysInv(s: System) {
    && |s.name| < MAX_SEM_LENGTH && Settled(s.w, {s.name}, {s.h.wpid}) && WE.HInv(s.h)
    && s.name in s.w.k.sems && s.h.sem == Some(s.w.k.sems[s.name])
  }

  /** The semaphore calls of a step, in order. */
  function SemCalls(s: System, o: WE.Op): seq<Sems.Op> {
    match o
    case EnderOpens => [Sems.DoOpen(s.name, 0)]
    case EnderPosts(_) => [Sems.DoPost(s.name)]
    case EnderCloses(_) => [Sems.DoClose(s.name)]
    case ChildVanishes => []
    case WaitStarts => if s.h.present then [Sems.DoOpen(s.name, 0)] + [Sems.DoWait(s.name)] else []
    case WaitEnds => [Sems.DoClose(s.name)]
  }

  /** The waiter makes its calls when it executes; the other calls are made by whoever ends the child. */
  predicate Runs(s: System, o: WE.Op) {
    WE.Enabled(s.h, o) && (o.WaitStarts? || o.WaitEnds? ==> Executing(s.w.k.sched, s.h.wpid))
  }

  datatype Op = Handshake(o: WE.Op) | Environment(op: Sems.Op)

  ghost function SysStep(s: System, op: Op): System
    requires WellFormed(s.w.k.sched) && s.w.logs.Keys == s.w.k.sems.Keys
  {
    match op
    case Environment(o) => s.(w := Sems.Step(s.w, o))
    case Handshake(o) => if Runs(s, o) then s.(w := MakeCalls(s.w, SemCalls(s, o)), h := WE.Step(s.h, o)) else s
  }

  ghost predicate SysAllowed(s: System, op: Op)
    requires s.w.logs.Keys == s.w.k.sems.Keys
  {
    op.Environment? ==> Foreign(s.w, {s.name}, {s.h.wpid}, op.op)
  }

  /** Opening and then waiting, by the waiter. */
  lemma WaitCalls(s: System)
    requires SysInv(s) && Executing(s.w.k.sched, s.h.wpid)
    ensures var t := MakeCalls(s.w, [Sems.DoOpen(s.name, 0)] + [Sems.DoWait(s.name)]);
            var m := s.w.k.sems[s.name];
            && Settled(t, {s.name}, {s.h.wpid}) && s.name in t.k.sems
            && t.k.sems[s.name] == Take(m.(users := m.users + 1), s.h.wpid)
  {
    OpenKeeps(s.w, {s.name}, {s.h.wpid}, s.name, 0);
    FirstCall(s.w, Sems.DoOpen(s.name, 0), [Sems.DoWait(s.name)]);
    var a := Sems.Step(s.w, Sems.DoOpen(s.name, 0));
    assert a.k.sched == s.w.k.sched;
    WaitKeeps(a, {s.name}, {s.h.wpid}, s.name, s.h.wpid);
    OneCall(a, Sems.DoWait(s.name));
  }

  /** While somebody is about to close, the creator's reference is there besides. */
  lemma NotTheLast(s: System, o: WE.Op)
    requires SysInv(s) && Runs(s, o) && (o.EnderCloses? || o.WaitEnds?)
    ensures s.w.k.sems[s.name].users > 1
  {
    if o.EnderCloses? {
      WE.HoldingOne(s.h.enders, o.i);
    }
  }

  lemma EndersKeep(s: System, o: WE.Op)
    requires SysInv(s) && Runs(s, o) && (o.EnderOpens? || o.EnderPosts?)
    ensures SysInv(SysStep(s, Handshake(o)))
  {
    WE.StepKeeps(s.h, o);
    if o.EnderOpens? {
      OpenKeeps(s.w, {s.name}, {s.h.wpid}, s.name, 0);
      OneCall(s.w, Sems.DoOpen(s.name, 0));
    } else {
      PostKeeps(s.w, {s.name}, {s.h.wpid}, s.name);
      OneCall(s.w, Sems.DoPost(s.name));
    }
  }

  lemma ClosesKeep(s: System, o: WE.Op)
    requires SysInv(s) && Runs(s, o) && (o.EnderCloses? || o.WaitEnds?)
    ensures SysInv(SysStep(s, Handshake(o)))
  {
    WE.StepKeeps(s.h, o);
    NotTheLast(s, o);
    CloseKeeps(s.w, {s.name}, {s.h.wpid}, s.name);
    OneCall(s.w, Sems.DoClose(s.name));
  }

  lemma StartKeeps(s: System)
    requires SysInv(s) && Runs(s, WE.WaitStarts)
    ensures SysInv(SysStep(s, Handshake(WE.WaitStarts)))
  {
    WE.StepKeeps(s.h, WE.WaitStarts);
    if s.h.present {
      WaitCalls(s);
    } else {
      assert MakeCalls(s.w, []) == s.w;
    }
  }

  lemma VanishKeeps(s: System)
    requires SysInv(s) && Runs(s, WE.ChildVanishes)
    ensures SysInv(SysStep(s, Handshake(WE.ChildVanishes)))
  {
    WE.StepKeeps(s.h, WE.ChildVanishes);
    assert MakeCalls(s.w, []) == s.w;
  }

  lemma HandshakeKeeps(s: System, o: WE.Op)
    requires SysInv(s) && Runs(s, o)
    ensures SysInv(SysStep(s, Handshake(o)))
  {
    match o
    case EnderOpens => EndersKeep(s, o);
    case EnderPosts(_) => EndersKeep(s, o);
    case EnderCloses(_) => ClosesKeep(s, o);
    case ChildVanishes => VanishKeeps(s);
    case WaitStarts => StartKeeps(s);
    case WaitEnds => ClosesKeep(s, o);
  }

  lemma SysKeeps(s: System, op: Op)
    requires SysInv(s) && SysAllowed(s, op)
    ensures SysInv(SysStep(s, op))
  {
    match op
    case Handshake(o) => if Runs(s, o) { HandshakeKeeps(s, o); }
    case Environment(o) => ForeignKeeps(s.w, {s.name}, {s.h.wpid}, o);
  }

  // ---- whole runs

  ghost predicate Legal(s: System, ops: seq<Op>)
    requires SysInv(s)
    decreases |ops|
  {
    ops == [] || (SysAllowed(s, ops[0]) && (SysKeeps(s, ops[0]); Legal(SysStep(s, ops[0]), ops[1..])))
  }

  ghost function Run(s: System, ops: seq<Op>): (t: System)
    requires SysInv(s) && Legal(s, ops)
    ensures SysInv(t)
    decreases |ops|
  {
    if ops == [] then s
    else
      SysKeeps(s, ops[0]);
      Run(SysStep(s, ops[0]), ops[1..])
  }

  /** A child just created, whose semaphore was clean, and a process that may wait for it. */
  ghost predicate Started(s: System, before: Option<Sem>): (b: bool)
    ensures b ==> SysInv(s)
  {
    && WE.Clean(before) && s.h == WE.Created(before, s.h.wpid)
    && |s.name| < MAX_SEM_LENGTH && Sems.WInv(s.w) && s.name in s.w.k.sems && s.h.sem == Some(s.w.k.sems[s.name])
    && Lively(s.w.k.sched, s.h.wpid)
  }

  /** On the kernel, whatever the rest of the system does: wait_child returns 0 only after a post for the child, and the
      waiting process is blocked by the scheduler exactly as long as there has been none. */
  lemma WaitOnTheKernel(s: System, before: Option<Sem>, ops: seq<Op>)
    requires Started(s, before) && Legal(s, ops)
    ensures var t := Run(s, ops);
            && (t.h.waiter == WE.Returned(0) ==> t.h.posts > 0)
            && (if t.h.waiter.Waiting? && t.h.posts == 0 then Stopped(t.w.k.sched, t.h.wpid)
                else Lively(t.w.k.sched, t.h.wpid))
  {
    var t := Run(s, ops);
    if t.h.waiter.Waiting? && t.h.posts == 0 {
      assert t.h.wpid in t.w.k.sems[t.name].blocked;
    }
  }
}

/** The semaphore calls on the mutable registry and scheduler. */
module Semaphores {
  import opened SchedulerSpec
  import opened SemaphoreSpec
  import SI = SchedulerInvariant
  import SC = Scheduler

  class SemRegistry {
    const scheduler: SC.Scheduler
    var sems: map<string, Sem>

    constructor (s: SC.Scheduler)
      ensures scheduler == s && sems == map[]
    {
      scheduler := s;
      sems := map[];
    }

    function Now(): SemaphoreSpec.Kernel
      reads this, scheduler
    {
      SemaphoreSpec.Kernel(scheduler.Now(), sems)
    }

    ghost predicate Valid()
      reads this, scheduler
    {
      && scheduler.Valid() && Inv(scheduler.Now())
      && forall name :: name in sems ==> sems[name].users > 0
    }

    method SemOpen(name: string, value: uint16) returns (ok: bool)
      requires Valid()
      modifies `sems
      ensures Valid() && Now() == Open(old(Now()), name, value)
      ensures ok <==> |name| < 32
      ensures !ok ==> sems == old(sems)
    {
      if |name| >= MAX_SEM_LENGTH { return false; }
      if name in sems {
        sems := sems[name := sems[name].(users := sems[name].users + 1)];
      } else {
        sems := sems[name := Sem(value, 1, [])];
      }
      return true;
    }

    method SemClose(name: string) returns (ok: bool)
      requires Valid()
      modifies `sems
      ensures Valid() && Now() == Close(old(Now()), name)
      ensures ok <==> name in old(sems)
      ensures !ok ==> sems == old(sems)
    {
      if name !in sems { return false; }
      var users := sems[name].users - 1;
      if users != 0 {
        sems := sems[name := sems[name].(users := users)];
      } else {
        sems := sems - {name};
      }
      return true;
    }

    /** The executing process takes a unit, or queues up, blocks and enters the scheduler (which it also enters when
        it is a process that cannot be blocked). Entering it once more on being resumed is a separate step. */
    method SemWait(name: string) returns (ok: bool)
      requires Valid() && scheduler.running.Some? && Executing(scheduler.Now(), scheduler.running.value)
      modifies this, scheduler
      ensures Valid() && (ok <==> name in old(sems))
      ensures var k := Wait(old(Now()), name, old(scheduler.running).value);
              Now() == if name in old(sems) && old(sems)[name].value == 0 then k.(sched := Tick(k.sched)) else k
    {
      if name !in sems { return false; }
      if sems[name].value == 0 {
        WaitInLine(name, scheduler.running.value);
      } else {
        sems := sems[name := sems[name].(value := sems[name].value - 1)];
      }
      return true;
    }

    /** The executing process queues up and the scheduler is entered, by blocking it if it can be blocked. */
    method WaitInLine(name: string, current: nat)
      requires Valid() && Executing(scheduler.Now(), current) && name in sems && sems[name].value == 0
      modifies this, scheduler
      ensures Valid()
      ensures var k := Wait(old(Now()), name, current); Now() == k.(sched := Tick(k.sched))
    {
      sems := sems[name := sems[name].(blocked := sems[name].blocked + [current])];
      assert AgingEnds(Block(scheduler.Now(), current)) && Inv(Tick(Block(scheduler.Now(), current))) by {
        SI.BlockInv(scheduler.Now(), current);
        SI.AgingReturns(Block(scheduler.Now(), current));
        SI.TickInv(Block(scheduler.Now(), current));
      }
      var blocked := scheduler.BlockProcess(current);
      if !blocked {
        scheduler.Schedule();
      }
    }

    method SemPost(name: string) returns (ok: bool)
      requires Valid()
      modifies this, scheduler
      ensures Valid() && Now() == Post(old(Now()), name)
      ensures ok <==> name in old(sems)
      ensures !ok ==> Now() == old(Now())
    {
      if name !in sems { return false; }
      var m := sems[name];
      if |m.blocked| > 0 {
        var pid := m.blocked[0];
        sems := sems[name := m.(blocked := m.blocked[1..])];
        SI.UnblockInv(scheduler.Now(), pid);
        var _ := scheduler.UnblockProcess(pid);
      } else {
        sems := sems[name := m.(value := (m.value + 1) % VALUE_LIMIT)];
      }
      return true;
    }

    method RemoveFromSemaphore(name: string, x: nat) returns (ok: bool)
      requires Valid() && name in sems
      modifies `sems
      ensures Valid() && Now() == Withdraw(old(Now()), name, x)
      ensures ok <==> x in old(sems)[name].blocked
    {
      var m := sems[name];
      ok := Position(m.blocked, x) < |m.blocked|;
      sems := sems[name := m.(blocked := Remove(m.blocked, x))];
    }
  }
}

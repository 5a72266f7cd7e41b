/** Named counting semaphores with direct hand-off, on top of the scheduler. */
module SemaphoreSpec {
  import opened Basics
  import opened SchedulerSpec

  const MAX_SEM_LENGTH := 32
  const VALUE_LIMIT := 0x1_0000

  type uint16 = x: nat | x < VALUE_LIMIT

  datatype Sem = Sem(value: uint16, users: nat, blocked: seq<nat>)

  /** The scheduler and the registry of open semaphores. */
  datatype Kernel = Kernel(sched: Sched, sems: map<string, Sem>)

  predicate Executing(s: Sched, x: nat) {
    s.running == Some(x) && x in s.procs && s.procs[x].status == Running
  }

  function Open(k: Kernel, name: string, value: uint16): Kernel {
    if |name| >= MAX_SEM_LENGTH then k
    else if name in k.sems then
      k.(sems := k.sems[name := k.sems[name].(users := k.sems[name].users + 1)])
    else
      k.(sems := k.sems[name := Sem(value, 1, [])])
  }

  /** The last user takes the semaphore out of the registry. */
  function Close(k: Kernel, name: string): Kernel {
    if name !in k.sems then k
    else
      var m := k.sems[name];
      if m.users > 1 then k.(sems := k.sems[name := m.(users := m.users - 1)])
      else k.(sems := k.sems - {name})
  }

  /** What a wait by `x` does to the semaphore: a unit is taken or, without one, `x` queues up. */
  function Take(m: Sem, x: nat): Sem {
    if m.value == 0 then m.(blocked := m.blocked + [x]) else m.(value := m.value - 1)
  }

  /** What a post does: the unit goes to the process that has waited longest, or else into the semaphore. */
  function Give(m: Sem): Sem {
    if m.blocked != [] then m.(blocked := m.blocked[1..]) else m.(value := (m.value + 1) % VALUE_LIMIT)
  }

  /** Process `x`, which is executing, asks for a unit; if it has to queue up it blocks. */
  function Wait(k: Kernel, name: string, x: nat): Kernel
    requires WellFormed(k.sched)
  {
    if name !in k.sems then k
    else
      var m := k.sems[name];
      Kernel(if m.value == 0 then Block(k.sched, x) else k.sched, k.sems[name := Take(m, x)])
  }

  /** The process a post hands its unit to is woken. */
  function Post(k: Kernel, name: string): Kernel
    requires WellFormed(k.sched)
  {
    if name !in k.sems then k
    else
      var m := k.sems[name];
      Kernel(if m.blocked != [] then Unblock(k.sched, m.blocked[0]) else k.sched, k.sems[name := Give(m)])
  }

  /** Process `x` is taken out of the queue of waiting processes. */
  function Withdraw(k: Kernel, name: string, x: nat): Kernel {
    if name !in k.sems then k
    else
      var m := k.sems[name];
      k.(sems := k.sems[name := m.(blocked := Remove(m.blocked, x))])
  }
}

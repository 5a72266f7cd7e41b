/** How a process waits for a child: the child's semaphore, opened when it is created, posted when it ends. Every
    semaphore call is a step, so that the two sides may interleave in any way. */
module WaitExit {
  import opened Basics
  import opened SemaphoreSpec

  /** Somebody ending the child, itself or a killer: open, post, close. */
  datatype Ender = Opened | Posted | Closed

  datatype Waiter = NotYet | Waiting | Returned(code: int)

  /** `sem` is the registry's entry for the child's semaphore; `present` says whether the child is in the process
      table; `posts` counts the posts made for this child. */
  datatype Wait = Wait(sem: Option<Sem>, present: bool, enders: seq<Ender>, waiter: Waiter, wpid: nat, posts: nat)

  function OpenSem(m: Option<Sem>): Option<Sem> {
    match m
    case None => Some(Sem(0, 1, []))
    case Some(x) => Some(x.(users := x.users + 1))
  }

  function CloseSem(m: Option<Sem>): Option<Sem> {
    match m
    case None => None
    case Some(x) => if x.users > 1 then Some(x.(users := x.users - 1)) else None
  }

  /** Creating the child opens its semaphore and never closes it. */
  function Created(m: Option<Sem>, wpid: nat): Wait {
    Wait(OpenSem(m), true, [], NotYet, wpid, 0)
  }

  datatype Op = EnderOpens | EnderPosts(i: nat) | EnderCloses(i: nat) | ChildVanishes | WaitStarts | WaitEnds

  predicate Blocked(h: Wait) {
    h.sem.Some? && h.wpid in h.sem.value.blocked
  }

  /** Whoever ends the child finds it in the table; it is taken out only after a post. There is one waiter. */
  predicate Enabled(h: Wait, op: Op) {
    match op
    case EnderOpens => h.present
    case EnderPosts(i) => i < |h.enders| && h.enders[i].Opened? && h.posts + 1 < VALUE_LIMIT
    case EnderCloses(i) => i < |h.enders| && h.enders[i].Posted?
    case ChildVanishes => h.present && Closed in h.enders
    case WaitStarts => h.waiter.NotYet?
    case WaitEnds => h.waiter.Waiting? && !Blocked(h)
  }

  function Step(h: Wait, op: Op): Wait
    requires Enabled(h, op)
  {
    match op
    case EnderOpens => h.(sem := OpenSem(h.sem), enders := h.enders + [Opened])
    case EnderPosts(i) =>
      h.(sem := if h.sem.Some? then Some(Give(h.sem.value)) else None, enders := h.enders[i := Posted], posts := h.posts + 1)
    case EnderCloses(i) => h.(sem := CloseSem(h.sem), enders := h.enders[i := Closed])
    case ChildVanishes => h.(present := false)
    case WaitStarts =>
      if !h.present then h.(waiter := Returned(-1))
      else h.(sem := Some(Take(OpenSem(h.sem).value, h.wpid)), waiter := Waiting)
    case WaitEnds => h.(sem := CloseSem(h.sem), waiter := Returned(0))
  }

  /** How many enders have the semaphore open. */
  function Holding(enders: seq<Ender>): nat {
    if enders == [] then 0
    else (if enders[|enders| - 1].Closed? then 0 else 1) + Holding(enders[..|enders| - 1])
  }

  predicate Took(h: Wait) {
    h.waiter == Returned(0) || (h.waiter.Waiting? && !Blocked(h))
  }

  ghost predicate HInv(h: Wait) {
    && h.sem.Some?
    && h.sem.value.users >= 1 + Holding(h.enders) + (if h.waiter.Waiting? then 1 else 0)
    && h.sem.value.value + (if Took(h) then 1 else 0) == h.posts < VALUE_LIMIT
    && (if h.waiter.Waiting? && h.posts == 0 then h.sem.value.blocked == [h.wpid] else h.sem.value.blocked == [])
    && (h.waiter.Returned? ==> h.waiter.code == 0 || h.waiter.code == -1)
    && (!h.present ==> h.posts > 0)
    && (forall i :: 0 <= i < |h.enders| && !h.enders[i].Opened? ==> h.posts > 0)
  }

  lemma {:induction false} HoldingSet(enders: seq<Ender>, i: nat, e: Ender)
    requires i < |enders|
    ensures Holding(enders[i := e]) ==
            Holding(enders) - (if enders[i].Closed? then 0 else 1) + (if e.Closed? then 0 else 1)
  {
    var n := |enders| - 1;
    if i < n {
      HoldingSet(enders[..n], i, e);
      assert enders[i := e][..n] == enders[..n][i := e];
    } else {
      assert enders[i := e][..n] == enders[..n];
    }
  }

  lemma {:induction false} HoldingOne(enders: seq<Ender>, i: nat)
    requires i < |enders| && !enders[i].Closed?
    ensures Holding(enders) > 0
  {
    HoldingSet(enders, i, Closed);
  }

  lemma OpensKeep(h: Wait)
    requires HInv(h) && Enabled(h, EnderOpens)
    ensures HInv(Step(h, EnderOpens))
  {
    assert (h.enders + [Opened])[..|h.enders|] == h.enders;
  }

  lemma PostsKeep(h: Wait, i: nat)
    requires HInv(h) && Enabled(h, EnderPosts(i))
    ensures HInv(Step(h, EnderPosts(i)))
  {
    HoldingSet(h.enders, i, Posted);
  }

  lemma ClosesKeep(h: Wait, i: nat)
    requires HInv(h) && Enabled(h, EnderCloses(i))
    ensures HInv(Step(h, EnderCloses(i)))
  {
    HoldingSet(h.enders, i, Closed);
    HoldingOne(h.enders, i);
  }

  lemma WaiterKeeps(h: Wait, op: Op)
    requires HInv(h) && Enabled(h, op) && (op.WaitStarts? || op.WaitEnds?)
    ensures HInv(Step(h, op))
  {
  }

  lemma VanishKeeps(h: Wait)
    requires HInv(h) && Enabled(h, ChildVanishes)
    ensures HInv(Step(h, ChildVanishes))
  {
  }

  lemma StepKeeps(h: Wait, op: Op)
    requires HInv(h) && Enabled(h, op)
    ensures HInv(Step(h, op))
  {
    match op
    case EnderOpens => OpensKeep(h);
    case EnderPosts(i) => PostsKeep(h, i);
    case EnderCloses(i) => ClosesKeep(h, i);
    case ChildVanishes => VanishKeeps(h);
    case _ => WaiterKeeps(h, op);
  }

  ghost predicate Legal(h: Wait, ops: seq<Op>)
    decreases |ops|
  {
    ops == [] || (Enabled(h, ops[0]) && Legal(Step(h, ops[0]), ops[1..]))
  }

  ghost function Run(h: Wait, ops: seq<Op>): Wait
    requires Legal(h, ops)
    decreases |ops|
  {
    if ops == [] then h else Run(Step(h, ops[0]), ops[1..])
  }

  lemma {:induction false} RunKeeps(h: Wait, ops: seq<Op>)
    requires HInv(h) && Legal(h, ops)
    ensures HInv(Run(h, ops))
    decreases |ops|
  {
    if ops != [] {
      StepKeeps(h, ops[0]);
      RunKeeps(Step(h, ops[0]), ops[1..]);
    }
  }

  /** The semaphore is new, or was left without a unit by an earlier child with this pid. */
  predicate Clean(m: Option<Sem>) {
    m.Some? ==> m.value.users > 0 && m.value.value == 0 && m.value.blocked == []
  }

  /** In every interleaving, for a child created on a clean semaphore: wait_child returns 0 only after a post for that
      child; until then the waiter is blocked exactly as long as there has been no post; and a post made before the
      wait is still there for it. */
  lemma Handshake(m: Option<Sem>, wpid: nat, ops: seq<Op>)
    requires Clean(m) && Legal(Created(m, wpid), ops)
    ensures var h := Run(Created(m, wpid), ops);
            && (h.waiter == Returned(0) ==> h.posts > 0)
            && (h.waiter.Waiting? ==> (Blocked(h) <==> h.posts == 0))
            && (h.waiter.NotYet? && h.present && h.posts > 0 ==>
                  var t := Step(h, WaitStarts); Enabled(t, WaitEnds) && Step(t, WaitEnds).waiter == Returned(0))
            && h.sem.Some?
  {
    assert Created(m, wpid).enders == [];
    RunKeeps(Created(m, wpid), ops);
  }

  /** wait_child answers -1 exactly when the child is not in the table, without touching its semaphore. Otherwise it waits,
      and is blocked exactly if there has been no post; on being let go it answers 0 and leaves a user fewer. */
  lemma WaitAnswers(h: Wait)
    requires HInv(h) && h.waiter.NotYet?
    ensures var t := Step(h, WaitStarts);
            && t.posts == h.posts && t.enders == h.enders && t.present == h.present
            && (!h.present ==> t == h.(waiter := Returned(-1)))
            && (h.present ==>
                  && t.waiter == Waiting && (Blocked(t) <==> h.posts == 0)
                  && t.sem.value.users == h.sem.value.users + 1
                  && (h.posts > 0 ==>
                        && Enabled(t, WaitEnds) && Step(t, WaitEnds).waiter == Returned(0)
                        && Step(t, WaitEnds).sem == Some(h.sem.value.(value := h.sem.value.value - 1))))
  {
  }

  /** The waiter is blocked and everybody who came to end the child is done. */
  ghost predicate Stuck(h: Wait) {
    h.waiter.Waiting? && Blocked(h) && forall i :: 0 <= i < |h.enders| ==> h.enders[i].Closed?
  }

  lemma {:induction false} StaysStuck(h: Wait, ops: seq<Op>)
    requires Stuck(h) && Legal(h, ops) && EnderOpens !in ops
    ensures Stuck(Run(h, ops))
    decreases |ops|
  {
    if ops != [] {
      assert ops[0] in ops;
      StaysStuck(Step(h, ops[0]), ops[1..]);
    }
  }

  /** Somebody opens the child's semaphore, posts and closes it, and nobody has been waiting. */
  function EndsAlone(): seq<Op> {
    [EnderOpens, EnderPosts(0), EnderCloses(0)]
  }

  /** Ended before it is waited for: somebody opens the child's semaphore, posts and closes it; then the wait begins. */
  function EarlyEnd(): seq<Op> {
    EndsAlone() + [WaitStarts]
  }

  lemma EarlyEndIs(h: Wait)
    requires h.present && h.enders == [] && h.waiter.NotYet? && h.posts == 0
    requires Enabled(Step(Step(Step(h, EnderOpens), EnderPosts(0)), EnderCloses(0)), WaitStarts)
    ensures Legal(h, EarlyEnd())
    ensures Run(h, EarlyEnd()) == Step(Step(Step(Step(h, EnderOpens), EnderPosts(0)), EnderCloses(0)), WaitStarts)
  {
    var ops := EarlyEnd();
    assert ops == [EnderOpens, EnderPosts(0), EnderCloses(0), WaitStarts];
    assert ops[1..] == [EnderPosts(0), EnderCloses(0), WaitStarts];
    assert ops[1..][1..] == [EnderCloses(0), WaitStarts];
    assert ops[1..][1..][1..] == [WaitStarts];
    assert ops[1..][1..][1..][1..] == [];
  }

  /** The reference kept since creation is what saves an early post: without it the semaphore disappears when the
      child that ends is the only one to have it open, and the post with it. The waiter then stays blocked whatever
      happens, unless somebody ends the child once more. */
  lemma WithoutTheReference(wpid: nat, more: seq<Op>)
    ensures var h := Wait(None, true, [], NotYet, wpid, 0);
            && Legal(h, EarlyEnd()) && Run(h, EarlyEnd()).posts == 1 && Blocked(Run(h, EarlyEnd()))
            && (Legal(Run(h, EarlyEnd()), more) && EnderOpens !in more ==> Blocked(Run(Run(h, EarlyEnd()), more)))
  {
    var h := Wait(None, true, [], NotYet, wpid, 0);
    EarlyEndIs(h);
    var t := Run(h, EarlyEnd());
    assert t.sem.value.blocked == [wpid];
    if Legal(t, more) && EnderOpens !in more {
      StaysStuck(t, more);
    }
  }

  /** With it, the same events let the waiter go. */
  lemma WithTheReference(m: Option<Sem>, wpid: nat)
    requires Clean(m)
    ensures var h := Created(m, wpid);
            && Legal(h, EarlyEnd()) && Run(h, EarlyEnd()).posts == 1
            && Enabled(Run(h, EarlyEnd()), WaitEnds) && Step(Run(h, EarlyEnd()), WaitEnds).waiter == Returned(0)
  {
    EarlyEndIs(Created(m, wpid));
  }

  /** A pid that is used again finds the semaphore of the child that had it before, whether that was waited for or not:
      it is clean exactly when no post is left in it, and otherwise waiting for the new child returns at once, before
      any post for it. */
  lemma ReusedPid(before: Wait, wpid: nat)
    requires HInv(before) && (before.waiter.Waiting? ==> before.posts > 0)
    ensures Clean(before.sem) <==> before.sem.value.value == 0
    ensures !Clean(before.sem) ==>
              var t := Step(Created(before.sem, wpid), WaitStarts);
              Enabled(t, WaitEnds) && Step(t, WaitEnds).waiter == Returned(0) && t.posts == 0
  {
  }

  /** It happens: a child ends with nobody waiting, and its post is left for the next one with its pid. */
  lemma UnwaitedPost(wpid: nat)
    ensures var h := Created(None, wpid);
            && Legal(h, EndsAlone())
            && var before := Run(h, EndsAlone());
               && HInv(before) && before.waiter.NotYet? && !Clean(before.sem)
               && var t := Step(Created(before.sem, wpid), WaitStarts);
                  Enabled(t, WaitEnds) && Step(t, WaitEnds).waiter == Returned(0) && t.posts == 0
  {
    var h, ops := Created(None, wpid), EndsAlone();
    assert ops[1..] == [EnderPosts(0), EnderCloses(0)];
    assert ops[1..][1..] == [EnderCloses(0)];
    assert ops[1..][1..][1..] == [];
    assert h.enders == [];
    RunKeeps(h, ops);
    ReusedPid(Run(h, ops), wpid);
  }

  /** A child killed while it ends is posted for twice. */
  function EndedTwice(): seq<Op> {
    [EnderOpens, EnderOpens, EnderPosts(0), EnderPosts(1), WaitStarts, WaitEnds]
  }

  /** It happens, too, when the child has been waited for: of two posts one is left. */
  lemma SecondPost(wpid: nat)
    ensures var h := Created(None, wpid);
            && Legal(h, EndedTwice())
            && var before := Run(h, EndedTwice()); HInv(before) && before.waiter == Returned(0) && !Clean(before.sem)
  {
    var h, ops := Created(None, wpid), EndedTwice();
    assert ops[1..] == [EnderOpens, EnderPosts(0), EnderPosts(1), WaitStarts, WaitEnds];
    assert ops[1..][1..] == [EnderPosts(0), EnderPosts(1), WaitStarts, WaitEnds];
    assert ops[1..][1..][1..] == [EnderPosts(1), WaitStarts, WaitEnds];
    assert ops[1..][1..][1..][1..] == [WaitStarts, WaitEnds];
    assert ops[1..][1..][1..][1..][1..] == [WaitEnds];
    assert ops[1..][1..][1..][1..][1..][1..] == [];
    assert h.enders == [];
    RunKeeps(h, ops);
  }
}

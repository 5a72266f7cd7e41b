/** One aging pass: the rounds of the loop, with an iterator that survives the removals, and what they come to on a
    queue of processes that wait to run. */
module AgingPasses {
  import opened Basics
  import opened SchedulerSpec
  import opened PidQueues
  import QS = QueueSpec

  /** Queue `k` holds processes waiting to run, each once. */
  ghost predicate Orderly(s: Sched, k: nat)
    requires WellFormed(s) && k < MAX_PRIORITY
  {
    Distinct(s.queues[k]) && forall x :: x in s.queues[k] ==> Runnable(s.procs, x)
  }

  // ---- a whole pass in closed form

  function Stay(procs: map<nat, Proc>, items: seq<nat>): (r: seq<nat>)
    requires forall x :: x in items ==> x in procs
    ensures forall x :: x in r <==> x in items && !Due(procs[x])
    ensures |r| <= |items|
  {
    if items == [] then []
    else
      var front, x := items[..|items| - 1], items[|items| - 1];
      assert items == front + [x];
      if Due(procs[x]) then Stay(procs, front) else Stay(procs, front) + [x]
  }

  function Leave(procs: map<nat, Proc>, items: seq<nat>): (r: seq<nat>)
    requires forall x :: x in items ==> x in procs
    ensures forall x :: x in r <==> x in items && Due(procs[x])
    ensures |r| <= |items|
  {
    if items == [] then []
    else
      var front, x := items[..|items| - 1], items[|items| - 1];
      assert items == front + [x];
      if Due(procs[x]) then Leave(procs, front) + [x] else Leave(procs, front)
  }

  /** Ages the first `n` processes of queue `k` once each; those that are due move to the top queue, in order. */
  function AgeFirst(s: Sched, k: nat, n: nat): Sched
    requires WellFormed(s) && k < MAX_PRIORITY && n <= |s.queues[k]|
  {
    var items := s.queues[k];
    Sched(map x | x in s.procs :: if x in items[..n] then Aged(s.procs[x]) else s.procs[x],
          s.queues[k := Stay(s.procs, items[..n]) + items[n..]]
                  [MAX_PRIORITY := s.queues[MAX_PRIORITY] + Leave(s.procs, items[..n])],
          s.running)
  }

  lemma AgeKeepsForm(s: Sched, k: nat, n: nat)
    requires WellFormed(s) && k < MAX_PRIORITY && n <= |s.queues[k]|
    ensures WellFormed(AgeFirst(s, k, n))
  {
  }

  /** How far a pass over the queue gets: when its head is due the pass ends with it. */
  function Turn(s: Sched, k: nat): (n: nat)
    requires WellFormed(s) && k < MAX_PRIORITY
    ensures n <= |s.queues[k]|
  {
    var items := s.queues[k];
    if items != [] && Due(s.procs[items[0]]) then 1 else |items|
  }

  lemma {:induction false} FilterDistinct(procs: map<nat, Proc>, items: seq<nat>)
    requires Distinct(items) && forall x :: x in items ==> x in procs
    ensures Distinct(Stay(procs, items)) && Distinct(Leave(procs, items))
  {
    if items != [] {
      var n := |items| - 1;
      SliceDistinct(items, n);
      assert items[n..] == [items[n]];
      FilterDistinct(procs, items[..n]);
    }
  }

  lemma OneMore(procs: map<nat, Proc>, front: seq<nat>, last: nat)
    requires forall z :: z in front + [last] ==> z in procs
    ensures Stay(procs, front + [last]) == if Due(procs[last]) then Stay(procs, front) else Stay(procs, front) + [last]
    ensures Leave(procs, front + [last]) == if Due(procs[last]) then Leave(procs, front) + [last] else Leave(procs, front)
  {
    var items := front + [last];
    assert items[..|items| - 1] == front;
  }

  // ---- the rounds of the loop, one by one

  /** Where the iterator stands after `n` turns of a pass that goes on: before the next process, or off a queue
      whose only process has moved up. */
  ghost predicate At(s: Sched, k: nat, n: nat, iter: Option<nat>)
    requires WellFormed(s) && k < MAX_PRIORITY && n <= |s.queues[k]|
  {
    if n < |s.queues[k]| then
      && iter == Some(|Stay(s.procs, s.queues[k][..n])|)
      && (n != 0 ==> !Due(s.procs[s.queues[k][0]]))
    else n == Turn(s, k) && iter == None
  }

  lemma NoTurns(s: Sched, k: nat)
    requires WellFormed(s) && k < MAX_PRIORITY
    ensures AgeFirst(s, k, 0) == s
  {
    var items := s.queues[k];
    assert items[..0] == [] && [] + items[0..] == items;
    assert s.queues[MAX_PRIORITY] + [] == s.queues[MAX_PRIORITY];
  }

  lemma Split(items: seq<nat>, n: nat)
    requires n < |items|
    ensures items[..n + 1] == items[..n] + [items[n]] && items[n..] == [items[n]] + items[n + 1..]
  {
  }

  lemma Regroup(a: seq<nat>, b: seq<nat>, c: seq<nat>)
    ensures a + (b + c) == a + b + c
  {
  }

  lemma RemoveAt(front: seq<nat>, x: nat, rest: seq<nat>)
    requires x !in front
    ensures Position(front + ([x] + rest), x) == |front| && Remove(front + ([x] + rest), x) == front + rest
  {
    Regroup(front, [x], rest);
    PositionLast(front, x);
    PositionAppend(front + [x], rest, x);
  }

  lemma TurnProcs(s: Sched, k: nat, n: nat)
    requires WellFormed(s) && k < MAX_PRIORITY && Orderly(s, k) && n < |s.queues[k]|
    ensures var x := s.queues[k][n];
            var procs := AgeFirst(s, k, n).procs;
            && Runnable(procs, x) && procs[x] == s.procs[x]
            && AgeFirst(s, k, n + 1).procs == procs[x := Aged(s.procs[x])]
  {
    var items := s.queues[k];
    var x := items[n];
    Split(items, n);
    NotBefore(items, n);
    assert x in items;
  }

  lemma UpdateTwice(queues: seq<seq<nat>>, j: nat, k: nat, a: seq<nat>, b: seq<nat>, c: seq<nat>, d: seq<nat>)
    requires j < k < |queues|
    ensures queues[j := a][k := b][j := c][k := d] == queues[j := c][k := d]
  {
  }

  lemma TurnQueues(s: Sched, k: nat, n: nat)
    requires WellFormed(s) && k < MAX_PRIORITY && Orderly(s, k) && n < |s.queues[k]|
    ensures var a, i, x := AgeFirst(s, k, n), |Stay(s.procs, s.queues[k][..n])|, s.queues[k][n];
            && i < |a.queues[k]| && a.queues[k][i] == x
            && AgeFirst(s, k, n + 1).queues ==
               if !Due(s.procs[x]) then a.queues
               else a.queues[k := Remove(a.queues[k], x)][MAX_PRIORITY := a.queues[MAX_PRIORITY] + [x]]
  {
    var items := s.queues[k];
    var front, x, rest := items[..n], items[n], items[n + 1..];
    var top, kept, left := s.queues[MAX_PRIORITY], Stay(s.procs, front), Leave(s.procs, front);
    var queue := kept + items[n..];
    Split(items, n);
    OneMore(s.procs, front, x);
    assert queue[|kept|] == x;
    if Due(s.procs[x]) {
      NotBefore(items, n);
      RemoveAt(kept, x, rest);
      UpdateTwice(s.queues, k, MAX_PRIORITY, queue, top + left, kept + rest, top + left + [x]);
      Regroup(top, left, [x]);
    } else {
      Regroup(kept, [x], rest);
    }
  }

  /** A turn takes the process under the iterator, which is waiting and has not had its turn. */
  lemma OneTurn(s: Sched, k: nat, n: nat)
    requires WellFormed(s) && k < MAX_PRIORITY && Orderly(s, k) && n < |s.queues[k]|
    ensures var a, i, x := AgeFirst(s, k, n), |Stay(s.procs, s.queues[k][..n])|, s.queues[k][n];
            && WellFormed(a) && i < |a.queues[k]| && a.queues[k][i] == x && Runnable(a.procs, x)
            && AgeFirst(s, k, n + 1) == AgeAt(a, k, i)
  {
    TurnProcs(s, k, n);
    TurnQueues(s, k, n);
    AgeKeepsForm(s, k, n);
  }

  /** Where an iterator at position `i` of `size` elements goes when it is advanced, and that element then removed. */
  function NextIter(i: nat, size: nat, removed: bool): Option<nat> {
    if i + 1 < size then Some(if removed then i else i + 1) else if removed && i == 0 then None else Some(0)
  }

  lemma IterStep(q: QS.Q<nat>, i: nat, x: nat)
    requires q.iter == Some(i) && i < |q.items| && Position(q.items, x) == i
    ensures QS.WellFormed(q) && QS.Advance(q).iter == NextIter(i, |q.items|, false)
    ensures QS.Remove(QS.Advance(q), Compare, x).iter == NextIter(i, |q.items|, true)
  {
  }

  /** A round that finds a process waiting to run. */
  lemma RoundOf(w: Walk, k: nat, i: nat)
    requires OnQueue(w, k) && !w.over && w.iter == Some(i)
    requires Runnable(w.s.procs, w.s.queues[k][i]) && Position(w.s.queues[k], w.s.queues[k][i]) == i
    ensures var items := w.s.queues[k];
            var next := NextIter(i, |items|, Due(w.s.procs[items[i]]));
            Round(w, k) == Walk(AgeAt(w.s, k, i), next, next == Some(0))
  {
    IterStep(QS.Q(w.s.queues[k], w.iter), i, w.s.queues[k][i]);
  }

  lemma HeadStays(procs: map<nat, Proc>, items: seq<nat>)
    requires (forall x :: x in items ==> x in procs) && items != [] && !Due(procs[items[0]])
    ensures |Stay(procs, items)| > 0
  {
    assert items[0] in items;
  }

  lemma KeptSoFar(s: Sched, k: nat, n: nat)
    requires WellFormed(s) && k < MAX_PRIORITY && Orderly(s, k) && n < |s.queues[k]|
    ensures var items, queue := s.queues[k], AgeFirst(s, k, n).queues[k];
            var i := |Stay(s.procs, items[..n])|;
            && |queue| == i + |items| - n && Position(queue, items[n]) == i
            && |Stay(s.procs, items[..n + 1])| == (if Due(s.procs[items[n]]) then i else i + 1)
            && (n != 0 && !Due(s.procs[items[0]]) ==> i > 0)
  {
    var items := s.queues[k];
    var front, x, rest := items[..n], items[n], items[n + 1..];
    var kept := Stay(s.procs, front);
    Split(items, n);
    assert AgeFirst(s, k, n).queues[k] == kept + ([x] + rest);
    OneMore(s.procs, front, x);
    NotBefore(items, n);
    RemoveAt(kept, x, rest);
    if n != 0 && !Due(s.procs[items[0]]) {
      HeadStays(s.procs, front);
    }
  }

  /** The iterator is back at the front exactly when the pass is over, unless the queue is emptied under it. */
  lemma IterAfter(s: Sched, k: nat, n: nat)
    requires WellFormed(s) && k < MAX_PRIORITY && Orderly(s, k) && n < |s.queues[k]|
    requires n != 0 ==> !Due(s.procs[s.queues[k][0]])
    ensures var i, size := |Stay(s.procs, s.queues[k][..n])|, |AgeFirst(s, k, n).queues[k]|;
            var next := NextIter(i, size, Due(s.procs[s.queues[k][n]]));
            if next == Some(0) then n + 1 == Turn(s, k) else At(s, k, n + 1, next)
  {
    KeptSoFar(s, k, n);
  }

  /** A whole turn, as the loop meets it. */
  lemma PassGoesOn(s: Sched, k: nat, n: nat, i: nat)
    requires WellFormed(s) && k < MAX_PRIORITY && Orderly(s, k) && n <= |s.queues[k]| && At(s, k, n, Some(i))
    ensures n < |s.queues[k]| && OnQueue(Walk(AgeFirst(s, k, n), Some(i), false), k)
    ensures var r := Round(Walk(AgeFirst(s, k, n), Some(i), false), k);
            && r.s == AgeFirst(s, k, n + 1)
            && if r.over then n + 1 == Turn(s, k) else At(s, k, n + 1, r.iter)
  {
    OneTurn(s, k, n);
    KeptSoFar(s, k, n);
    IterAfter(s, k, n);
    TurnProcs(s, k, n);
    RoundOf(Walk(AgeFirst(s, k, n), Some(i), false), k, i);
  }

  // ---- the end of a walk

  lemma OverIsOver(w: Walk, k: nat)
    requires OnQueue(w, k) && w.over
    ensures Round(w, k) == w
  {
  }

  /** Once a walk is over nothing more happens. */
  lemma {:induction false} StaysOver(w: Walk, k: nat, n: nat, m: nat)
    requires OnQueue(w, k) && n <= m && Rounds(w, k, n).over
    ensures Rounds(w, k, m) == Rounds(w, k, n)
  {
    if n < m {
      StaysOver(w, k, n, m - 1);
      OverIsOver(Rounds(w, k, m - 1), k);
    }
  }

  /** However the last round is found, the state it leaves is the same. */
  lemma WalkEnds(s: Sched, k: nat, n: nat, w: Walk)
    requires WellFormed(s) && k < MAX_PRIORITY && w == Rounds(Enter(s, k), k, n) && w.over
    ensures Ends(s, k) && AgeQueue(s, k) == w.s
  {
    var start := Enter(s, k);
    forall m: nat | Rounds(start, k, m).over ensures Rounds(start, k, m).s == w.s {
      if n <= m {
        StaysOver(start, k, n, m);
      } else {
        StaysOver(start, k, m, n);
      }
    }
  }

  lemma WalkOver(s: Sched, k: nat, n: nat, w: Walk)
    requires WellFormed(s) && k < MAX_PRIORITY && w == Rounds(Enter(s, k), k, n) && !w.over && w.iter.None?
    ensures Ends(s, k) && AgeQueue(s, k) == w.s
  {
    NextRound(s, k, n, w);
    WalkEnds(s, k, n + 1, Round(w, k));
  }

  lemma NextRound(s: Sched, k: nat, n: nat, w: Walk)
    requires WellFormed(s) && k < MAX_PRIORITY && w == Rounds(Enter(s, k), k, n)
    ensures OnQueue(w, k) && Round(w, k) == Rounds(Enter(s, k), k, n + 1)
  {
  }

  /** A walk that is over after `last` rounds goes on for fewer. */
  lemma GoesOn(s: Sched, k: nat, n: nat, w: Walk, last: nat)
    requires WellFormed(s) && k < MAX_PRIORITY && w == Rounds(Enter(s, k), k, n) && !w.over
    requires Rounds(Enter(s, k), k, last).over
    ensures n < last
  {
    if last <= n {
      StaysOver(Enter(s, k), k, last, n);
    }
  }

  lemma {:induction false} PassFrom(s: Sched, k: nat, n: nat, w: Walk)
    requires WellFormed(s) && k < MAX_PRIORITY && Orderly(s, k) && n <= |s.queues[k]| && At(s, k, n, w.iter)
    requires w == Rounds(Enter(s, k), k, n) && w.s == AgeFirst(s, k, n) && !w.over
    ensures Ends(s, k) && AgeQueue(s, k) == AgeFirst(s, k, Turn(s, k))
    decreases |s.queues[k]| - n
  {
    if w.iter.None? {
      WalkOver(s, k, n, w);
    } else {
      PassGoesOn(s, k, n, w.iter.value);
      NextRound(s, k, n, w);
      if Round(w, k).over {
        WalkEnds(s, k, n + 1, Round(w, k));
      } else {
        PassFrom(s, k, n + 1, Round(w, k));
      }
    }
  }

  /** The walk over an orderly queue ends, and does to it what the closed form says. */
  lemma AgeQueueIs(s: Sched, k: nat)
    requires WellFormed(s) && k < MAX_PRIORITY && Orderly(s, k)
    ensures Ends(s, k) && AgeQueue(s, k) == AgeFirst(s, k, Turn(s, k))
  {
    NoTurns(s, k);
    PassFrom(s, k, 0, Enter(s, k));
  }
}

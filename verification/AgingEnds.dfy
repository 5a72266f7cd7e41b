/** When the timer interrupt returns. A process that is not waiting to run makes the aging loop skip its test for the
    end of the queue; this is when that matters. */
module AgingEnds {
  import opened Basics
  import opened SchedulerSpec
  import opened AgingPasses

  /** The walk goes on, over a queue that is not empty. */
  ghost predicate Walking(w: Walk, k: nat) {
    OnQueue(w, k) && !w.over && w.iter.Some?
  }

  ghost function Head(w: Walk, k: nat): nat
    requires Walking(w, k)
  {
    w.s.queues[k][0]
  }

  ghost function Last(w: Walk, k: nat): nat
    requires Walking(w, k)
  {
    w.s.queues[k][|w.s.queues[k]| - 1]
  }

  ghost predicate HeadWaits(w: Walk, k: nat)
    requires Walking(w, k)
  {
    Runnable(w.s.procs, Head(w, k))
  }

  ghost predicate LastWaits(w: Walk, k: nat)
    requires Walking(w, k)
  {
    Runnable(w.s.procs, Last(w, k))
  }

  // ---- one round

  lemma RemoveIsCut(items: seq<nat>, x: nat, i: nat)
    requires i < |items| && items[i] == x
    ensures var p := Position(items, x); p <= i && Remove(items, x) == items[..p] + items[p + 1..]
  {
  }

  lemma RoundSkips(w: Walk, k: nat)
    requires Walking(w, k) && !Runnable(w.s.procs, w.s.queues[k][w.iter.value])
    ensures var i := w.iter.value;
            Round(w, k) == w.(iter := Some(if i + 1 < |w.s.queues[k]| then i + 1 else 0))
  {
  }

  lemma RoundAges(w: Walk, k: nat)
    requires Walking(w, k) && Runnable(w.s.procs, w.s.queues[k][w.iter.value])
    ensures var i, size := w.iter.value, |w.s.queues[k]|;
            var next := NextIter(i, size, Due(w.s.procs[w.s.queues[k][i]]));
            Round(w, k) == Walk(AgeAt(w.s, k, i), next, next == Some(0))
  {
    RemoveIsCut(w.s.queues[k], w.s.queues[k][w.iter.value], w.iter.value);
  }

  lemma CutEnds(items: seq<nat>, p: nat)
    requires 0 < p < |items| - 1
    ensures var rest := items[..p] + items[p + 1..];
            && |rest| == |items| - 1 && rest[0] == items[0] && rest[|rest| - 1] == items[|items| - 1]
            && (p != 1 ==> rest[1] == items[1])
  {
  }

  /** What a round does that takes another process out of the queue. */
  lemma RoundTakes(w: Walk, k: nat) returns (p: nat)
    requires Walking(w, k) && w.s.queues[k][w.iter.value] != Head(w, k)
    requires var x := w.s.queues[k][w.iter.value]; Runnable(w.s.procs, x) && Due(w.s.procs[x])
    ensures var items, i, r := w.s.queues[k], w.iter.value, Round(w, k);
            && 0 < p <= i && items[p] == items[i]
            && r.s.queues[k] == items[..p] + items[p + 1..]
            && r.s.procs == w.s.procs[items[i] := Aged(w.s.procs[items[i]])]
            && (if i + 1 < |items| then r.iter == Some(i) && !r.over else r.over)
  {
    var items, i := w.s.queues[k], w.iter.value;
    RoundAges(w, k);
    RemoveIsCut(items, items[i], i);
    p := Position(items, items[i]);
  }

  // ---- walks that never end

  ghost predicate Hung(w: Walk, k: nat) {
    Walking(w, k) && !HeadWaits(w, k) && !LastWaits(w, k)
  }

  /** Between a head and a last process that are both not waiting, a round neither ends the walk nor changes them. */
  lemma RoundHangs(w: Walk, k: nat)
    requires Hung(w, k)
    ensures Hung(Round(w, k), k)
  {
    var items, i := w.s.queues[k], w.iter.value;
    if !Runnable(w.s.procs, items[i]) {
      RoundSkips(w, k);
    } else if Due(w.s.procs[items[i]]) {
      var p := RoundTakes(w, k);
      StaysHung(w, Round(w, k), k, p);
    } else {
      RoundAges(w, k);
    }
  }

  lemma StaysHung(w: Walk, r: Walk, k: nat, p: nat)
    requires Hung(w, k) && Walking(r, k)
    requires var items, i := w.s.queues[k], w.iter.value;
             && 0 < p <= i < |items| - 1 && r.s.queues[k] == items[..p] + items[p + 1..]
             && Runnable(w.s.procs, items[i]) && r.s.procs == w.s.procs[items[i] := Aged(w.s.procs[items[i]])]
    ensures Hung(r, k)
  {
    CutEnds(w.s.queues[k], p);
  }

  // ---- walks that end

  lemma Stops(s: Sched, k: nat, n: nat, w: Walk)
    requires WellFormed(s) && k < MAX_PRIORITY && w == Rounds(Enter(s, k), k, n) && (w.over || w.iter.None?)
    ensures Ends(s, k)
  {
    if w.over {
      WalkEnds(s, k, n, w);
    } else {
      WalkOver(s, k, n, w);
    }
  }

  lemma RoundToLast(w: Walk, k: nat)
    requires Walking(w, k) && LastWaits(w, k)
    ensures var r := Round(w, k);
            Walking(r, k) ==> LastWaits(r, k) && |r.s.queues[k]| - r.iter.value < |w.s.queues[k]| - w.iter.value
  {
    var items, i := w.s.queues[k], w.iter.value;
    if !Runnable(w.s.procs, items[i]) {
      RoundSkips(w, k);
    } else if Due(w.s.procs[items[i]]) {
      RoundRemoves(w, k);
    } else {
      RoundAges(w, k);
    }
  }

  /** A process that is due leaves, and unless it was met at the end the last one is now one nearer. */
  lemma RoundRemoves(w: Walk, k: nat)
    requires Walking(w, k)
    requires var x := w.s.queues[k][w.iter.value]; Runnable(w.s.procs, x) && Due(w.s.procs[x])
    ensures var items, r := w.s.queues[k], Round(w, k);
            Walking(r, k) ==>
              && r.iter == w.iter && |r.s.queues[k]| == |items| - 1
              && r.s.queues[k][|items| - 2] == items[|items| - 1]
              && (forall x :: Runnable(r.s.procs, x) <==> Runnable(w.s.procs, x))
  {
    var items, i := w.s.queues[k], w.iter.value;
    RoundAges(w, k);
    RemoveIsCut(items, items[i], i);
  }

  /** The test is made at the last process. */
  lemma {:induction false} LastStops(s: Sched, k: nat, n: nat, w: Walk)
    requires WellFormed(s) && k < MAX_PRIORITY && w == Rounds(Enter(s, k), k, n)
    requires Walking(w, k) && LastWaits(w, k)
    ensures Ends(s, k)
    decreases |w.s.queues[k]| - w.iter.value
  {
    NextRound(s, k, n, w);
    RoundToLast(w, k);
    var r := Round(w, k);
    if Walking(r, k) {
      LastStops(s, k, n + 1, r);
    } else {
      Stops(s, k, n + 1, r);
    }
  }

  /** The ticks the head can still wait, and the rounds until it is met again. */
  ghost function Ticks(w: Walk, k: nat): nat
    requires Walking(w, k)
  {
    var p := w.s.procs[Head(w, k)];
    if Due(p) then 0 else AGING_THRESHOLD - p.waitTicks
  }

  ghost function Rest(w: Walk, k: nat): nat
    requires Walking(w, k)
  {
    if w.iter == Some(0) then 0 else |w.s.queues[k]| - w.iter.value
  }

  // ---- a process that stands at the front, and perhaps elsewhere in the queue too

  /** How often the first process stands in the queue. */
  ghost function Places(w: Walk, k: nat): nat
    requires Walking(w, k)
  {
    multiset(w.s.queues[k])[Head(w, k)]
  }

  /** How often it is still met before the iterator is back at the front. */
  ghost function Ahead(w: Walk, k: nat): nat
    requires Walking(w, k)
  {
    if w.iter == Some(0) then 0 else multiset(w.s.queues[k][w.iter.value..])[Head(w, k)]
  }

  /** How many ticks short of being due it is when it is next met at the front. */
  ghost function Short(w: Walk, k: nat): int
    requires Walking(w, k)
  {
    AGING_THRESHOLD - 1 - w.s.procs[Head(w, k)].waitTicks - Ahead(w, k)
  }

  /** The round takes the first process, at some place of its own, when it is due. */
  ghost predicate TakesHead(w: Walk, k: nat)
    requires Walking(w, k)
  {
    w.s.queues[k][w.iter.value] == Head(w, k) && Due(w.s.procs[Head(w, k)])
  }

  lemma TailCount(items: seq<nat>, i: nat, x: nat)
    requires i < |items|
    ensures multiset(items[i..])[x] == (if items[i] == x then 1 else 0) + multiset(items[i + 1..])[x]
  {
    assert items[i..] == [items[i]] + items[i + 1..];
  }

  lemma CutCount(items: seq<nat>, p: nat, i: nat, x: nat)
    requires p <= i < |items| && items[p] != x
    ensures var rest := items[..p] + items[p + 1..];
            multiset(rest)[x] == multiset(items)[x] && rest[i..] == items[i + 1..]
  {
    assert items == items[..p] + [items[p]] + items[p + 1..];
  }

  /** The walk has gone on from `w` to `r` with the same first two processes. */
  ghost predicate SameFront(w: Walk, r: Walk, k: nat) {
    && Walking(w, k) && Walking(r, k) && Head(r, k) == Head(w, k)
    && HeadWaits(r, k) && (LastWaits(r, k) <==> LastWaits(w, k))
    && (|w.s.queues[k]| > 1 && !Runnable(w.s.procs, w.s.queues[k][1]) ==>
          |r.s.queues[k]| > 1 && r.s.queues[k][1] == w.s.queues[k][1] && !Runnable(r.s.procs, r.s.queues[k][1]))
  }

  /** At the front itself: it has then to be met once more at each of its places. */
  lemma RoundAtHead(w: Walk, k: nat)
    requires Walking(w, k) && HeadWaits(w, k) && w.iter == Some(0) && !TakesHead(w, k)
    ensures var r := Round(w, k);
            Walking(r, k) ==>
              && SameFront(w, r, k) && Places(r, k) == Places(w, k) && Short(r, k) == Short(w, k) - Places(w, k)
              && Ticks(r, k) < Ticks(w, k)
  {
    RoundAges(w, k);
    TailCount(w.s.queues[k], 0, Head(w, k));
  }

  /** At another of its places. */
  lemma RoundAtPlace(w: Walk, k: nat)
    requires Walking(w, k) && HeadWaits(w, k) && w.iter != Some(0) && !TakesHead(w, k)
    requires w.s.queues[k][w.iter.value] == Head(w, k)
    ensures var r := Round(w, k);
            Walking(r, k) ==>
              SameFront(w, r, k) && Places(r, k) == Places(w, k) && Short(r, k) == Short(w, k) && Ticks(r, k) < Ticks(w, k)
  {
    RoundAges(w, k);
    TailCount(w.s.queues[k], w.iter.value, Head(w, k));
  }

  /** At a process that is not waiting. */
  lemma RoundAtIdle(w: Walk, k: nat)
    requires Walking(w, k) && HeadWaits(w, k) && !Runnable(w.s.procs, w.s.queues[k][w.iter.value])
    ensures var r := Round(w, k);
            && SameFront(w, r, k) && Places(r, k) == Places(w, k) && Short(r, k) == Short(w, k)
            && Ticks(r, k) == Ticks(w, k) && Rest(r, k) < Rest(w, k)
  {
    RoundSkips(w, k);
    TailCount(w.s.queues[k], w.iter.value, Head(w, k));
  }

  /** At another process that is not due. */
  lemma RoundAtEarly(w: Walk, k: nat)
    requires Walking(w, k) && HeadWaits(w, k) && w.s.queues[k][w.iter.value] != Head(w, k)
    requires var x := w.s.queues[k][w.iter.value]; Runnable(w.s.procs, x) && !Due(w.s.procs[x])
    ensures var r := Round(w, k);
            Walking(r, k) ==>
              && SameFront(w, r, k) && Places(r, k) == Places(w, k) && Short(r, k) == Short(w, k)
              && Ticks(r, k) == Ticks(w, k) && Rest(r, k) < Rest(w, k)
  {
    RoundAges(w, k);
    TailCount(w.s.queues[k], w.iter.value, Head(w, k));
  }

  lemma RoundAtDue(w: Walk, k: nat)
    requires Walking(w, k) && HeadWaits(w, k) && w.s.queues[k][w.iter.value] != Head(w, k)
    requires var x := w.s.queues[k][w.iter.value]; Runnable(w.s.procs, x) && Due(w.s.procs[x])
    ensures var r := Round(w, k);
            Walking(r, k) ==>
              && SameFront(w, r, k) && Places(r, k) == Places(w, k) && Short(r, k) == Short(w, k)
              && Ticks(r, k) == Ticks(w, k) && Rest(r, k) < Rest(w, k)
  {
    var p := RoundTakes(w, k);
    if Walking(Round(w, k), k) {
      WithoutOther(w, Round(w, k), k, p);
    }
  }

  lemma WithoutOther(w: Walk, r: Walk, k: nat, p: nat)
    requires Walking(w, k) && Walking(r, k) && HeadWaits(w, k)
    requires var items, i := w.s.queues[k], w.iter.value;
             && 0 < p <= i < |items| - 1 && r.iter == Some(i) && items[p] == items[i] != items[0]
             && Runnable(w.s.procs, items[i]) && r.s.queues[k] == items[..p] + items[p + 1..]
             && r.s.procs == w.s.procs[items[i] := Aged(w.s.procs[items[i]])]
    ensures SameFront(w, r, k) && Places(r, k) == Places(w, k) && Short(r, k) == Short(w, k)
    ensures Ticks(r, k) == Ticks(w, k) && Rest(r, k) < Rest(w, k)
  {
    var items, i := w.s.queues[k], w.iter.value;
    CutEnds(items, p);
    TailCount(items, i, Head(w, k));
    CutCount(items, p, i, Head(w, k));
  }

  /** At another process, which may leave the queue. */
  lemma RoundAtOther(w: Walk, k: nat)
    requires Walking(w, k) && HeadWaits(w, k) && w.s.queues[k][w.iter.value] != Head(w, k)
    requires Runnable(w.s.procs, w.s.queues[k][w.iter.value])
    ensures var r := Round(w, k);
            Walking(r, k) ==>
              && SameFront(w, r, k) && Places(r, k) == Places(w, k) && Short(r, k) == Short(w, k)
              && Ticks(r, k) == Ticks(w, k) && Rest(r, k) < Rest(w, k)
  {
    if Due(w.s.procs[w.s.queues[k][w.iter.value]]) {
      RoundAtDue(w, k);
    } else {
      RoundAtEarly(w, k);
    }
  }

  /** Unless it takes the first process, a round leaves it as far from being due at the front as it was, or, at the
      front, closer by as many ticks as it has places. */
  lemma RoundInLap(w: Walk, k: nat)
    requires Walking(w, k) && HeadWaits(w, k) && !TakesHead(w, k)
    ensures var r := Round(w, k);
            Walking(r, k) ==>
              && SameFront(w, r, k) && Places(r, k) == Places(w, k)
              && Short(r, k) == Short(w, k) - (if w.iter == Some(0) then Places(w, k) else 0)
              && (Ticks(r, k) < Ticks(w, k) || (Ticks(r, k) == Ticks(w, k) && Rest(r, k) < Rest(w, k)))
  {
    if !Runnable(w.s.procs, w.s.queues[k][w.iter.value]) {
      RoundAtIdle(w, k);
    } else if w.s.queues[k][w.iter.value] != Head(w, k) {
      RoundAtOther(w, k);
    } else if w.iter == Some(0) {
      RoundAtHead(w, k);
    } else {
      RoundAtPlace(w, k);
    }
  }

  // ---- counting in steps of `m`

  lemma AtLeastOnce(d: int, m: int)
    requires 1 <= d && 0 < m
    ensures m <= d * m
  {
    assert d * m == (d - 1) * m + m;
  }

  lemma SameRest(q: int, a: int, r: int, b: int, m: int)
    requires 0 <= a < m && 0 <= b < m && q * m + a == r * m + b
    ensures a == b
  {
    assert (r - q) * m == r * m - q * m == a - b;
    assert (q - r) * m == q * m - r * m == b - a;
    if q < r {
      AtLeastOnce(r - q, m);
    } else if r < q {
      AtLeastOnce(q - r, m);
    }
  }

  lemma OneStepLess(a: int, m: int)
    requires 0 < m
    ensures (a - m) % m == a % m
    ensures a % m == 0 && 0 < a ==> m <= a
  {
    var q, r := a / m, (a - m) / m;
    assert q * m + a % m == a && r * m + (a - m) % m == a - m;
    assert (q - 1) * m == q * m - m;
    SameRest(q - 1, a % m, r, (a - m) % m, m);
    if a % m == 0 && 0 < a && a < m {
      SameRest(q, 0, 0, a, m);
    }
  }

  // ---- in step: the first process becomes due at the front

  ghost predicate InStep(w: Walk, k: nat)
    requires Walking(w, k)
  {
    Places(w, k) > 0 && 0 <= Short(w, k) && Short(w, k) % Places(w, k) == 0
  }

  lemma RoundInStep(w: Walk, k: nat)
    requires Walking(w, k) && HeadWaits(w, k) && InStep(w, k)
    ensures var r := Round(w, k);
            Walking(r, k) ==>
              && HeadWaits(r, k) && InStep(r, k)
              && (Ticks(r, k) < Ticks(w, k) || (Ticks(r, k) == Ticks(w, k) && Rest(r, k) < Rest(w, k)))
  {
    if TakesHead(w, k) {
      TakenInStep(w, k);
    } else {
      RoundInLap(w, k);
      OneStepLess(Short(w, k), Places(w, k));
      if w.iter == Some(0) {
        assert Short(w, k) > 0;
      }
    }
  }

  /** It is taken at the front, and the walk is over. */
  lemma TakenInStep(w: Walk, k: nat)
    requires Walking(w, k) && HeadWaits(w, k) && InStep(w, k) && TakesHead(w, k)
    ensures !Walking(Round(w, k), k)
  {
    RoundAges(w, k);
    TailCount(w.s.queues[k], w.iter.value, Head(w, k));
  }

  /** Lap after lap the first process is aged, until it is due; its removal is at the front, where the test is made. */
  lemma {:induction false} HeadStops(s: Sched, k: nat, n: nat, w: Walk)
    requires WellFormed(s) && k < MAX_PRIORITY && w == Rounds(Enter(s, k), k, n)
    requires Walking(w, k) && HeadWaits(w, k) && InStep(w, k)
    ensures Ends(s, k)
    decreases Ticks(w, k), Rest(w, k)
  {
    NextRound(s, k, n, w);
    RoundInStep(w, k);
    var r := Round(w, k);
    if Walking(r, k) {
      HeadStops(s, k, n + 1, r);
    } else {
      Stops(s, k, n + 1, r);
    }
  }

  // ---- out of step: it becomes due elsewhere, and its place at the front is taken by the next

  ghost predicate OutOfStep(w: Walk, k: nat) {
    && Walking(w, k) && HeadWaits(w, k) && !LastWaits(w, k)
    && |w.s.queues[k]| > 1 && !Runnable(w.s.procs, w.s.queues[k][1])
    && Places(w, k) > 0 && Short(w, k) % Places(w, k) != 0
    && w.s.procs[Head(w, k)].waitTicks < AGING_THRESHOLD
  }

  ghost predicate Stuck(w: Walk, k: nat) {
    OutOfStep(w, k) || Hung(w, k)
  }

  lemma RoundStuck(w: Walk, k: nat)
    requires Stuck(w, k)
    ensures OnQueue(w, k) && Stuck(Round(w, k), k)
  {
    if Hung(w, k) {
      RoundHangs(w, k);
    } else if TakesHead(w, k) {
      TakenOutOfStep(w, k);
    } else {
      GoesOnOutOfStep(w, k);
      RoundInLap(w, k);
      OneStepLess(Short(w, k), Places(w, k));
    }
  }

  lemma GoesOnOutOfStep(w: Walk, k: nat)
    requires OutOfStep(w, k) && !TakesHead(w, k)
    ensures var r := Round(w, k);
            Walking(r, k) && (Head(r, k) == Head(w, k) ==> r.s.procs[Head(w, k)].waitTicks < AGING_THRESHOLD)
  {
    var items, i := w.s.queues[k], w.iter.value;
    if Runnable(w.s.procs, items[i]) {
      RoundAges(w, k);
      RemoveIsCut(items, items[i], i);
    } else {
      RoundSkips(w, k);
    }
  }

  lemma NotAtFront(w: Walk, k: nat)
    requires OutOfStep(w, k) && TakesHead(w, k)
    ensures w.iter != Some(0)
  {
  }

  /** At the front it is never due; taken elsewhere, it leaves a queue between whose ends the walk goes on for ever. */
  lemma TakenOutOfStep(w: Walk, k: nat)
    requires OutOfStep(w, k) && TakesHead(w, k)
    ensures Hung(Round(w, k), k)
  {
    var items, i := w.s.queues[k], w.iter.value;
    NotAtFront(w, k);
    TakenElsewhere(w, k);
  }

  lemma TakenElsewhere(w: Walk, k: nat)
    requires Walking(w, k) && HeadWaits(w, k) && !LastWaits(w, k) && TakesHead(w, k) && w.iter != Some(0)
    requires |w.s.queues[k]| > 1 && !Runnable(w.s.procs, w.s.queues[k][1])
    ensures Hung(Round(w, k), k)
  {
    FrontTaken(w, k);
    LeftHung(w, Round(w, k), k);
  }

  lemma FrontTaken(w: Walk, k: nat)
    requires Walking(w, k) && HeadWaits(w, k) && !LastWaits(w, k) && TakesHead(w, k) && w.iter != Some(0)
    ensures var items, r := w.s.queues[k], Round(w, k);
            && r.s.queues[k] == items[1..] && r.s.procs == w.s.procs[items[0] := Aged(w.s.procs[items[0]])]
            && r.iter == w.iter && !r.over && w.iter.value + 1 < |items|
  {
    var items := w.s.queues[k];
    RoundAges(w, k);
    assert Position(items, items[0]) == 0;
    assert Remove(items, items[0]) == items[1..];
  }

  lemma LeftHung(w: Walk, r: Walk, k: nat)
    requires Walking(w, k) && Walking(r, k) && HeadWaits(w, k) && !LastWaits(w, k)
    requires |w.s.queues[k]| > 1 && !Runnable(w.s.procs, w.s.queues[k][1])
    requires r.s.queues[k] == w.s.queues[k][1..] && r.s.procs == w.s.procs[Head(w, k) := Aged(w.s.procs[Head(w, k)])]
    ensures Hung(r, k)
  {
  }

  /** However many rounds follow, the walk is not over. */
  lemma {:induction false} StaysStuck(s: Sched, k: nat, n: nat, w: Walk, last: nat)
    requires WellFormed(s) && k < MAX_PRIORITY && w == Rounds(Enter(s, k), k, n) && Stuck(w, k) && n <= last
    ensures !Rounds(Enter(s, k), k, last).over
    decreases last - n
  {
    if n < last {
      NextRound(s, k, n, w);
      RoundStuck(w, k);
      StaysStuck(s, k, n + 1, Round(w, k), last);
    }
  }

  // ---- when the loop leaves a queue

  predicate FirstWaits(s: Sched, k: nat)
    requires k < |s.queues|
  {
    s.queues[k] != [] && Runnable(s.procs, s.queues[k][0])
  }

  predicate FinalWaits(s: Sched, k: nat)
    requires k < |s.queues|
  {
    s.queues[k] != [] && Runnable(s.procs, s.queues[k][|s.queues[k]| - 1])
  }

  /** The first process of queue `k` is due, or becomes due after whole laps when each of its places ages it once. */
  ghost predicate InTime(s: Sched, k: nat)
    requires k < |s.queues| && FirstWaits(s, k)
  {
    var x := s.queues[k][0];
    Due(s.procs[x]) || (AGING_THRESHOLD - 1 - s.procs[x].waitTicks) % multiset(s.queues[k])[x] == 0
  }

  /** What lets the aging loop leave queue `k`. */
  ghost predicate Leaves(s: Sched, k: nat)
    requires k < |s.queues|
  {
    s.queues[k] == [] || FinalWaits(s, k) || (FirstWaits(s, k) && InTime(s, k))
  }

  /** The first process does not become due out of time in front of another that waits. */
  ghost predicate Plain(s: Sched, k: nat)
    requires k < |s.queues|
  {
    FirstWaits(s, k) && !FinalWaits(s, k) ==> InTime(s, k) || !Runnable(s.procs, s.queues[k][1])
  }

  lemma LateHangs(s: Sched, k: nat)
    requires WellFormed(s) && k < MAX_PRIORITY && !Leaves(s, k) && Plain(s, k)
    ensures !Ends(s, k)
  {
    var w := Enter(s, k);
    assert FirstWaits(s, k) ==> Head(w, k) in multiset(s.queues[k]);
    forall n: nat ensures !Rounds(w, k, n).over {
      StaysStuck(s, k, 0, w, n);
    }
  }

  lemma DueStops(s: Sched, k: nat)
    requires WellFormed(s) && k < MAX_PRIORITY && FirstWaits(s, k) && Due(s.procs[s.queues[k][0]])
    ensures Ends(s, k)
  {
    var w := Enter(s, k);
    NextRound(s, k, 0, w);
    RoundAges(w, k);
    Stops(s, k, 1, Round(w, k));
  }

  /** The aging loop leaves an empty queue, one whose last process waits to run, and one whose first process waits and
      becomes due in time. It leaves no other queue, unless the first process becomes due elsewhere and the next one
      waits, too. */
  lemma PassEndsExactly(s: Sched, k: nat)
    requires WellFormed(s) && k < MAX_PRIORITY
    ensures Leaves(s, k) ==> Ends(s, k)
    ensures Plain(s, k) ==> (Ends(s, k) <==> Leaves(s, k))
  {
    var w := Enter(s, k);
    if s.queues[k] == [] {
      WalkOver(s, k, 0, w);
    } else if FinalWaits(s, k) {
      LastStops(s, k, 0, w);
    } else if FirstWaits(s, k) && InTime(s, k) {
      if Due(s.procs[s.queues[k][0]]) {
        DueStops(s, k);
      } else {
        assert Head(w, k) in multiset(s.queues[k]);
        HeadStops(s, k, 0, w);
      }
    } else if Plain(s, k) {
      LateHangs(s, k);
    }
  }

  // ---- how long the loop can take

  /** The rounds left, at most, over a queue of no more than `size` processes; 0 when the walk goes on for ever. The
      factor is one more than the ticks that a process can still wait. */
  ghost function Fuel(w: Walk, k: nat, size: nat): nat
    requires Walking(w, k)
  {
    var n := |w.s.queues[k]|;
    if HeadWaits(w, k) then (51 * n + Ticks(w, k)) * (size + 1) + Rest(w, k)
    else if LastWaits(w, k) then n - w.iter.value
    else 0
  }

  lemma Before(a: nat, b: nat, c: nat, d: nat, size: nat)
    requires a < b && c <= size
    ensures a * (size + 1) + c < b * (size + 1) + d
  {
    assert a * (size + 1) + (size + 1) == (a + 1) * (size + 1) <= b * (size + 1);
  }

  /** A round takes at most one process out of the queue, and the first one if that is due. */
  lemma RoundShrinks(w: Walk, k: nat)
    requires Walking(w, k)
    ensures var n, m := |w.s.queues[k]|, |Round(w, k).s.queues[k]|; m == n || m + 1 == n
    ensures TakesHead(w, k) && HeadWaits(w, k) ==> |Round(w, k).s.queues[k]| < |w.s.queues[k]|
  {
    if Runnable(w.s.procs, w.s.queues[k][w.iter.value]) {
      RoundAges(w, k);
      RemoveIsCut(w.s.queues[k], w.s.queues[k][w.iter.value], w.iter.value);
    } else {
      RoundSkips(w, k);
    }
  }

  lemma HeadBurns(w: Walk, k: nat, size: nat)
    requires Walking(w, k) && HeadWaits(w, k) && |w.s.queues[k]| <= size
    ensures var r := Round(w, k); Walking(r, k) && !Hung(r, k) ==> Fuel(r, k, size) < Fuel(w, k, size)
  {
    var r := Round(w, k);
    RoundShrinks(w, k);
    if !TakesHead(w, k) {
      RoundInLap(w, k);
    }
    if Walking(r, k) && HeadWaits(r, k) {
      FuelFalls(w, r, k, size);
    } else if Walking(r, k) && LastWaits(r, k) {
      Before(0, 51 * |w.s.queues[k]| + Ticks(w, k), |r.s.queues[k]| - r.iter.value, Rest(w, k), size);
    }
  }

  lemma FuelFalls(w: Walk, r: Walk, k: nat, size: nat)
    requires Walking(w, k) && HeadWaits(w, k) && Walking(r, k) && HeadWaits(r, k) && |w.s.queues[k]| <= size
    requires var n, m := |w.s.queues[k]|, |r.s.queues[k]|;
             || m < n
             || (m == n && (Ticks(r, k) < Ticks(w, k) || (Ticks(r, k) == Ticks(w, k) && Rest(r, k) < Rest(w, k))))
    ensures Fuel(r, k, size) < Fuel(w, k, size)
  {
    var a, b := 51 * |r.s.queues[k]| + Ticks(r, k), 51 * |w.s.queues[k]| + Ticks(w, k);
    if a < b {
      Before(a, b, Rest(r, k), Rest(w, k), size);
    }
  }

  lemma LastBurns(w: Walk, k: nat, size: nat)
    requires Walking(w, k) && !HeadWaits(w, k) && LastWaits(w, k) && |w.s.queues[k]| <= size
    ensures var r := Round(w, k); Walking(r, k) && !Hung(r, k) ==> Fuel(r, k, size) < Fuel(w, k, size)
  {
    RoundToLast(w, k);
    HeadNeverWaits(w, k);
  }

  lemma HeadNeverWaits(w: Walk, k: nat)
    requires Walking(w, k) && !HeadWaits(w, k)
    ensures Walking(Round(w, k), k) ==> !HeadWaits(Round(w, k), k)
  {
    var items, i := w.s.queues[k], w.iter.value;
    if Runnable(w.s.procs, items[i]) {
      RoundAges(w, k);
      RemoveIsCut(items, items[i], i);
    } else {
      RoundSkips(w, k);
    }
  }

  lemma HungForever(s: Sched, k: nat, n: nat, w: Walk)
    requires WellFormed(s) && k < MAX_PRIORITY && w == Rounds(Enter(s, k), k, n) && Hung(w, k)
    ensures !Ends(s, k)
  {
    forall m: nat ensures !Rounds(Enter(s, k), k, m).over {
      if n <= m {
        StaysStuck(s, k, n, w, m);
      } else if Rounds(Enter(s, k), k, m).over {
        StaysOver(Enter(s, k), k, m, n);
      }
    }
  }

  lemma OverAt(s: Sched, k: nat, n: nat, w: Walk, last: nat)
    requires WellFormed(s) && k < MAX_PRIORITY && w == Rounds(Enter(s, k), k, n) && w.over && n <= last
    ensures Rounds(Enter(s, k), k, last).over
  {
    StaysOver(Enter(s, k), k, n, last);
  }

  lemma OverBy(s: Sched, k: nat, n: nat, w: Walk, last: nat)
    requires WellFormed(s) && k < MAX_PRIORITY && w == Rounds(Enter(s, k), k, n) && (w.over || w.iter.None?) && n < last
    ensures Rounds(Enter(s, k), k, last).over
  {
    NextRound(s, k, n, w);
    OverAt(s, k, n + 1, Round(w, k), last);
  }

  lemma {:induction false} OverOrNever(s: Sched, k: nat, n: nat, w: Walk, size: nat, last: nat)
    requires WellFormed(s) && k < MAX_PRIORITY && w == Rounds(Enter(s, k), k, n)
    requires Walking(w, k) && !Hung(w, k) && |w.s.queues[k]| <= size && n + Fuel(w, k, size) + 1 < last
    ensures Rounds(Enter(s, k), k, last).over || !Ends(s, k)
    decreases Fuel(w, k, size)
  {
    NextRound(s, k, n, w);
    var r := Round(w, k);
    RoundShrinks(w, k);
    if HeadWaits(w, k) {
      HeadBurns(w, k, size);
    } else {
      LastBurns(w, k, size);
    }
    if !Walking(r, k) {
      OverBy(s, k, n + 1, r, last);
    } else if Hung(r, k) {
      HungForever(s, k, n + 1, r);
    } else {
      OverOrNever(s, k, n + 1, r, size, last);
    }
  }

  /** Rounds enough to tell. */
  function Limit(s: Sched, k: nat): nat
    requires k < |s.queues|
  {
    (51 * |s.queues[k]| + 51) * (|s.queues[k]| + 1) + |s.queues[k]| + 2
  }

  /** For every queue: the loop leaves it within that many rounds, or never. */
  lemma PassEndsInTime(s: Sched, k: nat)
    requires WellFormed(s) && k < MAX_PRIORITY
    ensures Ends(s, k) <==> Rounds(Enter(s, k), k, Limit(s, k)).over
  {
    var w := Enter(s, k);
    if s.queues[k] == [] {
      OverBy(s, k, 0, w, Limit(s, k));
    } else if Hung(w, k) {
      HungForever(s, k, 0, w);
    } else {
      EnterFuel(s, k);
      OverOrNever(s, k, 0, w, |s.queues[k]|, Limit(s, k));
    }
  }

  lemma EnterFuel(s: Sched, k: nat)
    requires WellFormed(s) && k < MAX_PRIORITY && s.queues[k] != []
    ensures Fuel(Enter(s, k), k, |s.queues[k]|) + 1 < Limit(s, k)
  {
    var n, w := |s.queues[k]|, Enter(s, k);
    if HeadWaits(w, k) {
      Before(51 * n + Ticks(w, k), 51 * n + 51, 0, 0, n);
    }
  }

  // ---- when the timer interrupt returns

  predicate HeadOnce(items: seq<nat>) {
    forall j :: 0 < j < |items| ==> items[j] != items[0]
  }

  /** Empty, or its first or its last process waits to run. */
  predicate Open(s: Sched, k: nat)
    requires k < |s.queues|
  {
    s.queues[k] == [] || FirstWaits(s, k) || FinalWaits(s, k)
  }

  lemma OncePlaced(items: seq<nat>)
    requires items != [] && HeadOnce(items)
    ensures multiset(items)[items[0]] == 1
  {
    assert items == [items[0]] + items[1..];
    assert items[0] !in items[1..];
  }

  lemma OnceEnds(s: Sched, k: nat)
    requires WellFormed(s) && k < MAX_PRIORITY
    ensures !Open(s, k) ==> !Ends(s, k)
    ensures HeadOnce(s.queues[k]) ==> (Ends(s, k) <==> Open(s, k))
  {
    PassEndsExactly(s, k);
    if s.queues[k] != [] && HeadOnce(s.queues[k]) {
      OncePlaced(s.queues[k]);
    }
  }

  /** Another queue looks the same, and the same processes wait to run. */
  ghost predicate Beside(s: Sched, t: Sched, j: nat) {
    && WellFormed(s) && WellFormed(t)
    && (forall k :: 0 <= k < MAX_PRIORITY && k != j ==> t.queues[k] == s.queues[k])
    && (forall x :: Runnable(t.procs, x) <==> Runnable(s.procs, x))
  }

  lemma RoundBeside(w: Walk, j: nat)
    requires OnQueue(w, j)
    ensures Beside(w.s, Round(w, j).s, j)
  {
  }

  lemma {:induction false} RoundsBeside(s: Sched, j: nat, n: nat) returns (w: Walk)
    requires WellFormed(s) && j < MAX_PRIORITY
    ensures w == Rounds(Enter(s, j), j, n) && Beside(s, w.s, j)
  {
    if n == 0 {
      return Enter(s, j);
    }
    var v := RoundsBeside(s, j, n - 1);
    NextRound(s, j, n - 1, v);
    RoundBeside(v, j);
    return Round(v, j);
  }

  lemma PassBeside(s: Sched, j: nat)
    requires WellFormed(s) && j < MAX_PRIORITY
    ensures Beside(s, AgeQueue(s, j), j)
  {
    if Ends(s, j) {
      var n: nat :| Rounds(Enter(s, j), j, n).over;
      var w := RoundsBeside(s, j, n);
      WalkEnds(s, j, n, w);
    }
  }

  /** The passes below a queue leave it as it is. */
  lemma {:induction false} PassesBelow(s: Sched, n: nat, k: nat) returns (a: Sched)
    requires WellFormed(s) && n <= k < MAX_PRIORITY
    ensures a == AgeBelow(s, n) && WellFormed(a) && a.queues[k] == s.queues[k]
    ensures forall x :: Runnable(a.procs, x) <==> Runnable(s.procs, x)
  {
    if n == 0 {
      return s;
    }
    var b := PassesBelow(s, n - 1, k);
    PassBeside(b, n - 1);
    return AgeQueue(b, n - 1);
  }

  /** The timer interrupt returns exactly when each lower queue is empty or its first or its last process waits to run,
      provided that no first process stands in its queue twice. Even so, it does not when one queue is otherwise. */
  lemma TimerReturnsExactly(s: Sched)
    requires WellFormed(s)
    ensures (exists k :: 0 <= k < MAX_PRIORITY && !Open(s, k)) ==> !AgingEnds(s)
    ensures (forall k :: 0 <= k < MAX_PRIORITY ==> HeadOnce(s.queues[k])) ==>
              (AgingEnds(s) <==> forall k :: 0 <= k < MAX_PRIORITY ==> Open(s, k))
  {
    forall k | 0 <= k < MAX_PRIORITY
      ensures !Open(s, k) ==> !Ends(AgeBelow(s, k), k)
      ensures HeadOnce(s.queues[k]) ==> (Ends(AgeBelow(s, k), k) <==> Open(s, k))
    {
      var a := PassesBelow(s, k, k);
      OnceEnds(a, k);
      assert Open(a, k) <==> Open(s, k);
    }
  }
}

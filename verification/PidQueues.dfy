/** Queues of pids as sequences without repetition. */
module PidQueues {
  import opened SchedulerSpec

  lemma RemoveEffect(items: seq<nat>, x: nat)
    requires Distinct(items)
    ensures Distinct(Remove(items, x))
    ensures forall y :: y in Remove(items, x) <==> y in items && y != x
  {
    var i, rest := Position(items, x), Remove(items, x);
    if i < |items| {
      forall y | y in items && y != x ensures y in rest {
        var j :| 0 <= j < |items| && items[j] == y;
        assert rest[if j < i then j else j - 1] == y;
      }
    }
  }

  lemma RemoveKeeps(items: seq<nat>, x: nat)
    ensures forall y :: y in Remove(items, x) ==> y in items
  {
  }

  lemma AppendDistinct(items: seq<nat>, more: seq<nat>)
    requires Distinct(items) && Distinct(more) && forall x :: x in items ==> x !in more
    ensures Distinct(items + more)
  {
    forall i, j | 0 <= i < |items| <= j < |items + more| ensures (items + more)[i] != (items + more)[j] {
      assert items[i] in items && more[j - |items|] in more;
    }
  }

  lemma SliceDistinct(items: seq<nat>, n: nat)
    requires Distinct(items) && n <= |items|
    ensures Distinct(items[..n]) && Distinct(items[n..])
    ensures forall x :: x in items[..n] ==> x !in items[n..]
    ensures forall x :: x in items <==> x in items[..n] || x in items[n..]
  {
    assert items == items[..n] + items[n..];
  }

  lemma PositionAppend(items: seq<nat>, more: seq<nat>, x: nat)
    requires x in items
    ensures Position(items + more, x) == Position(items, x) < |items|
  {
    var i, j := Position(items, x), Position(items + more, x);
    assert i < |items| ==> (items + more)[i] == x;
    assert j < |items| ==> items[j] == x;
  }

  lemma NotBefore(items: seq<nat>, n: nat)
    requires Distinct(items) && n < |items|
    ensures items[n] !in items[..n] && items[n] !in items[n + 1..]
  {
  }

  lemma PositionLast(items: seq<nat>, x: nat)
    requires x !in items
    ensures Position(items + [x], x) == |items|
  {
    assert (items + [x])[|items|] == x;
  }
}

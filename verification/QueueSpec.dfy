/** The kernel's queue on values: the stored elements in order, and where its cyclic iterator stands. */
module QueueSpec {
  import opened Basics

  datatype Q<T> = Q(items: seq<T>, iter: Option<nat>)

  predicate WellFormed<T>(q: Q<T>) {
    q.iter.Some? ==> q.iter.value < |q.items|
  }

  /** The first position whose element compares equal to `x`; |items| when there is none. */
  function FirstMatch<T>(items: seq<T>, cmp: (T, T) -> int, x: T): (k: nat)
    ensures k <= |items|
    ensures k < |items| ==> cmp(items[k], x) == 0
    ensures forall i :: 0 <= i < k ==> cmp(items[i], x) != 0
  {
    if items == [] || cmp(items[0], x) == 0 then 0 else FirstMatch(items[1..], cmp, x) + 1
  }

  ghost predicate Contains<T>(items: seq<T>, cmp: (T, T) -> int, x: T) {
    exists i :: 0 <= i < |items| && cmp(items[i], x) == 0
  }

  lemma FirstMatchFinds<T>(items: seq<T>, cmp: (T, T) -> int, x: T)
    ensures FirstMatch(items, cmp, x) < |items| <==> Contains(items, cmp, x)
  {
    var k := FirstMatch(items, cmp, x);
    assert k < |items| ==> cmp(items[k], x) == 0;
  }

  function Enqueue<T>(q: Q<T>, x: T): Q<T> {
    q.(items := q.items + [x])
  }

  /** Drop position `k`. An iterator standing there moves to the element that follows, or off the queue at its end. */
  function DropAt<T>(q: Q<T>, k: nat): Q<T>
    requires k < |q.items|
  {
    Q(q.items[..k] + q.items[k + 1..],
      match q.iter
      case None => None
      case Some(i) => if i < k then Some(i) else if k < i then Some(i - 1) else if k + 1 < |q.items| then Some(k) else None)
  }

  function Dequeue<T>(q: Q<T>): Q<T> {
    if q.items == [] then q else DropAt(q, 0)
  }

  function Remove<T>(q: Q<T>, cmp: (T, T) -> int, x: T): Q<T> {
    var k := FirstMatch(q.items, cmp, x);
    if k == |q.items| then q else DropAt(q, k)
  }

  function Begin<T>(q: Q<T>): Q<T> {
    if q.items == [] then q else q.(iter := Some(0))
  }

  function Advance<T>(q: Q<T>): Q<T>
    requires WellFormed(q)
  {
    match q.iter
    case None => q
    case Some(i) => q.(iter := Some(if i + 1 < |q.items| then i + 1 else 0))
  }

  predicate Looped<T>(q: Q<T>) {
    q.iter == Some(0)
  }

  // ---- what any mix of operations preserves

  lemma DropKeeps<T>(q: Q<T>, k: nat)
    requires WellFormed(q) && k < |q.items|
    ensures WellFormed(DropAt(q, k)) && |DropAt(q, k).items| == |q.items| - 1
    ensures q.iter.Some? && DropAt(q, k).iter.Some? && q.iter.value != k ==>
              DropAt(q, k).items[DropAt(q, k).iter.value] == q.items[q.iter.value]
  {
  }

  /** An iterator on the element that goes moves on to the next one, or off the queue when there is none. */
  lemma DropUnder<T>(q: Q<T>, k: nat)
    requires q.iter == Some(k) && k < |q.items|
    ensures var r := DropAt(q, k);
            && (k + 1 < |q.items| ==>
                  r.iter.Some? && r.iter.value < |r.items| && r.items[r.iter.value] == q.items[k + 1])
            && (k + 1 == |q.items| ==> r.iter == None)
  {
  }

  /** Whatever goes, the others stay in order. */
  lemma DropOne<T>(q: Q<T>, k: nat)
    requires k < |q.items|
    ensures var r := DropAt(q, k).items;
            |r| + 1 == |q.items| && r[..k] == q.items[..k] && r[k..] == q.items[k + 1..]
  {
  }

  /** The head is what a dequeue takes, and the iterator leaves it for the next element. */
  lemma DequeueTakesHead<T>(q: Q<T>)
    requires WellFormed(q) && q.items != []
    ensures q.items == [q.items[0]] + Dequeue(q).items && WellFormed(Dequeue(q))
    ensures q.iter == Some(0) ==> Dequeue(q).iter == (if |q.items| > 1 then Some(0) else None)
    ensures q.iter.Some? && q.iter != Some(0) ==> Dequeue(q).iter == Some(q.iter.value - 1)
    ensures q.iter == None ==> Dequeue(q).iter == None
  {
  }

  /** After `n` steps from the front the iterator has shown exactly the first `n` elements and, at n = |items|, is back. */
  function AdvanceN<T>(q: Q<T>, n: nat): Q<T>
    requires WellFormed(q)
    ensures WellFormed(AdvanceN(q, n)) && AdvanceN(q, n).items == q.items
  {
    if n == 0 then q else Advance(AdvanceN(q, n - 1))
  }

  lemma {:induction false} FullTurn<T>(q: Q<T>, n: nat)
    requires q.items != [] && n <= |q.items|
    ensures AdvanceN(Begin(q), n).iter == Some(if n == |q.items| then 0 else n)
    ensures Looped(AdvanceN(Begin(q), n)) <==> n == 0 || n == |q.items|
  {
    if n != 0 {
      FullTurn(q, n - 1);
    }
  }

  /** A search by the iterator leaves it behind the first match or, having shown every element, back at the front. */
  function AfterSearch<T>(q: Q<T>, cmp: (T, T) -> int, x: T): Q<T>
  {
    var k := FirstMatch(q.items, cmp, x);
    if q.items == [] then q else q.(iter := Some(if k + 1 < |q.items| then k + 1 else 0))
  }

  /** It is where that many steps from the front lead: past the match, or once round. */
  lemma SearchStops<T>(q: Q<T>, cmp: (T, T) -> int, x: T)
    requires WellFormed(q) && q.items != []
    ensures var k := FirstMatch(q.items, cmp, x);
            AfterSearch(q, cmp, x) == AdvanceN(Begin(q), if k < |q.items| then k + 1 else k)
  {
    var k := FirstMatch(q.items, cmp, x);
    FullTurn(q, if k < |q.items| then k + 1 else k);
  }

  /** A removal undoes the last insertion of an element that compares equal to nothing already stored. */
  lemma RemoveUndoesEnqueue<T>(q: Q<T>, cmp: (T, T) -> int, x: T)
    requires WellFormed(q) && cmp(x, x) == 0 && forall i :: 0 <= i < |q.items| ==> cmp(q.items[i], x) != 0
    ensures Remove(Enqueue(q, x), cmp, x) == q
  {
    var k := FirstMatch(q.items + [x], cmp, x);
    assert (q.items + [x])[|q.items|] == x;
    assert k == |q.items|;
  }

  /** First in, first out: an element is dequeued after exactly the elements that were in front of it. */
  lemma {:induction false} FifoOrder<T>(q: Q<T>, x: T, n: nat)
    requires n <= |q.items|
    ensures DequeueN(Enqueue(q, x), n).items == q.items[n..] + [x]
  {
    if n != 0 {
      FifoOrder(q, x, n - 1);
      assert (q.items[n - 1..] + [x])[1..] == q.items[n..] + [x];
    } else {
      assert q.items[0..] == q.items;
    }
  }

  function DequeueN<T>(q: Q<T>, n: nat): Q<T> {
    if n == 0 then q else Dequeue(DequeueN(q, n - 1))
  }
}

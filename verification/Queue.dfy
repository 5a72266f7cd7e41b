/** QueueADT: a singly linked queue with a cyclic iterator that survives removals. Every operation is proved
    to do to the chain of nodes what the specification does to a sequence. */
module Queue {
  import opened Basics
  import QS = QueueSpec

  class Node<T> {
    var next: Node?<T>
    const data: T

    constructor (x: T)
      ensures data == x && next == null
    {
      data, next := x, null;
    }
  }

  class Queue<T> {
    var head: Node?<T>
    var tail: Node?<T>
    var cyclicIter: Node?<T>
    var elemCount: nat
    const cmp: (T, T) -> int
    /** The chain from head to tail, and the position of the iterator in it. */
    ghost var nodes: seq<Node<T>>
    ghost var iter: Option<nat>

    ghost predicate Valid()
      reads this, nodes
    {
      && elemCount == |nodes|
      && Distinct(nodes)
      && Linked(nodes)
      && head == First(nodes)
      && tail == Last(nodes)
      && IterAt(cyclicIter, nodes, iter)
    }

    static ghost predicate Distinct(chain: seq<Node<T>>) {
      forall i, j :: 0 <= i < j < |chain| ==> chain[i] != chain[j]
    }

    static ghost function First(chain: seq<Node<T>>): Node?<T> {
      if |chain| == 0 then null else chain[0]
    }

    static ghost function Last(chain: seq<Node<T>>): Node?<T> {
      if |chain| == 0 then null else chain[|chain| - 1]
    }

    static ghost predicate Linked(chain: seq<Node<T>>)
      reads chain
    {
      forall i {:trigger chain[i].next} :: 0 <= i < |chain| ==>
        chain[i].next == if i + 1 < |chain| then chain[i + 1] else null
    }

    static ghost predicate IterAt(p: Node?<T>, chain: seq<Node<T>>, spot: Option<nat>) {
      match spot
      case None => p == null
      case Some(i) => i < |chain| && p == chain[i]
    }

    static ghost function Data(nodes: seq<Node<T>>): (items: seq<T>)
      ensures |items| == |nodes|
      ensures forall i {:trigger items[i]} {:trigger nodes[i]} :: 0 <= i < |nodes| ==> items[i] == nodes[i].data
    {
      seq(|nodes|, i requires 0 <= i < |nodes| => nodes[i].data)
    }

    ghost function Abs(): QS.Q<T>
      reads this
    {
      QS.Q(Data(nodes), iter)
    }

    constructor (compare: (T, T) -> int)
      ensures Valid() && Abs() == QS.Q([], None) && cmp == compare && fresh(nodes)
    {
      head, tail, cyclicIter, elemCount := null, null, null, 0;
      cmp := compare;
      nodes, iter := [], None;
    }

    method Enqueue(x: T)
      requires Valid()
      modifies this, nodes
      ensures Valid() && Abs() == QS.Enqueue(old(Abs()), x)
      ensures fresh(set n | n in nodes && n !in old(nodes))
    {
      var node := new Node(x);
      if head == null {
        tail := node;
        head := node;
      } else {
        tail.next := node;
        tail := node;
      }
      elemCount := elemCount + 1;
      nodes := nodes + [node];
    }

    method Dequeue() returns (r: Option<T>)
      requires Valid()
      modifies this
      ensures Valid()
      ensures Abs() == QS.Dequeue(old(Abs()))
      ensures r == if old(Abs()).items == [] then None else Some(old(Abs()).items[0])
      ensures forall n :: n in nodes ==> n in old(nodes)
    {
      if head == null { return None; }
      ghost var rest := Without(nodes, 0);
      ghost var spot := QS.DropAt(Abs(), 0).iter;
      IterWithout(nodes, rest, 0, cyclicIter, iter);
      BehindHead(nodes, rest);
      var temp := head;
      if cyclicIter != null && cyclicIter == head {
        cyclicIter := head.next;
      }
      head := head.next;
      if head == null {
        tail := null;
        cyclicIter := null;
      }
      elemCount := elemCount - 1;
      nodes, iter := rest, spot;
      assert Linked(rest);
      assert IterAt(cyclicIter, rest, spot);
      return Some(temp.data);
    }

    /** Unlinks the first node that compares equal to `x`. */
    method QueueRemove(x: T) returns (removed: bool)
      requires Valid()
      modifies this, nodes
      ensures Valid() && Abs() == QS.Remove(old(Abs()), cmp, x)
      ensures removed <==> QS.Contains(old(Abs()).items, cmp, x)
      ensures forall n :: n in nodes ==> n in old(nodes)
    {
      ghost var items := Abs().items;
      QS.FirstMatchFinds(items, cmp, x);
      var current, prev: Node?<T> := head, null;
      ghost var k := 0;
      while current != null
        invariant 0 <= k <= |nodes| && nodes == old(nodes)
        invariant current == if k < |nodes| then nodes[k] else null
        invariant prev == if k == 0 then null else nodes[k - 1]
        invariant forall i :: 0 <= i < k ==> cmp(items[i], x) != 0
        decreases |nodes| - k
      {
        if cmp(current.data, x) == 0 {
          MatchAt(items, k, x);
          Unlink(prev, current, k);
          return true;
        }
        prev := current;
        current := current.next;
        k := k + 1;
      }
      return false;
    }

    lemma MatchAt(items: seq<T>, k: nat, x: T)
      requires k < |items| && cmp(items[k], x) == 0 && forall i :: 0 <= i < k ==> cmp(items[i], x) != 0
      ensures QS.FirstMatch(items, cmp, x) == k
    {
    }

    static ghost predicate IsWithout(rest: seq<Node<T>>, chain: seq<Node<T>>, k: nat) {
      && |rest| == |chain| - 1
      && forall i {:trigger rest[i]} :: 0 <= i < |rest| ==> rest[i] == chain[if i < k then i else i + 1]
    }

    lemma Without(chain: seq<Node<T>>, k: nat) returns (rest: seq<Node<T>>)
      requires k < |chain|
      ensures IsWithout(rest, chain, k)
      ensures Data(rest) == Data(chain)[..k] + Data(chain)[k + 1..]
      ensures forall n :: n in rest ==> n in chain
    {
      rest := chain[..k] + chain[k + 1..];
    }

    lemma IterWithout(chain: seq<Node<T>>, rest: seq<Node<T>>, k: nat, p: Node?<T>, spot: Option<nat>)
      requires k < |chain| && Distinct(chain) && IsWithout(rest, chain, k) && IterAt(p, chain, spot)
      ensures IterAt(if p == chain[k] then if k < |rest| then rest[k] else null else p,
                     rest, QS.DropAt(QS.Q(Data(chain), spot), k).iter)
    {
    }

    lemma BehindHead(chain: seq<Node<T>>, rest: seq<Node<T>>)
      requires |chain| > 0 && Distinct(chain) && Linked(chain) && IsWithout(rest, chain, 0)
      ensures Distinct(rest) && Linked(rest) && chain[0].next == First(rest)
      ensures Last(rest) == if |rest| == 0 then null else Last(chain)
    {
    }

    /** Takes node `k` out of the chain; `prev` is the node in front of it, if any. */
    method Unlink(prev: Node?<T>, current: Node<T>, ghost k: nat)
      requires Valid() && k < |nodes| && current == nodes[k] && prev == if k == 0 then null else nodes[k - 1]
      modifies this, nodes
      ensures Valid()
      ensures Abs() == QS.DropAt(old(Abs()), k)
      ensures forall n :: n in nodes ==> n in old(nodes)
    {
      ghost var rest := Without(nodes, k);
      ghost var spot := QS.DropAt(Abs(), k).iter;
      IterWithout(nodes, rest, k, cyclicIter, iter);
      Bypass(prev, current, k, rest);
      if cyclicIter != null && cyclicIter == current {
        cyclicIter := current.next;
      }
      elemCount := elemCount - 1;
      nodes, iter := rest, spot;
      assert Linked(rest);
      assert IterAt(cyclicIter, rest, spot);
    }

    method Bypass(prev: Node?<T>, current: Node<T>, ghost k: nat, ghost rest: seq<Node<T>>)
      requires Distinct(nodes) && Linked(nodes) && head == First(nodes) && tail == Last(nodes)
      requires k < |nodes| && current == nodes[k] && prev == if k == 0 then null else nodes[k - 1]
      requires IsWithout(rest, nodes, k)
      modifies `head, `tail, nodes
      ensures Distinct(rest) && Linked(rest) && head == First(rest) && tail == Last(rest)
      ensures current.next == if k < |rest| then rest[k] else null
    {
      assert current.next == if k < |rest| then rest[k] else null;
      assert current == tail <==> k == |rest|;
      if prev == null {
        head := current.next;
      } else {
        prev.next := current.next;
      }
      if current == tail {
        tail := prev;
      }
    }

    method QueuePeek() returns (r: Option<T>)
      requires Valid()
      ensures r == if Abs().items == [] then None else Some(Abs().items[0])
    {
      if head == null { return None; }
      return Some(head.data);
    }

    method QueueSize() returns (n: nat)
      requires Valid()
      ensures n == |Abs().items|
    {
      n := elemCount;
    }

    method QueueBeginCyclicIter() returns (started: bool)
      requires Valid()
      modifies `cyclicIter, `iter
      ensures Valid() && Abs() == QS.Begin(old(Abs()))
      ensures started <==> Abs().items != []
    {
      if head == null { return false; }
      cyclicIter, iter := head, Some(0);
      return true;
    }

    method QueueNextCyclicIter() returns (r: Option<T>)
      requires Valid()
      modifies `cyclicIter, `iter
      ensures Valid() && QS.WellFormed(old(Abs())) && Abs() == QS.Advance(old(Abs()))
      ensures r == if old(Abs()).iter.None? then None else Some(old(Abs()).items[old(Abs()).iter.value])
    {
      if cyclicIter == null { return None; }
      r := Some(cyclicIter.data);
      ghost var i := iter.value;
      assert nodes[i].next == if i + 1 < |nodes| then nodes[i + 1] else null;
      if cyclicIter.next == null {
        cyclicIter, iter := head, Some(0);
      } else {
        cyclicIter, iter := cyclicIter.next, Some(i + 1);
      }
    }

    method QueueCyclicIterLooped() returns (looped: bool)
      requires Valid()
      ensures looped <==> QS.Looped(Abs())
    {
      looped := cyclicIter != null && cyclicIter == head;
    }

    /** Searches with the cyclic iterator, which it leaves behind the match or back at the front. */
    method QueueElementExists(x: T) returns (found: bool)
      requires Valid()
      modifies `cyclicIter, `iter
      ensures Valid()
      ensures found <==> QS.Contains(old(Abs()).items, cmp, x)
      ensures Abs() == QS.AfterSearch(old(Abs()), cmp, x)
    {
      found := false;
      var size := QueueSize();
      ghost var q := Abs();
      var _ := QueueBeginCyclicIter();
      ghost var k := QS.FirstMatch(q.items, cmp, x);
      QS.FirstMatchFinds(q.items, cmp, x);
      var i := 0;
      while i < size && !found
        invariant Valid() && size == |q.items| && i <= size
        invariant Abs() == if size == 0 then q else q.(iter := Some(if i < size then i else 0))
        invariant if found then i == k + 1 else i <= k
      {
        var buffer := QueueNextCyclicIter();
        if cmp(buffer.value, x) == 0 {
          found := true;
        }
        i := i + 1;
      }
    }
  }
}

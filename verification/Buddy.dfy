/** The buddy memory manager over RAM: an array of list heads, next-pointers and metadata kept inside
    the blocks themselves. Addresses count 8-byte words, sizes count bytes, NULL is 0. */
module Buddy {
  import opened Dyadic
  import opened BuddySpec
  import opened BuddyTheorems
  import opened BuddyLayout
  import opened BuddyRefinement
  import opened BuddyRuns

  datatype Stats = Stats(totalMemory: nat, freeMemory: nat, occupiedMemory: nat)

  class BuddyAllocator {
    const mem: array<int>
    const lists: array<int>
    var start: nat
    var total: nat

    ghost function Now(): Ram
      reads mem, lists
    {
      Ram(mem[..], lists[..])
    }

    /** RAM and the list heads hold abstract state `s`. */
    ghost predicate Represents(s: State)
      reads this, mem, lists
    {
      && mem != lists
      && Heap(Now(), start, s) && Balanced(s)
      && total == 4096 * Pow2(s.top)
    }

    /** The region given was smaller than one minimum block. */
    ghost predicate Empty()
      reads this, mem, lists
    {
      && mem != lists && lists.Length == MAX_ORDER + 1
      && total == 0
      && forall k :: 0 <= k < lists.Length ==> lists[k] == 0
    }

    constructor (ram: array<int>)
      ensures mem == ram && fresh(lists) && lists.Length == MAX_ORDER + 1
    {
      mem := ram;
      lists := new int[MAX_ORDER + 1];
      start, total := 0, 0;
    }

    /** Takes over `totalSize` bytes of RAM at word `base`; the largest power-of-two block that fits is managed. */
    method MmInit(base: nat, totalSize: nat) returns (ghost s: State)
      requires mem != lists && lists.Length == MAX_ORDER + 1
      requires 0 < base && 8 * base + totalSize <= 8 * mem.Length
      modifies this, mem, lists
      ensures totalSize < 4096 ==> Empty() && mem[..] == old(mem[..])
      ensures 4096 <= totalSize ==> Represents(s) && start == base && s.top <= MAX_ORDER && s == Initial(s.top)
      ensures 4096 <= totalSize ==> total <= totalSize && (s.top == MAX_ORDER || totalSize < 2 * total)
      ensures 4096 <= totalSize ==> mem[..] == old(mem[..])[base := 0]
    {
      ClearLists();
      var k := OrdersThatFit(totalSize);
      if k == 0 {
        total := 0;
        s := Initial(0);
      } else {
        s := Manage(base, k - 1);
      }
    }

    method ClearLists()
      requires mem != lists && lists.Length == MAX_ORDER + 1
      modifies lists
      ensures forall k :: 0 <= k < lists.Length ==> lists[k] == 0
    {
      for i := 0 to MAX_ORDER + 1
        invariant forall j :: 0 <= j < i ==> lists[j] == 0
      {
        lists[i] := 0;
      }
    }

    /** One free block of order `order` at `base` is all there is. */
    method Manage(base: nat, order: nat) returns (ghost s: State)
      requires mem != lists && lists.Length == MAX_ORDER + 1 && order <= MAX_ORDER
      requires 0 < base && Addr(base, Pow2(order)) <= mem.Length
      requires forall k :: 0 <= k < lists.Length ==> lists[k] == 0
      modifies this, mem, lists
      ensures s == Initial(order) && Represents(s)
      ensures start == base && total == 4096 * Pow2(order) && mem[..] == old(mem[..])[base := 0]
    {
      start := base;
      mem[base] := 0;
      lists[order] := base;
      total := 4096 * Pow2(order);
      s := OneBlock(order);
    }

    /** What RAM holds then. */
    lemma OneBlock(top: nat) returns (s: State)
      requires mem != lists && lists.Length == MAX_ORDER + 1 && top <= MAX_ORDER && total == 4096 * Pow2(top)
      requires 0 < start && Addr(start, Pow2(top)) <= mem.Length && mem[start] == 0
      requires forall k :: 0 <= k < lists.Length ==> lists[k] == if k == top then start else 0
      ensures s == Initial(top) && Represents(s)
    {
      s := Initial(top);
      InitialBalanced(top);
      InitialLayout(mem[..], lists[..], start, top);
    }

    /** How many orders, from the lowest on, have blocks that fit into the region. */
    method OrdersThatFit(totalSize: nat) returns (k: nat)
      ensures k <= MAX_ORDER + 1
      ensures 0 < k ==> 4096 * Pow2(k - 1) <= totalSize
      ensures k <= MAX_ORDER ==> totalSize < 4096 * Pow2(k)
    {
      k := 0;
      while 4096 * Pow2(k) <= totalSize && k <= MAX_ORDER
        invariant 0 <= k <= MAX_ORDER + 1
        invariant 0 < k ==> 4096 * Pow2(k - 1) <= totalSize
        decreases MAX_ORDER + 1 - k
      {
        k := k + 1;
      }
    }

    /** The smallest order that holds the request, found by doubling the block size. */
    method TargetOrder(size: nat) returns (order: nat)
      requires 0 < size <= MAX_REQUEST
      ensures IsOrderOf(order, size)
    {
      order := 0;
      var required, blockSize := size + 8, 4096;
      while blockSize < required
        invariant blockSize == 4096 * Pow2(order)
        invariant 0 < order ==> !Fits(size, order - 1)
        decreases required - blockSize
      {
        blockSize := 2 * blockSize;
        order := order + 1;
      }
      if 0 < order { FitsFrom(size, order); }
    }

    /** Hands out a block for `size` bytes, or NULL (0). */
    method MmAlloc(size: nat, ghost s: State) returns (p: nat, ghost s': State)
      requires Represents(s) || Empty()
      requires size <= MAX_REQUEST
      modifies mem, lists
      ensures old(Empty()) ==> p == 0 && Empty() && mem[..] == old(mem[..])
      ensures old(Represents(s)) ==> Represents(s')
      ensures old(Represents(s)) ==> (Machine(Now(), s'), p) == Requested(Machine(old(Now()), s), start, size)
      ensures old(Represents(s)) ==> KeepsLive(old(mem[..]), mem[..], start, s.live)
    {
      if size == 0 { return 0, s; }
      var target := TargetOrder(size);
      assert target == OrderOf(size);
      if MAX_ORDER < target { p, s' := 0, s; } else { p, s' := Serve(target, s); }
      if old(Represents(s)) {
        RequestServes(Machine(old(Now()), s), start, size);
      }
    }

    /** Carves a block of order `target` from the first list that has one. */
    method Serve(target: nat, ghost s: State) returns (p: nat, ghost s': State)
      requires Represents(s) || Empty()
      requires target <= MAX_ORDER
      modifies mem, lists
      ensures old(Empty()) ==> p == 0 && Now() == old(Now())
      ensures old(Represents(s)) ==> (Machine(Now(), s'), p) == Served(Machine(old(Now()), s), start, target)
    {
      var order := FirstListed(target);
      if Represents(s) {
        ServedFrom(Machine(Now(), s), start, target, order);
      }
      if order <= MAX_ORDER {
        p := Carve(order, target);
        s' := Alloc(s, target).0;
      } else {
        p, s' := 0, s;
      }
    }

    /** The first order from `target` on whose list is not empty. */
    method FirstListed(target: nat) returns (order: nat)
      requires lists.Length == MAX_ORDER + 1 && target <= MAX_ORDER
      ensures target <= order <= MAX_ORDER + 1
      ensures forall i :: target <= i < order ==> lists[i] == 0
      ensures order <= MAX_ORDER ==> lists[order] != 0
    {
      order := target;
      while order <= MAX_ORDER && lists[order] == 0
        invariant target <= order <= MAX_ORDER + 1
        invariant forall i :: target <= i < order ==> lists[i] == 0
      {
        order := order + 1;
      }
    }

    /** Pops list `order` and halves the block down to `target`, listing each right half. */
    method Carve(order: nat, target: nat) returns (p: nat)
      requires mem != lists && target <= order < lists.Length
      requires 0 <= lists[order] && lists[order] + 512 * Pow2(order) <= mem.Length
      modifies mem, lists
      ensures Now() == CarveRam(old(Now()), order, target) && p == old(lists[order]) + 1
    {
      var block := lists[order];
      lists[order] := mem[block];
      var current := order;
      while target < current
        invariant target <= current <= order && block + 512 * Pow2(current) <= mem.Length
        invariant HalveRam(Now(), block, current, target) == HalveRam(PopRam(old(Now()), order), block, order, target)
      {
        current := current - 1;
        var half := 512 * Pow2(current);
        Push(block + half, current);
      }
      mem[block] := target;
      return block + 1;
    }

    /** block->next = buddy_lists[k]; buddy_lists[k] = block. */
    method Push(block: nat, k: nat)
      requires mem != lists && block < mem.Length && k < lists.Length
      modifies mem, lists
      ensures Now() == PushRam(old(Now()), block, k)
    {
      mem[block] := lists[k];
      lists[k] := block;
    }

    /** Gives back the block `u` behind pointer `p`; NULL is ignored. */
    method MmFree(p: nat, ghost s: State, ghost u: nat) returns (ghost s': State)
      requires Represents(s) && (p == 0 || (u in s.live && p == Pointer(start, u)))
      modifies mem, lists
      ensures Represents(s')
      ensures p == 0 ==> s' == s && mem[..] == old(mem[..])
      ensures p != 0 ==> Machine(Now(), s') == Returned(Machine(old(Now()), s), start, u) && s' == Free(s, u)
      ensures p != 0 ==> KeepsLive(old(mem[..]), mem[..], start, s.live - {u})
    {
      if p == 0 { return s; }
      FreeSucceeds(Now(), start, s, u);
      assert Balanced(Free(s, u)) by {
        FreeBalanced(s, u);
      }
      s' := Free(s, u);
      var block := p - 1;
      Coalesce(block, mem[block], s, u);
    }

    /** Joins the block with its free buddies, then lists it. */
    method Coalesce(first: nat, order: nat, ghost s0: State, ghost u0: nat)
      requires mem != lists && 0 < start && |s0.free| == MAX_ORDER + 1
      requires u0 in s0.live && s0.live[u0] == order <= MAX_ORDER && Aligned(u0, order) && first == Addr(start, u0)
      requires Walkable(Now(), start, s0, u0)
      modifies mem, lists
      ensures Now() == old(FreeRam(Now(), start, s0, u0))
    {
      var block, current := first, order;
      ghost var s, u := s0, u0;
      while current < MAX_ORDER
        invariant |s.free| == MAX_ORDER + 1
        invariant u in s.live && s.live[u] == current <= MAX_ORDER && Aligned(u, current) && block == Addr(start, u)
        invariant Walkable(Now(), start, s, u)
        invariant FreeRam(Now(), start, s, u) == old(FreeRam(Now(), start, s0, u0))
        decreases MAX_ORDER - current
      {
        var blockSize := 4096 * Pow2(current);
        var relative := 8 * (block - start);
        BuddyAddress(u, current);
        var buddy := start + Xor(relative, blockSize) / 8;
        var found := IsBuddyFree(buddy, current, s.free[current]);
        if found {
          assert BuddyFree(s, u);
          WalkStep(Now(), start, s, u);
          ghost var i := IndexOf(s.free[current], Buddy(u, current));
          ghost var r := UnlinkRam(Now(), start, s.free[current], current, i);
          RemoveFromList(buddy, current, s.free[current], i);
          assert Now() == r;
          s, u := Merge(s, u), Left(u, current);
          if buddy < block {
            block := buddy;
          }
          current := current + 1;
        } else {
          assert !BuddyFree(s, u);
          break;
        }
      }
      Push(block, current);
    }

    /** Walks list `k` looking for `buddy`. */
    method IsBuddyFree(buddy: nat, k: nat, ghost xs: seq<nat>) returns (found: bool)
      requires k < lists.Length && 0 < start && Chain(mem[..], start, lists[k], xs)
      ensures found <==> exists i :: 0 <= i < |xs| && Spot(start, xs, i) == buddy
    {
      var current := lists[k];
      ghost var i := 0;
      while current != 0
        invariant 0 <= i <= |xs| && current == Link(start, xs, i)
        invariant forall j :: 0 <= j < i ==> Spot(start, xs, j) != buddy
        decreases |xs| - i
      {
        assert current == Spot(start, xs, i);
        if current == buddy {
          return true;
        }
        current := mem[current];
        i := i + 1;
      }
      return false;
    }

    /** Unlinks block `b` from list `k`, if it is there. */
    method RemoveFromList(b: nat, k: nat, ghost xs: seq<nat>, ghost at: nat)
      requires mem != lists && k < lists.Length && 0 < start && Chain(mem[..], start, lists[k], xs)
      requires at < |xs| && Spot(start, xs, at) == b && Addr(start, xs[at]) == b
      requires forall j :: 0 <= j < at ==> xs[j] != xs[at]
      modifies mem, lists
      ensures forall n :: 0 <= n < |xs| ==> Spot(start, xs, n) < mem.Length
      ensures Now() == UnlinkRam(old(Now()), start, xs, k, at)
    {
      var current, prev := lists[k], 0;
      ghost var i := 0;
      while current != 0
        invariant 0 <= i <= |xs| && current == Link(start, xs, i)
        invariant 0 < i ==> prev == Spot(start, xs, i - 1)
        invariant i == 0 <==> prev == 0
        invariant i <= at
        invariant Now() == old(Now())
        decreases |xs| - i
      {
        assert current == Spot(start, xs, i);
        if current == b {
          assert xs[i] == xs[at];
          if prev == 0 {
            lists[k] := mem[current];
          } else {
            mem[prev] := mem[current];
          }
          return;
        }
        prev := current;
        current := mem[current];
        i := i + 1;
      }
    }

    /** Totals over the lists; when nothing is lost, what is not free is what was handed out. */
    method MmGetStats(ghost s: State) returns (stats: Stats)
      requires Represents(s)
      ensures stats.totalMemory == 4096 * Pow2(s.top) && stats.freeMemory == 4096 * ListedUnits(s.free)
      ensures stats.occupiedMemory == 4096 * LiveUnits(s.live)
    {
      var free := SumLists(s.free);
      stats := Stats(total, free, if free <= total then total - free else 0);
    }

    method SumLists(ghost lists': seq<seq<nat>>) returns (free: nat)
      requires 0 < start && lists.Length == |lists'|
      requires forall k :: 0 <= k < |lists'| ==> Chain(mem[..], start, lists[k], lists'[k])
      ensures free == 4096 * ListedUnits(lists')
    {
      free := 0;
      for order := 0 to lists.Length
        invariant free == 4096 * ListedUnits(lists'[..order])
      {
        var blockSize := 4096 * Pow2(order);
        var bytes := SumList(lists[order], blockSize, lists'[order]);
        ListedLast(lists'[..order + 1]);
        assert lists'[..order + 1][..order] == lists'[..order];
        free := free + bytes;
      }
      assert lists'[..lists.Length] == lists';
    }

    method SumList(head: int, blockSize: nat, ghost xs: seq<nat>) returns (bytes: nat)
      requires 0 < start && Chain(mem[..], start, head, xs)
      ensures bytes == |xs| * blockSize
    {
      bytes := 0;
      var node := head;
      ghost var i := 0;
      while node != 0
        invariant 0 <= i <= |xs| && node == Link(start, xs, i) && bytes == i * blockSize
        decreases |xs| - i
      {
        assert node == Spot(start, xs, i);
        bytes := bytes + blockSize;
        node := mem[node];
        i := i + 1;
      }
    }
  }
}

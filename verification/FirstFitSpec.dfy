/** The first-fit allocator on values: the circular free list in address order, starting at the empty
    sentinel `base`, and the blocks handed out. Addresses count 8-byte words; sizes count units of two words. */
module FirstFitSpec {
  import opened Basics

  datatype Block = Block(addr: nat, size: nat) {
    function End(): nat { addr + 2 * size }
  }

  /** `ring[0]` is the sentinel below the heap, the rest are the free blocks; `rover` is where the next
      search starts; `live` maps each handed-out block to its size. The heap is [lo, lo + 2 * units). */
  datatype State = State(lo: nat, units: nat, ring: seq<Block>, live: map<nat, nat>, rover: nat)

  /** Strictly increasing in address, with a gap after every block: no two free blocks overlap or touch. */
  predicate Spaced(ring: seq<Block>) {
    forall i, j :: 0 <= i < j < |ring| ==> ring[i].End() < ring[j].addr
  }

  predicate LiveIn(live: map<nat, nat>, a: nat, x: nat) {
    a in live && a <= x < a + 2 * live[a]
  }

  ghost predicate LiveAt(live: map<nat, nat>, x: nat) {
    exists a: nat :: LiveIn(live, a, x)
  }

  predicate InBlock(b: Block, x: nat) {
    b.addr <= x < b.End()
  }

  ghost predicate FreeAt(ring: seq<Block>, x: nat) {
    exists i :: 0 <= i < |ring| && InBlock(ring[i], x)
  }

  ghost predicate RingInv(s: State) {
    && 0 < |s.ring| && s.rover < |s.ring|
    && s.ring[0].size == 0 && 0 < s.ring[0].addr && s.ring[0].addr + 2 <= s.lo
    && Spaced(s.ring)
    && forall i :: 0 < i < |s.ring| ==> 0 < s.ring[i].size && s.lo <= s.ring[i].addr && s.ring[i].End() <= s.lo + 2 * s.units
  }

  ghost predicate LiveInv(s: State) {
    && (forall a :: a in s.live ==> 0 < s.live[a] && s.lo <= a && a + 2 * s.live[a] <= s.lo + 2 * s.units)
    && (forall a, b :: a in s.live && b in s.live && a < b ==> a + 2 * s.live[a] <= b)
  }

  /** Every word of the heap is in a free block or in a handed-out block, and not in both. */
  ghost predicate Tiled(s: State) {
    forall x: nat :: s.lo <= x < s.lo + 2 * s.units ==> (FreeAt(s.ring, x) <==> !LiveAt(s.live, x))
  }

  ghost predicate Inv(s: State) {
    RingInv(s) && LiveInv(s) && Tiled(s)
  }

  // ---- allocation

  function Next(ring: seq<Block>, i: nat): nat {
    if i + 1 < |ring| then i + 1 else 0
  }

  /** The first node at `i` or cyclically after it that holds `k` units, looking at no more than `fuel` nodes. */
  function Search(ring: seq<Block>, i: nat, fuel: nat, k: nat): Option<nat>
    requires i < |ring|
    decreases fuel
  {
    if fuel == 0 then None
    else if k <= ring[i].size then Some(i)
    else Search(ring, Next(ring, i), fuel - 1, k)
  }

  function Find(s: State, k: nat): Option<nat>
    requires s.rover < |s.ring|
  {
    Search(s.ring, Next(s.ring, s.rover), |s.ring|, k)
  }

  function Remove(ring: seq<Block>, i: nat): (r: seq<Block>)
    requires i < |ring|
    ensures |r| == |ring| - 1
    ensures forall n {:trigger r[n]} :: 0 <= n < |r| ==> r[n] == if n < i then ring[n] else ring[n + 1]
  {
    ring[..i] + ring[i + 1..]
  }

  /** Take `k` units off the tail of block `i`, or all of it. */
  function Cut(s: State, i: nat, k: nat): State
    requires 0 < i < |s.ring| && 0 < k <= s.ring[i].size
  {
    var b := s.ring[i];
    if b.size == k then
      s.(ring := Remove(s.ring, i), live := s.live[b.addr := k], rover := i - 1)
    else
      s.(ring := s.ring[i := Block(b.addr, b.size - k)], live := s.live[b.addr + 2 * (b.size - k) := k], rover := i - 1)
  }

  /** Where the cut-off block starts. */
  function CutAt(s: State, i: nat, k: nat): nat
    requires i < |s.ring| && k <= s.ring[i].size
  {
    s.ring[i].addr + 2 * (s.ring[i].size - k)
  }

  function Alloc(s: State, k: nat): (State, Option<nat>)
    requires s.rover < |s.ring| && 0 < k && s.ring[0].size == 0
  {
    match Find(s, k)
    case None => (s, None)
    case Some(i) =>
      FindFits(s, k);
      (Cut(s, i, k), Some(CutAt(s, i, k)))
  }

  lemma {:induction false} SearchFits(ring: seq<Block>, i: nat, fuel: nat, k: nat)
    requires i < |ring|
    ensures Search(ring, i, fuel, k).Some? ==>
              var j := Search(ring, i, fuel, k).value; j < |ring| && k <= ring[j].size
    decreases fuel
  {
    if fuel != 0 && ring[i].size < k {
      SearchFits(ring, Next(ring, i), fuel - 1, k);
    }
  }

  lemma FindFits(s: State, k: nat)
    requires s.rover < |s.ring| && 0 < k && s.ring[0].size == 0
    ensures Find(s, k).Some? ==> 0 < Find(s, k).value < |s.ring| && k <= s.ring[Find(s, k).value].size
  {
    SearchFits(s.ring, Next(s.ring, s.rover), |s.ring|, k);
  }

  // ---- freeing

  /** `a` belongs right after node `i`. */
  predicate Follows(ring: seq<Block>, i: nat, a: nat) {
    i < |ring| && ring[i].addr < a && (i + 1 < |ring| ==> a < ring[i + 1].addr)
  }

  function Position(ring: seq<Block>, a: nat): (i: nat)
    requires 0 < |ring| && ring[0].addr < a
    ensures i < |ring| && ring[i].addr < a && (i + 1 < |ring| ==> a <= ring[i + 1].addr)
  {
    if |ring| == 1 || a <= ring[1].addr then 0 else Position(ring[1..], a) + 1
  }

  function Put(ring: seq<Block>, i: nat, b: Block): (r: seq<Block>)
    requires i < |ring|
    ensures |r| == |ring| + 1
    ensures forall j {:trigger r[j]} :: 0 <= j < |r| ==>
              r[j] == if j <= i then ring[j] else if j == i + 1 then b else ring[j - 1]
  {
    ring[..i + 1] + [b] + ring[i + 1..]
  }

  predicate Touches(ring: seq<Block>, j: nat) {
    j + 1 < |ring| && ring[j].End() == ring[j + 1].addr
  }

  /** Absorb the node after `j`. */
  function Absorb(ring: seq<Block>, j: nat): (r: seq<Block>)
    requires j + 1 < |ring|
    ensures |r| == |ring| - 1
    ensures forall n {:trigger r[n]} :: 0 <= n < |r| ==>
              r[n] == if n < j then ring[n]
                      else if n == j then Block(ring[j].addr, ring[j].size + ring[j + 1].size)
                      else ring[n + 1]
  {
    ring[..j] + [Block(ring[j].addr, ring[j].size + ring[j + 1].size)] + ring[j + 2..]
  }

  function Join(ring: seq<Block>, j: nat): seq<Block> {
    if Touches(ring, j) then Absorb(ring, j) else ring
  }

  /** Put the block `b` after node `i`, joining it first with the node above and then with the one below. */
  function Insert(ring: seq<Block>, i: nat, b: Block): seq<Block>
    requires i < |ring|
  {
    Join(Join(Put(ring, i, b), i + 1), i)
  }

  function Free(s: State, a: nat): State
    requires 0 < |s.ring| && s.ring[0].addr < a && a in s.live
  {
    var i := Position(s.ring, a);
    s.(ring := Insert(s.ring, i, Block(a, s.live[a])),
       live := s.live - {a},
       rover := if s.ring[i].End() == a then i else i + 1)
  }

  /** There is exactly one place for a block that starts at no listed address. */
  lemma {:induction false} PositionUnique(ring: seq<Block>, a: nat, i: nat)
    requires Spaced(ring) && 0 < |ring| && ring[0].addr < a && Follows(ring, i, a)
    ensures Position(ring, a) == i
  {
    if i == 0 {
    } else {
      assert Follows(ring[1..], i - 1, a);
      assert ring[1].addr <= ring[i].addr;
      PositionUnique(ring[1..], a, i - 1);
    }
  }

  // ---- the invariant is kept

  lemma CutRing(s: State, i: nat, k: nat)
    requires Inv(s) && 0 < i < |s.ring| && 0 < k <= s.ring[i].size
    ensures RingInv(Cut(s, i, k))
  {
    if s.ring[i].size == k {
      RemoveSpaced(s.ring, i);
    } else {
      var b := s.ring[i];
      ShrinkSpaced(s.ring, i, Block(b.addr, b.size - k));
    }
  }

  lemma RemoveSpaced(ring: seq<Block>, i: nat)
    requires Spaced(ring) && i < |ring|
    ensures Spaced(Remove(ring, i))
  {
  }

  lemma ShrinkSpaced(ring: seq<Block>, i: nat, b: Block)
    requires Spaced(ring) && i < |ring| && b.addr == ring[i].addr && b.End() <= ring[i].End()
    ensures Spaced(ring[i := b])
  {
  }

  /** The cut-off block is new and apart from everything handed out. */
  lemma CutLive(s: State, i: nat, k: nat)
    requires Inv(s) && 0 < i < |s.ring| && 0 < k <= s.ring[i].size
    ensures CutAt(s, i, k) !in s.live && LiveInv(Cut(s, i, k))
    ensures Cut(s, i, k).live == s.live[CutAt(s, i, k) := k]
  {
    var c := CutAt(s, i, k);
    forall a | a in s.live ensures c + 2 * k <= a || a + 2 * s.live[a] <= c {
      LiveApart(s, i, a);
    }
    assert s.lo <= c && c + 2 * k == s.ring[i].End();
    assert Cut(s, i, k).live == s.live[c := k];
    LiveInvInsert(s, Cut(s, i, k), c, k);
  }

  lemma LiveInvInsert(s: State, t: State, c: nat, k: nat)
    requires LiveInv(s) && t.lo == s.lo && t.units == s.units && t.live == s.live[c := k]
    requires 0 < k && s.lo <= c && c + 2 * k <= s.lo + 2 * s.units
    requires forall a :: a in s.live ==> c + 2 * k <= a || a + 2 * s.live[a] <= c
    ensures c !in s.live && LiveInv(t)
  {
  }

  /** Free and handed-out blocks do not overlap. */
  lemma LiveApart(s: State, i: nat, a: nat)
    requires Inv(s) && i < |s.ring| && a in s.live
    ensures s.ring[i].End() <= a || a + 2 * s.live[a] <= s.ring[i].addr
  {
    if i != 0 {
      var b := s.ring[i];
      var x := if a <= b.addr then b.addr else a;
      if InBlock(b, x) {
        assert FreeAt(s.ring, x);
        assert !LiveIn(s.live, a, x);
      }
    }
  }

  lemma CutFreeAt(s: State, i: nat, k: nat, x: nat)
    requires RingInv(s) && 0 < i < |s.ring| && 0 < k <= s.ring[i].size
    ensures FreeAt(Cut(s, i, k).ring, x) <==> FreeAt(s.ring, x) && !InBlock(Block(CutAt(s, i, k), k), x)
  {
    if s.ring[i].size == k {
      RemoveFreeAt(s.ring, i, x);
    } else {
      var b := s.ring[i];
      ShrinkFreeAt(s.ring, i, b.size - k, x);
    }
  }

  lemma OnlyBlock(ring: seq<Block>, n: nat, i: nat, x: nat)
    requires Spaced(ring) && i < |ring| && n < |ring| && InBlock(ring[n], x) && n != i
    ensures !InBlock(ring[i], x)
  {
  }

  lemma RemoveFreeAt(ring: seq<Block>, i: nat, x: nat)
    requires Spaced(ring) && i < |ring|
    ensures FreeAt(Remove(ring, i), x) <==> FreeAt(ring, x) && !InBlock(ring[i], x)
  {
    var r := Remove(ring, i);
    if n :| 0 <= n < |ring| && InBlock(ring[n], x) && !InBlock(ring[i], x) {
      assert InBlock(r[if i < n then n - 1 else n], x);
    }
    if m :| 0 <= m < |r| && InBlock(r[m], x) {
      var n := if i <= m then m + 1 else m;
      assert InBlock(ring[n], x);
      OnlyBlock(ring, n, i, x);
    }
  }

  lemma ShrinkFreeAt(ring: seq<Block>, i: nat, size: nat, x: nat)
    requires Spaced(ring) && i < |ring| && size <= ring[i].size
    ensures FreeAt(ring[i := Block(ring[i].addr, size)], x) <==>
            FreeAt(ring, x) && !InBlock(Block(ring[i].addr + 2 * size, ring[i].size - size), x)
  {
    var r := ring[i := Block(ring[i].addr, size)];
    if n :| 0 <= n < |ring| && InBlock(ring[n], x) && !InBlock(Block(ring[i].addr + 2 * size, ring[i].size - size), x) {
      assert InBlock(r[n], x);
    }
    if m :| 0 <= m < |r| && InBlock(r[m], x) {
      assert InBlock(ring[m], x);
      if m != i { OnlyBlock(ring, m, i, x); }
    }
  }

  lemma CutTiled(s: State, i: nat, k: nat)
    requires Inv(s) && 0 < i < |s.ring| && 0 < k <= s.ring[i].size
    ensures Tiled(Cut(s, i, k))
  {
    var s', c := Cut(s, i, k), CutAt(s, i, k);
    CutLive(s, i, k);
    forall x: nat | s.lo <= x < s.lo + 2 * s.units
      ensures FreeAt(s'.ring, x) <==> !LiveAt(s'.live, x)
    {
      CutFreeAt(s, i, k, x);
      LiveInsert(s.live, c, k, x);
      if InBlock(Block(c, k), x) { assert InBlock(s.ring[i], x); }
    }
  }

  lemma LiveInsert(live: map<nat, nat>, a: nat, k: nat, x: nat)
    requires a !in live
    ensures LiveAt(live[a := k], x) <==> LiveAt(live, x) || a <= x < a + 2 * k
  {
    var live' := live[a := k];
    if b: nat :| LiveIn(live, b, x) { assert LiveIn(live', b, x); }
    if a <= x < a + 2 * k { assert LiveIn(live', a, x); }
    if b: nat :| LiveIn(live', b, x) { assert b == a || LiveIn(live, b, x); }
  }

  lemma CutInv(s: State, i: nat, k: nat)
    requires Inv(s) && 0 < i < |s.ring| && 0 < k <= s.ring[i].size
    ensures Inv(Cut(s, i, k))
  {
    CutRing(s, i, k);
    CutLive(s, i, k);
    CutTiled(s, i, k);
  }

  /** A handed-out block starts at no listed address, so it has its place between two nodes. */
  lemma PlaceOf(s: State, a: nat)
    requires Inv(s) && a in s.live
    ensures s.ring[0].addr < a
    ensures var i := Position(s.ring, a);
            && Follows(s.ring, i, a) && s.ring[i].End() <= a
            && (i + 1 < |s.ring| ==> a + 2 * s.live[a] <= s.ring[i + 1].addr)
  {
    var i := Position(s.ring, a);
    LiveApart(s, i, a);
    if i + 1 < |s.ring| { LiveApart(s, i + 1, a); }
  }

  /** Strictly spaced, except that a node in `t` may touch the one after it. */
  predicate SpacedBut(ring: seq<Block>, t: set<nat>) {
    forall i, j :: 0 <= i < j < |ring| ==>
      ring[i].End() <= ring[j].addr && (ring[i].End() == ring[j].addr ==> j == i + 1 && i in t)
  }

  lemma PutSpaced(ring: seq<Block>, i: nat, b: Block)
    requires Spaced(ring) && i < |ring| && 0 < b.size
    requires ring[i].End() <= b.addr && (i + 1 < |ring| ==> b.End() <= ring[i + 1].addr)
    requires forall j :: 0 < j < |ring| ==> 0 < ring[j].size
    ensures SpacedBut(Put(ring, i, b), {i, i + 1})
  {
    var r := Put(ring, i, b);
    forall p, q | 0 <= p < q < |r|
      ensures r[p].End() <= r[q].addr && (r[p].End() == r[q].addr ==> q == p + 1 && p in {i, i + 1})
    {
      if q == i + 1 && p < i { assert ring[p].End() < ring[i].addr; }
      if p == i + 1 && i + 2 < q { assert ring[i + 1].End() < ring[q - 1].addr; }
    }
  }

  lemma AbsorbSpaced(ring: seq<Block>, j: nat, t: set<nat>)
    requires SpacedBut(ring, t) && Touches(ring, j) && forall n :: n in t ==> n <= j
    ensures SpacedBut(Absorb(ring, j), t - {j})
  {
    var r := Absorb(ring, j);
    forall p, q | 0 <= p < q < |r|
      ensures r[p].End() <= r[q].addr && (r[p].End() == r[q].addr ==> q == p + 1 && p in t - {j})
    {
      AbsorbAt(ring, j, p);
      AbsorbAt(ring, j, q);
      var p', q' := if p < j then p else p + 1, if q <= j then q else q + 1;
      SpacedAt(ring, t, p', q');
      assert p' in t ==> p' == p && p < j;
    }
  }

  lemma AbsorbAt(ring: seq<Block>, j: nat, n: nat)
    requires Touches(ring, j) && n < |ring| - 1
    ensures Absorb(ring, j)[n].addr == ring[if n <= j then n else n + 1].addr
    ensures Absorb(ring, j)[n].End() == ring[if n < j then n else n + 1].End()
  {
  }

  lemma SpacedAt(ring: seq<Block>, t: set<nat>, i: nat, j: nat)
    requires SpacedBut(ring, t) && i < j < |ring|
    ensures ring[i].End() <= ring[j].addr && (ring[i].End() == ring[j].addr ==> j == i + 1 && i in t)
  {
  }

  lemma JoinSpaced(ring: seq<Block>, j: nat, t: set<nat>)
    requires SpacedBut(ring, t) && forall n :: n in t ==> n <= j
    requires forall n :: 0 < n < |ring| ==> 0 < ring[n].size
    ensures SpacedBut(Join(ring, j), t - {j})
    ensures forall n :: 0 < n < |Join(ring, j)| ==> 0 < Join(ring, j)[n].size
  {
    if Touches(ring, j) { AbsorbSpaced(ring, j, t); }
  }

  lemma JoinFreeAt(ring: seq<Block>, j: nat, x: nat)
    ensures FreeAt(Join(ring, j), x) <==> FreeAt(ring, x)
  {
    if Touches(ring, j) {
      var r := Absorb(ring, j);
      if n :| 0 <= n < |ring| && InBlock(ring[n], x) {
        assert InBlock(r[if n <= j then n else n - 1], x);
      }
      if n :| 0 <= n < |r| && InBlock(r[n], x) {
        assert InBlock(ring[if n < j || (n == j && x < ring[j].End()) then n else n + 1], x);
      }
    }
  }

  lemma PutFreeAt(ring: seq<Block>, i: nat, b: Block, x: nat)
    requires i < |ring|
    ensures FreeAt(Put(ring, i, b), x) <==> FreeAt(ring, x) || InBlock(b, x)
  {
    var r := Put(ring, i, b);
    if n :| 0 <= n < |ring| && InBlock(ring[n], x) {
      assert InBlock(r[if n <= i then n else n + 1], x);
    }
    if InBlock(b, x) { assert InBlock(r[i + 1], x); }
    if n :| 0 <= n < |r| && InBlock(r[n], x) {
      assert n == i + 1 || InBlock(ring[if n <= i then n else n - 1], x);
    }
  }

  /** Every node but the sentinel is a nonempty block of the heap. */
  predicate Inside(ring: seq<Block>, sentinel: Block, lo: nat, units: nat) {
    && 0 < |ring| && ring[0] == sentinel
    && forall n :: 0 < n < |ring| ==> 0 < ring[n].size && lo <= ring[n].addr && ring[n].End() <= lo + 2 * units
  }

  lemma JoinInside(ring: seq<Block>, j: nat, sentinel: Block, lo: nat, units: nat)
    requires Inside(ring, sentinel, lo, units) && (j == 0 ==> !Touches(ring, j))
    ensures Inside(Join(ring, j), sentinel, lo, units)
  {
    if Touches(ring, j) {
      var r := Absorb(ring, j);
      assert r[0] == ring[0];
      forall n | 0 < n < |r| ensures 0 < r[n].size && lo <= r[n].addr && r[n].End() <= lo + 2 * units {
        if n == j { assert r[n].End() == ring[j + 1].End(); }
      }
    }
  }

  lemma InsertSpaced(ring: seq<Block>, i: nat, b: Block)
    requires Spaced(ring) && i < |ring| && 0 < b.size
    requires ring[i].End() <= b.addr && (i + 1 < |ring| ==> b.End() <= ring[i + 1].addr)
    requires forall j :: 0 < j < |ring| ==> 0 < ring[j].size
    ensures Spaced(Insert(ring, i, b))
  {
    PutSpaced(ring, i, b);
    JoinTwice(Put(ring, i, b), i);
  }

  lemma JoinTwice(ring: seq<Block>, i: nat)
    requires SpacedBut(ring, {i, i + 1})
    requires forall j :: 0 < j < |ring| ==> 0 < ring[j].size
    ensures Spaced(Join(Join(ring, i + 1), i))
  {
    JoinSpaced(ring, i + 1, {i, i + 1});
    var r := Join(ring, i + 1);
    assert {i, i + 1} - {i + 1} == {i} && {i} - {i} == {};
    JoinSpaced(r, i, {i});
    SpacedButNone(Join(r, i));
  }

  lemma SpacedButNone(ring: seq<Block>)
    requires SpacedBut(ring, {})
    ensures Spaced(ring)
  {
  }

  lemma InsertInside(ring: seq<Block>, i: nat, b: Block, lo: nat, units: nat)
    requires 0 < |ring| && Inside(ring, ring[0], lo, units) && i < |ring| && ring[0].End() < b.addr
    requires 0 < b.size && lo <= b.addr && b.End() <= lo + 2 * units
    ensures Inside(Insert(ring, i, b), ring[0], lo, units)
  {
    var r0 := Put(ring, i, b);
    JoinInside(r0, i + 1, ring[0], lo, units);
    InsertTouches(ring, i, b);
    JoinInside(Join(r0, i + 1), i, ring[0], lo, units);
  }

  lemma InsertRing(s: State, a: nat)
    requires Inv(s) && a in s.live && s.ring[0].addr < a
    ensures RingInv(Free(s, a))
  {
    PlaceOf(s, a);
    var i, b := Position(s.ring, a), Block(a, s.live[a]);
    InsertSpaced(s.ring, i, b);
    InsertInside(s.ring, i, b, s.lo, s.units);
    assert Free(s, a).rover < |Insert(s.ring, i, b)| by { InsertTouches(s.ring, i, b); }
    RingInvOf(Free(s, a), s.ring[0]);
  }

  lemma RingInvOf(t: State, sentinel: Block)
    requires Spaced(t.ring) && Inside(t.ring, sentinel, t.lo, t.units) && t.rover < |t.ring|
    requires sentinel.size == 0 && 0 < sentinel.addr && sentinel.addr + 2 <= t.lo
    ensures RingInv(t)
  {
  }

  /** The last join happens exactly when the new block touches the node below it. */
  lemma InsertTouches(ring: seq<Block>, i: nat, b: Block)
    requires i < |ring|
    ensures var r1 := Join(Put(ring, i, b), i + 1);
            && i + 1 < |r1| && r1[i] == ring[i] && r1[i + 1].addr == b.addr
            && (Touches(r1, i) <==> ring[i].End() == b.addr)
    ensures |Insert(ring, i, b)| > (if ring[i].End() == b.addr then i else i + 1)
  {
  }

  /** No other handed-out block reaches into block `a`. */
  lemma LiveOnce(s: State, a: nat, x: nat)
    requires LiveInv(s) && a in s.live && a <= x < a + 2 * s.live[a]
    ensures !LiveAt(s.live - {a}, x)
  {
    forall c: nat ensures !LiveIn(s.live - {a}, c, x) {
      assert c in s.live && c != a ==> c + 2 * s.live[c] <= a || a + 2 * s.live[a] <= c;
    }
  }

  lemma LiveWithout(live: map<nat, nat>, a: nat, x: nat)
    requires a in live
    ensures LiveAt(live, x) <==> LiveAt(live - {a}, x) || a <= x < a + 2 * live[a]
  {
    LiveInsert(live - {a}, a, live[a], x);
    assert (live - {a})[a := live[a]] == live;
  }

  lemma InsertAt(s: State, a: nat, x: nat)
    requires LiveInv(s) && 0 < |s.ring| && a in s.live && s.ring[0].addr < a
    requires FreeAt(s.ring, x) <==> !LiveAt(s.live, x)
    ensures FreeAt(Free(s, a).ring, x) <==> !LiveAt(Free(s, a).live, x)
  {
    var i, b := Position(s.ring, a), Block(a, s.live[a]);
    InsertFreeAt(s.ring, i, b, x);
    LiveWithout(s.live, a, x);
    if InBlock(b, x) { LiveOnce(s, a, x); }
  }

  lemma InsertTiled(s: State, a: nat)
    requires Inv(s) && a in s.live && s.ring[0].addr < a
    ensures LiveInv(Free(s, a)) && Tiled(Free(s, a))
  {
    forall x: nat | s.lo <= x < s.lo + 2 * s.units
      ensures FreeAt(Free(s, a).ring, x) <==> !LiveAt(Free(s, a).live, x)
    {
      InsertAt(s, a, x);
    }
  }

  lemma InsertFreeAt(ring: seq<Block>, i: nat, b: Block, x: nat)
    requires i < |ring|
    ensures FreeAt(Insert(ring, i, b), x) <==> FreeAt(ring, x) || InBlock(b, x)
  {
    PutFreeAt(ring, i, b, x);
    JoinFreeAt(Put(ring, i, b), i + 1, x);
    JoinFreeAt(Join(Put(ring, i, b), i + 1), i, x);
  }

  lemma FreeInv(s: State, a: nat)
    requires Inv(s) && a in s.live
    ensures s.ring[0].addr < a && Inv(Free(s, a)) && Free(s, a).live == s.live - {a}
  {
    InsertRing(s, a);
    InsertTiled(s, a);
  }

  lemma AllocInv(s: State, k: nat)
    requires Inv(s) && 0 < k
    ensures var (s', r) := Alloc(s, k);
            && Inv(s') && s'.lo == s.lo && s'.units == s.units && s'.ring[0] == s.ring[0]
            && (r.None? ==> s' == s)
            && (r.Some? ==> r.value !in s.live && s'.live == s.live[r.value := k])
  {
    FindFits(s, k);
    match Find(s, k)
    case None =>
    case Some(i) =>
      CutInv(s, i, k);
      CutLive(s, i, k);
  }
}

/** The pointer writes of the first-fit allocator do to RAM what its operations do to the abstract state,
    and touch no word of a block that stays handed out. */
module FirstFitRefinement {
  import opened FirstFitSpec
  import opened FirstFitLayout
  import Contract = AllocatorContract

  lemma KeepsWrite(m: seq<int>, m': seq<int>, live: map<nat, nat>, i: nat, x: int)
    requires KeepsLive(m, m', live) && i < |m| && !LiveAt(live, i)
    ensures KeepsLive(m, m'[i := x], live)
  {
  }

  lemma SizesKept(m: seq<int>, m': seq<int>, live: map<nat, nat>)
    requires Sizes(m, live) && KeepsLive(m, m', live) && forall a :: a in live ==> 0 < live[a]
    ensures Sizes(m', live)
  {
    forall a | a in live ensures a + 2 <= |m'| && m'[a + 1] == live[a] {
      assert LiveIn(live, a, a + 1);
      assert LiveAt(live, a + 1);
    }
  }

  lemma InFreeBlock(s: State, i: nat, x: nat)
    requires Inv(s) && i < |s.ring| && InBlock(s.ring[i], x)
    ensures !LiveAt(s.live, x)
  {
    forall a: nat ensures !LiveIn(s.live, a, x) {
      if a in s.live { LiveApart(s, i, a); }
    }
  }

  lemma NodeHeader(m: seq<int>, ring: seq<Block>, i: nat)
    requires Cycle(m, ring) && i < |ring|
    ensures Header(m, Node(ring, i), Link(ring, i), ring[i].size)
  {
  }

  lemma CutKeeps(m: seq<int>, s: State, i: nat, k: nat)
    requires Inv(s) && 0 < i < |s.ring| && 0 < k <= s.ring[i].size && s.ring[i].End() <= |m|
    requires var p := Node(s.ring, i); Node(s.ring, i - 1) < |m| && p + 1 < |m| && m[p + 1] == s.ring[i].size
    ensures KeepsLive(m, CutRam(m, Node(s.ring, i - 1), Node(s.ring, i), k).0, s.live)
  {
    var prev, p := Node(s.ring, i - 1), Node(s.ring, i);
    if k == s.ring[i].size {
      HeaderApart(s, i - 1);
      KeepsWrite(m, m, s.live, prev, m[p]);
    } else {
      var c := CutAt(s, i, k);
      InFreeBlock(s, i, p + 1);
      InFreeBlock(s, i, c + 1);
      KeepsWrite(m, m, s.live, p + 1, s.ring[i].size - k);
      KeepsWrite(m, m[p + 1 := s.ring[i].size - k], s.live, c + 1, k);
    }
  }

  lemma CutCycleWhole(m: seq<int>, s: State, i: nat)
    requires Cycle(m, s.ring) && HeadersApart(s.ring) && 0 < i < |s.ring| && 0 < s.ring[i].size
    requires Header(m, Node(s.ring, i), Link(s.ring, i), s.ring[i].size)
    requires Node(s.ring, i - 1) < |m| && s.ring[i].End() <= |m|
    ensures Cycle(CutRam(m, Node(s.ring, i - 1), Node(s.ring, i), s.ring[i].size).0, Cut(s, i, s.ring[i].size).ring)
  {
    CutWhole(m, s.ring, i);
  }

  lemma CutCyclePart(m: seq<int>, s: State, i: nat, k: nat)
    requires Cycle(m, s.ring) && HeadersApart(s.ring) && Spaced(s.ring) && 0 < i < |s.ring| && 0 < k < s.ring[i].size
    requires Header(m, Node(s.ring, i), Link(s.ring, i), s.ring[i].size)
    requires Node(s.ring, i - 1) < |m| && s.ring[i].End() <= |m|
    ensures Cycle(CutRam(m, Node(s.ring, i - 1), Node(s.ring, i), k).0, Cut(s, i, k).ring)
  {
    CutPart(m, s.ring, i, k);
  }

  lemma CutCycle(m: seq<int>, s: State, i: nat, k: nat)
    requires RingInv(s) && Cycle(m, s.ring) && 0 < i < |s.ring| && 0 < k <= s.ring[i].size && s.ring[i].End() <= |m|
    ensures var prev, p := Node(s.ring, i - 1), Node(s.ring, i);
            && prev < |m| && p + 1 < |m| && m[p + 1] == s.ring[i].size
            && Cycle(CutRam(m, prev, p, k).0, Cut(s, i, k).ring)
  {
    NodeHeader(m, s.ring, i - 1);
    NodeHeader(m, s.ring, i);
    NodesApart(s);
    if k == s.ring[i].size {
      CutCycleWhole(m, s, i);
    } else {
      CutCyclePart(m, s, i, k);
    }
  }

  lemma CutStamp(m: seq<int>, s: State, i: nat, k: nat)
    requires 0 < i < |s.ring| && 0 < k <= s.ring[i].size && s.ring[i].End() <= |m|
    requires s.ring[i - 1].addr < s.ring[i].addr && m[s.ring[i].addr + 1] == s.ring[i].size
    ensures var r := CutRam(m, Node(s.ring, i - 1), Node(s.ring, i), k);
            && r.1 == CutAt(s, i, k) && CutAt(s, i, k) + 2 <= |m| && r.0[CutAt(s, i, k) + 1] == k
  {
  }

  lemma SizesInsert(m: seq<int>, live: map<nat, nat>, a: nat, k: nat)
    requires Sizes(m, live) && a + 2 <= |m| && m[a + 1] == k
    ensures Sizes(m, live[a := k])
  {
  }

  /** Cutting `k` units from node `i` in RAM is cutting them from the abstract free list. */
  lemma CutRefines(m: seq<int>, s: State, i: nat, k: nat)
    requires Heap(m, s) && 0 < i < |s.ring| && 0 < k <= s.ring[i].size
    ensures var prev, p := Node(s.ring, i - 1), Node(s.ring, i);
            && prev < |m| && p + 1 < |m| && m[p + 1] == s.ring[i].size && p + 2 * m[p + 1] <= |m|
            && Heap(CutRam(m, prev, p, k).0, Cut(s, i, k))
            && CutRam(m, prev, p, k).1 == CutAt(s, i, k)
            && KeepsLive(m, CutRam(m, prev, p, k).0, s.live)
  {
    CutCycle(m, s, i, k);
    assert s.ring[i - 1].End() < s.ring[i].addr;
    CutStamp(m, s, i, k);
    CutKeeps(m, s, i, k);
    var m' := CutRam(m, Node(s.ring, i - 1), Node(s.ring, i), k).0;
    SizesKept(m, m', s.live);
    SizesInsert(m', s.live, CutAt(s, i, k), k);
    assert Inv(Cut(s, i, k)) by { CutInv(s, i, k); }
  }

  // ---- linking a block back in

  lemma FitsBetween(s: State, a: nat)
    requires Inv(s) && a in s.live
    ensures HeaderFits(s.ring, Block(a, s.live[a]))
  {
    forall n | 0 <= n < |s.ring| ensures s.ring[n].addr + 2 <= a || a + 2 <= s.ring[n].addr {
      LiveApart(s, n, a);
    }
  }

  lemma PutTouches(ring: seq<Block>, i: nat, b: Block)
    requires i < |ring|
    ensures Touches(Put(ring, i, b), i + 1) <==> i + 1 < |ring| && b.End() == ring[i + 1].addr
  {
    if i + 1 < |ring| { LinkPut(ring, i, b, i + 2); }
    LinkPut(ring, i, b, i + 1);
  }

  /** The first half of linking: the block's own header, joined with the node above if they touch. */
  lemma LinkUp(m: seq<int>, ring: seq<Block>, i: nat, b: Block)
    requires Cycle(m, ring) && i < |ring| && HeaderFits(ring, b) && b.addr + 2 <= |m| && m[b.addr + 1] == b.size
    requires ring[0].addr < b.addr
    ensures var p := Node(ring, i);
            && Header(m, p, Link(ring, i), ring[i].size)
            && (b.addr + 2 * m[b.addr + 1] == m[p] ==> 0 <= m[p] && m[p] + 1 < |m|)
            && CycleBut(UpRam(m, b.addr, p), Join(Put(ring, i, b), i + 1), i)
  {
    NodeHeader(m, ring, i);
    PutTouches(ring, i, b);
    if i + 1 < |ring| && b.End() == ring[i + 1].addr {
      LinkRight(m, ring, i, b);
    } else {
      LinkPlain(m, ring, i, b);
    }
  }

  /** The second half: the node below, absorbing the block if they touch. */
  lemma LinkDown(m: seq<int>, r: seq<Block>, i: nat)
    requires CycleBut(m, r, i) && HeadersApart(r) && i + 1 < |r|
    ensures Node(r, i) + 2 <= |m| && Node(r, i + 1) + 2 <= |m|
    ensures var (m', rover) := DownRam(m, Node(r, i + 1), Node(r, i));
            Cycle(m', Join(r, i)) && rover == if Touches(r, i) then Node(r, i) else Node(r, i + 1)
  {
    assert Header(m, Node(r, i), m[Node(r, i)], r[i].size);
    if Touches(r, i) {
      LinkLeft(m, r, i);
    } else {
      LinkLast(m, r, i);
    }
  }

  lemma PutApart(ring: seq<Block>, i: nat, b: Block)
    requires HeadersApart(ring) && i < |ring| && ring[i].addr + 2 <= b.addr
    requires i + 1 < |ring| ==> b.addr + 2 <= ring[i + 1].addr
    ensures HeadersApart(Put(ring, i, b))
  {
    var r := Put(ring, i, b);
    forall n, q | 0 <= n < q < |r| ensures r[n].addr + 2 <= r[q].addr {
      LinkPut(ring, i, b, n);
      LinkPut(ring, i, b, q);
    }
  }

  lemma JoinApart(r: seq<Block>, j: nat)
    requires HeadersApart(r)
    ensures HeadersApart(Join(r, j))
  {
    if Touches(r, j) {
      var a := Absorb(r, j);
      forall n, q | 0 <= n < q < |a| ensures a[n].addr + 2 <= a[q].addr {
        LinkAbsorb(r, j, n);
        LinkAbsorb(r, j, q);
      }
    }
  }

  /** Both halves: the list in RAM becomes the list with the block inserted, and the rover is where it should be. */
  lemma LinkCycle(m: seq<int>, ring: seq<Block>, i: nat, b: Block)
    requires Cycle(m, ring) && HeadersApart(ring) && i < |ring| && HeaderFits(ring, b)
    requires b.addr + 2 <= |m| && m[b.addr + 1] == b.size && ring[0].addr < b.addr
    requires ring[i].addr + 2 <= b.addr && (i + 1 < |ring| ==> b.addr + 2 <= ring[i + 1].addr)
    ensures var p := Node(ring, i);
            && Header(m, p, Link(ring, i), ring[i].size)
            && (b.addr + 2 * m[b.addr + 1] == m[p] ==> 0 <= m[p] && m[p] + 1 < |m|)
            && var (m', rover) := DownRam(UpRam(m, b.addr, p), b.addr, p);
               Cycle(m', Insert(ring, i, b)) && rover == if ring[i].End() == b.addr then p else b.addr
  {
    var r := Join(Put(ring, i, b), i + 1);
    LinkUp(m, ring, i, b);
    PutApart(ring, i, b);
    JoinApart(Put(ring, i, b), i + 1);
    InsertTouches(ring, i, b);
    LinkDown(UpRam(m, b.addr, Node(ring, i)), r, i);
  }

  /** Where the new rover points. */
  lemma RoverAt(ring: seq<Block>, i: nat, b: Block)
    requires i < |ring|
    ensures var r := Insert(ring, i, b);
            if ring[i].End() == b.addr then i < |r| && r[i].addr == ring[i].addr
            else i + 1 < |r| && r[i + 1].addr == b.addr
  {
    InsertTouches(ring, i, b);
    var r1 := Join(Put(ring, i, b), i + 1);
    if Touches(r1, i) { LinkAbsorb(r1, i, i); }
  }

  lemma LinkKeeps(m: seq<int>, live: map<nat, nat>, bp: nat, p: nat)
    requires bp + 1 < |m| && p + 1 < |m|
    requires bp + 2 * m[bp + 1] == m[p] ==> 0 <= m[p] && m[p] + 1 < |m|
    requires !LiveAt(live, bp) && !LiveAt(live, bp + 1) && !LiveAt(live, p) && !LiveAt(live, p + 1)
    ensures KeepsLive(m, DownRam(UpRam(m, bp, p), bp, p).0, live)
  {
  }

  lemma FewerLive(s: State, a: nat, x: nat)
    requires !LiveAt(s.live, x)
    ensures !LiveAt(s.live - {a}, x)
  {
    forall c: nat ensures !LiveIn(s.live - {a}, c, x) {
      assert !LiveIn(s.live, c, x);
    }
  }

  lemma BlockHeader(s: State, a: nat)
    requires LiveInv(s) && a in s.live
    ensures !LiveAt(s.live - {a}, a) && !LiveAt(s.live - {a}, a + 1)
  {
    LiveOnce(s, a, a);
    LiveOnce(s, a, a + 1);
  }

  lemma NodeHeaderApart(s: State, a: nat, i: nat)
    requires Inv(s) && i < |s.ring|
    ensures !LiveAt(s.live - {a}, Node(s.ring, i)) && !LiveAt(s.live - {a}, Node(s.ring, i) + 1)
  {
    HeaderApart(s, i);
    FewerLive(s, a, Node(s.ring, i));
    FewerLive(s, a, Node(s.ring, i) + 1);
  }

  lemma LinkAt(m: seq<int>, s: State, a: nat)
    requires Heap(m, s) && a in s.live
    ensures s.ring[0].addr < a && a + 2 <= |m| && m[a + 1] == s.live[a]
    ensures var i, b := Position(s.ring, a), Block(a, s.live[a]);
            && i < |s.ring| && HeaderFits(s.ring, b) && HeadersApart(s.ring) && s.ring[i].addr + 2 <= a
            && (i + 1 < |s.ring| ==> a + 2 <= s.ring[i + 1].addr)
  {
    PlaceOf(s, a);
    FitsBetween(s, a);
    NodesApart(s);
  }

  /** Linking block `a` into the list in RAM is freeing it in the abstract state. */
  lemma LinkRefines(m: seq<int>, s: State, a: nat)
    requires Heap(m, s) && a in s.live
    ensures s.ring[0].addr < a && a + 2 <= |m| && m[a + 1] == s.live[a]
    ensures var p := Node(s.ring, Position(s.ring, a));
            && p + 1 < |m|
            && (a + 2 * m[a + 1] == m[p] ==> 0 <= m[p] && m[p] + 1 < |m|)
            && var (m', rover) := DownRam(UpRam(m, a, p), a, p);
               && Heap(m', Free(s, a))
               && Free(s, a).rover < |Free(s, a).ring| && rover == Node(Free(s, a).ring, Free(s, a).rover)
               && KeepsLive(m, m', s.live - {a})
  {
    LinkAt(m, s, a);
    var i, b := Position(s.ring, a), Block(a, s.live[a]);
    LinkCycle(m, s.ring, i, b);
    RoverAt(s.ring, i, b);
    assert Inv(Free(s, a)) by { FreeInv(s, a); }
    var m' := DownRam(UpRam(m, a, Node(s.ring, i)), a, Node(s.ring, i)).0;
    assert KeepsLive(m, m', s.live - {a}) by {
      BlockHeader(s, a);
      NodeHeaderApart(s, a, i);
      LinkKeeps(m, s.live - {a}, a, Node(s.ring, i));
    }
    SizesKept(m, m', s.live - {a});
  }

  // ---- the common interface

  function Pointer(a: nat): nat {
    a + 2
  }

  function HeaderOf(p: int): int {
    p - 2
  }

  function Pointers(live: map<nat, nat>): (ps: set<nat>)
    ensures forall p :: p in ps ==> 0 <= HeaderOf(p) && HeaderOf(p) in live
    ensures forall a {:trigger Pointer(a)} :: a in live <==> Pointer(a) in ps
  {
    set a | a in live :: Pointer(a)
  }

  /** The words a caller may use: all of its block except the header. */
  function Regions(live: map<nat, nat>): map<nat, nat>
    requires forall a :: a in live ==> 0 < live[a]
  {
    map p | p in Pointers(live) :: 2 * live[HeaderOf(p)] - 2
  }

  /** The caller's view of a heap. */
  function ViewOf(m: seq<int>, lo: nat, units: nat, live: map<nat, nat>): Contract.View
    requires forall a :: a in live ==> 0 < live[a]
  {
    Contract.View(m, lo, lo + 2 * units, Regions(live))
  }

  /** Handed-out blocks are nonempty, lie in the heap and do not overlap. */
  ghost predicate LiveApartIn(lo: nat, units: nat, live: map<nat, nat>) {
    && (forall a :: a in live ==> 0 < live[a] && lo <= a && a + 2 * live[a] <= lo + 2 * units)
    && (forall a, b :: a in live && b in live && a < b ==> a + 2 * live[a] <= b)
  }

  lemma ViewGood(m: seq<int>, lo: nat, units: nat, live: map<nat, nat>)
    requires LiveApartIn(lo, units, live) && 0 < lo && lo + 2 * units <= |m|
    ensures Contract.Good(ViewOf(m, lo, units, live))
  {
    var v := ViewOf(m, lo, units, live);
    forall p, q | p in v.live && q in v.live && p != q ensures Contract.Apart(p, v.live[p], q, v.live[q]) {
      var a, b := HeaderOf(p), HeaderOf(q);
      assert a in live && b in live;
      assert a < b || b < a;
    }
  }

  lemma RegionKept(m: seq<int>, m': seq<int>, kept: map<nat, nat>, a: nat, x: nat)
    requires KeepsLive(m, m', kept) && a in kept && a + 2 <= x < a + 2 * kept[a] <= |m|
    ensures x < |m'| && m'[x] == m[x]
  {
    assert LiveIn(kept, a, x);
    assert LiveAt(kept, x);
  }

  lemma ViewKept(m: seq<int>, m': seq<int>, lo: nat, units: nat,
                 live: map<nat, nat>, live': map<nat, nat>, kept: map<nat, nat>)
    requires LiveApartIn(lo, units, live) && lo + 2 * units <= |m| && KeepsLive(m, m', kept)
    requires forall a :: a in live' ==> 0 < live'[a]
    requires forall a :: a in kept ==> a in live && a in live' && live[a] == kept[a] == live'[a]
    ensures Contract.Kept(ViewOf(m, lo, units, live), ViewOf(m', lo, units, live'), Regions(kept).Keys)
  {
    forall p | p in Regions(kept)
      ensures Contract.SameRegion(ViewOf(m, lo, units, live), ViewOf(m', lo, units, live'), p)
    {
      var a := HeaderOf(p);
      assert a in kept && Pointer(a) == p;
      forall x: nat | p <= x < p + Regions(kept)[p] ensures m'[x] == m[x] {
        RegionKept(m, m', kept, a, x);
      }
    }
  }

  lemma PointersInsert(live: map<nat, nat>, a: nat, k: nat)
    requires a !in live
    ensures Pointer(a) !in Pointers(live)
    ensures Pointers(live[a := k]) == Pointers(live) + {Pointer(a)}
  {
    var ps, qs := Pointers(live[a := k]), Pointers(live);
    forall p: nat ensures p in ps <==> p in qs || p == Pointer(a) {
      PointersAt(live, p);
      PointersAt(live[a := k], p);
    }
  }

  lemma RegionsInsert(live: map<nat, nat>, a: nat, k: nat)
    requires a !in live && 0 < k && forall b :: b in live ==> 0 < live[b]
    ensures Pointer(a) !in Regions(live)
    ensures Regions(live[a := k]).Keys == Regions(live).Keys + {Pointer(a)}
    ensures Regions(live[a := k]).Keys - {Pointer(a)} == Regions(live).Keys
    ensures Regions(live[a := k])[Pointer(a)] == 2 * k - 2
  {
    PointersInsert(live, a, k);
  }

  lemma PointersAt(live: map<nat, nat>, p: nat)
    ensures p in Pointers(live) <==> 2 <= p && HeaderOf(p) in live
  {
    if 2 <= p { assert Pointer(HeaderOf(p)) == p; }
  }

  lemma ViewAlloc(m: seq<int>, m': seq<int>, lo: nat, units: nat, live: map<nat, nat>, a: nat, k: nat, nbytes: nat)
    requires 0 < lo && lo + 2 * units <= |m| && KeepsLive(m, m', live) && a !in live && 0 < k && nbytes <= 16 * (k - 1)
    requires LiveApartIn(lo, units, live) && LiveApartIn(lo, units, live[a := k])
    ensures Contract.Allocates(ViewOf(m, lo, units, live), ViewOf(m', lo, units, live[a := k]), nbytes, Pointer(a))
  {
    var live' := live[a := k];
    assert Contract.Good(ViewOf(m', lo, units, live')) by {
      ViewGood(m', lo, units, live');
    }
    assert Contract.Kept(ViewOf(m, lo, units, live), ViewOf(m', lo, units, live'), Regions(live).Keys) by {
      ViewKept(m, m', lo, units, live, live', live);
    }
    ViewAnswer(m, m', lo, units, live, a, k, nbytes);
  }

  lemma ViewAnswer(m: seq<int>, m': seq<int>, lo: nat, units: nat, live: map<nat, nat>, a: nat, k: nat, nbytes: nat)
    requires a !in live && 0 < k && nbytes <= 16 * (k - 1) && forall b :: b in live ==> 0 < live[b]
    requires Contract.Good(ViewOf(m', lo, units, live[a := k]))
    requires Contract.Kept(ViewOf(m, lo, units, live), ViewOf(m', lo, units, live[a := k]), Regions(live).Keys)
    ensures Contract.Allocates(ViewOf(m, lo, units, live), ViewOf(m', lo, units, live[a := k]), nbytes, Pointer(a))
  {
    RegionsInsert(live, a, k);
  }

  lemma ViewSame(m: seq<int>, m': seq<int>, lo: nat, units: nat, live: map<nat, nat>, nbytes: nat)
    requires 0 < lo && lo + 2 * units <= |m| && KeepsLive(m, m', live) && LiveApartIn(lo, units, live)
    ensures Contract.Allocates(ViewOf(m, lo, units, live), ViewOf(m', lo, units, live), nbytes, 0)
  {
    ViewGood(m', lo, units, live);
    ViewKept(m, m', lo, units, live, live, live);
  }

  lemma ViewFree(m: seq<int>, m': seq<int>, lo: nat, units: nat, rest: map<nat, nat>, a: nat, k: nat)
    requires 0 < lo && lo + 2 * units <= |m| && KeepsLive(m, m', rest) && a !in rest && 0 < k
    requires LiveApartIn(lo, units, rest) && LiveApartIn(lo, units, rest[a := k])
    ensures Contract.Frees(ViewOf(m, lo, units, rest[a := k]), ViewOf(m', lo, units, rest), Pointer(a))
  {
    ViewGood(m', lo, units, rest);
    ViewKept(m, m', lo, units, rest[a := k], rest, rest);
    RegionsInsert(rest, a, k);
  }

  lemma InvApart(s: State)
    requires Inv(s)
    ensures LiveApartIn(s.lo, s.units, s.live) && 0 < s.lo
  {
  }

  /** An answered request meets the interface: the region is big enough, new, and disturbs no other. */
  lemma AllocConforms(m: seq<int>, m': seq<int>, s: State, nbytes: nat, k: nat)
    requires Heap(m, s) && 0 < k && nbytes <= 16 * (k - 1) && KeepsLive(m, m', s.live)
    ensures var (s', r) := Alloc(s, k);
            && Inv(s') && LiveApartIn(s.lo, s.units, s.live) && LiveApartIn(s.lo, s.units, s'.live)
            && Contract.Allocates(ViewOf(m, s.lo, s.units, s.live), ViewOf(m', s.lo, s.units, s'.live),
                                  nbytes, if r.Some? then Pointer(r.value) else 0)
  {
    AllocInv(s, k);
    var s', r := Alloc(s, k).0, Alloc(s, k).1;
    InvApart(s);
    InvApart(s');
    if r.Some? {
      ViewAlloc(m, m', s.lo, s.units, s.live, r.value, k, nbytes);
    } else {
      ViewSame(m, m', s.lo, s.units, s.live, nbytes);
    }
  }

  /** A return meets the interface: only the returned region goes, the others keep their contents. */
  lemma FreeConforms(m: seq<int>, m': seq<int>, s: State, a: nat)
    requires Heap(m, s) && a in s.live && s.ring[0].addr < a && KeepsLive(m, m', s.live - {a})
    ensures Inv(Free(s, a)) && LiveApartIn(s.lo, s.units, s.live) && LiveApartIn(s.lo, s.units, Free(s, a).live)
    ensures Contract.Frees(ViewOf(m, s.lo, s.units, s.live), ViewOf(m', s.lo, s.units, Free(s, a).live), Pointer(a))
  {
    FreeInv(s, a);
    InvApart(s);
    InvApart(Free(s, a));
    var rest := s.live - {a};
    assert rest[a := s.live[a]] == s.live;
    ViewFree(m, m', s.lo, s.units, rest, a, s.live[a]);
  }
}

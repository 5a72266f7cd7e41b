/** How the circular free list lies in RAM, and what the allocator's pointer writes do to it. A header is
    two words, the next-pointer and the size in units; RAM is a sequence of 8-byte words. */
module FirstFitLayout {
  import opened FirstFitSpec

  /** Where node `i` keeps its header. */
  function Node(ring: seq<Block>, i: nat): nat
    requires i < |ring|
  {
    ring[i].addr
  }

  function Link(ring: seq<Block>, i: nat): nat
    requires i < |ring|
  {
    ring[if i + 1 < |ring| then i + 1 else 0].addr
  }

  predicate Header(m: seq<int>, a: nat, link: int, size: int) {
    a + 2 <= |m| && m[a] == link && m[a + 1] == size
  }

  /** One cycle of headers through all nodes of `ring`, in its order. */
  ghost predicate Cycle(m: seq<int>, ring: seq<Block>) {
    forall i {:trigger Node(ring, i)} :: 0 <= i < |ring| ==> Header(m, Node(ring, i), Link(ring, i), ring[i].size)
  }

  /** A handed-out block remembers its size. */
  ghost predicate Sizes(m: seq<int>, live: map<nat, nat>) {
    forall a :: a in live ==> a + 2 <= |m| && m[a + 1] == live[a]
  }

  ghost predicate Heap(m: seq<int>, s: State) {
    && Inv(s) && s.lo + 2 * s.units <= |m|
    && Cycle(m, s.ring) && Sizes(m, s.live)
  }

  // ---- the pointer writes as functions of RAM

  /** Take `k` units from the block at `p`, whose predecessor is `prev`; the answer is the header cut off. */
  function CutRam(m: seq<int>, prev: nat, p: nat, k: nat): (seq<int>, int)
    requires prev < |m| && p + 1 < |m| && 0 <= k <= m[p + 1] && p + 2 * m[p + 1] <= |m|
    requires 0 < k
  {
    if m[p + 1] == k then (m[prev := m[p]], p)
    else
      var left := m[p + 1] - k;
      (m[p + 1 := left][p + 2 * left + 1 := k], p + 2 * left)
  }

  /** Give the block at `bp` its successor, absorbing the node above when the two touch; `p` is the node below. */
  function UpRam(m: seq<int>, bp: nat, p: nat): (r: seq<int>)
    requires bp + 1 < |m| && p < |m|
    requires bp + 2 * m[bp + 1] == m[p] ==> 0 <= m[p] && m[p] + 1 < |m|
    ensures |r| == |m|
  {
    var q := m[p];
    if bp + 2 * m[bp + 1] == q then m[bp + 1 := m[bp + 1] + m[q + 1]][bp := m[q]]
    else m[bp := q]
  }

  /** Make node `p` lead to the block at `bp`, or absorb it when the two touch; the answer is the new rover. */
  function DownRam(m: seq<int>, bp: nat, p: nat): (seq<int>, nat)
    requires bp + 1 < |m| && p + 1 < |m|
  {
    if p + 2 * m[p + 1] == bp then (m[p + 1 := m[p + 1] + m[bp + 1]][p := m[bp]], p)
    else (m[p := bp], bp)
  }

  // ---- what a write may not touch

  /** No word of a handed-out block changes. */
  ghost predicate KeepsLive(m: seq<int>, m': seq<int>, live: map<nat, nat>) {
    && |m'| == |m|
    && forall i {:trigger LiveAt(live, i)} :: 0 <= i < |m| && LiveAt(live, i) ==> m'[i] == m[i]
  }

  /** The header of a node is not part of a handed-out block. */
  lemma HeaderApart(s: State, i: nat)
    requires Inv(s) && i < |s.ring|
    ensures !LiveAt(s.live, s.ring[i].addr) && !LiveAt(s.live, s.ring[i].addr + 1)
  {
    forall a: nat ensures !LiveIn(s.live, a, s.ring[i].addr) && !LiveIn(s.live, a, s.ring[i].addr + 1) {
      if a in s.live { LiveApart(s, i, a); }
    }
  }

  /** Headers of different nodes do not overlap. */
  predicate HeadersApart(ring: seq<Block>) {
    forall i, j :: 0 <= i < j < |ring| ==> ring[i].addr + 2 <= ring[j].addr
  }

  lemma NodesApart(s: State)
    requires RingInv(s)
    ensures HeadersApart(s.ring)
  {
    forall i, j | 0 <= i < j < |s.ring| ensures s.ring[i].addr + 2 <= s.ring[j].addr {
      assert s.ring[i].End() < s.ring[j].addr;
    }
  }

  // ---- how the links follow the ring

  lemma LinkRemove(ring: seq<Block>, i: nat, n: nat)
    requires 0 < i < |ring| && n < |ring| - 1
    ensures var r := Remove(ring, i);
            var o := if n < i then n else n + 1;
            r[n] == ring[o] && Link(r, n) == Link(ring, if n == i - 1 then i else o)
  {
  }

  lemma LinkPut(ring: seq<Block>, i: nat, b: Block, n: nat)
    requires i < |ring| && n <= |ring|
    ensures var r := Put(ring, i, b);
            && r[n] == (if n <= i then ring[n] else if n == i + 1 then b else ring[n - 1])
            && Link(r, n) == (if n == i then b.addr else Link(ring, if n < i then n else n - 1))
  {
  }

  lemma LinkAbsorb(ring: seq<Block>, j: nat, n: nat)
    requires j + 1 < |ring| && n < |ring| - 1
    ensures var r := Absorb(ring, j);
            && r[n].addr == ring[if n <= j then n else n + 1].addr
            && r[n].size == (if n < j then ring[n].size else if n == j then ring[j].size + ring[j + 1].size else ring[n + 1].size)
            && Link(r, n) == Link(ring, if n < j then n else n + 1)
  {
  }

  /** Putting a block in front of node `i + 1` and absorbing that node leaves every other header where it was. */
  lemma LinkAbsorbPut(ring: seq<Block>, i: nat, b: Block, n: nat)
    requires i + 1 < |ring| && n < |ring|
    ensures var r := Absorb(Put(ring, i, b), i + 1);
            && |r| == |ring|
            && r[n].addr == (if n == i + 1 then b.addr else ring[n].addr)
            && r[n].size == (if n == i + 1 then b.size + ring[n].size else ring[n].size)
            && (n != i ==> Link(r, n) == Link(ring, n))
  {
    var p := Put(ring, i, b);
    LinkAbsorb(p, i + 1, n);
    LinkPut(ring, i, b, n);
    LinkPut(ring, i, b, n + 1);
  }

  lemma HeadersDiffer(ring: seq<Block>, i: nat, j: nat)
    requires HeadersApart(ring) && i < |ring| && j < |ring| && i != j
    ensures Node(ring, i) + 2 <= Node(ring, j) || Node(ring, j) + 2 <= Node(ring, i)
  {
  }

  // ---- cutting

  lemma CutWhole(m: seq<int>, ring: seq<Block>, i: nat)
    requires Cycle(m, ring) && HeadersApart(ring) && 0 < i < |ring|
    ensures Node(ring, i - 1) + 2 <= |m| && Node(ring, i) + 2 <= |m|
    ensures Cycle(m[Node(ring, i - 1) := m[Node(ring, i)]], Remove(ring, i))
  {
    var r := Remove(ring, i);
    var m' := m[Node(ring, i - 1) := m[Node(ring, i)]];
    forall n {:trigger Node(r, n)} | 0 <= n < |r| ensures Header(m', Node(r, n), Link(r, n), r[n].size) {
      var o := if n < i then n else n + 1;
      LinkRemove(ring, i, n);
      assert Header(m, Node(ring, o), Link(ring, o), ring[o].size);
      if o != i - 1 { HeadersDiffer(ring, o, i - 1); }
    }
  }

  lemma CutPart(m: seq<int>, ring: seq<Block>, i: nat, k: nat)
    requires Cycle(m, ring) && HeadersApart(ring) && Spaced(ring)
    requires i < |ring| && 0 < k < ring[i].size && ring[i].End() <= |m|
    ensures var b := ring[i];
            var left := b.size - k;
            Cycle(m[b.addr + 1 := left][b.addr + 2 * left + 1 := k], ring[i := Block(b.addr, left)])
  {
    var b, left := ring[i], ring[i].size - k;
    var r, c := ring[i := Block(b.addr, left)], b.addr + 2 * left;
    var m' := m[b.addr + 1 := left][c + 1 := k];
    forall n {:trigger Node(r, n)} | 0 <= n < |r| ensures Header(m', Node(r, n), Link(r, n), r[n].size) {
      assert Link(r, n) == Link(ring, n);
      assert Header(m, Node(ring, n), Link(ring, n), ring[n].size);
      if n != i { BlocksDiffer(ring, n, i); }
    }
  }

  lemma BlocksDiffer(ring: seq<Block>, n: nat, i: nat)
    requires HeadersApart(ring) && Spaced(ring) && i < |ring| && n < |ring| && n != i
    ensures Node(ring, n) + 2 <= Node(ring, i) || ring[i].End() <= Node(ring, n)
  {
  }

  // ---- linking in

  /** Like Cycle, but the next-pointer of node `i` is still the old one. */
  ghost predicate CycleBut(m: seq<int>, ring: seq<Block>, i: nat) {
    forall n {:trigger Node(ring, n)} :: 0 <= n < |ring| ==>
      Node(ring, n) + 2 <= |m| && Header(m, Node(ring, n), if n == i then m[Node(ring, n)] else Link(ring, n), ring[n].size)
  }

  /** The header of block `b` overlaps no node's header. */
  predicate HeaderFits(ring: seq<Block>, b: Block) {
    forall n :: 0 <= n < |ring| ==> ring[n].addr + 2 <= b.addr || b.addr + 2 <= ring[n].addr
  }

  lemma LinkPlain(m: seq<int>, ring: seq<Block>, i: nat, b: Block)
    requires Cycle(m, ring) && i < |ring| && HeaderFits(ring, b) && b.addr + 2 <= |m| && m[b.addr + 1] == b.size
    ensures Node(ring, i) < |m| && CycleBut(m[b.addr := m[Node(ring, i)]], Put(ring, i, b), i)
  {
    var r, m' := Put(ring, i, b), m[b.addr := m[Node(ring, i)]];
    forall n {:trigger Node(r, n)} | 0 <= n < |r|
      ensures Node(r, n) + 2 <= |m'| && Header(m', Node(r, n), if n == i then m'[Node(r, n)] else Link(r, n), r[n].size)
    {
      LinkPut(ring, i, b, n);
      var o := if n <= i then n else n - 1;
      assert Header(m, Node(ring, o), Link(ring, o), ring[o].size);
    }
  }

  lemma LinkRight(m: seq<int>, ring: seq<Block>, i: nat, b: Block)
    requires Cycle(m, ring) && i + 1 < |ring| && HeaderFits(ring, b) && b.addr + 2 <= |m| && m[b.addr + 1] == b.size
    requires b.End() == ring[i + 1].addr
    ensures Node(ring, i + 1) + 2 <= |m|
    ensures var q := Node(ring, i + 1);
            CycleBut(m[b.addr + 1 := m[b.addr + 1] + m[q + 1]][b.addr := m[q]], Absorb(Put(ring, i, b), i + 1), i)
  {
    var q := Node(ring, i + 1);
    assert Header(m, q, Link(ring, i + 1), ring[i + 1].size);
    var r, m' := Absorb(Put(ring, i, b), i + 1), m[b.addr + 1 := m[b.addr + 1] + m[q + 1]][b.addr := m[q]];
    forall n {:trigger Node(r, n)} | 0 <= n < |r|
      ensures Node(r, n) + 2 <= |m'| && Header(m', Node(r, n), if n == i then m'[Node(r, n)] else Link(r, n), r[n].size)
    {
      LinkAbsorbPut(ring, i, b, n);
      assert Header(m, Node(ring, n), Link(ring, n), ring[n].size);
    }
  }

  lemma LinkLeft(m: seq<int>, r: seq<Block>, i: nat)
    requires CycleBut(m, r, i) && HeadersApart(r) && i + 1 < |r|
    ensures Node(r, i) + 2 <= |m| && Node(r, i + 1) + 2 <= |m|
    ensures var p, bp := Node(r, i), Node(r, i + 1);
            Cycle(m[p + 1 := m[p + 1] + m[bp + 1]][p := m[bp]], Absorb(r, i))
  {
    var p, bp := Node(r, i), Node(r, i + 1);
    assert Header(m, p, m[p], r[i].size) && Header(m, bp, Link(r, i + 1), r[i + 1].size);
    var a, m' := Absorb(r, i), m[p + 1 := m[p + 1] + m[bp + 1]][p := m[bp]];
    forall n {:trigger Node(a, n)} | 0 <= n < |a| ensures Header(m', Node(a, n), Link(a, n), a[n].size) {
      LinkLeftAt(m, r, i, n);
    }
  }

  lemma LinkLeftAt(m: seq<int>, r: seq<Block>, i: nat, n: nat)
    requires CycleBut(m, r, i) && HeadersApart(r) && i + 1 < |r| && n < |Absorb(r, i)|
    ensures Node(r, i) + 2 <= |m| && Node(r, i + 1) + 2 <= |m|
    ensures var p, bp, a := Node(r, i), Node(r, i + 1), Absorb(r, i);
            Header(m[p + 1 := m[p + 1] + m[bp + 1]][p := m[bp]], Node(a, n), Link(a, n), a[n].size)
  {
    var p, bp := Node(r, i), Node(r, i + 1);
    assert Header(m, p, m[p], r[i].size) && Header(m, bp, Link(r, i + 1), r[i + 1].size);
    var o := if n <= i then n else n + 1;
    LinkAbsorb(r, i, n);
    if o != i {
      assert Header(m, Node(r, o), Link(r, o), r[o].size);
      HeadersDiffer(r, o, i);
    }
  }

  lemma LinkLast(m: seq<int>, r: seq<Block>, i: nat)
    requires CycleBut(m, r, i) && HeadersApart(r) && i + 1 < |r|
    ensures Node(r, i) + 2 <= |m| && Cycle(m[Node(r, i) := Node(r, i + 1)], r)
  {
    var p := Node(r, i);
    assert Header(m, p, m[p], r[i].size);
    var m' := m[p := Node(r, i + 1)];
    forall n {:trigger Node(r, n)} | 0 <= n < |r| ensures Header(m', Node(r, n), Link(r, n), r[n].size) {
      assert n != i ==> Header(m, Node(r, n), Link(r, n), r[n].size);
      if n != i { HeadersDiffer(r, n, i); }
    }
  }
}

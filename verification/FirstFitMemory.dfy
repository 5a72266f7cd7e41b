/** RAM and the first-fit allocator's static variables, and what its operations do to them. */
module FirstFitMemory {
  import opened Basics
  import opened FirstFitSpec
  import opened FirstFitTheorems
  import opened FirstFitLayout
  import opened FirstFitRefinement

  /** Units of 16 bytes needed for a request: its bytes rounded up, and one more for the header. */
  function UnitsFor(nbytes: nat): (k: nat)
    ensures 0 < k && nbytes <= 16 * (k - 1) < nbytes + 16
  {
    (nbytes + 15) / 16 + 1
  }

  /** RAM and the manager's static variables. */
  datatype Memory = Memory(words: seq<int>, freep: nat, totalMem: nat, freeMem: nat)

  /** The memory holds abstract state `s`, with the sentinel header at `base`. */
  ghost predicate Holds(v: Memory, base: nat, s: State) {
    && Heap(v.words, s)
    && s.ring[0].addr == base && v.freep == Node(s.ring, s.rover)
    && v.totalMem == 16 * s.units && v.freeMem == 16 * FreeUnits(s.ring)
  }

  /** What taking `k` units from the block at `p` does to memory. */
  function TakeMemory(v: Memory, prev: nat, p: nat, k: nat): Memory
    requires prev < |v.words| && p + 1 < |v.words| && 0 < k <= v.words[p + 1] && p + 2 * v.words[p + 1] <= |v.words|
    requires 16 * k <= v.freeMem
  {
    Memory(CutRam(v.words, prev, p, k).0, prev, v.totalMem, v.freeMem - 16 * k)
  }

  /** What linking the block at `bp` in after node `p` does to memory. */
  function GiveMemory(v: Memory, bp: nat, p: nat): Memory
    requires bp + 1 < |v.words| && 0 <= v.words[bp + 1] && p + 1 < |v.words|
    requires bp + 2 * v.words[bp + 1] == v.words[p] ==> 0 <= v.words[p] && v.words[p] + 1 < |v.words|
  {
    var (m, rover) := DownRam(UpRam(v.words, bp, p), bp, p);
    Memory(m, rover, v.totalMem, v.freeMem + 16 * v.words[bp + 1])
  }

  lemma InitialCycle(m: seq<int>, base: nat, lo: nat, units: nat)
    requires base + 2 <= lo && lo + 2 <= |m| && m[base] == lo && m[base + 1] == 0 && m[lo] == base && m[lo + 1] == units
    ensures Cycle(m, Initial(base, lo, units).ring) && Sizes(m, map[])
    ensures FreeUnits(Initial(base, lo, units).ring) == units
  {
    var ring := Initial(base, lo, units).ring;
    assert ring == [Block(base, 0)] + [Block(lo, units)];
    FreeUnitsConcat([Block(base, 0)], [Block(lo, units)]);
    assert FreeUnits([Block(base, 0)]) == 0 && FreeUnits([Block(lo, units)]) == units;
  }

  /** The ring over a region of less than one unit. */
  function NoUnits(base: nat, lo: nat): seq<Block> {
    Initial(base, lo, 0).ring
  }

  lemma NothingFits(base: nat, lo: nat, k: nat)
    requires base + 2 <= lo && 0 < k
    ensures HeadersApart(NoUnits(base, lo)) && Node(NoUnits(base, lo), 0) == base
    ensures Search(NoUnits(base, lo), Next(NoUnits(base, lo), 0), 2, k) == None
  {
  }

  /** With no unit to manage, the sentinel would be alone on the list. */
  lemma ManagesSomething(v: Memory, base: nat, s: State)
    requires Holds(v, base, s) && v.totalMem == 0
    ensures v.words[base] == base
  {
    NodeHeader(v.words, s.ring, 0);
  }

  lemma SearchReady(v: Memory, base: nat, s: State, k: nat)
    requires Holds(v, base, s) && 0 < k
    ensures s.rover < |s.ring| && s.ring[0].size == 0
    ensures Cycle(v.words, s.ring) && HeadersApart(s.ring) && v.freep == Node(s.ring, s.rover)
  {
    NodesApart(s);
  }

  lemma CutRover(s: State, i: nat, k: nat)
    requires RingInv(s) && 0 < i < |s.ring| && 0 < k <= s.ring[i].size
    ensures var t := Cut(s, i, k); t.rover == i - 1 < |t.ring| && Node(t.ring, i - 1) == Node(s.ring, i - 1)
    ensures Cut(s, i, k).ring[0].addr == s.ring[0].addr
  {
  }

  /** What is cut off is handed out, and no unit is lost. */
  lemma CutBalanced(s: State, i: nat, k: nat)
    requires Inv(s) && Balanced(s) && 0 < k && Find(s, k) == Some(i)
    ensures 0 < i < |s.ring| && k <= s.ring[i].size && Balanced(Cut(s, i, k))
  {
    FindFits(s, k);
    AllocBalanced(s, k);
  }

  /** After the cut, memory holds the allocated state. */
  lemma AllocHolds(v: Memory, base: nat, s: State, i: nat, k: nat)
    requires Holds(v, base, s) && 0 < k && Find(s, k) == Some(i)
    ensures 0 < i < |s.ring| && k <= s.ring[i].size && Alloc(s, k) == (Cut(s, i, k), Some(CutAt(s, i, k)))
    ensures var prev, p := Node(s.ring, i - 1), Node(s.ring, i);
            && prev < |v.words| && p + 1 < |v.words| && k <= v.words[p + 1] && p + 2 * v.words[p + 1] <= |v.words|
            && 16 * k <= v.freeMem
            && Holds(TakeMemory(v, prev, p, k), base, Cut(s, i, k))
            && CutRam(v.words, prev, p, k).1 == CutAt(s, i, k)
            && KeepsLive(v.words, TakeMemory(v, prev, p, k).words, s.live)
  {
    FindFits(s, k);
    CutRefines(v.words, s, i, k);
    CutRover(s, i, k);
    CutFree(s, i, k);
  }

  /** After the block is linked in, memory holds the freed state. */
  lemma FreeHolds(v: Memory, base: nat, s: State, a: nat)
    requires Holds(v, base, s) && a in s.live
    ensures base == s.ring[0].addr < a && a + 2 <= |v.words| && v.words[a + 1] == s.live[a]
    ensures s.rover < |s.ring| && Cycle(v.words, s.ring) && HeadersApart(s.ring) && Spaced(s.ring)
    ensures v.freep == Node(s.ring, s.rover)
    ensures forall n :: 0 <= n < |s.ring| ==> s.ring[n].addr != a
    ensures var p := Node(s.ring, Position(s.ring, a));
            && p + 1 < |v.words|
            && (a + 2 * v.words[a + 1] == v.words[p] ==> 0 <= v.words[p] && v.words[p] + 1 < |v.words|)
            && Holds(GiveMemory(v, a, p), base, Free(s, a))
            && KeepsLive(v.words, GiveMemory(v, a, p).words, s.live - {a})
  {
    LinkAt(v.words, s, a);
    LinkRefines(v.words, s, a);
    FreeFree(s, a);
    SentinelKept(s, a);
  }

  lemma CutFree(s: State, i: nat, k: nat)
    requires 0 < i < |s.ring| && 0 < k <= s.ring[i].size
    ensures FreeUnits(Cut(s, i, k).ring) == FreeUnits(s.ring) - k
  {
    CutUnits(s.ring, i, Block(s.ring[i].addr, s.ring[i].size - k));
  }

  lemma FreeFree(s: State, a: nat)
    requires Inv(s) && a in s.live && s.ring[0].addr < a
    ensures FreeUnits(Free(s, a).ring) == FreeUnits(s.ring) + s.live[a]
  {
    var i, b := Position(s.ring, a), Block(a, s.live[a]);
    PutUnits(s.ring, i, b);
    JoinUnits(Put(s.ring, i, b), i + 1);
    JoinUnits(Join(Put(s.ring, i, b), i + 1), i);
  }

  lemma PositionFollows(ring: seq<Block>, bp: nat)
    requires 0 < |ring| && ring[0].addr < bp && forall n :: 0 <= n < |ring| ==> ring[n].addr != bp
    ensures Follows(ring, Position(ring, bp), bp)
  {
  }

  /** The list wraps around at its last node and nowhere else. */
  lemma LinkOrder(ring: seq<Block>, i: nat)
    requires HeadersApart(ring) && i < |ring|
    ensures Link(ring, i) <= Node(ring, i) <==> i + 1 == |ring|
    ensures i + 1 == |ring| ==> Link(ring, i) == ring[0].addr
    ensures ring[0].addr <= Node(ring, i)
  {
    assert 0 < i ==> ring[0].addr + 2 <= ring[i].addr;
  }

  /** The goal is never passed: at the goal one of the two exits is taken. */
  lemma NotHere(ring: seq<Block>, i: nat, goal: nat, bp: nat)
    requires HeadersApart(ring) && i < |ring| && Follows(ring, goal, bp) && ring[0].addr < bp
    requires !(bp > Node(ring, i) && bp < Link(ring, i))
    requires !(Node(ring, i) >= Link(ring, i) && (bp > Node(ring, i) || bp < Link(ring, i)))
    ensures i != goal
  {
  }
}

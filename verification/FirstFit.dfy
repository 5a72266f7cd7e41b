/** The first-fit memory manager over RAM: a circular list of free blocks kept in address order inside the
    blocks themselves, entered through a roving pointer. Addresses count 8-byte words, requests count bytes. */
module FirstFit {
  import opened Basics
  import opened FirstFitSpec
  import opened FirstFitTheorems
  import opened FirstFitLayout
  import opened FirstFitRefinement
  import opened FirstFitMemory
  import opened FirstFitRuns

  datatype Stats = Stats(totalMemory: nat, freeMemory: nat, occupiedMemory: nat)

  class FirstFitAllocator {
    const mem: array<int>
    /** Address of the statically allocated sentinel header. */
    const base: nat
    var freep: nat
    var totalMem: nat
    var freeMem: nat

    ghost function Now(): Memory
      reads this, mem
    {
      Memory(mem[..], freep, totalMem, freeMem)
    }

    ghost predicate Represents(s: State)
      reads this, mem
    {
      Holds(Now(), base, s) && Balanced(s)
    }

    /** The region given held no unit at all: its one node is as empty as the sentinel. */
    ghost predicate Barren()
      reads this, mem
    {
      && base + 1 < mem.Length && base + 2 <= mem[base] && mem[base] + 1 < mem.Length
      && Cycle(mem[..], NoUnits(base, mem[base]))
      && freep == base && totalMem == 0 && freeMem == 0
    }

    constructor (ram: array<int>, sentinel: nat)
      ensures mem == ram && base == sentinel
    {
      mem, base := ram, sentinel;
      freep, totalMem, freeMem := 0, 0, 0;
    }

    /** Takes over `totalSize` bytes of RAM at word `lo`; the header of the first block is written in any case. */
    method MmInit(lo: nat, totalSize: nat) returns (ghost s: State)
      requires 0 < base && base + 2 <= lo && 8 * lo + totalSize <= 8 * mem.Length && lo + 2 <= mem.Length
      modifies this, mem
      ensures 16 <= totalSize ==> s == Initial(base, lo, totalSize / 16) && Represents(s)
      ensures totalSize < 16 ==> Barren()
      ensures forall i :: 0 <= i < mem.Length && i !in {base, base + 1, lo, lo + 1} ==> mem[i] == old(mem[i])
    {
      var units := totalSize / 16;
      mem[lo + 1] := units;
      totalMem := 16 * units;
      freeMem := 16 * units;
      mem[base], mem[base + 1] := lo, 0;
      mem[lo] := base;
      freep := base;
      s := Initial(base, lo, units);
      InitialCycle(mem[..], base, lo, units);
    }

    /** Hands out the first block found that holds `nbytes` bytes, or NULL (0). */
    method MmAlloc(nbytes: nat, ghost s: State) returns (p: nat, ghost s': State)
      requires Represents(s) || Barren()
      modifies this, mem
      ensures old(Barren()) ==> p == 0 && Now() == old(Now())
      ensures old(Represents(s)) ==> Represents(s')
      ensures old(Represents(s)) ==> (Machine(Now(), s'), p) == Requested(Machine(old(Now()), s), base, nbytes)
      ensures old(Represents(s)) ==> KeepsLive(old(mem[..]), mem[..], s.live)
    {
      if nbytes == 0 { return 0, s; }
      var nunits := UnitsFor(nbytes);
      ghost var ring, rover := Searched(s, nunits);
      var found, prevp, q, i := FindFit(nunits, ring, rover);
      if found {
        CutBalanced(s, i, nunits);
        p, s' := HandOut(nbytes, nunits, prevp, q, s, i);
      } else {
        p, s' := 0, s;
      }
    }

    /** The block at `q`, behind node `prevp`, is the first that fits. */
    method HandOut(ghost nbytes: nat, nunits: nat, prevp: nat, q: nat, ghost s: State, ghost i: nat)
      returns (p: nat, ghost s': State)
      requires Holds(Now(), base, s) && nbytes != 0 && nunits == UnitsFor(nbytes) && Find(s, nunits) == Some(i)
      requires 0 < i < |s.ring| && nunits <= s.ring[i].size && prevp == Node(s.ring, i - 1) && q == Node(s.ring, i)
      modifies this, mem
      ensures Holds(Now(), base, s') && s' == Cut(s, i, nunits)
      ensures (Machine(Now(), s'), p) == Requested(Machine(old(Now()), s), base, nbytes)
      ensures KeepsLive(old(mem[..]), mem[..], s.live)
    {
      RequestFound(Now(), s, base, nbytes, nunits, i, prevp, q);
      s' := Cut(s, i, nunits);
      p := Take(prevp, q, nunits);
    }

    /** The ring to be searched for `k` units. */
    lemma Searched(s: State, k: nat) returns (ring: seq<Block>, rover: nat)
      requires (Represents(s) || Barren()) && 0 < k
      ensures rover < |ring| && ring[0].size == 0
      ensures Cycle(mem[..], ring) && HeadersApart(ring) && freep == Node(ring, rover)
      ensures Represents(s) ==> ring == s.ring && rover == s.rover
      ensures Barren() ==> Search(ring, Next(ring, rover), |ring|, k) == None
    {
      if Represents(s) {
        ring, rover := s.ring, s.rover;
        SearchReady(Now(), base, s, k);
        if totalMem == 0 { ManagesSomething(Now(), base, s); }
      } else {
        ring, rover := NoUnits(base, mem[base]), 0;
        NothingFits(base, mem[base], k);
      }
    }

    /** Unlinks or cuts the block, leaves the rover in front of it and counts it as handed out. */
    method Take(prevp: nat, q: nat, nunits: nat) returns (p: nat)
      requires prevp < mem.Length && q + 1 < mem.Length && 0 < nunits <= mem[q + 1] && q + 2 * mem[q + 1] <= mem.Length
      requires 16 * nunits <= freeMem
      modifies `freep, `freeMem, mem
      ensures Now() == TakeMemory(old(Now()), prevp, q, nunits)
      ensures p == CutRam(old(Now()).words, prevp, q, nunits).1 + 2
    {
      var block := CutBlock(prevp, q, nunits);
      freep := prevp;
      freeMem := freeMem - nunits * 16;
      return block + 2;
    }

    /** The roving search. It looks at each node at most once: `visits` counts the nodes it has turned down. */
    method FindFit(nunits: nat, ghost ring: seq<Block>, ghost rover: nat)
      returns (found: bool, prevp: nat, p: nat, ghost i: nat)
      requires 0 < nunits && rover < |ring| && ring[0].size == 0
      requires Cycle(mem[..], ring) && HeadersApart(ring) && freep == Node(ring, rover)
      ensures found <==> Search(ring, Next(ring, rover), |ring|, nunits).Some?
      ensures found ==> Search(ring, Next(ring, rover), |ring|, nunits) == Some(i) && 0 < i < |ring|
      ensures found ==> p == Node(ring, i) && prevp == Node(ring, i - 1)
    {
      prevp := freep;
      NodeHeader(mem[..], ring, rover);
      p := mem[prevp];
      i := Next(ring, rover);
      ghost var visits := 0;
      while true
        invariant visits < |ring| && i == At(|ring|, Next(ring, rover), visits)
        invariant p == Node(ring, i)
        invariant 0 < i ==> prevp == Node(ring, i - 1)
        invariant Search(ring, Next(ring, rover), |ring|, nunits) == Search(ring, i, |ring| - visits, nunits)
        decreases |ring| - visits
      {
        NodeHeader(mem[..], ring, i);
        if nunits <= mem[p + 1] {
          return true, prevp, p, i;
        }
        if i != rover { HeadersDiffer(ring, i, rover); }
        if p == freep {
          return false, prevp, p, i;
        }
        prevp, p := p, mem[p];
        i := Next(ring, i);
        visits := visits + 1;
      }
    }

    /** Unlinks the block at `p` when it fits exactly, else cuts `nunits` units off its tail. */
    method CutBlock(prevp: nat, p: nat, nunits: nat) returns (block: nat)
      requires prevp < mem.Length && p + 1 < mem.Length && 0 < nunits <= mem[p + 1] && p + 2 * mem[p + 1] <= mem.Length
      modifies mem
      ensures mem[..] == CutRam(old(mem[..]), prevp, p, nunits).0
      ensures block == CutRam(old(mem[..]), prevp, p, nunits).1
    {
      if mem[p + 1] == nunits {
        mem[prevp] := mem[p];
        block := p;
      } else {
        mem[p + 1] := mem[p + 1] - nunits;
        block := p + 2 * mem[p + 1];
        mem[block + 1] := nunits;
      }
    }

    /** Gives back the block `a` behind pointer `ap`; NULL is ignored. */
    method MmFree(ap: nat, ghost s: State, ghost a: nat) returns (ghost s': State)
      requires Represents(s) && (ap == 0 || (a in s.live && ap == Pointer(a)))
      modifies this, mem
      ensures Represents(s')
      ensures ap == 0 ==> s' == s && mem[..] == old(mem[..])
      ensures ap != 0 ==> Machine(Now(), s') == Returned(Machine(old(Now()), s), base, a) && s' == Free(s, a)
      ensures ap != 0 ==> KeepsLive(old(mem[..]), mem[..], s.live - {a})
    {
      if ap == 0 { return s; }
      var bp := ap - 2;
      assert bp == a;
      FreeHolds(Now(), base, s, bp);
      assert Balanced(Free(s, bp)) by {
        FreeBalanced(s, bp);
      }
      s' := Free(s, bp);
      Release(bp, s.ring, s.rover);
    }

    /** Counts the block at `bp` as free, finds its place and links it in there. */
    method Release(bp: nat, ghost ring: seq<Block>, ghost rover: nat)
      requires rover < |ring| && Cycle(mem[..], ring) && HeadersApart(ring) && Spaced(ring) && freep == Node(ring, rover)
      requires ring[0].addr < bp && forall n :: 0 <= n < |ring| ==> ring[n].addr != bp
      requires bp + 1 < mem.Length && 0 <= mem[bp + 1]
      requires var p := Node(ring, Position(ring, bp));
               p + 1 < mem.Length && (bp + 2 * mem[bp + 1] == mem[p] ==> 0 <= mem[p] && mem[p] + 1 < mem.Length)
      modifies `freep, `freeMem, mem
      ensures Now() == GiveMemory(old(Now()), bp, Node(ring, Position(ring, bp)))
    {
      freeMem := freeMem + mem[bp + 1] * 16;
      var p := FindPlace(bp, ring, rover);
      freep := LinkBlock(bp, p);
    }

    /** The node after which `bp` belongs: the last one below it, whichever way the rover comes round. */
    method FindPlace(bp: nat, ghost ring: seq<Block>, ghost rover: nat) returns (p: nat)
      requires rover < |ring| && Cycle(mem[..], ring) && HeadersApart(ring) && Spaced(ring) && freep == Node(ring, rover)
      requires ring[0].addr < bp && forall n :: 0 <= n < |ring| ==> ring[n].addr != bp
      ensures p == Node(ring, Position(ring, bp)) && Follows(ring, Position(ring, bp), bp)
    {
      ghost var n, goal := |ring|, Position(ring, bp);
      PositionFollows(ring, bp);
      p := freep;
      ghost var i := rover;
      NodeHeader(mem[..], ring, i);
      while !(bp > p && bp < mem[p])
        invariant 0 <= i < n && p == Node(ring, i) && Header(mem[..], p, Link(ring, i), ring[i].size)
        decreases if i <= goal then goal - i else goal - i + n
      {
        LinkOrder(ring, i);
        if p >= mem[p] && (bp > p || bp < mem[p]) {
          break;
        }
        NotHere(ring, i, goal, bp);
        p := mem[p];
        i := Next(ring, i);
        NodeHeader(mem[..], ring, i);
      }
      LinkOrder(ring, i);
      PositionUnique(ring, bp, i);
    }

    /** Links the block at `bp` in after node `p`, joining it with the nodes it touches; answers the new rover. */
    method LinkBlock(bp: nat, p: nat) returns (rover: nat)
      requires bp + 1 < mem.Length && p + 1 < mem.Length
      requires bp + 2 * mem[bp + 1] == mem[p] ==> 0 <= mem[p] && mem[p] + 1 < mem.Length
      modifies mem
      ensures mem[..] == DownRam(UpRam(old(mem[..]), bp, p), bp, p).0
      ensures rover == DownRam(UpRam(old(mem[..]), bp, p), bp, p).1
    {
      if bp + 2 * mem[bp + 1] == mem[p] {
        var q := mem[p];
        mem[bp + 1] := mem[bp + 1] + mem[q + 1];
        mem[bp] := mem[q];
      } else {
        mem[bp] := mem[p];
      }
      ghost var m1 := mem[..];
      assert m1 == UpRam(old(mem[..]), bp, p);
      if p + 2 * mem[p + 1] == bp {
        mem[p + 1] := mem[p + 1] + mem[bp + 1];
        mem[p] := mem[bp];
        rover := p;
      } else {
        mem[p] := bp;
        rover := bp;
      }
    }

    method MmGetStats(ghost s: State) returns (stats: Stats)
      requires Represents(s) || Barren()
      ensures Barren() ==> stats == Stats(0, 0, 0)
      ensures Represents(s) ==> stats.totalMemory == 16 * s.units && stats.freeMemory == 16 * FreeUnits(s.ring)
      ensures Represents(s) ==> stats.occupiedMemory == 16 * Total(s.live)
    {
      stats := Stats(totalMem, freeMem, if totalMem >= freeMem then totalMem - freeMem else 0);
    }
  }
}

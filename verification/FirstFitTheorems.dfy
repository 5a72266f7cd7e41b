/** What the first-fit allocator promises over whole runs. */
module FirstFitTheorems {
  import opened Basics
  import opened FirstFitSpec

  // ---- the roving search

  /** The node `t` steps after node `i`, for at most one turn. */
  function At(n: nat, i: nat, t: nat): (j: nat)
    requires i < n && t < n
    ensures j < n
  {
    if i + t < n then i + t else i + t - n
  }

  lemma {:induction false} SearchNone(ring: seq<Block>, i: nat, fuel: nat, k: nat)
    requires i < |ring| && fuel <= |ring| && Search(ring, i, fuel, k).None?
    ensures forall t: nat :: t < fuel ==> ring[At(|ring|, i, t)].size < k
    decreases fuel
  {
    if fuel != 0 {
      SearchNone(ring, Next(ring, i), fuel - 1, k);
      forall t: nat | t < fuel ensures ring[At(|ring|, i, t)].size < k {
        if t != 0 { assert At(|ring|, i, t) == At(|ring|, Next(ring, i), t - 1); }
      }
    }
  }

  lemma {:induction false} SearchSome(ring: seq<Block>, i: nat, fuel: nat, k: nat) returns (t: nat)
    requires i < |ring| && fuel <= |ring| && Search(ring, i, fuel, k).Some?
    ensures t < fuel && Search(ring, i, fuel, k).value == At(|ring|, i, t)
    ensures k <= ring[At(|ring|, i, t)].size
    ensures forall u: nat :: u < t ==> ring[At(|ring|, i, u)].size < k
    decreases fuel
  {
    if k <= ring[i].size {
      t := 0;
    } else {
      t := SearchSome(ring, Next(ring, i), fuel - 1, k);
      forall u: nat | u < t + 1 ensures ring[At(|ring|, i, u)].size < k {
        if u != 0 { assert At(|ring|, i, u) == At(|ring|, Next(ring, i), u - 1); }
      }
      t := t + 1;
    }
  }

  /** The search looks at each node at most once, takes the first that is big enough, and fails only
      when every free block is too small. */
  lemma FindIsFirstFit(s: State, k: nat)
    requires Inv(s) && 0 < k
    ensures Find(s, k).None? <==> forall i :: 0 <= i < |s.ring| ==> s.ring[i].size < k
    ensures Find(s, k).Some? ==>
              exists t: nat :: t < |s.ring| && Find(s, k).value == At(|s.ring|, Next(s.ring, s.rover), t)
                && forall u: nat :: u < t ==> s.ring[At(|s.ring|, Next(s.ring, s.rover), u)].size < k
  {
    var n, i := |s.ring|, Next(s.ring, s.rover);
    FindFits(s, k);
    if Find(s, k).None? {
      SearchNone(s.ring, i, n, k);
      forall j | 0 <= j < n ensures s.ring[j].size < k {
        assert At(n, i, if i <= j then j - i else j - i + n) == j;
      }
    } else {
      var t := SearchSome(s.ring, i, n, k);
    }
  }

  // ---- completeness: what is free can be had

  /** `k` consecutive units at `x`, all inside the heap, no part of them handed out. */
  ghost predicate FreeRun(s: State, x: nat, k: nat) {
    && s.lo <= x && x + 2 * k <= s.lo + 2 * s.units
    && forall y: nat :: x <= y < x + 2 * k ==> !LiveAt(s.live, y)
  }

  /** Free blocks are maximal: a run of free words does not cross from one into another. */
  lemma FreeRunInOneBlock(s: State, x: nat, k: nat) returns (i: nat)
    requires Inv(s) && 0 < k && FreeRun(s, x, k)
    ensures 0 < i < |s.ring| && s.ring[i].addr <= x && x + 2 * k <= s.ring[i].End()
  {
    assert FreeAt(s.ring, x);
    i :| 0 <= i < |s.ring| && InBlock(s.ring[i], x);
    var e: nat := s.ring[i].End();
    EndNotFree(s.ring, i);
    assert s.lo <= e < s.lo + 2 * s.units ==> LiveAt(s.live, e);
  }

  lemma EndNotFree(ring: seq<Block>, i: nat)
    requires Spaced(ring) && i < |ring|
    ensures !FreeAt(ring, ring[i].End())
  {
  }

  lemma BlockIsFreeRun(s: State, i: nat, k: nat)
    requires Inv(s) && 0 < i < |s.ring| && k <= s.ring[i].size
    ensures FreeRun(s, s.ring[i].addr, k)
  {
    forall y: nat | s.ring[i].addr <= y < s.ring[i].addr + 2 * k ensures !LiveAt(s.live, y) {
      assert InBlock(s.ring[i], y);
      assert FreeAt(s.ring, y);
    }
  }

  /** No false failures: a request for `k` units fails exactly when no `k` consecutive units are free. */
  lemma AllocFailsExactlyWhenFull(s: State, k: nat)
    requires Inv(s) && 0 < k
    ensures Alloc(s, k).1.None? <==> forall x: nat :: !FreeRun(s, x, k)
  {
    FindIsFirstFit(s, k);
    if x: nat :| FreeRun(s, x, k) {
      var i := FreeRunInOneBlock(s, x, k);
      assert k <= s.ring[i].size;
    }
    if Find(s, k).Some? {
      FindFits(s, k);
      BlockIsFreeRun(s, Find(s, k).value, k);
    }
  }

  // ---- canonicity: the free list is determined by what is handed out

  lemma SameNode(ring: seq<Block>, i: nat, n: nat, x: nat)
    requires Spaced(ring) && i < |ring| && n < |ring| && InBlock(ring[i], x) && InBlock(ring[n], x)
    ensures n == i
  {
  }

  lemma SameBlock(s: State, t: State, i: nat) returns (j: nat)
    requires Inv(s) && Inv(t) && s.lo == t.lo && s.units == t.units && s.live == t.live && 0 < i < |s.ring|
    ensures 0 < j < |t.ring| && t.ring[j] == s.ring[i]
  {
    BlockIsFreeRun(s, i, s.ring[i].size);
    assert FreeRun(t, s.ring[i].addr, s.ring[i].size);
    j := FreeRunInOneBlock(t, s.ring[i].addr, s.ring[i].size);
    BlockIsFreeRun(t, j, t.ring[j].size);
    assert FreeRun(s, t.ring[j].addr, t.ring[j].size);
    var n := FreeRunInOneBlock(s, t.ring[j].addr, t.ring[j].size);
    SameNode(s.ring, i, n, s.ring[i].addr);
  }

  predicate AllIn(r: seq<Block>, q: seq<Block>) {
    forall i :: 0 <= i < |r| ==> r[i] in q
  }

  /** Two strictly increasing lists with the same elements are the same list. */
  lemma {:induction false} SortedUnique(r: seq<Block>, q: seq<Block>)
    requires Spaced(r) && Spaced(q) && AllIn(r, q) && AllIn(q, r)
    ensures r == q
  {
    if r != [] { MembersNonempty(r, q); }
    if q != [] { MembersNonempty(q, r); }
    if r != [] {
      FirstIsLeast(r, q);
      RestIn(r, q);
      RestIn(q, r);
      SpacedRest(r);
      SpacedRest(q);
      SortedUnique(r[1..], q[1..]);
      assert r == [r[0]] + r[1..] && q == [q[0]] + q[1..];
    }
  }

  lemma MembersNonempty(r: seq<Block>, q: seq<Block>)
    requires r != [] && AllIn(r, q)
    ensures q != []
  {
    var b := r[0];
    assert b in q;
  }

  lemma FirstIsLeast(r: seq<Block>, q: seq<Block>)
    requires Spaced(r) && Spaced(q) && r != [] && q != [] && AllIn(r, q) && AllIn(q, r)
    ensures r[0] == q[0]
  {
    var i :| 0 <= i < |q| && q[i] == r[0];
    var j :| 0 <= j < |r| && r[j] == q[0];
  }

  lemma SpacedRest(r: seq<Block>)
    requires Spaced(r) && r != []
    ensures Spaced(r[1..])
  {
  }

  lemma RestIn(r: seq<Block>, q: seq<Block>)
    requires Spaced(r) && r != [] && q != [] && r[0] == q[0] && AllIn(r, q)
    ensures AllIn(r[1..], q[1..])
  {
    forall i | 0 <= i < |r[1..]| ensures r[1..][i] in q[1..] {
      var j :| 0 <= j < |q| && q[j] == r[i + 1];
      assert r[0].End() < r[i + 1].addr;
      assert q[1..][j - 1] == r[i + 1];
    }
  }

  /** Two reachable states that hand out the same blocks have the same free list. */
  lemma LiveDeterminesRing(s: State, t: State)
    requires Inv(s) && Inv(t) && s.lo == t.lo && s.units == t.units && s.live == t.live && s.ring[0] == t.ring[0]
    ensures s.ring == t.ring
  {
    forall i | 0 <= i < |s.ring| ensures s.ring[i] in t.ring {
      if i != 0 { var j := SameBlock(s, t, i); }
    }
    forall i | 0 <= i < |t.ring| ensures t.ring[i] in s.ring {
      if i != 0 { var j := SameBlock(t, s, i); }
    }
    SortedUnique(s.ring, t.ring);
  }

  lemma SentinelKept(s: State, a: nat)
    requires Inv(s) && a in s.live && s.ring[0].addr < a
    ensures 0 < |Free(s, a).ring| && Free(s, a).ring[0] == s.ring[0]
  {
    PlaceOf(s, a);
    InsertInside(s.ring, Position(s.ring, a), Block(a, s.live[a]), s.lo, s.units);
  }

  /** A free leads back to any earlier state that handed out the same other blocks. */
  lemma FreeLeadsBack(t: State, a: nat, s: State)
    requires Inv(s) && Inv(t) && s.lo == t.lo && s.units == t.units && s.ring[0] == t.ring[0]
    requires a in t.live && s.live == t.live - {a}
    ensures t.ring[0].addr < a && Free(t, a).ring == s.ring && Free(t, a).live == s.live
  {
    FreeInv(t, a);
    SentinelKept(t, a);
    LiveDeterminesRing(Free(t, a), s);
  }

  /** Freeing what was just allocated restores the free list, whichever way it was cut and joined. */
  lemma FreeUndoesAlloc(s: State, k: nat)
    requires Inv(s) && 0 < k && Alloc(s, k).1.Some?
    ensures var (t, r) := Alloc(s, k);
            && 0 < |t.ring| && t.ring[0].addr < r.value && r.value in t.live
            && Free(t, r.value).ring == s.ring && Free(t, r.value).live == s.live
  {
    AllocInv(s, k);
    var t, a := Alloc(s, k).0, Alloc(s, k).1.value;
    assert t.live - {a} == s.live;
    FreeLeadsBack(t, a, s);
  }

  // ---- whole runs

  datatype Op = Allocate(units: nat) | GiveBack(block: nat)

  predicate Legal(s: State, op: Op) {
    match op
    case Allocate(k) => 0 < k
    case GiveBack(a) => a in s.live
  }

  ghost function Step(s: State, op: Op): (t: State)
    requires Inv(s) && Legal(s, op)
    ensures Inv(t) && t.lo == s.lo && t.units == s.units && t.ring[0] == s.ring[0]
  {
    match op
    case Allocate(k) => AllocInv(s, k); Alloc(s, k).0
    case GiveBack(a) => FreeInv(s, a); SentinelKept(s, a); Free(s, a)
  }

  ghost predicate Reaches(s: State, ops: seq<Op>, t: State)
    requires Inv(s)
    decreases |ops|
  {
    if ops == [] then t == s
    else Legal(s, ops[0]) && Reaches(Step(s, ops[0]), ops[1..], t)
  }

  /** One block holds all units; there are none when the region is smaller than a unit. */
  function Initial(base: nat, lo: nat, units: nat): (s: State)
    ensures 0 < base && base + 2 <= lo && 0 < units ==> Inv(s)
  {
    var s := State(lo, units, [Block(base, 0), Block(lo, units)], map[], 0);
    OneBlockTiles(s, base, lo, units);
    s
  }

  lemma OneBlockTiles(s: State, base: nat, lo: nat, units: nat)
    requires s == State(lo, units, [Block(base, 0), Block(lo, units)], map[], 0)
    ensures Tiled(s)
  {
    forall x: nat | lo <= x < lo + 2 * units ensures FreeAt(s.ring, x) && !LiveAt(s.live, x) {
      assert InBlock(s.ring[1], x);
    }
  }

  /** After every run: one cycle through the sentinel, strictly increasing with one wrap, nothing touching. */
  lemma {:induction false} RunInv(s: State, ops: seq<Op>, t: State)
    requires Inv(s) && Reaches(s, ops, t)
    ensures Inv(t) && t.lo == s.lo && t.units == s.units && t.ring[0] == s.ring[0]
    decreases |ops|
  {
    if ops != [] {
      RunInv(Step(s, ops[0]), ops[1..], t);
    }
  }

  /** Once everything has been freed, in whatever order, the free list is the single initial block. */
  lemma AllFreedRestoresInitial(base: nat, lo: nat, units: nat, ops: seq<Op>, t: State)
    requires 0 < base && base + 2 <= lo && 0 < units && Reaches(Initial(base, lo, units), ops, t)
    requires t.live == map[]
    ensures t.ring == Initial(base, lo, units).ring
  {
    RunInv(Initial(base, lo, units), ops, t);
    LiveDeterminesRing(t, Initial(base, lo, units));
  }

  // ---- which part of a block is taken, and where the next search starts

  /** A request gets the tail of the block that was found, and the rover is left on the block before that, so that the
      next search starts with what is left; all other blocks stay as they are. */
  lemma AllocTakesTail(s: State, k: nat, i: nat)
    requires Inv(s) && 0 < k && Find(s, k) == Some(i)
    ensures 0 < i < |s.ring| && k <= s.ring[i].size
    ensures var (t, r) := Alloc(s, k);
            && r.Some? && r.value + 2 * k == s.ring[i].End() && t.live == s.live[r.value := k]
            && (s.ring[i].size == k ==> r.value == s.ring[i].addr && t.ring == s.ring[..i] + s.ring[i + 1..])
            && (s.ring[i].size > k ==> t.ring == s.ring[i := Block(s.ring[i].addr, s.ring[i].size - k)])
            && t.rover < |t.ring| && t.ring[t.rover] == s.ring[i - 1]
  {
    FindFits(s, k);
  }

  /** After a free the rover is on the block that the freed one has become part of. */
  lemma FreeMovesRover(s: State, a: nat)
    requires Inv(s) && a in s.live && s.ring[0].addr < a
    ensures var t := Free(s, a);
            t.live == s.live - {a} && t.rover < |t.ring| && InBlock(t.ring[t.rover], a)
  {
    FreeInv(s, a);
    InsertHolds(s.ring, Position(s.ring, a), Block(a, s.live[a]));
  }

  lemma InsertHolds(ring: seq<Block>, i: nat, b: Block)
    requires i < |ring| && 0 < b.size && ring[i].addr < b.addr && ring[i].End() <= b.addr
    ensures var r, k := Insert(ring, i, b), if ring[i].End() == b.addr then i else i + 1;
            k < |r| && InBlock(r[k], b.addr)
  {
    InsertTouches(ring, i, b);
  }

  // ---- accounting

  function FreeUnits(ring: seq<Block>): nat {
    if ring == [] then 0 else ring[0].size + FreeUnits(ring[1..])
  }

  ghost predicate Balanced(s: State) {
    FreeUnits(s.ring) + Total(s.live) == s.units
  }

  lemma {:induction false} FreeUnitsConcat(r: seq<Block>, q: seq<Block>)
    ensures FreeUnits(r + q) == FreeUnits(r) + FreeUnits(q)
  {
    if r == [] {
      assert r + q == q;
    } else {
      assert (r + q)[1..] == r[1..] + q;
      FreeUnitsConcat(r[1..], q);
    }
  }

  lemma FreeUnitsAt(ring: seq<Block>, i: nat)
    requires i < |ring|
    ensures FreeUnits(ring) == FreeUnits(ring[..i]) + ring[i].size + FreeUnits(ring[i + 1..])
  {
    var rest := [ring[i]] + ring[i + 1..];
    assert ring == ring[..i] + rest;
    assert rest[1..] == ring[i + 1..];
    FreeUnitsConcat(ring[..i], rest);
  }

  lemma CutUnits(ring: seq<Block>, i: nat, b: Block)
    requires i < |ring| && b.size <= ring[i].size
    ensures FreeUnits(Remove(ring, i)) == FreeUnits(ring) - ring[i].size
    ensures FreeUnits(ring[i := b]) == FreeUnits(ring) - ring[i].size + b.size
  {
    FreeUnitsAt(ring, i);
    FreeUnitsConcat(ring[..i], ring[i + 1..]);
    var r := ring[i := b];
    FreeUnitsAt(r, i);
    assert r[..i] == ring[..i] && r[i + 1..] == ring[i + 1..];
  }

  lemma PutUnits(ring: seq<Block>, i: nat, b: Block)
    requires i < |ring|
    ensures FreeUnits(Put(ring, i, b)) == FreeUnits(ring) + b.size
  {
    var r := Put(ring, i, b);
    FreeUnitsAt(r, i + 1);
    FreeUnitsConcat(ring[..i + 1], ring[i + 1..]);
    assert r[..i + 1] == ring[..i + 1] && r[i + 2..] == ring[i + 1..];
    assert ring[..i + 1] + ring[i + 1..] == ring;
  }

  lemma JoinUnits(ring: seq<Block>, j: nat)
    ensures FreeUnits(Join(ring, j)) == FreeUnits(ring)
  {
    if Touches(ring, j) {
      var r := Absorb(ring, j);
      FreeUnitsAt(ring, j);
      FreeUnitsAt(r, j);
      assert ring[j + 1..] == [ring[j + 1]] + ring[j + 2..];
      assert r[..j] == ring[..j] && r[j + 1..] == ring[j + 2..];
    }
  }

  lemma AllocUnits(s: State, k: nat)
    requires Inv(s) && 0 < k
    ensures FreeUnits(Alloc(s, k).0.ring) == FreeUnits(s.ring) - if Alloc(s, k).1.Some? then k else 0
  {
    FindFits(s, k);
    match Find(s, k)
    case None =>
    case Some(i) => CutUnits(s.ring, i, Block(s.ring[i].addr, s.ring[i].size - k));
  }

  lemma AllocTotal(s: State, k: nat)
    requires Inv(s) && 0 < k
    ensures Total(Alloc(s, k).0.live) == Total(s.live) + if Alloc(s, k).1.Some? then k else 0
  {
    AllocInv(s, k);
    match Alloc(s, k).1
    case None =>
    case Some(a) => TotalInsert(s.live, a, k);
  }

  lemma AllocBalanced(s: State, k: nat)
    requires Inv(s) && 0 < k && Balanced(s)
    ensures Balanced(Alloc(s, k).0)
    ensures FreeUnits(Alloc(s, k).0.ring) == FreeUnits(s.ring) - if Alloc(s, k).1.Some? then k else 0
  {
    AllocInv(s, k);
    AllocUnits(s, k);
    AllocTotal(s, k);
  }

  lemma FreeBalanced(s: State, a: nat)
    requires Inv(s) && a in s.live && s.ring[0].addr < a && Balanced(s)
    ensures Balanced(Free(s, a))
    ensures FreeUnits(Free(s, a).ring) == FreeUnits(s.ring) + s.live[a]
  {
    var i, b := Position(s.ring, a), Block(a, s.live[a]);
    PutUnits(s.ring, i, b);
    JoinUnits(Put(s.ring, i, b), i + 1);
    JoinUnits(Join(Put(s.ring, i, b), i + 1), i);
    TotalSplit(s.live, a);
  }

  /** Conservation over runs: free and handed-out units always add up to the heap. */
  lemma {:induction false} RunBalanced(s: State, ops: seq<Op>, t: State)
    requires Inv(s) && Balanced(s) && Reaches(s, ops, t)
    ensures Balanced(t)
    decreases |ops|
  {
    if ops != [] {
      match ops[0] {
        case Allocate(k) => AllocBalanced(s, k);
        case GiveBack(a) => FreeInv(s, a); FreeBalanced(s, a);
      }
      RunBalanced(Step(s, ops[0]), ops[1..], t);
    }
  }
}

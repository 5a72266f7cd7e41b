/** What the buddy allocator promises over whole runs. */
module BuddyTheorems {
  import opened Basics
  import opened Dyadic
  import opened BuddySpec

  // ---- the two operations, as the elementary steps they perform

  /** The first nonempty list at order `k` or above; |s.free| when there is none. */
  function FirstList(s: State, k: nat): (j: nat)
    requires k <= |s.free|
    ensures k <= j <= |s.free|
    ensures j < |s.free| ==> s.free[j] != []
    ensures forall i :: k <= i < j ==> s.free[i] == []
    decreases |s.free| - k
  {
    if k == |s.free| || s.free[k] != [] then k else FirstList(s, k + 1)
  }

  function SplitTo(s: State, u: nat, k: nat): State
    requires u in s.live && k <= s.live[u] <= |s.free|
    decreases if u in s.live then s.live[u] else 0
  {
    if s.live[u] == k then s else SplitTo(Split(s, u), u, k)
  }

  function Alloc(s: State, k: nat): (State, Option<nat>)
    requires k <= |s.free|
  {
    var j := FirstList(s, k);
    if j == |s.free| then (s, None)
    else (SplitTo(Take(s, j), s.free[j][0], k), Some(s.free[j][0]))
  }

  function Free(s: State, u: nat): State
    requires |s.free| == MAX_ORDER + 1
    requires u in s.live && s.live[u] <= MAX_ORDER && Aligned(u, s.live[u])
    decreases MAX_ORDER - if u in s.live then s.live[u] else 0
  {
    if s.live[u] < MAX_ORDER && BuddyFree(s, u) then
      BuddyInvolution(u, s.live[u]);
      Free(Merge(s, u), Left(u, s.live[u]))
    else
      Release(s, u)
  }

  lemma {:induction false} SplitToInv(s: State, u: nat, k: nat)
    requires Inv(s) && u in s.live && k <= s.live[u]
    ensures var s' := SplitTo(s, u, k); Inv(s') && s'.top == s.top && s'.live == s.live[u := k]
    decreases if u in s.live then s.live[u] else 0
  {
    if s.live[u] != k {
      SplitInv(s, u);
      SplitToInv(Split(s, u), u, k);
    }
  }

  /** An allocation keeps the invariant and adds exactly the block it returns. */
  lemma AllocInv(s: State, k: nat)
    requires Inv(s) && k <= MAX_ORDER
    ensures var (s', r) := Alloc(s, k);
            && Inv(s') && s'.top == s.top
            && (r.None? ==> s' == s)
            && (r.Some? ==> r.value !in s.live && s'.live == s.live[r.value := k])
  {
    var j := FirstList(s, k);
    if j < |s.free| {
      assert IsFree(s, j, s.free[j][0]);
      TakeInv(s, j);
      SplitToInv(Take(s, j), s.free[j][0], k);
    }
  }

  /** A free keeps the invariant and removes exactly the block it is given. */
  lemma {:induction false} FreeInv(s: State, u: nat)
    requires Inv(s) && u in s.live
    ensures Inv(Free(s, u)) && Free(s, u).top == s.top && Free(s, u).live == s.live - {u}
    decreases MAX_ORDER - if u in s.live then s.live[u] else 0
  {
    if s.live[u] < MAX_ORDER && BuddyFree(s, u) {
      MergeInv(s, u);
      var l := Left(u, s.live[u]);
      FreeInv(Merge(s, u), l);
      assert IsFree(s, s.live[u], Buddy(u, s.live[u]));
      assert Merge(s, u).live - {l} == s.live - {u};
    } else {
      if s.live[u] == MAX_ORDER && BuddyFree(s, u) { MergeTop(s, u); }
      ReleaseInv(s, u);
    }
  }

  // ---- completeness: what is free can be had

  /** Position `x` lies inside a handed-out block. */
  ghost predicate LiveAt(live: map<nat, nat>, x: nat) {
    exists u: nat :: u in live && u <= x < u + Pow2(live[u])
  }

  /** The run of 2^k minimum blocks at `v` is inside the region and no part of it is handed out. */
  ghost predicate FreeRun(s: State, v: nat, k: nat) {
    && Aligned(v, k) && v + Pow2(k) <= Pow2(s.top)
    && forall x: nat :: v <= x < v + Pow2(k) ==> !LiveAt(s.live, x)
  }

  /** A position not handed out lies in a listed block. */
  lemma FreePosition(s: State, x: nat) returns (k: nat, u: nat)
    requires Inv(s) && x < Pow2(s.top) && !LiveAt(s.live, x)
    ensures IsFree(s, k, u) && u <= x < u + Pow2(k)
  {
    assert Covered(s, x);
    k, u :| Covers(s, x, k, u);
  }

  ghost predicate Encloses(s: State, j: nat, u: nat, v: nat, k: nat) {
    k <= j && IsFree(s, j, u) && u <= v && v + Pow2(k) <= u + Pow2(j)
  }

  lemma FreeHalves(s: State, v: nat, k: nat)
    requires FreeRun(s, v, k) && 0 < k
    ensures FreeRun(s, v, k - 1) && FreeRun(s, v + Pow2(k - 1), k - 1)
  {
    AlignedDown(v, k, k - 1);
    AlignedStep(v, k - 1);
  }

  /** Of two listed blocks around the halves of a run one holds the whole run, as they cannot be the halves. */
  lemma OneEncloses(s: State, v: nat, k: nat, j: nat, u: nat, i: nat, w: nat)
    requires Inv(s) && 0 < k && Aligned(v, k) && Encloses(s, j, u, v, k - 1) && Encloses(s, i, w, v + Pow2(k - 1), k - 1)
    ensures Encloses(s, j, u, v, k) || Encloses(s, i, w, v, k)
  {
    assert IsBlock(s, j, u) && IsBlock(s, i, w);
    JoinHalves(v, k, j, u, i, w);
    NoFreePair(s, k - 1, v);
  }

  /** Full coalescing: an entirely free aligned run lies inside one listed block. */
  lemma {:induction false} FreeRunInOneBlock(s: State, v: nat, k: nat) returns (j: nat, u: nat)
    requires Inv(s) && FreeRun(s, v, k)
    ensures k <= j && IsFree(s, j, u) && u <= v && v + Pow2(k) <= u + Pow2(j)
    decreases k
  {
    if k == 0 {
      j, u := FreePosition(s, v);
    } else {
      FreeHalves(s, v, k);
      j, u := FreeRunInOneBlock(s, v, k - 1);
      var i, w := FreeRunInOneBlock(s, v + Pow2(k - 1), k - 1);
      OneEncloses(s, v, k, j, u, i, w);
      if !Encloses(s, j, u, v, k) {
        j, u := i, w;
      }
    }
  }

  /** Blocks around the two halves of an aligned run: either one holds the whole run, or they are the halves. */
  lemma JoinHalves(v: nat, k: nat, j: nat, u: nat, i: nat, w: nat)
    requires 0 < k && Aligned(v, k) && Aligned(u, j) && Aligned(w, i) && k - 1 <= j && k - 1 <= i
    requires u <= v && v + Pow2(k - 1) <= u + Pow2(j)
    requires w <= v + Pow2(k - 1) && v + Pow2(k) <= w + Pow2(i)
    ensures if k <= j then u <= v && v + Pow2(k) <= u + Pow2(j) else u == v
    ensures if k <= i then w <= v && v + Pow2(k) <= w + Pow2(i) else w == v + Pow2(k - 1)
  {
    if k <= j { Nested(v, k, u, j); }
    if k <= i { Nested(v, k, w, i); }
  }

  lemma NoFreePair(s: State, k: nat, v: nat)
    requires Inv(s) && Aligned(v, k + 1)
    ensures !(IsFree(s, k, v) && IsFree(s, k, v + Pow2(k)))
  {
    AlignedDown(v, k + 1, k);
    assert Buddy(v, k) == v + Pow2(k);
  }

  /** No false failures: an allocation of order `k` fails exactly when no aligned run of 2^k minimum
      blocks is entirely free. */
  lemma AllocFailsExactlyWhenFull(s: State, k: nat)
    requires Inv(s) && k <= MAX_ORDER
    ensures Alloc(s, k).1.None? <==> forall v: nat :: !FreeRun(s, v, k)
  {
    if v: nat :| FreeRun(s, v, k) {
      var j, u := FreeRunInOneBlock(s, v, k);
      assert s.free[j] != [];
    }
    var j := FirstList(s, k);
    if j < |s.free| {
      var u := s.free[j][0];
      assert IsFree(s, j, u) && IsBlock(s, j, u);
      AlignedDown(u, j, k);
      Pow2Mono(k, j);
      forall x: nat | u <= x < u + Pow2(k) ensures !LiveAt(s.live, x) {
        FreeNotLive(s, j, u, x);
      }
      assert FreeRun(s, u, k);
    }
  }

  lemma FreeNotLive(s: State, k: nat, u: nat, x: nat)
    requires Inv(s) && IsFree(s, k, u) && u <= x < u + Pow2(k)
    ensures !LiveAt(s.live, x)
  {
    forall v: nat | v in s.live ensures !(v <= x < v + Pow2(s.live[v])) {
      FreeApartFromLive(s, k, u, v);
    }
  }

  lemma FreeApartFromLive(s: State, k: nat, u: nat, v: nat)
    requires Disjoint(s) && IsFree(s, k, u) && v in s.live
    ensures Apart(k, u, s.live[v], v)
  {
    assert u !in s.live;
    assert IsBlock(s, k, u) && IsBlock(s, s.live[v], v);
  }

  // ---- canonicity: the free blocks are determined by what is handed out

  lemma SameLiveSubset(s: State, t: State, k: nat, u: nat)
    requires Inv(s) && Inv(t) && s.top == t.top && s.live == t.live && IsFree(s, k, u)
    ensures IsFree(t, k, u)
  {
    assert IsBlock(s, k, u);
    forall x: nat | u <= x < u + Pow2(k) ensures !LiveAt(t.live, x) {
      FreeNotLive(s, k, u, x);
    }
    var j, v := FreeRunInOneBlock(t, u, k);
    assert IsBlock(t, j, v);
    forall x: nat | v <= x < v + Pow2(j) ensures !LiveAt(s.live, x) {
      FreeNotLive(t, j, v, x);
    }
    var i, w := FreeRunInOneBlock(s, v, j);
    assert IsBlock(s, i, w);
    assert Pow2(j) <= Pow2(i);
    assert i == k && w == u;
    Pow2Strict(k, j);
  }

  /** Two reachable states that hand out the same blocks list the same free blocks. */
  lemma LiveDeterminesFree(s: State, t: State)
    requires Inv(s) && Inv(t) && s.top == t.top && s.live == t.live
    ensures forall k: nat, u: nat :: IsFree(s, k, u) <==> IsFree(t, k, u)
  {
    forall k: nat, u: nat
      ensures IsFree(s, k, u) <==> IsFree(t, k, u)
    {
      if IsFree(s, k, u) { SameLiveSubset(s, t, k, u); }
      if IsFree(t, k, u) { SameLiveSubset(t, s, k, u); }
    }
  }

  /** Freeing what was just allocated lists the same free blocks as before. */
  lemma FreeUndoesAlloc(s: State, k: nat)
    requires Inv(s) && k <= MAX_ORDER && Alloc(s, k).1.Some?
    ensures var (t, r) := Alloc(s, k);
            && r.value in t.live && Inv(t)
            && var t' := Free(t, r.value);
               t'.live == s.live && forall j: nat, u: nat :: IsFree(s, j, u) <==> IsFree(t', j, u)
  {
    var (t, r) := Alloc(s, k);
    AllocInv(s, k);
    FreeInv(t, r.value);
    assert t.live - {r.value} == s.live;
    LiveDeterminesFree(s, Free(t, r.value));
  }

  // ---- whole runs

  datatype Op = Allocate(order: nat) | GiveBack(block: nat)

  /** What the allocator asks of its callers: orders up to the maximum, and only live blocks freed. */
  predicate Legal(s: State, op: Op) {
    match op
    case Allocate(k) => k <= MAX_ORDER
    case GiveBack(u) => u in s.live
  }

  ghost function Step(s: State, op: Op): State
    requires Inv(s) && Legal(s, op)
    ensures Inv(Step(s, op)) && Step(s, op).top == s.top
  {
    match op
    case Allocate(k) => AllocInv(s, k); Alloc(s, k).0
    case GiveBack(u) => FreeInv(s, u); Free(s, u)
  }

  /** `t` is reached from `s` by the operations `ops`. */
  ghost predicate Reaches(s: State, ops: seq<Op>, t: State)
    requires Inv(s)
    decreases |ops|
  {
    if ops == [] then t == s
    else Legal(s, ops[0]) && Reaches(Step(s, ops[0]), ops[1..], t)
  }

  /** One block, as large as the region, is free. */
  function Initial(top: nat): (s: State)
    requires top <= MAX_ORDER
    ensures Inv(s)
  {
    var s := State(top, seq(MAX_ORDER + 1, k => if k == top then [0] else []), map[]);
    OneBlockInv(s);
    s
  }

  lemma OneBlockInv(s: State)
    requires s.top <= MAX_ORDER && |s.free| == MAX_ORDER + 1 && s.live == map[]
    requires forall k :: 0 <= k <= MAX_ORDER ==> s.free[k] == if k == s.top then [0] else []
    ensures Inv(s)
  {
    assert forall k: nat, u: nat :: IsBlock(s, k, u) ==> k == s.top && u == 0;
    assert IsFree(s, s.top, 0);
    forall x: nat | x < Pow2(s.top) ensures Covered(s, x) {
      assert Covers(s, x, s.top, 0);
    }
    AlignedZero(s.top);
  }

  lemma {:induction false} AlignedZero(k: nat)
    ensures Aligned(0, k)
  {
    if k != 0 { AlignedZero(k - 1); }
  }

  /** Tiling, alignment and full coalescing hold after every run. */
  lemma {:induction false} RunInv(s: State, ops: seq<Op>, t: State)
    requires Inv(s) && Reaches(s, ops, t)
    ensures Inv(t) && t.top == s.top
    decreases |ops|
  {
    if ops != [] {
      RunInv(Step(s, ops[0]), ops[1..], t);
    }
  }

  /** With nothing handed out, the lists can only be those of a fresh heap. */
  lemma NothingLiveIsInitial(t: State)
    requires Inv(t) && t.live == map[] && |t.free| == MAX_ORDER + 1
    ensures t.top <= MAX_ORDER && t == Initial(t.top)
  {
    var s := Initial(t.top);
    LiveDeterminesFree(s, t);
    forall k | 0 <= k <= MAX_ORDER ensures t.free[k] == s.free[k] {
      if k == t.top {
        assert IsFree(s, t.top, 0);
        assert 0 in t.free[k];
        assert forall i :: 0 <= i < |t.free[k]| ==> IsFree(t, k, t.free[k][i]);
        OnlyZero(t.free[k]);
      } else {
        HeadIsFree(t, k);
      }
    }
  }

  lemma HeadIsFree(s: State, k: nat)
    requires k < |s.free|
    ensures s.free[k] != [] ==> IsFree(s, k, s.free[k][0])
  {
  }

  /** Once everything has been freed, in whatever order, the lists are those of a fresh heap. */
  lemma AllFreedRestoresInitial(top: nat, ops: seq<Op>, t: State)
    requires top <= MAX_ORDER && Reaches(Initial(top), ops, t)
    requires t.live == map[]
    ensures t == Initial(top)
  {
    RunInv(Initial(top), ops, t);
    NothingLiveIsInitial(t);
  }

  lemma DifferAt(xs: seq<nat>, i: nat, j: nat)
    requires Distinct(xs) && i < j < |xs|
    ensures xs[i] != xs[j]
  {
  }

  lemma OnlyZero(xs: seq<nat>)
    requires Distinct(xs) && 0 in xs && forall i :: 0 <= i < |xs| ==> xs[i] == 0
    ensures xs == [0]
  {
    if 1 < |xs| { DifferAt(xs, 0, 1); }
  }

  // ---- which block is taken, and where the rest goes

  /** From `free` to `after` the lists from `k` to below `j` have got a right half of block `u` each. */
  ghost predicate HalvesListed(free: seq<seq<nat>>, after: seq<seq<nat>>, u: nat, k: nat, j: nat) {
    && |after| == |free|
    && (forall i :: 0 <= i < |free| && k <= i < j ==> after[i] == [u + Pow2(i)] + free[i])
    && (forall i :: 0 <= i < |free| && (i < k || j <= i) ==> after[i] == free[i])
  }

  lemma OneHalfMore(free: seq<seq<nat>>, mid: seq<seq<nat>>, after: seq<seq<nat>>, u: nat, k: nat, j: nat)
    requires k <= j < |free| && mid == free[j := [u + Pow2(j)] + free[j]] && HalvesListed(mid, after, u, k, j)
    ensures HalvesListed(free, after, u, k, j + 1)
  {
  }

  lemma {:induction false} SplitToLists(s: State, u: nat, k: nat)
    requires u in s.live && k <= s.live[u] <= |s.free|
    ensures HalvesListed(s.free, SplitTo(s, u, k).free, u, k, s.live[u])
    decreases s.live[u]
  {
    if s.live[u] != k {
      SplitToLists(Split(s, u), u, k);
      OneHalfMore(s.free, Split(s, u).free, SplitTo(s, u, k).free, u, k, s.live[u] - 1);
    }
  }

  /** The block comes from the head of list `j`, the lowest that has one; its left end is handed out, and the right
      halves that are left over are the only blocks in the lists between. */
  lemma AllocServes(s: State, k: nat, j: nat)
    requires Inv(s) && k <= j < |s.free| && s.free[j] != [] && forall i :: k <= i < j ==> s.free[i] == []
    ensures var (t, r) := Alloc(s, k);
            && r == Some(s.free[j][0]) && |t.free| == |s.free| && t.free[j] == s.free[j][1..]
            && (forall i :: k <= i < j ==> t.free[i] == [s.free[j][0] + Pow2(i)])
            && (forall i :: 0 <= i < k || j < i < |s.free| ==> t.free[i] == s.free[i])
  {
    assert FirstList(s, k) == j;
    SplitToLists(Take(s, j), s.free[j][0], k);
    HalvesAlone(Take(s, j).free, Alloc(s, k).0.free, s.free[j][0], k, j);
  }

  lemma HalvesAlone(free: seq<seq<nat>>, after: seq<seq<nat>>, u: nat, k: nat, j: nat)
    requires j <= |free| && HalvesListed(free, after, u, k, j) && forall i :: k <= i < j ==> free[i] == []
    ensures forall i :: k <= i < j ==> after[i] == [u + Pow2(i)]
  {
  }

  /** A freed block, with what it was joined with, is at the front of its list: the next request of that order gets it. */
  lemma {:induction false} FreeGoesFirst(s: State, u: nat) returns (m: nat)
    requires Inv(s) && |s.free| == MAX_ORDER + 1 && u in s.live && s.live[u] <= MAX_ORDER && Aligned(u, s.live[u])
    ensures var t := Free(s, u);
            && |t.free| == MAX_ORDER + 1 && s.live[u] <= m <= MAX_ORDER && t.free[m] != []
            && t.free[m][0] <= u && u + Pow2(s.live[u]) <= t.free[m][0] + Pow2(m)
            && Alloc(t, m).1 == Some(t.free[m][0])
    decreases MAX_ORDER - s.live[u]
  {
    var k := s.live[u];
    if k < MAX_ORDER && BuddyFree(s, u) {
      MergeInv(s, u);
      BuddyInvolution(u, k);
      m := FreeGoesFirst(Merge(s, u), Left(u, k));
    } else {
      m := k;
    }
  }

  // ---- accounting

  function ListedUnits(free: seq<seq<nat>>): nat {
    if free == [] then 0
    else ListedUnits(free[..|free| - 1]) + |free[|free| - 1]| * Pow2(|free| - 1)
  }

  lemma ListedLast(free: seq<seq<nat>>)
    requires free != []
    ensures var n := |free| - 1; 4096 * ListedUnits(free) == 4096 * ListedUnits(free[..n]) + |free[n]| * (4096 * Pow2(n))
  {
    Scale(|free[|free| - 1]|, Pow2(|free| - 1));
  }

  lemma Scale(a: nat, p: nat)
    ensures a * (4096 * p) == 4096 * (a * p)
  {
  }

  function Sizes(live: map<nat, nat>): map<nat, nat> {
    map u | u in live :: Pow2(live[u])
  }

  ghost function LiveUnits(live: map<nat, nat>): nat {
    Total(Sizes(live))
  }

  /** Every minimum block is accounted for, as listed or as handed out. */
  ghost predicate Balanced(s: State) {
    ListedUnits(s.free) + LiveUnits(s.live) == Pow2(s.top)
  }

  /** A list one block longer adds one block's size. */
  lemma {:induction false} ListedLonger(free: seq<seq<nat>>, k: nat, xs: seq<nat>)
    requires k < |free| && |xs| == |free[k]| + 1
    ensures ListedUnits(free[k := xs]) == ListedUnits(free) + Pow2(k)
  {
    var n := |free| - 1;
    if k == n {
      assert free[k := xs][..n] == free[..n];
      assert (|free[k]| + 1) * Pow2(k) == |free[k]| * Pow2(k) + Pow2(k);
    } else {
      assert free[k := xs][..n] == free[..n][k := xs];
      ListedLonger(free[..n], k, xs);
    }
  }

  lemma ListedShorter(free: seq<seq<nat>>, k: nat, xs: seq<nat>)
    requires k < |free| && |xs| + 1 == |free[k]|
    ensures ListedUnits(free[k := xs]) + Pow2(k) == ListedUnits(free)
  {
    ListedLonger(free[k := xs], k, free[k]);
    assert free[k := xs][k := free[k]] == free;
  }

  lemma LiveInsert(live: map<nat, nat>, u: nat, k: nat)
    requires u !in live
    ensures LiveUnits(live[u := k]) == LiveUnits(live) + Pow2(k)
  {
    var m := Sizes(live);
    assert Sizes(live[u := k]) == m[u := Pow2(k)];
    TotalInsert(m, u, Pow2(k));
  }

  lemma LiveRemove(live: map<nat, nat>, u: nat)
    requires u in live
    ensures LiveUnits(live - {u}) + Pow2(live[u]) == LiveUnits(live)
  {
    assert (live - {u})[u := live[u]] == live;
    LiveInsert(live - {u}, u, live[u]);
  }

  lemma InitialBalanced(top: nat)
    requires top <= MAX_ORDER
    ensures Balanced(Initial(top))
  {
    var none: seq<seq<nat>> := seq(MAX_ORDER + 1, _ => []);
    ListedNothing(none);
    ListedLonger(none, top, [0]);
    assert Initial(top).free == none[top := [0]] by {
      InitialLists(top, none);
    }
    assert Sizes(map[]) == map[];
  }

  lemma InitialLists(top: nat, none: seq<seq<nat>>)
    requires top <= MAX_ORDER && |none| == MAX_ORDER + 1 && forall k :: 0 <= k <= MAX_ORDER ==> none[k] == []
    ensures Initial(top).free == none[top := [0]]
  {
  }

  lemma {:induction false} ListedNothing(free: seq<seq<nat>>)
    requires forall k :: 0 <= k < |free| ==> free[k] == []
    ensures ListedUnits(free) == 0
  {
    if free != [] { ListedNothing(free[..|free| - 1]); }
  }

  lemma TakeBalanced(s: State, j: nat)
    requires Inv(s) && Balanced(s) && j < |s.free| && s.free[j] != []
    ensures Balanced(Take(s, j))
  {
    assert IsFree(s, j, s.free[j][0]);
    ListedShorter(s.free, j, s.free[j][1..]);
    LiveInsert(s.live, s.free[j][0], j);
  }

  lemma SplitBalanced(s: State, u: nat)
    requires Balanced(s) && u in s.live && 0 < s.live[u] <= |s.free|
    ensures Balanced(Split(s, u))
  {
    var j := s.live[u] - 1;
    assert ListedUnits(Split(s, u).free) == ListedUnits(s.free) + Pow2(j) by {
      ListedLonger(s.free, j, [u + Pow2(j)] + s.free[j]);
    }
    assert LiveUnits(Split(s, u).live) + Pow2(j) == LiveUnits(s.live) by {
      LiveReplace(s.live, u, j);
    }
  }

  lemma LiveReplace(live: map<nat, nat>, u: nat, k: nat)
    requires u in live
    ensures LiveUnits(live[u := k]) + Pow2(live[u]) == LiveUnits(live) + Pow2(k)
  {
    var rest := live - {u};
    assert rest[u := k] == live[u := k];
    LiveRemove(live, u);
    LiveInsert(rest, u, k);
  }

  lemma MergeBalanced(s: State, u: nat)
    requires Inv(s) && Balanced(s) && u in s.live && BuddyFree(s, u)
    ensures Balanced(Merge(s, u))
  {
    var k := s.live[u];
    assert IsFree(s, k, Buddy(u, k));
    ListedShorter(s.free, k, Without(s.free[k], Buddy(u, k)));
    LiveRemove(s.live, u);
    LiveInsert(s.live - {u}, Left(u, k), k + 1);
  }

  lemma ReleaseBalanced(s: State, u: nat)
    requires Inv(s) && Balanced(s) && u in s.live
    ensures Balanced(Release(s, u))
  {
    ListedLonger(s.free, s.live[u], [u] + s.free[s.live[u]]);
    LiveRemove(s.live, u);
  }

  lemma {:induction false} SplitToBalanced(s: State, u: nat, k: nat)
    requires Inv(s) && Balanced(s) && u in s.live && k <= s.live[u]
    ensures Balanced(SplitTo(s, u, k))
    decreases if u in s.live then s.live[u] else 0
  {
    if s.live[u] != k {
      SplitBalanced(s, u);
      SplitInv(s, u);
      SplitToBalanced(Split(s, u), u, k);
    }
  }

  lemma AllocBalanced(s: State, k: nat)
    requires Inv(s) && Balanced(s) && k <= MAX_ORDER
    ensures Balanced(Alloc(s, k).0)
  {
    var j := FirstList(s, k);
    if j < |s.free| {
      TakeBalanced(s, j);
      TakeInv(s, j);
      SplitToBalanced(Take(s, j), s.free[j][0], k);
    }
  }

  lemma {:induction false} FreeBalanced(s: State, u: nat)
    requires Inv(s) && Balanced(s) && u in s.live
    ensures Balanced(Free(s, u))
    decreases MAX_ORDER - if u in s.live then s.live[u] else 0
  {
    if s.live[u] < MAX_ORDER && BuddyFree(s, u) {
      MergeBalanced(s, u);
      MergeInv(s, u);
      FreeBalanced(Merge(s, u), Left(u, s.live[u]));
    } else {
      ReleaseBalanced(s, u);
    }
  }

  /** Conservation over runs: listed and handed-out memory always add up to the managed region. */
  lemma {:induction false} RunBalanced(s: State, ops: seq<Op>, t: State)
    requires Inv(s) && Balanced(s) && Reaches(s, ops, t)
    ensures Balanced(t)
    decreases |ops|
  {
    if ops != [] {
      match ops[0] {
        case Allocate(k) => AllocBalanced(s, k);
        case GiveBack(u) => FreeBalanced(s, u);
      }
      RunBalanced(Step(s, ops[0]), ops[1..], t);
    }
  }
}

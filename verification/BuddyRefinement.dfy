/** The pointer writes of the buddy allocator do to RAM what its operations do to the abstract state,
    and touch no word of a block that stays handed out. */
module BuddyRefinement {
  import opened Basics
  import opened Dyadic
  import opened BuddySpec
  import opened BuddyTheorems
  import opened BuddyLayout
  import Contract = AllocatorContract

  /** Largest request whose block size the 64-bit doubling loop can still reach. */
  const MAX_REQUEST: nat := 0x8000_0000_0000_0000 - 8

  predicate Fits(size: nat, k: nat) {
    size + 8 <= 4096 * Pow2(k)
  }

  /** The smallest order whose blocks hold `size` bytes and the metadata. */
  ghost predicate IsOrderOf(k: nat, size: nat) {
    Fits(size, k) && forall j: nat :: Fits(size, j) ==> k <= j
  }

  lemma FitsFrom(size: nat, k: nat)
    requires 0 < k && !Fits(size, k - 1) && Fits(size, k)
    ensures IsOrderOf(k, size)
  {
    forall j: nat | Fits(size, j) ensures k <= j {
      if j < k { Pow2Mono(j, k - 1); }
    }
  }

  // ---- what a write inside the heap may not touch

  /** Every word of every block in `live` is as it was. */
  ghost predicate KeepsLive(m: seq<int>, m': seq<int>, start: nat, live: map<nat, nat>) {
    && |m'| == |m|
    && forall i :: 0 <= i < |m| && InLive(start, live, i) ==> m'[i] == m[i]
  }

  ghost predicate InLive(start: nat, live: map<nat, nat>, i: int) {
    exists u: nat :: u in live && Addr(start, u) <= i < Addr(start, u) + 512 * Pow2(live[u])
  }

  lemma OutsideBlock(start: nat, u: nat, k: nat, r: nat)
    ensures u <= r < u + Pow2(k) <==> Addr(start, u) <= Addr(start, r) < Addr(start, u) + 512 * Pow2(k)
  {
  }

  lemma KeepsWrite(m: seq<int>, m': seq<int>, start: nat, live: map<nat, nat>, r: nat, x: int)
    requires KeepsLive(m, m', start, live) && !LiveAt(live, r) && Addr(start, r) < |m|
    ensures KeepsLive(m, m'[Addr(start, r) := x], start, live)
  {
    if InLive(start, live, Addr(start, r)) {
      var u: nat :| u in live && Addr(start, u) <= Addr(start, r) < Addr(start, u) + 512 * Pow2(live[u]);
      OutsideBlock(start, u, live[u], r);
    }
  }

  lemma PendingApart(s: State, u: nat)
    requires Inv(s) && u in s.live
    ensures forall x: nat :: u <= x < u + Pow2(s.live[u]) ==> !LiveAt(s.live - {u}, x)
  {
    assert IsBlock(s, s.live[u], u);
    forall x: nat | u <= x < u + Pow2(s.live[u]) ensures !LiveAt(s.live - {u}, x) {
      forall v: nat | v in s.live - {u} ensures !(v <= x < v + Pow2((s.live - {u})[v])) {
        assert IsBlock(s, s.live[v], v);
      }
    }
  }

  lemma ListedApart(s: State, k: nat, u: nat, pending: nat)
    requires Inv(s) && IsFree(s, k, u)
    ensures !LiveAt(s.live - {pending}, u)
  {
    FreeNotLive(s, k, u, u);
    forall v: nat | v in s.live - {pending} ensures !(v <= u < v + Pow2((s.live - {pending})[v])) {
      assert v in s.live;
    }
  }

  // ---- the caller's view

  function Pointer(start: nat, u: nat): nat {
    Addr(start, u) + 1
  }

  function UnitOf(start: nat, p: int): int {
    (p - 1 - start) / 512
  }

  lemma UnitOfPointer(start: nat, u: nat)
    ensures UnitOf(start, Pointer(start, u)) == u
  {
  }

  function Pointers(start: nat, live: map<nat, nat>): (ps: set<nat>)
    ensures forall p :: p in ps ==>
              var u := UnitOf(start, p); 0 <= u && u in live && p == start + 512 * u + 1
    ensures forall u {:trigger Pointer(start, u)} :: u in live ==> Pointer(start, u) in ps
  {
    set u | u in live :: Pointer(start, u)
  }

  /** The words a caller may use: all of its block except the metadata word. */
  function Regions(start: nat, live: map<nat, nat>): map<nat, nat> {
    map p | p in Pointers(start, live) :: 512 * Pow2(live[UnitOf(start, p)]) - 1
  }

  lemma RegionOf(start: nat, live: map<nat, nat>, u: nat)
    requires u in live
    ensures Pointer(start, u) in Regions(start, live)
    ensures Regions(start, live)[Pointer(start, u)] == 512 * Pow2(live[u]) - 1
  {
    UnitOfPointer(start, u);
  }

  function Observe(m: seq<int>, start: nat, top: nat, live: map<nat, nat>): Contract.View {
    Contract.View(m, start, Addr(start, Pow2(top)), Regions(start, live))
  }

  /** Handed-out blocks lie in the region, apart from each other. */
  ghost predicate LiveApart(top: nat, live: map<nat, nat>) {
    && (forall u :: u in live ==> u + Pow2(live[u]) <= Pow2(top))
    && (forall u, w :: u in live && w in live && u != w ==> Apart(live[u], u, live[w], w))
  }

  lemma InvLiveApart(s: State)
    requires Inv(s)
    ensures LiveApart(s.top, s.live)
  {
    assert forall u :: u in s.live ==> IsBlock(s, s.live[u], u);
  }

  lemma ObserveGood(m: seq<int>, start: nat, top: nat, live: map<nat, nat>)
    requires LiveApart(top, live) && 0 < start && Addr(start, Pow2(top)) <= |m|
    ensures Contract.Good(Observe(m, start, top, live))
  {
    var v := Observe(m, start, top, live);
    forall p | p in v.live ensures v.lo <= p && p + v.live[p] <= v.hi {
      assert UnitOf(start, p) in live;
    }
    forall p, q | p in v.live && q in v.live && p != q ensures Contract.Apart(p, v.live[p], q, v.live[q]) {
      assert Apart(live[UnitOf(start, p)], UnitOf(start, p), live[UnitOf(start, q)], UnitOf(start, q));
    }
  }

  lemma ObserveSame(m: seq<int>, m': seq<int>, start: nat, top: nat, live: map<nat, nat>, live': map<nat, nat>,
                    kept: map<nat, nat>, u: nat)
    requires LiveApart(top, live) && Addr(start, Pow2(top)) <= |m| && KeepsLive(m, m', start, kept)
    requires u in kept && u in live && u in live' && live[u] == kept[u] == live'[u]
    ensures Contract.SameRegion(Observe(m, start, top, live), Observe(m', start, top, live'), Pointer(start, u))
  {
    RegionOf(start, live, u);
    RegionOf(start, live', u);
  }

  lemma ObserveKept(m: seq<int>, m': seq<int>, start: nat, top: nat, live: map<nat, nat>, live': map<nat, nat>,
                    kept: map<nat, nat>)
    requires LiveApart(top, live) && Addr(start, Pow2(top)) <= |m| && KeepsLive(m, m', start, kept)
    requires forall u :: u in kept ==> u in live && u in live' && live[u] == kept[u] == live'[u]
    ensures Contract.Kept(Observe(m, start, top, live), Observe(m', start, top, live'), Regions(start, kept).Keys)
  {
    forall p | p in Pointers(start, kept)
      ensures Contract.SameRegion(Observe(m, start, top, live), Observe(m', start, top, live'), p)
    {
      ObserveSame(m, m', start, top, live, live', kept, UnitOf(start, p));
    }
  }

  lemma PointersInsert(start: nat, live: map<nat, nat>, u: nat, k: nat)
    requires u !in live
    ensures Pointer(start, u) !in Pointers(start, live)
    ensures Pointers(start, live[u := k]) == Pointers(start, live) + {Pointer(start, u)}
  {
    UnitOfPointer(start, u);
  }

  lemma RegionsInsert(start: nat, live: map<nat, nat>, u: nat, k: nat)
    requires u !in live
    ensures Pointer(start, u) !in Regions(start, live)
    ensures Regions(start, live[u := k]).Keys == Regions(start, live).Keys + {Pointer(start, u)}
    ensures Regions(start, live[u := k])[Pointer(start, u)] == 512 * Pow2(k) - 1
  {
    PointersInsert(start, live, u, k);
    RegionOf(start, live[u := k], u);
  }

  lemma ObserveAlloc(m: seq<int>, m': seq<int>, start: nat, top: nat, live: map<nat, nat>, u: nat, k: nat, size: nat)
    requires 0 < start && Addr(start, Pow2(top)) <= |m| && KeepsLive(m, m', start, live)
    requires u !in live && LiveApart(top, live) && LiveApart(top, live[u := k]) && Fits(size, k)
    ensures Contract.Allocates(Observe(m, start, top, live), Observe(m', start, top, live[u := k]), size, Pointer(start, u))
  {
    ObserveGood(m', start, top, live[u := k]);
    ObserveKept(m, m', start, top, live, live[u := k], live);
    RegionsInsert(start, live, u, k);
  }

  lemma ObserveNothing(m: seq<int>, m': seq<int>, start: nat, top: nat, live: map<nat, nat>, size: nat)
    requires 0 < start && Addr(start, Pow2(top)) <= |m| && LiveApart(top, live) && KeepsLive(m, m', start, live)
    ensures Contract.Allocates(Observe(m, start, top, live), Observe(m', start, top, live), size, 0)
  {
    ObserveGood(m', start, top, live);
    ObserveKept(m, m', start, top, live, live, live);
  }

  lemma ObserveFree(m: seq<int>, m': seq<int>, start: nat, top: nat, rest: map<nat, nat>, u: nat, k: nat)
    requires 0 < start && Addr(start, Pow2(top)) <= |m| && u !in rest && KeepsLive(m, m', start, rest)
    requires LiveApart(top, rest[u := k]) && LiveApart(top, rest)
    ensures Contract.Frees(Observe(m, start, top, rest[u := k]), Observe(m', start, top, rest), Pointer(start, u))
  {
    ObserveGood(m', start, top, rest);
    ObserveKept(m, m', start, top, rest[u := k], rest, rest);
    RegionsInsert(start, rest, u, k);
  }

  lemma InitialLayout(m: seq<int>, heads: seq<int>, start: nat, top: nat)
    requires top <= MAX_ORDER && start < |m| && m[start] == 0 && |heads| == MAX_ORDER + 1
    requires forall k :: 0 <= k < |heads| ==> heads[k] == if k == top then start else 0
    ensures Layout(m, heads, start, Initial(top), {})
  {
  }

  ghost predicate RunClear(live: map<nat, nat>, u: nat, k: nat) {
    forall x: nat :: u <= x < u + Pow2(k) ==> !LiveAt(live, x)
  }

  /** In the middle of carving order `target` for the pending block `u`, popped at order `order`; `live0`
      was handed out before. */
  ghost predicate Carving(m0: seq<int>, r: Ram, start: nat, live0: map<nat, nat>, s: State,
                          order: nat, target: nat, u: nat) {
    && Inv(s) && RunClear(live0, u, order)
    && 0 < start && Addr(start, Pow2(s.top)) <= |r.words| && |r.heads| == MAX_ORDER + 1
    && u in s.live && target <= s.live[u] <= order
    && Layout(r.words, r.heads, start, s, {u})
    && KeepsLive(m0, r.words, start, live0)
  }

  lemma CarveStart(r: Ram, start: nat, s: State, order: nat, target: nat) returns (u: nat)
    requires Heap(r, start, s) && target <= order <= MAX_ORDER && r.heads[order] != 0
    ensures s.free[order] != [] && u == s.free[order][0] && r.heads[order] == Addr(start, u) < |r.words|
    ensures Carving(r.words, PopRam(r, order), start, s.live, Take(s, order), order, target, u)
  {
    TakeLayout(r.words, r.heads, start, s, order);
    TakeInv(s, order);
    u := s.free[order][0];
    assert IsFree(s, order, u);
    forall x: nat | u <= x < u + Pow2(order) ensures !LiveAt(s.live, x) {
      FreeNotLive(s, order, u, x);
    }
  }

  lemma CarveStep(m0: seq<int>, r: Ram, start: nat, live0: map<nat, nat>, s: State, order: nat, target: nat, u: nat)
    requires Carving(m0, r, start, live0, s, order, target, u) && target < s.live[u]
    ensures var j := s.live[u] - 1;
            var a := Addr(start, u) + 512 * Pow2(j);
            a < |r.words| && Carving(m0, PushRam(r, a, j), start, live0, Split(s, u), order, target, u)
  {
    var j := s.live[u] - 1;
    var x := u + Pow2(j);
    var a := Addr(start, u) + 512 * Pow2(j);
    assert a == Addr(start, x);
    LiveUnlisted(s, u);
    var r' := PushRam(r, a, j);
    assert Layout(r'.words, r'.heads, start, Split(s, u), {u}) by {
      SplitLayout(r.words, r.heads, start, s, u, x);
    }
    assert Inv(Split(s, u)) by { SplitInv(s, u); }
    assert KeepsLive(m0, r'.words, start, live0) by {
      Pow2Strict(j, order);
      KeepsWrite(m0, r.words, start, live0, x, r.heads[j]);
    }
  }

  lemma CarveEnd(m0: seq<int>, r: Ram, start: nat, live0: map<nat, nat>, s: State, order: nat, target: nat, u: nat)
    requires Carving(m0, r, start, live0, s, order, target, u) && s.live[u] == target
    ensures Addr(start, u) < |r.words|
    ensures var words := r.words[Addr(start, u) := target];
            Heap(Ram(words, r.heads), start, s) && KeepsLive(m0, words, start, live0)
  {
    LiveUnlisted(s, u);
    KeepsWrite(m0, r.words, start, live0, u, target);
    StampLayout(r.words, r.heads, start, s, u);
  }

  lemma InRam(r: Ram, start: nat, s: State, u: nat)
    requires Inv(s) && u in s.live && Addr(start, Pow2(s.top)) <= |r.words|
    ensures Addr(start, u) + 512 * Pow2(s.live[u]) <= |r.words| && s.live[u] <= MAX_ORDER
  {
    LiveUnlisted(s, u);
  }

  lemma {:induction false} HalveRefines(m0: seq<int>, r: Ram, start: nat, live0: map<nat, nat>, s: State,
                                        order: nat, target: nat, u: nat)
    requires Carving(m0, r, start, live0, s, order, target, u)
    requires Addr(start, u) + 512 * Pow2(s.live[u]) <= |r.words| && s.live[u] <= |r.heads|
    ensures Carving(m0, HalveRam(r, Addr(start, u), s.live[u], target), start, live0, SplitTo(s, u, target), order, target, u)
    decreases if u in s.live then s.live[u] else 0
  {
    if target < s.live[u] {
      CarveStep(m0, r, start, live0, s, order, target, u);
      HalveRefines(m0, PushRam(r, Addr(start, u) + 512 * Pow2(s.live[u] - 1), s.live[u] - 1), start, live0,
                   Split(s, u), order, target, u);
    }
  }

  lemma AllocFound(s: State, k: nat, j: nat)
    requires Inv(s) && k <= j <= MAX_ORDER && s.free[j] != []
    requires forall i :: k <= i < j ==> s.free[i] == []
    ensures Alloc(s, k) == (SplitTo(Take(s, j), s.free[j][0], k), Some(s.free[j][0]))
    ensures var u := s.free[j][0];
            && u !in s.live && Alloc(s, k).0.live == s.live[u := k] && Alloc(s, k).0.top == s.top
            && LiveApart(s.top, s.live) && LiveApart(s.top, s.live[u := k])
  {
    assert FirstList(s, k) == j;
    AllocInv(s, k);
    InvLiveApart(s);
    InvLiveApart(Alloc(s, k).0);
  }

  /** A heap laid out properly: the allocator's whole data structure. */
  ghost predicate Heap(r: Ram, start: nat, s: State) {
    && Inv(s) && 0 < start && Addr(start, Pow2(s.top)) <= |r.words| && |r.heads| == MAX_ORDER + 1
    && Layout(r.words, r.heads, start, s, {})
  }

  lemma CarveRefines(r: Ram, start: nat, s: State, order: nat, target: nat)
    requires Heap(r, start, s) && target <= order <= MAX_ORDER && r.heads[order] != 0
    ensures s.free[order] != [] && r.heads[order] == Addr(start, s.free[order][0])
    ensures r.heads[order] + 512 * Pow2(order) <= |r.words|
    ensures var r' := CarveRam(r, order, target);
            && Heap(r', start, SplitTo(Take(s, order), s.free[order][0], target))
            && KeepsLive(r.words, r'.words, start, s.live)
  {
    var u := CarveStart(r, start, s, order, target);
    var r1, s1 := PopRam(r, order), Take(s, order);
    InRam(r1, start, s1, u);
    HalveRefines(r.words, r1, start, s.live, s1, order, target, u);
    SplitToInv(s1, u, target);
    CarveEnd(r.words, HalveRam(r1, Addr(start, u), order, target), start, s.live, SplitTo(s1, u, target), order, target, u);
  }

  /** In the middle of giving block `u` back: it is pending, everything in `rest` stays handed out. */
  ghost predicate Freeing(m0: seq<int>, r: Ram, start: nat, s: State, u: nat, rest: map<nat, nat>) {
    && Inv(s) && 0 < start && Addr(start, Pow2(s.top)) <= |r.words| && |r.heads| == MAX_ORDER + 1
    && u in s.live && rest == s.live - {u}
    && Layout(r.words, r.heads, start, s, {u})
    && KeepsLive(m0, r.words, start, rest)
  }

  lemma FreeStep(m0: seq<int>, r: Ram, start: nat, s: State, u: nat, rest: map<nat, nat>)
    requires Freeing(m0, r, start, s, u, rest) && BuddyFree(s, u)
    ensures var k := s.live[u];
            var xs := s.free[k];
            && k < s.top
            && Chain(r.words, start, r.heads[k], xs)
            && Freeing(m0, UnlinkRam(r, start, xs, k, IndexOf(xs, Buddy(u, k))), start, Merge(s, u), Left(u, k), rest)
  {
    var k := s.live[u];
    var xs := s.free[k];
    var i := IndexOf(xs, Buddy(u, k));
    MergeInv(s, u);
    assert Chain(r.words, start, r.heads[k], xs);
    assert Left(u, k) == u || Left(u, k) !in s.live by {
      assert IsFree(s, k, Buddy(u, k));
    }
    assert Merge(s, u).live - {Left(u, k)} == rest;
    if 0 < i {
      assert IsFree(s, k, xs[i - 1]);
      ListedOnce(s, k, xs[i - 1]);
      ListedApart(s, k, xs[i - 1], u);
      KeepsWrite(m0, r.words, start, rest, xs[i - 1], r.words[Spot(start, xs, i)]);
    }
    MergeLayout(r.words, r.heads, start, s, u, i);
  }

  lemma {:induction false} FreeRefines(m0: seq<int>, r: Ram, start: nat, s: State, u: nat, rest: map<nat, nat>)
    requires Freeing(m0, r, start, s, u, rest)
    ensures Walkable(r, start, s, u)
    ensures var r' := FreeRam(r, start, s, u);
            Heap(r', start, Free(s, u)) && KeepsLive(m0, r'.words, start, rest)
    decreases MAX_ORDER - if u in s.live then s.live[u] else 0
  {
    var k := s.live[u];
    LiveUnlisted(s, u);
    assert Chain(r.words, start, r.heads[k], s.free[k]);
    if k < MAX_ORDER && BuddyFree(s, u) {
      FreeStep(m0, r, start, s, u, rest);
      FreeRefines(m0, UnlinkRam(r, start, s.free[k], k, IndexOf(s.free[k], Buddy(u, k))), start, Merge(s, u), Left(u, k), rest);
    } else {
      if BuddyFree(s, u) { MergeTop(s, u); }
      ReleaseLayout(r.words, r.heads, start, s, u);
      ReleaseInv(s, u);
      PendingApart(s, u);
      KeepsWrite(m0, r.words, start, rest, u, r.heads[k]);
    }
  }

  // ---- what each operation establishes

  /** The answer `p` to a request of order `k`, and the state it leaves. */
  predicate Answer(s: State, s': State, start: nat, k: nat, p: nat) {
    if MAX_ORDER < k || |s.free| <= MAX_ORDER then p == 0 && s' == s
    else
      var (t, r) := Alloc(s, k);
      s' == t && p == if r.Some? then Pointer(start, r.value) else 0
  }

  lemma AllocSucceeds(r: Ram, start: nat, s: State, order: nat, target: nat)
    requires Heap(r, start, s) && target <= order <= MAX_ORDER && r.heads[order] != 0
    requires forall i :: target <= i < order ==> r.heads[i] == 0
    ensures 0 <= r.heads[order] && r.heads[order] + 512 * Pow2(order) <= |r.words|
    ensures var r', s' := CarveRam(r, order, target), Alloc(s, target).0;
            && Heap(r', start, s') && s'.top == s.top && |r'.heads| == |r.heads|
            && Answer(s, s', start, target, r.heads[order] + 1)
            && KeepsLive(r.words, r'.words, start, s.live)
  {
    CarveRefines(r, start, s, order, target);
    EmptyBelow(r.words, r.heads, start, s, target, order);
    AllocFound(s, target, order);
  }

  lemma EmptyBelow(m: seq<int>, heads: seq<int>, start: nat, s: State, k: nat, j: nat)
    requires Layout(m, heads, start, s, {}) && 0 < start && k <= j <= |heads|
    requires forall i :: k <= i < j ==> heads[i] == 0
    ensures forall i :: k <= i < j ==> s.free[i] == []
  {
    forall i | k <= i < j ensures s.free[i] == [] {
      assert Chain(m, start, heads[i], s.free[i]);
    }
  }

  lemma AllocFails(r: Ram, start: nat, s: State, target: nat)
    requires Heap(r, start, s) && target <= MAX_ORDER
    requires forall i :: target <= i <= MAX_ORDER ==> r.heads[i] == 0
    ensures Answer(s, s, start, target, 0)
  {
    EmptyBelow(r.words, r.heads, start, s, target, |r.heads|);
  }

  lemma FreeSucceeds(r: Ram, start: nat, s: State, u: nat)
    requires Heap(r, start, s) && u in s.live
    ensures Addr(start, u) < |r.words| && r.words[Addr(start, u)] == s.live[u] <= MAX_ORDER && Aligned(u, s.live[u])
    ensures |s.free| == MAX_ORDER + 1 && Walkable(r, start, s, u)
    ensures var r', s' := FreeRam(r, start, s, u), Free(s, u);
            && Heap(r', start, s') && s'.top == s.top
            && KeepsLive(r.words, r'.words, start, s.live - {u})
  {
    InRam(r, start, s, u);
    var rest := s.live - {u};
    assert Freeing(r.words, r, start, s, u, rest);
    FreeRefines(r.words, r, start, s, u, rest);
    FreeInv(s, u);
  }

  // ---- the common interface

  /** The caller's view of a heap. */
  function ViewOf(r: Ram, start: nat, s: State): Contract.View {
    Observe(r.words, start, s.top, s.live)
  }

  /** An answered request meets the interface: the region is big enough, new, and disturbs no other. */
  lemma AllocConforms(r: Ram, r': Ram, start: nat, s: State, s': State, size: nat, k: nat, p: nat)
    requires Heap(r, start, s) && Heap(r', start, s') && KeepsLive(r.words, r'.words, start, s.live)
    requires IsOrderOf(k, size) && Answer(s, s', start, k, p)
    ensures Contract.Allocates(ViewOf(r, start, s), ViewOf(r', start, s'), size, p)
  {
    InvLiveApart(s);
    InvLiveApart(s');
    if p == 0 {
      assert s' == s by { if k <= MAX_ORDER { AllocInv(s, k); } }
      ObserveNothing(r.words, r'.words, start, s.top, s.live, size);
    } else {
      AllocInv(s, k);
      ObserveAlloc(r.words, r'.words, start, s.top, s.live, Alloc(s, k).1.value, k, size);
    }
  }

  /** A return meets the interface: only the returned region goes, the others keep their contents. */
  lemma FreeConforms(r: Ram, r': Ram, start: nat, s: State, u: nat)
    requires Heap(r, start, s) && u in s.live && |s.free| == MAX_ORDER + 1 && s.live[u] <= MAX_ORDER && Aligned(u, s.live[u])
    requires Heap(r', start, Free(s, u)) && KeepsLive(r.words, r'.words, start, s.live - {u})
    ensures Contract.Frees(ViewOf(r, start, s), ViewOf(r', start, Free(s, u)), Pointer(start, u))
  {
    LiveAfterFree(s, u);
    ObserveFree(r.words, r'.words, start, s.top, s.live - {u}, u, s.live[u]);
  }

  lemma LiveAfterFree(s: State, u: nat)
    requires Inv(s) && u in s.live && |s.free| == MAX_ORDER + 1 && s.live[u] <= MAX_ORDER && Aligned(u, s.live[u])
    ensures Free(s, u).live == s.live - {u} && Free(s, u).top == s.top && (s.live - {u})[u := s.live[u]] == s.live
    ensures LiveApart(s.top, s.live) && LiveApart(s.top, s.live - {u})
  {
    FreeInv(s, u);
    InvLiveApart(s);
    InvLiveApart(Free(s, u));
  }

  /** The exclusive-or of a block's relative byte address and its byte size is its buddy's. */
  lemma BuddyAddress(u: nat, k: nat)
    requires Aligned(u, k)
    ensures Xor(4096 * u, 4096 * Pow2(k)) == 4096 * Buddy(u, k)
  {
    XorIsBuddy(u, k);
    XorPages(u, Pow2(k));
  }
}

/** The buddy allocator on values: which blocks are listed free, which are handed out, and what
    splitting and coalescing do to them. Positions count minimum blocks from the heap start. */
module BuddySpec {
  import opened Dyadic

  const MAX_ORDER: nat := 16

  /** `free[k]` is the free list of order `k`, head first; `live` maps each handed-out block to its
      order. The managed region is the run [0, Pow2(top)). */
  datatype State = State(top: nat, free: seq<seq<nat>>, live: map<nat, nat>)

  predicate IsFree(s: State, k: nat, u: nat) {
    k < |s.free| && u in s.free[k]
  }

  predicate IsLive(s: State, k: nat, u: nat) {
    u in s.live && s.live[u] == k
  }

  predicate IsBlock(s: State, k: nat, u: nat) {
    IsFree(s, k, u) || IsLive(s, k, u)
  }

  predicate Covers(s: State, x: nat, k: nat, u: nat) {
    IsBlock(s, k, u) && u <= x < u + Pow2(k)
  }

  ghost predicate WellShaped(s: State) {
    && |s.free| == MAX_ORDER + 1
    && s.top <= MAX_ORDER
    && (forall k: nat, u: nat :: IsBlock(s, k, u) ==> k <= s.top && Aligned(u, k) && u + Pow2(k) <= Pow2(s.top))
    && (forall u: nat :: u in s.live ==> s.live[u] <= s.top && Aligned(u, s.live[u]))
  }

  predicate Apart(k: nat, u: nat, j: nat, v: nat) {
    u + Pow2(k) <= v || v + Pow2(j) <= u
  }

  ghost predicate Disjoint(s: State) {
    && (forall k: nat, u: nat :: IsFree(s, k, u) ==> u !in s.live)
    && (forall k: nat, u: nat, j: nat, v: nat ::
          IsBlock(s, k, u) && IsBlock(s, j, v) && (k != j || u != v) ==> Apart(k, u, j, v))
  }

  ghost predicate Covered(s: State, x: nat) {
    exists k: nat, u: nat :: Covers(s, x, k, u)
  }

  ghost predicate Covering(s: State) {
    forall x: nat :: x < Pow2(s.top) ==> Covered(s, x)
  }

  predicate Distinct(xs: seq<nat>) {
    forall i, j :: 0 <= i < j < |xs| ==> xs[i] != xs[j]
  }

  ghost predicate NoRepeats(s: State) {
    forall k :: 0 <= k < |s.free| ==> Distinct(s.free[k])
  }

  ghost predicate Coalesced(s: State)
    requires WellShaped(s)
  {
    forall k: nat, u: nat {:trigger IsFree(s, k, Buddy(u, k))} :: IsFree(s, k, u) ==> !IsFree(s, k, Buddy(u, k))
  }

  /** Free and live blocks tile the managed region, every block sits at a multiple of its size, no
      block is listed twice and no two buddies are both free. */
  ghost predicate Inv(s: State) {
    WellShaped(s) && Disjoint(s) && Covering(s) && NoRepeats(s) && Coalesced(s)
  }

  // ---- the four elementary steps

  /** Unlink the head of list `j` and hand it out whole. */
  function Take(s: State, j: nat): State
    requires j < |s.free| && s.free[j] != []
  {
    s.(free := s.free[j := s.free[j][1..]], live := s.live[s.free[j][0] := j])
  }

  /** Halve the handed-out block `u`; its right half goes to the front of the list below. */
  function Split(s: State, u: nat): State
    requires u in s.live && 0 < s.live[u] <= |s.free|
  {
    var j := s.live[u] - 1;
    s.(free := s.free[j := [u + Pow2(j)] + s.free[j]], live := s.live[u := j])
  }

  function Without(xs: seq<nat>, x: nat): (ys: seq<nat>)
    requires x in xs
    ensures |ys| == |xs| - 1
  {
    if xs[0] == x then xs[1..] else [xs[0]] + Without(xs[1..], x)
  }

  predicate BuddyFree(s: State, u: nat)
    requires u in s.live && Aligned(u, s.live[u])
  {
    IsFree(s, s.live[u], Buddy(u, s.live[u]))
  }

  function Left(u: nat, k: nat): nat
    requires Aligned(u, k)
  {
    if Buddy(u, k) < u then Buddy(u, k) else u
  }

  /** Unlink the free buddy of `u` and join the two. */
  function Merge(s: State, u: nat): State
    requires u in s.live && Aligned(u, s.live[u]) && BuddyFree(s, u)
  {
    var k := s.live[u];
    s.(free := s.free[k := Without(s.free[k], Buddy(u, k))], live := (s.live - {u})[Left(u, k) := k + 1])
  }

  /** Put the handed-out block `u` at the front of its list. */
  function Release(s: State, u: nat): State
    requires u in s.live && s.live[u] < |s.free|
  {
    var k := s.live[u];
    s.(free := s.free[k := [u] + s.free[k]], live := s.live - {u})
  }

  // ---- each elementary step keeps the invariant

  lemma TakeBlocks(s: State, j: nat, k: nat, v: nat)
    requires Inv(s) && j < |s.free| && s.free[j] != []
    ensures var u := s.free[j][0];
            && (IsFree(Take(s, j), k, v) <==> IsFree(s, k, v) && v != u)
            && (IsBlock(Take(s, j), k, v) <==> IsBlock(s, k, v))
  {
    var u, xs := s.free[j][0], s.free[j];
    assert IsFree(s, j, u) && IsBlock(s, j, u);
    assert xs == [u] + xs[1..] && u !in xs[1..];
    assert IsFree(s, k, v) && v == u ==> IsBlock(s, k, v);
  }

  lemma TakeInv(s: State, j: nat)
    requires Inv(s) && j < |s.free| && s.free[j] != []
    ensures Inv(Take(s, j))
  {
    var u, s' := s.free[j][0], Take(s, j);
    assert IsFree(s, j, u) && IsBlock(s, j, u);
    forall k: nat, v: nat
      ensures IsFree(s', k, v) <==> IsFree(s, k, v) && v != u
      ensures IsBlock(s', k, v) <==> IsBlock(s, k, v)
    {
      TakeBlocks(s, j, k, v);
    }
    forall x: nat | x < Pow2(s.top) ensures Covered(s', x) {
      assert Covered(s, x);
      var k: nat, v: nat :| Covers(s, x, k, v);
      assert Covers(s', x, k, v);
    }
  }

  lemma SplitBlocks(s: State, u: nat, k: nat, v: nat)
    requires Inv(s) && u in s.live && 0 < s.live[u]
    ensures var j := s.live[u] - 1;
            && (IsFree(Split(s, u), k, v) <==> IsFree(s, k, v) || (k == j && v == u + Pow2(j)))
            && (IsLive(Split(s, u), k, v) <==> (IsLive(s, k, v) && v != u) || (k == j && v == u))
    ensures IsBlock(s, k, v) ==> (v == u && k == s.live[u]) || Apart(k, v, s.live[u], u)
    ensures v in s.live && v != u ==> Apart(s.live[v], v, s.live[u], u)
  {
    assert IsBlock(s, s.live[u], u);
    assert v in s.live ==> IsBlock(s, s.live[v], v);
  }

  /** The halves are aligned and inside. */
  lemma SplitHalves(s: State, u: nat)
    requires Inv(s) && u in s.live && 0 < s.live[u]
    ensures var j := s.live[u] - 1;
            && j < s.top && u + Pow2(j + 1) <= Pow2(s.top) && Pow2(j + 1) == Pow2(j) + Pow2(j)
            && Aligned(u, j) && Aligned(u + Pow2(j), j) && Buddy(u + Pow2(j), j) == u
  {
    var j := s.live[u] - 1;
    assert IsBlock(s, j + 1, u);
    AlignedDown(u, j + 1, j);
    AlignedStep(u, j);
  }

  /** Neither half was listed before. */
  lemma SplitUnlisted(s: State, u: nat)
    requires Inv(s) && u in s.live && 0 < s.live[u]
    ensures var j := s.live[u] - 1; !IsFree(s, j, u) && !IsFree(s, j, u + Pow2(j))
  {
    var j := s.live[u] - 1;
    SplitBlocks(s, u, j, u);
    SplitBlocks(s, u, j, u + Pow2(j));
  }

  lemma SplitShaped(s: State, u: nat)
    requires Inv(s) && u in s.live && 0 < s.live[u]
    ensures WellShaped(Split(s, u))
  {
    var j, s' := s.live[u] - 1, Split(s, u);
    SplitHalves(s, u);
    forall k: nat, v: nat | IsBlock(s', k, v)
      ensures k <= s.top && Aligned(v, k) && v + Pow2(k) <= Pow2(s.top)
    {
      SplitBlocks(s, u, k, v);
      if !(k == j && (v == u || v == u + Pow2(j))) {
        assert IsBlock(s, k, v);
      }
    }
  }

  lemma SplitLists(s: State, u: nat)
    requires Inv(s) && u in s.live && 0 < s.live[u]
    ensures NoRepeats(Split(s, u))
  {
    SplitHalves(s, u);
    SplitUnlisted(s, u);
    var j := s.live[u] - 1;
    assert u + Pow2(j) !in s.free[j];
  }

  /** The half that is listed is nobody's free buddy: its own is the other half, which is not listed. */
  lemma SplitBuddy(s: State, u: nat, k: nat, v: nat)
    requires Inv(s) && u in s.live && 0 < s.live[u] && IsFree(Split(s, u), k, v) && Aligned(v, k)
    ensures !IsFree(Split(s, u), k, Buddy(v, k))
  {
    var j := s.live[u] - 1;
    SplitHalves(s, u);
    SplitUnlisted(s, u);
    SplitBlocks(s, u, k, v);
    SplitBlocks(s, u, k, Buddy(v, k));
    if k == j {
      BuddyInvolution(v, k);
      assert Buddy(v, k) == u + Pow2(j) ==> v == u;
    }
  }

  lemma SplitCoalesced(s: State, u: nat)
    requires Inv(s) && u in s.live && 0 < s.live[u] && WellShaped(Split(s, u))
    ensures Coalesced(Split(s, u))
  {
    forall k: nat, v: nat | IsFree(Split(s, u), k, v)
      ensures !IsFree(Split(s, u), k, Buddy(v, k))
    {
      SplitBuddy(s, u, k, v);
    }
  }

  lemma SplitInv(s: State, u: nat)
    requires Inv(s) && u in s.live && 0 < s.live[u]
    ensures Inv(Split(s, u))
  {
    SplitShaped(s, u);
    SplitLists(s, u);
    SplitCoalesced(s, u);
    SplitDisjoint(s, u);
    SplitCovering(s, u);
  }

  lemma SplitCovering(s: State, u: nat)
    requires Inv(s) && u in s.live && 0 < s.live[u]
    ensures Covering(Split(s, u))
  {
    var j, s' := s.live[u] - 1, Split(s, u);
    var r := u + Pow2(j);
    forall x: nat | x < Pow2(s.top) ensures Covered(s', x) {
      assert Covered(s, x);
      var k: nat, v: nat :| Covers(s, x, k, v);
      SplitBlocks(s, u, k, v);
      SplitBlocks(s, u, j, u);
      SplitBlocks(s, u, j, r);
      if v == u {
        assert Covers(s', x, j, if x < r then u else r);
      } else {
        assert Covers(s', x, k, v);
      }
    }
  }

  lemma SplitDisjoint(s: State, u: nat)
    requires Inv(s) && u in s.live && 0 < s.live[u]
    ensures Disjoint(Split(s, u))
  {
    var s' := Split(s, u);
    forall k: nat, v: nat | IsFree(s', k, v)
      ensures v !in s'.live
    {
      SplitBlocks(s, u, k, v);
    }
    forall k: nat, v: nat, i: nat, w: nat | IsBlock(s', k, v) && IsBlock(s', i, w) && (k != i || v != w)
      ensures Apart(k, v, i, w)
    {
      SplitBlocks(s, u, k, v);
      SplitBlocks(s, u, i, w);
    }
  }

  lemma MergeBlocks(s: State, u: nat, k: nat, v: nat)
    requires Inv(s) && u in s.live && BuddyFree(s, u)
    ensures var j, b := s.live[u], Buddy(u, s.live[u]);
            && (IsFree(Merge(s, u), k, v) <==> IsFree(s, k, v) && !(k == j && v == b))
            && (IsLive(Merge(s, u), k, v) <==> (IsLive(s, k, v) && v != u) || (k == j + 1 && v == Left(u, j)))
    ensures IsBlock(s, k, v) ==> (v == u && k == s.live[u]) || Apart(k, v, s.live[u], u)
    ensures IsBlock(s, k, v) ==> (v == Buddy(u, s.live[u]) && k == s.live[u]) || Apart(k, v, s.live[u], Buddy(u, s.live[u]))
  {
    var j, b := s.live[u], Buddy(u, s.live[u]);
    assert IsBlock(s, j, u) && IsBlock(s, j, b);
    WithoutDistinct(s.free[j], b);
  }

  lemma {:induction false} WithoutDistinct(xs: seq<nat>, x: nat)
    requires Distinct(xs) && x in xs
    ensures Distinct(Without(xs, x))
    ensures forall y :: y in Without(xs, x) <==> y in xs && y != x
  {
    if xs[0] == x {
    } else {
      WithoutDistinct(xs[1..], x);
      var ys, zs := Without(xs[1..], x), Without(xs, x);
      assert xs == [xs[0]] + xs[1..] && zs == [xs[0]] + ys;
      assert xs[0] !in ys;
      forall i, j | 0 <= i < j < |zs| ensures zs[i] != zs[j] {
        assert zs[j] == ys[j - 1];
      }
    }
  }

  lemma MergeInv(s: State, u: nat)
    requires Inv(s) && u in s.live && BuddyFree(s, u)
    ensures Inv(Merge(s, u)) && s.live[u] < s.top
  {
    var j, b, s' := s.live[u], Buddy(u, s.live[u]), Merge(s, u);
    var l := Left(u, j);
    assert IsBlock(s, j, u) && IsBlock(s, j, b);
    BuddyInvolution(u, j);
    MergeTop(s, u);
    forall k: nat, v: nat | IsBlock(s', k, v)
      ensures k <= s.top && Aligned(v, k) && v + Pow2(k) <= Pow2(s.top)
    {
      MergeBlocks(s, u, k, v);
      assert v == l || IsBlock(s, k, v);
    }
    MergeDisjoint(s, u);
    MergeCovering(s, u);
    WithoutDistinct(s.free[j], b);
    forall k: nat, v: nat | IsFree(s', k, v)
      ensures !IsFree(s', k, Buddy(v, k))
    {
      MergeBlocks(s, u, k, v);
      MergeBlocks(s, u, k, Buddy(v, k));
    }
  }

  /** Only a block below the top order can have a free buddy. */
  lemma MergeTop(s: State, u: nat)
    requires Inv(s) && u in s.live && BuddyFree(s, u)
    ensures s.live[u] < s.top
  {
    var j, b := s.live[u], Buddy(u, s.live[u]);
    assert IsBlock(s, j, u) && IsBlock(s, j, b);
  }

  lemma MergeCovering(s: State, u: nat)
    requires Inv(s) && u in s.live && BuddyFree(s, u)
    ensures Covering(Merge(s, u))
  {
    var j, b, s' := s.live[u], Buddy(u, s.live[u]), Merge(s, u);
    var l := Left(u, j);
    BuddyInvolution(u, j);
    forall x: nat | x < Pow2(s.top)
      ensures Covered(s', x)
    {
      assert Covered(s, x);
      var k: nat, v: nat :| Covers(s, x, k, v);
      MergeBlocks(s, u, k, v);
      MergeBlocks(s, u, j + 1, l);
      if k == j && (v == u || v == b) {
        assert Covers(s', x, j + 1, l);
      } else {
        assert Covers(s', x, k, v);
      }
    }
  }

  lemma MergeDisjoint(s: State, u: nat)
    requires Inv(s) && u in s.live && BuddyFree(s, u)
    ensures Disjoint(Merge(s, u))
  {
    var s' := Merge(s, u);
    var j, b := s.live[u], Buddy(u, s.live[u]);
    assert IsBlock(s, j, u) && IsBlock(s, j, b);
    BuddyInvolution(u, j);
    forall k: nat, v: nat | IsFree(s', k, v)
      ensures v !in s'.live
    {
      MergeBlocks(s, u, k, v);
    }
    forall k: nat, v: nat, i: nat, w: nat | IsBlock(s', k, v) && IsBlock(s', i, w) && (k != i || v != w)
      ensures Apart(k, v, i, w)
    {
      MergeBlocks(s, u, k, v);
      MergeBlocks(s, u, i, w);
    }
  }

  lemma ReleaseInv(s: State, u: nat)
    requires Inv(s) && u in s.live && !BuddyFree(s, u)
    ensures Inv(Release(s, u))
  {
    var j, s' := s.live[u], Release(s, u);
    assert IsBlock(s, j, u);
    assert u !in s.free[j] by { assert !IsFree(s, j, u); }
    forall k: nat, v: nat
      ensures IsFree(s', k, v) <==> IsFree(s, k, v) || (k == j && v == u)
      ensures IsBlock(s', k, v) <==> IsBlock(s, k, v)
    {
    }
    forall x: nat | x < Pow2(s.top)
      ensures Covered(s', x)
    {
      assert Covered(s, x);
      var k: nat, v: nat :| Covers(s, x, k, v);
      assert Covers(s', x, k, v);
    }
    forall k: nat, v: nat | IsFree(s', k, v)
      ensures !IsFree(s', k, Buddy(v, k))
    {
      if k == j { BuddyInvolution(v, j); }
    }
  }
}

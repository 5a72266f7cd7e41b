/** How the buddy allocator's state is laid out in RAM, and what each pointer write does to it.
    RAM is a sequence of 8-byte words; a minimum block is 512 words. */
module BuddyLayout {
  import opened Dyadic
  import opened BuddySpec

  function Addr(start: nat, u: nat): nat {
    start + 512 * u
  }

  /** The pointer stored in front of position `i` of a list; NULL past the end. */
  function Link(start: nat, xs: seq<nat>, i: nat): nat {
    if i < |xs| then Addr(start, xs[i]) else 0
  }

  /** Where position `i` of a list keeps its next-pointer. */
  function Spot(start: nat, xs: seq<nat>, i: nat): nat
    requires i < |xs|
  {
    Addr(start, xs[i])
  }

  /** `head` points at a chain through the blocks `xs`, ending in NULL. */
  ghost predicate Chain(m: seq<int>, start: nat, head: int, xs: seq<nat>) {
    && head == Link(start, xs, 0)
    && forall i {:trigger Spot(start, xs, i)} ::
         0 <= i < |xs| ==> Spot(start, xs, i) < |m| && m[Spot(start, xs, i)] == Link(start, xs, i + 1)
  }

  ghost predicate Chains(m: seq<int>, heads: seq<int>, start: nat, s: State) {
    && |heads| == |s.free|
    && forall k :: 0 <= k < |heads| ==> Chain(m, start, heads[k], s.free[k])
  }

  /** The first word of a handed-out block holds its order (the padding bytes count as zero). */
  ghost predicate Orders(m: seq<int>, start: nat, live: map<nat, nat>, pending: set<nat>) {
    forall u {:trigger u in live} :: u in live && u !in pending ==> Addr(start, u) < |m| && m[Addr(start, u)] == live[u]
  }

  /** `pending` is a handed-out block whose header is not (or no longer) meaningful. */
  ghost predicate Layout(m: seq<int>, heads: seq<int>, start: nat, s: State, pending: set<nat>) {
    && Chains(m, heads, start, s)
    && Orders(m, start, s.live, pending)
  }

  ghost predicate Unlisted(s: State, u: nat) {
    forall k: nat :: !IsFree(s, k, u)
  }

  lemma ChainFrame(m: seq<int>, start: nat, head: int, xs: seq<nat>, u: nat, x: int)
    requires Chain(m, start, head, xs) && u !in xs && Addr(start, u) < |m|
    ensures Chain(m[Addr(start, u) := x], start, head, xs)
  {
  }

  /** A write to the header of a block that is not listed leaves every list alone. */
  lemma ChainsFrame(m: seq<int>, heads: seq<int>, start: nat, s: State, u: nat, x: int)
    requires Chains(m, heads, start, s) && Addr(start, u) < |m|
    requires Unlisted(s, u)
    ensures Chains(m[Addr(start, u) := x], heads, start, s)
  {
    forall k | 0 <= k < |heads| ensures Chain(m[Addr(start, u) := x], start, heads[k], s.free[k]) {
      assert !IsFree(s, k, u);
      ChainFrame(m, start, heads[k], s.free[k], u, x);
    }
  }

  /** A handed-out block is not listed; neither is its right half. */
  lemma LiveUnlisted(s: State, u: nat)
    requires Inv(s) && u in s.live
    ensures Unlisted(s, u) && u + Pow2(s.live[u]) <= Pow2(s.top)
    ensures 0 < s.live[u] ==> var r := u + Pow2(s.live[u] - 1); Unlisted(s, r) && r !in s.live && r < Pow2(s.top)
  {
    assert IsBlock(s, s.live[u], u);
    if 0 < s.live[u] {
      var r := u + Pow2(s.live[u] - 1);
      forall k: nat ensures !IsFree(s, k, r) {
        SplitBlocks(s, u, k, r);
      }
      SplitBlocks(s, u, 0, r);
    }
  }

  /** Popping list `j`. */
  lemma TakeLayout(m: seq<int>, heads: seq<int>, start: nat, s: State, j: nat)
    requires Layout(m, heads, start, s, {}) && j < |heads| && heads[j] != 0
    ensures s.free[j] != [] && heads[j] == Spot(start, s.free[j], 0) < |m|
    ensures Layout(m, heads[j := m[heads[j]]], start, Take(s, j), {s.free[j][0]})
  {
    var xs := s.free[j];
    assert Chain(m, start, heads[j], xs);
    UnlinkFirst(m, start, heads[j], xs);
    assert xs[1..] == Skip(xs, 0);
  }

  lemma PushLayout(m: seq<int>, start: nat, head: int, xs: seq<nat>, u: nat)
    requires Chain(m, start, head, xs) && u !in xs && Addr(start, u) < |m|
    ensures Chain(m[Addr(start, u) := head], start, Addr(start, u), [u] + xs)
  {
    ChainFrame(m, start, head, xs, u, head);
    var ys, m' := [u] + xs, m[Addr(start, u) := head];
    forall i | 0 <= i < |ys|
      ensures Spot(start, ys, i) < |m'| && m'[Spot(start, ys, i)] == Link(start, ys, i + 1)
    {
      if 0 < i { assert Spot(start, ys, i) == Spot(start, xs, i - 1) && Link(start, ys, i + 1) == Link(start, xs, i); }
    }
  }

  /** Pushing block `r` on list `k`. */
  lemma PushChains(m: seq<int>, heads: seq<int>, start: nat, s: State, k: nat, r: nat, t: State)
    requires Chains(m, heads, start, s) && Unlisted(s, r) && Addr(start, r) < |m| && k < |heads|
    requires t.free == s.free[k := [r] + s.free[k]]
    ensures Chains(m[Addr(start, r) := heads[k]], heads[k := Addr(start, r)], start, t)
  {
    ChainsFrame(m, heads, start, s, r, heads[k]);
    assert !IsFree(s, k, r);
    PushLayout(m, start, heads[k], s.free[k], r);
  }

  /** Pushing the right half of the pending block. */
  lemma SplitLayout(m: seq<int>, heads: seq<int>, start: nat, s: State, u: nat, r: nat)
    requires Layout(m, heads, start, s, {u}) && u in s.live && 0 < s.live[u] <= |heads|
    requires r == u + Pow2(s.live[u] - 1) && Unlisted(s, r) && r !in s.live && Addr(start, r) < |m|
    ensures var j, a := s.live[u] - 1, Addr(start, r);
            Layout(m[a := heads[j]], heads[j := a], start, Split(s, u), {u})
  {
    PushChains(m, heads, start, s, s.live[u] - 1, r, Split(s, u));
  }

  /** Writing the metadata of the pending block. */
  lemma StampLayout(m: seq<int>, heads: seq<int>, start: nat, s: State, u: nat)
    requires Layout(m, heads, start, s, {u}) && Unlisted(s, u) && u in s.live
    requires Addr(start, u) < |m|
    ensures Layout(m[Addr(start, u) := s.live[u]], heads, start, s, {})
  {
    ChainsFrame(m, heads, start, s, u, s.live[u]);
  }

  /** Pushing the pending block itself. */
  lemma ReleaseLayout(m: seq<int>, heads: seq<int>, start: nat, s: State, u: nat)
    requires Layout(m, heads, start, s, {u}) && Unlisted(s, u) && u in s.live && s.live[u] < |heads|
    requires Addr(start, u) < |m|
    ensures var k, a := s.live[u], Addr(start, u);
            Layout(m[a := heads[k]], heads[k := a], start, Release(s, u), {})
  {
    PushChains(m, heads, start, s, s.live[u], u, Release(s, u));
  }

  function Skip(xs: seq<nat>, i: nat): (ys: seq<nat>)
    requires i < |xs|
    ensures |ys| == |xs| - 1
    ensures forall n {:trigger ys[n]} :: 0 <= n < |ys| ==> ys[n] == if n < i then xs[n] else xs[n + 1]
  {
    xs[..i] + xs[i + 1..]
  }

  /** Unlinking position `i` of a chain: the pointer in front of it skips it. */
  lemma UnlinkFirst(m: seq<int>, start: nat, head: int, xs: seq<nat>)
    requires Chain(m, start, head, xs) && xs != []
    ensures Chain(m, start, m[Spot(start, xs, 0)], Skip(xs, 0))
  {
    var ys := Skip(xs, 0);
    forall n | 0 <= n < |ys|
      ensures Spot(start, ys, n) < |m| && m[Spot(start, ys, n)] == Link(start, ys, n + 1)
    {
      assert Spot(start, ys, n) == Spot(start, xs, n + 1);
    }
  }

  lemma UnlinkLater(m: seq<int>, start: nat, head: int, xs: seq<nat>, i: nat)
    requires Chain(m, start, head, xs) && Distinct(xs) && 0 < i < |xs|
    ensures Chain(m[Spot(start, xs, i - 1) := m[Spot(start, xs, i)]], start, head, Skip(xs, i))
  {
    var next := m[Spot(start, xs, i)];
    var ys, m' := Skip(xs, i), m[Spot(start, xs, i - 1) := next];
    forall n | 0 <= n < |ys|
      ensures Spot(start, ys, n) < |m'| && m'[Spot(start, ys, n)] == Link(start, ys, n + 1)
    {
      if n < i {
        assert Spot(start, ys, n) == Spot(start, xs, n) && (n < i - 1 ==> xs[n] != xs[i - 1]);
      } else {
        assert Spot(start, ys, n) == Spot(start, xs, n + 1) && ys[n] != xs[i - 1];
      }
    }
  }

  lemma {:induction false} WithoutAt(xs: seq<nat>, i: nat)
    requires Distinct(xs) && i < |xs|
    ensures xs[i] in xs && Without(xs, xs[i]) == Skip(xs, i)
  {
    if i != 0 {
      WithoutAt(xs[1..], i - 1);
      assert xs[0] != xs[i];
    }
  }

  ghost predicate OnlyIn(s: State, k: nat, u: nat) {
    && u !in s.live
    && forall n: nat :: n != k ==> !IsFree(s, n, u)
  }

  /** Unlinking position `i` of list `k`. */
  lemma UnlinkChains(m: seq<int>, heads: seq<int>, start: nat, s: State, k: nat, i: nat, t: State)
    requires Chains(m, heads, start, s) && NoRepeats(s) && k < |s.free| && i < |s.free[k]|
    requires 0 < i ==> OnlyIn(s, k, s.free[k][i - 1])
    requires t.free == s.free[k := Skip(s.free[k], i)]
    ensures var xs := s.free[k];
            var next := m[Spot(start, xs, i)];
            if i == 0 then Chains(m, heads[k := next], start, t)
            else Chains(m[Spot(start, xs, i - 1) := next], heads, start, t)
  {
    var xs := s.free[k];
    assert Chain(m, start, heads[k], xs);
    if i == 0 {
      UnlinkFirst(m, start, heads[k], xs);
    } else {
      UnlinkLater(m, start, heads[k], xs, i);
      var p, next := xs[i - 1], m[Spot(start, xs, i)];
      forall n | 0 <= n < |heads| && n != k ensures Chain(m[Addr(start, p) := next], start, heads[n], s.free[n]) {
        assert !IsFree(s, n, p);
        ChainFrame(m, start, heads[n], s.free[n], p, next);
      }
    }
  }

  lemma ListedOnce(s: State, k: nat, u: nat)
    requires Inv(s) && IsFree(s, k, u)
    ensures OnlyIn(s, k, u) && u + Pow2(k) <= Pow2(s.top)
  {
    assert IsBlock(s, k, u);
    forall n: nat | n != k ensures !IsFree(s, n, u) {
      assert IsFree(s, n, u) ==> IsBlock(s, n, u);
    }
  }

  lemma OrdersFrame(m: seq<int>, start: nat, live: map<nat, nat>, pending: set<nat>, u: nat, x: int)
    requires Orders(m, start, live, pending) && (u !in live || u in pending) && Addr(start, u) < |m|
    ensures Orders(m[Addr(start, u) := x], start, live, pending)
  {
  }

  /** Unlinking the free buddy of the pending block and absorbing it. */
  lemma MergeLayout(m: seq<int>, heads: seq<int>, start: nat, s: State, u: nat, i: nat)
    requires Layout(m, heads, start, s, {u}) && NoRepeats(s)
    requires u in s.live && Aligned(u, s.live[u]) && BuddyFree(s, u)
    requires i < |s.free[s.live[u]]| && s.free[s.live[u]][i] == Buddy(u, s.live[u])
    requires 0 < i ==> OnlyIn(s, s.live[u], s.free[s.live[u]][i - 1])
    ensures var k := s.live[u];
            var xs := s.free[k];
            var next := m[Spot(start, xs, i)];
            if i == 0 then Layout(m, heads[k := next], start, Merge(s, u), {Left(u, k)})
            else Layout(m[Spot(start, xs, i - 1) := next], heads, start, Merge(s, u), {Left(u, k)})
  {
    var k, s' := s.live[u], Merge(s, u);
    var xs := s.free[k];
    WithoutAt(xs, i);
    assert Chain(m, start, heads[k], xs);
    UnlinkChains(m, heads, start, s, k, i, s');
    if 0 < i {
      OrdersFrame(m, start, s'.live, {Left(u, k)}, xs[i - 1], m[Spot(start, xs, i)]);
    }
  }

  // ---- the allocator's pointer writes as functions of RAM

  /** All of RAM, and the array of list heads. */
  datatype Ram = Ram(words: seq<int>, heads: seq<int>)

  function PopRam(r: Ram, k: nat): Ram
    requires k < |r.heads| && 0 <= r.heads[k] < |r.words|
  {
    r.(heads := r.heads[k := r.words[r.heads[k]]])
  }

  function PushRam(r: Ram, a: nat, k: nat): Ram
    requires a < |r.words| && k < |r.heads|
  {
    Ram(r.words[a := r.heads[k]], r.heads[k := a])
  }

  /** Halve the block at `a` from order `current` down to `target`, pushing each right half. */
  function HalveRam(r: Ram, a: nat, current: nat, target: nat): (r': Ram)
    requires a + 512 * Pow2(current) <= |r.words| && current <= |r.heads|
    ensures |r'.words| == |r.words|
    decreases current
  {
    if current <= target then r
    else HalveRam(PushRam(r, a + 512 * Pow2(current - 1), current - 1), a, current - 1, target)
  }

  function CarveRam(r: Ram, order: nat, target: nat): Ram
    requires order < |r.heads| && 0 <= r.heads[order] && r.heads[order] + 512 * Pow2(order) <= |r.words|
  {
    var block := r.heads[order];
    var h := HalveRam(PopRam(r, order), block, order, target);
    h.(words := h.words[block := target])
  }

  function IndexOf(xs: seq<nat>, x: nat): (i: nat)
    requires x in xs
    ensures i < |xs| && xs[i] == x && forall j :: 0 <= j < i ==> xs[j] != x
  {
    if xs[0] == x then 0 else IndexOf(xs[1..], x) + 1
  }

  /** Make the pointer in front of position `i` of list `k` skip it. */
  function UnlinkRam(r: Ram, start: nat, xs: seq<nat>, k: nat, i: nat): (r': Ram)
    requires i < |xs| && k < |r.heads| && forall n :: 0 <= n < |xs| ==> Spot(start, xs, n) < |r.words|
    ensures |r'.words| == |r.words| && |r'.heads| == |r.heads|
  {
    var next := r.words[Spot(start, xs, i)];
    if i == 0 then r.(heads := r.heads[k := next])
    else r.(words := r.words[Spot(start, xs, i - 1) := next])
  }

  /** The lists met while block `u` is coalesced upwards are proper chains. */
  ghost predicate Walkable(r: Ram, start: nat, s: State, u: nat)
    requires |s.free| == MAX_ORDER + 1
    requires u in s.live && s.live[u] <= MAX_ORDER && Aligned(u, s.live[u])
    decreases MAX_ORDER - if u in s.live then s.live[u] else 0
  {
    var k := s.live[u];
    && |r.heads| == MAX_ORDER + 1
    && Addr(start, u) < |r.words|
    && (k < MAX_ORDER ==>
          && Chain(r.words, start, r.heads[k], s.free[k])
          && Distinct(s.free[k])
          && (BuddyFree(s, u) ==>
                (BuddyInvolution(u, k);
                 Walkable(UnlinkRam(r, start, s.free[k], k, IndexOf(s.free[k], Buddy(u, k))), start, Merge(s, u), Left(u, k)))))
  }

  function FreeRam(r: Ram, start: nat, s: State, u: nat): Ram
    requires |s.free| == MAX_ORDER + 1
    requires u in s.live && s.live[u] <= MAX_ORDER && Aligned(u, s.live[u])
    requires Walkable(r, start, s, u)
    decreases MAX_ORDER - if u in s.live then s.live[u] else 0
  {
    var k := s.live[u];
    if k < MAX_ORDER && BuddyFree(s, u) then
      BuddyInvolution(u, k);
      FreeRam(UnlinkRam(r, start, s.free[k], k, IndexOf(s.free[k], Buddy(u, k))), start, Merge(s, u), Left(u, k))
    else
      PushRam(r, Addr(start, u), k)
  }

  /** One round of coalescing. */
  lemma WalkStep(r: Ram, start: nat, s: State, u: nat)
    requires |s.free| == MAX_ORDER + 1
    requires u in s.live && s.live[u] < MAX_ORDER && Aligned(u, s.live[u])
    requires Walkable(r, start, s, u) && BuddyFree(s, u)
    ensures var k := s.live[u];
            var xs, s', u' := s.free[k], Merge(s, u), Left(u, k);
            var r' := UnlinkRam(r, start, xs, k, IndexOf(xs, Buddy(u, k)));
            && |s'.free| == MAX_ORDER + 1 && u' in s'.live && s'.live[u'] == k + 1 && Aligned(u', k + 1)
            && Walkable(r', start, s', u') && FreeRam(r, start, s, u) == FreeRam(r', start, s', u')
  {
    BuddyInvolution(u, s.live[u]);
  }
}

/** The first-fit allocator and its callers together: requests, returns and the stores of owners into their regions,
    over one RAM. Every run of them is a run of the common interface. */
module FirstFitRuns {
  import opened Basics
  import opened FirstFitSpec
  import opened FirstFitTheorems
  import opened FirstFitLayout
  import opened FirstFitRefinement
  import opened FirstFitMemory
  import Contract = AllocatorContract

  // ---- stores by owners

  /** A word that the owner of block `a` may write. */
  predicate InRegion(s: State, a: nat, w: nat) {
    a in s.live && a + 2 <= w < a + 2 * s.live[a]
  }

  lemma StoreKeepsCycle(m: seq<int>, s: State, a: nat, w: nat, x: int)
    requires Heap(m, s) && InRegion(s, a, w) && w < |m|
    ensures Cycle(m[w := x], s.ring)
  {
    forall i {:trigger Node(s.ring, i)} | 0 <= i < |s.ring|
      ensures Header(m[w := x], Node(s.ring, i), Link(s.ring, i), s.ring[i].size)
    {
      NodeHeader(m, s.ring, i);
      HeaderApart(s, i);
      assert LiveIn(s.live, a, w);
    }
  }

  lemma StoreKeepsSizes(m: seq<int>, s: State, a: nat, w: nat, x: int)
    requires Heap(m, s) && InRegion(s, a, w) && w < |m|
    ensures Sizes(m[w := x], s.live)
  {
    forall b | b in s.live ensures b + 1 != w {
      assert b != a ==> b + 2 * s.live[b] <= a || a + 2 * s.live[a] <= b;
    }
  }

  /** A store into a region leaves the allocator's data structure as it is. */
  lemma StoreKeepsHeap(m: seq<int>, s: State, a: nat, w: nat, x: int)
    requires Heap(m, s) && InRegion(s, a, w) && w < |m|
    ensures Heap(m[w := x], s)
  {
    StoreKeepsCycle(m, s, a, w, x);
    StoreKeepsSizes(m, s, a, w, x);
  }

  // ---- the allocator and its callers as one machine

  /** RAM with the manager's variables, and the abstract state it represents. */
  datatype Machine = Machine(v: Memory, s: State)

  datatype Action = Request(bytes: nat) | Return(ptr: nat) | Store(ptr: nat, index: nat, word: int)

  ghost predicate Good(h: Machine, base: nat) {
    Holds(h.v, base, h.s)
  }

  ghost function View(h: Machine, base: nat): Contract.View
    requires Good(h, base)
  {
    ViewOf(h.v.words, h.s.lo, h.s.units, h.s.live)
  }

  /** mm_alloc: the machine afterwards, and the answer. */
  ghost function Requested(h: Machine, base: nat, nbytes: nat): (Machine, nat)
    requires Good(h, base)
  {
    var k := UnitsFor(nbytes);
    if nbytes == 0 then (h, 0)
    else
      match Find(h.s, k)
      case None => (h, 0)
      case Some(i) =>
        AllocHolds(h.v, base, h.s, i, k);
        (Machine(TakeMemory(h.v, Node(h.s.ring, i - 1), Node(h.s.ring, i), k), Cut(h.s, i, k)), Pointer(CutAt(h.s, i, k)))
  }

  /** What is written when the search has found node `p`, behind `prev`. */
  lemma RequestFound(v: Memory, s: State, base: nat, nbytes: nat, k: nat, i: nat, prev: nat, p: nat)
    requires Holds(v, base, s) && nbytes != 0 && k == UnitsFor(nbytes) && Find(s, k) == Some(i)
    requires 0 < i < |s.ring| && prev == Node(s.ring, i - 1) && p == Node(s.ring, i)
    ensures k <= s.ring[i].size
    ensures prev < |v.words| && p + 1 < |v.words| && k <= v.words[p + 1] && p + 2 * v.words[p + 1] <= |v.words|
    ensures 16 * k <= v.freeMem && 0 <= CutRam(v.words, prev, p, k).1
    ensures Holds(TakeMemory(v, prev, p, k), base, Cut(s, i, k))
    ensures KeepsLive(v.words, TakeMemory(v, prev, p, k).words, s.live)
    ensures Requested(Machine(v, s), base, nbytes)
            == (Machine(TakeMemory(v, prev, p, k), Cut(s, i, k)), CutRam(v.words, prev, p, k).1 + 2)
  {
    AllocHolds(v, base, s, i, k);
  }

  /** mm_free of the block at `a`. */
  ghost function Returned(h: Machine, base: nat, a: nat): Machine
    requires Good(h, base) && a in h.s.live
  {
    FreeHolds(h.v, base, h.s, a);
    Machine(GiveMemory(h.v, a, Node(h.s.ring, Position(h.s.ring, a))), Free(h.s, a))
  }

  lemma RequestServes(h: Machine, base: nat, nbytes: nat)
    requires Good(h, base)
    ensures var (h', p) := Requested(h, base, nbytes);
            && Good(h', base) && KeepsLive(h.v.words, h'.v.words, h.s.live)
            && h'.s.lo == h.s.lo && h'.s.units == h.s.units
            && (nbytes != 0 ==> var r := Alloc(h.s, UnitsFor(nbytes));
                                h'.s == r.0 && p == if r.1.Some? then Pointer(r.1.value) else 0)
            && Contract.Allocates(View(h, base), View(h', base), nbytes, p)
  {
    var k := UnitsFor(nbytes);
    if nbytes == 0 {
      InvApart(h.s);
      ViewSame(h.v.words, h.v.words, h.s.lo, h.s.units, h.s.live, 0);
    } else {
      var r := Find(h.s, k);
      if r.Some? {
        AllocHolds(h.v, base, h.s, r.value, k);
      }
      AllocConforms(h.v.words, Requested(h, base, nbytes).0.v.words, h.s, nbytes, k);
    }
  }

  /** mm_alloc answers NULL exactly for an empty request and when no run of as many units as it needs is free. */
  lemma RequestFailsExactly(h: Machine, base: nat, nbytes: nat)
    requires Good(h, base)
    ensures Requested(h, base, nbytes).1 == 0 <==> nbytes == 0 || forall x: nat :: !FreeRun(h.s, x, UnitsFor(nbytes))
  {
    RequestServes(h, base, nbytes);
    AllocFailsExactlyWhenFull(h.s, UnitsFor(nbytes));
  }

  lemma ReturnServes(h: Machine, base: nat, a: nat)
    requires Good(h, base) && a in h.s.live
    ensures var h' := Returned(h, base, a);
            && Good(h', base) && KeepsLive(h.v.words, h'.v.words, h.s.live - {a})
            && h'.s.lo == h.s.lo && h'.s.units == h.s.units
            && Contract.Frees(View(h, base), View(h', base), Pointer(a))
  {
    FreeHolds(h.v, base, h.s, a);
    FreeConforms(h.v.words, Returned(h, base, a).v.words, h.s, a);
  }

  // ---- runs

  /** A caller returns what it was given and not yet returned, and stores inside its regions. */
  ghost predicate Legal(h: Machine, base: nat, a: Action)
    requires Good(h, base)
  {
    match a
    case Request(_) => true
    case Return(p) => p in Regions(h.s.live)
    case Store(p, i, _) => p in Regions(h.s.live) && i < Regions(h.s.live)[p]
  }

  lemma HeaderAt(h: Machine, base: nat, p: nat) returns (a: nat)
    requires Good(h, base) && p in Regions(h.s.live)
    ensures a == HeaderOf(p) && a in h.s.live && p == Pointer(a) && Regions(h.s.live)[p] == 2 * h.s.live[a] - 2
  {
    a := HeaderOf(p);
  }

  ghost function Stored(h: Machine, p: nat, i: nat, x: int): Machine
    requires p + i < |h.v.words|
  {
    h.(v := h.v.(words := h.v.words[p + i := x]))
  }

  lemma StoreFits(h: Machine, base: nat, p: nat, i: nat, x: int)
    requires Good(h, base) && Legal(h, base, Store(p, i, x))
    ensures p + i < |h.v.words| && Good(Stored(h, p, i, x), base)
    ensures Contract.Step(View(h, base), Contract.Store(p, i, x), View(Stored(h, p, i, x), base))
  {
    var a := HeaderAt(h, base, p);
    InvApart(h.s);
    StoreKeepsHeap(h.v.words, h.s, a, p + i, x);
  }

  /** The machine after an action, and what the caller is told. */
  ghost function After(h: Machine, base: nat, a: Action): (n: (Machine, nat))
    requires Good(h, base) && Legal(h, base, a)
    ensures Good(n.0, base) && n.0.s.lo == h.s.lo && n.0.s.units == h.s.units
  {
    match a
    case Request(bytes) => RequestServes(h, base, bytes); Requested(h, base, bytes)
    case Return(p) =>
      var b: nat := HeaderOf(p);
      ReturnServes(h, base, b); (Returned(h, base, b), 0)
    case Store(p, i, x) => StoreFits(h, base, p, i, x); (Stored(h, p, i, x), 0)
  }

  /** The action as the interface sees it. */
  ghost function Seen(a: Action, answer: nat): Contract.Action {
    match a
    case Request(bytes) => Contract.Request(bytes, answer)
    case Return(p) => Contract.Return(p)
    case Store(p, i, x) => Contract.Store(p, i, x)
  }

  lemma ReturnSteps(h: Machine, base: nat, p: nat)
    requires Good(h, base) && Legal(h, base, Return(p))
    ensures Contract.Step(View(h, base), Contract.Return(p), View(After(h, base, Return(p)).0, base))
  {
    var a := HeaderAt(h, base, p);
    ReturnServes(h, base, a);
  }

  lemma StepServes(h: Machine, base: nat, a: Action)
    requires Good(h, base) && Legal(h, base, a)
    ensures var (h', p) := After(h, base, a);
            Contract.Step(View(h, base), Seen(a, p), View(h', base))
  {
    match a
    case Request(bytes) => RequestServes(h, base, bytes);
    case Return(p) => ReturnSteps(h, base, p);
    case Store(p, i, x) => StoreFits(h, base, p, i, x);
  }

  ghost predicate AllLegal(h: Machine, base: nat, acts: seq<Action>)
    requires Good(h, base)
    decreases |acts|
  {
    acts == [] || (Legal(h, base, acts[0]) && AllLegal(After(h, base, acts[0]).0, base, acts[1..]))
  }

  ghost function Last(h: Machine, base: nat, acts: seq<Action>): (end: Machine)
    requires Good(h, base) && AllLegal(h, base, acts)
    ensures Good(end, base) && end.s.lo == h.s.lo && end.s.units == h.s.units
    decreases |acts|
  {
    if acts == [] then h else Last(After(h, base, acts[0]).0, base, acts[1..])
  }

  /** The run as the interface sees it: the actions with their answers, and the views between them. */
  ghost function Trace(h: Machine, base: nat, acts: seq<Action>): (t: (seq<Contract.Action>, seq<Contract.View>))
    requires Good(h, base) && AllLegal(h, base, acts)
    ensures |t.0| == |t.1| == |acts|
    decreases |acts|
  {
    if acts == [] then ([], [])
    else
      var (h', p) := After(h, base, acts[0]);
      var rest := Trace(h', base, acts[1..]);
      ([Seen(acts[0], p)] + rest.0, [View(h', base)] + rest.1)
  }

  /** Every run of the first-fit allocator with its callers is a run of the common interface. */
  lemma {:induction false} RunServes(h: Machine, base: nat, acts: seq<Action>)
    requires Good(h, base) && AllLegal(h, base, acts)
    ensures var (seen, views) := Trace(h, base, acts);
            && Contract.Run(View(h, base), seen, views)
            && Contract.Final(View(h, base), views) == View(Last(h, base, acts), base)
    decreases |acts|
  {
    if acts != [] {
      var (h', p) := After(h, base, acts[0]);
      StepServes(h, base, acts[0]);
      RunServes(h', base, acts[1..]);
      var (seen, views) := Trace(h', base, acts[1..]);
      Contract.RunCons(View(h, base), Seen(acts[0], p), View(h', base), seen, views);
    }
  }

  lemma GoodView(h: Machine, base: nat)
    requires Good(h, base)
    ensures Contract.Good(View(h, base))
  {
    InvApart(h.s);
    ViewGood(h.v.words, h.s.lo, h.s.units, h.s.live);
  }

  lemma NothingLive(h: Machine, base: nat)
    requires Good(h, base) && h.s.live == map[]
    ensures Contract.Good(View(h, base)) && Contract.Agrees(map[], View(h, base))
  {
    GoodView(h, base);
    NoRegions();
  }

  lemma NoRegions()
    ensures Regions(map[]) == map[]
  {
    assert forall p :: p !in Pointers(map[]);
  }

  /** The stress test never fails on the first-fit allocator: whatever is requested, returned and stored, in any
      order, from the state mm_init leaves on, every region holds exactly what its owner has stored there. */
  lemma OwnersKeepTheirData(h: Machine, base: nat, acts: seq<Action>)
    requires Good(h, base) && h.s.live == map[] && AllLegal(h, base, acts)
    ensures var (seen, views) := Trace(h, base, acts);
            Contract.Agrees(Contract.PrivateRun(map[], seen, views), View(Last(h, base, acts), base))
  {
    RunServes(h, base, acts);
    NothingLive(h, base);
    Contract.RegionsArePrivate(map[], View(h, base), Trace(h, base, acts).0, Trace(h, base, acts).1);
  }

  /** What the test does: a region filled once is found unchanged, whatever happens to all the others meanwhile. */
  lemma DataStays(h: Machine, base: nat, acts: seq<Action>, p: nat)
    requires Good(h, base) && AllLegal(h, base, acts) && p in Regions(h.s.live)
    requires forall a :: a in acts ==> !(a.Return? && a.ptr == p) && !(a.Store? && a.ptr == p)
    ensures Contract.SameRegion(View(h, base), View(Last(h, base, acts), base), p)
  {
    var (seen, views) := Trace(h, base, acts);
    RunServes(h, base, acts);
    SeenUntouched(h, base, acts, p);
    GoodView(h, base);
    Contract.Untouched(View(h, base), seen, views, p);
  }

  lemma {:induction false} SeenUntouched(h: Machine, base: nat, acts: seq<Action>, p: nat)
    requires Good(h, base) && AllLegal(h, base, acts)
    requires forall a :: a in acts ==> !(a.Return? && a.ptr == p) && !(a.Store? && a.ptr == p)
    ensures forall a :: a in Trace(h, base, acts).0 ==> !Contract.Touches(a, p)
    decreases |acts|
  {
    if acts != [] {
      assert acts[0] in acts;
      SeenUntouched(After(h, base, acts[0]).0, base, acts[1..], p);
    }
  }

  // ---- nothing is lost

  lemma StepBalanced(h: Machine, base: nat, a: Action)
    requires Good(h, base) && Legal(h, base, a) && Balanced(h.s)
    ensures Balanced(After(h, base, a).0.s)
  {
    match a
    case Request(bytes) =>
      RequestServes(h, base, bytes);
      if bytes != 0 { AllocBalanced(h.s, UnitsFor(bytes)); }
    case Return(p) =>
      var b := HeaderAt(h, base, p);
      FreeHolds(h.v, base, h.s, b);
      FreeBalanced(h.s, b);
    case Store(_, _, _) =>
  }

  /** Over every run, free and handed-out units add up to the heap. */
  lemma {:induction false} RunBalances(h: Machine, base: nat, acts: seq<Action>)
    requires Good(h, base) && AllLegal(h, base, acts) && Balanced(h.s)
    ensures Balanced(Last(h, base, acts).s)
    decreases |acts|
  {
    if acts != [] {
      StepBalanced(h, base, acts[0]);
      RunBalances(After(h, base, acts[0]).0, base, acts[1..]);
    }
  }

  /** However it came about, when everything has been returned the free list in RAM is the one that mm_init leaves. */
  lemma AllReturned(h: Machine, base: nat, acts: seq<Action>)
    requires Good(h, base) && AllLegal(h, base, acts) && Last(h, base, acts).s.live == map[] && 0 < h.s.units
    ensures Last(h, base, acts).s.ring == Initial(base, h.s.lo, h.s.units).ring
  {
    LiveDeterminesRing(Last(h, base, acts).s, Initial(base, h.s.lo, h.s.units));
  }
}

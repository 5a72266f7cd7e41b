/** The buddy allocator and its callers together: requests, returns and the stores of owners into their regions, over
    one RAM. Every run of them is a run of the common interface. */
module BuddyRuns {
  import opened Dyadic
  import opened BuddySpec
  import opened BuddyTheorems
  import opened BuddyLayout
  import opened BuddyRefinement
  import Contract = AllocatorContract

  // ---- stores by owners

  predicate InRegion(s: State, start: nat, u: nat, w: nat) {
    u in s.live && Addr(start, u) < w < Addr(start, u) + 512 * Pow2(s.live[u])
  }

  /** No word of a region is the first word of a block, where the lists and the headers are kept. */
  lemma RegionApart(s: State, start: nat, u: nat, w: nat, k: nat, v: nat)
    requires Inv(s) && InRegion(s, start, u, w) && IsBlock(s, k, v)
    ensures Addr(start, v) != w
  {
    assert IsBlock(s, s.live[u], u);
    if IsFree(s, k, v) || v != u {
      assert Apart(k, v, s.live[u], u);
    }
  }

  lemma StoreKeepsChain(r: Ram, start: nat, s: State, u: nat, w: nat, x: int, k: nat)
    requires Heap(r, start, s) && InRegion(s, start, u, w) && w < |r.words| && k < |r.heads|
    ensures Chain(r.words[w := x], start, r.heads[k], s.free[k])
  {
    assert Chain(r.words, start, r.heads[k], s.free[k]);
    forall i | 0 <= i < |s.free[k]| ensures Spot(start, s.free[k], i) != w {
      assert IsFree(s, k, s.free[k][i]);
      RegionApart(s, start, u, w, k, s.free[k][i]);
    }
  }

  /** A store into a region leaves the allocator's data structure as it is. */
  lemma StoreKeepsHeap(r: Ram, start: nat, s: State, u: nat, w: nat, x: int)
    requires Heap(r, start, s) && InRegion(s, start, u, w) && w < |r.words|
    ensures Heap(r.(words := r.words[w := x]), start, s)
  {
    forall k | 0 <= k < |r.heads| ensures Chain(r.words[w := x], start, r.heads[k], s.free[k]) {
      StoreKeepsChain(r, start, s, u, w, x, k);
    }
    forall v: nat | v in s.live ensures Addr(start, v) != w {
      RegionApart(s, start, u, w, s.live[v], v);
    }
  }

  // ---- the allocator and its callers as one machine

  /** RAM, and the abstract state it represents. */
  datatype Machine = Machine(r: Ram, s: State)

  datatype Action = Request(bytes: nat) | Return(ptr: nat) | Store(ptr: nat, index: nat, word: int)

  /** RAM holds the state, and no memory is lost. */
  ghost predicate Good(h: Machine, start: nat) {
    Heap(h.r, start, h.s) && Balanced(h.s)
  }

  ghost function View(h: Machine, start: nat): Contract.View {
    ViewOf(h.r, start, h.s)
  }

  /** The order the doubling loop arrives at, starting from `k`. */
  function OrderFrom(size: nat, k: nat): (o: nat)
    requires 0 < k ==> !Fits(size, k - 1)
    ensures IsOrderOf(o, size)
    decreases size + 8 - 4096 * Pow2(k)
  {
    if Fits(size, k) then
      if 0 < k then FitsFrom(size, k); k else k
    else OrderFrom(size, k + 1)
  }

  function OrderOf(size: nat): (o: nat)
    ensures IsOrderOf(o, size)
  {
    OrderFrom(size, 0)
  }

  /** The list heads say which lists are empty, so the search over them finds the list to carve from. */
  lemma HeadsTell(r: Ram, start: nat, s: State, k: nat)
    requires Heap(r, start, s) && k <= MAX_ORDER
    ensures var j := FirstList(s, k);
            && (forall i :: k <= i < j ==> r.heads[i] == 0)
            && (j <= MAX_ORDER ==> r.heads[j] != 0)
  {
    var j := FirstList(s, k);
    forall i | k <= i < j ensures r.heads[i] == 0 {
      assert Chain(r.words, start, r.heads[i], s.free[i]);
    }
    if j <= MAX_ORDER {
      assert Chain(r.words, start, r.heads[j], s.free[j]);
    }
  }

  /** mm_alloc: the machine afterwards, and the answer. */
  ghost function Requested(h: Machine, start: nat, size: nat): (Machine, nat)
    requires Good(h, start)
  {
    if size == 0 || OrderOf(size) > MAX_ORDER then (h, 0) else Served(h, start, OrderOf(size))
  }

  /** A block of order `k` is carved from the first list that has one. */
  ghost function Served(h: Machine, start: nat, k: nat): (Machine, nat)
    requires Good(h, start) && k <= MAX_ORDER
  {
    HeadsTell(h.r, start, h.s, k);
    var j := FirstList(h.s, k);
    if j > MAX_ORDER then (h, 0)
    else
      AllocSucceeds(h.r, start, h.s, j, k);
      (Machine(CarveRam(h.r, j, k), Alloc(h.s, k).0), h.r.heads[j] + 1)
  }

  /** What the search over the list heads finds. */
  lemma ServedFrom(h: Machine, start: nat, k: nat, order: nat)
    requires Good(h, start) && k <= order <= MAX_ORDER + 1
    requires forall i :: k <= i < order ==> h.r.heads[i] == 0
    requires order <= MAX_ORDER ==> h.r.heads[order] != 0
    requires k <= MAX_ORDER
    ensures order > MAX_ORDER ==> Served(h, start, k) == (h, 0)
    ensures order <= MAX_ORDER ==>
              && 0 <= h.r.heads[order] && h.r.heads[order] + 512 * Pow2(order) <= |h.r.words|
              && Served(h, start, k) == (Machine(CarveRam(h.r, order, k), Alloc(h.s, k).0), h.r.heads[order] + 1)
  {
    HeadsTell(h.r, start, h.s, k);
    assert FirstList(h.s, k) == order;
    if order <= MAX_ORDER {
      AllocSucceeds(h.r, start, h.s, order, k);
    }
  }

  /** mm_free of the block at `u`. */
  ghost function Returned(h: Machine, start: nat, u: nat): Machine
    requires Good(h, start) && u in h.s.live
  {
    FreeSucceeds(h.r, start, h.s, u);
    Machine(FreeRam(h.r, start, h.s, u), Free(h.s, u))
  }

  lemma RequestServes(h: Machine, start: nat, size: nat)
    requires Good(h, start)
    ensures var (h', p) := Requested(h, start, size);
            && Good(h', start) && h'.s.top == h.s.top && KeepsLive(h.r.words, h'.r.words, start, h.s.live)
            && (size == 0 ==> p == 0 && h' == h)
            && (0 < size ==> Answer(h.s, h'.s, start, OrderOf(size), p))
            && Contract.Allocates(View(h, start), View(h', start), size, p)
  {
    var k := OrderOf(size);
    var (h', p) := Requested(h, start, size);
    if size == 0 {
      InvLiveApart(h.s);
      ObserveNothing(h.r.words, h.r.words, start, h.s.top, h.s.live, 0);
    } else {
      if k <= MAX_ORDER {
        AllocBalanced(h.s, k);
        HeadsTell(h.r, start, h.s, k);
        var j := FirstList(h.s, k);
        if j <= MAX_ORDER {
          AllocSucceeds(h.r, start, h.s, j, k);
        } else {
          AllocFails(h.r, start, h.s, k);
        }
      }
      AllocConforms(h.r, h'.r, start, h.s, h'.s, size, k, p);
    }
  }

  /** The order is that of the smallest block that has room for the request and eight bytes of metadata. */
  lemma OrderIsLeast(size: nat)
    ensures size + 8 <= 4096 * Pow2(OrderOf(size))
    ensures 0 < OrderOf(size) ==> 4096 * Pow2(OrderOf(size) - 1) < size + 8
  {
    if 0 < OrderOf(size) {
      assert Fits(size, OrderOf(size) - 1) ==> OrderOf(size) <= OrderOf(size) - 1;
    }
  }

  /** mm_alloc answers NULL exactly for an empty request, for one that no order of the manager has room for, and when no
      aligned run of blocks of its order is entirely free. */
  lemma RequestFailsExactly(h: Machine, start: nat, size: nat)
    requires Good(h, start)
    ensures Requested(h, start, size).1 == 0 <==>
              size == 0 || OrderOf(size) > 16 || forall v: nat :: !FreeRun(h.s, v, OrderOf(size))
  {
    RequestServes(h, start, size);
    if OrderOf(size) <= MAX_ORDER {
      AllocFailsExactlyWhenFull(h.s, OrderOf(size));
    }
  }

  lemma ReturnServes(h: Machine, start: nat, u: nat)
    requires Good(h, start) && u in h.s.live
    ensures var h' := Returned(h, start, u);
            && Good(h', start) && h'.s.top == h.s.top && KeepsLive(h.r.words, h'.r.words, start, h.s.live - {u})
            && Contract.Frees(View(h, start), View(h', start), Pointer(start, u))
  {
    FreeSucceeds(h.r, start, h.s, u);
    FreeBalanced(h.s, u);
    FreeConforms(h.r, Returned(h, start, u).r, start, h.s, u);
  }

  // ---- runs

  /** A caller returns what it was given and not yet returned, and stores inside its regions. */
  predicate Legal(h: Machine, start: nat, a: Action) {
    match a
    case Request(bytes) => bytes <= MAX_REQUEST
    case Return(p) => p in Regions(start, h.s.live)
    case Store(p, i, _) => p in Regions(start, h.s.live) && i < Regions(start, h.s.live)[p]
  }

  lemma PointerOf(start: nat, live: map<nat, nat>, p: nat) returns (u: nat)
    requires p in Regions(start, live)
    ensures u == UnitOf(start, p) && u in live && p == Pointer(start, u) && Regions(start, live)[p] == 512 * Pow2(live[u]) - 1
  {
    u := UnitOf(start, p);
  }

  lemma StoreFits(h: Machine, start: nat, p: nat, i: nat, x: int)
    requires Good(h, start) && Legal(h, start, Store(p, i, x))
    ensures p + i < |h.r.words|
    ensures var h' := h.(r := h.r.(words := h.r.words[p + i := x]));
            && Good(h', start)
            && Contract.Step(View(h, start), Contract.Store(p, i, x), View(h', start))
  {
    var u := PointerOf(start, h.s.live, p);
    InRam(h.r, start, h.s, u);
    StoreKeepsHeap(h.r, start, h.s, u, p + i, x);
  }

  /** The machine after an action, and what the caller is told. */
  ghost function After(h: Machine, start: nat, a: Action): (n: (Machine, nat))
    requires Good(h, start) && Legal(h, start, a)
    ensures Good(n.0, start) && n.0.s.top == h.s.top
  {
    match a
    case Request(bytes) => RequestServes(h, start, bytes); Requested(h, start, bytes)
    case Return(p) =>
      var u: nat := UnitOf(start, p);
      ReturnServes(h, start, u); (Returned(h, start, u), 0)
    case Store(p, i, x) => StoreFits(h, start, p, i, x); (h.(r := h.r.(words := h.r.words[p + i := x])), 0)
  }

  /** The action as the interface sees it. */
  ghost function Seen(a: Action, answer: nat): Contract.Action {
    match a
    case Request(bytes) => Contract.Request(bytes, answer)
    case Return(p) => Contract.Return(p)
    case Store(p, i, x) => Contract.Store(p, i, x)
  }

  lemma ReturnSteps(h: Machine, start: nat, p: nat)
    requires Good(h, start) && Legal(h, start, Return(p))
    ensures var h' := After(h, start, Return(p)).0;
            Contract.Step(View(h, start), Contract.Return(p), View(h', start))
  {
    var u := PointerOf(start, h.s.live, p);
    ReturnServes(h, start, u);
  }

  lemma StepServes(h: Machine, start: nat, a: Action)
    requires Good(h, start) && Legal(h, start, a)
    ensures var (h', p) := After(h, start, a);
            Contract.Step(View(h, start), Seen(a, p), View(h', start))
  {
    match a
    case Request(bytes) => RequestServes(h, start, bytes);
    case Return(p) => ReturnSteps(h, start, p);
    case Store(p, i, x) => StoreFits(h, start, p, i, x);
  }

  ghost predicate AllLegal(h: Machine, start: nat, acts: seq<Action>)
    requires Good(h, start)
    decreases |acts|
  {
    acts == [] || (Legal(h, start, acts[0]) && AllLegal(After(h, start, acts[0]).0, start, acts[1..]))
  }

  ghost function Last(h: Machine, start: nat, acts: seq<Action>): (end: Machine)
    requires Good(h, start) && AllLegal(h, start, acts)
    ensures Good(end, start) && end.s.top == h.s.top
    decreases |acts|
  {
    if acts == [] then h else Last(After(h, start, acts[0]).0, start, acts[1..])
  }

  /** The run as the interface sees it: the actions with their answers, and the views between them. */
  ghost function Trace(h: Machine, start: nat, acts: seq<Action>): (t: (seq<Contract.Action>, seq<Contract.View>))
    requires Good(h, start) && AllLegal(h, start, acts)
    ensures |t.0| == |t.1| == |acts|
    decreases |acts|
  {
    if acts == [] then ([], [])
    else
      var (h', p) := After(h, start, acts[0]);
      var rest := Trace(h', start, acts[1..]);
      ([Seen(acts[0], p)] + rest.0, [View(h', start)] + rest.1)
  }

  /** Every run of the buddy allocator with its callers is a run of the common interface. */
  lemma {:induction false} RunServes(h: Machine, start: nat, acts: seq<Action>)
    requires Good(h, start) && AllLegal(h, start, acts)
    ensures var (seen, views) := Trace(h, start, acts);
            && Contract.Run(View(h, start), seen, views)
            && Contract.Final(View(h, start), views)
               == View(Last(h, start, acts), start)
    decreases |acts|
  {
    if acts != [] {
      var (h', p) := After(h, start, acts[0]);
      StepServes(h, start, acts[0]);
      RunServes(h', start, acts[1..]);
      var (seen, views) := Trace(h', start, acts[1..]);
      Contract.RunCons(View(h, start), Seen(acts[0], p), View(h', start), seen, views);
    }
  }

  /** The stress test never fails on the buddy allocator: whatever is requested, returned and stored, in any order,
      from the state mm_init leaves on, every region holds exactly what its owner has stored there. */
  lemma OwnersKeepTheirData(h: Machine, start: nat, acts: seq<Action>)
    requires Good(h, start) && h.s.live == map[] && AllLegal(h, start, acts)
    ensures var (seen, views) := Trace(h, start, acts);
            var end := Last(h, start, acts);
            Contract.Agrees(Contract.PrivateRun(map[], seen, views), View(end, start))
  {
    RunServes(h, start, acts);
    NothingLive(h, start);
    Contract.RegionsArePrivate(map[], View(h, start), Trace(h, start, acts).0, Trace(h, start, acts).1);
  }

  /** What the test does: a region filled once is found unchanged, whatever happens to all the others meanwhile. */
  lemma DataStays(h: Machine, start: nat, acts: seq<Action>, p: nat)
    requires Good(h, start) && AllLegal(h, start, acts) && p in Regions(start, h.s.live)
    requires forall a :: a in acts ==> !(a.Return? && a.ptr == p) && !(a.Store? && a.ptr == p)
    ensures var end := Last(h, start, acts);
            Contract.SameRegion(View(h, start), View(end, start), p)
  {
    var (seen, views) := Trace(h, start, acts);
    RunServes(h, start, acts);
    SeenUntouched(h, start, acts, p);
    InvLiveApart(h.s);
    ObserveGood(h.r.words, start, h.s.top, h.s.live);
    Contract.Untouched(View(h, start), seen, views, p);
  }

  lemma {:induction false} SeenUntouched(h: Machine, start: nat, acts: seq<Action>, p: nat)
    requires Good(h, start) && AllLegal(h, start, acts)
    requires forall a :: a in acts ==> !(a.Return? && a.ptr == p) && !(a.Store? && a.ptr == p)
    ensures forall a :: a in Trace(h, start, acts).0 ==> !Contract.Touches(a, p)
    decreases |acts|
  {
    if acts != [] {
      assert acts[0] in acts;
      SeenUntouched(After(h, start, acts[0]).0, start, acts[1..], p);
    }
  }

  lemma NothingLive(h: Machine, start: nat)
    requires Good(h, start) && h.s.live == map[]
    ensures Contract.Good(View(h, start)) && Contract.Agrees(map[], View(h, start))
  {
    InvLiveApart(h.s);
    ObserveGood(h.r.words, start, h.s.top, h.s.live);
    NoRegions(start);
  }

  lemma NoRegions(start: nat)
    ensures Regions(start, map[]) == map[]
  {
    assert forall p :: p !in Pointers(start, map[]);
  }

  /** However it came about, when everything has been returned the lists in RAM are those that mm_init leaves. */
  lemma AllReturned(h: Machine, start: nat, acts: seq<Action>)
    requires Good(h, start) && AllLegal(h, start, acts) && Last(h, start, acts).s.live == map[]
    ensures h.s.top <= MAX_ORDER && Last(h, start, acts).s == Initial(h.s.top)
  {
    NothingLiveIsInitial(Last(h, start, acts).s);
  }
}

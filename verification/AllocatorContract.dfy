/** The one interface both memory managers serve, seen by their callers: RAM, the managed region and
    the regions currently handed out. Addresses and lengths count 8-byte words. */
module AllocatorContract {

  /** `live` maps each returned pointer to the number of words its owner may use. */
  datatype View = View(mem: seq<int>, lo: nat, hi: nat, live: map<nat, nat>)

  predicate Apart(p: nat, m: nat, q: nat, n: nat) {
    p + m <= q || q + n <= p
  }

  ghost predicate Good(v: View) {
    && 0 < v.lo <= v.hi <= |v.mem|
    && (forall p :: p in v.live ==> v.lo <= p && p + v.live[p] <= v.hi)
    && (forall p, q :: p in v.live && q in v.live && p != q ==> Apart(p, v.live[p], q, v.live[q]))
  }

  /** The words of region `p` are the same in both views. */
  ghost predicate SameRegion(v: View, w: View, p: nat) {
    && p in v.live && p in w.live && v.live[p] == w.live[p]
    && p + v.live[p] <= |v.mem| && p + v.live[p] <= |w.mem|
    && forall i :: p <= i < p + v.live[p] ==> w.mem[i] == v.mem[i]
  }

  ghost predicate Kept(v: View, w: View, ps: set<nat>) {
    forall p :: p in ps ==> SameRegion(v, w, p)
  }

  /** A request for `bytes` bytes answered with `p`; 0 stands for NULL. */
  ghost predicate Allocates(v: View, w: View, bytes: nat, p: nat) {
    && Good(w) && w.lo == v.lo && w.hi == v.hi
    && Kept(v, w, v.live.Keys)
    && (p == 0 ==> w.live == v.live)
    && (p != 0 ==> p !in v.live && w.live.Keys == v.live.Keys + {p} && bytes <= 8 * w.live[p])
  }

  ghost predicate Frees(v: View, w: View, p: nat) {
    && Good(w) && w.lo == v.lo && w.hi == v.hi
    && Kept(v, w, v.live.Keys - {p})
    && w.live.Keys == v.live.Keys - {p}
  }

  // ---- what a caller may conclude, whichever allocator is behind the interface

  datatype Action = Request(bytes: nat, answer: nat) | Return(ptr: nat) | Store(ptr: nat, index: nat, word: int)

  ghost predicate Step(v: View, a: Action, w: View) {
    match a
    case Request(bytes, p) => Allocates(v, w, bytes, p)
    case Return(p) => p in v.live && Frees(v, w, p)
    case Store(p, i, x) => p in v.live && i < v.live[p] && p + i < |v.mem| && w == v.(mem := v.mem[p + i := x])
  }

  /** Contents each owner should see if every region were a private array of its own. */
  ghost function Private(content: map<nat, seq<int>>, a: Action, w: View): map<nat, seq<int>> {
    match a
    case Request(_, p) =>
      if p in w.live && p + w.live[p] <= |w.mem| then content[p := w.mem[p..p + w.live[p]]] else content
    case Return(p) => content - {p}
    case Store(p, i, x) =>
      if p in content && i < |content[p]| then content[p := content[p][i := x]] else content
  }

  ghost predicate Holds(v: View, p: nat, words: seq<int>) {
    && p in v.live && v.live[p] == |words| && p + |words| <= |v.mem|
    && forall i :: 0 <= i < |words| ==> v.mem[p + i] == words[i]
  }

  ghost predicate Agrees(content: map<nat, seq<int>>, v: View) {
    && content.Keys == v.live.Keys
    && forall p :: p in content ==> Holds(v, p, content[p])
  }

  lemma SameRegionHolds(v: View, w: View, p: nat, words: seq<int>)
    requires Holds(v, p, words) && SameRegion(v, w, p)
    ensures Holds(w, p, words)
  {
  }

  lemma StoreHolds(v: View, q: nat, i: nat, x: int, p: nat, words: seq<int>)
    requires Good(v) && q in v.live && i < v.live[q] && Holds(v, p, words)
    ensures Holds(v.(mem := v.mem[q + i := x]), p, if p == q then words[i := x] else words)
  {
    assert p != q ==> Apart(p, v.live[p], q, v.live[q]);
  }

  lemma RequestAgrees(content: map<nat, seq<int>>, v: View, bytes: nat, q: nat, w: View)
    requires Agrees(content, v) && Allocates(v, w, bytes, q)
    ensures Agrees(Private(content, Request(bytes, q), w), w)
  {
    forall p | p in content ensures Holds(w, p, content[p]) {
      SameRegionHolds(v, w, p, content[p]);
    }
    assert 0 !in w.live;
  }

  lemma ReturnAgrees(content: map<nat, seq<int>>, v: View, q: nat, w: View)
    requires Agrees(content, v) && Frees(v, w, q)
    ensures Agrees(Private(content, Return(q), w), w)
  {
    forall p | p in content && p != q ensures Holds(w, p, content[p]) {
      SameRegionHolds(v, w, p, content[p]);
    }
  }

  lemma StepAgrees(content: map<nat, seq<int>>, v: View, a: Action, w: View)
    requires Good(v) && Agrees(content, v) && Step(v, a, w)
    ensures Good(w) && Agrees(Private(content, a, w), w)
  {
    match a {
      case Request(bytes, q) => RequestAgrees(content, v, bytes, q, w);
      case Return(q) => ReturnAgrees(content, v, q, w);
      case Store(q, i, x) =>
        forall p | p in content ensures Holds(w, p, Private(content, a, w)[p]) {
          StoreHolds(v, q, i, x, p, content[p]);
        }
    }
  }

  ghost function PrivateRun(content: map<nat, seq<int>>, acts: seq<Action>, views: seq<View>): map<nat, seq<int>>
    requires |views| == |acts|
    decreases |acts|
  {
    if acts == [] then content
    else PrivateRun(Private(content, acts[0], views[0]), acts[1..], views[1..])
  }

  ghost predicate Run(v: View, acts: seq<Action>, views: seq<View>)
    requires |views| == |acts|
    decreases |acts|
  {
    acts == [] || (Step(v, acts[0], views[0]) && Run(views[0], acts[1..], views[1..]))
  }

  /** The view a run ends in. */
  ghost function Final(v: View, views: seq<View>): View {
    if views == [] then v else views[|views| - 1]
  }

  lemma RunCons(v: View, a: Action, w: View, acts: seq<Action>, views: seq<View>)
    requires |views| == |acts| && Step(v, a, w) && Run(w, acts, views)
    ensures Run(v, [a] + acts, [w] + views) && Final(v, [w] + views) == Final(w, views)
  {
    assert ([a] + acts)[1..] == acts && ([w] + views)[1..] == views;
  }

  lemma StepUntouched(v: View, a: Action, w: View, p: nat)
    requires Good(v) && Step(v, a, w) && p in v.live && !Touches(a, p)
    ensures Good(w) && SameRegion(v, w, p)
  {
    match a
    case Request(_, _) =>
    case Return(q) => assert p in v.live.Keys - {q};
    case Store(q, i, x) => assert Apart(p, v.live[p], q, v.live[q]);
  }

  predicate Touches(a: Action, p: nat) {
    (a.Return? && a.ptr == p) || (a.Store? && a.ptr == p)
  }

  /** What has been written into a region is still there, however much is requested, returned and stored elsewhere. */
  lemma {:induction false} Untouched(v: View, acts: seq<Action>, views: seq<View>, p: nat)
    requires |views| == |acts| && Good(v) && Run(v, acts, views) && p in v.live
    requires forall a :: a in acts ==> !Touches(a, p)
    ensures SameRegion(v, Final(v, views), p)
    decreases |acts|
  {
    if acts == [] {
      RegionInside(v, p);
    } else {
      StepUntouched(v, acts[0], views[0], p);
      Untouched(views[0], acts[1..], views[1..], p);
      assert Final(v, views) == Final(views[0], views[1..]);
    }
  }

  lemma RegionInside(v: View, p: nat)
    requires Good(v) && p in v.live
    ensures SameRegion(v, v, p)
  {
  }

  /** The stress test never fails: over any run of requests, returns and stores, every owner reads back
      from its region exactly what it stored there. */
  lemma {:induction false} RegionsArePrivate(content: map<nat, seq<int>>, v: View, acts: seq<Action>, views: seq<View>)
    requires |views| == |acts| && Good(v) && Agrees(content, v) && Run(v, acts, views)
    ensures Good(Final(v, views)) && Agrees(PrivateRun(content, acts, views), Final(v, views))
    decreases |acts|
  {
    if acts != [] {
      StepAgrees(content, v, acts[0], views[0]);
      RegionsArePrivate(Private(content, acts[0], views[0]), views[0], acts[1..], views[1..]);
    }
  }
}

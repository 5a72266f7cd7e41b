/** When pipes come into being and when they are freed, as processes with redirected input and output come and go. */
module PipeLifetime {
  import opened PipeSpec
  import SS = SemaphoreSpec
  import S = SchedulerSpec

  const FIRST_ID := 2
  const MAX_PIPES := 100

  datatype Slot = Deleted | Stored(id: nat, p: Pipe)

  /** The array of pipes, the id for the next one, and the ids of the pipes freed so far. */
  datatype Table = Table(slots: seq<Slot>, nextId: nat, freed: seq<nat>)

  /** The first stored pipe with this id; |slots| when there is none. */
  function Find(slots: seq<Slot>, id: nat): (i: nat)
    ensures i <= |slots| && (i < |slots| ==> slots[i].Stored? && slots[i].id == id)
    ensures forall j :: 0 <= j < i ==> !(slots[j].Stored? && slots[j].id == id)
  {
    if slots == [] || (slots[0].Stored? && slots[0].id == id) then 0 else Find(slots[1..], id) + 1
  }

  predicate IsStored(t: Table, id: nat) {
    Find(t.slots, id) < |t.slots|
  }

  function PipeAt(t: Table, id: nat): Pipe
    requires IsStored(t, id)
  {
    t.slots[Find(t.slots, id)].p
  }

  function Open(t: Table): Table {
    if t.nextId == MAX_PIPES then t
    else t.(slots := t.slots + [Stored(t.nextId, Fresh())], nextId := t.nextId + 1)
  }

  /** The pipe takes a new state, or is deleted. */
  function Set(t: Table, id: nat, p: Pipe, delete: bool): Table
    requires IsStored(t, id)
  {
    var i := Find(t.slots, id);
    if delete then t.(slots := t.slots[i := Deleted], freed := t.freed + [id])
    else t.(slots := t.slots[i := Stored(id, p)])
  }

  function Attach(t: Table, id: nat, reader: bool): Table {
    if !IsStored(t, id) then t
    else Set(t, id, if reader then AttachReader(PipeAt(t, id)) else AttachWriter(PipeAt(t, id)), false)
  }

  function Detach(t: Table, id: nat, pid: nat, reader: bool): Table {
    if !IsStored(t, id) then t
    else
      var p := if reader then DetachReader(PipeAt(t, id), pid) else DetachWriter(PipeAt(t, id), pid);
      Set(t, id, p, Abandoned(p))
  }

  function ClosePipe(t: Table, id: nat): Table {
    if !IsStored(t, id) then t
    else
      var p := Close(PipeAt(t, id));
      Set(t, id, p, p.attached == 0)
  }

  predicate Terminal(id: nat) {
    id == 0 || id == 1
  }

  /** A process that ends gives up one of its ends, and closes the pipe. */
  function LeaveSide(t: Table, pid: nat, id: nat, reader: bool, close: bool): Table {
    if Terminal(id) then t
    else if close then ClosePipe(Detach(t, id, pid, reader), id)
    else Detach(t, id, pid, reader)
  }

  /** What a process does to its input `r` and its output `w` when it ends. */
  function Leave(t: Table, pid: nat, r: nat, w: nat): Table {
    LeaveSide(LeaveSide(t, pid, r, true, true), pid, w, false, w != r)
  }

  // ---- the table against the ends that are really attached

  /** An end: a process and the pipe it reads from, or writes to. */
  type End = (nat, nat)

  function At(ends: set<End>, id: nat): set<End> {
    set e | e in ends && e.1 == id
  }

  /** Ids are given out once, in order. */
  ghost predicate Form(t: Table) {
    && FIRST_ID <= t.nextId <= MAX_PIPES && |t.slots| == t.nextId - FIRST_ID
    && (forall i :: 0 <= i < |t.slots| && t.slots[i].Stored? ==> t.slots[i].id == i + FIRST_ID)
  }

  ghost predicate TInv(t: Table, rs: set<End>, ws: set<End>) {
    && Form(t)
    && (forall id :: FIRST_ID <= id < t.nextId ==> (id in t.freed <==> t.slots[id - FIRST_ID].Deleted?))
    && (forall id :: id in t.freed ==> FIRST_ID <= id < t.nextId)
    && (forall i, j :: 0 <= i < j < |t.freed| ==> t.freed[i] != t.freed[j])
    && (forall e :: e in rs || e in ws ==> FIRST_ID <= e.1 < t.nextId)
    && (forall id :: FIRST_ID <= id < t.nextId ==> Balanced(t.slots[id - FIRST_ID], At(rs, id), At(ws, id)))
  }

  /** A stored pipe counts exactly its ends; a deleted one has none. */
  ghost predicate Balanced(slot: Slot, rs: set<End>, ws: set<End>) {
    match slot
    case Deleted => rs == {} && ws == {}
    case Stored(_, p) => p.readers == |rs| && p.writers == |ws| && p.attached == p.readers + p.writers
  }

  lemma Found(t: Table, id: nat)
    requires Form(t)
    ensures IsStored(t, id) <==> FIRST_ID <= id < t.nextId && t.slots[id - FIRST_ID].Stored?
    ensures IsStored(t, id) ==> Find(t.slots, id) == id - FIRST_ID
  {
    var i := Find(t.slots, id);
    if FIRST_ID <= id < t.nextId && t.slots[id - FIRST_ID].Stored? {
      assert t.slots[id - FIRST_ID].id == id;
    }
  }

  lemma OpenKeeps(t: Table, rs: set<End>, ws: set<End>)
    requires TInv(t, rs, ws)
    ensures TInv(Open(t), rs, ws)
  {
    if t.nextId != MAX_PIPES {
      assert At(rs, t.nextId) == {} && At(ws, t.nextId) == {};
    }
  }

  /** Giving a stored pipe another state that fits its ends, or deleting one that has none. */
  lemma SetKeeps(t: Table, rs: set<End>, ws: set<End>, id: nat, p: Pipe, delete: bool, rs': set<End>, ws': set<End>)
    requires TInv(t, rs, ws) && IsStored(t, id)
    requires forall e :: e in rs' || e in ws' ==> FIRST_ID <= e.1 < t.nextId
    requires forall other :: other != id ==> At(rs', other) == At(rs, other) && At(ws', other) == At(ws, other)
    requires Balanced(if delete then Deleted else Stored(id, p), At(rs', id), At(ws', id))
    ensures TInv(Set(t, id, p, delete), rs', ws')
  {
    Found(t, id);
    assert id !in t.freed;
    forall i | 0 <= i < |t.freed| ensures (t.freed + [id])[i] != id {
      assert t.freed[i] in t.freed;
    }
  }

  lemma AtAdd(ends: set<End>, e: End)
    ensures At(ends + {e}, e.1) == At(ends, e.1) + {e}
    ensures forall other :: other != e.1 ==> At(ends + {e}, other) == At(ends, other)
  {
  }

  lemma AtSub(ends: set<End>, e: End)
    ensures At(ends - {e}, e.1) == At(ends, e.1) - {e}
    ensures forall other :: other != e.1 ==> At(ends - {e}, other) == At(ends, other)
  {
  }

  lemma AttachKeeps(t: Table, rs: set<End>, ws: set<End>, id: nat, pid: nat, reader: bool)
    requires TInv(t, rs, ws) && (pid, id) !in (if reader then rs else ws)
    ensures !IsStored(t, id) ==> Attach(t, id, reader) == t
    ensures IsStored(t, id) ==>
              TInv(Attach(t, id, reader), if reader then rs + {(pid, id)} else rs, if reader then ws else ws + {(pid, id)})
  {
    if IsStored(t, id) {
      Found(t, id);
      assert Balanced(t.slots[id - FIRST_ID], At(rs, id), At(ws, id));
      if reader {
        AtAdd(rs, (pid, id));
        SetKeeps(t, rs, ws, id, AttachReader(PipeAt(t, id)), false, rs + {(pid, id)}, ws);
      } else {
        AtAdd(ws, (pid, id));
        SetKeeps(t, rs, ws, id, AttachWriter(PipeAt(t, id)), false, rs, ws + {(pid, id)});
      }
    }
  }

  lemma DetachKeeps(t: Table, rs: set<End>, ws: set<End>, id: nat, pid: nat, reader: bool)
    requires TInv(t, rs, ws) && (pid, id) in (if reader then rs else ws)
    ensures IsStored(t, id)
    ensures TInv(Detach(t, id, pid, reader),
                 if reader then rs - {(pid, id)} else rs, if reader then ws else ws - {(pid, id)})
  {
    assert (pid, id) in At(if reader then rs else ws, id);
    Found(t, id);
    AtSub(if reader then rs else ws, (pid, id));
    var p := if reader then DetachReader(PipeAt(t, id), pid) else DetachWriter(PipeAt(t, id), pid);
    SetKeeps(t, rs, ws, id, p, Abandoned(p),
             if reader then rs - {(pid, id)} else rs, if reader then ws else ws - {(pid, id)});
  }

  lemma CloseKeeps(t: Table, rs: set<End>, ws: set<End>, id: nat)
    requires TInv(t, rs, ws)
    ensures TInv(ClosePipe(t, id), rs, ws)
  {
    if IsStored(t, id) {
      Found(t, id);
      var p := Close(PipeAt(t, id));
      SetKeeps(t, rs, ws, id, p, p.attached == 0, rs, ws);
    }
  }

  // ---- processes

  /** The pipes (or terminals) a process reads from and writes to, whether each of the two could be attached, and
      whether the process has ended and only awaits being reaped. */
  datatype Ends = Ends(r: nat, w: nat, rIn: bool, wIn: bool, ended: bool)

  datatype Store = Store(t: Table, procs: map<nat, Ends>)

  function Readers(procs: map<nat, Ends>): (ends: set<End>)
    ensures forall e: End :: e in ends <==>
              e.0 in procs && !procs[e.0].ended && procs[e.0].rIn && e.1 == procs[e.0].r
  {
    set pid | pid in procs && !procs[pid].ended && procs[pid].rIn :: (pid, procs[pid].r)
  }

  function Writers(procs: map<nat, Ends>): (ends: set<End>)
    ensures forall e: End :: e in ends <==>
              e.0 in procs && !procs[e.0].ended && procs[e.0].wIn && e.1 == procs[e.0].w
  {
    set pid | pid in procs && !procs[pid].ended && procs[pid].wIn :: (pid, procs[pid].w)
  }

  datatype Op =
    | DoOpen
    | DoClose(id: nat)
    | DoSpawn(pid: nat, r: nat, w: nat)
    | DoExit(pid: nat)
    | DoKill(pid: nat)
    | DoReap

  /** A target that is no pipe is not attached. */
  function Spawn(s: Store, pid: nat, r: nat, w: nat): Store {
    var a := if Terminal(r) then s.t else Attach(s.t, r, true);
    var b := if Terminal(w) then a else Attach(a, w, false);
    Store(b, s.procs[pid := Ends(r, w, !Terminal(r) && IsStored(s.t, r), !Terminal(w) && IsStored(a, w), false)])
  }

  function Step(s: Store, op: Op): Store {
    match op
    case DoOpen => s.(t := Open(s.t))
    case DoClose(id) => s.(t := ClosePipe(s.t, id))
    case DoSpawn(pid, r, w) => Spawn(s, pid, r, w)
    case DoExit(pid) =>
      if pid !in s.procs || s.procs[pid].ended then s
      else
        var e := s.procs[pid];
        Store(Leave(s.t, pid, e.r, e.w), s.procs[pid := e.(ended := true)])
    case DoKill(pid) =>
      if pid !in s.procs then s
      else Store(Leave(s.t, pid, s.procs[pid].r, s.procs[pid].w), s.procs - {pid})
    case DoReap => s.(procs := map pid | pid in s.procs && !s.procs[pid].ended :: s.procs[pid])
  }

  /** A new process takes an unused pid (or that of one that has ended) and targets that have been issued, and a
      process that has ended is not killed before it is reaped if its pipes still have ends. */
  ghost predicate Allowed(s: Store, op: Op) {
    match op
    case DoSpawn(pid, r, w) =>
      && pid < S.MAX_PROCESSES && (pid in s.procs ==> s.procs[pid].ended)
      && (Terminal(r) || FIRST_ID <= r < s.t.nextId) && (Terminal(w) || FIRST_ID <= w < s.t.nextId)
    case DoKill(pid) => pid in s.procs && s.procs[pid].ended ==> !Shared(s.t, s.procs[pid])
    case _ => true
  }

  /** Detaching once more would take away an end of somebody else. */
  ghost predicate Shared(t: Table, e: Ends) {
    || (!Terminal(e.r) && IsStored(t, e.r) && PipeAt(t, e.r).readers > 0)
    || (!Terminal(e.w) && IsStored(t, e.w) && PipeAt(t, e.w).writers > 0)
  }

  ghost predicate SInv(s: Store) {
    && TInv(s.t, Readers(s.procs), Writers(s.procs))
    && (forall pid :: pid in s.procs ==> pid < S.MAX_PROCESSES)
    && (forall pid :: pid in s.procs && !s.procs[pid].ended ==> Known(s.t, s.procs[pid]))
  }

  /** The targets have been issued, and the process is attached to exactly those that are stored. */
  ghost predicate Known(t: Table, e: Ends) {
    && e.rIn == (!Terminal(e.r) && IsStored(t, e.r)) && (Terminal(e.r) || FIRST_ID <= e.r < t.nextId)
    && e.wIn == (!Terminal(e.w) && IsStored(t, e.w)) && (Terminal(e.w) || FIRST_ID <= e.w < t.nextId)
  }

  // ---- every operation keeps the balance

  /** No deleted pipe comes back. */
  ghost predicate NoRevival(t: Table, u: Table) {
    && t.nextId <= u.nextId && |t.slots| <= |u.slots|
    && forall i :: 0 <= i < |t.slots| && t.slots[i].Deleted? ==> u.slots[i].Deleted?
  }

  lemma StaysGone(t: Table, u: Table, rs: set<End>, ws: set<End>, rs': set<End>, ws': set<End>, id: nat)
    requires TInv(t, rs, ws) && TInv(u, rs', ws') && NoRevival(t, u) && !IsStored(t, id) && id < t.nextId
    ensures !IsStored(u, id)
  {
    Found(t, id);
    Found(u, id);
  }

  /** An attached end keeps its pipe stored. */
  lemma AttachedIsStored(t: Table, rs: set<End>, ws: set<End>, e: End)
    requires TInv(t, rs, ws) && (e in rs || e in ws)
    ensures IsStored(t, e.1)
  {
    assert e in At(rs, e.1) || e in At(ws, e.1);
    Found(t, e.1);
  }

  /** One side of a process that ends: it detaches if it was attached, and closes. */
  lemma SideKeeps(t: Table, rs: set<End>, ws: set<End>, id: nat, pid: nat, reader: bool, attached: bool, close: bool)
    requires TInv(t, rs, ws)
    requires if attached then !Terminal(id) && (pid, id) in (if reader then rs else ws)
             else Terminal(id) || !IsStored(t, id)
    ensures var u := LeaveSide(t, pid, id, reader, close);
            && NoRevival(t, u)
            && TInv(u, if attached && reader then rs - {(pid, id)} else rs,
                    if attached && !reader then ws - {(pid, id)} else ws)
  {
    if attached {
      DetachKeeps(t, rs, ws, id, pid, reader);
      var rs' := if reader then rs - {(pid, id)} else rs;
      var ws' := if reader then ws else ws - {(pid, id)};
      CloseKeeps(Detach(t, id, pid, reader), rs', ws', id);
    }
  }

  lemma LeaveKeeps(t: Table, rs: set<End>, ws: set<End>, pid: nat, e: Ends)
    requires TInv(t, rs, ws)
    requires if e.rIn then !Terminal(e.r) && (pid, e.r) in rs else Terminal(e.r) || (!IsStored(t, e.r) && e.r < t.nextId)
    requires if e.wIn then !Terminal(e.w) && (pid, e.w) in ws else Terminal(e.w) || (!IsStored(t, e.w) && e.w < t.nextId)
    ensures NoRevival(t, Leave(t, pid, e.r, e.w))
    ensures TInv(Leave(t, pid, e.r, e.w), if e.rIn then rs - {(pid, e.r)} else rs,
                 if e.wIn then ws - {(pid, e.w)} else ws)
  {
    var a, rs' := LeaveSide(t, pid, e.r, true, true), if e.rIn then rs - {(pid, e.r)} else rs;
    SideKeeps(t, rs, ws, e.r, pid, true, e.rIn, true);
    if !e.wIn && !Terminal(e.w) {
      StaysGone(t, a, rs, ws, rs', ws, e.w);
    }
    SideKeeps(a, rs', ws, e.w, pid, false, e.wIn, e.w != e.r);
  }

  lemma SideKnown(s: Store, u: Store, id: nat, attached: bool, end: End)
    requires TInv(s.t, Readers(s.procs), Writers(s.procs)) && TInv(u.t, Readers(u.procs), Writers(u.procs))
    requires NoRevival(s.t, u.t) && end.1 == id
    requires if attached then !Terminal(id) && (end in Readers(u.procs) || end in Writers(u.procs))
             else Terminal(id) || (!IsStored(s.t, id) && id < s.t.nextId)
    ensures attached == (!Terminal(id) && IsStored(u.t, id))
  {
    if attached {
      AttachedIsStored(u.t, Readers(u.procs), Writers(u.procs), end);
    } else if !Terminal(id) {
      StaysGone(s.t, u.t, Readers(s.procs), Writers(s.procs), Readers(u.procs), Writers(u.procs), id);
    }
  }

  /** With the ends balanced, whether each process was attached still says whether its pipes are there. */
  lemma EndsStayKnown(s: Store, u: Store)
    requires SInv(s) && TInv(u.t, Readers(u.procs), Writers(u.procs)) && NoRevival(s.t, u.t)
    requires forall pid :: pid in u.procs ==> pid < S.MAX_PROCESSES
    requires forall pid :: pid in u.procs && !u.procs[pid].ended ==> Known(s.t, u.procs[pid])
    ensures SInv(u)
  {
    forall pid | pid in u.procs && !u.procs[pid].ended
      ensures u.procs[pid].rIn == (!Terminal(u.procs[pid].r) && IsStored(u.t, u.procs[pid].r))
      ensures u.procs[pid].wIn == (!Terminal(u.procs[pid].w) && IsStored(u.t, u.procs[pid].w))
    {
      var e := u.procs[pid];
      SideKnown(s, u, e.r, e.rIn, (pid, e.r));
      SideKnown(s, u, e.w, e.wIn, (pid, e.w));
    }
  }

  lemma OpenAndCloseKeep(s: Store, op: Op)
    requires SInv(s) && (op.DoOpen? || op.DoClose?)
    ensures SInv(Step(s, op))
  {
    if op.DoOpen? {
      OpenKeeps(s.t, Readers(s.procs), Writers(s.procs));
    } else {
      CloseKeeps(s.t, Readers(s.procs), Writers(s.procs), op.id);
    }
    EndsStayKnown(s, Step(s, op));
  }

  lemma ReapKeeps(s: Store)
    requires SInv(s)
    ensures SInv(Step(s, DoReap))
  {
    var u := Step(s, DoReap);
    assert Readers(u.procs) == Readers(s.procs) && Writers(u.procs) == Writers(s.procs);
    EndsStayKnown(s, u);
  }

  /** The ends of a process that has left are gone, and only those. */
  lemma EndsGone(procs: map<nat, Ends>, after: map<nat, Ends>, pid: nat)
    requires pid in procs && !procs[pid].ended && (pid in after ==> after[pid].ended)
    requires forall x :: x != pid ==> (x in after <==> x in procs) && (x in procs ==> after[x] == procs[x])
    ensures var e := procs[pid];
            && Readers(after) == (if e.rIn then Readers(procs) - {(pid, e.r)} else Readers(procs))
            && Writers(after) == (if e.wIn then Writers(procs) - {(pid, e.w)} else Writers(procs))
  {
  }

  /** A process that has not ended leaves, to be reaped or at once. */
  lemma EndKeeps(s: Store, pid: nat, op: Op)
    requires SInv(s) && pid in s.procs && !s.procs[pid].ended && (op == DoExit(pid) || op == DoKill(pid))
    ensures SInv(Step(s, op))
  {
    LeaveKeeps(s.t, Readers(s.procs), Writers(s.procs), pid, s.procs[pid]);
    EndsGone(s.procs, Step(s, op).procs, pid);
    EndsStayKnown(s, Step(s, op));
  }

  lemma EndsCome(procs: map<nat, Ends>, pid: nat, e: Ends)
    requires (pid in procs ==> procs[pid].ended) && !e.ended
    ensures Readers(procs[pid := e]) == (if e.rIn then Readers(procs) + {(pid, e.r)} else Readers(procs))
    ensures Writers(procs[pid := e]) == (if e.wIn then Writers(procs) + {(pid, e.w)} else Writers(procs))
  {
  }

  lemma SpawnTable(s: Store, pid: nat, r: nat, w: nat)
    requires SInv(s) && Allowed(s, DoSpawn(pid, r, w))
    ensures var u, e := Spawn(s, pid, r, w), Spawn(s, pid, r, w).procs[pid];
            && NoRevival(s.t, u.t)
            && TInv(u.t, if e.rIn then Readers(s.procs) + {(pid, r)} else Readers(s.procs),
                    if e.wIn then Writers(s.procs) + {(pid, w)} else Writers(s.procs))
  {
    var rs, ws := Readers(s.procs), Writers(s.procs);
    var e := Spawn(s, pid, r, w).procs[pid];
    var a, rs' := s.t, rs;
    if !Terminal(r) {
      AttachKeeps(s.t, rs, ws, r, pid, true);
      a := Attach(s.t, r, true);
      rs' := if e.rIn then rs + {(pid, r)} else rs;
    }
    if !Terminal(w) {
      AttachKeeps(a, rs', ws, w, pid, false);
    }
  }

  lemma SpawnKeeps(s: Store, pid: nat, r: nat, w: nat)
    requires SInv(s) && Allowed(s, DoSpawn(pid, r, w))
    ensures SInv(Spawn(s, pid, r, w))
  {
    var u := Spawn(s, pid, r, w);
    SpawnTable(s, pid, r, w);
    EndsCome(s.procs, pid, u.procs[pid]);
    forall x | x in u.procs && !u.procs[x].ended ensures Known(s.t, u.procs[x]) {
      SpawnKnown(s, pid, r, w, x);
    }
    EndsStayKnown(s, u);
  }

  lemma SpawnKnown(s: Store, pid: nat, r: nat, w: nat, x: nat)
    requires SInv(s) && Allowed(s, DoSpawn(pid, r, w)) && x in Spawn(s, pid, r, w).procs
    requires !Spawn(s, pid, r, w).procs[x].ended
    ensures Known(s.t, Spawn(s, pid, r, w).procs[x])
  {
    if x == pid && !Terminal(r) {
      AttachKeeps(s.t, Readers(s.procs), Writers(s.procs), r, pid, true);
      if !Terminal(w) && IsStored(s.t, r) {
        Found(s.t, w);
        Found(Attach(s.t, r, true), w);
        Found(s.t, r);
      }
    }
  }

  // ---- when a pipe is deleted

  /** A new pipe is empty and expects both ends. Once a hundred ids have been given out there are no more. */
  lemma OpenAdds(t: Table)
    requires Form(t)
    ensures t.nextId == 100 ==> Open(t) == t
    ensures t.nextId < 100 ==>
              var u := Open(t);
              && Form(u) && u.nextId == t.nextId + 1 && u.freed == t.freed && IsStored(u, t.nextId)
              && PipeAt(u, t.nextId) == Pipe([], false, false, SS.Sem(0, 1, []), SS.Sem(0, 1, []), 0, 0, 0, 1, 1)
              && (forall i :: 0 <= i < |t.slots| ==> u.slots[i] == t.slots[i])
  {
    Found(t, t.nextId);
    if t.nextId < 100 {
      Found(Open(t), t.nextId);
    }
  }

  /** Detaching deletes a pipe exactly when nobody is attached any more and nobody is expected. */
  lemma DetachDeletes(t: Table, id: nat, pid: nat, reader: bool)
    requires Form(t) && IsStored(t, id)
    ensures var p := if reader then DetachReader(PipeAt(t, id), pid) else DetachWriter(PipeAt(t, id), pid);
            var u := Detach(t, id, pid, reader);
            && (IsStored(u, id) <==> p.readers > 0 || p.writers > 0 || p.expReaders > 0 || p.expWriters > 0)
            && (IsStored(u, id) ==> PipeAt(u, id) == p && u.freed == t.freed)
            && (!IsStored(u, id) ==> u.freed == t.freed + [id])
            && (forall i :: 0 <= i < |t.slots| && i + FIRST_ID != id ==> u.slots[i] == t.slots[i])
  {
    var p := if reader then DetachReader(PipeAt(t, id), pid) else DetachWriter(PipeAt(t, id), pid);
    SetAt(t, id, p, Abandoned(p));
  }

  /** Closing deletes it exactly when nobody is attached. */
  lemma CloseDeletes(t: Table, id: nat)
    requires Form(t) && IsStored(t, id)
    ensures var u := ClosePipe(t, id);
            && (IsStored(u, id) <==> PipeAt(t, id).attached > 0)
            && (IsStored(u, id) ==> PipeAt(u, id) == Close(PipeAt(t, id)) && u.freed == t.freed)
            && (!IsStored(u, id) ==> u.freed == t.freed + [id])
            && (forall i :: 0 <= i < |t.slots| && i + FIRST_ID != id ==> u.slots[i] == t.slots[i])
  {
    var p := Close(PipeAt(t, id));
    SetAt(t, id, p, p.attached == 0);
  }

  lemma SetAt(t: Table, id: nat, p: Pipe, delete: bool)
    requires Form(t) && IsStored(t, id)
    ensures var u := Set(t, id, p, delete);
            && Form(u) && (IsStored(u, id) <==> !delete) && (!delete ==> PipeAt(u, id) == p)
            && |u.slots| == |t.slots| && (forall i :: 0 <= i < |t.slots| && i + FIRST_ID != id ==> u.slots[i] == t.slots[i])
  {
    Found(t, id);
    Found(Set(t, id, p, delete), id);
  }

  /** From `t` to `u` no pipe but `id` is touched. */
  ghost predicate Elsewhere(t: Table, u: Table, id: nat) {
    && Form(t) && Form(u) && |u.slots| == |t.slots|
    && forall i :: 0 <= i < |t.slots| && i + FIRST_ID != id ==> u.slots[i] == t.slots[i]
  }

  lemma SameElsewhere(t: Table, u: Table, id: nat, other: nat)
    requires Elsewhere(t, u, id) && other != id
    ensures IsStored(u, other) <==> IsStored(t, other)
    ensures IsStored(u, other) ==> PipeAt(u, other) == PipeAt(t, other)
  {
    Found(t, other);
    Found(u, other);
  }

  /** A pipe that a process leaves and closes is not kept without ends. */
  lemma SideDeletes(t: Table, pid: nat, id: nat, reader: bool)
    requires Form(t) && !Terminal(id)
    ensures var u := LeaveSide(t, pid, id, reader, true);
            Elsewhere(t, u, id) && (IsStored(u, id) ==> PipeAt(u, id).attached > 0)
  {
    var d := Detach(t, id, pid, reader);
    if IsStored(t, id) {
      SetAt(t, id, if reader then DetachReader(PipeAt(t, id), pid) else DetachWriter(PipeAt(t, id), pid), !IsStored(d, id));
      DetachDeletes(t, id, pid, reader);
      if IsStored(d, id) {
        ClosesOnly(d, id);
      }
    }
  }

  lemma ClosesOnly(t: Table, id: nat)
    requires Form(t) && IsStored(t, id)
    ensures var u := ClosePipe(t, id); Elsewhere(t, u, id) && (IsStored(u, id) ==> PipeAt(u, id).attached > 0)
  {
    var p := Close(PipeAt(t, id));
    SetAt(t, id, p, p.attached == 0);
  }

  /** When a process with different pipes on its two sides ends or is killed, each of them is deleted exactly when no end
      is left attached to it. */
  lemma EndDeletes(s: Store, pid: nat, op: Op)
    requires SInv(s) && pid in s.procs && !s.procs[pid].ended && (op == DoExit(pid) || op == DoKill(pid))
    requires s.procs[pid].r != s.procs[pid].w
    ensures var u, e := Step(s, op), s.procs[pid];
            && SInv(u)
            && (e.rIn ==> (IsStored(u.t, e.r) <==> At(Readers(u.procs), e.r) + At(Writers(u.procs), e.r) != {}))
            && (e.wIn ==> (IsStored(u.t, e.w) <==> At(Readers(u.procs), e.w) + At(Writers(u.procs), e.w) != {}))
  {
    var u, e := Step(s, op), s.procs[pid];
    EndKeeps(s, pid, op);
    var a := LeaveSide(s.t, pid, e.r, true, true);
    if !Terminal(e.r) { SideDeletes(s.t, pid, e.r, true); }
    if !Terminal(e.w) { SideDeletes(a, pid, e.w, false); }
    if e.rIn {
      if !Terminal(e.w) { SameElsewhere(a, u.t, e.w, e.r); }
      StoredHasEnds(u, e.r);
    }
    if e.wIn { StoredHasEnds(u, e.w); }
  }

  lemma StoredHasEnds(s: Store, id: nat)
    requires SInv(s) && (IsStored(s.t, id) ==> PipeAt(s.t, id).attached > 0)
    ensures IsStored(s.t, id) <==> At(Readers(s.procs), id) + At(Writers(s.procs), id) != {}
  {
    Found(s.t, id);
    var rs, ws := At(Readers(s.procs), id), At(Writers(s.procs), id);
    if IsStored(s.t, id) {
      assert Balanced(s.t.slots[id - FIRST_ID], rs, ws);
      assert rs == {} && ws == {} ==> |rs| + |ws| == 0;
    } else {
      assert rs == {} && ws == {};
    }
  }

  // ---- ending twice

  function Count(p: Pipe, reader: bool): nat {
    if reader then p.readers else p.writers
  }

  /** Nothing is counted that was not counted before. */
  ghost predicate Fewer(t: Table, u: Table) {
    && Form(t) && Form(u) && t.nextId == u.nextId
    && forall i :: 0 <= i < |t.slots| && u.slots[i].Stored? ==>
         t.slots[i].Stored? && forall reader :: Count(u.slots[i].p, reader) <= Count(t.slots[i].p, reader)
  }

  lemma SetFewer(t: Table, id: nat, p: Pipe, delete: bool)
    requires Form(t) && IsStored(t, id)
    requires forall reader :: Count(p, reader) <= Count(PipeAt(t, id), reader)
    ensures Fewer(t, Set(t, id, p, delete))
    ensures IsStored(Set(t, id, p, delete), id) ==> PipeAt(Set(t, id, p, delete), id) == p
  {
    Found(t, id);
    Found(Set(t, id, p, delete), id);
  }

  lemma DetachFewer(t: Table, pid: nat, id: nat, reader: bool)
    requires Form(t) && IsStored(t, id)
    ensures var u := Detach(t, id, pid, reader);
            Fewer(t, u) && (IsStored(u, id) ==> Count(PipeAt(u, id), reader) == Less(Count(PipeAt(t, id), reader)))
  {
    var p := if reader then DetachReader(PipeAt(t, id), pid) else DetachWriter(PipeAt(t, id), pid);
    SetFewer(t, id, p, Abandoned(p));
  }

  lemma CloseFewer(t: Table, id: nat)
    requires Form(t) && IsStored(t, id)
    ensures var u := ClosePipe(t, id);
            && Fewer(t, u)
            && (IsStored(u, id) ==> forall reader :: Count(PipeAt(u, id), reader) == Count(PipeAt(t, id), reader))
  {
    var p := Close(PipeAt(t, id));
    SetFewer(t, id, p, p.attached == 0);
  }

  /** Giving up an end that is counted leaves one fewer counted, or no pipe. */
  lemma SideFewer(t: Table, pid: nat, id: nat, reader: bool, close: bool)
    requires Form(t)
    ensures var u := LeaveSide(t, pid, id, reader, close);
            && Fewer(t, u)
            && (!Terminal(id) && IsStored(t, id) && Count(PipeAt(t, id), reader) > 0 && IsStored(u, id) ==>
                  Count(PipeAt(u, id), reader) < Count(PipeAt(t, id), reader))
  {
    if !Terminal(id) && IsStored(t, id) {
      DetachFewer(t, pid, id, reader);
      if IsStored(Detach(t, id, pid, reader), id) {
        CloseFewer(Detach(t, id, pid, reader), id);
      }
    }
  }

  /** Giving up an end that is not counted changes no count. */
  lemma SideNothing(t: Table, rs: set<End>, ws: set<End>, pid: nat, id: nat, reader: bool, close: bool)
    requires TInv(t, rs, ws)
    requires !Terminal(id) && IsStored(t, id) ==> Count(PipeAt(t, id), reader) == 0
    ensures var u := LeaveSide(t, pid, id, reader, close);
            TInv(u, rs, ws) && NoRevival(t, u)
  {
    if !Terminal(id) && IsStored(t, id) {
      DetachNothing(t, rs, ws, pid, id, reader);
      CloseKeeps(Detach(t, id, pid, reader), rs, ws, id);
    }
  }

  lemma DetachNothing(t: Table, rs: set<End>, ws: set<End>, pid: nat, id: nat, reader: bool)
    requires TInv(t, rs, ws) && IsStored(t, id) && Count(PipeAt(t, id), reader) == 0
    ensures TInv(Detach(t, id, pid, reader), rs, ws)
  {
    Found(t, id);
    var p := if reader then DetachReader(PipeAt(t, id), pid) else DetachWriter(PipeAt(t, id), pid);
    SetKeeps(t, rs, ws, id, p, Abandoned(p), rs, ws);
  }

  lemma CountsAgree(t: Table, u: Table, rs: set<End>, ws: set<End>, id: nat)
    requires TInv(t, rs, ws) && TInv(u, rs, ws) && NoRevival(t, u) && t.nextId == u.nextId && IsStored(u, id)
    ensures IsStored(t, id) && PipeAt(t, id).writers == PipeAt(u, id).writers
  {
    Found(t, id);
    Found(u, id);
    assert Balanced(t.slots[id - FIRST_ID], At(rs, id), At(ws, id));
    assert Balanced(u.slots[id - FIRST_ID], At(rs, id), At(ws, id));
  }

  lemma LeaveNothing(t: Table, rs: set<End>, ws: set<End>, pid: nat, e: Ends)
    requires TInv(t, rs, ws) && !Shared(t, e)
    ensures TInv(Leave(t, pid, e.r, e.w), rs, ws) && NoRevival(t, Leave(t, pid, e.r, e.w))
  {
    var a := LeaveSide(t, pid, e.r, true, true);
    SideNothing(t, rs, ws, pid, e.r, true, true);
    if IsStored(a, e.w) {
      CountsAgree(t, a, rs, ws, e.w);
    }
    SideNothing(a, rs, ws, pid, e.w, false, e.w != e.r);
  }

  /** A pipe that counts fewer ends than it had, or is deleted with ends attached, is out of balance. */
  lemma Uncounted(t: Table, u: Table, rs: set<End>, ws: set<End>, id: nat, reader: bool)
    requires TInv(t, rs, ws) && IsStored(t, id) && Fewer(t, u) && Count(PipeAt(t, id), reader) > 0
    requires IsStored(u, id) ==> Count(PipeAt(u, id), reader) < Count(PipeAt(t, id), reader)
    ensures !TInv(u, rs, ws)
  {
    Found(t, id);
    Found(u, id);
    assert Balanced(t.slots[id - FIRST_ID], At(rs, id), At(ws, id));
    assert !Balanced(u.slots[id - FIRST_ID], At(rs, id), At(ws, id));
  }

  lemma FewerThrough(t: Table, a: Table, u: Table, id: nat, reader: bool)
    requires Fewer(t, a) && Fewer(a, u)
    ensures Fewer(t, u)
    ensures IsStored(u, id) ==> IsStored(a, id) && Count(PipeAt(u, id), reader) <= Count(PipeAt(a, id), reader)
    ensures IsStored(a, id) ==> IsStored(t, id) && Count(PipeAt(a, id), reader) <= Count(PipeAt(t, id), reader)
  {
    Found(t, id);
    Found(a, id);
    Found(u, id);
  }

  lemma LeaveUncounted(t: Table, rs: set<End>, ws: set<End>, pid: nat, e: Ends)
    requires TInv(t, rs, ws) && Shared(t, e)
    ensures !TInv(Leave(t, pid, e.r, e.w), rs, ws)
  {
    var a, u := LeaveSide(t, pid, e.r, true, true), Leave(t, pid, e.r, e.w);
    SideFewer(t, pid, e.r, true, true);
    SideFewer(a, pid, e.w, false, e.w != e.r);
    if !Terminal(e.r) && IsStored(t, e.r) && PipeAt(t, e.r).readers > 0 {
      FewerThrough(t, a, u, e.r, true);
      Uncounted(t, u, rs, ws, e.r, true);
    } else {
      FewerThrough(t, a, u, e.w, false);
      Uncounted(t, u, rs, ws, e.w, false);
    }
  }

  /** A process that has ended but not been reaped may be killed exactly when its pipes have no ends to lose. */
  lemma KillEnded(s: Store, pid: nat)
    requires SInv(s) && pid in s.procs && s.procs[pid].ended
    ensures SInv(Step(s, DoKill(pid))) <==> !Shared(s.t, s.procs[pid])
  {
    if Shared(s.t, s.procs[pid]) {
      KillShared(s, pid);
    } else {
      KillUnshared(s, pid);
    }
  }

  /** A pipe with two readers, of which the first has ended. */
  function OneOfTwoEnded(): seq<Op> {
    [DoOpen, DoSpawn(2, 2, 1), DoSpawn(3, 2, 1), DoExit(2)]
  }

  /** Two readers on the first pipe. */
  function TwoReaders(): Store {
    var e := Ends(2, 1, true, false, false);
    Store(Table([Stored(2, AttachReader(AttachReader(Fresh())))], 3, []), map[2 := e, 3 := e])
  }

  /** One reader is left to be counted, in process 3. */
  function OneReader(): Pipe {
    Close(DetachReader(AttachReader(AttachReader(Fresh())), 2))
  }

  lemma TwoReadersReached()
    ensures var a := Step(Boot(), DoOpen);
            var b := Step(a, DoSpawn(2, 2, 1));
            Allowed(a, DoSpawn(2, 2, 1)) && Allowed(b, DoSpawn(3, 2, 1)) && Step(b, DoSpawn(3, 2, 1)) == TwoReaders()
  {
    var e := Ends(2, 1, true, false, false);
    var a := Step(Boot(), DoOpen);
    var b := Step(a, DoSpawn(2, 2, 1));
    assert a == Store(Table([Stored(2, Fresh())], 3, []), map[]);
    assert b == Store(Table([Stored(2, AttachReader(Fresh()))], 3, []), map[2 := e]);
  }

  lemma OneReaderIs()
    ensures var p := OneReader(); p.readers == 1 && p.writers == 0 && p.attached == 1 && p.expWriters == 1
  {
  }

  /** The only pipe loses a reader, and is deleted with its last end. */
  lemma OnlyPipe(t: Table, p: Pipe)
    requires t == Table([Stored(2, p)], 3, []) && p.readers > 0 && p.attached > 0 && p.expWriters == 1
    ensures var u, q := Leave(t, 2, 2, 1), Close(DetachReader(p, 2));
            && (p.attached == 1 ==> u.slots == [Deleted])
            && (p.attached > 1 ==> u == Table([Stored(2, q)], 3, []))
  {
    var q := DetachReader(p, 2);
    ReaderLost(p);
    assert Detach(t, 2, 2, true) == Table([Stored(2, q)], 3, []);
  }

  lemma ReaderLost(p: Pipe)
    requires p.readers > 0 && p.attached > 0 && p.expWriters == 1
    ensures var q := DetachReader(p, 2);
            q.attached == p.attached - 1 && Close(q).attached == q.attached && !Abandoned(q)
  {
  }

  lemma OneOfTwoEndedIs()
    ensures Legal(Boot(), OneOfTwoEnded())
    ensures Run(Boot(), OneOfTwoEnded()) == Step(TwoReaders(), DoExit(2))
  {
    var ops := OneOfTwoEnded();
    TwoReadersReached();
    assert ops[1..] == [DoSpawn(2, 2, 1), DoSpawn(3, 2, 1), DoExit(2)];
    assert ops[1..][1..] == [DoSpawn(3, 2, 1), DoExit(2)];
    assert ops[1..][1..][1..] == [DoExit(2)];
    assert ops[1..][1..][1..][1..] == [];
  }

  /** It happens: killing the one that has ended deletes the pipe under the other. */
  lemma KilledTwice()
    ensures Legal(Boot(), OneOfTwoEnded())
    ensures var s := Run(Boot(), OneOfTwoEnded());
            && SInv(s) && 2 in s.procs && s.procs[2].ended && Shared(s.t, s.procs[2])
            && var t := Step(s, DoKill(2));
               !SInv(t) && (3, 2) in Readers(t.procs) && !IsStored(t.t, 2)
  {
    OneOfTwoEndedIs();
    RunKeeps(Boot(), OneOfTwoEnded());
    FirstHasEnded();
    SecondIsCutOff(Run(Boot(), OneOfTwoEnded()));
  }

  lemma FirstHasEnded()
    ensures var s, e := Step(TwoReaders(), DoExit(2)), Ends(2, 1, true, false, false);
            s.t == Table([Stored(2, OneReader())], 3, []) && s.procs == map[2 := e.(ended := true), 3 := e]
  {
    OnlyPipe(TwoReaders().t, AttachReader(AttachReader(Fresh())));
  }

  lemma SecondIsCutOff(s: Store)
    requires SInv(s) && s.t == Table([Stored(2, OneReader())], 3, [])
    requires var e := Ends(2, 1, true, false, false); s.procs == map[2 := e.(ended := true), 3 := e]
    ensures Shared(s.t, s.procs[2])
    ensures var t := Step(s, DoKill(2)); !SInv(t) && (3, 2) in Readers(t.procs) && !IsStored(t.t, 2)
  {
    OneReaderIs();
    assert IsStored(s.t, 2) && PipeAt(s.t, 2) == OneReader();
    KillEnded(s, 2);
    OnlyPipe(s.t, OneReader());
  }

  lemma KillShared(s: Store, pid: nat)
    requires SInv(s) && pid in s.procs && s.procs[pid].ended && Shared(s.t, s.procs[pid])
    ensures !SInv(Step(s, DoKill(pid)))
  {
    var e := s.procs[pid];
    var t, procs := Leave(s.t, pid, e.r, e.w), s.procs - {pid};
    NoEnds(s.procs, pid);
    assert Step(s, DoKill(pid)) == Store(t, procs);
    assert !TInv(t, Readers(procs), Writers(procs)) by {
      LeaveUncounted(s.t, Readers(procs), Writers(procs), pid, e);
    }
  }

  lemma KillUnshared(s: Store, pid: nat)
    requires SInv(s) && pid in s.procs && s.procs[pid].ended && !Shared(s.t, s.procs[pid])
    ensures SInv(Step(s, DoKill(pid)))
  {
    NoEnds(s.procs, pid);
    LeaveNothing(s.t, Readers(s.procs), Writers(s.procs), pid, s.procs[pid]);
    EndsStayKnown(s, Step(s, DoKill(pid)));
  }

  lemma NoEnds(procs: map<nat, Ends>, pid: nat)
    requires pid in procs && procs[pid].ended
    ensures Readers(procs - {pid}) == Readers(procs) && Writers(procs - {pid}) == Writers(procs)
  {
  }

  // ---- whole runs

  lemma StepKeeps(s: Store, op: Op)
    requires SInv(s) && Allowed(s, op)
    ensures SInv(Step(s, op))
  {
    match op
    case DoSpawn(pid, r, w) => SpawnKeeps(s, pid, r, w);
    case DoExit(pid) => if Step(s, op) != s { EndKeeps(s, pid, op); }
    case DoKill(pid) => if pid in s.procs { if s.procs[pid].ended { KillEnded(s, pid); } else { EndKeeps(s, pid, op); } }
    case DoReap => ReapKeeps(s);
    case _ => OpenAndCloseKeep(s, op);
  }

  ghost predicate Legal(s: Store, ops: seq<Op>)
    decreases |ops|
  {
    ops == [] || (Allowed(s, ops[0]) && Legal(Step(s, ops[0]), ops[1..]))
  }

  ghost function Run(s: Store, ops: seq<Op>): Store
    decreases |ops|
  {
    if ops == [] then s else Run(Step(s, ops[0]), ops[1..])
  }

  lemma {:induction false} RunKeeps(s: Store, ops: seq<Op>)
    requires SInv(s) && Legal(s, ops)
    ensures SInv(Run(s, ops))
    decreases |ops|
  {
    if ops != [] {
      StepKeeps(s, ops[0]);
      RunKeeps(Step(s, ops[0]), ops[1..]);
    }
  }

  /** As the kernel starts: no pipes, ids from 2, and no process but those with terminals. */
  function Boot(): Store {
    Store(Table([], FIRST_ID, []), map[])
  }

  lemma {:induction false} FewEnds(ends: set<End>, id: nat, n: nat)
    requires forall e :: e in ends ==> e.1 == id && e.0 < n
    ensures |ends| <= n
  {
    if n != 0 {
      FewEnds(ends - {(n - 1, id)}, id, n - 1);
    } else {
      assert ends == {};
    }
  }

  predicate CountsEnds(p: Pipe, procs: map<nat, Ends>, id: nat) {
    p.readers == |At(Readers(procs), id)| && p.writers == |At(Writers(procs), id)|
  }

  /** In every run: a stored pipe counts its ends, in numbers that fit their bytes; no two stored pipes share an id; a
      pipe is there as long as an end is attached to it; and no pipe is freed twice or kept after being freed. */
  lemma Lifetime(ops: seq<Op>)
    requires Legal(Boot(), ops)
    ensures var s := Run(Boot(), ops);
            && (forall i :: 0 <= i < |s.t.slots| && s.t.slots[i].Stored? ==>
                  var p := s.t.slots[i].p;
                  p.attached == p.readers + p.writers < 256 && CountsEnds(p, s.procs, s.t.slots[i].id))
            && (forall i, j :: 0 <= i < j < |s.t.slots| && s.t.slots[i].Stored? && s.t.slots[j].Stored? ==>
                  s.t.slots[i].id != s.t.slots[j].id)
            && (forall pid :: pid in s.procs && !s.procs[pid].ended ==>
                  && (s.procs[pid].rIn ==> IsStored(s.t, s.procs[pid].r))
                  && (s.procs[pid].wIn ==> IsStored(s.t, s.procs[pid].w)))
            && (forall i, j :: 0 <= i < j < |s.t.freed| ==> s.t.freed[i] != s.t.freed[j])
            && (forall id :: id in s.t.freed ==> !IsStored(s.t, id))
  {
    RunKeeps(Boot(), ops);
    var s := Run(Boot(), ops);
    forall i | 0 <= i < |s.t.slots| && s.t.slots[i].Stored?
      ensures var p := s.t.slots[i].p;
              p.attached == p.readers + p.writers < 256 && CountsEnds(p, s.procs, s.t.slots[i].id)
    {
      CountsFit(s, i + FIRST_ID);
    }
    forall id | id in s.t.freed ensures !IsStored(s.t, id) {
      Found(s.t, id);
    }
  }

  lemma CountsFit(s: Store, id: nat)
    requires SInv(s) && FIRST_ID <= id < s.t.nextId && s.t.slots[id - FIRST_ID].Stored?
    ensures var p := s.t.slots[id - FIRST_ID].p;
            p.attached == p.readers + p.writers < 256 && CountsEnds(p, s.procs, id)
  {
    FewEnds(At(Readers(s.procs), id), id, S.MAX_PROCESSES);
    FewEnds(At(Writers(s.procs), id), id, S.MAX_PROCESSES);
  }
}

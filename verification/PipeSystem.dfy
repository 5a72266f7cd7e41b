/** The pipe protocol running on the kernel: its two processes make their calls whenever they execute, and anything
    may happen in between. */
module PipeSystem {
  import opened Basics
  import opened SchedulerSpec
  import opened SemaphoreSpec
  import opened SemaphoreClients
  import opened PipeSpec
  import PP = PipeProtocol
  import Sems = SemaphoreTheorems

  /** `r` and `w` name the semaphores of the pipe in the registry. */
  datatype System = System(world: Sems.World, c: PP.Conn, r: string, w: string)

  function Names(s: System): set<string> {
    {s.r, s.w}
  }

  predicate Reads(c: PP.Conn) {
    !c.reader.NoReader?
  }

  predicate Writes(c: PP.Conn) {
    c.writer.WriterIdle? || c.writer.Writing?
  }

  /** The processes attached at the moment. */
  function Clients(s: System): set<nat> {
    (if Reads(s.c) then {s.c.rpid} else {}) + (if Writes(s.c) then {s.c.wpid} else {})
  }

  ghost predicate Matches(s: System) {
    && s.r in s.world.k.sems && s.world.k.sems[s.r] == s.c.p.canRead
    && s.w in s.world.k.sems && s.world.k.sems[s.w] == s.c.p.canWrite
  }

  ghost predicate SysInv(s: System) {
    s.r != s.w && Settled(s.world, Names(s), Clients(s)) && Matches(s) && PP.CInv(s.c)
  }

  /** The semaphore calls of a segment, in order. */
  function SemCalls(s: System, o: PP.Op): seq<Sems.Op>
    requires PP.Enabled(s.c, o)
  {
    var p := s.c.p;
    match o
    case ReaderAttaches => []
    case WriterAttaches => []
    case ReadCall(n) =>
      if p.ring != [] then DrainCalls(s, n)
      else if p.writers == 0 && p.expWriters == 0 then []
      else [Sems.DoWait(s.r)]
    case ReadResumes => DrainCalls(s, s.c.reader.bytes)
    case WriteCall(data) =>
      if StartWrite(p, data, s.c.wpid).rest != [] then [Sems.DoWait(s.w)]
      else if data != [] && p.waitingToRead then [Sems.DoPost(s.r)]
      else []
    case WriteResumes =>
      if ResumeWrite(p, s.c.writer.rest, s.c.wpid).rest != [] then [Sems.DoWait(s.w)]
      else if p.waitingToRead then [Sems.DoPost(s.r)]
      else []
    case WriterLeaves =>
      [Sems.DoWithdraw(s.r, s.c.wpid)] + [Sems.DoWithdraw(s.w, s.c.wpid)]
      + (if p.waitingToRead then [Sems.DoPost(s.r)] else [])
      + [Sems.DoPost(s.r), Sems.DoPost(s.w)]
  }

  function DrainCalls(s: System, n: nat): seq<Sems.Op> {
    if n > 0 && s.c.p.ring != [] && s.c.p.waitingToWrite then [Sems.DoPost(s.w)] else []
  }

  /** A process is attached when it has been created; reads and writes are made by the two processes when they execute;
      the writer may leave, or be killed, at any time. */
  predicate Runs(s: System, o: PP.Op) {
    && PP.Enabled(s.c, o)
    && (o.ReaderAttaches? ==> Lively(s.world.k.sched, s.c.rpid))
    && (o.WriterAttaches? ==> Lively(s.world.k.sched, s.c.wpid))
    && (o.ReadCall? || o.ReadResumes? ==> Executing(s.world.k.sched, s.c.rpid))
    && (o.WriteCall? || o.WriteResumes? ==> Executing(s.world.k.sched, s.c.wpid))
  }

  datatype Op = Segment(o: PP.Op) | Environment(op: Sems.Op)

  ghost function SysStep(s: System, op: Op): System
    requires WellFormed(s.world.k.sched) && s.world.logs.Keys == s.world.k.sems.Keys
  {
    match op
    case Environment(o) => s.(world := Sems.Step(s.world, o))
    case Segment(o) =>
      if Runs(s, o) then s.(world := MakeCalls(s.world, SemCalls(s, o)), c := PP.Step(s.c, o)) else s
  }

  ghost predicate SysAllowed(s: System, op: Op)
    requires s.world.logs.Keys == s.world.k.sems.Keys
  {
    op.Environment? ==> Foreign(s.world, Names(s), Clients(s), op.op)
  }

  // ---- segments on the kernel

  lemma WaitSegment(s: System, name: string, x: nat)
    requires SysInv(s) && (name == s.r || name == s.w) && x in Clients(s) && Executing(s.world.k.sched, x)
    ensures var t := MakeCalls(s.world, [Sems.DoWait(name)]);
            Settled(t, Names(s), Clients(s)) && t.k.sems == s.world.k.sems[name := Take(s.world.k.sems[name], x)]
  {
    OneCall(s.world, Sems.DoWait(name));
    WaitKeeps(s.world, Names(s), Clients(s), name, x);
  }

  lemma PostSegment(s: System, name: string)
    requires SysInv(s) && (name == s.r || name == s.w)
    requires s.world.k.sems[name].blocked != [] || s.world.k.sems[name].value + 1 < VALUE_LIMIT
    ensures var t := MakeCalls(s.world, [Sems.DoPost(name)]);
            Settled(t, Names(s), Clients(s)) && t.k.sems == s.world.k.sems[name := Give(s.world.k.sems[name])]
  {
    OneCall(s.world, Sems.DoPost(name));
    PostKeeps(s.world, Names(s), Clients(s), name);
  }

  /** A read hands a unit to the writer exactly when it makes a post. */
  lemma DrainMatches(s: System, n: nat, world: Sems.World)
    requires SysInv(s) && PP.CInv(s.c) && world == MakeCalls(s.world, DrainCalls(s, n))
    ensures var p := FinishRead(s.c.p, n).p;
            && Settled(world, Names(s), Clients(s))
            && s.r in world.k.sems && world.k.sems[s.r] == p.canRead
            && s.w in world.k.sems && world.k.sems[s.w] == p.canWrite
  {
    if DrainCalls(s, n) != [] {
      PostSegment(s, s.w);
    }
  }

  lemma ReadKeeps(s: System, o: PP.Op)
    requires SysInv(s) && Runs(s, o) && (o.ReadCall? || o.ReadResumes?)
    ensures SysInv(SysStep(s, Segment(o)))
  {
    PP.StepKeeps(s.c, o);
    var n := if o.ReadCall? then o.n else s.c.reader.bytes;
    if o.ReadResumes? || s.c.p.ring != [] {
      DrainMatches(s, n, MakeCalls(s.world, DrainCalls(s, n)));
    } else if !(s.c.p.writers == 0 && s.c.p.expWriters == 0) {
      WaitSegment(s, s.r, s.c.rpid);
    }
  }

  /** A write waits exactly when bytes are left, and otherwise hands a unit to a waiting reader. */
  lemma WriteEffect(p: Pipe, data: seq<Byte>, pid: nat)
    requires |p.ring| <= CAPACITY && p.canWrite.value == 0
    ensures var t := StartWrite(p, data, pid);
            if t.rest != [] then t.p.canRead == p.canRead && t.p.canWrite == Take(p.canWrite, pid)
            else
              && t.p.canWrite == p.canWrite
              && t.p.canRead == if data != [] && p.waitingToRead then Give(p.canRead) else p.canRead
  {
    PP.PutAllEffect(p, data, pid);
  }

  lemma WriteKeeps(s: System, o: PP.Op)
    requires SysInv(s) && Runs(s, o) && (o.WriteCall? || o.WriteResumes?)
    ensures SysInv(SysStep(s, Segment(o)))
  {
    PP.StepKeeps(s.c, o);
    var data := if o.WriteCall? then o.data else s.c.writer.rest;
    if o.WriteResumes? {
      PP.ResumeEffect(s.c.p, data, s.c.wpid);
    }
    WriteEffect(s.c.p, data, s.c.wpid);
    var rest := StartWrite(s.c.p, data, s.c.wpid).rest;
    if rest != [] {
      WaitSegment(s, s.w, s.c.wpid);
    } else if data != [] && s.c.p.waitingToRead {
      PostSegment(s, s.r);
    }
  }

  /** The posts a leaving writer makes. */
  lemma LeavePosts(world: Sems.World, names: set<string>, clients: set<nat>, r: string, w: string, wake: bool)
    requires Settled(world, names, clients) && r in names && w in names && r != w
    requires world.k.sems[r].value == 0 && world.k.sems[w].value == 0
    ensures var calls := (if wake then [Sems.DoPost(r)] else []) + [Sems.DoPost(r), Sems.DoPost(w)];
            var t := MakeCalls(world, calls);
            var m := if wake then Give(world.k.sems[r]) else world.k.sems[r];
            && Settled(t, names, clients) && r in t.k.sems && w in t.k.sems
            && t.k.sems[r] == Give(m) && t.k.sems[w] == Give(world.k.sems[w])
  {
    var a := world;
    if wake {
      PostKeeps(world, names, clients, r);
      FirstCall(world, Sems.DoPost(r), [Sems.DoPost(r), Sems.DoPost(w)]);
      a := Sems.Step(world, Sems.DoPost(r));
    } else {
      assert [] + [Sems.DoPost(r), Sems.DoPost(w)] == [Sems.DoPost(r), Sems.DoPost(w)];
    }
    PostKeeps(a, names, clients, r);
    assert [Sems.DoPost(r), Sems.DoPost(w)] == [Sems.DoPost(r)] + [Sems.DoPost(w)];
    FirstCall(a, Sems.DoPost(r), [Sems.DoPost(w)]);
    var b := Sems.Step(a, Sems.DoPost(r));
    PostKeeps(b, names, clients, w);
    OneCall(b, Sems.DoPost(w));
  }

  /** The semaphores of a pipe after its writer has left. */
  lemma LeaveEffect(c: PP.Conn)
    requires PP.CInv(c) && PP.Enabled(c, PP.WriterLeaves)
    ensures var p := PP.Step(c, PP.WriterLeaves).p;
            var r, w := PipeSpec.Leave(c.p.canRead, c.wpid), PipeSpec.Leave(c.p.canWrite, c.wpid);
            && r.value == 0 && w.value == 0
            && p.canRead == Give(if c.p.waitingToRead then Give(r) else r) && p.canWrite == Give(w)
  {
    var r, w := PipeSpec.Leave(c.p.canRead, c.wpid), PipeSpec.Leave(c.p.canWrite, c.wpid);
    assert GiveTimes(r, 1) == Give(r) && GiveTimes(Give(r), 1) == Give(Give(r)) && GiveTimes(w, 1) == Give(w);
  }

  /** A leaving writer first takes itself out of both queues. */
  lemma Withdraws(world: Sems.World, names: set<string>, clients: set<nat>, r: string, w: string, x: nat, rest: seq<Sems.Op>)
    returns (t: Sems.World)
    requires Settled(world, names, clients) && r in names && w in names && r != w && x !in clients
    ensures MakeCalls(world, [Sems.DoWithdraw(r, x)] + ([Sems.DoWithdraw(w, x)] + rest)) == MakeCalls(t, rest)
    ensures Settled(t, names, clients)
    ensures t.k.sems[r] == PipeSpec.Leave(world.k.sems[r], x) && t.k.sems[w] == PipeSpec.Leave(world.k.sems[w], x)
  {
    WithdrawKeeps(world, names, clients, r, x);
    FirstCall(world, Sems.DoWithdraw(r, x), [Sems.DoWithdraw(w, x)] + rest);
    var a := Sems.Step(world, Sems.DoWithdraw(r, x));
    WithdrawKeeps(a, names, clients, w, x);
    FirstCall(a, Sems.DoWithdraw(w, x), rest);
    t := Sems.Step(a, Sems.DoWithdraw(w, x));
  }

  lemma LeaveCalls(s: System)
    requires SysInv(s) && Runs(s, PP.WriterLeaves)
    ensures var p, t := PP.Step(s.c, PP.WriterLeaves).p, MakeCalls(s.world, SemCalls(s, PP.WriterLeaves));
            && Settled(t, Names(s), {s.c.rpid})
            && s.r in t.k.sems && t.k.sems[s.r] == p.canRead && s.w in t.k.sems && t.k.sems[s.w] == p.canWrite
  {
    LeaveEffect(s.c);
    FewerClients(s.world, Names(s), Clients(s), {s.c.rpid});
    var wake := if s.c.p.waitingToRead then [Sems.DoPost(s.r)] else [];
    var posts := wake + [Sems.DoPost(s.r), Sems.DoPost(s.w)];
    var t := Withdraws(s.world, Names(s), {s.c.rpid}, s.r, s.w, s.c.wpid, posts);
    LeavePosts(t, Names(s), {s.c.rpid}, s.r, s.w, s.c.p.waitingToRead);
    CallsRegroup([Sems.DoWithdraw(s.r, s.c.wpid)], [Sems.DoWithdraw(s.w, s.c.wpid)], wake,
                 [Sems.DoPost(s.r), Sems.DoPost(s.w)]);
  }

  lemma CallsRegroup(a: seq<Sems.Op>, b: seq<Sems.Op>, c: seq<Sems.Op>, d: seq<Sems.Op>)
    ensures a + (b + (c + d)) == a + b + c + d
  {
  }

  lemma LeaveKeeps(s: System)
    requires SysInv(s) && Runs(s, PP.WriterLeaves)
    ensures SysInv(SysStep(s, Segment(PP.WriterLeaves)))
  {
    PP.StepKeeps(s.c, PP.WriterLeaves);
    LeaveCalls(s);
  }

  lemma AttachKeeps(s: System, o: PP.Op)
    requires SysInv(s) && Runs(s, o) && (o.ReaderAttaches? || o.WriterAttaches?)
    ensures SysInv(SysStep(s, Segment(o)))
  {
    PP.StepKeeps(s.c, o);
    assert MakeCalls(s.world, []) == s.world;
    var x := if o.ReaderAttaches? then s.c.rpid else s.c.wpid;
    JoinKeeps(s.world, Names(s), Clients(s), x);
    assert Clients(SysStep(s, Segment(o))) == Clients(s) + {x};
  }

  lemma SysKeeps(s: System, op: Op)
    requires SysInv(s) && SysAllowed(s, op)
    ensures SysInv(SysStep(s, op)) && SysStep(s, op).c.rpid == s.c.rpid && SysStep(s, op).c.wpid == s.c.wpid
  {
    match op
    case Environment(o) => ForeignKeeps(s.world, Names(s), Clients(s), o);
    case Segment(o) =>
      if Runs(s, o) {
        match o
        case ReadCall(_) => ReadKeeps(s, o);
        case ReadResumes => ReadKeeps(s, o);
        case WriteCall(_) => WriteKeeps(s, o);
        case WriteResumes => WriteKeeps(s, o);
        case WriterLeaves => LeaveKeeps(s);
        case _ => AttachKeeps(s, o);
      }
  }

  // ---- whole runs

  ghost predicate Legal(s: System, ops: seq<Op>)
    requires SysInv(s)
    decreases |ops|
  {
    ops == [] || (SysAllowed(s, ops[0]) && (SysKeeps(s, ops[0]); Legal(SysStep(s, ops[0]), ops[1..])))
  }

  ghost function Run(s: System, ops: seq<Op>): (t: System)
    requires SysInv(s) && Legal(s, ops)
    ensures SysInv(t) && t.c.rpid == s.c.rpid && t.c.wpid == s.c.wpid
    decreases |ops|
  {
    if ops == [] then s
    else
      SysKeeps(s, ops[0]);
      Run(SysStep(s, ops[0]), ops[1..])
  }

  /** A new pipe, with its semaphores; nobody is attached yet. */
  ghost predicate Started(s: System): (b: bool)
    ensures b ==> SysInv(s)
  {
    && s.c == PP.Opened(s.c.rpid, s.c.wpid) && s.c.rpid != s.c.wpid && s.r != s.w
    && Sems.WInv(s.world) && Matches(s)
  }

  /** On the kernel, whatever the rest of the system does: bytes come out in the order they went in, reader and
      writer are never both blocked by the scheduler, and each is blocked only by an empty, or a full, ring. Either may
      be created when the other has long been using the pipe. */
  lemma PipeOnTheKernel(s: System, ops: seq<Op>)
    requires Started(s) && Legal(s, ops)
    ensures var t := Run(s, ops);
            var sched, r, w := t.world.k.sched, s.c.rpid, s.c.wpid;
            && t.c.read <= t.c.written && t.c.written == t.c.read + t.c.p.ring && |t.c.p.ring| <= CAPACITY
            && (Reads(t.c) ==> Stopped(sched, r) || Lively(sched, r))
            && (Writes(t.c) ==> Stopped(sched, w) || Lively(sched, w))
            && (Reads(t.c) && Stopped(sched, r) ==>
                  t.c.p.ring == [] && !t.c.writer.WriterGone? && (Writes(t.c) ==> Lively(sched, w)))
            && (Writes(t.c) && Stopped(sched, w) ==> |t.c.p.ring| == CAPACITY && (Reads(t.c) ==> Lively(sched, r)))
  {
    var t := Run(s, ops);
    if Reads(t.c) {
      BlockedMeansQueued(t, t.c.rpid);
    }
    if Writes(t.c) {
      BlockedMeansQueued(t, t.c.wpid);
    }
  }

  /** On the kernel, too, a read of at least one byte returns nothing exactly at the end of the stream. */
  lemma EndOfFileOnTheKernel(s: System, ops: seq<Op>, n: nat)
    requires Started(s) && Legal(s, ops) && n > 0
    ensures var t := Run(s, ops);
            && (Runs(t, PP.ReadCall(n)) ==>
                  (StartRead(t.c.p, n, t.c.rpid).got == Some([]) <==> PP.AtEnd(t.c)))
            && (Runs(t, PP.ReadResumes) && t.c.reader.bytes == n ==>
                  (FinishRead(t.c.p, n).got == Some([]) <==> PP.AtEnd(t.c)))
  {
    PP.EmptyReadMeansEnd(Run(s, ops).c, n);
  }

  /** And a read that does not block, or is resumed, delivers as many bytes as asked for, or all there are. */
  lemma ReadOnTheKernel(s: System, ops: seq<Op>, n: nat)
    requires Started(s) && Legal(s, ops)
    ensures var c := Run(s, ops).c;
            && (Runs(Run(s, ops), PP.ReadCall(n)) && PP.Step(c, PP.ReadCall(n)).reader.ReaderIdle? ==>
                  PP.ReadOn(c, PP.Step(c, PP.ReadCall(n)), n))
            && (Runs(Run(s, ops), PP.ReadResumes) ==> PP.ReadOn(c, PP.Step(c, PP.ReadResumes), c.reader.bytes))
  {
    PP.ReadsOn(Run(s, ops).c, n);
  }

  lemma BlockedMeansQueued(s: System, x: nat)
    requires SysInv(s) && x in Clients(s)
    ensures Stopped(s.world.k.sched, x) || Lively(s.world.k.sched, x)
    ensures Stopped(s.world.k.sched, x) <==> x in s.c.p.canRead.blocked || x in s.c.p.canWrite.blocked
  {
    if x in s.c.p.canRead.blocked {
      assert s.r in Names(s) && x in s.world.k.sems[s.r].blocked;
    } else if x in s.c.p.canWrite.blocked {
      assert s.w in Names(s) && x in s.world.k.sems[s.w].blocked;
    }
  }
}

/** One writer and one reader on a pipe, over every interleaving of the segments between blocking points. */
module PipeProtocol {
  import opened Basics
  import opened SemaphoreSpec
  import opened PipeSpec
  import PE = PipeEffects

  datatype Reader = NoReader | ReaderIdle | Reading(bytes: nat)
  datatype Writer = NoWriter | WriterIdle | Writing(rest: seq<Byte>) | WriterGone

  /** `written` and `read` are all bytes stored into and taken from the ring so far. */
  datatype Conn = Conn(p: Pipe, reader: Reader, writer: Writer, rpid: nat, wpid: nat,
                       written: seq<Byte>, read: seq<Byte>)

  datatype Op =
    | ReaderAttaches
    | WriterAttaches
    | ReadCall(n: nat)
    | ReadResumes
    | WriteCall(data: seq<Byte>)
    | WriteResumes
    | WriterLeaves

  predicate ReaderBlocked(c: Conn) {
    c.rpid in c.p.canRead.blocked
  }

  predicate WriterBlocked(c: Conn) {
    c.wpid in c.p.canWrite.blocked
  }

  /** What the two processes can do, given that a write fits the ring and the reader is there before the writer goes. */
  predicate Enabled(c: Conn, op: Op) {
    match op
    case ReaderAttaches => c.reader.NoReader?
    case WriterAttaches => c.writer.NoWriter?
    case ReadCall(_) => c.reader.ReaderIdle?
    case ReadResumes => c.reader.Reading? && !ReaderBlocked(c)
    case WriteCall(data) => c.writer.WriterIdle? && |data| <= CAPACITY
    case WriteResumes => c.writer.Writing? && c.writer.rest != [] && !WriterBlocked(c)
    case WriterLeaves => (c.writer.WriterIdle? || c.writer.Writing?) && !c.reader.NoReader?
  }

  function AfterRead(c: Conn, r: PipeSpec.Read, n: nat): Conn {
    match r.got
    case None => c.(p := r.p, reader := Reading(n))
    case Some(got) => c.(p := r.p, reader := ReaderIdle, read := c.read + got)
  }

  function AfterWrite(c: Conn, w: PipeSpec.Write, data: seq<Byte>): Conn
    requires |w.rest| <= |data|
  {
    c.(p := w.p, writer := if w.rest == [] then WriterIdle else Writing(w.rest),
       written := c.written + data[..|data| - |w.rest|])
  }

  function Step(c: Conn, op: Op): Conn
    requires Enabled(c, op)
  {
    match op
    case ReaderAttaches => c.(p := AttachReader(c.p), reader := ReaderIdle)
    case WriterAttaches => c.(p := AttachWriter(c.p), writer := WriterIdle)
    case ReadCall(n) => AfterRead(c, StartRead(c.p, n, c.rpid), n)
    case ReadResumes => AfterRead(c, FinishRead(c.p, c.reader.bytes), c.reader.bytes)
    case WriteCall(data) => AfterWrite(c, StartWrite(c.p, data, c.wpid), data)
    case WriteResumes => AfterWrite(c, ResumeWrite(c.p, c.writer.rest, c.wpid), c.writer.rest)
    case WriterLeaves => c.(p := PipeSpec.Close(DetachWriter(c.p, c.wpid)), writer := WriterGone)
  }

  function Opened(rpid: nat, wpid: nat): Conn {
    Conn(Fresh(), NoReader, NoWriter, rpid, wpid, [], [])
  }

  // ---- the invariant

  ghost predicate Counts(c: Conn) {
    && c.p.readers == (if c.reader.NoReader? then 0 else 1)
    && c.p.expReaders == (if c.reader.NoReader? then 1 else 0)
    && c.p.writers == (if c.writer.WriterIdle? || c.writer.Writing? then 1 else 0)
    && c.p.expWriters == (if c.writer.NoWriter? then 1 else 0)
    && c.p.attached == c.p.readers + c.p.writers
    && c.p.canRead.users == 1 && c.p.canWrite.users == 1
  }

  /** The reader waits on an empty ring, or has been woken because there is something to read or nobody to wait for. */
  ghost predicate ReaderSide(c: Conn) {
    match c.reader
    case Reading(_) =>
      || (c.p.waitingToRead && c.p.canRead.blocked == [c.rpid] && c.p.ring == [] && !c.writer.WriterGone?)
      || (!c.p.waitingToRead && c.p.canRead.blocked == [] && (c.p.ring != [] || c.writer.WriterGone?))
    case _ => !c.p.waitingToRead && c.p.canRead.blocked == []
  }

  /** The writer waits on a full ring, or has been woken because it is not full any more. */
  ghost predicate WriterSide(c: Conn) {
    match c.writer
    case Writing(rest) =>
      && rest != [] && |rest| <= CAPACITY
      && (if c.p.waitingToWrite then c.p.canWrite.blocked == [c.wpid] && |c.p.ring| == CAPACITY
          else c.p.canWrite.blocked == [] && |c.p.ring| < CAPACITY)
    case WriterGone => c.p.canWrite.blocked == []
    case _ => !c.p.waitingToWrite && c.p.canWrite.blocked == []
  }

  ghost predicate CInv(c: Conn) {
    && c.rpid != c.wpid
    && Counts(c) && ReaderSide(c) && WriterSide(c)
    && |c.p.ring| <= CAPACITY
    && (if !c.writer.WriterGone? then c.p.canRead.value == 0 && c.p.canWrite.value == 0
        else c.p.canRead.value <= 1 && c.p.canWrite.value + (if c.p.waitingToWrite then 1 else 0) <= 2)
    && c.written == c.read + c.p.ring
  }

  // ---- every step keeps it

  /** Writing stores all bytes, or as many as fit and then blocks. */
  lemma {:induction false} PutAllEffect(p: Pipe, bytes: seq<Byte>, pid: nat)
    requires |p.ring| <= CAPACITY && p.canWrite.value == 0
    ensures var room := CAPACITY - |p.ring|;
            PutAll(p, bytes, pid) ==
            if |bytes| <= room then Write(p.(ring := p.ring + bytes), [])
            else Write(p.(ring := p.ring + bytes[..room], waitingToWrite := true, canWrite := Take(p.canWrite, pid)),
                       bytes[room..])
    decreases |bytes|
  {
    var room := CAPACITY - |p.ring|;
    if bytes == [] {
      assert p.ring + bytes == p.ring;
    } else if room == 0 {
      assert bytes[..0] == [] && bytes[0..] == bytes && p.ring + [] == p.ring;
    } else {
      PutAllEffect(Put(p, bytes[0]), bytes[1..], pid);
      OneByteMore(p.ring, bytes, if |bytes| <= room then |bytes| else room);
    }
  }

  lemma OneByteMore(ring: seq<Byte>, bytes: seq<Byte>, n: nat)
    requires 0 < n <= |bytes|
    ensures ring + [bytes[0]] + bytes[1..][..n - 1] == ring + bytes[..n]
    ensures bytes[1..][n - 1..] == bytes[n..] && bytes[..|bytes|] == bytes && bytes[1..][..|bytes| - 1] == bytes[1..]
  {
  }

  lemma AttachKeeps(c: Conn, op: Op)
    requires CInv(c) && (op.ReaderAttaches? || op.WriterAttaches?) && Enabled(c, op)
    ensures CInv(Step(c, op))
  {
  }

  /** Taking bytes from the ring keeps the order and wakes a writer that waits. */
  lemma FinishReadKeeps(c: Conn, n: nat)
    requires CInv(c) && !c.reader.NoReader? && !c.p.waitingToRead && c.p.canRead.blocked == []
    ensures CInv(AfterRead(c, FinishRead(c.p, n), n))
  {
    var k := if n < |c.p.ring| then n else |c.p.ring|;
    assert c.read + c.p.ring[..k] + c.p.ring[k..] == c.read + c.p.ring;
    if k > 0 && c.p.waitingToWrite && !c.writer.WriterGone? {
      assert c.p.canWrite.blocked[1..] == [];
    }
  }

  lemma ReadCallKeeps(c: Conn, n: nat)
    requires CInv(c) && Enabled(c, ReadCall(n))
    ensures CInv(Step(c, ReadCall(n)))
  {
    if c.p.ring != [] {
      FinishReadKeeps(c, n);
    } else {
      assert c.read + [] == c.read;
      assert c.p.canRead.blocked + [c.rpid] == [c.rpid];
    }
  }

  /** Storing data keeps the invariant, whether a write starts or goes on. */
  lemma WriteKeeps(c: Conn, data: seq<Byte>)
    requires CInv(c) && |data| <= CAPACITY && (c.writer.WriterIdle? || c.writer == Writing(data)) && !c.p.waitingToWrite
    ensures CInv(AfterWrite(c, StartWrite(c.p, data, c.wpid), data))
  {
    var room := CAPACITY - |c.p.ring|;
    PutAllEffect(c.p, data, c.wpid);
    StoredInOrder(c, data, if |data| <= room then |data| else room);
    assert c.p.canWrite.blocked + [c.wpid] == [c.wpid];
    if c.p.waitingToRead {
      assert c.p.canRead.blocked[1..] == [];
    }
  }

  lemma StoredInOrder(c: Conn, data: seq<Byte>, k: nat)
    requires c.written == c.read + c.p.ring && k <= |data|
    ensures c.written + data[..k] == c.read + (c.p.ring + data[..k])
  {
  }

  /** A resumed writer goes on as if it had found room in the first place. */
  lemma ResumeEffect(p: Pipe, rest: seq<Byte>, pid: nat)
    requires rest != [] && |p.ring| < CAPACITY
    ensures PutAll(Put(p, rest[0]), rest[1..], pid) == PutAll(p, rest, pid)
  {
  }

  lemma WriteResumesKeeps(c: Conn)
    requires CInv(c) && Enabled(c, WriteResumes)
    ensures CInv(Step(c, WriteResumes))
  {
    ResumeEffect(c.p, c.writer.rest, c.wpid);
    WriteKeeps(c, c.writer.rest);
  }

  lemma WriterLeavesKeeps(c: Conn)
    requires CInv(c) && Enabled(c, WriterLeaves)
    ensures CInv(Step(c, WriterLeaves))
  {
    var r, w := c.p.canRead, c.p.canWrite;
    LeaveOne(r, c.rpid, c.wpid);
    LeaveOne(w, c.wpid, c.wpid);
    assert GiveTimes(r, 1) == Give(r) && GiveTimes(Leave(w, c.wpid), 1) == Give(Leave(w, c.wpid));
    assert GiveTimes(Give(r), 1) == Give(Give(r));
    if r.blocked != [] {
      assert r.blocked[1..] == [];
    }
  }

  lemma LeaveOne(m: Sem, x: nat, pid: nat)
    requires m.blocked == [] || m.blocked == [x]
    ensures Leave(m, pid) == m.(blocked := if x == pid then [] else m.blocked)
  {
  }

  lemma StepKeeps(c: Conn, op: Op)
    requires CInv(c) && Enabled(c, op)
    ensures CInv(Step(c, op))
  {
    match op
    case ReadCall(n) => ReadCallKeeps(c, n);
    case ReadResumes => FinishReadKeeps(c, c.reader.bytes);
    case WriteCall(data) => WriteKeeps(c, data);
    case WriteResumes => WriteResumesKeeps(c);
    case WriterLeaves => WriterLeavesKeeps(c);
    case _ => AttachKeeps(c, op);
  }

  // ---- whole runs

  ghost predicate Legal(c: Conn, ops: seq<Op>)
    decreases |ops|
  {
    ops == [] || (Enabled(c, ops[0]) && Legal(Step(c, ops[0]), ops[1..]))
  }

  ghost function Run(c: Conn, ops: seq<Op>): Conn
    requires Legal(c, ops)
    decreases |ops|
  {
    if ops == [] then c else Run(Step(c, ops[0]), ops[1..])
  }

  lemma {:induction false} RunInv(c: Conn, ops: seq<Op>)
    requires CInv(c) && Legal(c, ops)
    ensures CInv(Run(c, ops))
    decreases |ops|
  {
    if ops != [] {
      StepKeeps(c, ops[0]);
      RunInv(Step(c, ops[0]), ops[1..]);
    }
  }

  /** First in, first out through all wrap-arounds: what has been read is a prefix of what has been written, and what
      is in between is in the ring, which never overflows. */
  lemma FirstInFirstOut(rpid: nat, wpid: nat, ops: seq<Op>)
    requires rpid != wpid && Legal(Opened(rpid, wpid), ops)
    ensures var c := Run(Opened(rpid, wpid), ops);
            c.read <= c.written && c.written == c.read + c.p.ring && |c.p.ring| <= CAPACITY
  {
    RunInv(Opened(rpid, wpid), ops);
  }

  /** In every run a read that does not block, or is resumed, delivers all it can: as many bytes as asked for, or all
      there are, and these are the next ones of the stream. */
  lemma EveryReadDelivers(rpid: nat, wpid: nat, ops: seq<Op>, n: nat)
    requires rpid != wpid && Legal(Opened(rpid, wpid), ops)
    ensures var c := Run(Opened(rpid, wpid), ops);
            && (Enabled(c, ReadCall(n)) && Step(c, ReadCall(n)).reader.ReaderIdle? ==>
                  ReadOn(c, Step(c, ReadCall(n)), n))
            && (Enabled(c, ReadResumes) ==> ReadOn(c, Step(c, ReadResumes), c.reader.bytes))
  {
    RunInv(Opened(rpid, wpid), ops);
    ReadsOn(Run(Opened(rpid, wpid), ops), n);
  }

  lemma ReadsOn(c: Conn, n: nat)
    requires CInv(c)
    ensures Enabled(c, ReadCall(n)) && Step(c, ReadCall(n)).reader.ReaderIdle? ==> ReadOn(c, Step(c, ReadCall(n)), n)
    ensures Enabled(c, ReadResumes) ==> ReadOn(c, Step(c, ReadResumes), c.reader.bytes)
  {
    if Enabled(c, ReadCall(n)) {
      PE.ReadAnswers(c.p, n, c.rpid);
      var r := StartRead(c.p, n, c.rpid);
      if r.got.Some? {
        TakenInOrder(c, r.got.value, r.p.ring);
      }
    }
    if Enabled(c, ReadResumes) {
      PE.ReadDelivers(c.p, c.reader.bytes);
      var r := FinishRead(c.p, c.reader.bytes);
      TakenInOrder(c, r.got.value, r.p.ring);
    }
  }

  lemma TakenInOrder(c: Conn, got: seq<Byte>, rest: seq<Byte>)
    requires c.written == c.read + c.p.ring && c.p.ring == got + rest
    ensures c.written == (c.read + got) + rest && (c.read + got)[|c.read|..] == got && c.read <= c.read + got
  {
  }

  /** From `c` to `d` the reader has taken `n` bytes of the stream, or all that had been written. */
  predicate ReadOn(c: Conn, d: Conn, n: nat) {
    && d.reader.ReaderIdle? && d.written == c.written
    && c.read <= d.read && Delivers(c.p.ring, n, d.read[|c.read|..]) && d.written == d.read + d.p.ring
  }

  /** In every run a write that returns has stored all its bytes, whether it was blocked in between or not; one that is
      blocked has stored what fits. */
  lemma EveryWriteStores(rpid: nat, wpid: nat, ops: seq<Op>, data: seq<Byte>)
    requires rpid != wpid && Legal(Opened(rpid, wpid), ops)
    ensures var c := Run(Opened(rpid, wpid), ops);
            && (Enabled(c, WriteCall(data)) ==> WriteOn(c, Step(c, WriteCall(data)), data))
            && (Enabled(c, WriteResumes) ==> WriteOn(c, Step(c, WriteResumes), c.writer.rest))
  {
    var c := Run(Opened(rpid, wpid), ops);
    RunInv(Opened(rpid, wpid), ops);
    if Enabled(c, WriteCall(data)) {
      WritesOn(c, data);
    }
    if Enabled(c, WriteResumes) {
      ResumeEffect(c.p, c.writer.rest, c.wpid);
      WritesOn(c, c.writer.rest);
    }
  }

  lemma WritesOn(c: Conn, data: seq<Byte>)
    requires CInv(c) && |data| <= CAPACITY && (c.writer.WriterIdle? || c.writer == Writing(data)) && !c.p.waitingToWrite
    ensures WriteOn(c, AfterWrite(c, StartWrite(c.p, data, c.wpid), data), data)
  {
    PutAllEffect(c.p, data, c.wpid);
    assert data[..|data|] == data;
  }

  predicate WriteOn(c: Conn, d: Conn, data: seq<Byte>) {
    && d.read == c.read
    && (if |c.p.ring| + |data| <= CAPACITY then
          d.writer.WriterIdle? && d.written == c.written + data && d.p.ring == c.p.ring + data
        else
          && |d.p.ring| == CAPACITY && c.p.ring <= d.p.ring && d.p.ring == c.p.ring + data[..CAPACITY - |c.p.ring|]
          && d.writer == Writing(data[CAPACITY - |c.p.ring|..])
          && d.written == c.written + data[..CAPACITY - |c.p.ring|])
  }

  /** A reader that detaches lets a blocked writer go. */
  lemma ReaderLeavingWakes(c: Conn)
    requires CInv(c) && !c.reader.NoReader? && WriterBlocked(c) && !c.writer.WriterGone?
    ensures var p := DetachReader(c.p, c.rpid); c.wpid !in p.canWrite.blocked && !p.waitingToWrite
  {
    PE.ReaderDetaches(c.p, c.rpid);
    PE.NotThere(c.p.canWrite.blocked, c.rpid);
  }

  /** No writer is attached or expected, and every byte written has been read. */
  predicate AtEnd(c: Conn) {
    c.p.writers == 0 && c.p.expWriters == 0 && c.read == c.written
  }

  lemma EmptyReadMeansEnd(c: Conn, n: nat)
    requires CInv(c) && n > 0
    ensures Enabled(c, ReadCall(n)) ==> (StartRead(c.p, n, c.rpid).got == Some([]) <==> AtEnd(c))
    ensures Enabled(c, ReadResumes) && c.reader.bytes == n ==> (FinishRead(c.p, n).got == Some([]) <==> AtEnd(c))
  {
    assert c.read == c.written <==> c.p.ring == [];
    if c.p.ring != [] {
      var k := if n < |c.p.ring| then n else |c.p.ring|;
      assert |c.p.ring[..k]| == k;
    }
  }

  /** A read of at least one byte returns nothing exactly when no writer is attached or expected and every byte
      written has been read, whether it was blocked in between or not. */
  lemma EndOfFile(rpid: nat, wpid: nat, ops: seq<Op>, n: nat)
    requires rpid != wpid && Legal(Opened(rpid, wpid), ops) && n > 0
    ensures var c := Run(Opened(rpid, wpid), ops);
            && (Enabled(c, ReadCall(n)) ==> (StartRead(c.p, n, rpid).got == Some([]) <==> AtEnd(c)))
            && (Enabled(c, ReadResumes) && c.reader.bytes == n ==> (FinishRead(c.p, n).got == Some([]) <==> AtEnd(c)))
  {
    RunInv(Opened(rpid, wpid), ops);
    RunKeepsPids(Opened(rpid, wpid), ops);
    EmptyReadMeansEnd(Run(Opened(rpid, wpid), ops), n);
  }

  lemma {:induction false} RunKeepsPids(c: Conn, ops: seq<Op>)
    requires Legal(c, ops)
    ensures Run(c, ops).rpid == c.rpid && Run(c, ops).wpid == c.wpid
    decreases |ops|
  {
    if ops != [] {
      RunKeepsPids(Step(c, ops[0]), ops[1..]);
    }
  }

  /** The two are never both blocked: a blocked reader has an empty ring before it, a blocked writer a full one, and
      the flags say exactly who waits in the semaphores. */
  lemma NeverBothBlocked(rpid: nat, wpid: nat, ops: seq<Op>)
    requires rpid != wpid && Legal(Opened(rpid, wpid), ops)
    ensures var c := Run(Opened(rpid, wpid), ops);
            && !(ReaderBlocked(c) && WriterBlocked(c))
            && (ReaderBlocked(c) ==> c.p.ring == []) && (WriterBlocked(c) ==> |c.p.ring| == CAPACITY)
            && (c.p.waitingToRead <==> ReaderBlocked(c))
            && (!c.writer.WriterGone? ==> (c.p.waitingToWrite <==> WriterBlocked(c)))
  {
    RunInv(Opened(rpid, wpid), ops);
  }

  /** Whoever is blocked is woken by the other end: by any write, by any read that takes a byte, and by the writer
      leaving. */
  lemma OtherEndWakes(c: Conn, op: Op)
    requires CInv(c) && Enabled(c, op)
    ensures ReaderBlocked(c) && ((op.WriteCall? && op.data != []) || op.WriteResumes? || op.WriterLeaves?) ==>
              !ReaderBlocked(Step(c, op))
    ensures WriterBlocked(c) && op.ReadCall? && op.n > 0 ==> !WriterBlocked(Step(c, op))
  {
    StepKeeps(c, op);
    if op.WriteCall? {
      PutAllEffect(c.p, op.data, c.wpid);
    } else if op.WriteResumes? {
      ResumeEffect(c.p, c.writer.rest, c.wpid);
      PutAllEffect(c.p, c.writer.rest, c.wpid);
    }
  }

  /** The limit on the size of a write is needed: with the reader blocked, a write leaves both ends blocked exactly when
      it does not fit the ring, and then neither can make another call. */
  lemma OversizedWriteDeadlocks(c: Conn, data: seq<Byte>)
    requires CInv(c) && ReaderBlocked(c) && c.writer.WriterIdle?
    ensures var t := AfterWrite(c, StartWrite(c.p, data, c.wpid), data);
            && (ReaderBlocked(t) && WriterBlocked(t) <==> |data| > CAPACITY)
            && (|data| > CAPACITY ==> forall op :: Enabled(t, op) ==> op == WriterLeaves)
  {
    PutAllEffect(c.p, data, c.wpid);
    assert c.wpid in c.p.canWrite.blocked + [c.wpid];
  }

  /** It happens: the reader comes first, and the first write is too large. */
  lemma DeadlockReached(rpid: nat, wpid: nat, data: seq<Byte>)
    requires rpid != wpid && |data| > CAPACITY
    ensures var ops, c := [ReaderAttaches, WriterAttaches, ReadCall(1)], Opened(rpid, wpid);
            && Legal(c, ops)
            && var d := Run(c, ops);
               && d.writer.WriterIdle?
               && var t := AfterWrite(d, StartWrite(d.p, data, wpid), data); ReaderBlocked(t) && WriterBlocked(t)
  {
    var ops, c := [ReaderAttaches, WriterAttaches, ReadCall(1)], Opened(rpid, wpid);
    assert ops[1..] == [WriterAttaches, ReadCall(1)];
    assert ops[1..][1..] == [ReadCall(1)];
    assert ops[1..][1..][1..] == [];
    RunInv(c, ops);
    var d := Run(c, ops);
    assert d == Step(Step(Step(c, ReaderAttaches), WriterAttaches), ReadCall(1));
    assert rpid in [] + [rpid];
    OversizedWriteDeadlocks(d, data);
  }
}

/** A pipe: a ring of bytes, two semaphores for the ends that wait, and counts of the ends attached and expected.
    Calls are described up to the point where they block. */
module PipeSpec {
  import opened Basics
  import opened SemaphoreSpec
  import S = SchedulerSpec

  const PIPE_BUFFER_SIZE := 16384

  /** One slot of the ring stays free to tell a full ring from an empty one. */
  const CAPACITY := 16383

  type Byte = x: nat | x < 256

  datatype Pipe = Pipe(ring: seq<Byte>, waitingToRead: bool, waitingToWrite: bool, canRead: Sem, canWrite: Sem,
                       attached: nat, readers: nat, writers: nat, expReaders: nat, expWriters: nat)

  /** As createPipe leaves it. */
  function Fresh(): Pipe {
    Pipe([], false, false, Sem(0, 1, []), Sem(0, 1, []), 0, 0, 0, 1, 1)
  }

  // ---- reading

  /** `got` is what readPipe returns; None while the caller is blocked. */
  datatype Read = Read(p: Pipe, got: Option<seq<Byte>>)

  function StartRead(p: Pipe, bytes: nat, pid: nat): Read {
    if p.ring != [] then FinishRead(p, bytes)
    else if p.writers == 0 && p.expWriters == 0 then Read(p, Some([]))
    else
      var q := p.(waitingToRead := true, canRead := Take(p.canRead, pid));
      if p.canRead.value == 0 then Read(q, None) else FinishRead(q, bytes)
  }

  /** Takes what there is, up to `bytes`, and lets a waiting writer go on. */
  function FinishRead(p: Pipe, bytes: nat): Read {
    var n := if bytes < |p.ring| then bytes else |p.ring|;
    var q := p.(ring := p.ring[n..]);
    Read(if n > 0 && p.waitingToWrite then q.(waitingToWrite := false, canWrite := Give(q.canWrite)) else q,
         Some(p.ring[..n]))
  }

  /** A read of `bytes` bytes from `ring` answers `got`: the oldest bytes, as many as asked for or all there are. */
  predicate Delivers(ring: seq<Byte>, bytes: nat, got: seq<Byte>) {
    got <= ring && (|got| == bytes || (|got| < bytes && got == ring))
  }

  // ---- writing

  /** `rest` is what is still to be written by a caller that is blocked; [] once writePipe returns. */
  datatype Write = Write(p: Pipe, rest: seq<Byte>)

  /** Stores a byte. Stored into a full ring it makes the ring look empty. */
  function Put(p: Pipe, b: Byte): Pipe {
    p.(ring := if |p.ring| < CAPACITY then p.ring + [b] else [])
  }

  function PutAll(p: Pipe, bytes: seq<Byte>, pid: nat): (w: Write)
    ensures |w.rest| <= |bytes|
    decreases |bytes|
  {
    if bytes == [] then Write(p, [])
    else if |p.ring| == CAPACITY then
      var q := p.(waitingToWrite := true, canWrite := Take(p.canWrite, pid));
      if p.canWrite.value == 0 then Write(q, bytes) else PutAll(Put(q, bytes[0]), bytes[1..], pid)
    else
      PutAll(Put(p, bytes[0]), bytes[1..], pid)
  }

  /** A completed write lets a waiting reader go on. */
  function FinishWrite(p: Pipe): Pipe {
    if p.waitingToRead then p.(waitingToRead := false, canRead := Give(p.canRead)) else p
  }

  function StartWrite(p: Pipe, bytes: seq<Byte>, pid: nat): Write {
    var w := PutAll(p, bytes, pid);
    if w.rest == [] && bytes != [] then Write(FinishWrite(w.p), []) else w
  }

  /** A writer that was woken stores the byte it was about to store, without looking at the ring again. */
  function ResumeWrite(p: Pipe, rest: seq<Byte>, pid: nat): Write
    requires rest != []
  {
    var w := PutAll(Put(p, rest[0]), rest[1..], pid);
    if w.rest == [] then Write(FinishWrite(w.p), []) else w
  }

  // ---- the ends

  function AttachReader(p: Pipe): Pipe {
    p.(readers := p.readers + 1, attached := p.attached + 1,
       expReaders := if p.expReaders > 0 then p.expReaders - 1 else 0)
  }

  function AttachWriter(p: Pipe): Pipe {
    p.(writers := p.writers + 1, attached := p.attached + 1,
       expWriters := if p.expWriters > 0 then p.expWriters - 1 else 0)
  }

  /** Posts as often as the caller has counted users. */
  function GiveTimes(m: Sem, n: nat): Sem
    decreases n
  {
    if n == 0 then m else GiveTimes(Give(m), n - 1)
  }

  function Leave(m: Sem, pid: nat): Sem {
    m.(blocked := S.Remove(m.blocked, pid))
  }

  function Less(n: nat): nat {
    if n > 0 then n - 1 else 0
  }

  function DropReader(p: Pipe, pid: nat): Pipe {
    p.(canRead := Leave(p.canRead, pid), canWrite := Leave(p.canWrite, pid),
       readers := Less(p.readers), attached := if p.readers > 0 then Less(p.attached) else p.attached)
  }

  function DropWriter(p: Pipe, pid: nat): Pipe {
    p.(canRead := Leave(p.canRead, pid), canWrite := Leave(p.canWrite, pid),
       writers := Less(p.writers), attached := if p.writers > 0 then Less(p.attached) else p.attached)
  }

  /** detachReader, up to the question whether the pipe is now deleted: the last reader wakes a waiting writer. */
  function DetachReader(p: Pipe, pid: nat): Pipe {
    var q := DropReader(p, pid);
    if q.readers == 0 && q.waitingToWrite then
      q.(canWrite := GiveTimes(q.canWrite, q.canWrite.users), waitingToWrite := false)
    else q
  }

  function DetachWriter(p: Pipe, pid: nat): Pipe {
    var q := DropWriter(p, pid);
    if q.writers == 0 && q.waitingToRead then
      q.(canRead := GiveTimes(q.canRead, q.canRead.users), waitingToRead := false)
    else q
  }

  /** Nobody is attached and nobody is expected: detaching deletes the pipe. */
  predicate Abandoned(p: Pipe) {
    p.readers == 0 && p.writers == 0 && p.expReaders == 0 && p.expWriters == 0
  }

  /** closePipe on a pipe (not a terminal), up to the question whether it is now deleted. */
  function Close(p: Pipe): Pipe {
    if p.attached <= 1 then
      p.(canRead := GiveTimes(p.canRead, p.canRead.users), canWrite := GiveTimes(p.canWrite, p.canWrite.users))
    else p
  }
}

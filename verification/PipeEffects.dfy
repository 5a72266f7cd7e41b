/** What each call does to a pipe, whatever state the pipe is in. */
module PipeEffects {
  import opened Basics
  import opened SemaphoreSpec
  import opened PipeSpec
  import opened PidQueues
  import S = SchedulerSpec

  // ---- reading

  /** A read delivers all it can, leaves the rest in order, and lets a waiting writer go on exactly if it takes a byte. */
  lemma ReadDelivers(p: Pipe, bytes: nat)
    ensures var r := FinishRead(p, bytes);
            && r.got.Some? && Delivers(p.ring, bytes, r.got.value) && p.ring == r.got.value + r.p.ring
            && (p.waitingToWrite && r.got.value != [] ==>
                  r.p == p.(ring := r.p.ring, waitingToWrite := false, canWrite := Give(p.canWrite)))
            && (!p.waitingToWrite || r.got.value == [] ==> r.p == p.(ring := r.p.ring))
  {
  }

  /** readPipe blocks exactly on an empty ring with a writer attached or expected and no unit to take; it then says so and
      queues up. On an empty ring without a writer it answers nothing; otherwise it delivers. */
  lemma ReadAnswers(p: Pipe, bytes: nat, pid: nat)
    ensures var r := StartRead(p, bytes, pid);
            && (r.got.None? <==> p.ring == [] && (p.writers > 0 || p.expWriters > 0) && p.canRead.value == 0)
            && (r.got.None? ==>
                  r.p == p.(waitingToRead := true, canRead := p.canRead.(blocked := p.canRead.blocked + [pid])))
            && (p.ring == [] && p.writers == 0 && p.expWriters == 0 ==> r.p == p && r.got == Some([]))
            && (r.got.Some? ==> Delivers(p.ring, bytes, r.got.value) && p.ring == r.got.value + r.p.ring)
  {
    ReadDelivers(p, bytes);
  }

  // ---- writing

  /** A byte stored into a ring that is not full is its last; stored into a full ring it makes all bytes disappear. */
  lemma PutsLast(p: Pipe, b: Byte)
    ensures Put(p, b) == p.(ring := Put(p, b).ring)
    ensures |p.ring| < 16383 ==> Put(p, b).ring == p.ring + [b]
    ensures |p.ring| == 16383 ==> Put(p, b).ring == []
  {
  }

  /** That happens to a writer that is let into a full ring by a unit left in the semaphore. */
  lemma SpareUnitLosesRing(p: Pipe, b: Byte, pid: nat)
    requires |p.ring| == 16383 && p.canWrite.value > 0 && !p.waitingToRead
    ensures StartWrite(p, [b], pid)
            == Write(p.(ring := [], waitingToWrite := true, canWrite := p.canWrite.(value := p.canWrite.value - 1)), [])
  {
    var q := p.(waitingToWrite := true, canWrite := Take(p.canWrite, pid));
    PutsLast(q, b);
    assert [b][1..] == [];
    assert PutAll(Put(q, b), [], pid) == Write(Put(q, b), []);
  }

  // ---- waking everybody

  /** Posting `n` times wakes the `n` that have waited longest; what is left over goes into the value. */
  lemma {:induction false} GivenTimes(m: Sem, n: nat)
    ensures var r := GiveTimes(m, n);
            && r.users == m.users
            && (n <= |m.blocked| ==> r.blocked == m.blocked[n..] && r.value == m.value)
            && (|m.blocked| <= n ==> r.blocked == [] && r.value == (m.value + (n - |m.blocked|)) % VALUE_LIMIT)
    decreases n
  {
    if n != 0 {
      GivenTimes(Give(m), n - 1);
      if m.blocked == [] {
        assert ((m.value + 1) % VALUE_LIMIT + (n - 1)) % VALUE_LIMIT == (m.value + n) % VALUE_LIMIT;
      }
    }
  }

  // ---- the ends

  /** A reader that attaches and detaches again has used up one expected reader, and left nothing else behind. */
  lemma ReaderComesAndGoes(p: Pipe, pid: nat)
    requires pid !in p.canRead.blocked && pid !in p.canWrite.blocked
    ensures AttachReader(p).readers == p.readers + 1 && AttachReader(p).attached == p.attached + 1
    ensures DropReader(AttachReader(p), pid) == p.(expReaders := Less(p.expReaders))
  {
    NotThere(p.canRead.blocked, pid);
    NotThere(p.canWrite.blocked, pid);
  }

  lemma WriterComesAndGoes(p: Pipe, pid: nat)
    requires pid !in p.canRead.blocked && pid !in p.canWrite.blocked
    ensures AttachWriter(p).writers == p.writers + 1 && AttachWriter(p).attached == p.attached + 1
    ensures DropWriter(AttachWriter(p), pid) == p.(expWriters := Less(p.expWriters))
  {
    NotThere(p.canRead.blocked, pid);
    NotThere(p.canWrite.blocked, pid);
  }

  lemma NotThere(items: seq<nat>, x: nat)
    requires x !in items
    ensures S.Remove(items, x) == items
  {
  }

  /** The queue of `m` without the process that leaves. */
  ghost predicate Left(m: Sem, pid: nat, r: Sem) {
    && r.value == m.value && r.users == m.users
    && (pid !in m.blocked ==> r.blocked == m.blocked)
    && (forall front, back :: m.blocked == front + [pid] + back && pid !in front ==> r.blocked == front + back)
  }

  lemma LeavesQueue(m: Sem, pid: nat)
    ensures Left(m, pid, Leave(m, pid))
  {
    if pid !in m.blocked {
      NotThere(m.blocked, pid);
    }
    forall front, back | m.blocked == front + [pid] + back && pid !in front
      ensures Leave(m, pid).blocked == front + back
    {
      PositionAppend(front + [pid], back, pid);
      PositionLast(front, pid);
    }
  }

  /** The last reader to detach wakes the writers that wait and takes their flag down; an earlier one takes along only
      its own end and its places in the queues. */
  lemma ReaderDetaches(p: Pipe, pid: nat)
    requires p.readers > 0
    ensures var q := DetachReader(p, pid);
            && q.readers == p.readers - 1 && (p.attached > 0 ==> q.attached == p.attached - 1)
            && q.writers == p.writers && q.expReaders == p.expReaders && q.expWriters == p.expWriters
            && q.ring == p.ring && q.waitingToRead == p.waitingToRead && Left(p.canRead, pid, q.canRead)
    ensures var q, m := DetachReader(p, pid), Leave(p.canWrite, pid);
            && (p.readers > 1 || !p.waitingToWrite ==>
                  q.waitingToWrite == p.waitingToWrite && q.canWrite == m && Left(p.canWrite, pid, q.canWrite))
            && (p.readers == 1 && p.waitingToWrite ==>
                  && !q.waitingToWrite
                  && (|m.blocked| <= m.users ==>
                        q.canWrite.blocked == [] && q.canWrite.value == (m.value + (m.users - |m.blocked|)) % VALUE_LIMIT))
  {
    LeavesQueue(p.canRead, pid);
    LeavesQueue(p.canWrite, pid);
    GivenTimes(Leave(p.canWrite, pid), p.canWrite.users);
  }

  lemma WriterDetaches(p: Pipe, pid: nat)
    requires p.writers > 0
    ensures var q := DetachWriter(p, pid);
            && q.writers == p.writers - 1 && (p.attached > 0 ==> q.attached == p.attached - 1)
            && q.readers == p.readers && q.expReaders == p.expReaders && q.expWriters == p.expWriters
            && q.ring == p.ring && q.waitingToWrite == p.waitingToWrite && Left(p.canWrite, pid, q.canWrite)
    ensures var q, m := DetachWriter(p, pid), Leave(p.canRead, pid);
            && (p.writers > 1 || !p.waitingToRead ==>
                  q.waitingToRead == p.waitingToRead && q.canRead == m && Left(p.canRead, pid, q.canRead))
            && (p.writers == 1 && p.waitingToRead ==>
                  && !q.waitingToRead
                  && (|m.blocked| <= m.users ==>
                        q.canRead.blocked == [] && q.canRead.value == (m.value + (m.users - |m.blocked|)) % VALUE_LIMIT))
  {
    LeavesQueue(p.canRead, pid);
    LeavesQueue(p.canWrite, pid);
    GivenTimes(Leave(p.canRead, pid), p.canRead.users);
  }

  /** With at most one end attached closing wakes everybody who waits at either end; with more it does nothing. */
  lemma Closes(p: Pipe)
    ensures p.attached > 1 ==> PipeSpec.Close(p) == p
    ensures var q := PipeSpec.Close(p);
            p.attached <= 1 && |p.canRead.blocked| <= p.canRead.users && |p.canWrite.blocked| <= p.canWrite.users ==>
              && q.canRead.blocked == [] && q.canWrite.blocked == []
              && q == p.(canRead := q.canRead, canWrite := q.canWrite)
              && q.canRead.value == (p.canRead.value + (p.canRead.users - |p.canRead.blocked|)) % VALUE_LIMIT
              && q.canWrite.value == (p.canWrite.value + (p.canWrite.users - |p.canWrite.blocked|)) % VALUE_LIMIT
  {
    GivenTimes(p.canRead, p.canRead.users);
    GivenTimes(p.canWrite, p.canWrite.users);
  }
}

/** The pipe as the kernel keeps it: a ring in a fixed array between two indices. Its copy loops are proved to move
    bytes of the sequence the specification speaks of. */
module Pipe {
  import opened SemaphoreSpec
  import PS = PipeSpec
  import opened PipeSpec

  function NextIdx(i: nat): (r: nat)
    requires i < PIPE_BUFFER_SIZE
    ensures r == if i == PIPE_BUFFER_SIZE - 1 then 0 else i + 1
  {
    (i + 1) % PIPE_BUFFER_SIZE
  }

  function PreviousIdx(i: nat): (r: nat)
    requires i < PIPE_BUFFER_SIZE
    ensures r < PIPE_BUFFER_SIZE && NextIdx(r) == i
  {
    if i == 0 then PIPE_BUFFER_SIZE - 1 else i - 1
  }

  /** How many bytes lie between the index to read and the index to write, going round. */
  function Distance(from: nat, to: nat): nat
    requires from < PIPE_BUFFER_SIZE && to < PIPE_BUFFER_SIZE
  {
    if from <= to then to - from else to + PIPE_BUFFER_SIZE - from
  }

  function Index(from: nat, k: nat): (r: nat)
    requires from < PIPE_BUFFER_SIZE && k < PIPE_BUFFER_SIZE
    ensures r < PIPE_BUFFER_SIZE
  {
    if from + k < PIPE_BUFFER_SIZE then from + k else from + k - PIPE_BUFFER_SIZE
  }

  /** The bytes in the ring, oldest first. */
  function Between(buffer: seq<Byte>, from: nat, to: nat): (r: seq<Byte>)
    requires |buffer| == PIPE_BUFFER_SIZE && from < PIPE_BUFFER_SIZE && to < PIPE_BUFFER_SIZE
    ensures |r| == Distance(from, to) <= CAPACITY
    ensures forall k {:trigger r[k]} :: 0 <= k < |r| ==> r[k] == buffer[Index(from, k)]
  {
    seq(Distance(from, to), k requires 0 <= k < Distance(from, to) => buffer[Index(from, k)])
  }

  /** The ring is empty when the indices meet and full when the write index is just behind the read index. */
  lemma EmptyAndFull(buffer: seq<Byte>, from: nat, to: nat)
    requires |buffer| == PIPE_BUFFER_SIZE && from < PIPE_BUFFER_SIZE && to < PIPE_BUFFER_SIZE
    ensures Between(buffer, from, to) == [] <==> from == to
    ensures |Between(buffer, from, to)| == CAPACITY <==> to == PreviousIdx(from)
  {
  }

  lemma TakeFirst(buffer: seq<Byte>, from: nat, to: nat)
    requires |buffer| == PIPE_BUFFER_SIZE && from < PIPE_BUFFER_SIZE && to < PIPE_BUFFER_SIZE && from != to
    ensures Between(buffer, NextIdx(from), to) == Between(buffer, from, to)[1..]
    ensures Between(buffer, from, to)[0] == buffer[from]
  {
  }

  lemma StoreLast(buffer: seq<Byte>, from: nat, to: nat, b: Byte)
    requires |buffer| == PIPE_BUFFER_SIZE && from < PIPE_BUFFER_SIZE && to < PIPE_BUFFER_SIZE
    ensures Between(buffer[to := b], from, NextIdx(to)) ==
            if |Between(buffer, from, to)| < CAPACITY then Between(buffer, from, to) + [b] else []
  {
    var ring, next := Between(buffer, from, to), Between(buffer[to := b], from, NextIdx(to));
    if |ring| < CAPACITY {
      assert |next| == |ring| + 1;
      forall k | 0 <= k < |next| ensures next[k] == (ring + [b])[k] {
        assert Index(from, k) == to <==> k == |ring|;
      }
    }
  }

  lemma PrefixDelivers(ring: seq<Byte>, bytes: nat, n: nat)
    requires n == if bytes < |ring| then bytes else |ring|
    ensures Delivers(ring, bytes, ring[..n])
  {
  }

  function Awaiting(p: PS.Pipe, pid: nat): PS.Pipe {
    if |p.ring| == CAPACITY then p.(waitingToWrite := true, canWrite := Take(p.canWrite, pid)) else p
  }

  lemma PutAllStep(p: PS.Pipe, data: seq<Byte>, i: nat, pid: nat)
    requires i < |data|
    ensures PS.PutAll(p, data[i..], pid) ==
            if |p.ring| == CAPACITY && p.canWrite.value == 0 then Write(Awaiting(p, pid), data[i..])
            else PS.PutAll(Put(Awaiting(p, pid), data[i]), data[i + 1..], pid)
  {
    assert data[i..][1..] == data[i + 1..];
  }

  class Ring {
    const buffer: array<Byte>
    var idxToRead: nat
    var idxToWrite: nat
    var waitingToRead: bool
    var waitingToWrite: bool
    var canRead: Sem
    var canWrite: Sem
    var attached: nat
    var readers: nat
    var writers: nat
    var expReaders: nat
    var expWriters: nat

    predicate Valid()
      reads this
    {
      buffer.Length == PIPE_BUFFER_SIZE && idxToRead < PIPE_BUFFER_SIZE && idxToWrite < PIPE_BUFFER_SIZE
    }

    function Now(): PS.Pipe
      requires Valid()
      reads this, buffer
    {
      PS.Pipe(Between(buffer[..], idxToRead, idxToWrite), waitingToRead, waitingToWrite, canRead, canWrite,
              attached, readers, writers, expReaders, expWriters)
    }

    constructor ()
      ensures Valid() && Now() == Fresh() && fresh(buffer)
    {
      buffer := new Byte[PIPE_BUFFER_SIZE];
      idxToRead, idxToWrite := 0, 0;
      waitingToRead, waitingToWrite := false, false;
      canRead, canWrite := Sem(0, 1, []), Sem(0, 1, []);
      attached, readers, writers := 0, 0, 0;
      expReaders, expWriters := 1, 1;
    }

    /** readPipe up to the point where it blocks or returns. */
    method StartRead(out: array<Byte>, bytes: nat, pid: nat) returns (done: bool, readBytes: nat)
      requires Valid() && bytes <= out.Length && out != buffer
      modifies this, out
      ensures Valid()
      ensures var r := PS.StartRead(old(Now()), bytes, pid);
              && Now() == r.p && (done <==> r.got.Some?)
              && (done ==> readBytes <= bytes && out[..readBytes] == r.got.value)
      ensures done ==> Delivers(old(Now()).ring, bytes, out[..readBytes])
    {
      EmptyAndFull(buffer[..], idxToRead, idxToWrite);
      if idxToRead == idxToWrite {
        if writers == 0 && expWriters == 0 {
          return true, 0;
        }
        waitingToRead := true;
        var granted := canRead.value > 0;
        canRead := Take(canRead, pid);
        if !granted {
          return false, 0;
        }
      }
      readBytes := FinishRead(out, bytes);
      done := true;
    }

    /** The copy loop of readPipe and what follows it. */
    method FinishRead(out: array<Byte>, bytes: nat) returns (readBytes: nat)
      requires Valid() && bytes <= out.Length && out != buffer
      modifies this, out
      ensures Valid() && readBytes <= bytes
      ensures var r := PS.FinishRead(old(Now()), bytes);
              Now() == r.p && out[..readBytes] == r.got.value
      ensures Delivers(old(Now()).ring, bytes, out[..readBytes])
    {
      ghost var ring := Now().ring;
      readBytes := Drain(out, bytes);
      PrefixDelivers(ring, bytes, readBytes);
      if readBytes > 0 && waitingToWrite {
        waitingToWrite := false;
        canWrite := Give(canWrite);
      }
    }

    /** Copies bytes out of the ring until it is empty or enough have been copied. */
    method Drain(out: array<Byte>, bytes: nat) returns (readBytes: nat)
      requires Valid() && bytes <= out.Length && out != buffer
      modifies `idxToRead, out
      ensures Valid()
      ensures var ring := old(Now()).ring;
              && readBytes == (if bytes < |ring| then bytes else |ring|)
              && Now() == old(Now()).(ring := ring[readBytes..]) && out[..readBytes] == ring[..readBytes]
    {
      ghost var ring := Now().ring;
      readBytes := 0;
      while readBytes < bytes && idxToRead != idxToWrite
        invariant Valid() && readBytes <= bytes && readBytes <= |ring|
        invariant buffer[..] == old(buffer[..])
        invariant Between(buffer[..], idxToRead, idxToWrite) == ring[readBytes..]
        invariant out[..readBytes] == ring[..readBytes]
        decreases bytes - readBytes
      {
        TakeFirst(buffer[..], idxToRead, idxToWrite);
        out[readBytes] := buffer[idxToRead];
        idxToRead := NextIdx(idxToRead);
        readBytes := readBytes + 1;
        assert out[..readBytes] == out[..readBytes - 1] + [out[readBytes - 1]];
      }
      EmptyAndFull(buffer[..], idxToRead, idxToWrite);
    }

    /** The loop of writePipe, up to the point where it blocks; `from` bytes of `data` have been stored. */
    method PutAll(data: seq<Byte>, from: nat, pid: nat) returns (writtenBytes: nat)
      requires Valid() && from <= |data|
      modifies this, buffer
      ensures Valid() && from <= writtenBytes <= |data|
      ensures PS.PutAll(old(Now()), data[from..], pid) == Write(Now(), data[writtenBytes..])
    {
      writtenBytes := from;
      ghost var goal := PS.PutAll(Now(), data[from..], pid);
      var blocked := false;
      while writtenBytes < |data| && !blocked
        invariant Valid() && from <= writtenBytes <= |data|
        invariant LeadsTo(data, writtenBytes, pid, blocked, goal)
        decreases |data| - writtenBytes, !blocked
      {
        writtenBytes, blocked := PutNext(data, writtenBytes, pid, goal);
      }
      Arrived(data, writtenBytes, pid, blocked, goal);
    }

    /** The loop ends in `goal`: from byte `i` on, or, if the caller is blocked, right there. */
    ghost predicate LeadsTo(data: seq<Byte>, i: nat, pid: nat, blocked: bool, goal: Write)
      requires Valid() && i <= |data|
      reads this, buffer
    {
      goal == if blocked then Write(Now(), data[i..]) else PS.PutAll(Now(), data[i..], pid)
    }

    lemma Arrived(data: seq<Byte>, i: nat, pid: nat, blocked: bool, goal: Write)
      requires Valid() && i <= |data| && LeadsTo(data, i, pid, blocked, goal) && (i == |data| || blocked)
      ensures goal == Write(Now(), data[i..])
    {
    }

    /** One round of the loop: byte `i` is stored, unless the writer has to wait for room first. */
    method PutNext(data: seq<Byte>, i: nat, pid: nat, ghost goal: Write) returns (next: nat, blocked: bool)
      requires Valid() && i < |data| && LeadsTo(data, i, pid, false, goal)
      modifies this, buffer
      ensures Valid() && next == (if blocked then i else i + 1) && LeadsTo(data, next, pid, blocked, goal)
    {
      PutAllStep(Now(), data, i, pid);
      next := i;
      blocked := AwaitRoom(pid);
      if !blocked {
        PutByte(data[i]);
        next := i + 1;
      }
    }

    /** A writer that meets a full ring says so and waits for a unit. */
    method AwaitRoom(pid: nat) returns (blocked: bool)
      requires Valid()
      modifies `waitingToWrite, `canWrite
      ensures Valid() && Now() == Awaiting(old(Now()), pid)
      ensures blocked <==> |old(Now()).ring| == CAPACITY && old(canWrite).value == 0
    {
      EmptyAndFull(buffer[..], idxToRead, idxToWrite);
      blocked := false;
      if idxToWrite == PreviousIdx(idxToRead) {
        waitingToWrite := true;
        blocked := canWrite.value == 0;
        canWrite := Take(canWrite, pid);
      }
    }

    method PutByte(b: Byte)
      requires Valid()
      modifies this, buffer
      ensures Valid() && Now() == Put(old(Now()), b)
    {
      StoreLast(buffer[..], idxToRead, idxToWrite, b);
      buffer[idxToWrite] := b;
      idxToWrite := NextIdx(idxToWrite);
    }

    /** writePipe up to the point where it blocks or returns. */
    method StartWrite(data: seq<Byte>, pid: nat) returns (writtenBytes: nat)
      requires Valid()
      modifies this, buffer
      ensures Valid() && writtenBytes <= |data|
      ensures PS.StartWrite(old(Now()), data, pid) == Write(Now(), data[writtenBytes..])
    {
      assert data[0..] == data;
      writtenBytes := PutAll(data, 0, pid);
      if writtenBytes == |data| && writtenBytes > 0 && waitingToRead {
        waitingToRead := false;
        canRead := Give(canRead);
      }
    }

    /** What is left of writePipe for a caller that was woken with `from` bytes stored. */
    method ResumeWrite(data: seq<Byte>, from: nat, pid: nat) returns (writtenBytes: nat)
      requires Valid() && from < |data|
      modifies this, buffer
      ensures Valid() && from < writtenBytes <= |data|
      ensures PS.ResumeWrite(old(Now()), data[from..], pid) == Write(Now(), data[writtenBytes..])
    {
      PutByte(data[from]);
      assert data[from..][1..] == data[from + 1..];
      writtenBytes := PutAll(data, from + 1, pid);
      if writtenBytes == |data| && waitingToRead {
        waitingToRead := false;
        canRead := Give(canRead);
      }
    }

    // ---- the ends

    /** Posts once for every user the semaphore has when the loop starts. */
    static method WakeAll(m: Sem) returns (r: Sem)
      ensures r == GiveTimes(m, m.users)
    {
      r := m;
      var users := m.users;
      while users > 0
        invariant GiveTimes(r, users) == GiveTimes(m, m.users)
      {
        r := Give(r);
        users := users - 1;
      }
    }

    method AttachReader()
      requires Valid()
      modifies this
      ensures Valid() && Now() == PS.AttachReader(old(Now()))
    {
      readers, attached := readers + 1, attached + 1;
      if expReaders > 0 {
        expReaders := expReaders - 1;
      }
    }

    method AttachWriter()
      requires Valid()
      modifies this
      ensures Valid() && Now() == PS.AttachWriter(old(Now()))
    {
      writers, attached := writers + 1, attached + 1;
      if expWriters > 0 {
        expWriters := expWriters - 1;
      }
    }

    /** `abandoned` tells the caller to delete the pipe. */
    method DetachReader(pid: nat) returns (abandoned: bool)
      requires Valid()
      modifies this
      ensures Valid() && Now() == PS.DetachReader(old(Now()), pid) && abandoned == Abandoned(Now())
    {
      DropReader(pid);
      if readers == 0 && waitingToWrite {
        canWrite := WakeAll(canWrite);
        waitingToWrite := false;
      }
      abandoned := readers == 0 && writers == 0 && expReaders == 0 && expWriters == 0;
    }

    method DetachWriter(pid: nat) returns (abandoned: bool)
      requires Valid()
      modifies this
      ensures Valid() && Now() == PS.DetachWriter(old(Now()), pid) && abandoned == Abandoned(Now())
    {
      DropWriter(pid);
      if writers == 0 && waitingToRead {
        canRead := WakeAll(canRead);
        waitingToRead := false;
      }
      abandoned := readers == 0 && writers == 0 && expReaders == 0 && expWriters == 0;
    }

    method DropReader(pid: nat)
      requires Valid()
      modifies `canRead, `canWrite, `attached, `readers
      ensures Valid() && Now() == PS.DropReader(old(Now()), pid)
    {
      canRead, canWrite := Leave(canRead, pid), Leave(canWrite, pid);
      if readers > 0 {
        readers := readers - 1;
        if attached > 0 {
          attached := attached - 1;
        }
      }
    }

    method DropWriter(pid: nat)
      requires Valid()
      modifies `canRead, `canWrite, `attached, `writers
      ensures Valid() && Now() == PS.DropWriter(old(Now()), pid)
    {
      canRead, canWrite := Leave(canRead, pid), Leave(canWrite, pid);
      if writers > 0 {
        writers := writers - 1;
        if attached > 0 {
          attached := attached - 1;
        }
      }
    }

    method ClosePipe() returns (delete: bool)
      requires Valid()
      modifies this
      ensures Valid() && Now() == PS.Close(old(Now())) && delete == (Now().attached == 0)
    {
      if attached <= 1 {
        canRead := WakeAll(canRead);
        canWrite := WakeAll(canWrite);
      }
      delete := attached == 0;
    }
  }
}

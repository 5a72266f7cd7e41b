/** The MVar protocol: one shared slot, two semaphores, any number of writers and readers. A step is one system call
    of one participant. */
module MVarSpec {
  import opened SemaphoreSpec

  /** The call a participant makes next. */
  datatype Call =
    | PutWait(v: nat)
    | PutSet(v: nat)
    | PutPost(v: nat)
    | GetWait
    | GetRead
    | GetClear(v: nat)
    | GetPost(v: nat)

  /** `slot` is the kernel's shared value; `puts` and `gets` are what has been written to it and read from it, and
      `returned` what mvarGet has handed to its callers. */
  datatype MVar = MVar(empty: Sem, full: Sem, calls: map<nat, Call>, slot: nat,
                       puts: seq<nat>, gets: seq<nat>, returned: seq<nat>)

  /** The next call of participant `x`. */
  function Act(m: MVar, x: nat): MVar
    requires x in m.calls
  {
    match m.calls[x]
    case PutWait(v) => m.(empty := Take(m.empty, x), calls := m.calls[x := PutSet(v)])
    case PutSet(v) => m.(slot := v, puts := m.puts + [v], calls := m.calls[x := PutPost(v)])
    case PutPost(v) => m.(full := Give(m.full), calls := m.calls[x := PutWait(v)])
    case GetWait => m.(full := Take(m.full, x), calls := m.calls[x := GetRead])
    case GetRead => m.(gets := m.gets + [m.slot], calls := m.calls[x := GetClear(m.slot)])
    case GetClear(v) => m.(slot := 0, calls := m.calls[x := GetPost(v)])
    case GetPost(v) => m.(empty := Give(m.empty), calls := m.calls[x := GetWait], returned := m.returned + [v])
  }

  predicate Parked(m: MVar, x: nat) {
    x in m.empty.blocked || x in m.full.blocked
  }

  /** Inside the critical section: past a granted wait and before the post. */
  predicate Holds(m: MVar, x: nat) {
    x in m.calls && !m.calls[x].PutWait? && !m.calls[x].GetWait? && !Parked(m, x)
  }

  function Holders(m: MVar): set<nat> {
    set x | x in m.calls && Holds(m, x)
  }

  /** Letters that are put are not the zero byte with which mvarGet reports a failure. */
  predicate Letter(c: Call) {
    match c
    case PutWait(v) => v != 0
    case PutSet(v) => v != 0
    case PutPost(v) => v != 0
    case GetClear(v) => v != 0
    case GetPost(v) => v != 0
    case _ => true
  }

  /** What the slot and the history look like while the given call is due in the critical section. What has been read
      is handed back before anybody else reads. */
  predicate Phase(m: MVar, c: Call) {
    match c
    case PutSet(_) => m.slot == 0 && m.gets == m.puts && m.returned == m.gets
    case PutPost(v) => m.slot == v && m.puts == m.gets + [v] && m.returned == m.gets
    case GetRead => m.slot != 0 && m.puts == m.gets + [m.slot] && m.returned == m.gets
    case GetClear(v) => m.slot == v && m.gets == m.puts && m.gets == m.returned + [v]
    case GetPost(v) => m.slot == 0 && m.gets == m.puts && m.gets == m.returned + [v]
    case _ => true
  }

  /** There is one token: in one of the semaphores, or held by one participant. */
  ghost predicate Token(m: MVar) {
    && m.empty.value + m.full.value + |Holders(m)| == 1
    && (m.empty.value == 1 ==> m.slot == 0 && m.gets == m.puts && m.returned == m.gets)
    && (m.full.value == 1 ==> m.slot != 0 && m.puts == m.gets + [m.slot] && m.returned == m.gets)
    && (forall x :: x in m.calls && Holds(m, x) ==> Phase(m, m.calls[x]))
  }

  /** Writers queue up for the empty slot and readers for the full one, each once, and only while there is no unit. */
  ghost predicate Queues(m: MVar) {
    && (m.empty.value > 0 ==> m.empty.blocked == []) && (m.full.value > 0 ==> m.full.blocked == [])
    && (forall x :: x in m.empty.blocked ==> x in m.calls && m.calls[x].PutSet?)
    && (forall x :: x in m.full.blocked ==> x in m.calls && m.calls[x].GetRead?)
    && (forall i, j :: 0 <= i < j < |m.empty.blocked| ==> m.empty.blocked[i] != m.empty.blocked[j])
    && (forall i, j :: 0 <= i < j < |m.full.blocked| ==> m.full.blocked[i] != m.full.blocked[j])
  }

  ghost predicate MInv(m: MVar) {
    && Queues(m) && Token(m)
    && (forall x :: x in m.calls ==> Letter(m.calls[x]))
    && (forall v :: v in m.returned ==> v != 0)
  }

  /** Right after mvarInit with new semaphores, with participants that have made no call. */
  ghost predicate Initial(m: MVar) {
    && m.empty.value == 1 && m.empty.blocked == [] && m.full.value == 0 && m.full.blocked == []
    && m.slot == 0 && m.puts == [] && m.gets == [] && m.returned == []
    && forall x :: x in m.calls ==> m.calls[x].GetWait? || (m.calls[x].PutWait? && m.calls[x].v != 0)
  }
}

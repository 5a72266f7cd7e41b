/** The MVar is a one-slot channel: exactly one token, values got in the order they were put, and never a deadlock. */
module MVarTheorems {
  import opened MVarSpec

  lemma InitialInv(m: MVar)
    requires Initial(m)
    ensures MInv(m)
  {
    assert Holders(m) == {};
  }

  lemma InitialWhenAlone(m: MVar)
    ensures Initial(m) ==> MInv(m)
  {
    if Initial(m) {
      InitialInv(m);
    }
  }

  /** A participant that has made no call changes nothing. */
  lemma NewcomerKeeps(m: MVar, x: nat, call: Call)
    requires MInv(m) && x !in m.calls && (call.GetWait? || (call.PutWait? && call.v != 0))
    ensures MInv(m.(calls := m.calls[x := call]))
  {
    var t := m.(calls := m.calls[x := call]);
    assert forall y :: y in m.calls ==> (Holds(t, y) <==> Holds(m, y));
    assert Holders(t) == Holders(m);
  }

  /** The holder is alone, and both semaphores are down. */
  lemma Alone(m: MVar, x: nat)
    requires MInv(m) && x in m.calls && Holds(m, x)
    ensures Holders(m) == {x} && m.empty.value == 0 && m.full.value == 0
    ensures forall y :: y in m.calls && Holds(m, y) ==> y == x
  {
    assert x in Holders(m) && {x} <= Holders(m);
    assert |Holders(m) - {x}| == |Holders(m)| - 1;
    assert forall y :: y in m.calls && Holds(m, y) ==> y in Holders(m);
  }

  /** Setting, reading and clearing the slot. */
  lemma SlotCall(m: MVar, x: nat)
    requires MInv(m) && x in m.calls && !Parked(m, x)
    requires m.calls[x].PutSet? || m.calls[x].GetRead? || m.calls[x].GetClear?
    ensures MInv(Act(m, x))
  {
    Alone(m, x);
    assert Holders(Act(m, x)) == {x};
  }

  /** A wait that is granted at once takes the token out of the semaphore. */
  lemma WaitGranted(m: MVar, x: nat)
    requires MInv(m) && x in m.calls && !Parked(m, x)
    requires (m.calls[x].PutWait? && m.empty.value > 0) || (m.calls[x].GetWait? && m.full.value > 0)
    ensures MInv(Act(m, x))
  {
    assert Holders(m) == {};
    assert forall y :: y in m.calls && Holds(m, y) ==> y in Holders(m);
    assert Holders(Act(m, x)) == {x};
  }

  /** A wait without a unit parks the caller and moves no token. */
  lemma WaitParks(m: MVar, x: nat)
    requires MInv(m) && x in m.calls && !Parked(m, x)
    requires (m.calls[x].PutWait? && m.empty.value == 0) || (m.calls[x].GetWait? && m.full.value == 0)
    ensures MInv(Act(m, x))
  {
    var t := Act(m, x);
    assert Parked(t, x) by {
      assert t.empty.blocked == m.empty.blocked + [x] || t.full.blocked == m.full.blocked + [x];
    }
    assert forall y :: y != x ==> (Parked(t, y) <==> Parked(m, y));
    assert Holders(t) == Holders(m);
  }

  /** A post with nobody waiting puts the token into the semaphore. */
  lemma PostStored(m: MVar, x: nat)
    requires MInv(m) && x in m.calls && !Parked(m, x)
    requires (m.calls[x].PutPost? && m.full.blocked == []) || (m.calls[x].GetPost? && m.empty.blocked == [])
    ensures MInv(Act(m, x))
  {
    Alone(m, x);
    var t := Act(m, x);
    assert forall y :: y in t.calls ==> !Holds(t, y);
    assert Holders(t) == {};
  }

  /** A post with somebody waiting hands the token to the one that has waited longest. */
  lemma PostHandsOver(m: MVar, x: nat)
    requires MInv(m) && x in m.calls && !Parked(m, x)
    requires (m.calls[x].PutPost? && m.full.blocked != []) || (m.calls[x].GetPost? && m.empty.blocked != [])
    ensures MInv(Act(m, x))
  {
    Alone(m, x);
    var t := Act(m, x);
    var queue := if m.calls[x].PutPost? then m.full.blocked else m.empty.blocked;
    var y := queue[0];
    assert y in queue;
    assert queue == [y] + queue[1..];
    assert y !in queue[1..];
    assert forall z :: Parked(t, z) <==> Parked(m, z) && z != y;
    assert Holders(t) == {y};
  }

  lemma ActKeeps(m: MVar, x: nat)
    requires MInv(m) && x in m.calls && !Parked(m, x)
    ensures MInv(Act(m, x))
  {
    match m.calls[x]
    case PutWait(_) => if m.empty.value > 0 { WaitGranted(m, x); } else { WaitParks(m, x); }
    case GetWait => if m.full.value > 0 { WaitGranted(m, x); } else { WaitParks(m, x); }
    case PutPost(_) => if m.full.blocked == [] { PostStored(m, x); } else { PostHandsOver(m, x); }
    case GetPost(_) => if m.empty.blocked == [] { PostStored(m, x); } else { PostHandsOver(m, x); }
    case _ => SlotCall(m, x);
  }

  predicate Writes(c: Call) {
    c.PutWait? || c.PutSet? || c.PutPost?
  }

  /** With a writer and a reader around, somebody is not waiting. */
  lemma SomebodyRuns(m: MVar, writer: nat, reader: nat) returns (x: nat)
    requires MInv(m) && writer in m.calls && reader in m.calls && Writes(m.calls[writer]) && !Writes(m.calls[reader])
    ensures x in m.calls && !Parked(m, x)
  {
    if m.empty.value > 0 {
      x := writer;
    } else if m.full.value > 0 {
      x := reader;
    } else {
      assert |Holders(m)| == 1;
      x :| x in Holders(m);
    }
  }

  /** What has been read is what was put, in order, up to the one value that may be in the slot; and what mvarGet has
      handed to its callers is what was read, in order, up to the one value that is about to be. */
  lemma OneSlot(m: MVar)
    requires MInv(m)
    ensures m.gets <= m.puts && |m.puts| <= |m.gets| + 1
    ensures m.returned <= m.gets && |m.gets| <= |m.returned| + 1 && m.returned <= m.puts
    ensures (forall x :: x in m.calls && Holds(m, x) ==> !m.calls[x].GetClear? && !m.calls[x].GetPost?) ==>
              m.returned == m.gets
  {
    if m.empty.value + m.full.value == 0 {
      assert |Holders(m)| == 1;
      var x :| x in Holders(m);
      assert Phase(m, m.calls[x]);
    }
  }

  /** A whole mvarGet hands its caller the value that the last whole mvarPut left in the slot. */
  lemma GetReturnsPut(m: MVar, x: nat)
    requires MInv(m) && m.full.value == 1 && x in m.calls && m.calls[x] == GetWait && !Parked(m, x)
    ensures m.puts != []
    ensures var t := Act(Act(Act(Act(m, x), x), x), x);
            t.calls[x] == GetWait && t.returned == m.returned + [m.puts[|m.puts| - 1]]
  {
  }

  /** mvarInit run again finds its semaphores as they are but clears the slot, which is harmless exactly when the
      slot is empty. */
  lemma SecondInit(m: MVar)
    requires MInv(m)
    ensures MInv(m.(slot := 0)) <==> m.slot == 0
  {
    var t := m.(slot := 0);
    if m.slot != 0 && m.full.value == 0 {
      if m.empty.value == 0 {
        assert |Holders(m)| == 1;
        var x :| x in Holders(m);
        assert Phase(m, m.calls[x]);
        assert Holds(t, x) && !Phase(t, t.calls[x]);
      }
    }
  }

  /** Otherwise the value is lost: the next reader gets the zero that mvarGet uses to report a failure. */
  lemma SecondInitLosesValue(m: MVar, x: nat)
    requires MInv(m) && m.full.value == 1 && x in m.calls && m.calls[x] == GetWait
    ensures m.slot != 0
    ensures var t := Act(Act(Act(Act(m.(slot := 0), x), x), x), x);
            t.calls[x] == GetWait && t.returned == m.returned + [0]
  {
  }

  /** It happens: a writer puts a value into a new MVar, mvarInit is run again, and a reader is handed a zero. */
  lemma ValueIsLost(m: MVar, writer: nat, reader: nat)
    requires Initial(m) && writer in m.calls && m.calls[writer].PutWait?
    requires reader in m.calls && m.calls[reader].GetWait?
    ensures var a := Act(Act(Act(m, writer), writer), writer);
            && MInv(a) && a.puts == [m.calls[writer].v]
            && var b := a.(slot := 0);
               Act(Act(Act(Act(b, reader), reader), reader), reader).returned == [0]
  {
    InitialInv(m);
    ActKeeps(m, writer);
    var a := Act(m, writer);
    ActKeeps(a, writer);
    var b := Act(a, writer);
    ActKeeps(b, writer);
    SecondInitLosesValue(Act(b, writer), reader);
  }
}

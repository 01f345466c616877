/** Every kind of statement keeps the invariant of the locking protocol: what the lock
    holder of a room has checked stays true, because others can only remove occupants
    of that room. */
module OccupancySteps {
  import opened Occupancy
  import opened OccupancyProtocol

  // -- Stability ------------------------------------------------------------

  /** t2 has no occupant that t1 lacks, except inside the given rooms, and no
      booking row is removed or moved. */
  ghost predicate GrowsOnlyIn(t1: Tables, t2: Tables, rooms: set<int>) {
    && (forall o :: Occupies(t2, o) && SlotOf(t2, o).room !in rooms ==> Occupies(t1, o) && SlotOf(t1, o) == SlotOf(t2, o))
    && (forall id <- t1.bookings :: id in t2.bookings && t2.bookings[id].slot == t1.bookings[id].slot)
  }

  /** Nobody gains an occupant outside `rooms`, so a finding of no conflict
      there stays true. */
  lemma ClearStaysClear(t1: Tables, t2: Tables, rooms: set<int>, slot: Slot, exclude: int)
    requires GrowsOnlyIn(t1, t2, rooms) && slot.room !in rooms
    ensures SessionHit(t2, slot, exclude) ==> SessionHit(t1, slot, exclude)
    ensures BookingHit(t2, slot, 0) ==> BookingHit(t1, slot, 0)
  {
    if id :| id in t2.sessions && Kept(id, exclude) && Clash(t2.sessions[id].slot, slot) {
      assert Occupies(t2, SessionRow(id)) && Occupies(t1, SessionRow(id));
      assert Clash(t1.sessions[id].slot, slot);
    }
    if id :| id in t2.bookings && Active(t2.bookings[id].status) && Clash(t2.bookings[id].slot, slot) {
      assert Occupies(t2, BookingRow(id)) && Occupies(t1, BookingRow(id));
      assert Clash(t1.bookings[id].slot, slot);
    }
  }

  predicate SameRow(t1: Tables, t2: Tables, w: RowId) {
    match w
    case SessionRow(id) => id in t1.sessions <==> id in t2.sessions
    case BookingRow(id) => id in t1.bookings && id in t2.bookings && t1.bookings[id] == t2.bookings[id]
  }

  /** What one step may do to the tables without disturbing another transaction. */
  ghost predicate Harmless(s: State, s2: State, other: Tx, rooms: set<int>) {
    && s.nextSession <= s2.nextSession && s.nextBooking <= s2.nextBooking
    && GrowsOnlyIn(s.tables, s2.tables, rooms)
    && (forall r <- rooms :: !HoldsRoom(other, r))
    && (forall w :: HoldsRow(other, w) ==> SameRow(s.tables, s2.tables, w))
    && (other.pc.Written? && other.pc.write.InsertBooking? ==> other.pc.write.id !in s2.tables.bookings)
    && (other.pc.Written? && other.pc.write.InsertSession? ==> other.pc.write.id !in s2.tables.sessions)
  }

  lemma OtherTxKept(s: State, s2: State, other: Tx, rooms: set<int>)
    requires TxInv(s, other) && Harmless(s, s2, other, rooms)
    ensures TxInv(s2, other)
  {
    if LocksRoom(other.op) && (other.pc.SessionsClear? || other.pc.BothClear? || other.pc.Written?) {
      assert HoldsRoom(other, other.op.slot.room);
      ClearStaysClear(s.tables, s2.tables, rooms, other.pc.slot, ExcludedSession(other.op));
    }
    if other.pc.Written? {
      assert other.pc.write.MoveSession? ==> HoldsRow(other, SessionRow(other.pc.write.id));
      assert other.pc.write.SetStatus? ==> HoldsRow(other, BookingRow(other.pc.write.id));
    }
  }

  /** The invariant survives a step of transaction i if tables and locks stay
      consistent, i itself is where it claims to be, and nobody else is disturbed. */
  lemma StepKeepsInv(s: State, s2: State, i: nat, rooms: set<int>)
    requires Inv(s) && i < |s.txs| == |s2.txs|
    requires forall j :: 0 <= j < |s.txs| && j != i ==> s2.txs[j] == s.txs[j]
    requires TablesInv(s2) && LocksInv(s2) && TxInv(s2, s2.txs[i])
    requires forall j :: 0 <= j < |s.txs| && j != i ==> Harmless(s, s2, s.txs[j], rooms)
    requires forall j :: 0 <= j < |s.txs| && j != i ==> !SameInsert(s.txs[j], s2.txs[i])
    ensures Inv(s2)
  {
    forall j | 0 <= j < |s2.txs| ensures TxInv(s2, s2.txs[j]) {
      if j != i { OtherTxKept(s, s2, s.txs[j], rooms); }
    }
    forall a, b | 0 <= a < |s2.txs| && 0 <= b < |s2.txs| && a != b ensures !SameInsert(s2.txs[a], s2.txs[b]) {
      assert SameInsert(s2.txs[a], s2.txs[b]) == SameInsert(s2.txs[b], s2.txs[a]);
    }
  }

  // -- Non-overlap under each kind of table change --------------------------

  /** Every occupant of t2 was one of t1, with the same slot. */
  lemma RemovalKeepsNonOverlap(t1: Tables, t2: Tables)
    requires NonOverlap(t1) && GrowsOnlyIn(t1, t2, {})
    ensures NonOverlap(t2)
  {
    forall o, room, date, p | CoveredBy(t2, o, room, date, p) ensures CoveredBy(t1, o, room, date, p) {}
  }

  /** Adding or moving one occupant to a slot that clashes with no other. */
  lemma PlacementKeepsNonOverlap(t1: Tables, t2: Tables, o: RowId)
    requires WellFormed(t1) && WellFormed(t2) && NonOverlap(t1)
    requires Occupies(t2, o)
    requires forall x :: x != o && Occupies(t2, x) ==> Occupies(t1, x) && SlotOf(t1, x) == SlotOf(t2, x)
    requires forall x :: x != o && Occupies(t1, x) ==> !Clash(SlotOf(t1, x), SlotOf(t2, o))
    ensures NonOverlap(t2)
  {
    NonOverlapIffNoClash(t1);
    NonOverlapIffNoClash(t2);
    forall a, b | Occupies(t2, a) && Occupies(t2, b) && a != b
      ensures !Clash(SlotOf(t2, a), SlotOf(t2, b))
    {
      if a != o && b != o {
        assert Occupies(t1, a) && Occupies(t1, b);
      }
    }
  }

  // -- Each kind of step ----------------------------------------------------

  /** Locks stay consistent if transaction i owns what its new counter says and
      nobody else's locks change. */
  lemma LocksAfterStep(s: State, s2: State, i: nat)
    requires LocksInv(s) && i < |s.txs| == |s2.txs|
    requires forall j :: 0 <= j < |s.txs| && j != i ==> s2.txs[j] == s.txs[j]
    requires forall r <- s2.roomLock :: s2.roomLock[r] == i || Owns(s.roomLock, r, s2.roomLock[r])
    requires forall w <- s2.rowLock :: s2.rowLock[w] == i || Owns(s.rowLock, w, s2.rowLock[w])
    requires forall r <- s.roomLock :: s.roomLock[r] != i ==> Owns(s2.roomLock, r, s.roomLock[r])
    requires forall w <- s.rowLock :: s.rowLock[w] != i ==> Owns(s2.rowLock, w, s.rowLock[w])
    requires forall r :: HoldsRoom(s2.txs[i], r) <==> Owns(s2.roomLock, r, i)
    requires forall w :: HoldsRow(s2.txs[i], w) <==> Owns(s2.rowLock, w, i)
    ensures LocksInv(s2)
  {
    forall j, r | 0 <= j < |s2.txs| ensures HoldsRoom(s2.txs[j], r) <==> Owns(s2.roomLock, r, j) {
      if j != i { assert HoldsRoom(s.txs[j], r) <==> Owns(s.roomLock, r, j); }
    }
    forall j, w | 0 <= j < |s2.txs| ensures HoldsRow(s2.txs[j], w) <==> Owns(s2.rowLock, w, j) {
      if j != i { assert HoldsRow(s.txs[j], w) <==> Owns(s.rowLock, w, j); }
    }
  }

  lemma FinishKeepsLocks(s: State, i: nat, outcome: Outcome)
    requires LocksInv(s) && i < |s.txs|
    ensures LocksInv(Finish(s, i, outcome))
  {
    LocksAfterStep(s, Finish(s, i, outcome), i);
  }

  lemma TakeRoomKeepsLocks(s: State, i: nat, slot: Slot)
    requires LocksInv(s) && i < |s.txs| && s.txs[i].pc.Start? && LocksRoom(s.txs[i].op)
    requires slot == s.txs[i].op.slot && slot.room !in s.roomLock
    ensures LocksInv(SetPc(s, i, Locked(slot)).(roomLock := s.roomLock[slot.room := i]))
  {
    var s2 := SetPc(s, i, Locked(slot)).(roomLock := s.roomLock[slot.room := i]);
    forall r ensures HoldsRoom(s2.txs[i], r) <==> Owns(s2.roomLock, r, i) {
      assert HoldsRoom(s.txs[i], r) <==> Owns(s.roomLock, r, i);
    }
    forall w ensures HoldsRow(s2.txs[i], w) <==> Owns(s2.rowLock, w, i) {
      assert HoldsRow(s.txs[i], w) <==> Owns(s.rowLock, w, i);
    }
    LocksAfterStep(s, s2, i);
  }

  /** Running the write statement keeps the room lock and takes the row locks the
      write calls for. */
  lemma WriteKeepsLocks(s: State, s2: State, i: nat, slot: Slot, w: Write)
    requires LocksInv(s) && i < |s.txs| && s.txs[i].pc == BothClear(slot)
    requires s2.txs == SetPc(s, i, Written(slot, w)).txs && s2.roomLock == s.roomLock
    requires s2.rowLock == (match w
                            case MoveSession(id, _) => s.rowLock[SessionRow(id) := i]
                            case SetStatus(id, _) => s.rowLock[BookingRow(id) := i]
                            case _ => s.rowLock)
    requires forall row :: HoldsRow(s2.txs[i], row) ==> row !in s.rowLock
    ensures LocksInv(s2)
  {
    forall r ensures HoldsRoom(s2.txs[i], r) <==> Owns(s2.roomLock, r, i) {
      assert HoldsRoom(s.txs[i], r) <==> Owns(s.roomLock, r, i);
    }
    forall row ensures HoldsRow(s2.txs[i], row) <==> Owns(s2.rowLock, row, i) {
      assert HoldsRow(s.txs[i], row) <==> Owns(s.rowLock, row, i);
    }
    assert w.MoveSession? ==> HoldsRow(s2.txs[i], SessionRow(w.id));
    assert w.SetStatus? ==> HoldsRow(s2.txs[i], BookingRow(w.id));
    LocksAfterStep(s, s2, i);
  }

  /** A transaction that ends without writing. */
  lemma FinishKeepsInv(s: State, i: nat, outcome: Outcome)
    requires Inv(s) && i < |s.txs|
    ensures Inv(Finish(s, i, outcome))
  {
    FinishKeepsLocks(s, i, outcome);
    StepKeepsInv(s, Finish(s, i, outcome), i, {});
  }

  /** Removing occupants leaves every transaction undisturbed that has not
      locked the row concerned. */
  lemma RemovalIsHarmless(s: State, s2: State, other: Tx, row: RowId)
    requires TxInv(s, other) && !HoldsRow(other, row)
    requires s2.nextSession == s.nextSession && s2.nextBooking == s.nextBooking
    requires GrowsOnlyIn(s.tables, s2.tables, {})
    requires s2.tables.sessions.Keys <= s.tables.sessions.Keys && s2.tables.bookings.Keys == s.tables.bookings.Keys
    requires forall w :: w != row && (w.BookingRow? ==> w.id in s.tables.bookings) ==> SameRow(s.tables, s2.tables, w)
    ensures Harmless(s, s2, other, {})
  {
  }

  /** A transaction that ends by removing occupants nobody has locked: a deleted
      session, or a booking that is cancelled or rejected. */
  lemma RemoveKeepsInv(s: State, i: nat, t2: Tables, row: RowId, outcome: Outcome)
    requires Inv(s) && i < |s.txs| && row !in s.rowLock
    requires WellFormed(t2) && GrowsOnlyIn(s.tables, t2, {})
    requires t2.sessions.Keys <= s.tables.sessions.Keys && t2.bookings.Keys == s.tables.bookings.Keys
    requires forall w :: w != row && (w.BookingRow? ==> w.id in s.tables.bookings) ==> SameRow(s.tables, t2, w)
    ensures Inv(Finish(s.(tables := t2), i, outcome))
  {
    var s2 := Finish(s.(tables := t2), i, outcome);
    assert LocksInv(s2) by {
      FinishKeepsLocks(s, i, outcome);
    }
    RemovalKeepsNonOverlap(s.tables, t2);
    forall j | 0 <= j < |s.txs| && j != i ensures Harmless(s, s2, s.txs[j], {}) {
      RemovalIsHarmless(s, s2, s.txs[j], row);
    }
    StepKeepsInv(s, s2, i, {});
  }

  lemma StatusUpdateKeepsInv(s: State, i: nat, id: int, st: Status, outcome: Outcome)
    requires Inv(s) && i < |s.txs| && id in s.tables.bookings && !Active(st)
    requires BookingRow(id) !in s.rowLock
    ensures Inv(Finish(s.(tables := ApplyWrite(s.tables, SetStatus(id, st))), i, outcome))
  {
    RemoveKeepsInv(s, i, ApplyWrite(s.tables, SetStatus(id, st)), BookingRow(id), outcome);
  }

  lemma DeleteKeepsInv(s: State, i: nat, id: int, outcome: Outcome)
    requires Inv(s) && i < |s.txs| && SessionRow(id) !in s.rowLock
    ensures Inv(Finish(s.(tables := s.tables.(sessions := s.tables.sessions - {id})), i, outcome))
  {
    RemoveKeepsInv(s, i, s.tables.(sessions := s.tables.sessions - {id}), SessionRow(id), outcome);
  }

  /** A transaction that only moves its program counter while holding the same locks. */
  lemma AdvanceKeepsInv(s: State, i: nat, pc: Pc)
    requires Inv(s) && i < |s.txs|
    requires forall r :: HoldsRoom(s.txs[i], r) <==> HoldsRoom(s.txs[i].(pc := pc), r)
    requires forall w :: !HoldsRow(s.txs[i], w) && !HoldsRow(s.txs[i].(pc := pc), w)
    requires TxInv(s, s.txs[i].(pc := pc)) && !pc.Written?
    ensures Inv(SetPc(s, i, pc))
  {
    StepKeepsInv(s, SetPc(s, i, pc), i, {});
  }

  lemma BeginKeepsInv(s: State, i: nat)
    requires Inv(s) && i < |s.txs| && s.txs[i].pc.Start? && Enabled(s, i)
    ensures Inv(Begin(s, i))
  {
    var op := s.txs[i].op;
    if LocksRoom(op) && op.slot.room in s.rooms {
      var s2 := Begin(s, i);
      TakeRoomKeepsLocks(s, i, op.slot);
      StepKeepsInv(s, s2, i, {});
    } else if op.DeleteSession? && op.id in s.tables.sessions {
      assert NeedsRow(s.txs[i], SessionRow(op.id));
      DeleteKeepsInv(s, i, op.id, Ok(op.id));
    } else if Begin(s, i).txs[i].pc.FastRead? {
      AdvanceKeepsInv(s, i, FastRead(s.tables.bookings[op.id]));
    } else {
      FinishKeepsInv(s, i, Begin(s, i).txs[i].pc.outcome);
    }
  }

  lemma ReadsAndChecksKeepInv(s: State, i: nat)
    requires Inv(s) && i < |s.txs| && Enabled(s, i)
    requires s.txs[i].pc.FastRead? || s.txs[i].pc.Locked? || s.txs[i].pc.SessionsClear?
    ensures Inv(Exec(s, i))
  {
    var tx := s.txs[i];
    assert TxInv(s, tx);
    var s2 := Exec(s, i);
    if tx.pc.FastRead? && (tx.op.Cancel? || tx.op.Reject?) {
      assert NeedsRow(tx, BookingRow(tx.op.id));
      if s2.txs[i].pc.outcome.Ok? {
        StatusUpdateKeepsInv(s, i, tx.op.id, if tx.op.Cancel? then Cancelled else Rejected, Ok(tx.op.id));
      } else {
        FinishKeepsInv(s, i, InvalidTransition);
      }
    } else if s2.txs[i].pc.Done? {
      FinishKeepsInv(s, i, Conflict);
    } else {
      AdvanceKeepsInv(s, i, s2.txs[i].pc);
    }
  }

  lemma InsertStepKeepsInv(s: State, i: nat)
    requires Inv(s) && i < |s.txs| && s.txs[i].pc.BothClear? && (s.txs[i].op.Create? || s.txs[i].op.CreateSession?)
    ensures Inv(WriteRow(s, i, s.txs[i].pc.slot))
  {
    var s2 := WriteRow(s, i, s.txs[i].pc.slot);
    WriteKeepsLocks(s, s2, i, s.txs[i].pc.slot, s2.txs[i].pc.write);
    assert TxInv(s, s.txs[i]);
    forall j | 0 <= j < |s.txs| && j != i ensures Harmless(s, s2, s.txs[j], {}) && !SameInsert(s.txs[j], s2.txs[i]) {
      assert TxInv(s, s.txs[j]);
    }
    StepKeepsInv(s, s2, i, {});
  }

  lemma UpdateStepKeepsInv(s: State, i: nat)
    requires Inv(s) && i < |s.txs| && s.txs[i].pc.BothClear? && Enabled(s, i)
    requires s.txs[i].op.UpdateSession? || s.txs[i].op.Approve?
    ensures Inv(WriteRow(s, i, s.txs[i].pc.slot))
  {
    var tx := s.txs[i];
    var s2 := WriteRow(s, i, tx.pc.slot);
    assert TxInv(s, tx);
    if s2.txs[i].pc.Done? {
      FinishKeepsInv(s, i, s2.txs[i].pc.outcome);
    } else {
      assert NeedsRow(tx, if tx.op.Approve? then BookingRow(tx.op.id) else SessionRow(tx.op.id));
      WriteKeepsLocks(s, s2, i, tx.pc.slot, s2.txs[i].pc.write);
      forall j | 0 <= j < |s.txs| && j != i ensures Harmless(s, s2, s.txs[j], {}) {
        assert TxInv(s, s.txs[j]);
      }
      StepKeepsInv(s, s2, i, {});
    }
  }

  // -- Commit ---------------------------------------------------------------

  /** Placing a checked row keeps the tables consistent. */
  lemma CommitKeepsTables(s: State, tx: Tx)
    requires TablesInv(s) && TxInv(s, tx) && tx.pc.Written?
    ensures TablesInv(s.(tables := ApplyWrite(s.tables, tx.pc.write)))
  {
    var t, t2, w := s.tables, ApplyWrite(s.tables, tx.pc.write), tx.pc.write;
    if w.SetStatus? {
      forall o, room, date, p | CoveredBy(t2, o, room, date, p) ensures CoveredBy(t, o, room, date, p) {}
    } else {
      var o := if w.InsertBooking? then BookingRow(w.id) else SessionRow(w.id);
      forall x | x != o && Occupies(t, x) ensures !Clash(SlotOf(t, x), SlotOf(t2, o)) {
        if x.SessionRow? {
          assert Kept(x.id, ExcludedSession(tx.op));
        } else {
          assert Kept(x.id, 0);
        }
      }
      PlacementKeepsNonOverlap(t, t2, o);
    }
  }

  /** A commit adds occupants only to the room whose lock the transaction holds. */
  lemma CommitIsHarmless(s: State, i: nat, j: nat, outcome: Outcome)
    requires Inv(s) && i < |s.txs| && s.txs[i].pc.Written? && j < |s.txs| && i != j
    ensures Harmless(s, Commit(s, i, outcome), s.txs[j], CommitRooms(s.txs[i]))
  {
    var tx, other := s.txs[i], s.txs[j];
    assert TxInv(s, tx) && TxInv(s, other);
    var t, t2 := s.tables, Commit(s, i, outcome).tables;
    assert GrowsOnlyIn(t, t2, CommitRooms(tx));
    forall r <- CommitRooms(tx) ensures !HoldsRoom(other, r) {
      assert HoldsRoom(s.txs[i], r) <==> Owns(s.roomLock, r, i);
      assert HoldsRoom(s.txs[j], r) <==> Owns(s.roomLock, r, j);
    }
    assert !SameInsert(s.txs[i], s.txs[j]);
    forall w | HoldsRow(other, w) ensures SameRow(t, t2, w) {
      assert HoldsRow(s.txs[i], w) <==> Owns(s.rowLock, w, i);
      assert HoldsRow(s.txs[j], w) <==> Owns(s.rowLock, w, j);
    }
  }

  function CommitRooms(tx: Tx): set<int> {
    if LocksRoom(tx.op) then {tx.op.slot.room} else {}
  }

  lemma CommitKeepsInv(s: State, i: nat, outcome: Outcome)
    requires Inv(s) && i < |s.txs| && s.txs[i].pc.Written?
    ensures Inv(Commit(s, i, outcome))
  {
    var s2 := Commit(s, i, outcome);
    assert LocksInv(s2) by {
      FinishKeepsLocks(s, i, outcome);
    }
    assert TxInv(s, s.txs[i]);
    CommitKeepsTables(s, s.txs[i]);
    forall j | 0 <= j < |s.txs| && j != i ensures Harmless(s, s2, s.txs[j], CommitRooms(s.txs[i])) {
      CommitIsHarmless(s, i, j, outcome);
    }
    StepKeepsInv(s, s2, i, CommitRooms(s.txs[i]));
  }
}

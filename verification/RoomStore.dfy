/** The six operations as a caller sees them when nobody else is active: a store
    object whose methods update the two tables in place, and a decision table
    that both these methods and a lone run of the protocol are proved against. */
module RoomStore {
  import opened Occupancy
  import opened OccupancyHistory
  import opened OccupancyInvariant
  import opened OccupancyProgress
  import opened OccupancyProtocol
  import opened OccupancySteps

  /** Out of `t`, operation `op` answers `out` and leaves `t2`. Every answer other
      than Ok leaves the tables alone. */
  ghost predicate Serves(op: Op, rooms: set<int>, t: Tables, t2: Tables, out: Outcome) {
    && (!out.Ok? ==> t2 == t)
    && match op
       case Create(user, slot) =>
         if slot.room !in rooms then out == Failed
         else if Conflicts(t, slot, 0) then out == Conflict
         else out.Ok? && out.id > 0 && out.id !in t.bookings
              && t2 == t.(bookings := t.bookings[out.id := Booking(user, slot, Pending)])
       case Cancel(id, user, isAdmin) =>
         if id !in t.bookings then out == NotFound
         else if !isAdmin && t.bookings[id].user != user then out == Forbidden
         else if !Active(t.bookings[id].status) then out == InvalidTransition
         else out == Ok(id) && t2 == t.(bookings := t.bookings[id := t.bookings[id].(status := Cancelled)])
       case Approve(id) =>
         if id !in t.bookings then out == NotFound
         else if t.bookings[id].status != Pending then out == InvalidTransition
         else out == Ok(id) && t2 == t.(bookings := t.bookings[id := t.bookings[id].(status := Approved)])
       case Reject(id) =>
         if id !in t.bookings then out == NotFound
         else if t.bookings[id].status != Pending then out == InvalidTransition
         else out == Ok(id) && t2 == t.(bookings := t.bookings[id := t.bookings[id].(status := Rejected)])
       case CreateSession(offering, slot) =>
         if slot.room !in rooms then out == Failed
         else if SessionConflict(t, slot, 0) then out == Conflict
         else out.Ok? && out.id > 0 && out.id !in t.sessions
              && t2 == t.(sessions := t.sessions[out.id := Session(offering, slot)])
       case UpdateSession(id, offering, slot) =>
         if slot.room !in rooms then out == Failed
         else if SessionConflict(t, slot, id) then out == Conflict
         else if id !in t.sessions then out == NotFound
         else out == Ok(id) && t2 == t.(sessions := t.sessions[id := Session(offering, slot)])
       case DeleteSession(id) =>
         if id !in t.sessions then out == NotFound
         else out == Ok(id) && t2 == t.(sessions := t.sessions - {id})
  }

  /** booking.Store and course.Store over the shared database. */
  class Store {
    const rooms: set<int>
    var sessions: map<int, Session>
    var bookings: map<int, Booking>
    var nextSession: int
    var nextBooking: int

    function Rows(): Tables
      reads this
    {
      Tables(sessions, bookings)
    }

    ghost predicate Valid()
      reads this
    {
      TablesInv(State(rooms, Rows(), nextSession, nextBooking, map[], map[], []))
    }

    constructor (rooms: set<int>)
      ensures Valid() && this.rooms == rooms && Rows() == Tables(map[], map[])
    {
      this.rooms := rooms;
      sessions, bookings := map[], map[];
      nextSession, nextBooking := 1, 1;
    }

    method Create(user: int, slot: Slot) returns (out: Outcome)
      requires Valid() && ValidSlot(slot)
      modifies this
      ensures Valid()
      ensures Serves(Op.Create(user, slot), rooms, old(Rows()), Rows(), out)
    {
      if slot.room !in rooms { return Failed; }
      if Conflicts(Rows(), slot, 0) { return Conflict; }
      ghost var before := Rows();
      var id := nextBooking;
      bookings, nextBooking := bookings[id := Booking(user, slot, Pending)], nextBooking + 1;
      forall x | x != BookingRow(id) && Occupies(before, x) ensures !Clash(SlotOf(before, x), slot) {
        assert Kept(x.id, 0);
      }
      PlacementKeepsNonOverlap(before, Rows(), BookingRow(id));
      return Ok(id);
    }

    method Cancel(id: int, user: int, isAdmin: bool) returns (out: Outcome)
      requires Valid()
      modifies this`bookings
      ensures Valid()
      ensures Serves(Op.Cancel(id, user, isAdmin), rooms, old(Rows()), Rows(), out)
    {
      if id !in bookings { return NotFound; }
      if !isAdmin && bookings[id].user != user { return Forbidden; }
      if bookings[id].status != Pending && bookings[id].status != Approved { return InvalidTransition; }
      bookings := bookings[id := bookings[id].(status := Cancelled)];
      RemovalKeepsNonOverlap(old(Rows()), Rows());
      return Ok(id);
    }

    /** Run alone, an approving Review never reports a conflict: its re-check can
        only fire after a concurrent cancel or reject. */
    method Review(id: int, decision: string) returns (out: Outcome)
      requires Valid()
      modifies this`bookings
      ensures Valid()
      ensures Serves(if decision == "approve" then Approve(id) else Reject(id), rooms, old(Rows()), Rows(), out)
    {
      if id !in bookings { return NotFound; }
      if bookings[id].status != Pending { return InvalidTransition; }
      ghost var before := Rows();
      if decision == "approve" {
        ActiveBookingHasNoConflict(before, id);
        if Conflicts(Rows(), bookings[id].slot, id) { return Conflict; }
        bookings := bookings[id := bookings[id].(status := Approved)];
      } else {
        bookings := bookings[id := bookings[id].(status := Rejected)];
      }
      RemovalKeepsNonOverlap(before, Rows());
      return Ok(id);
    }

    method CreateSession(offering: int, slot: Slot) returns (out: Outcome)
      requires Valid() && ValidSlot(slot)
      modifies this
      ensures Valid()
      ensures Serves(Op.CreateSession(offering, slot), rooms, old(Rows()), Rows(), out)
    {
      if slot.room !in rooms { return Failed; }
      if SessionConflict(Rows(), slot, 0) { return Conflict; }
      ghost var before := Rows();
      var id := nextSession;
      sessions, nextSession := sessions[id := Session(offering, slot)], nextSession + 1;
      forall x | x != SessionRow(id) && Occupies(before, x) ensures !Clash(SlotOf(before, x), slot) {
        assert Kept(x.id, 0);
      }
      PlacementKeepsNonOverlap(before, Rows(), SessionRow(id));
      return Ok(id);
    }

    method UpdateSession(id: int, offering: int, slot: Slot) returns (out: Outcome)
      requires Valid() && ValidSlot(slot)
      modifies this`sessions
      ensures Valid()
      ensures Serves(Op.UpdateSession(id, offering, slot), rooms, old(Rows()), Rows(), out)
    {
      if slot.room !in rooms { return Failed; }
      if SessionConflict(Rows(), slot, id) { return Conflict; }
      if id !in sessions { return NotFound; }
      ghost var before := Rows();
      sessions := sessions[id := Session(offering, slot)];
      forall x | x != SessionRow(id) && Occupies(before, x) ensures !Clash(SlotOf(before, x), slot) {
        assert Kept(x.id, if x.SessionRow? then id else 0);
      }
      PlacementKeepsNonOverlap(before, Rows(), SessionRow(id));
      return Ok(id);
    }

    method DeleteSession(id: int) returns (out: Outcome)
      requires Valid()
      modifies this`sessions
      ensures Valid()
      ensures Serves(Op.DeleteSession(id), rooms, old(Rows()), Rows(), out)
    {
      if id !in sessions { return NotFound; }
      sessions := sessions - {id};
      RemovalKeepsNonOverlap(old(Rows()), Rows());
      return Ok(id);
    }
  }

  // -- The protocol, run alone ----------------------------------------------

  ghost predicate Alone(s: State) {
    Inv(s) && |s.txs| == 1
  }

  lemma AloneIsNeverBlocked(s: State)
    requires Alone(s) && !Finished(s.txs[0])
    ensures Enabled(s, 0)
  {
    NeverDeadlocked(s);
  }

  /** A single transaction executed to its end. */
  ghost function RunAlone(s: State): (f: State)
    requires Alone(s)
    ensures Alone(f) && Finished(f.txs[0])
    decreases Remaining(s.txs[0])
  {
    if Finished(s.txs[0]) then s
    else
      AloneIsNeverBlocked(s);
      EventKeepsInv(s, Statement(0));
      EventMovesOn(s, Statement(0));
      RunAlone(Exec(s, 0))
  }

  ghost predicate ServedFrom(s0: State, f: State)
    requires |s0.txs| == 1 && |f.txs| == 1 && Finished(f.txs[0])
  {
    Serves(s0.txs[0].op, s0.rooms, s0.tables, f.tables, f.txs[0].pc.outcome)
  }

  /** The statement-level protocol, run without interference, implements the
      decision table that the store's methods implement. */
  lemma ProtocolServesAlone(s: State)
    requires Alone(s) && s.txs[0].pc.Start?
    ensures ServedFrom(s, RunAlone(s))
  {
    AloneIsNeverBlocked(s);
    EventKeepsInv(s, Statement(0));
    var s1 := Exec(s, 0);
    if !Finished(s1.txs[0]) {
      if s1.txs[0].pc.Locked? {
        LockedServesAlone(s, s1);
      } else {
        ReadServesAlone(s, s1);
      }
    }
  }

  lemma LockedServesAlone(s: State, s1: State)
    requires Alone(s1) && |s.txs| == 1 && s1.txs[0].pc.Locked? && s1.txs[0].op == s.txs[0].op
    requires s1.tables == s.tables && s1.txs[0].op.slot.room in s.rooms
    ensures ServedFrom(s, RunAlone(s1))
  {
    assert TxInv(s1, s1.txs[0]);
    AloneIsNeverBlocked(s1);
    EventKeepsInv(s1, Statement(0));
    var s2 := Exec(s1, 0);
    if !Finished(s2.txs[0]) { HalfCheckedServesAlone(s, s2); }
  }

  lemma HalfCheckedServesAlone(s: State, s2: State)
    requires Alone(s2) && |s.txs| == 1 && s2.txs[0].pc.SessionsClear? && s2.txs[0].op == s.txs[0].op && LocksRoom(s.txs[0].op)
    requires s2.tables == s.tables && s2.txs[0].op.slot.room in s.rooms
    ensures ServedFrom(s, RunAlone(s2))
  {
    assert TxInv(s2, s2.txs[0]);
    AloneIsNeverBlocked(s2);
    EventKeepsInv(s2, Statement(0));
    var s3 := Exec(s2, 0);
    if !Finished(s3.txs[0]) { WriteServesAlone(s, s3); }
  }

  lemma ReadServesAlone(s: State, s1: State)
    requires Alone(s1) && |s.txs| == 1 && s1.txs[0].pc.FastRead? && s1.txs[0].op == s.txs[0].op
    requires s1.tables == s.tables && s1.txs[0].op.id in s.tables.bookings
    requires s1.txs[0].pc.seen == s.tables.bookings[s1.txs[0].op.id]
    requires s1.txs[0].op.Cancel? ==> Active(s1.txs[0].pc.seen.status) && (s1.txs[0].op.isAdmin || s1.txs[0].pc.seen.user == s1.txs[0].op.user)
    requires !s1.txs[0].op.Cancel? ==> s1.txs[0].pc.seen.status == Pending
    ensures ServedFrom(s, RunAlone(s1))
  {
    assert TxInv(s1, s1.txs[0]);
    AloneIsNeverBlocked(s1);
    EventKeepsInv(s1, Statement(0));
    var s2 := Exec(s1, 0);
    if s1.txs[0].op.Approve? {
      ActiveBookingHasNoConflict(s.tables, s1.txs[0].op.id);
      AloneIsNeverBlocked(s2);
      EventKeepsInv(s2, Statement(0));
      WriteServesAlone(s, Exec(s2, 0));
    }
  }

  lemma WriteServesAlone(s: State, s3: State)
    requires Alone(s3) && |s.txs| == 1 && s3.txs[0].pc.BothClear? && s3.txs[0].op == s.txs[0].op
    requires s3.tables == s.tables
    requires LocksRoom(s.txs[0].op) ==> s.txs[0].op.slot.room in s.rooms && !SessionConflict(s.tables, s.txs[0].op.slot, ExcludedSession(s.txs[0].op))
    requires s.txs[0].op.Approve? ==> s.txs[0].op.id in s.tables.bookings && s.tables.bookings[s.txs[0].op.id].status == Pending
    ensures ServedFrom(s, RunAlone(s3))
  {
    assert TxInv(s3, s3.txs[0]);
    AloneIsNeverBlocked(s3);
    EventKeepsInv(s3, Statement(0));
    var s4 := Exec(s3, 0);
    if !Finished(s4.txs[0]) {
      assert TxInv(s4, s4.txs[0]);
      AloneIsNeverBlocked(s4);
      EventKeepsInv(s4, Statement(0));
      assert RunAlone(s4) == Exec(s4, 0);
    }
  }

  // -- The race that makes the re-check fire --------------------------------

  const RACE_SLOT := Slot(1, 0, 3, 4)

  /** Booking 1 as it is read by the Review, after its cancellation, and after
      another request has taken the slot. */
  const PENDING_ONE := map[1 := Booking(7, RACE_SLOT, Pending)]
  const CANCELLED_ONE := map[1 := Booking(7, RACE_SLOT, Cancelled)]
  const TAKEN := CANCELLED_ONE[2 := Booking(8, RACE_SLOT, Pending)]

  function RaceState(bookings: map<int, Booking>, review: Pc, cancel: Pc, create: Pc): State {
    State({1}, Tables(map[], bookings), 1, if 2 in bookings then 3 else 2, map[], map[],
          [Tx(Op.Approve(1), review), Tx(Op.Cancel(1, 7, false), cancel), Tx(Op.Create(8, RACE_SLOT), create)])
  }

  const RACE_START := RaceState(PENDING_ONE, Start, Start, Start)
  const RACE_READ := RaceState(PENDING_ONE, FastRead(PENDING_ONE[1]), Start, Start)
  const RACE_CANCELLED := RaceState(CANCELLED_ONE, FastRead(PENDING_ONE[1]), Done(Ok(1)), Start)
  const RACE_TAKEN := RaceState(TAKEN, FastRead(PENDING_ONE[1]), Done(Ok(1)), Done(Ok(2)))
  const RACE_LOST := RaceState(TAKEN, Done(Conflict), Done(Ok(1)), Done(Ok(2)))

  ghost predicate Leads(s: State, es: seq<Event>, f: State) {
    ValidRun(s, es) && Run(s, es) == f
  }

  lemma {:induction false} LeadsThrough(s: State, es: seq<Event>, m: State, fs: seq<Event>, f: State)
    requires Leads(s, es, m) && Leads(m, fs, f)
    ensures Leads(s, es + fs, f)
    decreases |es|
  {
    if es == [] {
      assert es + fs == fs;
    } else {
      assert (es + fs)[1..] == es[1..] + fs;
      LeadsThrough(Apply(s, es[0]), es[1..], m, fs, f);
    }
  }

  lemma OneStatement(s: State, i: nat, f: State)
    requires i < |s.txs| && Enabled(s, i) && Exec(s, i) == f
    ensures Leads(s, [Statement(i)], f)
  {
    assert Run(f, []) == f;
  }

  lemma ReviewReads()
    ensures Leads(RACE_START, [Statement(0)], RACE_READ)
  {
    OneStatement(RACE_START, 0, RACE_READ);
  }

  lemma CancelWins()
    ensures Leads(RACE_READ, [Statement(1)] + [Statement(1)], RACE_CANCELLED)
  {
    var m := RaceState(PENDING_ONE, FastRead(PENDING_ONE[1]), FastRead(PENDING_ONE[1]), Start);
    OneStatement(RACE_READ, 1, m);
    OneStatement(m, 1, RACE_CANCELLED);
    LeadsThrough(RACE_READ, [Statement(1)], m, [Statement(1)], RACE_CANCELLED);
  }

  lemma CreateTakesTheSlot()
    ensures Leads(RACE_CANCELLED, [Statement(2)] + ([Statement(2)] + ([Statement(2)] + ([Statement(2)] + [Statement(2)]))), RACE_TAKEN)
  {
    var m0 := RaceState(CANCELLED_ONE, FastRead(PENDING_ONE[1]), Done(Ok(1)), Locked(RACE_SLOT)).(roomLock := map[1 := 2]);
    var m1 := m0.(txs := m0.txs[2 := Tx(Op.Create(8, RACE_SLOT), SessionsClear(RACE_SLOT))]);
    var m2 := m0.(txs := m0.txs[2 := Tx(Op.Create(8, RACE_SLOT), BothClear(RACE_SLOT))]);
    var w := InsertBooking(2, Booking(8, RACE_SLOT, Pending));
    var m3 := m0.(nextBooking := 3, txs := m0.txs[2 := Tx(Op.Create(8, RACE_SLOT), Written(RACE_SLOT, w))]);
    OneStatement(RACE_CANCELLED, 2, m0);
    OneStatement(m0, 2, m1);
    OneStatement(m1, 2, m2);
    OneStatement(m2, 2, m3);
    OneStatement(m3, 2, RACE_TAKEN);
    LeadsThrough(m2, [Statement(2)], m3, [Statement(2)], RACE_TAKEN);
    LeadsThrough(m1, [Statement(2)], m2, [Statement(2)] + [Statement(2)], RACE_TAKEN);
    LeadsThrough(m0, [Statement(2)], m1, [Statement(2)] + ([Statement(2)] + [Statement(2)]), RACE_TAKEN);
    LeadsThrough(RACE_CANCELLED, [Statement(2)], m0, [Statement(2)] + ([Statement(2)] + ([Statement(2)] + [Statement(2)])), RACE_TAKEN);
  }

  lemma ReviewFindsTheSlotTaken()
    ensures Leads(RACE_TAKEN, [Statement(0)] + [Statement(0)], RACE_LOST)
  {
    var m := RaceState(TAKEN, SessionsClear(RACE_SLOT), Done(Ok(1)), Done(Ok(2)));
    assert Kept(2, 1) && Clash(TAKEN[2].slot, RACE_SLOT);
    OneStatement(RACE_TAKEN, 0, m);
    OneStatement(m, 0, RACE_LOST);
    LeadsThrough(RACE_TAKEN, [Statement(0)], m, [Statement(0)], RACE_LOST);
  }

  /** The re-check is not dead code: a Review whose booking is cancelled and
      replaced after the fast-path read does report a conflict. */
  lemma ApproveCanConflictUnderARace()
    ensures Initial(RACE_START) && exists es :: Leads(RACE_START, es, RACE_LOST)
  {
    ReviewReads();
    CancelWins();
    CreateTakesTheSlot();
    ReviewFindsTheSlotTaken();
    var a, b, c, d := [Statement(0)], [Statement(1)] + [Statement(1)],
                      [Statement(2)] + ([Statement(2)] + ([Statement(2)] + ([Statement(2)] + [Statement(2)]))), [Statement(0)] + [Statement(0)];
    LeadsThrough(RACE_CANCELLED, c, RACE_TAKEN, d, RACE_LOST);
    LeadsThrough(RACE_READ, b, RACE_CANCELLED, c + d, RACE_LOST);
    LeadsThrough(RACE_START, a, RACE_READ, b + (c + d), RACE_LOST);
  }
}

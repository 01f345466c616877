/** The two tables that occupy a classroom, course_sessions and
    classroom_bookings, and the overlap rule they share.

    A date is a day number; the source stores a calendar date and only ever
    compares two of them. */
module Occupancy {

  /** A contiguous period range [ps, pe] of one room on one date. */
  datatype Slot = Slot(room: int, date: int, ps: int, pe: int)

  datatype Status = Pending | Approved | Rejected | Cancelled

  datatype Session = Session(offering: int, slot: Slot)
  datatype Booking = Booking(user: int, slot: Slot, status: Status)

  datatype Tables = Tables(sessions: map<int, Session>, bookings: map<int, Booking>)

  /** What the request handlers guarantee before a store is called. */
  predicate ValidSlot(s: Slot) {
    1 <= s.ps <= s.pe
  }

  predicate Covers(s: Slot, room: int, date: int, p: int) {
    s.room == room && s.date == date && s.ps <= p <= s.pe
  }

  /** The predicate every conflict query repeats:
      period_start <= pe AND period_end >= ps on one room and date. */
  predicate Clash(a: Slot, b: Slot) {
    a.room == b.room && a.date == b.date && a.ps <= b.pe && a.pe >= b.ps
  }

  predicate Active(s: Status) {
    s == Pending || s == Approved
  }

  /** A row of either table, used to name occupants and to lock rows. */
  datatype RowId = SessionRow(id: int) | BookingRow(id: int)

  predicate Occupies(t: Tables, o: RowId) {
    match o
    case SessionRow(id) => id in t.sessions
    case BookingRow(id) => id in t.bookings && Active(t.bookings[id].status)
  }

  function SlotOf(t: Tables, o: RowId): Slot
    requires Occupies(t, o)
  {
    match o
    case SessionRow(id) => t.sessions[id].slot
    case BookingRow(id) => t.bookings[id].slot
  }

  predicate CoveredBy(t: Tables, o: RowId, room: int, date: int, p: int) {
    Occupies(t, o) && Covers(SlotOf(t, o), room, date, p)
  }

  /** The rule the locking protocol exists for: no two occupants of a room
      share a period on one date. */
  ghost predicate NonOverlap(t: Tables) {
    forall o1, o2, room, date, p ::
      CoveredBy(t, o1, room, date, p) && CoveredBy(t, o2, room, date, p) ==> o1 == o2
  }

  /** Rows carry identity keys and handler-validated ranges. */
  ghost predicate WellFormed(t: Tables) {
    && (forall id <- t.sessions :: id > 0 && ValidSlot(t.sessions[id].slot))
    && (forall id <- t.bookings :: id > 0 && ValidSlot(t.bookings[id].slot))
  }

  // -- The conflict check ---------------------------------------------------

  /** `AND id <> exclude` is appended only when exclude > 0. */
  predicate Kept(id: int, exclude: int) {
    exclude > 0 ==> id != exclude
  }

  /** SELECT 1 FROM course_sessions WHERE ... LIMIT 1 returned a row. */
  predicate SessionHit(t: Tables, slot: Slot, exclude: int) {
    exists id :: id in t.sessions && Kept(id, exclude) && Clash(t.sessions[id].slot, slot)
  }

  /** SELECT 1 FROM classroom_bookings WHERE ... LIMIT 1 returned a row. */
  predicate BookingHit(t: Tables, slot: Slot, exclude: int) {
    exists id :: id in t.bookings && Kept(id, exclude)
                 && Active(t.bookings[id].status) && Clash(t.bookings[id].slot, slot)
  }

  /** booking.conflicts: excludes a booking. */
  predicate Conflicts(t: Tables, slot: Slot, excludeBooking: int) {
    SessionHit(t, slot, 0) || BookingHit(t, slot, excludeBooking)
  }

  /** course.sessionConflict: excludes a session. */
  predicate SessionConflict(t: Tables, slot: Slot, excludeSession: int) {
    SessionHit(t, slot, excludeSession) || BookingHit(t, slot, 0)
  }

  // -- What the overlap formula means ---------------------------------------

  lemma ClashMeansSharedPeriod(a: Slot, b: Slot)
    requires ValidSlot(a) && ValidSlot(b)
    ensures Clash(a, b) <==> exists p :: Covers(a, a.room, a.date, p) && Covers(b, a.room, a.date, p)
  {
    if Clash(a, b) {
      var p := if a.ps <= b.ps then b.ps else a.ps;
      assert Covers(a, a.room, a.date, p) && Covers(b, a.room, a.date, p);
    }
  }

  /** Non-overlap in the form the conflict queries use. */
  lemma NonOverlapIffNoClash(t: Tables)
    requires WellFormed(t)
    ensures NonOverlap(t) <==>
            forall o1, o2 :: Occupies(t, o1) && Occupies(t, o2) && o1 != o2 ==> !Clash(SlotOf(t, o1), SlotOf(t, o2))
  {
    if NonOverlap(t) {
      forall o1, o2 | Occupies(t, o1) && Occupies(t, o2) && o1 != o2
        ensures !Clash(SlotOf(t, o1), SlotOf(t, o2))
      {
        var a, b := SlotOf(t, o1), SlotOf(t, o2);
        ClashMeansSharedPeriod(a, b);
        if Clash(a, b) {
          var p :| Covers(a, a.room, a.date, p) && Covers(b, a.room, a.date, p);
          assert CoveredBy(t, o1, a.room, a.date, p) && CoveredBy(t, o2, a.room, a.date, p);
        }
      }
    }
  }

  /** The two-statement check sees exactly the occupants, other than the
      excluded row, that share a period with the slot. */
  lemma ConflictsSeesEveryOccupant(t: Tables, slot: Slot, exclude: int)
    requires WellFormed(t) && ValidSlot(slot)
    ensures Conflicts(t, slot, exclude) <==>
            exists o, p :: (exclude > 0 ==> o != BookingRow(exclude))
                           && CoveredBy(t, o, slot.room, slot.date, p) && slot.ps <= p <= slot.pe
  {
    HitsAreClashes(t, slot, 0, exclude);
    forall o | Occupies(t, o) {
      ClashMeansSharedPeriod(SlotOf(t, o), slot);
    }
    if Conflicts(t, slot, exclude) {
      var o :| Occupies(t, o) && (exclude > 0 ==> o != BookingRow(exclude)) && Clash(SlotOf(t, o), slot);
      var a := SlotOf(t, o);
      var p :| Covers(a, a.room, a.date, p) && Covers(slot, a.room, a.date, p);
      assert CoveredBy(t, o, slot.room, slot.date, p);
    }
    if o, p :| (exclude > 0 ==> o != BookingRow(exclude))
               && CoveredBy(t, o, slot.room, slot.date, p) && slot.ps <= p <= slot.pe {
      var a := SlotOf(t, o);
      assert Covers(a, a.room, a.date, p) && Covers(slot, a.room, a.date, p);
      assert Clash(a, slot);
    }
  }

  lemma HitsAreClashes(t: Tables, slot: Slot, excludeSession: int, excludeBooking: int)
    ensures SessionHit(t, slot, excludeSession) || BookingHit(t, slot, excludeBooking) <==>
            exists o :: Occupies(t, o) && Clash(SlotOf(t, o), slot)
                        && (o.SessionRow? ==> Kept(o.id, excludeSession))
                        && (o.BookingRow? ==> Kept(o.id, excludeBooking))
  {
    if id :| id in t.sessions && Kept(id, excludeSession) && Clash(t.sessions[id].slot, slot) {
      assert Occupies(t, SessionRow(id)) && Clash(SlotOf(t, SessionRow(id)), slot);
    }
    if id :| id in t.bookings && Kept(id, excludeBooking) && Active(t.bookings[id].status) && Clash(t.bookings[id].slot, slot) {
      assert Occupies(t, BookingRow(id)) && Clash(SlotOf(t, BookingRow(id)), slot);
    }
  }
}

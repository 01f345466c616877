/** The views of occupancy besides the grid: the conflict listing of booking/store.go
    and the availability query of classroom/store.go, and the agreement of all four. */
module OccupancyViews {
  import opened Common
  import opened LikePattern
  import opened Occupancy
  import opened Timetable

  // -- ConflictsDetail ------------------------------------------------------

  datatype ConflictItem =
    | SessionItem(ps: int, pe: int)
    | BookingItem(status: Status, ps: int, pe: int)

  /** The rows of the first query of ConflictsDetail: every overlapping session,
      once, ordered by period_start. */
  ghost predicate SelectsSessions(rows: seq<SessionView>, t: Tables, slot: Slot) {
    && Distinct(rows)
    && (forall v :: v in rows <==> v.id in t.sessions && t.sessions[v.id] == v.session && Clash(v.session.slot, slot))
    && forall i, j :: 0 <= i < j < |rows| ==> rows[i].session.slot.ps <= rows[j].session.slot.ps
  }

  ghost predicate SelectsBookings(rows: seq<BookingView>, t: Tables, slot: Slot) {
    && Distinct(rows)
    && (forall v :: v in rows <==> v.id in t.bookings && t.bookings[v.id] == v.booking
                                   && Active(v.booking.status) && Clash(v.booking.slot, slot))
    && forall i, j :: 0 <= i < j < |rows| ==> rows[i].booking.slot.ps <= rows[j].booking.slot.ps
  }

  /** The listing: the rows of the first query, then those of the second. */
  method ConflictsDetail(sessionRows: seq<SessionView>, bookingRows: seq<BookingView>) returns (items: seq<ConflictItem>)
    ensures |items| == |sessionRows| + |bookingRows|
    ensures forall i :: 0 <= i < |sessionRows| ==> items[i] == SessionItem(sessionRows[i].session.slot.ps, sessionRows[i].session.slot.pe)
    ensures forall i :: 0 <= i < |bookingRows| ==>
              var b := bookingRows[i].booking; items[|sessionRows| + i] == BookingItem(b.status, b.slot.ps, b.slot.pe)
  {
    items := [];
    for i := 0 to |sessionRows|
      invariant |items| == i
      invariant forall j :: 0 <= j < i ==> items[j] == SessionItem(sessionRows[j].session.slot.ps, sessionRows[j].session.slot.pe)
    {
      items := items + [SessionItem(sessionRows[i].session.slot.ps, sessionRows[i].session.slot.pe)];
    }
    for i := 0 to |bookingRows|
      invariant |items| == |sessionRows| + i
      invariant forall j :: 0 <= j < |sessionRows| ==> items[j] == SessionItem(sessionRows[j].session.slot.ps, sessionRows[j].session.slot.pe)
      invariant forall j :: 0 <= j < i ==>
                  var b := bookingRows[j].booking; items[|sessionRows| + j] == BookingItem(b.status, b.slot.ps, b.slot.pe)
    {
      items := items + [BookingItem(bookingRows[i].booking.status, bookingRows[i].booking.slot.ps, bookingRows[i].booking.slot.pe)];
    }
  }

  // -- ListAvailable --------------------------------------------------------

  datatype Classroom = Classroom(id: int, building: string, capacity: int, kind: string, available: bool)
  datatype AvailableFilter = AvailableFilter(date: int, ps: int, pe: int, capacityMin: int, building: string, kind: string)

  const DEFAULT_LIST_LIMIT := 200

  /** The two NOT EXISTS of the query. */
  predicate Excluded(t: Tables, room: int, f: AvailableFilter) {
    var slot := Slot(room, f.date, f.ps, f.pe);
    SessionHit(t, slot, 0) || BookingHit(t, slot, 0)
  }

  /** Everything else in its WHERE clause. */
  predicate Suits(c: Classroom, f: AvailableFilter, fold: char -> char) {
    && c.available && c.capacity >= f.capacityMin
    && (f.building != "" ==> Like(Pattern(EscapeLike(f.building)), c.building, fold))
    && (f.kind != "" ==> c.kind == f.kind)
  }

  /** The full answer before LIMIT, ordered by capacity and id. */
  ghost predicate SelectsRooms(rows: seq<Classroom>, rooms: set<Classroom>, t: Tables, f: AvailableFilter, fold: char -> char) {
    && Distinct(rows)
    && (forall c :: c in rows <==> c in rooms && Suits(c, f, fold) && !Excluded(t, c.id, f))
    && forall i, j :: 0 <= i < j < |rows| ==>
         rows[i].capacity < rows[j].capacity || (rows[i].capacity == rows[j].capacity && rows[i].id <= rows[j].id)
  }

  /** Scanning the limited answer: COUNT(*) OVER () repeats the full count on every
      row, so the total survives the limit and is 0 only for an empty answer. */
  method ListAvailable(answer: seq<Classroom>, limit: int) returns (classrooms: seq<Classroom>, total: int)
    ensures var most := if limit < 1 then 200 else limit;
            classrooms == (if |answer| <= most then answer else answer[..most]) && total == |answer|
  {
    var most := if limit < 1 then DEFAULT_LIST_LIMIT else limit;
    classrooms, total := [], 0;
    var i := 0;
    while i < |answer| && i < most
      invariant 0 <= i <= |answer| && i <= most && classrooms == answer[..i]
      invariant total == if i == 0 then 0 else |answer|
    {
      classrooms := classrooms + [answer[i]];
      total := |answer|;
      i := i + 1;
    }
  }

  // -- Four views -----------------------------------------------------------

  ghost predicate InRegime(r: Regime, slot: Slot) {
    forall p :: slot.ps <= p <= slot.pe ==> HasPeriod(r, p)
  }

  ghost predicate GridFree(day: TimetableDay, slot: Slot) {
    forall s <- day.slots :: slot.ps <= s.periodIndex <= slot.pe ==> Free(s)
  }

  lemma GridFreeIffUncovered(t: Tables, slot: Slot, r: Regime, sessions: seq<SessionView>, bookings: seq<BookingView>,
                             from: int, upTo: int, day: TimetableDay)
    requires slot.room > 0 && from <= slot.date <= upTo && InRegime(r, slot)
    requires ListsSessions(sessions, t, slot.room, from, upTo) && ListsActiveBookings(bookings, t, slot.room, from, upTo)
    requires ShowsDay(day, Some(r), sessions, bookings, slot.date)
    ensures GridFree(day, slot) <==> forall o, p :: slot.ps <= p <= slot.pe ==> !CoveredBy(t, o, slot.room, slot.date, p)
  {
    DaySlotsAreSlotAts(day, r, sessions, bookings, slot.date);
    forall p: Period {
      SlotFreeIffUncovered(t, sessions, bookings, slot.room, from, upTo, slot.date, p);
    }
    if GridFree(day, slot) {
      forall o, p | slot.ps <= p <= slot.pe ensures !CoveredBy(t, o, slot.room, slot.date, p) {
        assert HasPeriod(r, p);
        var i :| 0 <= i < |r.periods| && r.periods[i].index == p;
        assert SlotAt(sessions, bookings, slot.date, r.periods[i]) in day.slots;
      }
    }
    if forall o, p :: slot.ps <= p <= slot.pe ==> !CoveredBy(t, o, slot.room, slot.date, p) {
      forall s | s in day.slots && slot.ps <= s.periodIndex <= slot.pe ensures Free(s) {
        var i :| 0 <= i < |r.periods| && s == SlotAt(sessions, bookings, slot.date, r.periods[i]);
        assert forall o :: !CoveredBy(t, o, slot.room, slot.date, r.periods[i].index);
      }
    }
  }

  /** The enforcement check, the conflict listing, the availability query and the
      timetable grid always agree on whether a range of a room is free. */
  lemma FourViewsAgree(t: Tables, slot: Slot, r: Regime, sessions: seq<SessionView>, bookings: seq<BookingView>,
                       from: int, upTo: int, day: TimetableDay, sessionRows: seq<SessionView>, bookingRows: seq<BookingView>,
                       c: Classroom, rooms: set<Classroom>, f: AvailableFilter, fold: char -> char, answer: seq<Classroom>)
    requires WellFormed(t) && ValidSlot(slot) && slot.room > 0 && from <= slot.date <= upTo && InRegime(r, slot)
    requires ListsSessions(sessions, t, slot.room, from, upTo) && ListsActiveBookings(bookings, t, slot.room, from, upTo)
    requires ShowsDay(day, Some(r), sessions, bookings, slot.date)
    requires SelectsSessions(sessionRows, t, slot) && SelectsBookings(bookingRows, t, slot)
    requires c in rooms && c.id == slot.room && Suits(c, f, fold) && (f.date, f.ps, f.pe) == (slot.date, slot.ps, slot.pe)
    requires SelectsRooms(answer, rooms, t, f, fold)
    ensures !Conflicts(t, slot, 0) <==> |sessionRows| + |bookingRows| == 0
    ensures !Conflicts(t, slot, 0) <==> c in answer
    ensures !Conflicts(t, slot, 0) <==> GridFree(day, slot)
    ensures !Conflicts(t, slot, 0) <==> !SessionConflict(t, slot, 0)
  {
    DetailEmptyIffNoConflict(t, slot, sessionRows, bookingRows);
    GridFreeIffUncovered(t, slot, r, sessions, bookings, from, upTo, day);
    ConflictsSeesEveryOccupant(t, slot, 0);
  }

  lemma DetailEmptyIffNoConflict(t: Tables, slot: Slot, sessionRows: seq<SessionView>, bookingRows: seq<BookingView>)
    requires SelectsSessions(sessionRows, t, slot) && SelectsBookings(bookingRows, t, slot)
    ensures !Conflicts(t, slot, 0) <==> |sessionRows| + |bookingRows| == 0
  {
    if |sessionRows| > 0 { assert sessionRows[0] in sessionRows && Kept(sessionRows[0].id, 0); }
    if |bookingRows| > 0 { assert bookingRows[0] in bookingRows && Kept(bookingRows[0].id, 0); }
    if id :| id in t.sessions && Kept(id, 0) && Clash(t.sessions[id].slot, slot) {
      assert SessionView(id, t.sessions[id]) in sessionRows;
    }
    if id :| id in t.bookings && Kept(id, 0) && Active(t.bookings[id].status) && Clash(t.bookings[id].slot, slot) {
      assert BookingView(id, t.bookings[id]) in bookingRows;
    }
  }
}

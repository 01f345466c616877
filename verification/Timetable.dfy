/** The timetable grid of course/sessions.go, read from the tables the protocol
    protects.

    Query answers enter as sequences constrained to be what the query selects. */
module Timetable {
  import opened Common
  import opened Occupancy

  datatype SessionView = SessionView(id: int, session: Session)
  datatype BookingView = BookingView(id: int, booking: Booking)

  datatype Period = Period(index: int, startTime: string, endTime: string)
  datatype Regime = Regime(name: string, periods: seq<Period>)

  datatype TimetableSlot = TimetableSlot(periodIndex: int, startTime: string, endTime: string,
                                         session: Option<SessionView>, booking: Option<BookingView>)
  datatype TimetableDay = TimetableDay(date: int, regimeName: string, slots: seq<TimetableSlot>)

  // -- The two list queries behind the grid ---------------------------------

  /** ListSessions filters by room only when classroomID > 0. */
  predicate Listed(slot: Slot, room: int, from: int, upTo: int) {
    (room > 0 ==> slot.room == room) && from <= slot.date <= upTo
  }

  ghost predicate ListsSessions(list: seq<SessionView>, t: Tables, room: int, from: int, upTo: int) {
    forall v :: v in list <==> v.id in t.sessions && t.sessions[v.id] == v.session && Listed(v.session.slot, room, from, upTo)
  }

  ghost predicate ListsActiveBookings(list: seq<BookingView>, t: Tables, room: int, from: int, upTo: int) {
    forall v :: v in list <==> v.id in t.bookings && t.bookings[v.id] == v.booking && Active(v.booking.status)
                               && v.booking.slot.room == room && from <= v.booking.slot.date <= upTo
  }

  // -- Which record a period shows ------------------------------------------

  predicate OnPeriod(s: Slot, date: int, p: int) {
    s.date == date && s.ps <= p <= s.pe
  }

  /** Filling slots in list order leaves the last record that covers the period. */
  function LastCover<V>(list: seq<V>, slotOf: V -> Slot, date: int, p: int): Option<V> {
    if list == [] then None
    else if OnPeriod(slotOf(list[|list| - 1]), date, p) then Some(list[|list| - 1])
    else LastCover(list[..|list| - 1], slotOf, date, p)
  }

  lemma {:induction false} LastCoverCovers<V>(list: seq<V>, slotOf: V -> Slot, date: int, p: int)
    ensures match LastCover(list, slotOf, date, p)
            case Some(v) => v in list && OnPeriod(slotOf(v), date, p)
            case None => forall v <- list :: !OnPeriod(slotOf(v), date, p)
  {
    if list != [] {
      var init, last := list[..|list| - 1], list[|list| - 1];
      assert list == init + [last];
      LastCoverCovers(init, slotOf, date, p);
    }
  }

  /** It is the last one listed that covers the period. */
  lemma {:induction false} LastCoverIsLast<V>(list: seq<V>, slotOf: V -> Slot, date: int, p: int) returns (i: nat)
    requires LastCover(list, slotOf, date, p).Some?
    ensures i < |list| && LastCover(list, slotOf, date, p).value == list[i]
    ensures slotOf(list[i]).date == date && slotOf(list[i]).ps <= p <= slotOf(list[i]).pe
    ensures forall j :: i < j < |list| ==> !(slotOf(list[j]).date == date && slotOf(list[j]).ps <= p <= slotOf(list[j]).pe)
  {
    var n := |list| - 1;
    if OnPeriod(slotOf(list[n]), date, p) { i := n; } else { i := LastCoverIsLast(list[..n], slotOf, date, p); }
  }

  function SessionSlot(v: SessionView): Slot { v.session.slot }
  function BookingSlot(v: BookingView): Slot { v.booking.slot }

  function LastSession(list: seq<SessionView>, date: int, p: int): Option<SessionView> {
    LastCover(list, SessionSlot, date, p)
  }

  function LastBooking(list: seq<BookingView>, date: int, p: int): Option<BookingView> {
    LastCover(list, BookingSlot, date, p)
  }

  function Lookup<V>(byDate: map<int, map<int, V>>, date: int, p: int): Option<V> {
    if date in byDate && p in byDate[date] then Some(byDate[date][p]) else None
  }

  /** The loop that files sessions by date and period, and the one for bookings. */
  method FillByDate<V>(list: seq<V>, slotOf: V -> Slot) returns (byDate: map<int, map<int, V>>)
    ensures forall date, p :: Lookup(byDate, date, p) == LastCover(list, slotOf, date, p)
  {
    byDate := map[];
    for i := 0 to |list|
      invariant forall date, p :: Lookup(byDate, date, p) == LastCover(list[..i], slotOf, date, p)
    {
      var v := list[i];
      var s := slotOf(v);
      ghost var before := byDate;
      var m := if s.date in byDate then byDate[s.date] else map[];
      ghost var m0 := m;
      var p := s.ps;
      while p <= s.pe
        invariant s.ps <= p && (p <= s.pe + 1 || p == s.ps)
        invariant forall q :: q in m <==> q in m0 || (s.ps <= q < p && q <= s.pe)
        invariant forall q <- m :: m[q] == if s.ps <= q < p then v else m0[q]
        decreases s.pe - p
      {
        m := m[p := v];
        p := p + 1;
      }
      byDate := byDate[s.date := m];
      assert list[..i + 1][..i] == list[..i];
      forall date, q ensures Lookup(byDate, date, q) == LastCover(list[..i + 1], slotOf, date, q) {
        assert Lookup(before, date, q) == LastCover(list[..i], slotOf, date, q);
      }
    }
    assert list[..|list|] == list;
  }

  // -- The grid -------------------------------------------------------------

  /** Sessions take precedence over bookings. */
  function SlotAt(sessions: seq<SessionView>, bookings: seq<BookingView>, date: int, p: Period): TimetableSlot {
    var ses := LastSession(sessions, date, p.index);
    TimetableSlot(p.index, p.startTime, p.endTime, ses, if ses.Some? then None else LastBooking(bookings, date, p.index))
  }

  function SlotsAt(sessions: seq<SessionView>, bookings: seq<BookingView>, date: int, ps: seq<Period>): seq<TimetableSlot> {
    seq(|ps|, i requires 0 <= i < |ps| => SlotAt(sessions, bookings, date, ps[i]))
  }

  predicate SortedSlots(s: seq<TimetableSlot>) {
    forall i, j :: 0 <= i < j < |s| ==> s[i].periodIndex <= s[j].periodIndex
  }

  predicate StrictlySorted(s: seq<TimetableSlot>) {
    forall i, j :: 0 <= i < j < |s| ==> s[i].periodIndex < s[j].periodIndex
  }

  predicate DistinctIndices(s: seq<TimetableSlot>) {
    forall i, j :: 0 <= i < j < |s| ==> s[i].periodIndex != s[j].periodIndex
  }

  /** sort.Slice by period index. */
  function SortSlots(s: seq<TimetableSlot>): seq<TimetableSlot> {
    if s == [] then [] else InsertSlot(SortSlots(s[1..]), s[0])
  }

  function InsertSlot(s: seq<TimetableSlot>, x: TimetableSlot): seq<TimetableSlot> {
    var k := InsertPosition(s, x);
    s[..k] + [x] + s[k..]
  }

  function InsertPosition(s: seq<TimetableSlot>, x: TimetableSlot): (k: nat)
    ensures k <= |s|
    ensures SortedSlots(s) ==> forall i :: 0 <= i < k ==> s[i].periodIndex < x.periodIndex
    ensures SortedSlots(s) ==> forall i :: k <= i < |s| ==> x.periodIndex <= s[i].periodIndex
  {
    if s == [] || x.periodIndex <= s[0].periodIndex then 0 else 1 + InsertPosition(s[1..], x)
  }

  lemma InsertKeepsElements(s: seq<TimetableSlot>, x: TimetableSlot)
    ensures multiset(InsertSlot(s, x)) == multiset(s) + multiset{x}
  {
    var k := InsertPosition(s, x);
    assert s == s[..k] + s[k..];
  }

  lemma InsertKeepsOrder(s: seq<TimetableSlot>, x: TimetableSlot)
    requires SortedSlots(s)
    ensures SortedSlots(InsertSlot(s, x))
    ensures StrictlySorted(s) && (forall i :: 0 <= i < |s| ==> s[i].periodIndex != x.periodIndex) ==> StrictlySorted(InsertSlot(s, x))
  {
    var k, r := InsertPosition(s, x), InsertSlot(s, x);
    forall i, j | 0 <= i < j < |r| ensures r[i].periodIndex <= r[j].periodIndex {
      InsertedAt(s, x, i);
      InsertedAt(s, x, j);
    }
    if StrictlySorted(s) && forall i :: 0 <= i < |s| ==> s[i].periodIndex != x.periodIndex {
      forall i, j | 0 <= i < j < |r| ensures r[i].periodIndex < r[j].periodIndex {
        InsertedAt(s, x, i);
        InsertedAt(s, x, j);
      }
    }
  }

  lemma InsertedAt(s: seq<TimetableSlot>, x: TimetableSlot, i: nat)
    requires i <= |s|
    ensures |InsertSlot(s, x)| == |s| + 1
    ensures var k := InsertPosition(s, x);
            InsertSlot(s, x)[i] == if i < k then s[i] else if i == k then x else s[i - 1]
  {
  }

  lemma {:induction false} SortingKeepsElements(s: seq<TimetableSlot>)
    ensures multiset(SortSlots(s)) == multiset(s)
    ensures forall x :: x in SortSlots(s) <==> x in s
  {
    if s != [] {
      SortingKeepsElements(s[1..]);
      InsertKeepsElements(SortSlots(s[1..]), s[0]);
      assert s == [s[0]] + s[1..];
    }
    forall x ensures x in SortSlots(s) <==> x in s {
      assert x in SortSlots(s) <==> x in multiset(SortSlots(s));
      assert x in s <==> x in multiset(s);
    }
  }

  lemma {:induction false} SortingSorts(s: seq<TimetableSlot>)
    ensures SortedSlots(SortSlots(s))
    ensures DistinctIndices(s) ==> StrictlySorted(SortSlots(s))
  {
    if s != [] {
      SortingSorts(s[1..]);
      InsertKeepsOrder(SortSlots(s[1..]), s[0]);
      SortingKeepsElements(s[1..]);
      var r := SortSlots(s[1..]);
      forall i | 0 <= i < |r| && DistinctIndices(s) ensures r[i].periodIndex != s[0].periodIndex {
        assert r[i] in s[1..];
      }
    }
  }

  /** What one day of the timetable must show: the day's own date, and each period
      of the active regime once, in order, with its record. */
  ghost predicate ShowsDay(day: TimetableDay, active: Option<Regime>, sessions: seq<SessionView>, bookings: seq<BookingView>, date: int) {
    && day.date == date
    && match active
       case None => day.slots == [] && day.regimeName == ""
       case Some(r) =>
         && day.regimeName == r.name
         && multiset(day.slots) == multiset(SlotsAt(sessions, bookings, date, r.periods)) && SortedSlots(day.slots)
         && (DistinctIndices(SlotsAt(sessions, bookings, date, r.periods)) ==> StrictlySorted(day.slots))
  }

  ghost predicate ShowsDays(days: seq<TimetableDay>, active: int -> Option<Regime>, sessions: seq<SessionView>,
                            bookings: seq<BookingView>, from: int, upTo: int)
  {
    && |days| == (if from <= upTo then upTo - from + 1 else 0)
    && forall i :: 0 <= i < |days| ==> ShowsDay(days[i], active(from + i), sessions, bookings, from + i)
  }

  /** The inner loop: one slot per period of the active regime. */
  method BuildSlots(byDate: map<int, map<int, SessionView>>, bookingsByDate: map<int, map<int, BookingView>>,
                    d: int, periods: seq<Period>, ghost sessions: seq<SessionView>, ghost bookings: seq<BookingView>)
    returns (slots: seq<TimetableSlot>)
    requires forall date, p :: Lookup(byDate, date, p) == LastSession(sessions, date, p)
    requires forall date, p :: Lookup(bookingsByDate, date, p) == LastBooking(bookings, date, p)
    ensures slots == SlotsAt(sessions, bookings, d, periods)
  {
    slots := [];
    for i := 0 to |periods|
      invariant |slots| == i
      invariant forall j :: 0 <= j < i ==> slots[j] == SlotAt(sessions, bookings, d, periods[j])
    {
      var p := periods[i];
      var slot := TimetableSlot(p.index, p.startTime, p.endTime, None, None);
      assert Lookup(byDate, d, p.index) == LastSession(sessions, d, p.index);
      assert Lookup(bookingsByDate, d, p.index) == LastBooking(bookings, d, p.index);
      if d in byDate && p.index in byDate[d] {
        slot := slot.(session := Some(byDate[d][p.index]));
      } else if d in bookingsByDate && p.index in bookingsByDate[d] {
        slot := slot.(booking := Some(bookingsByDate[d][p.index]));
      }
      slots := slots + [slot];
    }
  }

  method BuildDay(byDate: map<int, map<int, SessionView>>, bookingsByDate: map<int, map<int, BookingView>>,
                  d: int, regime: Option<Regime>, ghost sessions: seq<SessionView>, ghost bookings: seq<BookingView>)
    returns (day: TimetableDay)
    requires forall date, p :: Lookup(byDate, date, p) == LastSession(sessions, date, p)
    requires forall date, p :: Lookup(bookingsByDate, date, p) == LastBooking(bookings, date, p)
    ensures ShowsDay(day, regime, sessions, bookings, d)
  {
    day := TimetableDay(d, "", []);
    if regime.Some? {
      var slots := BuildSlots(byDate, bookingsByDate, d, regime.value.periods, sessions, bookings);
      SortingKeepsElements(slots);
      SortingSorts(slots);
      day := TimetableDay(d, regime.value.name, SortSlots(slots));
    }
  }

  method BuildTimetableDays(active: int -> Option<Regime>, sessions: seq<SessionView>, bookings: seq<BookingView>,
                            from: int, upTo: int)
    returns (days: seq<TimetableDay>)
    ensures ShowsDays(days, active, sessions, bookings, from, upTo)
  {
    var byDate := FillByDate(sessions, SessionSlot);
    var bookingsByDate := FillByDate(bookings, BookingSlot);
    days := [];
    var d := from;
    while d <= upTo
      invariant from <= d && (d <= upTo + 1 || d == from) && |days| == d - from
      invariant forall i :: 0 <= i < |days| ==> ShowsDay(days[i], active(from + i), sessions, bookings, from + i)
      decreases upTo - d
    {
      var day := BuildDay(byDate, bookingsByDate, d, active(d), sessions, bookings);
      days := days + [day];
      d := d + 1;
    }
  }

  /** A day has one slot per period of its regime, and the slot of a period carries its
      index and times, the session that covers it, and a booking only without one. */
  lemma DayShowsPeriods(day: TimetableDay, r: Regime, sessions: seq<SessionView>, bookings: seq<BookingView>, date: int, k: nat)
    requires ShowsDay(day, Some(r), sessions, bookings, date) && k < |r.periods|
    ensures day.date == date && day.regimeName == r.name && |day.slots| == |r.periods|
    ensures var p := r.periods[k];
            exists s <- day.slots ::
              && s.periodIndex == p.index && s.startTime == p.startTime && s.endTime == p.endTime
              && s.session == LastSession(sessions, date, p.index)
              && s.booking == if s.session.Some? then None else LastBooking(bookings, date, p.index)
  {
    var all := SlotsAt(sessions, bookings, date, r.periods);
    var s := SlotAt(sessions, bookings, date, r.periods[k]);
    assert |multiset(day.slots)| == |day.slots| && |multiset(all)| == |all|;
    assert all[k] == s && s in all && s in multiset(all) && s in day.slots;
  }

  // -- The grid against the tables ------------------------------------------

  /** A session is shown on a period exactly if it covers it, whatever order the
      list came in. */
  lemma SessionShownIffCovering(t: Tables, sessions: seq<SessionView>, room: int, from: int, upTo: int, date: int, p: int)
    requires NonOverlap(t) && room > 0 && from <= date <= upTo
    requires ListsSessions(sessions, t, room, from, upTo)
    ensures forall id :: CoveredBy(t, SessionRow(id), room, date, p) ==> LastSession(sessions, date, p) == Some(SessionView(id, t.sessions[id]))
    ensures LastSession(sessions, date, p).Some? ==> CoveredBy(t, SessionRow(LastSession(sessions, date, p).value.id), room, date, p)
  {
    LastCoverCovers(sessions, SessionSlot, date, p);
    forall id | CoveredBy(t, SessionRow(id), room, date, p)
      ensures LastSession(sessions, date, p) == Some(SessionView(id, t.sessions[id]))
    {
      assert SessionView(id, t.sessions[id]) in sessions;
      var v := LastSession(sessions, date, p).value;
      assert CoveredBy(t, SessionRow(v.id), room, date, p);
    }
  }

  lemma BookingShownIffCovering(t: Tables, bookings: seq<BookingView>, room: int, from: int, upTo: int, date: int, p: int)
    requires NonOverlap(t) && from <= date <= upTo
    requires ListsActiveBookings(bookings, t, room, from, upTo)
    ensures forall id :: CoveredBy(t, BookingRow(id), room, date, p) ==> LastBooking(bookings, date, p) == Some(BookingView(id, t.bookings[id]))
    ensures LastBooking(bookings, date, p).Some? ==> CoveredBy(t, BookingRow(LastBooking(bookings, date, p).value.id), room, date, p)
  {
    LastCoverCovers(bookings, BookingSlot, date, p);
    forall id | CoveredBy(t, BookingRow(id), room, date, p)
      ensures LastBooking(bookings, date, p) == Some(BookingView(id, t.bookings[id]))
    {
      assert BookingView(id, t.bookings[id]) in bookings;
      var v := LastBooking(bookings, date, p).value;
      assert CoveredBy(t, BookingRow(v.id), room, date, p);
    }
  }

  /** The occupant a slot displays, if any. */
  function Shown(s: TimetableSlot): Option<RowId> {
    if s.session.Some? then Some(SessionRow(s.session.value.id))
    else if s.booking.Some? then Some(BookingRow(s.booking.value.id))
    else None
  }

  predicate Free(s: TimetableSlot) {
    s.session.None? && s.booking.None?
  }

  /** Under non-overlap each slot of the grid shows the unique occupant of its
      period, and is free exactly if there is none. */
  lemma SlotShowsTheOccupant(t: Tables, sessions: seq<SessionView>, bookings: seq<BookingView>, room: int,
                             from: int, upTo: int, date: int, p: Period)
    requires NonOverlap(t) && room > 0 && from <= date <= upTo
    requires ListsSessions(sessions, t, room, from, upTo) && ListsActiveBookings(bookings, t, room, from, upTo)
    ensures forall o :: Shown(SlotAt(sessions, bookings, date, p)) == Some(o) <==> CoveredBy(t, o, room, date, p.index)
  {
    SessionShownIffCovering(t, sessions, room, from, upTo, date, p.index);
    BookingShownIffCovering(t, bookings, room, from, upTo, date, p.index);
    var slot := SlotAt(sessions, bookings, date, p);
    forall o ensures Shown(slot) == Some(o) <==> CoveredBy(t, o, room, date, p.index) {
      if CoveredBy(t, o, room, date, p.index) && o.BookingRow? && slot.session.Some? {
        assert false;
      }
    }
  }

  /** Without any assumption on overlaps a slot is free exactly if nothing covers it. */
  lemma SlotFreeIffUncovered(t: Tables, sessions: seq<SessionView>, bookings: seq<BookingView>, room: int,
                             from: int, upTo: int, date: int, p: Period)
    requires room > 0 && from <= date <= upTo
    requires ListsSessions(sessions, t, room, from, upTo) && ListsActiveBookings(bookings, t, room, from, upTo)
    ensures Free(SlotAt(sessions, bookings, date, p)) <==> forall o :: !CoveredBy(t, o, room, date, p.index)
  {
    LastCoverCovers(sessions, SessionSlot, date, p.index);
    LastCoverCovers(bookings, BookingSlot, date, p.index);
    var slot := SlotAt(sessions, bookings, date, p);
    if slot.session.Some? { assert CoveredBy(t, SessionRow(slot.session.value.id), room, date, p.index); }
    if slot.booking.Some? { assert CoveredBy(t, BookingRow(slot.booking.value.id), room, date, p.index); }
    if o :| CoveredBy(t, o, room, date, p.index) {
      if o.SessionRow? {
        assert SessionView(o.id, t.sessions[o.id]) in sessions;
      } else {
        assert BookingView(o.id, t.bookings[o.id]) in bookings;
      }
    }
  }

  predicate HasPeriod(r: Regime, p: int) {
    exists i :: 0 <= i < |r.periods| && r.periods[i].index == p
  }

  lemma DaySlotsAreSlotAts(day: TimetableDay, r: Regime, sessions: seq<SessionView>, bookings: seq<BookingView>, date: int)
    requires ShowsDay(day, Some(r), sessions, bookings, date)
    ensures forall s :: s in day.slots <==> exists i :: 0 <= i < |r.periods| && s == SlotAt(sessions, bookings, date, r.periods[i])
  {
    var all := SlotsAt(sessions, bookings, date, r.periods);
    forall s ensures s in day.slots <==> exists i :: 0 <= i < |r.periods| && s == SlotAt(sessions, bookings, date, r.periods[i]) {
      assert s in day.slots <==> s in multiset(day.slots);
      assert s in all <==> s in multiset(all);
      if s in all {
        var i :| 0 <= i < |all| && all[i] == s;
        assert s == SlotAt(sessions, bookings, date, r.periods[i]);
      }
      if i :| 0 <= i < |r.periods| && s == SlotAt(sessions, bookings, date, r.periods[i]) {
        assert all[i] == s;
      }
    }
  }
}

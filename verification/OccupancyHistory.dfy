/** What happens to bookings over a run: they only age, an approval is refused only
    for a booking that died, and acknowledged requests own what they asked for. */
module OccupancyHistory {
  import opened Occupancy
  import opened OccupancyInvariant
  import opened OccupancyProtocol
  import opened OccupancyProgress

  // -- History --------------------------------------------------------------

  /** Bookings never vanish or move, a cancelled or rejected one never revives, and an
      approved one can only be cancelled. */
  ghost predicate BookingsOnlyAge(t1: Tables, t2: Tables) {
    forall id <- t1.bookings ::
      && id in t2.bookings
      && t2.bookings[id].slot == t1.bookings[id].slot && t2.bookings[id].user == t1.bookings[id].user
      && (!Active(t1.bookings[id].status) ==> t2.bookings[id].status == t1.bookings[id].status)
      && (t1.bookings[id].status == Approved ==> t2.bookings[id].status == Approved || t2.bookings[id].status == Cancelled)
  }

  lemma BeginOnlyAgesBookings(s: State, i: nat)
    requires i < |s.txs| && s.txs[i].pc.Start?
    ensures BookingsOnlyAge(s.tables, Begin(s, i).tables)
  {
  }

  lemma UpdateOnlyAgesBookings(s: State, i: nat)
    requires i < |s.txs| && (s.txs[i].op.Cancel? || s.txs[i].op.Reject?)
    ensures BookingsOnlyAge(s.tables, UpdateStatusNow(s, i).tables)
  {
  }

  lemma CommitOnlyAgesBookings(s: State, i: nat, outcome: Outcome)
    requires i < |s.txs| && s.txs[i].pc.Written? && TxInv(s, s.txs[i])
    ensures BookingsOnlyAge(s.tables, Commit(s, i, outcome).tables)
  {
  }

  lemma EventOnlyAgesBookings(s: State, e: Event)
    requires Inv(s) && CanHappen(s, e)
    ensures BookingsOnlyAge(s.tables, Apply(s, e).tables)
  {
    var i := e.tx;
    assert TxInv(s, s.txs[i]);
    match s.txs[i].pc
    case Start => BeginOnlyAgesBookings(s, i);
    case FastRead(_) => if s.txs[i].op.Cancel? || s.txs[i].op.Reject? { UpdateOnlyAgesBookings(s, i); }
    case Written(_, w) =>
      CommitOnlyAgesBookings(s, i, Failed);
      CommitOnlyAgesBookings(s, i, OutcomeOf(w));
    case _ =>
  }

  lemma {:induction false} DeadBookingsStayDead(s: State, es: seq<Event>)
    requires Inv(s) && ValidRun(s, es)
    ensures BookingsOnlyAge(s.tables, Run(s, es).tables)
    decreases |es|
  {
    if es != [] {
      EventOnlyAgesBookings(s, es[0]);
      EventKeepsInv(s, es[0]);
      DeadBookingsStayDead(Apply(s, es[0]), es[1..]);
    }
  }

  // -- The approving re-check -----------------------------------------------

  /** An active booking has, by non-overlap, nothing but itself in its slot. */
  lemma ActiveBookingHasNoConflict(t: Tables, id: int)
    requires WellFormed(t) && NonOverlap(t) && id in t.bookings && Active(t.bookings[id].status)
    ensures !SessionHit(t, t.bookings[id].slot, 0) && !BookingHit(t, t.bookings[id].slot, id)
  {
    NonOverlapIffNoClash(t);
    var slot := t.bookings[id].slot;
    assert Occupies(t, BookingRow(id));
    if x :| x in t.sessions && Clash(t.sessions[x].slot, slot) {
      assert Occupies(t, SessionRow(x));
    }
    if x :| x in t.bookings && Kept(x, id) && Active(t.bookings[x].status) && Clash(t.bookings[x].slot, slot) {
      assert Occupies(t, BookingRow(x));
    }
  }

  /** Approve, which takes no room lock, reports a conflict only if its own booking is
      dead at that moment. */
  lemma ApproveConflictMeansBookingDied(s: State, i: nat)
    requires Inv(s) && i < |s.txs| && s.txs[i].op.Approve? && Enabled(s, i)
    requires Exec(s, i).txs[i].pc == Done(Conflict)
    ensures s.txs[i].op.id in s.tables.bookings && !Active(s.tables.bookings[s.txs[i].op.id].status)
    ensures s.txs[i].pc.FastRead? ==> s.txs[i].pc.seen.status == Pending
  {
    var id := s.txs[i].op.id;
    assert TxInv(s, s.txs[i]);
    if id in s.tables.bookings && Active(s.tables.bookings[id].status) {
      ActiveBookingHasNoConflict(s.tables, id);
    }
  }

  lemma {:induction false} DoneStays(s: State, es: seq<Event>, i: nat)
    requires ValidRun(s, es) && i < |s.txs| && s.txs[i].pc.Done?
    ensures i < |Run(s, es).txs| && Run(s, es).txs[i] == s.txs[i]
    decreases |es|
  {
    if es != [] {
      EventMovesOn(s, es[0]);
      DoneStays(Apply(s, es[0]), es[1..], i);
    }
  }

  /** The state after the first n events. */
  ghost function StateAt(s: State, es: seq<Event>, n: nat): State
    requires ValidRun(s, es) && n <= |es|
    decreases |es|
  {
    if n == 0 then s else StateAt(Apply(s, es[0]), es[1..], n - 1)
  }

  lemma {:induction false} StateAtIsRun(s: State, es: seq<Event>, n: nat)
    requires ValidRun(s, es) && n <= |es|
    ensures ValidRun(s, es[..n]) && StateAt(s, es, n) == Run(s, es[..n])
    decreases |es|
  {
    if n > 0 {
      StateAtIsRun(Apply(s, es[0]), es[1..], n - 1);
      assert es[..n][1..] == es[1..][..n - 1];
    }
  }

  /** Event m is the statement with which transaction i answers Conflict, and at that
      moment the booking it is about is dead. */
  ghost predicate ReportsConflict(s: State, es: seq<Event>, m: nat, i: nat, id: int)
    requires ValidRun(s, es)
  {
    && m < |es| && es[m] == Statement(i)
    && i < |StateAt(s, es, m).txs| && !StateAt(s, es, m).txs[i].pc.Done?
    && i < |StateAt(s, es, m + 1).txs| && StateAt(s, es, m + 1).txs[i].pc == Done(Conflict)
    && BookingIsDead(StateAt(s, es, m).tables, id)
  }

  lemma ConflictIsAStatement(s: State, e: Event, i: nat)
    requires Inv(s) && CanHappen(s, e) && i < |s.txs| && s.txs[i].op.Approve? && !s.txs[i].pc.Start? && !s.txs[i].pc.Done?
    requires i < |Apply(s, e).txs| && Apply(s, e).txs[i].pc == Done(Conflict)
    ensures e == Statement(i) && BookingIsDead(s.tables, s.txs[i].op.id)
  {
    EventMovesOn(s, e);
    ApproveConflictMeansBookingDied(s, i);
  }

  /** An approve on its way that ends in a conflict reports it once, of a dead booking. */
  lemma {:induction false} ConflictAfterRead(s: State, es: seq<Event>, i: nat) returns (m: nat)
    requires Inv(s) && ValidRun(s, es) && i < |s.txs| && i < |Run(s, es).txs|
    requires s.txs[i].op.Approve? && !s.txs[i].pc.Start? && !s.txs[i].pc.Done? && Run(s, es).txs[i].pc == Done(Conflict)
    ensures ReportsConflict(s, es, m, i, s.txs[i].op.id)
    decreases |es|
  {
    var s2 := Apply(s, es[0]);
    EventKeepsInv(s, es[0]);
    EventMovesOn(s, es[0]);
    if s2.txs[i].pc.Done? {
      DoneStays(s2, es[1..], i);
      ConflictIsAStatement(s, es[0], i);
      m := 0;
      assert StateAt(s, es, 1) == StateAt(s2, es[1..], 0) == s2;
    } else {
      m := ConflictAfterRead(s2, es[1..], i);
      ReportsLater(s, es, m, i, s.txs[i].op.id);
      m := m + 1;
    }
  }

  lemma ReportsLater(s: State, es: seq<Event>, m: nat, i: nat, id: int)
    requires ValidRun(s, es) && es != [] && ReportsConflict(Apply(s, es[0]), es[1..], m, i, id)
    ensures ReportsConflict(s, es, m + 1, i, id)
  {
    assert es[1..][m] == es[m + 1];
  }

  predicate BookingIsDead(t: Tables, id: int) {
    id in t.bookings && !Active(t.bookings[id].status)
  }

  predicate BookingIsPending(t: Tables, id: int) {
    id in t.bookings && t.bookings[id].status == Pending
  }

  /** The first statement of an approve that goes on saw its booking pending. */
  lemma ApproveReadsPending(s: State, e: Event, i: nat)
    requires CanHappen(s, e) && i < |s.txs| && s.txs[i].op.Approve? && s.txs[i].pc.Start?
    ensures i < |Apply(s, e).txs|
    ensures var pc := Apply(s, e).txs[i].pc;
            if e.tx != i then pc.Start?
            else (pc.Done? && pc.outcome != Conflict)
                 || (e == Statement(i) && pc.FastRead? && BookingIsPending(s.tables, s.txs[i].op.id))
  {
    EventMovesOn(s, e);
  }

  /** Event k is the first of transaction i, a statement that reads its booking as
      pending. */
  ghost predicate ReadsPending(s: State, es: seq<Event>, k: nat, i: nat, id: int)
    requires ValidRun(s, es)
  {
    && k < |es| && es[k] == Statement(i) && (forall j :: 0 <= j < k ==> es[j].tx != i)
    && BookingIsPending(StateAt(s, es, k).tables, id)
  }

  lemma ReadsLater(s: State, es: seq<Event>, k: nat, i: nat, id: int)
    requires ValidRun(s, es) && es != [] && es[0].tx != i && ReadsPending(Apply(s, es[0]), es[1..], k, i, id)
    ensures ReadsPending(s, es, k + 1, i, id)
  {
    forall j | 0 <= j < k + 1 ensures es[j].tx != i {
      if j > 0 { assert es[1..][j - 1] == es[j]; }
    }
  }

  /** In every run an approve that ends in a conflict has read its booking as pending in
      its first statement k, and reports the conflict in a later statement m, when the
      booking is cancelled or rejected. */
  lemma {:induction false} ConflictMeansItDiedInBetween(s: State, es: seq<Event>, i: nat) returns (k: nat, m: nat)
    requires Inv(s) && ValidRun(s, es) && i < |s.txs| && i < |Run(s, es).txs|
    requires s.txs[i].op.Approve? && s.txs[i].pc.Start? && Run(s, es).txs[i].pc == Done(Conflict)
    ensures k < m && ReadsPending(s, es, k, i, s.txs[i].op.id) && ReportsConflict(s, es, m, i, s.txs[i].op.id)
    decreases |es|
  {
    var s2, id := Apply(s, es[0]), s.txs[i].op.id;
    EventKeepsInv(s, es[0]);
    EventMovesOn(s, es[0]);
    ApproveReadsPending(s, es[0], i);
    if es[0].tx == i {
      if s2.txs[i].pc.Done? { DoneStays(s2, es[1..], i); }
      k := 0;
      m := ConflictAfterRead(s2, es[1..], i);
    } else {
      k, m := ConflictMeansItDiedInBetween(s2, es[1..], i);
      ReadsLater(s, es, k, i, id);
      k := k + 1;
    }
    ReportsLater(s, es, m, i, id);
    m := m + 1;
  }

  // -- Acknowledged creates -------------------------------------------------

  predicate Booked(tx: Tx, id: int) {
    tx.op.Create? && tx.pc == Done(Ok(id))
  }

  /** Every acknowledged Create owns a booking of exactly its user and slot. */
  ghost predicate AcksInv(s: State) {
    && (forall i, id :: 0 <= i < |s.txs| && Booked(s.txs[i], id) ==>
          id in s.tables.bookings && s.tables.bookings[id].slot == s.txs[i].op.slot && s.tables.bookings[id].user == s.txs[i].op.user)
    && (forall i, j, id :: 0 <= i < |s.txs| && 0 <= j < |s.txs| && i != j ==> !(Booked(s.txs[i], id) && Booked(s.txs[j], id)))
  }

  lemma EventKeepsAcks(s: State, e: Event)
    requires Inv(s) && AcksInv(s) && CanHappen(s, e)
    ensures AcksInv(Apply(s, e))
  {
    EventOnlyAgesBookings(s, e);
    EventMovesOn(s, e);
    var i := e.tx;
    assert TxInv(s, s.txs[i]);
    if s.txs[i].op.Create? {
      if e.Statement? && s.txs[i].pc.Written? { CreateCommitsAFreshInsert(s, i); } else { OnlyACommitAcknowledges(s, e); }
    }
    AcksAfter(s, Apply(s, e), e.tx);
  }

  lemma AcksAfter(s: State, s2: State, i: nat)
    requires AcksInv(s) && i < |s.txs| && MovesOn(s, s2, i) && BookingsOnlyAge(s.tables, s2.tables)
    requires forall id :: Booked(s2.txs[i], id) ==>
                            id !in s.tables.bookings && id in s2.tables.bookings
                            && s2.tables.bookings[id].slot == s2.txs[i].op.slot && s2.tables.bookings[id].user == s2.txs[i].op.user
    ensures AcksInv(s2)
  {
    forall j, k, id | 0 <= j < |s2.txs| && 0 <= k < |s2.txs| && j != k ensures !(Booked(s2.txs[j], id) && Booked(s2.txs[k], id)) {
      if j != i && k != i { assert !(Booked(s.txs[j], id) && Booked(s.txs[k], id)); }
    }
  }

  /** A Create is acknowledged by its commit alone. */
  lemma OnlyACommitAcknowledges(s: State, e: Event)
    requires Inv(s) && CanHappen(s, e) && s.txs[e.tx].op.Create? && !(e.Statement? && s.txs[e.tx].pc.Written?)
    ensures forall id :: !Booked(Apply(s, e).txs[e.tx], id)
  {
    assert TxInv(s, s.txs[e.tx]);
  }

  /** That commit inserts a booking of exactly the user and slot of the request, under
      an id that was free. */
  lemma CreateCommitsAFreshInsert(s: State, i: nat)
    requires i < |s.txs| && s.txs[i].op.Create? && s.txs[i].pc.Written? && TxInv(s, s.txs[i])
    ensures var w := s.txs[i].pc.write;
            w.InsertBooking? && w.id !in s.tables.bookings && w.booking == Booking(s.txs[i].op.user, s.txs[i].op.slot, Pending)
  {
  }

  lemma {:induction false} RunKeepsAcks(s: State, es: seq<Event>)
    requires Inv(s) && AcksInv(s) && ValidRun(s, es)
    ensures AcksInv(Run(s, es))
    decreases |es|
  {
    if es != [] {
      EventKeepsInv(s, es[0]);
      EventKeepsAcks(s, es[0]);
      RunKeepsAcks(Apply(s, es[0]), es[1..]);
    }
  }

  /** Two different requests for clashing slots, acknowledged with bookings a and b. */
  predicate ClashingWinners(f: State, i: nat, j: nat, a: int, b: int) {
    && i < |f.txs| && j < |f.txs| && i != j && Booked(f.txs[i], a) && Booked(f.txs[j], b)
    && Clash(f.txs[i].op.slot, f.txs[j].op.slot)
  }

  predicate NotBothActive(t: Tables, a: int, b: int) {
    && a in t.bookings && b in t.bookings
    && !(Active(t.bookings[a].status) && Active(t.bookings[b].status))
  }

  lemma ClashingAcksAreNotBothActive(f: State, i: nat, j: nat, a: int, b: int)
    requires TablesInv(f) && AcksInv(f) && ClashingWinners(f, i, j, a, b)
    ensures NotBothActive(f.tables, a, b)
  {
    NonOverlapIffNoClash(f.tables);
    assert !(Booked(f.txs[i], a) && Booked(f.txs[j], a));
    assert !(Occupies(f.tables, BookingRow(a)) && Occupies(f.tables, BookingRow(b)));
  }

  lemma RunEndsWell(s: State, es: seq<Event>) returns (f: State)
    requires Initial(s) && ValidRun(s, es)
    ensures f == Run(s, es) && TablesInv(f) && AcksInv(f)
  {
    InitialInv(s);
    RunKeepsInv(s, es);
    RunKeepsAcks(s, es);
    f := Run(s, es);
  }

  /** Two acknowledged requests for clashing slots, however their statements were
      interleaved: one of the two bookings is no longer active. */
  lemma TwoWinnersCannotBothStand(s: State, es: seq<Event>, i: nat, j: nat, a: int, b: int)
    requires Initial(s) && ValidRun(s, es) && ClashingWinners(Run(s, es), i, j, a, b)
    ensures NotBothActive(Run(s, es).tables, a, b)
  {
    var f := RunEndsWell(s, es);
    ClashingAcksAreNotBothActive(f, i, j, a, b);
  }
}

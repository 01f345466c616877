/** What the answers of the six operations are worth when they race: in every run each
    answer is true of the tables at the statement that gives it, and the tables change
    there exactly as it says. */
module OccupancyAnswers {
  import opened Occupancy
  import opened OccupancyHistory
  import opened OccupancyInvariant
  import opened OccupancyProgress
  import opened OccupancyProtocol

  // -- True answers ---------------------------------------------------------

  function WithStatus(t: Tables, id: int, status: Status): Tables
    requires id in t.bookings
  {
    t.(bookings := t.bookings[id := t.bookings[id].(status := status)])
  }

  /** The operation takes effect on row id: from a state that admits it, with its own
      values, and on nothing else. */
  ghost predicate TakesEffect(op: Op, t: Tables, t2: Tables, id: int) {
    match op
    case Create(user, slot) =>
      id !in t.bookings && t2 == t.(bookings := t.bookings[id := Booking(user, slot, Pending)])
    case Cancel(own, user, isAdmin) =>
      && id == own && id in t.bookings && (isAdmin || t.bookings[id].user == user)
      && (t.bookings[id].status == Pending || t.bookings[id].status == Approved)
      && t2 == WithStatus(t, id, Cancelled)
    case Approve(own) =>
      id == own && id in t.bookings && t.bookings[id].status == Pending && t2 == WithStatus(t, id, Approved)
    case Reject(own) =>
      id == own && id in t.bookings && t.bookings[id].status == Pending && t2 == WithStatus(t, id, Rejected)
    case CreateSession(offering, slot) =>
      id !in t.sessions && t2 == t.(sessions := t.sessions[id := Session(offering, slot)])
    case UpdateSession(own, offering, slot) =>
      id == own && id in t.sessions && t2 == t.(sessions := t.sessions[id := Session(offering, slot)])
    case DeleteSession(own) =>
      id == own && id in t.sessions && t2 == t.(sessions := t.sessions - {id})
  }

  /** Something other than the operation's own row is in its way. */
  ghost predicate InTheWay(op: Op, t: Tables) {
    match op
    case Create(_, slot) => exists o :: Blocks(t, o, slot)
    case CreateSession(_, slot) => exists o :: Blocks(t, o, slot)
    case UpdateSession(id, _, slot) => exists o :: o != SessionRow(id) && Blocks(t, o, slot)
    case Approve(id) => id in t.bookings && exists o :: o != BookingRow(id) && Blocks(t, o, t.bookings[id].slot)
    case _ => false
  }

  ghost predicate Blocks(t: Tables, o: RowId, slot: Slot) {
    Occupies(t, o) && Clash(SlotOf(t, o), slot)
  }

  /** The row that the operation is about does not exist. */
  predicate Missing(op: Op, t: Tables) {
    match op
    case Cancel(id, _, _) => id !in t.bookings
    case Approve(id) => id !in t.bookings
    case Reject(id) => id !in t.bookings
    case UpdateSession(id, _, _) => id !in t.sessions
    case DeleteSession(id) => id !in t.sessions
    case _ => false
  }

  /** The booking's status does not admit the operation. */
  predicate WrongStatus(op: Op, t: Tables) {
    match op
    case Cancel(id, _, _) => id in t.bookings && (t.bookings[id].status == Cancelled || t.bookings[id].status == Rejected)
    case Approve(id) => id in t.bookings && t.bookings[id].status != Pending
    case Reject(id) => id in t.bookings && t.bookings[id].status != Pending
    case _ => false
  }

  predicate NotOwner(op: Op, t: Tables) {
    op.Cancel? && op.id in t.bookings && t.bookings[op.id].user != op.user && !op.isAdmin
  }

  /** A failure is a rollback, an unknown room, or a commit whose acknowledgement was lost. */
  ghost predicate TrueFailure(e: Event, op: Op, rooms: set<int>, t: Tables, t2: Tables) {
    match e
    case Abort(_) => t2 == t
    case Statement(_) => t2 == t && LocksRoom(op) && op.slot.room !in rooms
    case LostAck(_) => t2 == t || exists id :: TakesEffect(op, t, t2, id)
  }

  ghost predicate TrueAnswer(e: Event, op: Op, rooms: set<int>, t: Tables, t2: Tables, out: Outcome) {
    match out
    case Ok(id) => e.Statement? && TakesEffect(op, t, t2, id)
    case Conflict => e.Statement? && t2 == t && InTheWay(op, t)
    case NotFound => e.Statement? && t2 == t && Missing(op, t)
    case InvalidTransition => e.Statement? && t2 == t && WrongStatus(op, t)
    case Forbidden => e.Statement? && t2 == t && NotOwner(op, t)
    case Failed => TrueFailure(e, op, rooms, t, t2)
  }

  // -- One statement --------------------------------------------------------

  /** A cancel past its read is by the owner or an administrator. */
  ghost predicate CancelsAllowed(s: State) {
    forall i :: 0 <= i < |s.txs| && s.txs[i].op.Cancel? && s.txs[i].pc.FastRead? ==> CancelAllowed(s.tables, s.txs[i].op)
  }

  predicate CancelAllowed(t: Tables, op: Op)
    requires op.Cancel?
  {
    op.id in t.bookings && (op.isAdmin || t.bookings[op.id].user == op.user)
  }

  lemma EventKeepsAllowed(s: State, e: Event)
    requires Inv(s) && CancelsAllowed(s) && CanHappen(s, e)
    ensures CancelsAllowed(Apply(s, e))
  {
    var s2 := Apply(s, e);
    EventMovesOn(s, e);
    EventOnlyAgesBookings(s, e);
    forall j | 0 <= j < |s2.txs| && s2.txs[j].op.Cancel? && s2.txs[j].pc.FastRead? ensures CancelAllowed(s2.tables, s2.txs[j].op) {
      if j == e.tx { ReadIsAllowed(s, e); } else { assert CancelAllowed(s.tables, s.txs[j].op); }
    }
  }

  lemma ReadIsAllowed(s: State, e: Event)
    requires CanHappen(s, e) && s.txs[e.tx].op.Cancel?
    requires |Apply(s, e).txs| == |s.txs| && Apply(s, e).txs[e.tx].pc.FastRead?
    ensures Apply(s, e).tables == s.tables && CancelAllowed(s.tables, s.txs[e.tx].op)
  {
  }

  lemma HitIsInTheWay(t: Tables, slot: Slot, excludeSession: int, excludeBooking: int)
    requires SessionHit(t, slot, excludeSession) || BookingHit(t, slot, excludeBooking)
    ensures exists o :: Blocks(t, o, slot) && (o.SessionRow? ==> Kept(o.id, excludeSession)) && (o.BookingRow? ==> Kept(o.id, excludeBooking))
  {
    if id :| id in t.sessions && Kept(id, excludeSession) && Clash(t.sessions[id].slot, slot) {
      assert Blocks(t, SessionRow(id), slot);
    } else {
      var id :| id in t.bookings && Kept(id, excludeBooking) && Active(t.bookings[id].status) && Clash(t.bookings[id].slot, slot);
      assert Blocks(t, BookingRow(id), slot);
    }
  }

  /** The slot an operation asks for. */
  function AskedSlot(op: Op, t: Tables): Slot
    requires LocksRoom(op) || (op.Approve? && op.id in t.bookings)
  {
    if op.Approve? then t.bookings[op.id].slot else op.slot
  }

  /** A statement that runs half of a conflict check. */
  predicate Checks(tx: Tx) {
    tx.pc.Locked? || tx.pc.SessionsClear? || (tx.pc.FastRead? && !tx.op.Cancel? && !tx.op.Reject?)
  }

  lemma CheckedSlot(s: State, i: nat)
    requires Inv(s) && i < |s.txs| && Checks(s.txs[i])
    ensures var op, t := s.txs[i].op, s.tables;
            && (LocksRoom(op) || (op.Approve? && op.id in t.bookings))
            && (s.txs[i].pc.FastRead? ==> s.txs[i].pc.seen.slot == AskedSlot(op, t))
            && (s.txs[i].pc.Locked? || s.txs[i].pc.SessionsClear? ==> s.txs[i].pc.slot == AskedSlot(op, t))
  {
    assert TxInv(s, s.txs[i]);
  }

  lemma ConflictIsAHit(s: State, i: nat)
    requires Inv(s) && i < |s.txs| && Enabled(s, i) && Checks(s.txs[i]) && Exec(s, i).txs[i].pc == Done(Conflict)
    requires LocksRoom(s.txs[i].op) || (s.txs[i].op.Approve? && s.txs[i].op.id in s.tables.bookings)
    ensures Exec(s, i).tables == s.tables
    ensures var op, t := s.txs[i].op, s.tables;
            SessionHit(t, AskedSlot(op, t), ExcludedSession(op)) || BookingHit(t, AskedSlot(op, t), ExcludedBooking(op))
  {
    CheckedSlot(s, i);
  }

  lemma ConflictIsTrue(s: State, i: nat)
    requires Inv(s) && i < |s.txs| && Enabled(s, i) && Checks(s.txs[i]) && Exec(s, i).txs[i].pc == Done(Conflict)
    ensures Exec(s, i).tables == s.tables && InTheWay(s.txs[i].op, s.tables)
  {
    var op, t := s.txs[i].op, s.tables;
    CheckedSlot(s, i);
    ConflictIsAHit(s, i);
    OwnIdIsPositive(s, i);
    HitIsInTheWay(t, AskedSlot(op, t), ExcludedSession(op), ExcludedBooking(op));
  }

  /** Ids of existing rows are positive, so excluding an own row excludes just that. */
  lemma OwnIdIsPositive(s: State, i: nat)
    requires Inv(s) && i < |s.txs|
    ensures s.txs[i].op.UpdateSession? && s.txs[i].op.id in s.tables.sessions ==> s.txs[i].op.id > 0
    ensures s.txs[i].op.Approve? && s.txs[i].op.id in s.tables.bookings ==> s.txs[i].op.id > 0
  {
  }

  /** What a statement does to its transaction and the tables. */
  ghost predicate StepIsTrue(e: Event, s: State, s2: State, i: nat)
    requires i < |s.txs| && i < |s2.txs|
  {
    if s2.txs[i].pc.Done? then TrueAnswer(e, s.txs[i].op, s.rooms, s.tables, s2.tables, s2.txs[i].pc.outcome)
    else s2.tables == s.tables
  }

  lemma FinishedTables(s: State, i: nat, outcome: Outcome)
    requires i < |s.txs|
    ensures Finish(s, i, outcome).tables == s.tables && Finish(s, i, outcome).txs[i].pc == Done(outcome)
  {
  }

  lemma BeginLockedIsTrue(s: State, i: nat)
    requires i < |s.txs| && s.txs[i].pc.Start? && (LocksRoom(s.txs[i].op) || s.txs[i].op.DeleteSession?)
    ensures |Begin(s, i).txs| == |s.txs| && StepIsTrue(Statement(i), s, Begin(s, i), i)
  {
  }

  lemma FastReadIsTrue(s: State, i: nat)
    requires i < |s.txs| && s.txs[i].pc.Start? && !LocksRoom(s.txs[i].op) && !s.txs[i].op.DeleteSession?
    ensures |Begin(s, i).txs| == |s.txs| && StepIsTrue(Statement(i), s, Begin(s, i), i)
  {
  }

  lemma BeginIsTrue(s: State, i: nat)
    requires i < |s.txs| && s.txs[i].pc.Start?
    ensures |Begin(s, i).txs| == |s.txs| && StepIsTrue(Statement(i), s, Begin(s, i), i)
  {
    if LocksRoom(s.txs[i].op) || s.txs[i].op.DeleteSession? { BeginLockedIsTrue(s, i); } else { FastReadIsTrue(s, i); }
  }

  lemma UpdateIsTrue(s: State, i: nat)
    requires Inv(s) && CancelsAllowed(s) && i < |s.txs| && s.txs[i].pc.FastRead? && (s.txs[i].op.Cancel? || s.txs[i].op.Reject?)
    ensures |UpdateStatusNow(s, i).txs| == |s.txs| && StepIsTrue(Statement(i), s, UpdateStatusNow(s, i), i)
  {
    assert TxInv(s, s.txs[i]);
    if s.txs[i].op.Cancel? { assert CancelAllowed(s.tables, s.txs[i].op); }
  }

  lemma WriteIsTrue(s: State, i: nat, slot: Slot)
    requires Inv(s) && i < |s.txs| && s.txs[i].pc == BothClear(slot)
    ensures |WriteRow(s, i, slot).txs| == |s.txs| && StepIsTrue(Statement(i), s, WriteRow(s, i, slot), i)
  {
    assert TxInv(s, s.txs[i]);
  }

  /** A commit takes effect, whatever becomes of its acknowledgement. */
  lemma CommitTakesEffect(s: State, i: nat, outcome: Outcome)
    requires Inv(s) && i < |s.txs| && s.txs[i].pc.Written?
    ensures Commit(s, i, outcome).txs[i].pc == Done(outcome)
    ensures TakesEffect(s.txs[i].op, s.tables, Commit(s, i, outcome).tables, s.txs[i].pc.write.id)
  {
    assert TxInv(s, s.txs[i]);
  }

  lemma CheckIsTrue(s: State, i: nat)
    requires Inv(s) && i < |s.txs| && Enabled(s, i)
    requires Checks(s.txs[i])
    ensures |Exec(s, i).txs| == |s.txs| && StepIsTrue(Statement(i), s, Exec(s, i), i)
  {
    if Exec(s, i).txs[i].pc == Done(Conflict) { ConflictIsTrue(s, i); }
  }

  lemma StatementIsTrue(s: State, i: nat)
    requires Inv(s) && CancelsAllowed(s) && i < |s.txs| && Enabled(s, i)
    ensures |Exec(s, i).txs| == |s.txs| && StepIsTrue(Statement(i), s, Exec(s, i), i)
  {
    match s.txs[i].pc
    case Start => BeginIsTrue(s, i);
    case FastRead(_) =>
      if s.txs[i].op.Cancel? || s.txs[i].op.Reject? { UpdateIsTrue(s, i); } else { CheckIsTrue(s, i); }
    case BothClear(slot) => WriteIsTrue(s, i, slot);
    case Written(_, w) => CommitTakesEffect(s, i, OutcomeOf(w));
    case _ => CheckIsTrue(s, i);
  }

  /** An autocommit statement whose acknowledgement is lost. */
  lemma LostAutoCommitIsTrue(s: State, i: nat)
    requires Inv(s) && CancelsAllowed(s) && i < |s.txs| && AutoCommits(s.txs[i]) && Enabled(s, i)
    ensures Exec(s, i).tables == s.tables || exists id :: TakesEffect(s.txs[i].op, s.tables, Exec(s, i).tables, id)
  {
    StatementIsTrue(s, i);
    var pc := Exec(s, i).txs[i].pc;
    if pc.Done? && pc.outcome.Ok? { assert TakesEffect(s.txs[i].op, s.tables, Exec(s, i).tables, pc.outcome.id); }
    AutoCommitEnds(s, i);
  }

  lemma AutoCommitEnds(s: State, i: nat)
    requires i < |s.txs| && AutoCommits(s.txs[i]) && Enabled(s, i)
    ensures |Exec(s, i).txs| == |s.txs| && Exec(s, i).txs[i].pc.Done? && Exec(s, i).txs[i].pc.outcome != Failed
  {
  }

  lemma EventIsTrue(s: State, e: Event)
    requires Inv(s) && CancelsAllowed(s) && CanHappen(s, e)
    ensures |Apply(s, e).txs| == |s.txs| && StepIsTrue(e, s, Apply(s, e), e.tx)
  {
    var i := e.tx;
    match e
    case Statement(_) => StatementIsTrue(s, i);
    case Abort(_) => FinishedTables(s, i, Failed);
    case LostAck(_) =>
      if s.txs[i].pc.Written? { CommitTakesEffect(s, i, Failed); } else { LostAutoCommitIsTrue(s, i); AutoCommitEnds(s, i); }
  }

  // -- Every run ------------------------------------------------------------

  ghost predicate Sound(s: State) {
    Inv(s) && CancelsAllowed(s)
  }

  lemma InitialIsSound(s: State)
    requires Initial(s)
    ensures Sound(s)
  {
    InitialInv(s);
  }

  lemma EventKeepsSound(s: State, e: Event)
    requires Sound(s) && CanHappen(s, e)
    ensures Sound(Apply(s, e)) && MovesOn(s, Apply(s, e), e.tx)
  {
    EventKeepsInv(s, e);
    EventKeepsAllowed(s, e);
    EventMovesOn(s, e);
  }

  /** Event m of the run is the one with which transaction i answers `out`, truly. */
  ghost predicate AnswersAt(s: State, es: seq<Event>, m: nat, i: nat, op: Op, out: Outcome)
    requires ValidRun(s, es)
  {
    && m < |es| && es[m].tx == i
    && TrueAnswer(es[m], op, s.rooms, StateAt(s, es, m).tables, StateAt(s, es, m + 1).tables, out)
  }

  lemma RoomsStay(s: State, e: Event)
    requires CanHappen(s, e)
    ensures Apply(s, e).rooms == s.rooms
  {
  }

  lemma AnswersLater(s: State, es: seq<Event>, m: nat, i: nat, op: Op, out: Outcome)
    requires ValidRun(s, es) && es != [] && AnswersAt(Apply(s, es[0]), es[1..], m, i, op, out)
    ensures AnswersAt(s, es, m + 1, i, op, out)
  {
    RoomsStay(s, es[0]);
    assert es[1..][m] == es[m + 1];
  }

  /** In every run, an operation that has ended was answered truly by one of its own
      events: an Ok means that it took effect there with its own values on a row in a
      state that admits it, every refusal has its reason in the tables at that moment
      and changes nothing. */
  lemma {:induction false} EveryAnswerIsTrue(s: State, es: seq<Event>, i: nat) returns (m: nat)
    requires Sound(s) && ValidRun(s, es)
    requires i < |s.txs| && !s.txs[i].pc.Done? && i < |Run(s, es).txs| && Run(s, es).txs[i].pc.Done?
    ensures AnswersAt(s, es, m, i, s.txs[i].op, Run(s, es).txs[i].pc.outcome)
    decreases |es|
  {
    var s2 := Apply(s, es[0]);
    EventKeepsSound(s, es[0]);
    if s2.txs[i].pc.Done? {
      AnswersNow(s, es, i);
      m := 0;
    } else {
      m := EveryAnswerIsTrue(s2, es[1..], i);
      AnswersLater(s, es, m, i, s.txs[i].op, Run(s, es).txs[i].pc.outcome);
      m := m + 1;
    }
  }

  lemma AnswersNow(s: State, es: seq<Event>, i: nat)
    requires Sound(s) && ValidRun(s, es) && es != []
    requires i < |s.txs| && !s.txs[i].pc.Done? && i < |Apply(s, es[0]).txs| && Apply(s, es[0]).txs[i].pc.Done?
    ensures i < |Run(s, es).txs| && Run(s, es).txs[i].pc.Done?
    ensures AnswersAt(s, es, 0, i, s.txs[i].op, Run(s, es).txs[i].pc.outcome)
  {
    var s2 := Apply(s, es[0]);
    EventMovesOn(s, es[0]);
    EventIsTrue(s, es[0]);
    DoneStays(s2, es[1..], i);
    assert StateAt(s, es, 1) == StateAt(s2, es[1..], 0) == s2;
  }

  // -- Rival reviews --------------------------------------------------------

  lemma {:induction false} AgeBetween(s: State, es: seq<Event>, a: nat, b: nat)
    requires Inv(s) && ValidRun(s, es) && a <= b <= |es|
    ensures BookingsOnlyAge(StateAt(s, es, a).tables, StateAt(s, es, b).tables)
    decreases |es|
  {
    if a > 0 {
      EventKeepsInv(s, es[0]);
      AgeBetween(Apply(s, es[0]), es[1..], a - 1, b - 1);
    } else {
      StateAtIsRun(s, es, b);
      DeadBookingsStayDead(s, es[..b]);
    }
  }

  /** The operation decides a pending booking. */
  predicate Reviews(op: Op, id: int) {
    (op.Approve? || op.Reject?) && op.id == id
  }

  predicate PendingIn(t: Tables, id: int) {
    id in t.bookings && t.bookings[id].status == Pending
  }

  lemma ReviewDecides(op: Op, t: Tables, t2: Tables, id: int)
    requires Reviews(op, id) && TakesEffect(op, t, t2, id)
    ensures PendingIn(t, id) && id in t2.bookings && !PendingIn(t2, id)
  {
  }

  lemma DecidedStaysDecided(t1: Tables, t2: Tables, id: int)
    requires BookingsOnlyAge(t1, t2) && id in t1.bookings && !PendingIn(t1, id)
    ensures !PendingIn(t2, id)
  {
  }

  /** Event m decides a booking: it was pending before and is not afterwards. */
  ghost predicate Decides(s: State, es: seq<Event>, m: nat, id: int)
    requires ValidRun(s, es)
  {
    && m < |es| && PendingIn(StateAt(s, es, m).tables, id)
    && id in StateAt(s, es, m + 1).tables.bookings && !PendingIn(StateAt(s, es, m + 1).tables, id)
  }

  lemma WinnerDecides(s: State, es: seq<Event>, m: nat, i: nat, op: Op, id: int)
    requires ValidRun(s, es) && Reviews(op, id) && AnswersAt(s, es, m, i, op, Ok(id))
    ensures Decides(s, es, m, id)
  {
    ReviewDecides(op, StateAt(s, es, m).tables, StateAt(s, es, m + 1).tables, id);
  }

  lemma DecidedFrom(s: State, es: seq<Event>, a: nat, b: nat, id: int)
    requires Inv(s) && ValidRun(s, es) && a <= b <= |es|
    requires id in StateAt(s, es, a).tables.bookings && !PendingIn(StateAt(s, es, a).tables, id)
    ensures !PendingIn(StateAt(s, es, b).tables, id)
  {
    AgeBetween(s, es, a, b);
    DecidedStaysDecided(StateAt(s, es, a).tables, StateAt(s, es, b).tables, id);
  }

  /** A booking is decided once. */
  lemma DecidedOnce(s: State, es: seq<Event>, a: nat, b: nat, id: int)
    requires Inv(s) && ValidRun(s, es) && a < b <= |es| && Decides(s, es, a, id)
    ensures !PendingIn(StateAt(s, es, b).tables, id)
  {
    DecidedFrom(s, es, a + 1, b, id);
  }

  lemma SuccessDecides(s: State, es: seq<Event>, i: nat, id: int) returns (m: nat)
    requires Initial(s) && ValidRun(s, es) && i < |s.txs| && Reviews(s.txs[i].op, id)
    requires i < |Run(s, es).txs| && Run(s, es).txs[i].pc == Done(Ok(id))
    ensures Decides(s, es, m, id) && es[m].tx == i
  {
    InitialIsSound(s);
    m := EveryAnswerIsTrue(s, es, i);
    WinnerDecides(s, es, m, i, s.txs[i].op, id);
  }

  /** Of all reviews of one booking at most one is told that it succeeded. */
  lemma OneReviewWins(s: State, es: seq<Event>, i: nat, j: nat, id: int)
    requires Initial(s) && ValidRun(s, es) && i < |s.txs| && j < |s.txs| && i != j
    requires Reviews(s.txs[i].op, id) && Reviews(s.txs[j].op, id)
    requires i < |Run(s, es).txs| && j < |Run(s, es).txs|
    ensures !(Run(s, es).txs[i].pc == Done(Ok(id)) && Run(s, es).txs[j].pc == Done(Ok(id)))
  {
    if Run(s, es).txs[i].pc == Done(Ok(id)) && Run(s, es).txs[j].pc == Done(Ok(id)) {
      InitialIsSound(s);
      var a := SuccessDecides(s, es, i, id);
      var b := SuccessDecides(s, es, j, id);
      if a < b { DecidedOnce(s, es, a, b, id); } else { DecidedOnce(s, es, b, a, id); }
    }
  }
}

/** The hand-written locking protocol of booking/store.go and
    course/sessions.go as a transition system.

    One transition is one SQL statement together with the Go code up to the next
    statement. A statement reads the latest committed tables; a write made inside
    a transaction stays private until its commit. Any number of operations may be
    in flight: an operation nobody has started is simply still at `Start`. */
module OccupancyProtocol {
  import opened Occupancy

  datatype Op =
    | Create(user: int, slot: Slot)
    | Cancel(id: int, user: int, isAdmin: bool)
    | Approve(id: int)
    | Reject(id: int)
    | CreateSession(offering: int, slot: Slot)
    | UpdateSession(id: int, offering: int, slot: Slot)
    | DeleteSession(id: int)

  datatype Write =
    | InsertBooking(id: int, booking: Booking)
    | InsertSession(id: int, session: Session)
    | MoveSession(id: int, session: Session)
    | SetStatus(id: int, status: Status)

  datatype Outcome = Ok(id: int) | Conflict | NotFound | InvalidTransition | Forbidden | Failed

  datatype Pc =
    | Start
    | FastRead(seen: Booking)            // Cancel and Review: the booking has been read and may proceed
    | Locked(slot: Slot)                 // the classroom row is locked, nothing checked yet
    | SessionsClear(slot: Slot)          // the session half of the conflict check found nothing
    | BothClear(slot: Slot)              // the booking half found nothing either
    | Written(slot: Slot, write: Write)  // the write statement ran, not yet committed
    | Done(outcome: Outcome)

  datatype Tx = Tx(op: Op, pc: Pc)

  datatype State = State(
    rooms: set<int>,
    tables: Tables,
    nextSession: int,
    nextBooking: int,
    roomLock: map<int, nat>,
    rowLock: map<RowId, nat>,
    txs: seq<Tx>)

  // -- Who locks what -------------------------------------------------------

  predicate LocksRoom(op: Op) {
    op.Create? || op.CreateSession? || op.UpdateSession?
  }

  predicate HoldsRoom(tx: Tx, room: int) {
    LocksRoom(tx.op) && (tx.pc.Locked? || tx.pc.SessionsClear? || tx.pc.BothClear? || tx.pc.Written?)
    && tx.op.slot.room == room
  }

  /** An UPDATE keeps its row locked until commit. A freshly inserted row is
      invisible, so nobody can ask for its lock. */
  predicate HoldsRow(tx: Tx, row: RowId) {
    tx.pc.Written? &&
    match tx.pc.write
    case MoveSession(id, _) => row == SessionRow(id)
    case SetStatus(id, _) => row == BookingRow(id)
    case _ => false
  }

  predicate Finished(tx: Tx) {
    tx.pc.Done?
  }

  /** excludeID of each caller of the two conflict checks. */
  function ExcludedSession(op: Op): int {
    if op.UpdateSession? then op.id else 0
  }

  function ExcludedBooking(op: Op): int {
    if op.Approve? then op.id else 0
  }

  // -- Statements -----------------------------------------------------------

  /** The row lock the next statement of a transaction needs, if any. */
  predicate NeedsRow(tx: Tx, row: RowId) {
    match tx.op
    case Cancel(id, _, _) => tx.pc.FastRead? && row == BookingRow(id)
    case Reject(id) => tx.pc.FastRead? && row == BookingRow(id)
    case Approve(id) => tx.pc.BothClear? && row == BookingRow(id)
    case UpdateSession(id, _, _) => tx.pc.BothClear? && row == SessionRow(id)
    case DeleteSession(id) => tx.pc.Start? && row == SessionRow(id)
    case _ => false
  }

  /** A statement runs unless it must wait for a lock somebody holds. */
  predicate Enabled(s: State, i: nat)
    requires i < |s.txs|
  {
    var tx := s.txs[i];
    && !Finished(tx)
    && (LocksRoom(tx.op) && tx.pc.Start? ==> tx.op.slot.room !in s.roomLock)
    && forall row <- s.rowLock :: !NeedsRow(tx, row)
  }

  function SetPc(s: State, i: nat, pc: Pc): State
    requires i < |s.txs|
  {
    s.(txs := s.txs[i := s.txs[i].(pc := pc)])
  }

  /** COMMIT and ROLLBACK drop every lock of the transaction. */
  function Finish(s: State, i: nat, outcome: Outcome): State
    requires i < |s.txs|
  {
    SetPc(s, i, Done(outcome)).(
    roomLock := map r <- s.roomLock | s.roomLock[r] != i :: s.roomLock[r],
    rowLock := map r <- s.rowLock | s.rowLock[r] != i :: s.rowLock[r])
  }

  function ApplyWrite(t: Tables, w: Write): Tables {
    match w
    case InsertBooking(id, b) => t.(bookings := t.bookings[id := b])
    case InsertSession(id, x) => t.(sessions := t.sessions[id := x])
    case MoveSession(id, x) => t.(sessions := t.sessions[id := x])
    case SetStatus(id, st) =>
      if id in t.bookings then t.(bookings := t.bookings[id := t.bookings[id].(status := st)]) else t
  }

  function Commit(s: State, i: nat, outcome: Outcome): State
    requires i < |s.txs| && s.txs[i].pc.Written?
  {
    Finish(s.(tables := ApplyWrite(s.tables, s.txs[i].pc.write)), i, outcome)
  }

  /** First statement of each operation. */
  function Begin(s: State, i: nat): State
    requires i < |s.txs| && s.txs[i].pc.Start?
  {
    var op := s.txs[i].op;
    if LocksRoom(op) then
      if op.slot.room !in s.rooms then Finish(s, i, Failed)
      else SetPc(s, i, Locked(op.slot)).(roomLock := s.roomLock[op.slot.room := i])
    else if op.DeleteSession? then
      if op.id in s.tables.sessions
      then Finish(s.(tables := s.tables.(sessions := s.tables.sessions - {op.id})), i, Ok(op.id))
      else Finish(s, i, NotFound)
    else if op.id !in s.tables.bookings then Finish(s, i, NotFound)
    else
      var b := s.tables.bookings[op.id];
      if op.Cancel? && !op.isAdmin && b.user != op.user then Finish(s, i, Forbidden)
      else if op.Cancel? && !Active(b.status) then Finish(s, i, InvalidTransition)
      else if !op.Cancel? && b.status != Pending then Finish(s, i, InvalidTransition)
      else SetPc(s, i, FastRead(b))
  }

  /** The conditional UPDATE of Cancel and of a rejecting Review commits at once. */
  function UpdateStatusNow(s: State, i: nat): State
    requires i < |s.txs| && (s.txs[i].op.Cancel? || s.txs[i].op.Reject?)
  {
    var op := s.txs[i].op;
    var matched := op.id in s.tables.bookings
                   && (if op.Cancel? then Active(s.tables.bookings[op.id].status)
                       else s.tables.bookings[op.id].status == Pending);
    if matched
    then Finish(s.(tables := ApplyWrite(s.tables, SetStatus(op.id, if op.Cancel? then Cancelled else Rejected))), i, Ok(op.id))
    else Finish(s, i, InvalidTransition)
  }

  function CheckSessions(s: State, i: nat, slot: Slot): State
    requires i < |s.txs|
  {
    if SessionHit(s.tables, slot, ExcludedSession(s.txs[i].op)) then Finish(s, i, Conflict)
    else SetPc(s, i, SessionsClear(slot))
  }

  function CheckBookings(s: State, i: nat, slot: Slot): State
    requires i < |s.txs|
  {
    if BookingHit(s.tables, slot, ExcludedBooking(s.txs[i].op)) then Finish(s, i, Conflict)
    else SetPc(s, i, BothClear(slot))
  }

  /** INSERT or conditional UPDATE inside the transaction. Identity values are
      consumed even if the transaction later rolls back. */
  function WriteRow(s: State, i: nat, slot: Slot): State
    requires i < |s.txs|
  {
    var op := s.txs[i].op;
    match op
    case Create(user, _) =>
      SetPc(s, i, Written(slot, InsertBooking(s.nextBooking, Booking(user, slot, Pending)))).(nextBooking := s.nextBooking + 1)
    case CreateSession(offering, _) =>
      SetPc(s, i, Written(slot, InsertSession(s.nextSession, Session(offering, slot)))).(nextSession := s.nextSession + 1)
    case UpdateSession(id, offering, _) =>
      if id !in s.tables.sessions then Finish(s, i, NotFound)
      else SetPc(s, i, Written(slot, MoveSession(id, Session(offering, slot)))).(rowLock := s.rowLock[SessionRow(id) := i])
    case Approve(id) =>
      if id !in s.tables.bookings || s.tables.bookings[id].status != Pending then Finish(s, i, InvalidTransition)
      else SetPc(s, i, Written(slot, SetStatus(id, Approved))).(rowLock := s.rowLock[BookingRow(id) := i])
    case _ => Finish(s, i, Failed)
  }

  function OutcomeOf(w: Write): Outcome {
    Ok(w.id)
  }

  /** One statement of transaction i. */
  function Exec(s: State, i: nat): State
    requires i < |s.txs| && Enabled(s, i)
  {
    var tx := s.txs[i];
    match tx.pc
    case Start => Begin(s, i)
    case FastRead(b) =>
      if tx.op.Cancel? || tx.op.Reject? then UpdateStatusNow(s, i) else CheckSessions(s, i, b.slot)
    case Locked(slot) => CheckSessions(s, i, slot)
    case SessionsClear(slot) => CheckBookings(s, i, slot)
    case BothClear(slot) => WriteRow(s, i, slot)
    case Written(_, w) => Commit(s, i, OutcomeOf(w))
  }

  /** The next statement commits by itself: the UPDATE of Cancel and of a rejecting
      Review, and the DELETE of a session. */
  predicate AutoCommits(tx: Tx) {
    (tx.pc.FastRead? && (tx.op.Cancel? || tx.op.Reject?)) || (tx.pc.Start? && tx.op.DeleteSession?)
  }

  /** A statement, a database error that rolls the transaction back, or a commit
      that took effect although its acknowledgement was lost. */
  datatype Event = Statement(tx: nat) | Abort(tx: nat) | LostAck(tx: nat)

  predicate CanHappen(s: State, e: Event) {
    && e.tx < |s.txs|
    && match e
       case Statement(i) => Enabled(s, i)
       case Abort(i) => !Finished(s.txs[i])
       case LostAck(i) => s.txs[i].pc.Written? || (AutoCommits(s.txs[i]) && Enabled(s, i))
  }

  function Apply(s: State, e: Event): State
    requires CanHappen(s, e)
  {
    match e
    case Statement(i) => Exec(s, i)
    case Abort(i) => Finish(s, i, Failed)
    case LostAck(i) => if s.txs[i].pc.Written? then Commit(s, i, Failed) else SetPc(Exec(s, i), i, Done(Failed))
  }

  ghost predicate ValidRun(s: State, es: seq<Event>)
    decreases |es|
  {
    es == [] || (CanHappen(s, es[0]) && ValidRun(Apply(s, es[0]), es[1..]))
  }

  ghost function Run(s: State, es: seq<Event>): State
    requires ValidRun(s, es)
    decreases |es|
  {
    if es == [] then s else Run(Apply(s, es[0]), es[1..])
  }

  /** Any finite set of validated operations over non-overlapping tables. */
  ghost predicate Initial(s: State) {
    && WellFormed(s.tables) && NonOverlap(s.tables)
    && (forall id <- s.tables.sessions :: id < s.nextSession)
    && (forall id <- s.tables.bookings :: id < s.nextBooking)
    && s.nextSession > 0 && s.nextBooking > 0
    && s.roomLock == map[] && s.rowLock == map[]
    && forall i :: 0 <= i < |s.txs| ==> s.txs[i].pc.Start? && (LocksRoom(s.txs[i].op) ==> ValidSlot(s.txs[i].op.slot))
  }

  // -- The invariant --------------------------------------------------------

  ghost predicate TablesInv(s: State) {
    && WellFormed(s.tables) && NonOverlap(s.tables)
    && s.nextSession > 0 && s.nextBooking > 0
    && (forall id <- s.tables.sessions :: id < s.nextSession)
    && (forall id <- s.tables.bookings :: id < s.nextBooking)
  }

  predicate Owns<K>(lock: map<K, nat>, k: K, i: nat) {
    k in lock && lock[k] == i
  }

  /** The lock maps say exactly what the program counters say. */
  ghost predicate LocksInv(s: State) {
    && (forall r <- s.roomLock :: s.roomLock[r] < |s.txs|)
    && (forall w <- s.rowLock :: s.rowLock[w] < |s.txs|)
    && (forall i, r :: 0 <= i < |s.txs| ==> (HoldsRoom(s.txs[i], r) <==> Owns(s.roomLock, r, i)))
    && (forall i, w :: 0 <= i < |s.txs| ==> (HoldsRow(s.txs[i], w) <==> Owns(s.rowLock, w, i)))
  }

  /** The row an operation works on keeps its slot, whatever else happens. */
  ghost predicate KnownBooking(t: Tables, id: int, slot: Slot) {
    id in t.bookings && t.bookings[id].slot == slot
  }

  ghost predicate WriteInv(s: State, tx: Tx)
    requires tx.pc.Written?
  {
    var slot := tx.pc.slot;
    match tx.pc.write
    case InsertBooking(id, b) =>
      tx.op.Create? && 0 < id < s.nextBooking && id !in s.tables.bookings && b == Booking(tx.op.user, slot, Pending)
    case InsertSession(id, x) =>
      tx.op.CreateSession? && 0 < id < s.nextSession && id !in s.tables.sessions && x == Session(tx.op.offering, slot)
    case MoveSession(id, x) =>
      tx.op.UpdateSession? && id == tx.op.id && id in s.tables.sessions && x == Session(tx.op.offering, slot)
    case SetStatus(id, st) =>
      tx.op.Approve? && id == tx.op.id && st == Approved && id in s.tables.bookings && s.tables.bookings[id].status == Pending
  }

  /** What a transaction knows at its program counter. The two Clear facts are
      the ones other transactions must not invalidate. */
  ghost predicate TxInv(s: State, tx: Tx) {
    var t := s.tables;
    && (LocksRoom(tx.op) ==> ValidSlot(tx.op.slot))
    && match tx.pc
       case Start => true
       case FastRead(b) =>
         && !LocksRoom(tx.op) && !tx.op.DeleteSession? && KnownBooking(t, tx.op.id, b.slot)
         && (tx.op.Approve? ==> b.status == Pending)
       case Locked(slot) => LocksRoom(tx.op) && slot == tx.op.slot
       case SessionsClear(slot) =>
         if tx.op.Approve? then KnownBooking(t, tx.op.id, slot)
         else LocksRoom(tx.op) && slot == tx.op.slot && !SessionHit(t, slot, ExcludedSession(tx.op))
       case BothClear(slot) =>
         if tx.op.Approve? then KnownBooking(t, tx.op.id, slot)
         else LocksRoom(tx.op) && slot == tx.op.slot && !SessionConflict(t, slot, ExcludedSession(tx.op))
       case Written(slot, _) =>
         && WriteInv(s, tx)
         && (!tx.op.Approve? ==> LocksRoom(tx.op) && slot == tx.op.slot && !SessionConflict(t, slot, ExcludedSession(tx.op)))
       case Done(_) => true
  }

  predicate SameInsert(a: Tx, b: Tx) {
    a.pc.Written? && b.pc.Written?
    && ((a.pc.write.InsertBooking? && b.pc.write.InsertBooking?) || (a.pc.write.InsertSession? && b.pc.write.InsertSession?))
    && a.pc.write.id == b.pc.write.id
  }

  ghost predicate Inv(s: State) {
    && TablesInv(s) && LocksInv(s)
    && (forall i :: 0 <= i < |s.txs| ==> TxInv(s, s.txs[i]))
    && (forall i, j :: 0 <= i < |s.txs| && 0 <= j < |s.txs| && i != j ==> !SameInsert(s.txs[i], s.txs[j]))
  }
}

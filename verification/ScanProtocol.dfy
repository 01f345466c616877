/** Scans, closes and corrections as interleaved statements (ScanByCode and
    CloseCheckin in attendance/store.go, UpsertRecord in attendance/store_records.go).
    A scan is a transaction that locks its checkin row; closes and corrections are
    single statements. All instants come from one clock that never runs backwards. */
module ScanProtocol {
  import opened AttendanceStatus
  import opened Common

  // -- State ----------------------------------------------------------------

  datatype Checkin = Checkin(open: bool, startsAt: int, lateMinutes: int, expires: Option<int>)

  datatype Record = Record(checkin: int, user: int, status: Status, checkedAt: Option<int>, corrected: bool)

  datatype Result = CodeNotFound | NotActive | Expired | Aborted | Done(isNew: bool)

  /** Where a scan stands: before its SELECT ... FOR UPDATE, holding the lock of its
      checkin before and after the expiry check and after reading the clock again,
      after its INSERT, and over. */
  datatype Pc =
    | Start
    | Locked(checkin: int)
    | InTime(checkin: int, seen: int)
    | Stamped(checkin: int, seen: int, now: int)
    | Inserted(checkin: int, seen: int, now: int, isNew: bool)
    | Over(result: Result)

  datatype Scan = Scan(code: string, user: int, pc: Pc)

  /** A committed scan that created its record: `seen` is the instant of its expiry
      check. */
  datatype Fresh = Fresh(checkin: int, user: int, status: Status, seen: int, checkedAt: int)

  /** Committed tables, row locks of checkins, the scans, and the fresh scans so far. */
  datatype State = State(
    codes: map<string, int>,
    checkins: map<int, Checkin>,
    records: seq<Record>,
    locks: map<int, nat>,
    scans: map<nat, Scan>,
    clock: int,
    log: seq<Fresh>)

  datatype Event =
    | Begin(id: nat, code: string, user: int)
    | Step(id: nat)
    | Abort(id: nat)
    | Close(checkin: int)
    | Correct(checkin: int, user: int, status: Status)
    | Tick(d: nat)

  /** late_minutes after the start a fresh scan counts as late. */
  predicate LateAt(c: Checkin, t: int) {
    c.lateMinutes > 0 && t > c.startsAt + c.lateMinutes * 60
  }

  function FreshStatus(c: Checkin, t: int): Status {
    if LateAt(c, t) then Late else Present
  }

  predicate ExpiredAt(c: Checkin, t: int) {
    c.expires.Some? && t > c.expires.value
  }

  predicate IsKey(r: Record, c: int, u: int) {
    r.checkin == c && r.user == u
  }

  predicate HasRow(records: seq<Record>, c: int, u: int) {
    exists i :: 0 <= i < |records| && IsKey(records[i], c, u)
  }

  /** The row a scan has inserted and not committed. */
  ghost predicate Pending(s: Scan, c: int, u: int) {
    s.pc.Inserted? && s.pc.isNew && s.pc.checkin == c && s.user == u
  }

  // -- Statements -----------------------------------------------------------

  /** A statement that waits for a row lock or for an uncommitted row with the same
      key is not enabled. */
  ghost predicate Enabled(st: State, e: Event) {
    match e
    case Begin(id, _, _) => id !in st.scans
    case Step(id) =>
      && id in st.scans && !st.scans[id].pc.Over?
      && (st.scans[id].pc.Start? && st.scans[id].code in st.codes ==> st.codes[st.scans[id].code] !in st.locks)
    case Abort(id) => id in st.scans && !st.scans[id].pc.Over?
    case Close(c) => c !in st.locks
    case Correct(c, u, _) => c in st.checkins && forall id <- st.scans :: !Pending(st.scans[id], c, u)
    case Tick(_) => true
  }

  function Moved(st: State, id: nat, pc: Pc): State
    requires id in st.scans
  {
    st.(scans := st.scans[id := st.scans[id].(pc := pc)])
  }

  /** Ends a scan and releases its lock; uncommitted changes are gone. */
  function Ended(st: State, id: nat, result: Result): State
    requires id in st.scans
  {
    var pc := st.scans[id].pc;
    var free := if pc.Start? || pc.Over? then st else st.(locks := st.locks - {pc.checkin});
    Moved(free, id, Over(result))
  }

  function Fetched(st: State, id: nat): State
    requires id in st.scans
  {
    var code := st.scans[id].code;
    if code !in st.codes || st.codes[code] !in st.checkins then Ended(st, id, CodeNotFound)
    else
      var c := st.codes[code];
      if !st.checkins[c].open then Ended(st, id, NotActive)
      else Moved(st.(locks := st.locks[c := id]), id, Locked(c))
  }

  function Committed(st: State, id: nat): State
    requires id in st.scans && st.scans[id].pc.Inserted? && st.scans[id].pc.checkin in st.checkins
  {
    var s := st.scans[id];
    var c := s.pc.checkin;
    var status := FreshStatus(st.checkins[c], s.pc.now);
    var after := if s.pc.isNew then st.(records := st.records + [Record(c, s.user, status, Some(s.pc.now), false)],
                                        log := st.log + [Fresh(c, s.user, status, s.pc.seen, s.pc.now)])
                 else st;
    Ended(after, id, Done(s.pc.isNew))
  }

  /** One statement of a scan. An expired checkin is closed by an UPDATE that is then
      rolled back with the transaction. */
  function Stepped(st: State, id: nat): State
    requires id in st.scans
  {
    var s := st.scans[id];
    match s.pc
    case Start => Fetched(st, id)
    case Locked(c) =>
      if c in st.checkins && ExpiredAt(st.checkins[c], st.clock) then Ended(st, id, Expired) else Moved(st, id, InTime(c, st.clock))
    case InTime(c, seen) => Moved(st, id, Stamped(c, seen, st.clock))
    case Stamped(c, seen, now) => Moved(st, id, Inserted(c, seen, now, !HasRow(st.records, c, s.user)))
    case Inserted(c, _, _, _) => if c in st.checkins then Committed(st, id) else st
    case Over(_) => st
  }

  /** INSERT ... ON CONFLICT DO UPDATE: the row keeps its checked_at. */
  function Upserted(records: seq<Record>, c: int, u: int, status: Status): seq<Record> {
    if records == [] then [Record(c, u, status, None, true)]
    else if IsKey(records[0], c, u) then [records[0].(status := status, corrected := true)] + records[1..]
    else [records[0]] + Upserted(records[1..], c, u, status)
  }

  function Apply(st: State, e: Event): State {
    match e
    case Begin(id, code, user) => st.(scans := st.scans[id := Scan(code, user, Start)])
    case Step(id) => if id in st.scans then Stepped(st, id) else st
    case Abort(id) => if id in st.scans then Ended(st, id, Aborted) else st
    case Close(c) => if c in st.checkins then st.(checkins := st.checkins[c := st.checkins[c].(open := false)]) else st
    case Correct(c, u, status) => st.(records := Upserted(st.records, c, u, status))
    case Tick(d) => st.(clock := st.clock + d)
  }

  ghost predicate ValidRun(st: State, events: seq<Event>)
    decreases |events|
  {
    events == [] || (Enabled(st, events[0]) && ValidRun(Apply(st, events[0]), events[1..]))
  }

  function Run(st: State, events: seq<Event>): State
    decreases |events|
  {
    if events == [] then st else Run(Apply(st, events[0]), events[1..])
  }

  // -- The invariant --------------------------------------------------------

  ghost predicate OneRowEach(records: seq<Record>) {
    forall i, j :: 0 <= i < j < |records| ==> !IsKey(records[i], records[j].checkin, records[j].user)
  }

  predicate InTransaction(pc: Pc) {
    !pc.Start? && !pc.Over?
  }

  /** A scan in the middle holds the lock of its checkin, which is open; and its
      uncommitted row has no committed rival. */
  ghost predicate LockOk(st: State, id: nat, s: Scan) {
    InTransaction(s.pc) ==>
      && s.pc.checkin in st.locks && st.locks[s.pc.checkin] == id
      && s.pc.checkin in st.checkins && st.checkins[s.pc.checkin].open
      && (s.pc.Inserted? && s.pc.isNew ==> !HasRow(st.records, s.pc.checkin, s.user))
  }

  /** The instants of a scan are in order and past. */
  ghost predicate TimesOk(st: State, s: Scan) {
    match s.pc
    case InTime(c, seen) => seen <= st.clock && c in st.checkins && !ExpiredAt(st.checkins[c], seen)
    case Stamped(c, seen, now) => seen <= now <= st.clock && c in st.checkins && !ExpiredAt(st.checkins[c], seen)
    case Inserted(c, seen, now, _) => seen <= now <= st.clock && c in st.checkins && !ExpiredAt(st.checkins[c], seen)
    case _ => true
  }

  /** A scan that has read the clock did so after all fresh scans of its checkin. */
  ghost predicate AfterLog(st: State, s: Scan) {
    (s.pc.Stamped? || s.pc.Inserted?) ==> forall k :: 0 <= k < |st.log| && st.log[k].checkin == s.pc.checkin ==> st.log[k].checkedAt <= s.pc.now
  }

  ghost predicate LogEntryOk(st: State, f: Fresh) {
    && f.checkin in st.checkins
    && f.status == FreshStatus(st.checkins[f.checkin], f.checkedAt)
    && f.seen <= f.checkedAt <= st.clock && !ExpiredAt(st.checkins[f.checkin], f.seen)
  }

  ghost predicate LogInOrder(st: State) {
    forall i, j :: 0 <= i < j < |st.log| && st.log[i].checkin == st.log[j].checkin ==> st.log[i].checkedAt <= st.log[j].checkedAt
  }

  ghost predicate ScanOk(st: State, id: nat)
    requires id in st.scans
  {
    LockOk(st, id, st.scans[id]) && TimesOk(st, st.scans[id]) && AfterLog(st, st.scans[id])
  }

  ghost predicate LogOk(st: State) {
    (forall f <- st.log :: LogEntryOk(st, f)) && LogInOrder(st)
  }

  ghost predicate Inv(st: State) {
    OneRowEach(st.records) && (forall id <- st.scans :: ScanOk(st, id)) && LogOk(st)
  }

  ghost predicate Initial(st: State) {
    OneRowEach(st.records) && st.scans == map[] && st.locks == map[] && st.log == []
  }
}

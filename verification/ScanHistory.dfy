/** What every run of scans, closes and corrections keeps. */
module ScanHistory {
  import opened AttendanceStatus
  import opened Common
  import opened ScanProtocol
  import opened ScanSteps

  ghost predicate KeysDiffer(records: seq<Record>) {
    forall i, j :: 0 <= i < j < |records| ==> records[i].checkin != records[j].checkin || records[i].user != records[j].user
  }

  /** At most one record per checkin and user, after any interleaving. */
  lemma OneRecordPerStudent(st: State, events: seq<Event>)
    requires Initial(st) && ValidRun(st, events)
    ensures KeysDiffer(Run(st, events).records)
  {
    RunKeepsInv(st, events);
    OneRowMeansKeysDiffer(Run(st, events).records);
  }

  lemma OneRowMeansKeysDiffer(records: seq<Record>)
    requires OneRowEach(records)
    ensures KeysDiffer(records)
  {
    forall i, j | 0 <= i < j < |records| ensures records[i].checkin != records[j].checkin || records[i].user != records[j].user {
      assert !IsKey(records[i], records[j].checkin, records[j].user);
    }
  }

  /** The last correction of a key in a run, if any. */
  function LastCorrection(events: seq<Event>, c: int, u: int): Option<Status> {
    if events == [] then None
    else
      var later := LastCorrection(events[1..], c, u);
      if later.Some? then later
      else match events[0]
           case Correct(c2, u2, status) => if c2 == c && u2 == u then Some(status) else None
           case _ => None
  }

  /** The row with its status corrected as the run did. */
  function AsCorrected(r: Record, s: Option<Status>): Record {
    if s.None? then r else r.(status := s.value, corrected := true)
  }

  /** One statement leaves a row in its place with its checked_at, and changes its
      status only if it is a correction of that row. */
  lemma EventKeepsRow(st: State, e: Event, i: nat)
    requires Inv(st) && Enabled(st, e) && i < |st.records|
    ensures i < |Apply(st, e).records|
    ensures Apply(st, e).records[i] == AsCorrected(st.records[i], LastCorrection([e], st.records[i].checkin, st.records[i].user))
  {
    var r := st.records[i];
    assert [e][1..] == [];
    match e
    case Correct(c, u, status) =>
      UpsertedRows(st.records, c, u, status);
      if IsKey(r, c, u) { UpsertedThere(st.records, c, u, status, i); }
    case _ =>
  }

  lemma {:induction false} UpsertedThere(records: seq<Record>, c: int, u: int, status: Status, i: nat)
    requires i < |records| && IsKey(records[i], c, u) && OneRowEach(records)
    ensures i < |Upserted(records, c, u, status)| && Upserted(records, c, u, status)[i] == records[i].(status := status, corrected := true)
  {
    if i > 0 {
      assert !IsKey(records[0], c, u);
      UpsertedThere(records[1..], c, u, status, i - 1);
    }
  }

  /** A record stays for good with the checked_at it was inserted with, and its status
      is the one it was inserted with until corrected, then the last correction: no
      scan ever changes it. */
  lemma {:induction false} RecordsAreKept(st: State, events: seq<Event>, i: nat)
    requires Inv(st) && ValidRun(st, events) && i < |st.records|
    ensures i < |Run(st, events).records|
    ensures Run(st, events).records[i] == AsCorrected(st.records[i], LastCorrection(events, st.records[i].checkin, st.records[i].user))
    decreases |events|
  {
    if events != [] {
      EventKeepsInv(st, events[0]);
      EventKeepsRow(st, events[0], i);
      RecordsAreKept(Apply(st, events[0]), events[1..], i);
      assert [events[0]][1..] == [];
    }
  }

  /** A row that a statement adds is that of a fresh scan, as logged, or a correction
      without a checked_at; and every logged scan adds its row. */
  lemma AddedRows(st: State, e: Event)
    requires Inv(st) && Enabled(st, e)
    ensures var st2 := Apply(st, e);
            if |st2.log| > |st.log| then
              var f := st2.log[|st.log|];
              && st2.records == st.records + [Record(f.checkin, f.user, f.status, Some(f.checkedAt), false)]
              && e.Step? && f.user == st.scans[e.id].user && f.checkin in st.checkins
              && f.status == if st.checkins[f.checkin].lateMinutes > 0
                                && f.checkedAt - st.checkins[f.checkin].startsAt > 60 * st.checkins[f.checkin].lateMinutes
                             then Late else Present
            else if |st2.records| > |st.records| then
              e.Correct? && st2.records[|st.records|] == Record(e.checkin, e.user, e.status, None, true)
            else |st2.records| == |st.records|
  {
    if e.Correct? { UpsertedRows(st.records, e.checkin, e.user, e.status); }
    if e.Step? && st.scans[e.id].pc.Inserted? { assert ScanOk(st, e.id); }
  }

  /** With ten minutes of grace, second 600 is in time and second 601 is late. */
  lemma GraceIsInMinutes()
    ensures var c := Checkin(true, 0, 10, None);
            FreshStatus(c, 120) == FreshStatus(c, 600) == Present && FreshStatus(c, 601) == Late
  {
  }

  /** The fresh scans of a checkin so far. */
  function FreshOf(log: seq<Fresh>, c: int): seq<Fresh> {
    if log == [] then [] else FreshOf(log[..|log| - 1], c) + if log[|log| - 1].checkin == c then [log[|log| - 1]] else []
  }

  /** A statement logs at most one fresh scan, of a checkin that is open. */
  lemma EventLogs(st: State, e: Event) returns (added: seq<Fresh>)
    requires Inv(st) && Enabled(st, e)
    ensures Apply(st, e).log == st.log + added && |added| <= 1
    ensures forall f <- added :: f.checkin in st.checkins && st.checkins[f.checkin].open
  {
    added := [];
    if e.Step? && st.scans[e.id].pc.Inserted? {
      assert ScanOk(st, e.id);
      var s := st.scans[e.id];
      if s.pc.isNew {
        added := [Fresh(s.pc.checkin, s.user, FreshStatus(st.checkins[s.pc.checkin], s.pc.now), s.pc.seen, s.pc.now)];
      }
    }
  }

  lemma FreshOfOthers(log: seq<Fresh>, added: seq<Fresh>, c: int)
    requires |added| <= 1 && forall f <- added :: f.checkin != c
    ensures FreshOf(log + added, c) == FreshOf(log, c)
  {
    if added == [] {
      assert log + added == log;
    } else {
      assert (log + added)[..|log|] == log && (log + added)[|log|] in added;
      assert FreshOf(log, c) + [] == FreshOf(log, c);
    }
  }

  lemma EventAfterClose(st: State, e: Event, c: int)
    requires Inv(st) && Enabled(st, e) && c in st.checkins && !st.checkins[c].open
    ensures var st2 := Apply(st, e); c in st2.checkins && !st2.checkins[c].open && FreshOf(st2.log, c) == FreshOf(st.log, c)
  {
    var added := EventLogs(st, e);
    FreshOfOthers(st.log, added, c);
  }

  /** No scan inserts a record once a close has committed, and a closed checkin stays
      closed. */
  lemma {:induction false} ClosedTakesNoScans(st: State, events: seq<Event>, c: int)
    requires Inv(st) && ValidRun(st, events) && c in st.checkins && !st.checkins[c].open
    ensures var st2 := Run(st, events); c in st2.checkins && !st2.checkins[c].open && FreshOf(st2.log, c) == FreshOf(st.log, c)
    decreases |events|
  {
    if events != [] {
      EventKeepsInv(st, events[0]);
      EventAfterClose(st, events[0], c);
      ClosedTakesNoScans(Apply(st, events[0]), events[1..], c);
    }
  }

  /** In any reachable state, once a fresh scan of a checkin was late, all later ones
      are. */
  lemma LateStaysLate(st: State, events: seq<Event>, i: nat, j: nat)
    requires Initial(st) && ValidRun(st, events)
    requires i < j < |Run(st, events).log| && Run(st, events).log[i].checkin == Run(st, events).log[j].checkin
    ensures Run(st, events).log[i].status == Late ==> Run(st, events).log[j].status == Late
    ensures Run(st, events).log[j].status == Present ==> Run(st, events).log[i].status == Present
  {
    RunKeepsInv(st, events);
    var log := Run(st, events).log;
    assert LogEntryOk(Run(st, events), log[i]) && LogEntryOk(Run(st, events), log[j]);
  }

  /** Every fresh scan passed its expiry check before the deadline. Its checked_at is a
      second reading of the clock and misses the deadline exactly if the deadline fell
      between the two. */
  lemma FreshScansPassTheirExpiryCheck(st: State, events: seq<Event>, k: nat)
    requires Initial(st) && ValidRun(st, events) && k < |Run(st, events).log|
    ensures var st2 := Run(st, events);
            var f := st2.log[k];
            && f.checkin in st2.checkins && !ExpiredAt(st2.checkins[f.checkin], f.seen)
            && (ExpiredAt(st2.checkins[f.checkin], f.checkedAt)
                <==> st2.checkins[f.checkin].expires.Some? && f.seen <= st2.checkins[f.checkin].expires.value < f.checkedAt)
  {
    RunKeepsInv(st, events);
    assert LogEntryOk(Run(st, events), Run(st, events).log[k]);
  }

  lemma RunFrom(st: State, e: Event, st2: State, events: seq<Event>) returns (all: seq<Event>)
    requires Enabled(st, e) && Apply(st, e) == st2 && ValidRun(st2, events)
    ensures ValidRun(st, all) && Run(st, all) == Run(st2, events)
  {
    all := [e] + events;
    assert all[1..] == events;
  }

  /** A scan of code "123456" for user 7, at a point of its way. */
  function Scanning(pc: Pc, clock: int): State {
    State(map["123456" := 1], map[1 := Checkin(true, 0, 0, Some(100))], [],
          if InTransaction(pc) then map[1 := 0] else map[], map[0 := Scan("123456", 7, pc)], clock, [])
  }

  lemma ScanningSteps()
    ensures Apply(Scanning(Start, 100), Step(0)) == Scanning(Locked(1), 100)
    ensures Apply(Scanning(Locked(1), 100), Step(0)) == Scanning(InTime(1, 100), 100)
    ensures Apply(Scanning(InTime(1, 100), 100), Tick(1)) == Scanning(InTime(1, 100), 101)
    ensures Apply(Scanning(InTime(1, 100), 101), Step(0)) == Scanning(Stamped(1, 100, 101), 101)
    ensures Apply(Scanning(Stamped(1, 100, 101), 101), Step(0)) == Scanning(Inserted(1, 100, 101, true), 101)
  {
  }

  /** It can fall there: a record stamped after the deadline. */
  lemma AStampCanMissTheDeadline() returns (st: State, events: seq<Event>)
    ensures Initial(st) && ValidRun(st, events) && 1 in Run(st, events).checkins
    ensures Run(st, events).log == [Fresh(1, 7, Present, 100, 101)] && Run(st, events).checkins[1].expires == Some(100)
  {
    st := Scanning(Start, 100).(scans := map[]);
    ScanningSteps();
    assert Apply(st, Begin(0, "123456", 7)) == Scanning(Start, 100);
    events := CommittedLate();
    events := RunFrom(Scanning(Stamped(1, 100, 101), 101), Step(0), Scanning(Inserted(1, 100, 101, true), 101), events);
    events := RunFrom(Scanning(InTime(1, 100), 101), Step(0), Scanning(Stamped(1, 100, 101), 101), events);
    events := RunFrom(Scanning(InTime(1, 100), 100), Tick(1), Scanning(InTime(1, 100), 101), events);
    events := RunFrom(Scanning(Locked(1), 100), Step(0), Scanning(InTime(1, 100), 100), events);
    events := RunFrom(Scanning(Start, 100), Step(0), Scanning(Locked(1), 100), events);
    events := RunFrom(st, Begin(0, "123456", 7), Scanning(Start, 100), events);
  }

  lemma CommittedLate() returns (events: seq<Event>)
    ensures var st := Scanning(Inserted(1, 100, 101, true), 101);
            && ValidRun(st, events) && 1 in Run(st, events).checkins
            && Run(st, events).log == [Fresh(1, 7, Present, 100, 101)] && Run(st, events).checkins[1].expires == Some(100)
  {
    events := [Step(0)];
    assert events[1..] == [];
  }

  // -- What ends a checkin --------------------------------------------------

  lemma OneEventCloses(st: State, e: Event, c: int)
    requires c in st.checkins
    ensures c in Apply(st, e).checkins
    ensures Apply(st, e).checkins[c].open <==> st.checkins[c].open && e != Close(c)
  {
  }

  /** Only a close closes a checkin: it is open after a run exactly if it was before and
      the run has no close of it. The UPDATE of a scan that finds it expired leaves no
      trace. */
  lemma {:induction false} OnlyACloseCloses(st: State, events: seq<Event>, c: int)
    requires ValidRun(st, events) && c in st.checkins
    ensures c in Run(st, events).checkins
    ensures Run(st, events).checkins[c].open <==> st.checkins[c].open && Close(c) !in events
    decreases |events|
  {
    if events != [] {
      OneEventCloses(st, events[0], c);
      OnlyACloseCloses(Apply(st, events[0]), events[1..], c);
      assert events == [events[0]] + events[1..];
    }
  }

  /** A scan that is refused because its checkin has expired, and the checkin still
      open. */
  lemma AnExpiredCheckinStaysOpen() returns (st: State, events: seq<Event>)
    ensures Initial(st) && ValidRun(st, events)
    ensures var st2 := Run(st, events);
            && 0 in st2.scans && st2.scans[0].pc == Over(Expired)
            && 1 in st2.checkins && ExpiredAt(st2.checkins[1], st2.clock) && st2.checkins[1].open
  {
    st := Scanning(Start, 101).(scans := map[]);
    assert Apply(st, Begin(0, "123456", 7)) == Scanning(Start, 101);
    assert Apply(Scanning(Start, 101), Step(0)) == Scanning(Locked(1), 101);
    assert Apply(Scanning(Locked(1), 101), Step(0)) == Scanning(Over(Expired), 101);
    events := [];
    events := RunFrom(Scanning(Locked(1), 101), Step(0), Scanning(Over(Expired), 101), events);
    events := RunFrom(Scanning(Start, 101), Step(0), Scanning(Locked(1), 101), events);
    events := RunFrom(st, Begin(0, "123456", 7), Scanning(Start, 101), events);
  }
}

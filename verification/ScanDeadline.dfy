/** Scans and the deadline of a checkin: which of them can still insert a record once
    it has passed. */
module ScanDeadline {
  import opened AttendanceStatus
  import opened Common
  import opened ScanHistory
  import opened ScanProtocol
  import opened ScanSteps

  /** The deadline of a checkin has passed. */
  predicate Past(st: State, c: int) {
    c in st.checkins && ExpiredAt(st.checkins[c], st.clock)
  }

  /** A scan of the checkin has passed its expiry check, and its student has no record
      yet. */
  predicate MayInsert(st: State, s: Scan, c: int) {
    && (s.pc.InTime? || s.pc.Stamped? || s.pc.Inserted?) && s.pc.checkin == c
    && if s.pc.Inserted? then s.pc.isNew else !HasRow(st.records, c, s.user)
  }

  ghost predicate SomeMayInsert(st: State, c: int) {
    exists id <- st.scans :: MayInsert(st, st.scans[id], c)
  }

  lemma PastStays(st: State, e: Event, c: int)
    requires Past(st, c)
    ensures Past(Apply(st, e), c)
  {
  }

  lemma RowsStay(st: State, e: Event, c: int, u: int)
    requires Inv(st) && Enabled(st, e) && HasRow(st.records, c, u)
    ensures HasRow(Apply(st, e).records, c, u)
  {
    var i :| 0 <= i < |st.records| && IsKey(st.records[i], c, u);
    EventKeepsRow(st, e, i);
    assert IsKey(Apply(st, e).records[i], c, u);
  }

  /** After the deadline no scan becomes able to insert. */
  lemma MayInsertBefore(st: State, e: Event, c: int, id: nat)
    requires Inv(st) && Enabled(st, e) && Past(st, c)
    requires id in Apply(st, e).scans && MayInsert(Apply(st, e), Apply(st, e).scans[id], c)
    ensures id in st.scans && MayInsert(st, st.scans[id], c)
  {
    if e == Step(id) {
      OwnStepBefore(st, c, id);
    } else {
      var s2 := Apply(st, e).scans[id];
      OthersStay(st, e, id);
      if HasRow(st.records, c, s2.user) { RowsStay(st, e, c, s2.user); }
    }
  }

  lemma OwnStepBefore(st: State, c: int, id: nat)
    requires Inv(st) && Enabled(st, Step(id)) && Past(st, c)
    requires MayInsert(Apply(st, Step(id)), Apply(st, Step(id)).scans[id], c)
    ensures MayInsert(st, st.scans[id], c)
  {
    assert ScanOk(st, id);
  }

  /** A statement of a scan moves that scan alone, and keeps its code and user. */
  lemma StepMovesOne(st: State, id: nat)
    requires id in st.scans
    ensures var st2 := Apply(st, Step(id));
            && st2.scans.Keys == st.scans.Keys && st2.checkins == st.checkins
            && st2.scans[id].user == st.scans[id].user && st2.scans[id].code == st.scans[id].code
            && forall j <- st.scans :: j != id ==> st2.scans[j] == st.scans[j]
  {
    match st.scans[id].pc
    case Start =>
    case Locked(c) =>
    case InTime(c, seen) =>
    case Stamped(c, seen, now) =>
    case Inserted(c, _, _, _) =>
    case Over(_) =>
  }

  /** Another's statement leaves a scan where it is; what it begins or aborts is not
      in a transaction. */
  lemma OthersStay(st: State, e: Event, id: nat)
    requires Enabled(st, e) && e != Step(id) && id in Apply(st, e).scans && InTransaction(Apply(st, e).scans[id].pc)
    ensures id in st.scans && Apply(st, e).scans[id] == st.scans[id]
  {
    if e.Step? { StepMovesOne(st, e.id); }
  }

  /** Who may insert holds the checkin's lock, so it is one scan at most. */
  lemma OneMayInsert(st: State, c: int, i: nat, j: nat)
    requires Inv(st) && i in st.scans && j in st.scans
    requires MayInsert(st, st.scans[i], c) && MayInsert(st, st.scans[j], c)
    ensures i == j
  {
    assert ScanOk(st, i) && ScanOk(st, j);
  }

  lemma SomeMayInsertBefore(st: State, e: Event, c: int)
    requires Inv(st) && Enabled(st, e) && Past(st, c) && SomeMayInsert(Apply(st, e), c)
    ensures SomeMayInsert(st, c)
  {
    var st2 := Apply(st, e);
    var id :| id in st2.scans && MayInsert(st2, st2.scans[id], c);
    MayInsertBefore(st, e, c, id);
  }

  lemma FreshOfOne(log: seq<Fresh>, f: Fresh)
    ensures FreshOf(log + [f], f.checkin) == FreshOf(log, f.checkin) + [f]
  {
    assert (log + [f])[..|log|] == log;
  }

  /** The statement that commits an insert takes the ability to insert with it. */
  lemma InsertEndsIt(st: State, id: nat, c: int)
    requires Inv(st) && Past(st, c) && id in st.scans && st.scans[id].pc.Inserted? && MayInsert(st, st.scans[id], c)
    ensures var st2 := Apply(st, Step(id));
            !SomeMayInsert(st2, c) && |FreshOf(st2.log, c)| == |FreshOf(st.log, c)| + 1
  {
    InsertLogs(st, id, c);
    var st2 := Apply(st, Step(id));
    forall j | j in st2.scans ensures !MayInsert(st2, st2.scans[j], c) {
      if MayInsert(st2, st2.scans[j], c) {
        MayInsertBefore(st, Step(id), c, j);
        OneMayInsert(st, c, id, j);
      }
    }
  }

  lemma InsertLogs(st: State, id: nat, c: int)
    requires Inv(st) && id in st.scans && st.scans[id].pc.Inserted? && MayInsert(st, st.scans[id], c)
    ensures c in st.checkins
    ensures var f := Fresh(c, st.scans[id].user, FreshStatus(st.checkins[c], st.scans[id].pc.now), st.scans[id].pc.seen, st.scans[id].pc.now);
            FreshOf(Apply(st, Step(id)).log, c) == FreshOf(st.log, c) + [f]
    ensures id in Apply(st, Step(id)).scans && Apply(st, Step(id)).scans[id].pc.Over?
  {
    assert ScanOk(st, id);
    var s := st.scans[id];
    FreshOfOne(st.log, Fresh(c, s.user, FreshStatus(st.checkins[c], s.pc.now), s.pc.seen, s.pc.now));
  }

  lemma EventAfterDeadline(st: State, e: Event, c: int)
    requires Inv(st) && Enabled(st, e) && Past(st, c)
    ensures var st2 := Apply(st, e);
            FreshOf(st2.log, c) == FreshOf(st.log, c)
            || (SomeMayInsert(st, c) && !SomeMayInsert(st2, c) && |FreshOf(st2.log, c)| == |FreshOf(st.log, c)| + 1)
  {
    if e.Step? && st.scans[e.id].pc.Inserted? && MayInsert(st, st.scans[e.id], c) {
      InsertEndsIt(st, e.id, c);
    } else {
      var added := EventLogs(st, e);
      forall f | f in added ensures f.checkin != c {
        assert e.Step? && ScanOk(st, e.id) && f == Apply(st, e).log[|st.log|];
      }
      FreshOfOthers(st.log, added, c);
    }
  }

  /** After the deadline of a checkin at most one more record is inserted by a scan, in
      any run, and none unless some scan has passed its expiry check for a student
      without a record. */
  lemma {:induction false} AtMostOneAfterTheDeadline(st: State, events: seq<Event>, c: int)
    requires Inv(st) && ValidRun(st, events) && Past(st, c)
    ensures |FreshOf(Run(st, events).log, c)| <= |FreshOf(st.log, c)| + if SomeMayInsert(st, c) then 1 else 0
    ensures !SomeMayInsert(st, c) ==> FreshOf(Run(st, events).log, c) == FreshOf(st.log, c)
    decreases |events|
  {
    if events != [] {
      var st2 := Apply(st, events[0]);
      EventKeepsInv(st, events[0]);
      PastStays(st, events[0], c);
      EventAfterDeadline(st, events[0], c);
      if SomeMayInsert(st2, c) { SomeMayInsertBefore(st, events[0], c); }
      AtMostOneAfterTheDeadline(st2, events[1..], c);
    }
  }

  /** Statements left until the commit. */
  function Left(pc: Pc): nat {
    match pc case InTime(_, _) => 3 case Stamped(_, _, _) => 2 case Inserted(_, _, _, _) => 1 case _ => 0
  }

  /** Left to itself such a scan does insert. */
  lemma {:induction false} ItDoesInsert(st: State, id: nat, c: int) returns (events: seq<Event>)
    requires Inv(st) && id in st.scans && MayInsert(st, st.scans[id], c)
    ensures ValidRun(st, events) && |FreshOf(Run(st, events).log, c)| == |FreshOf(st.log, c)| + 1
    decreases Left(st.scans[id].pc)
  {
    var st2 := Apply(st, Step(id));
    events := [];
    if st.scans[id].pc.Inserted? {
      InsertLogs(st, id, c);
    } else {
      EventKeepsInv(st, Step(id));
      events := ItDoesInsert(st2, id, c);
    }
    events := RunFrom(st, Step(id), st2, events);
  }

  /** Exactly when a scan can still insert a record after the deadline: when some scan
      has passed its expiry check for a student without a record. */
  lemma InsertsAfterTheDeadlineIff(st: State, c: int)
    requires Inv(st) && Past(st, c)
    ensures (exists events :: ValidRun(st, events) && FreshOf(Run(st, events).log, c) != FreshOf(st.log, c)) <==> SomeMayInsert(st, c)
  {
    if SomeMayInsert(st, c) {
      var id :| id in st.scans && MayInsert(st, st.scans[id], c);
      var events := ItDoesInsert(st, id, c);
      assert ValidRun(st, events) && FreshOf(Run(st, events).log, c) != FreshOf(st.log, c);
    } else {
      forall events | ValidRun(st, events) ensures FreshOf(Run(st, events).log, c) == FreshOf(st.log, c) {
        AtMostOneAfterTheDeadline(st, events, c);
      }
    }
  }

  /** A scan whose stamp is, or will be, after the deadline. */
  predicate StampMisses(st: State, s: Scan, c: int) {
    c in st.checkins && (s.pc.InTime? || ((s.pc.Stamped? || s.pc.Inserted?) && ExpiredAt(st.checkins[c], s.pc.now)))
  }

  /** Another statement leaves the stamp of a scan that goes on alone. */
  lemma StampStays(st: State, e: Event, c: int, id: nat)
    requires Inv(st) && Enabled(st, e) && Past(st, c) && id in st.scans && MayInsert(st, st.scans[id], c)
    requires id in Apply(st, e).scans && MayInsert(Apply(st, e), Apply(st, e).scans[id], c)
    ensures StampMisses(Apply(st, e), Apply(st, e).scans[id], c) <==> StampMisses(st, st.scans[id], c)
  {
    if e != Step(id) { OthersStay(st, e, id); }
  }

  /** Of a record inserted after the deadline: its checked_at misses the deadline exactly
      if the scan had not read the clock again, or had read it too late, when the
      deadline was seen to have passed. */
  lemma {:induction false} LateStampIff(st: State, events: seq<Event>, c: int, id: nat)
    requires Inv(st) && ValidRun(st, events) && Past(st, c) && id in st.scans && MayInsert(st, st.scans[id], c)
    requires |FreshOf(Run(st, events).log, c)| > |FreshOf(st.log, c)|
    ensures var f := FreshOf(Run(st, events).log, c)[|FreshOf(st.log, c)|];
            f.user == st.scans[id].user && (ExpiredAt(st.checkins[c], f.checkedAt) <==> StampMisses(st, st.scans[id], c))
    decreases |events|
  {
    assert events != [];
    var e := events[0];
    var st2 := Apply(st, e);
    EventKeepsInv(st, e);
    PastStays(st, e, c);
    if e == Step(id) && st.scans[id].pc.Inserted? {
      InsertEndsIt(st, id, c);
      InsertLogs(st, id, c);
      AtMostOneAfterTheDeadline(st2, events[1..], c);
    } else {
      NoInsertYet(st, e, c, id);
      AtMostOneAfterTheDeadline(st2, events[1..], c);
      var j :| j in st2.scans && MayInsert(st2, st2.scans[j], c);
      MayInsertBefore(st, e, c, j);
      OneMayInsert(st, c, id, j);
      StampStays(st, e, c, id);
      SameDeadline(st, e, c);
      SameUser(st, e, id);
      LateStampIff(st2, events[1..], c, id);
    }
  }

  lemma NoInsertYet(st: State, e: Event, c: int, id: nat)
    requires Inv(st) && Enabled(st, e) && Past(st, c) && id in st.scans && MayInsert(st, st.scans[id], c)
    requires !(e == Step(id) && st.scans[id].pc.Inserted?)
    ensures FreshOf(Apply(st, e).log, c) == FreshOf(st.log, c)
  {
    var added := EventLogs(st, e);
    if e.Step? && MayInsert(st, st.scans[e.id], c) { OneMayInsert(st, c, id, e.id); }
    forall f | f in added ensures f.checkin != c {
      assert e.Step? && ScanOk(st, e.id) && f == Apply(st, e).log[|st.log|];
    }
    FreshOfOthers(st.log, added, c);
  }

  lemma SameDeadline(st: State, e: Event, c: int)
    requires c in st.checkins
    ensures c in Apply(st, e).checkins && Apply(st, e).checkins[c].expires == st.checkins[c].expires
  {
    if e.Step? && e.id in st.scans { StepMovesOne(st, e.id); }
  }

  lemma SameUser(st: State, e: Event, id: nat)
    requires Enabled(st, e) && id in st.scans
    ensures id in Apply(st, e).scans && Apply(st, e).scans[id].user == st.scans[id].user
  {
    if e.Step? { StepMovesOne(st, e.id); }
  }

  /** It can: a scan stamped at the deadline that inserts and commits after it. */
  lemma AnInsertCanFollowTheDeadline() returns (st: State, before: seq<Event>, after: seq<Event>)
    ensures Initial(st) && ValidRun(st, before) && ValidRun(Run(st, before), after)
    ensures var late := Run(st, before);
            var end := Run(late, after);
            && Past(late, 1) && late.records == [] && late.log == []
            && end.log == [Fresh(1, 7, Present, 100, 100)] && !ExpiredAt(late.checkins[1], 100)
            && end.records == [Record(1, 7, Present, Some(100), false)]
  {
    st := Scanning(Start, 100).(scans := map[]);
    StepsToTheDeadline();
    before := [];
    before := RunFrom(Scanning(Stamped(1, 100, 100), 100), Tick(1), Scanning(Stamped(1, 100, 100), 101), before);
    before := RunFrom(Scanning(InTime(1, 100), 100), Step(0), Scanning(Stamped(1, 100, 100), 100), before);
    before := RunFrom(Scanning(Locked(1), 100), Step(0), Scanning(InTime(1, 100), 100), before);
    before := RunFrom(Scanning(Start, 100), Step(0), Scanning(Locked(1), 100), before);
    before := RunFrom(st, Begin(0, "123456", 7), Scanning(Start, 100), before);
    after := CommittedAfter();
  }

  lemma StepsToTheDeadline()
    ensures Apply(Scanning(Start, 100).(scans := map[]), Begin(0, "123456", 7)) == Scanning(Start, 100)
    ensures Apply(Scanning(Start, 100), Step(0)) == Scanning(Locked(1), 100)
    ensures Apply(Scanning(Locked(1), 100), Step(0)) == Scanning(InTime(1, 100), 100)
    ensures Apply(Scanning(InTime(1, 100), 100), Step(0)) == Scanning(Stamped(1, 100, 100), 100)
    ensures Apply(Scanning(Stamped(1, 100, 100), 100), Tick(1)) == Scanning(Stamped(1, 100, 100), 101)
  {
  }

  lemma CommittedAfter() returns (events: seq<Event>)
    ensures var st := Scanning(Stamped(1, 100, 100), 101);
            && ValidRun(st, events) && Run(st, events).log == [Fresh(1, 7, Present, 100, 100)]
            && Run(st, events).records == [Record(1, 7, Present, Some(100), false)]
  {
    var st, st2 := Scanning(Stamped(1, 100, 100), 101), Scanning(Inserted(1, 100, 100, true), 101);
    assert Apply(st, Step(0)) == st2;
    events := [];
    events := RunFrom(st2, Step(0), Apply(st2, Step(0)), events);
    events := RunFrom(st, Step(0), st2, events);
  }
}

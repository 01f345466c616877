/** What the answers of scans are worth when scans, closes and corrections race: in every
    run each answer is true of the tables at the statement that gives it. */
module ScanAnswers {
  import opened AttendanceStatus
  import opened Common
  import opened ScanDeadline
  import opened ScanHistory
  import opened ScanProtocol
  import opened ScanSteps

  // -- True answers ---------------------------------------------------------

  ghost predicate Recorded(records: seq<Record>, c: int, u: int) {
    exists i :: 0 <= i < |records| && records[i].checkin == c && records[i].user == u
  }

  lemma RecordedIsHasRow(records: seq<Record>, c: int, u: int)
    ensures Recorded(records, c, u) <==> HasRow(records, c, u)
  {
    if Recorded(records, c, u) {
      var i :| 0 <= i < |records| && records[i].checkin == c && records[i].user == u;
      assert IsKey(records[i], c, u);
    }
  }

  /** The status of a scan at `now`: late when more than the minutes of grace have passed
      since the start. */
  function StatusAt(c: Checkin, now: int): Status {
    if c.lateMinutes > 0 && now - c.startsAt > 60 * c.lateMinutes then Late else Present
  }

  /** The open checkin with this code. */
  ghost predicate Names(st: State, code: string, c: int) {
    code in st.codes && st.codes[code] == c && c in st.checkins && st.checkins[c].open
  }

  /** A scan answered between st and st2 by event e. */
  ghost predicate TrueScanAnswer(e: Event, st: State, st2: State, code: string, user: int, result: Result) {
    match result
    case CodeNotFound => st2.records == st.records && (code in st.codes ==> st.codes[code] !in st.checkins)
    case NotActive =>
      st2.records == st.records && code in st.codes && st.codes[code] in st.checkins && !st.checkins[st.codes[code]].open
    case Expired =>
      st2.records == st.records
      && exists c :: Names(st, code, c) && st.checkins[c].expires.Some? && st.clock > st.checkins[c].expires.value
    case Aborted => st2.records == st.records && e.Abort?
    case Done(isNew) => exists c, now :: TrueScan(st, st2, code, user, isNew, c, now)
  }

  /** The scan took effect on checkin c with the clock reading `now`, or found its student
      recorded. */
  ghost predicate TrueScan(st: State, st2: State, code: string, user: int, isNew: bool, c: int, now: int) {
    && Names(st, code, c) && now <= st.clock
    && if isNew then
         !Recorded(st.records, c, user)
         && st2.records == st.records + [Record(c, user, StatusAt(st.checkins[c], now), Some(now), false)]
       else Recorded(st.records, c, user) && st2.records == st.records
  }

  // -- What a scan on its way knows -----------------------------------------

  /** It works on the checkin of its code, and has found a record if it says so. */
  ghost predicate KnowsOk(st: State, s: Scan) {
    InTransaction(s.pc) ==>
      && s.code in st.codes && st.codes[s.code] == s.pc.checkin
      && (s.pc.Inserted? && !s.pc.isNew ==> HasRow(st.records, s.pc.checkin, s.user))
  }

  ghost predicate Sound(st: State) {
    Inv(st) && forall id <- st.scans :: KnowsOk(st, st.scans[id])
  }

  lemma CodesStay(st: State, e: Event)
    ensures Apply(st, e).codes == st.codes
  {
  }

  lemma RecordsOnlyGrow(st: State, e: Event, c: int, u: int)
    requires Inv(st) && Enabled(st, e) && HasRow(st.records, c, u)
    ensures HasRow(Apply(st, e).records, c, u)
  {
    RowsStay(st, e, c, u);
  }

  lemma OwnStepKnows(st: State, id: nat)
    requires Sound(st) && Enabled(st, Step(id))
    ensures id in Apply(st, Step(id)).scans && KnowsOk(Apply(st, Step(id)), Apply(st, Step(id)).scans[id])
  {
    assert KnowsOk(st, st.scans[id]) && ScanOk(st, id);
  }

  lemma EventKeepsKnows(st: State, e: Event, id: nat)
    requires Sound(st) && Enabled(st, e) && id in Apply(st, e).scans
    ensures KnowsOk(Apply(st, e), Apply(st, e).scans[id])
  {
    var st2 := Apply(st, e);
    if e == Step(id) {
      OwnStepKnows(st, id);
    } else if InTransaction(st2.scans[id].pc) {
      OthersStay(st, e, id);
      CodesStay(st, e);
      var s := st.scans[id];
      assert KnowsOk(st, s);
      if s.pc.Inserted? && !s.pc.isNew { RecordsOnlyGrow(st, e, s.pc.checkin, s.user); }
    }
  }

  lemma EventKeepsSound(st: State, e: Event)
    requires Sound(st) && Enabled(st, e)
    ensures Sound(Apply(st, e))
  {
    EventKeepsInv(st, e);
    forall id | id in Apply(st, e).scans ensures KnowsOk(Apply(st, e), Apply(st, e).scans[id]) {
      EventKeepsKnows(st, e, id);
    }
  }

  // -- One statement --------------------------------------------------------

  /** What happens to scan id: it is answered truly, or goes on. */
  ghost predicate StepIsTrue(e: Event, st: State, st2: State, id: nat)
    requires id in st.scans && id in st2.scans
  {
    st2.scans[id].pc.Over? ==> TrueScanAnswer(e, st, st2, st.scans[id].code, st.scans[id].user, st2.scans[id].pc.result)
  }

  lemma CommitIsTrue(st: State, id: nat)
    requires Sound(st) && id in st.scans && st.scans[id].pc.Inserted?
    ensures id in Apply(st, Step(id)).scans && StepIsTrue(Step(id), st, Apply(st, Step(id)), id)
  {
    var s := st.scans[id];
    var c, now := s.pc.checkin, s.pc.now;
    assert KnowsOk(st, s) && ScanOk(st, id);
    RecordedIsHasRow(st.records, c, s.user);
    assert TrueScan(st, Apply(st, Step(id)), s.code, s.user, s.pc.isNew, c, now);
  }

  lemma CheckIsTrue(st: State, id: nat)
    requires Sound(st) && id in st.scans && st.scans[id].pc.Locked?
    ensures id in Apply(st, Step(id)).scans && StepIsTrue(Step(id), st, Apply(st, Step(id)), id)
  {
    assert KnowsOk(st, st.scans[id]) && ScanOk(st, id);
    assert Names(st, st.scans[id].code, st.scans[id].pc.checkin);
  }

  lemma OtherStepsAreTrue(st: State, id: nat)
    requires id in st.scans && (st.scans[id].pc.Start? || st.scans[id].pc.InTime? || st.scans[id].pc.Stamped?)
    ensures id in Apply(st, Step(id)).scans && StepIsTrue(Step(id), st, Apply(st, Step(id)), id)
  {
  }

  lemma OwnEventIsTrue(st: State, e: Event, id: nat)
    requires Sound(st) && Enabled(st, e) && (e == Step(id) || e == Abort(id))
    ensures id in st.scans && id in Apply(st, e).scans && StepIsTrue(e, st, Apply(st, e), id)
  {
    if e.Step? {
      match st.scans[id].pc
      case Locked(_) => CheckIsTrue(st, id);
      case Inserted(_, _, _, _) => CommitIsTrue(st, id);
      case _ => OtherStepsAreTrue(st, id);
    }
  }

  lemma OthersKeepGoing(st: State, e: Event, id: nat)
    requires Enabled(st, e) && id in st.scans && e != Step(id) && e != Abort(id)
    ensures id in Apply(st, e).scans && Apply(st, e).scans[id] == st.scans[id]
  {
    if e.Step? { StepMovesOne(st, e.id); }
  }

  // -- Every run ------------------------------------------------------------

  /** The state after the first n events. */
  ghost function StateAt(st: State, events: seq<Event>, n: nat): State
    requires n <= |events|
    decreases |events|
  {
    if n == 0 then st else StateAt(Apply(st, events[0]), events[1..], n - 1)
  }

  lemma {:induction false} StateAtIsRun(st: State, events: seq<Event>, n: nat)
    requires n <= |events|
    ensures StateAt(st, events, n) == Run(st, events[..n])
    decreases |events|
  {
    if n > 0 {
      StateAtIsRun(Apply(st, events[0]), events[1..], n - 1);
      assert events[..n][1..] == events[1..][..n - 1];
    }
  }

  ghost predicate AnsweredAt(st: State, events: seq<Event>, m: nat, id: nat, code: string, user: int, result: Result) {
    && m < |events| && (events[m] == Step(id) || events[m] == Abort(id))
    && TrueScanAnswer(events[m], StateAt(st, events, m), StateAt(st, events, m + 1), code, user, result)
  }

  lemma AnsweredLater(st: State, events: seq<Event>, m: nat, id: nat, code: string, user: int, result: Result)
    requires events != [] && AnsweredAt(Apply(st, events[0]), events[1..], m, id, code, user, result)
    ensures AnsweredAt(st, events, m + 1, id, code, user, result)
  {
    assert events[1..][m] == events[m + 1];
  }

  lemma {:induction false} OverStays(st: State, events: seq<Event>, id: nat)
    requires ValidRun(st, events) && id in st.scans && st.scans[id].pc.Over?
    ensures id in Run(st, events).scans && Run(st, events).scans[id] == st.scans[id]
    decreases |events|
  {
    if events != [] {
      OthersKeepGoing(st, events[0], id);
      OverStays(Apply(st, events[0]), events[1..], id);
    }
  }

  lemma AnsweredNow(st: State, events: seq<Event>, id: nat)
    requires Sound(st) && ValidRun(st, events) && events != [] && (events[0] == Step(id) || events[0] == Abort(id))
    requires id in st.scans && id in Apply(st, events[0]).scans && Apply(st, events[0]).scans[id].pc.Over?
    ensures id in Run(st, events).scans && Run(st, events).scans[id].pc.Over?
    ensures AnsweredAt(st, events, 0, id, st.scans[id].code, st.scans[id].user, Run(st, events).scans[id].pc.result)
  {
    var st2 := Apply(st, events[0]);
    OwnEventIsTrue(st, events[0], id);
    OverStays(st2, events[1..], id);
    assert StateAt(st, events, 1) == StateAt(st2, events[1..], 0) == st2;
  }

  /** In every run, a scan that is over was answered truly by one of its own events: its
      record was added there with the status its time calls for, or its student had one,
      or the code, the state or the deadline of the checkin refused it. */
  lemma {:induction false} EveryScanAnswerIsTrue(st: State, events: seq<Event>, id: nat) returns (m: nat)
    requires Sound(st) && ValidRun(st, events)
    requires id in st.scans && !st.scans[id].pc.Over? && id in Run(st, events).scans && Run(st, events).scans[id].pc.Over?
    ensures AnsweredAt(st, events, m, id, st.scans[id].code, st.scans[id].user, Run(st, events).scans[id].pc.result)
    decreases |events|
  {
    var e := events[0];
    var st2 := Apply(st, e);
    EventKeepsSound(st, e);
    if e == Step(id) || e == Abort(id) {
      OwnEventIsTrue(st, e, id);
      if st2.scans[id].pc.Over? {
        AnsweredNow(st, events, id);
        return 0;
      }
      SameScan(st, e, id);
    } else {
      OthersKeepGoing(st, e, id);
    }
    m := EveryScanAnswerIsTrue(st2, events[1..], id);
    AnsweredLater(st, events, m, id, st.scans[id].code, st.scans[id].user, Run(st, events).scans[id].pc.result);
    m := m + 1;
  }

  lemma SameScan(st: State, e: Event, id: nat)
    requires id in st.scans && (e == Step(id) || e == Abort(id))
    ensures id in Apply(st, e).scans && Apply(st, e).scans[id].code == st.scans[id].code && Apply(st, e).scans[id].user == st.scans[id].user
  {
    if e.Step? { StepMovesOne(st, id); }
  }

  /** Initial states are sound, and so are those with scans that have just begun. */
  lemma InitialIsSound(st: State)
    requires Initial(st)
    ensures Sound(st)
  {
  }
}

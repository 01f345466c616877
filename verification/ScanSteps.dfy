/** Every statement of scans, closes and corrections keeps the invariant. */
module ScanSteps {
  import opened AttendanceStatus
  import opened Common
  import opened ScanProtocol

  // -- Every statement keeps it ---------------------------------------------

  lemma BeginKeepsInv(st: State, id: nat, code: string, user: int)
    requires Inv(st) && Enabled(st, Begin(id, code, user))
    ensures Inv(Apply(st, Begin(id, code, user)))
  {
    var st2 := Apply(st, Begin(id, code, user));
    forall i | i in st2.scans ensures ScanOk(st2, i) {
      assert i != id ==> ScanOk(st, i);
    }
    SameLog(st, st2);
  }

  /** The log stays in order while checkins keep their times and the clock goes on. */
  lemma SameLog(st: State, st2: State)
    requires LogOk(st) && st2.log == st.log && st.clock <= st2.clock
    requires forall c <- st.checkins :: c in st2.checkins && st2.checkins[c] == st.checkins[c].(open := st2.checkins[c].open)
    ensures LogOk(st2)
  {
    forall f | f in st2.log ensures LogEntryOk(st2, f) {
      assert LogEntryOk(st, f);
    }
  }

  lemma EndedKeepsInv(st: State, id: nat, result: Result)
    requires Inv(st) && id in st.scans
    ensures Inv(Ended(st, id, result))
  {
    var st2 := Ended(st, id, result);
    assert ScanOk(st, id);
    forall i | i in st2.scans ensures ScanOk(st2, i) {
      assert i != id ==> ScanOk(st, i);
    }
    SameLog(st, st2);
  }

  /** A scan that goes on with the lock it holds. */
  lemma MovedKeepsInv(st: State, id: nat, pc: Pc)
    requires Inv(st) && id in st.scans && InTransaction(st.scans[id].pc) && InTransaction(pc) && pc.checkin == st.scans[id].pc.checkin
    requires var s := st.scans[id].(pc := pc);
             LockOk(st, id, s) && TimesOk(st, s) && AfterLog(st, s)
    ensures Inv(Moved(st, id, pc))
  {
    var st2 := Moved(st, id, pc);
    forall i | i in st2.scans ensures ScanOk(st2, i) {
      assert ScanOk(st, i);
    }
    SameLog(st, st2);
  }

  lemma FetchedKeepsInv(st: State, id: nat)
    requires Inv(st) && id in st.scans && st.scans[id].pc.Start? && Enabled(st, Step(id))
    ensures Inv(Fetched(st, id))
  {
    var code := st.scans[id].code;
    if code !in st.codes || st.codes[code] !in st.checkins {
      EndedKeepsInv(st, id, CodeNotFound);
    } else if !st.checkins[st.codes[code]].open {
      EndedKeepsInv(st, id, NotActive);
    } else {
      var st2 := Fetched(st, id);
      forall i | i in st2.scans ensures ScanOk(st2, i) {
        assert ScanOk(st, i);
      }
      SameLog(st, st2);
    }
  }

  lemma StepKeepsInv(st: State, id: nat)
    requires Inv(st) && Enabled(st, Step(id))
    ensures Inv(Apply(st, Step(id)))
  {
    var s := st.scans[id];
    assert ScanOk(st, id);
    match s.pc
    case Start => FetchedKeepsInv(st, id);
    case Locked(c) =>
      if c in st.checkins && ExpiredAt(st.checkins[c], st.clock) {
        EndedKeepsInv(st, id, Expired);
      } else {
        MovedKeepsInv(st, id, InTime(c, st.clock));
      }
    case InTime(c, seen) =>
      StampIsAfterLog(st, s.(pc := Stamped(c, seen, st.clock)));
      MovedKeepsInv(st, id, Stamped(c, seen, st.clock));
    case Stamped(c, seen, now) => MovedKeepsInv(st, id, Inserted(c, seen, now, !HasRow(st.records, c, s.user)));
    case Inserted(c, _, _, _) => CommittedKeepsInv(st, id);
  }

  lemma StampIsAfterLog(st: State, s: Scan)
    requires LogOk(st) && s.pc.Stamped? && s.pc.now == st.clock
    ensures AfterLog(st, s)
  {
    forall k | 0 <= k < |st.log| ensures st.log[k].checkedAt <= st.clock {
      assert st.log[k] in st.log && LogEntryOk(st, st.log[k]);
    }
  }

  ghost predicate NobodyHolds(st: State, c: int) {
    forall id <- st.scans :: !(InTransaction(st.scans[id].pc) && st.scans[id].pc.checkin == c)
  }

  lemma AppendKeepsInv(st: State, r: Record, f: Fresh)
    requires Inv(st) && NobodyHolds(st, r.checkin) && !HasRow(st.records, r.checkin, r.user)
    requires f.checkin == r.checkin && LogEntryOk(st, f)
    requires forall k :: 0 <= k < |st.log| && st.log[k].checkin == f.checkin ==> st.log[k].checkedAt <= f.checkedAt
    ensures Inv(st.(records := st.records + [r], log := st.log + [f]))
  {
    var st2 := st.(records := st.records + [r], log := st.log + [f]);
    forall i | 0 <= i < |st.records| ensures !IsKey(st.records[i], r.checkin, r.user) {}
    assert OneRowEach(st2.records);
    forall id | id in st2.scans ensures ScanOk(st2, id) {
      assert ScanOk(st, id);
      OtherKeys(st.records, r, st.scans[id]);
    }
    forall x | x in st2.log ensures LogEntryOk(st2, x) {
      assert x == f || LogEntryOk(st, x);
    }
  }

  lemma OtherKeys(records: seq<Record>, r: Record, s: Scan)
    requires !(InTransaction(s.pc) && s.pc.checkin == r.checkin)
    ensures InTransaction(s.pc) && !HasRow(records, s.pc.checkin, s.user) ==> !HasRow(records + [r], s.pc.checkin, s.user)
  {
    if InTransaction(s.pc) && HasRow(records + [r], s.pc.checkin, s.user) {
      var i :| 0 <= i < |records| + 1 && IsKey((records + [r])[i], s.pc.checkin, s.user);
      assert IsKey(records[i], s.pc.checkin, s.user);
    }
  }

  lemma CommittedKeepsInv(st: State, id: nat)
    requires Inv(st) && id in st.scans && st.scans[id].pc.Inserted?
    ensures st.scans[id].pc.checkin in st.checkins && Inv(Committed(st, id))
  {
    var s := st.scans[id];
    var c := s.pc.checkin;
    assert ScanOk(st, id);
    var ended := Ended(st, id, Done(s.pc.isNew));
    EndedKeepsInv(st, id, Done(s.pc.isNew));
    if s.pc.isNew {
      forall i | i in ended.scans ensures !(InTransaction(ended.scans[i].pc) && ended.scans[i].pc.checkin == c) {
        assert ScanOk(st, i);
      }
      var status := FreshStatus(st.checkins[c], s.pc.now);
      AppendKeepsInv(ended, Record(c, s.user, status, Some(s.pc.now), false), Fresh(c, s.user, status, s.pc.seen, s.pc.now));
    }
  }

  lemma CloseKeepsInv(st: State, c: int)
    requires Inv(st) && Enabled(st, Close(c))
    ensures Inv(Apply(st, Close(c)))
  {
    var st2 := Apply(st, Close(c));
    forall i | i in st2.scans ensures ScanOk(st2, i) {
      assert ScanOk(st, i);
    }
    SameLog(st, st2);
  }

  lemma HasRowTail(records: seq<Record>, c: int, u: int)
    requires records != []
    ensures HasRow(records, c, u) <==> IsKey(records[0], c, u) || HasRow(records[1..], c, u)
  {
    if HasRow(records, c, u) {
      var i :| 0 <= i < |records| && IsKey(records[i], c, u);
      assert i > 0 ==> IsKey(records[1..][i - 1], c, u);
    }
    if HasRow(records[1..], c, u) {
      var i :| 0 <= i < |records| - 1 && IsKey(records[1..][i], c, u);
      assert IsKey(records[i + 1], c, u);
    }
  }

  /** A correction adds a row at the end if its key has none. */
  lemma {:induction false} UpsertedLength(records: seq<Record>, c: int, u: int, status: Status)
    ensures var after := Upserted(records, c, u, status);
            && |after| == |records| + (if HasRow(records, c, u) then 0 else 1)
            && (!HasRow(records, c, u) ==> after[|records|] == Record(c, u, status, None, true))
  {
    if records != [] {
      HasRowTail(records, c, u);
      if !IsKey(records[0], c, u) { UpsertedLength(records[1..], c, u, status); }
    }
  }

  /** A correction leaves every row in its place, with its key and its checked_at, and
      changes no row of another key. */
  lemma {:induction false} UpsertedAt(records: seq<Record>, c: int, u: int, status: Status, i: nat)
    requires i < |records|
    ensures var after := Upserted(records, c, u, status);
            && i < |after|
            && after[i].checkin == records[i].checkin && after[i].user == records[i].user && after[i].checkedAt == records[i].checkedAt
            && (!IsKey(records[i], c, u) ==> after[i] == records[i])
  {
    if i > 0 && !IsKey(records[0], c, u) { UpsertedAt(records[1..], c, u, status, i - 1); }
  }

  lemma UpsertedRows(records: seq<Record>, c: int, u: int, status: Status)
    ensures var after := Upserted(records, c, u, status);
            && |records| <= |after| <= |records| + 1
            && (forall i :: 0 <= i < |records| ==>
                  after[i].checkin == records[i].checkin && after[i].user == records[i].user
                  && after[i].checkedAt == records[i].checkedAt)
            && (forall i :: 0 <= i < |records| && !IsKey(records[i], c, u) ==> after[i] == records[i])
            && (|after| > |records| ==> !HasRow(records, c, u) && after[|records|] == Record(c, u, status, None, true))
  {
    UpsertedLength(records, c, u, status);
    var after := Upserted(records, c, u, status);
    forall i | 0 <= i < |records|
      ensures after[i].checkin == records[i].checkin && after[i].user == records[i].user && after[i].checkedAt == records[i].checkedAt
      ensures !IsKey(records[i], c, u) ==> after[i] == records[i] {
      UpsertedAt(records, c, u, status, i);
    }
  }

  lemma CorrectKeepsInv(st: State, c: int, u: int, status: Status)
    requires Inv(st) && Enabled(st, Correct(c, u, status))
    ensures Inv(Apply(st, Correct(c, u, status)))
  {
    var st2 := Apply(st, Correct(c, u, status));
    UpsertedRows(st.records, c, u, status);
    forall i, j | 0 <= i < j < |st2.records| ensures !IsKey(st2.records[i], st2.records[j].checkin, st2.records[j].user) {
      if j < |st.records| { assert !IsKey(st.records[i], st.records[j].checkin, st.records[j].user); }
    }
    forall id | id in st2.scans ensures ScanOk(st2, id) {
      assert ScanOk(st, id) && !Pending(st.scans[id], c, u);
      var s := st.scans[id];
      if InTransaction(s.pc) && HasRow(st2.records, s.pc.checkin, s.user) { UpsertedKeys(st.records, c, u, status, s); }
    }
    SameLog(st, st2);
  }

  lemma UpsertedKeys(records: seq<Record>, c: int, u: int, status: Status, s: Scan)
    requires InTransaction(s.pc) && HasRow(Upserted(records, c, u, status), s.pc.checkin, s.user)
    ensures HasRow(records, s.pc.checkin, s.user) || (s.pc.checkin == c && s.user == u)
  {
    UpsertedRows(records, c, u, status);
    var after := Upserted(records, c, u, status);
    var i :| 0 <= i < |after| && IsKey(after[i], s.pc.checkin, s.user);
    if i < |records| { assert IsKey(records[i], s.pc.checkin, s.user); }
  }

  lemma TickKeepsInv(st: State, d: nat)
    requires Inv(st)
    ensures Inv(Apply(st, Tick(d)))
  {
    var st2 := Apply(st, Tick(d));
    forall i | i in st2.scans ensures ScanOk(st2, i) {
      assert ScanOk(st, i);
    }
    SameLog(st, st2);
  }

  lemma EventKeepsInv(st: State, e: Event)
    requires Inv(st) && Enabled(st, e)
    ensures Inv(Apply(st, e))
  {
    match e
    case Begin(id, code, user) => BeginKeepsInv(st, id, code, user);
    case Step(id) => StepKeepsInv(st, id);
    case Abort(id) => EndedKeepsInv(st, id, Aborted);
    case Close(c) => CloseKeepsInv(st, c);
    case Correct(c, u, status) => CorrectKeepsInv(st, c, u, status);
    case Tick(d) => TickKeepsInv(st, d);
  }

  lemma {:induction false} RunKeepsInv(st: State, events: seq<Event>)
    requires Inv(st) && ValidRun(st, events)
    ensures Inv(Run(st, events))
    decreases |events|
  {
    if events != [] {
      EventKeepsInv(st, events[0]);
      RunKeepsInv(Apply(st, events[0]), events[1..]);
    }
  }
}

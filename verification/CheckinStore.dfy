/** Scans, closes and corrections as a caller sees them when nobody else is active
    (ScanByCode and CloseCheckin in attendance/store.go, UpsertRecord in
    attendance/store_records.go). */
module CheckinStore {
  import opened AttendanceStatus
  import opened Common
  import opened ScanHistory
  import opened ScanProtocol
  import opened ScanSteps

  datatype Answer = Refused(result: Result) | Checked(checkin: int, status: Status, isNew: bool)

  datatype CloseResult = ClosedNow | NotFound | AlreadyClosed

  datatype UpsertResult = Saved | NoCheckin | NoStudent

  /** The row of a key. */
  function RowOf(records: seq<Record>, c: int, u: int): Record
    requires HasRow(records, c, u)
  {
    if IsKey(records[0], c, u) then records[0]
    else
      assert exists i :: 0 <= i < |records[1..]| && IsKey(records[1..][i], c, u) by {
        HasRowTail(records, c, u);
      }
      RowOf(records[1..], c, u)
  }

  lemma {:induction false} RowOfKey(records: seq<Record>, c: int, u: int)
    requires HasRow(records, c, u)
    ensures IsKey(RowOf(records, c, u), c, u) && RowOf(records, c, u) in records
  {
    HasRowTail(records, c, u);
    if !IsKey(records[0], c, u) { RowOfKey(records[1..], c, u); }
  }

  class Store {
    const users: set<int>
    var codes: map<string, int>
    var checkins: map<int, Checkin>
    var records: seq<Record>

    /** Codes are unique and belong to checkins; a checkin has one record per user. */
    ghost predicate Valid()
      reads this
    {
      OneRowEach(records) && forall code <- codes :: codes[code] in checkins
    }

    constructor (users: set<int>, codes: map<string, int>, checkins: map<int, Checkin>)
      requires forall code <- codes :: codes[code] in checkins
      ensures Valid() && this.users == users && this.codes == codes && this.checkins == checkins && records == []
    {
      this.users := users;
      this.codes, this.checkins, records := codes, checkins, [];
    }

    /** `seen` and `now` are the two readings of the clock. A second scan changes
        nothing and reports the stored status, corrected or not; and an expired
        checkin is not closed, because its UPDATE is rolled back. */
    method ScanByCode(code: string, user: int, seen: int, now: int) returns (r: Answer)
      requires Valid() && seen <= now
      modifies this`records
      ensures Valid()
      ensures r == Refused(CodeNotFound) <==> code !in codes
      ensures r == Refused(NotActive) <==> code in codes && !checkins[codes[code]].open
      ensures r == Refused(Expired) <==>
                code in codes && checkins[codes[code]].open
                && checkins[codes[code]].expires.Some? && seen > checkins[codes[code]].expires.value
      ensures r.Checked? ==>
                code in codes && r.checkin == codes[code]
                && (r.isNew <==> forall x <- old(records) :: x.checkin != codes[code] || x.user != user)
      ensures r.Checked? && r.isNew ==>
                var c := checkins[codes[code]];
                && r.status == (if c.lateMinutes > 0 && now - c.startsAt > 60 * c.lateMinutes then Late else Present)
                && records == old(records) + [Record(codes[code], user, r.status, Some(now), false)]
      ensures r.Checked? && !r.isNew ==>
                records == old(records) && exists x <- records :: x.checkin == codes[code] && x.user == user && x.status == r.status
      ensures r.Refused? ==> records == old(records)
      ensures r.Refused? <==> !Accepts(codes, checkins, code, seen)
      ensures Accepts(codes, checkins, code, seen) && HasRow(old(records), codes[code], user) ==>
                records == old(records) && r == Checked(codes[code], RowOf(old(records), codes[code], user).status, false)
      ensures Accepts(codes, checkins, code, seen) && !HasRow(old(records), codes[code], user) ==>
                var status := FreshStatus(checkins[codes[code]], now);
                r == Checked(codes[code], status, true) && records == old(records) + [Record(codes[code], user, status, Some(now), false)]
    {
      if code !in codes { return Refused(CodeNotFound); }
      var id := codes[code];
      var c := checkins[id];
      if !c.open { return Refused(NotActive); }
      if c.expires.Some? && seen > c.expires.value { return Refused(Expired); }
      var status := Present;
      if c.lateMinutes > 0 && now > c.startsAt + c.lateMinutes * 60 { status := Late; }
      HasRowMeans(records, id, user);
      if HasRow(records, id, user) { return Checked(id, RowOf(records, id, user).status, false); }
      records := records + [Record(id, user, status, Some(now), false)];
      return Checked(id, status, true);
    }

    method CloseCheckin(id: int) returns (r: CloseResult)
      requires Valid()
      modifies this`checkins
      ensures Valid()
      ensures r == if id !in old(checkins) then NotFound else if old(checkins)[id].open then ClosedNow else AlreadyClosed
      ensures checkins == if r == ClosedNow then old(checkins)[id := old(checkins)[id].(open := false)] else old(checkins)
    {
      if id in checkins && checkins[id].open {
        checkins := checkins[id := checkins[id].(open := false)];
        return ClosedNow;
      }
      if id !in checkins { return NotFound; }
      return AlreadyClosed;
    }

    /** A teacher's correction, also of a closed checkin. */
    method UpsertRecord(id: int, user: int, status: Status) returns (r: UpsertResult)
      requires Valid()
      modifies this`records
      ensures Valid()
      ensures r == if id !in checkins then NoCheckin else if user !in users then NoStudent else Saved
      ensures records == if r == Saved then Upserted(old(records), id, user, status) else old(records)
      ensures r == Saved ==> HasRow(records, id, user) && RowOf(records, id, user).status == status && RowOf(records, id, user).corrected
      ensures r == Saved ==> |records| >= |old(records)| && forall i :: 0 <= i < |old(records)| ==>
                var x := old(records)[i];
                records[i] == if x.checkin == id && x.user == user then x.(status := status, corrected := true) else x
      ensures r == Saved ==>
                if exists x <- old(records) :: x.checkin == id && x.user == user then |records| == |old(records)|
                else |records| == |old(records)| + 1 && records[|old(records)|] == Record(id, user, status, None, true)
    {
      if id !in checkins { return NoCheckin; }
      if user !in users { return NoStudent; }
      UpsertedKeepsKeys(records, id, user, status);
      UpsertedRow(records, id, user, status);
      UpsertedMeans(records, id, user, status);
      records := Upserted(records, id, user, status);
      return Saved;
    }
  }

  /** A key has a row, in plain terms. */
  lemma HasRowMeans(records: seq<Record>, c: int, u: int)
    ensures HasRow(records, c, u) <==> exists x <- records :: x.checkin == c && x.user == u
    ensures HasRow(records, c, u) ==> exists x <- records :: x.checkin == c && x.user == u && x.status == RowOf(records, c, u).status
  {
    if HasRow(records, c, u) { RowOfKey(records, c, u); }
    if x :| x in records && x.checkin == c && x.user == u {
      var i :| 0 <= i < |records| && records[i] == x;
      assert IsKey(records[i], c, u);
    }
  }

  lemma UpsertedMeans(records: seq<Record>, c: int, u: int, status: Status)
    requires OneRowEach(records)
    ensures var after := Upserted(records, c, u, status);
            && |after| >= |records|
            && (forall i :: 0 <= i < |records| ==>
                  after[i] == if records[i].checkin == c && records[i].user == u then records[i].(status := status, corrected := true)
                              else records[i])
            && if exists x <- records :: x.checkin == c && x.user == u then |after| == |records|
               else |after| == |records| + 1 && after[|records|] == Record(c, u, status, None, true)
  {
    var after := Upserted(records, c, u, status);
    UpsertedRows(records, c, u, status);
    UpsertedLength(records, c, u, status);
    HasRowMeans(records, c, u);
    forall i | 0 <= i < |records|
      ensures after[i] == if records[i].checkin == c && records[i].user == u then records[i].(status := status, corrected := true)
                          else records[i]
    {
      if IsKey(records[i], c, u) { UpsertedThere(records, c, u, status, i); }
    }
  }

  /** The scan gets past all checks. */
  predicate Accepts(codes: map<string, int>, checkins: map<int, Checkin>, code: string, seen: int) {
    && code in codes && codes[code] in checkins
    && checkins[codes[code]].open && !ExpiredAt(checkins[codes[code]], seen)
  }

  lemma UpsertedKeepsKeys(records: seq<Record>, c: int, u: int, status: Status)
    requires OneRowEach(records)
    ensures OneRowEach(Upserted(records, c, u, status))
  {
    var after := Upserted(records, c, u, status);
    UpsertedRows(records, c, u, status);
    forall i, j | 0 <= i < j < |after| ensures !IsKey(after[i], after[j].checkin, after[j].user) {
      if j < |records| { assert !IsKey(records[i], records[j].checkin, records[j].user); }
    }
  }

  lemma {:induction false} UpsertedRow(records: seq<Record>, c: int, u: int, status: Status)
    ensures var after := Upserted(records, c, u, status);
            HasRow(after, c, u) && RowOf(after, c, u).status == status && RowOf(after, c, u).corrected
  {
    var after := Upserted(records, c, u, status);
    if records == [] || IsKey(records[0], c, u) {
      assert IsKey(after[0], c, u);
    } else {
      UpsertedRow(records[1..], c, u, status);
      HasRowTail(after, c, u);
      assert after[1..] == Upserted(records[1..], c, u, status);
    }
  }

  // -- The protocol, run alone ----------------------------------------------

  /** A lone scan of the protocol refuses or records exactly as the method does. */
  lemma ProtocolServesAlone(st: State, id: nat, code: string, user: int, wait: nat, more: nat) returns (events: seq<Event>)
    requires Inv(st) && st.locks == map[] && id !in st.scans && forall x <- st.codes :: st.codes[x] in st.checkins
    ensures ValidRun(st, events) && id in Run(st, events).scans
    ensures var st2 := Run(st, events);
            var seen, now := st.clock + wait, st.clock + wait + more;
            st2.checkins == st.checkins
            && if Accepts(st.codes, st.checkins, code, seen) then EndsWith(st, st2, id, st.codes[code], user, now)
               else
                 st2.records == st.records
                 && st2.scans[id].pc == Over(if code !in st.codes then CodeNotFound
                                             else if !st.checkins[st.codes[code]].open then NotActive
                                             else Expired)
  {
    var begun := Apply(st, Begin(id, code, user));
    var fetched := Apply(begun, Step(id));
    events := [];
    if code in st.codes && st.checkins[st.codes[code]].open { events := CheckAlone(fetched, id, wait, more); }
    events := RunFrom(begun, Step(id), fetched, events);
    events := RunFrom(st, Begin(id, code, user), begun, events);
  }

  lemma CheckAlone(st: State, id: nat, wait: nat, more: nat) returns (events: seq<Event>)
    requires id in st.scans && st.scans[id].pc.Locked? && st.scans[id].pc.checkin in st.checkins
    ensures ValidRun(st, events) && id in Run(st, events).scans
    ensures var st2 := Run(st, events);
            var s := st.scans[id];
            var c := s.pc.checkin;
            st2.checkins == st.checkins
            && if ExpiredAt(st.checkins[c], st.clock + wait) then st2.records == st.records && st2.scans[id].pc == Over(Expired)
               else EndsWith(st, st2, id, c, s.user, st.clock + wait + more)
  {
    var waited := Apply(st, Tick(wait));
    var checked := Apply(waited, Step(id));
    events := [];
    if !ExpiredAt(st.checkins[st.scans[id].pc.checkin], st.clock + wait) { events := FinishAlone(checked, id, more); }
    events := RunFrom(waited, Step(id), checked, events);
    events := RunFrom(st, Tick(wait), waited, events);
  }

  /** The scan is over; it has added its row, stamped `now`, if there was none. */
  ghost predicate EndsWith(st: State, st2: State, id: nat, c: int, user: int, now: int) {
    var isNew := !HasRow(st.records, c, user);
    && c in st.checkins && id in st2.scans && st2.scans[id].pc == Over(Done(isNew))
    && st2.records == if isNew then st.records + [Record(c, user, FreshStatus(st.checkins[c], now), Some(now), false)] else st.records
  }

  lemma FinishAlone(st: State, id: nat, more: nat) returns (events: seq<Event>)
    requires id in st.scans && st.scans[id].pc.InTime? && st.scans[id].pc.checkin in st.checkins
    ensures ValidRun(st, events) && id in Run(st, events).scans
    ensures var st2 := Run(st, events);
            st2.checkins == st.checkins && EndsWith(st, st2, id, st.scans[id].pc.checkin, st.scans[id].user, st.clock + more)
  {
    var waited := Apply(st, Tick(more));
    var stamped := Apply(waited, Step(id));
    events := InsertAlone(stamped, id);
    events := RunFrom(waited, Step(id), stamped, events);
    events := RunFrom(st, Tick(more), waited, events);
  }

  lemma InsertAlone(st: State, id: nat) returns (events: seq<Event>)
    requires id in st.scans && st.scans[id].pc.Stamped? && st.scans[id].pc.checkin in st.checkins
    ensures ValidRun(st, events)
    ensures var st2 := Run(st, events);
            st2.checkins == st.checkins && EndsWith(st, st2, id, st.scans[id].pc.checkin, st.scans[id].user, st.scans[id].pc.now)
  {
    var inserted := Apply(st, Step(id));
    events := [];
    events := RunFrom(inserted, Step(id), Apply(inserted, Step(id)), events);
    events := RunFrom(st, Step(id), inserted, events);
  }
}

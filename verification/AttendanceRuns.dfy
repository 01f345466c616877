/** Counting what concurrent scans, closes and corrections leave behind. */
module AttendanceRuns {
  import opened AttendanceStatus
  import P = ScanProtocol
  import H = ScanHistory
  import S = ScanSteps
  import T = AttendanceTables
  import C = AttendanceCounts

  /** checkin_records as the counting queries read it. */
  function TableOf(records: seq<P.Record>): seq<T.Record> {
    seq(|records|, i requires 0 <= i < |records| => T.Record(records[i].checkin, records[i].user, records[i].status))
  }

  lemma TableIsKeyed(records: seq<P.Record>)
    requires H.KeysDiffer(records)
    ensures T.OneRecordEach(TableOf(records))
  {
  }

  /** After every interleaving of scans, closes and corrections, each grouped count of
      a checkin is the number of rows with that status in its list, and the counts add
      up to the roster plus the records outside it. */
  lemma CountsAgreeAfterAnyRun(st: P.State, events: seq<P.Event>, org: T.Tables, c: C.Checkin, s: Status)
    requires P.Initial(st) && P.ValidRun(st, events) && T.Keyed(org)
    ensures var t := org.(records := TableOf(P.Run(st, events).records));
            var n := C.CountsOf(t, c);
            && C.Count(n, s) == T.CountRows(C.ListOf(t, c), s)
            && n.present + n.late + n.absent + n.leave == n.expected + |T.ExtraBranch(T.RecordsOf(t.records, c.id), C.RosterOf(t, c))|
  {
    H.OneRecordPerStudent(st, events);
    var records := P.Run(st, events).records;
    var t := org.(records := TableOf(records));
    TableIsKeyed(records);
    C.CountsAgreeWithList(t, c, s);
    C.CountsAddUp(t, c);
  }

  /** The records that scans and corrections add between two moments of a run. */
  function AddedBetween(earlier: seq<P.Record>, later: seq<P.Record>): seq<T.Record>
    requires |earlier| <= |later|
  {
    TableOf(later[|earlier|..])
  }

  lemma {:induction false} RecordsOfConcat(a: seq<T.Record>, b: seq<T.Record>, checkin: int)
    ensures T.RecordsOf(a + b, checkin) == T.RecordsOf(a, checkin) + T.RecordsOf(b, checkin)
  {
    if b == [] {
      assert a + b == a;
    } else {
      assert (a + b)[..|a + b| - 1] == a + b[..|b| - 1];
      RecordsOfConcat(a, b[..|b| - 1], checkin);
    }
  }

  lemma {:induction false} JoinConcat(a: seq<T.Record>, b: seq<T.Record>, roster: seq<int>)
    ensures T.JoinedWithRoster(a + b, roster) == T.JoinedWithRoster(a, roster) + T.JoinedWithRoster(b, roster)
  {
    if b == [] {
      assert a + b == a;
    } else {
      assert (a + b)[..|a + b| - 1] == a + b[..|b| - 1];
      JoinConcat(a, b[..|b| - 1], roster);
    }
  }

  /** Row by row the same checkin and user. */
  ghost predicate SameKeys(a: seq<T.Record>, b: seq<T.Record>) {
    |a| == |b| && forall i :: 0 <= i < |a| ==> a[i].checkin == b[i].checkin && a[i].user == b[i].user
  }

  /** Corrections change no count of recorded seats. */
  lemma {:induction false} SameKeysSameSeats(a: seq<T.Record>, b: seq<T.Record>, checkin: int, roster: seq<int>)
    requires SameKeys(a, b)
    ensures T.JoinedWithRoster(T.RecordsOf(a, checkin), roster) == T.JoinedWithRoster(T.RecordsOf(b, checkin), roster)
  {
    if a != [] {
      var n := |a| - 1;
      SameKeysSameSeats(a[..n], b[..n], checkin, roster);
      JoinConcat(T.RecordsOf(a[..n], checkin), if a[n].checkin == checkin then [a[n]] else [], roster);
      JoinConcat(T.RecordsOf(b[..n], checkin), if b[n].checkin == checkin then [b[n]] else [], roster);
      OneSeat(a[n], roster);
      OneSeat(b[n], roster);
    }
  }

  lemma OneSeat(r: T.Record, roster: seq<int>)
    ensures T.JoinedWithRoster([r], roster) == T.Occurrences(roster, r.user)
  {
    assert [r][..0] == [];
  }

  lemma RowsOnlyGrow(st: P.State, events: seq<P.Event>)
    requires P.Inv(st) && P.ValidRun(st, events)
    ensures var later := P.Run(st, events).records;
            |st.records| <= |later| && SameKeys(TableOf(st.records), TableOf(later[..|st.records|]))
  {
    var later := P.Run(st, events).records;
    forall i | 0 <= i < |st.records| ensures i < |later| && later[i].checkin == st.records[i].checkin && later[i].user == st.records[i].user {
      H.RecordsAreKept(st, events, i);
    }
    if st.records != [] { H.RecordsAreKept(st, events, |st.records| - 1); }
  }

  lemma SeatsOfLater(earlier: seq<P.Record>, later: seq<P.Record>, checkin: int, roster: seq<int>)
    requires |earlier| <= |later| && SameKeys(TableOf(earlier), TableOf(later[..|earlier|]))
    ensures T.JoinedWithRoster(T.RecordsOf(TableOf(later), checkin), roster)
         == T.JoinedWithRoster(T.RecordsOf(TableOf(earlier), checkin), roster)
            + T.JoinedWithRoster(T.RecordsOf(AddedBetween(earlier, later), checkin), roster)
  {
    var kept, added := TableOf(later[..|earlier|]), AddedBetween(earlier, later);
    assert TableOf(later) == kept + added;
    RecordsOfConcat(kept, added, checkin);
    JoinConcat(T.RecordsOf(kept, checkin), T.RecordsOf(added, checkin), roster);
    SameKeysSameSeats(TableOf(earlier), kept, checkin, roster);
  }

  /** When scans and corrections run between the queries, the counts add up to the roster
      plus the outside records less the roster records added in between, and only absent
      differs from the list at the first query. */
  lemma CountsReadDuringARun(st: P.State, before: seq<P.Event>, during: seq<P.Event>, org: T.Tables, at: C.Reads, c: C.Checkin, s: Status)
    requires P.Initial(st) && P.ValidRun(st, before) && P.ValidRun(P.Run(st, before), during) && T.Keyed(org)
    requires var mid := P.Run(st, before);
             C.SpreadOut(at, org.(records := TableOf(mid.records)), org.(records := TableOf(P.Run(mid, during).records)), c)
    ensures |P.Run(st, before).records| <= |P.Run(P.Run(st, before), during).records|
    ensures var mid := P.Run(st, before);
            var t := org.(records := TableOf(mid.records));
            var added := T.RecordsOf(AddedBetween(mid.records, P.Run(mid, during).records), c.id);
            var missed := T.JoinedWithRoster(added, C.RosterOf(t, c));
            var n := C.CountsAt(at, c);
            && C.Count(n, s) == T.CountRows(C.ListOf(t, c), s) - (if s == Absent then missed else 0)
            && n.present + n.late + n.absent + n.leave
               == n.expected + |T.ExtraBranch(T.RecordsOf(t.records, c.id), C.RosterOf(t, c))| - missed
  {
    var mid := P.Run(st, before);
    var later := P.Run(mid, during).records;
    var t, u := org.(records := TableOf(mid.records)), org.(records := TableOf(later));
    InitialRunInv(st, before);
    RowsOnlyGrow(mid, during);
    SeatsOfLater(mid.records, later, c.id, C.RosterOf(t, c));
    C.SameSeats(t, u, c.offering);
    C.SpreadOutCounts(at, t, u, c);
    CountsAgreeAfterAnyRun(st, before, org, c, s);
  }

  lemma InitialRunInv(st: P.State, events: seq<P.Event>)
    requires P.Initial(st) && P.ValidRun(st, events)
    ensures P.Inv(P.Run(st, events))
  {
    S.RunKeepsInv(st, events);
  }
}

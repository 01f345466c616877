/** The tables attendance is computed from, as bags of rows, and the queries over
    them (attendance/store.go, attendance/store_records.go). */
module AttendanceTables {
  import opened AttendanceStatus
  import opened Common

  datatype Profile = Profile(user: int, class_: int)
  datatype Member = Member(teachingClass: int, class_: int)
  datatype Record = Record(checkin: int, user: int, status: Status)

  /** Offerings map to their teaching class. */
  datatype Tables = Tables(profiles: seq<Profile>, members: seq<Member>, offerings: map<int, int>, records: seq<Record>)

  /** The unique constraints of the schema; generated ids are positive. */
  ghost predicate Keyed(t: Tables) {
    && OneProfileEach(t.profiles)
    && Distinct(t.members)
    && OneRecordEach(t.records)
    && forall o <- t.offerings :: o > 0
  }

  ghost predicate OneProfileEach(profiles: seq<Profile>) {
    forall i, j :: 0 <= i < j < |profiles| ==> profiles[i].user != profiles[j].user
  }

  ghost predicate OneRecordEach(records: seq<Record>) {
    forall i, j :: 0 <= i < j < |records| ==> records[i].checkin != records[j].checkin || records[i].user != records[j].user
  }

  // -- Joins ----------------------------------------------------------------

  function Occurrences<T(==)>(s: seq<T>, x: T): nat {
    if s == [] then 0 else Occurrences(s[..|s| - 1], x) + if s[|s| - 1] == x then 1 else 0
  }

  function Repeat(u: int, n: nat): seq<int> {
    seq(n, _ => u)
  }

  /** Users of the rows of student_profiles joined with the members of a teaching
      class: one row per pair that matches. */
  function Seats(profiles: seq<Profile>, members: seq<Member>, teachingClass: int): seq<int> {
    if profiles == [] then []
    else
      var p := profiles[|profiles| - 1];
      Seats(profiles[..|profiles| - 1], members, teachingClass) + Repeat(p.user, Occurrences(members, Member(teachingClass, p.class_)))
  }

  /** The roster join of an offering; an unknown offering has none. */
  function Roster(t: Tables, offering: int): seq<int> {
    if offering in t.offerings then Seats(t.profiles, t.members, t.offerings[offering]) else []
  }

  /** The record rows of a checkin. */
  function RecordsOf(records: seq<Record>, checkin: int): seq<Record> {
    if records == [] then []
    else
      var r := records[|records| - 1];
      RecordsOf(records[..|records| - 1], checkin) + if r.checkin == checkin then [r] else []
  }

  function WithStatus(records: seq<Record>, s: Status): nat {
    if records == [] then 0 else WithStatus(records[..|records| - 1], s) + if records[|records| - 1].status == s then 1 else 0
  }

  /** COUNT(*) of records joined with the roster. */
  function JoinedWithRoster(records: seq<Record>, roster: seq<int>): nat {
    if records == [] then 0
    else JoinedWithRoster(records[..|records| - 1], roster) + Occurrences(roster, records[|records| - 1].user)
  }

  /** COUNT(DISTINCT user) of the roster. */
  function DistinctUsers(roster: seq<int>): nat {
    |set u | u in roster|
  }

  // -- The per-student list -------------------------------------------------

  datatype Row = Row(user: int, status: Status, extra: bool)

  function Matching(records: seq<Record>, user: int): seq<Record> {
    if records == [] then []
    else
      var r := records[|records| - 1];
      Matching(records[..|records| - 1], user) + if r.user == user then [r] else []
  }

  function Rows(records: seq<Record>, extra: bool): seq<Row> {
    seq(|records|, i requires 0 <= i < |records| => Row(records[i].user, records[i].status, extra))
  }

  /** The rows of one seat in a left join: without a record it counts as absent. */
  function Seat(records: seq<Record>, user: int): seq<Row> {
    var matches := Rows(Matching(records, user), false);
    if matches == [] then [Row(user, Absent, false)] else matches
  }

  /** The roster branch. */
  function RosterBranch(records: seq<Record>, roster: seq<int>): seq<Row> {
    if roster == [] then []
    else RosterBranch(records, roster[..|roster| - 1]) + Seat(records, roster[|roster| - 1])
  }

  /** The extra branch: records of users outside the roster. */
  function ExtraBranch(records: seq<Record>, roster: seq<int>): seq<Row> {
    if records == [] then []
    else
      var r := records[|records| - 1];
      ExtraBranch(records[..|records| - 1], roster) + if r.user !in roster then [Row(r.user, r.status, true)] else []
  }

  /** recordUnionSQL: the whole list of a checkin. */
  function RecordUnion(t: Tables, checkin: int, offering: int): seq<Row> {
    var records, roster := RecordsOf(t.records, checkin), Roster(t, offering);
    RosterBranch(records, roster) + ExtraBranch(records, roster)
  }

  function CountRows(rows: seq<Row>, s: Status): nat {
    if rows == [] then 0 else CountRows(rows[..|rows| - 1], s) + if rows[|rows| - 1].status == s then 1 else 0
  }

  // -- Facts about the joins ------------------------------------------------

  lemma {:induction false} OccurrencesOfDistinct<T>(s: seq<T>, x: T)
    requires Distinct(s)
    ensures Occurrences(s, x) == if x in s then 1 else 0
  {
    if s != [] { OccurrencesOfDistinct(s[..|s| - 1], x); }
  }

  lemma {:induction false} SeatsAreProfiles(profiles: seq<Profile>, members: seq<Member>, tc: int, u: int)
    ensures u in Seats(profiles, members, tc) ==> exists i :: 0 <= i < |profiles| && profiles[i].user == u
  {
    if profiles != [] {
      var n := |profiles| - 1;
      SeatsAreProfiles(profiles[..n], members, tc, u);
      if u in Seats(profiles[..n], members, tc) {
        var i :| 0 <= i < n && profiles[..n][i].user == u;
        assert profiles[i].user == u;
      } else if u in Seats(profiles, members, tc) {
        assert profiles[n].user == u;
      }
    }
  }

  lemma {:induction false} SeatsAreDistinct(profiles: seq<Profile>, members: seq<Member>, tc: int)
    requires OneProfileEach(profiles) && Distinct(members)
    ensures Distinct(Seats(profiles, members, tc))
  {
    if profiles != [] {
      var n := |profiles| - 1;
      var p := profiles[n];
      var init := Seats(profiles[..n], members, tc);
      SeatsAreDistinct(profiles[..n], members, tc);
      SeatsAreProfiles(profiles[..n], members, tc, p.user);
      OccurrencesOfDistinct(members, Member(tc, p.class_));
      assert p.user !in init;
      assert forall i :: 0 <= i < |init| ==> init[i] in init;
    }
  }

  /** Under the schema's constraints nobody is on a roster twice. */
  lemma RosterIsDistinct(t: Tables, offering: int)
    requires Keyed(t)
    ensures Distinct(Roster(t, offering))
    ensures offering <= 0 ==> Roster(t, offering) == []
  {
    if offering in t.offerings { SeatsAreDistinct(t.profiles, t.members, t.offerings[offering]); }
  }

  lemma {:induction false} DistinctUsersOfDistinct(roster: seq<int>)
    requires Distinct(roster)
    ensures DistinctUsers(roster) == |roster|
  {
    if roster != [] {
      var init, u := roster[..|roster| - 1], roster[|roster| - 1];
      DistinctUsersOfDistinct(init);
      assert (set x | x in roster) == (set x | x in init) + {u};
      assert u !in init;
    }
  }

  ghost predicate OneEach(records: seq<Record>) {
    forall i, j :: 0 <= i < j < |records| ==> records[i].user != records[j].user
  }

  lemma {:induction false} RecordsOfIsFilter(records: seq<Record>, checkin: int, r: Record)
    ensures r in RecordsOf(records, checkin) <==> r in records && r.checkin == checkin
  {
    if records != [] {
      var n := |records| - 1;
      RecordsOfIsFilter(records[..n], checkin, r);
      assert records == records[..n] + [records[n]];
    }
  }

  /** A checkin has one record per user. */
  lemma {:induction false} RecordsOfOneEach(records: seq<Record>, checkin: int)
    requires OneRecordEach(records)
    ensures OneEach(RecordsOf(records, checkin))
  {
    if records != [] {
      var n := |records| - 1;
      var init := RecordsOf(records[..n], checkin);
      RecordsOfOneEach(records[..n], checkin);
      forall i | 0 <= i < |init| ensures records[n].checkin == checkin ==> init[i].user != records[n].user {
        RecordsOfIsFilter(records[..n], checkin, init[i]);
        assert init[i] in init;
        var k :| 0 <= k < n && records[..n][k] == init[i];
        assert records[k] == init[i];
      }
    }
  }

  // -- The list, counted ----------------------------------------------------

  function Is(a: Status, b: Status): int {
    if a == b then 1 else 0
  }

  lemma {:induction false} CountConcat(a: seq<Row>, b: seq<Row>, s: Status)
    ensures CountRows(a + b, s) == CountRows(a, s) + CountRows(b, s)
  {
    if b == [] {
      assert a + b == a;
    } else {
      assert (a + b)[..|a + b| - 1] == a + b[..|b| - 1];
      CountConcat(a, b[..|b| - 1], s);
    }
  }

  lemma {:induction false} MatchingUsers(records: seq<Record>, user: int)
    requires forall i :: 0 <= i < |records| ==> records[i].user != user
    ensures Matching(records, user) == []
  {
    if records != [] { MatchingUsers(records[..|records| - 1], user); }
  }

  /** What a record of a roster student changes: a seat from absent to its status. */
  function Change(r: Record, roster: seq<int>, s: Status): int {
    if r.user in roster then Is(r.status, s) - Is(Absent, s) else 0
  }

  /** One more record for a user without one turns the user's seat from absent to its
      status. */
  lemma {:induction false} RosterBranchSnoc(records: seq<Record>, r: Record, roster: seq<int>, s: Status)
    requires OneEach(records + [r]) && Distinct(roster)
    ensures CountRows(RosterBranch(records + [r], roster), s) == CountRows(RosterBranch(records, roster), s) + Change(r, roster, s)
    ensures |RosterBranch(records + [r], roster)| == |RosterBranch(records, roster)|
  {
    if roster != [] {
      var init, u := roster[..|roster| - 1], roster[|roster| - 1];
      RosterBranchSnoc(records, r, init, s);
      SeatSnoc(records, r, u, s);
      CountConcat(RosterBranch(records, init), Seat(records, u), s);
      CountConcat(RosterBranch(records + [r], init), Seat(records + [r], u), s);
      LastIsNew(roster, r.user);
    }
  }

  lemma LastIsNew(roster: seq<int>, user: int)
    requires Distinct(roster) && roster != []
    ensures var init, u := roster[..|roster| - 1], roster[|roster| - 1];
            (user in roster <==> user in init || user == u) && !(user in init && user == u)
  {
    assert roster == roster[..|roster| - 1] + [roster[|roster| - 1]];
  }

  lemma SeatSnoc(records: seq<Record>, r: Record, u: int, s: Status)
    requires OneEach(records + [r])
    ensures CountRows(Seat(records + [r], u), s)
         == CountRows(Seat(records, u), s) + if u == r.user then Is(r.status, s) - Is(Absent, s) else 0
    ensures |Seat(records + [r], u)| == |Seat(records, u)|
  {
    assert (records + [r])[..|records|] == records;
    if u == r.user {
      assert forall i :: 0 <= i < |records| ==> (records + [r])[i] == records[i];
      MatchingUsers(records, u);
      assert Matching(records + [r], u) == [r];
      SeatCounts([], Row(u, Absent, false), s);
      SeatCounts([], Row(u, r.status, false), s);
      assert Seat(records + [r], u) == [] + [Row(u, r.status, false)] && Seat(records, u) == [] + [Row(u, Absent, false)];
    } else {
      assert Matching(records + [r], u) == Matching(records, u);
    }
  }

  lemma SeatCounts(rows: seq<Row>, row: Row, s: Status)
    ensures CountRows(rows + [row], s) == CountRows(rows, s) + Is(row.status, s)
  {
    assert (rows + [row])[..|rows|] == rows;
  }

  lemma {:induction false} EmptyRosterBranch(roster: seq<int>, s: Status)
    ensures CountRows(RosterBranch([], roster), s) == if s == Absent then |roster| else 0
    ensures |RosterBranch([], roster)| == |roster|
  {
    if roster != [] {
      var init, u := roster[..|roster| - 1], roster[|roster| - 1];
      EmptyRosterBranch(init, s);
      assert Seat([], u) == [Row(u, Absent, false)];
      SeatCounts(RosterBranch([], init), Row(u, Absent, false), s);
    }
  }

  /** A row of the list for a seat: not extra, with the status of the student's record,
      or absent without one. */
  ghost predicate IsSeatRow(records: seq<Record>, user: int, row: Row) {
    && row.user == user && !row.extra
    && (forall r <- records :: r.user == user ==> row.status == r.status)
    && ((forall r <- records :: r.user != user) ==> row.status == Absent)
  }

  /** The roster branch shows every seat in its place. */
  lemma {:induction false} RosterBranchShows(records: seq<Record>, roster: seq<int>)
    requires OneEach(records)
    ensures |RosterBranch(records, roster)| == |roster|
    ensures forall i :: 0 <= i < |roster| ==> IsSeatRow(records, roster[i], RosterBranch(records, roster)[i])
  {
    if roster != [] {
      var n := |roster| - 1;
      SeatShows(records, roster[n]);
      RosterBranchShows(records, roster[..n]);
      SeatBehind(records, RosterBranch(records, roster[..n]), roster[..n], Seat(records, roster[n])[0], roster[n]);
      assert Seat(records, roster[n]) == [Seat(records, roster[n])[0]];
      assert roster == roster[..n] + [roster[n]];
    }
  }

  lemma SeatBehind(records: seq<Record>, rows: seq<Row>, roster: seq<int>, row: Row, user: int)
    requires |rows| == |roster| && forall i :: 0 <= i < |roster| ==> IsSeatRow(records, roster[i], rows[i])
    requires IsSeatRow(records, user, row)
    ensures var seats := roster + [user]; forall i :: 0 <= i < |seats| ==> IsSeatRow(records, seats[i], (rows + [row])[i])
  {
  }

  lemma SeatShows(records: seq<Record>, user: int)
    requires OneEach(records)
    ensures |Seat(records, user)| == 1 && IsSeatRow(records, user, Seat(records, user)[0])
  {
    MatchingIs(records, user);
  }

  lemma {:induction false} MatchingIs(records: seq<Record>, user: int)
    requires OneEach(records)
    ensures |Matching(records, user)| <= 1 && forall r <- Matching(records, user) :: r in records && r.user == user
    ensures forall r <- records :: r.user == user ==> Matching(records, user) == [r]
  {
    if records != [] {
      var init, last := records[..|records| - 1], records[|records| - 1];
      MatchingIs(init, user);
      assert records == init + [last];
      if last.user == user {
        forall i | 0 <= i < |init| ensures init[i].user != user { assert records[i].user != records[|records| - 1].user; }
        MatchingUsers(init, user);
      }
    }
  }

  /** The extra branch shows exactly the records of users outside the roster, as extra. */
  lemma {:induction false} ExtraBranchShows(records: seq<Record>, roster: seq<int>)
    ensures forall row <- ExtraBranch(records, roster) ::
              row.extra && row.user !in roster && exists r <- records :: r.user == row.user && r.status == row.status
    ensures forall r <- records :: r.user !in roster ==> Row(r.user, r.status, true) in ExtraBranch(records, roster)
  {
    if records != [] {
      var init, last := records[..|records| - 1], records[|records| - 1];
      ExtraBranchShows(init, roster);
      assert records == init + [last];
    }
  }

  /** The fast form: a status counts its records, and absent also the roster seats
      without one. */
  function FastCount(records: seq<Record>, roster: seq<int>, s: Status): int {
    WithStatus(records, s) + if s == Absent then DistinctUsers(roster) - JoinedWithRoster(records, roster) else 0
  }

  ghost predicate Agrees(records: seq<Record>, roster: seq<int>, s: Status) {
    && CountRows(RosterBranch(records, roster), s) + CountRows(ExtraBranch(records, roster), s) == FastCount(records, roster, s)
    && |RosterBranch(records, roster)| == DistinctUsers(roster)
  }

  lemma AgreesSnoc(records: seq<Record>, r: Record, roster: seq<int>, s: Status)
    requires OneEach(records + [r]) && Distinct(roster) && Agrees(records, roster, s)
    ensures Agrees(records + [r], roster, s)
  {
    RosterBranchSnoc(records, r, roster, s);
    ExtraBranchSnoc(records, r, roster, s);
    FastCountSnoc(records, r, roster, s);
  }

  lemma NoRecordsAgree(roster: seq<int>, s: Status)
    requires Distinct(roster)
    ensures Agrees([], roster, s)
  {
    DistinctUsersOfDistinct(roster);
    EmptyRosterBranch(roster, s);
  }

  lemma {:induction false} EveryoneAgrees(records: seq<Record>, roster: seq<int>, s: Status)
    requires OneEach(records) && Distinct(roster)
    ensures Agrees(records, roster, s)
  {
    if records == [] {
      NoRecordsAgree(roster, s);
    } else {
      var init, r := records[..|records| - 1], records[|records| - 1];
      assert records == init + [r];
      EveryoneAgrees(init, roster, s);
      AgreesSnoc(init, r, roster, s);
    }
  }

  /** The two branches of the list, counted, are the fast form. */
  lemma ListAgreesWithFastCount(records: seq<Record>, roster: seq<int>, s: Status)
    requires OneEach(records) && Distinct(roster)
    ensures CountRows(RosterBranch(records, roster), s) + CountRows(ExtraBranch(records, roster), s) == FastCount(records, roster, s)
    ensures |RosterBranch(records, roster)| == DistinctUsers(roster)
  {
    EveryoneAgrees(records, roster, s);
  }

  lemma ExtraBranchSnoc(records: seq<Record>, r: Record, roster: seq<int>, s: Status)
    ensures CountRows(ExtraBranch(records + [r], roster), s)
         == CountRows(ExtraBranch(records, roster), s) + if r.user in roster then 0 else Is(r.status, s)
  {
    assert (records + [r])[..|records|] == records;
    if r.user in roster {
      assert ExtraBranch(records + [r], roster) == ExtraBranch(records, roster);
    } else {
      SeatCounts(ExtraBranch(records, roster), Row(r.user, r.status, true), s);
    }
  }

  lemma FastCountSnoc(records: seq<Record>, r: Record, roster: seq<int>, s: Status)
    requires Distinct(roster)
    ensures FastCount(records + [r], roster, s)
         == FastCount(records, roster, s) + Change(r, roster, s) + if r.user in roster then 0 else Is(r.status, s)
  {
    assert (records + [r])[..|records|] == records;
    OccurrencesOfDistinct(roster, r.user);
  }
}

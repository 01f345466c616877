/** Grouped counting of attendance (getCheckins and backfillCounts in
    attendance/store.go) and its agreement with the per-student list. */
module AttendanceCounts {
  import opened AttendanceStatus
  import opened Common
  import opened AttendanceTables

  // -- The program ----------------------------------------------------------

  /** A checkin as listed; offering 0 stands for none. */
  datatype Checkin = Checkin(id: int, offering: int)

  datatype Counts = Counts(expected: int, present: int, late: int, absent: int, leave: int)

  datatype Stat = Stat(present: int, late: int, absent: int, leave: int, expected: int, rosterRows: int)

  /** Result rows of the two grouped queries. */
  datatype StatusGroup = StatusGroup(checkin: int, status: Status, n: nat)
  datatype CheckinGroup = CheckinGroup(checkin: int, n: nat)

  /** The answers of the database: the status groups, and for an offering its roster
      count and the groups of its checkins. */
  datatype Answers = Answers(byStatus: seq<StatusGroup>, rosterCount: int -> nat, rosterGroups: int -> seq<CheckinGroup>)

  /** GROUP BY checkin_id, status: one row per group that occurs, in any order. */
  ghost predicate GroupsByStatus(t: Tables, ids: seq<int>, rows: seq<StatusGroup>) {
    && (forall i, j :: 0 <= i < j < |rows| ==> rows[i].checkin != rows[j].checkin || rows[i].status != rows[j].status)
    && (forall g <- rows :: g.checkin in ids && g.n == WithStatus(RecordsOf(t.records, g.checkin), g.status))
    && (forall id <- ids, s: Status :: WithStatus(RecordsOf(t.records, id), s) > 0 ==> HasStatusGroup(rows, id, s))
  }

  ghost predicate HasStatusGroup(rows: seq<StatusGroup>, id: int, s: Status) {
    exists i :: 0 <= i < |rows| && rows[i].checkin == id && rows[i].status == s
  }

  /** GROUP BY checkin_id of the records joined with the roster. */
  ghost predicate GroupsByCheckin(t: Tables, ids: seq<int>, offering: int, rows: seq<CheckinGroup>) {
    && (forall i, j :: 0 <= i < j < |rows| ==> rows[i].checkin != rows[j].checkin)
    && (forall g <- rows :: g.checkin in ids && g.n == JoinedWithRoster(RecordsOf(t.records, g.checkin), Roster(t, offering)))
    && (forall id <- ids :: JoinedWithRoster(RecordsOf(t.records, id), Roster(t, offering)) > 0 ==> HasCheckinGroup(rows, id))
  }

  ghost predicate HasCheckinGroup(rows: seq<CheckinGroup>, id: int) {
    exists i :: 0 <= i < |rows| && rows[i].checkin == id
  }

  function Ids(list: seq<Checkin>): seq<int> {
    seq(|list|, i requires 0 <= i < |list| => list[i].id)
  }

  function OfOffering(list: seq<Checkin>, offering: int): seq<int> {
    if list == [] then []
    else
      var c := list[|list| - 1];
      OfOffering(list[..|list| - 1], offering) + if c.offering == offering then [c.id] else []
  }

  /** The tables as each query finds them: the queries run one after another, outside a
      transaction. */
  datatype Reads = Reads(byStatus: Tables, rosterCount: int -> Tables, rosterGroups: int -> Tables)

  ghost predicate Answered(at: Reads, list: seq<Checkin>, a: Answers) {
    && GroupsByStatus(at.byStatus, Ids(list), a.byStatus)
    && forall o :: o > 0 ==> AnsweredFor(at, list, a, o)
  }

  ghost predicate AnsweredFor(at: Reads, list: seq<Checkin>, a: Answers, o: int) {
    && a.rosterCount(o) == DistinctUsers(Roster(at.rosterCount(o), o))
    && GroupsByCheckin(at.rosterGroups(o), OfOffering(list, o), o, a.rosterGroups(o))
  }

  /** Checkin ids are a primary key. */
  ghost predicate OneEachId(list: seq<Checkin>) {
    forall i, j :: 0 <= i < j < |list| ==> list[i].id != list[j].id
  }

  method CountByStatus(ids: seq<int>, rows: seq<StatusGroup>) returns (stats: map<int, Stat>)
    requires forall g <- rows :: g.checkin in ids
    ensures stats.Keys == set id | id in ids
    ensures forall id <- stats :: stats[id] == StatusStat(rows, id)
  {
    stats := map[];
    for i := 0 to |ids|
      invariant stats.Keys == set id | id in ids[..i]
      invariant forall id <- stats :: stats[id] == Stat(0, 0, 0, 0, 0, 0)
    {
      stats := stats[ids[i] := Stat(0, 0, 0, 0, 0, 0)];
      assert ids[..i + 1] == ids[..i] + [ids[i]];
    }
    assert ids[..|ids|] == ids;
    for k := 0 to |rows|
      invariant stats.Keys == set id | id in ids
      invariant forall id <- stats :: stats[id] == StatusStat(rows[..k], id)
    {
      var g := rows[k];
      assert g in rows;
      var st := stats[g.checkin];
      match g.status {
        case Present => st := st.(present := g.n);
        case Late => st := st.(late := g.n);
        case Absent => st := st.(absent := g.n);
        case Leave => st := st.(leave := g.n);
      }
      StatusStatSnoc(rows[..k], g);
      assert rows[..k + 1] == rows[..k] + [g];
      stats := stats[g.checkin := st];
    }
    assert rows[..|rows|] == rows;
  }

  /** What the status rows leave in a checkin's entry. */
  function StatusStat(rows: seq<StatusGroup>, id: int): Stat {
    Stat(GroupValue(rows, id, Present), GroupValue(rows, id, Late), GroupValue(rows, id, Absent), GroupValue(rows, id, Leave), 0, 0)
  }

  function GroupValue(rows: seq<StatusGroup>, id: int, s: Status): nat {
    if rows == [] then 0
    else
      var g := rows[|rows| - 1];
      if g.checkin == id && g.status == s then g.n else GroupValue(rows[..|rows| - 1], id, s)
  }

  lemma StatusStatSnoc(rows: seq<StatusGroup>, g: StatusGroup)
    ensures forall id, s :: GroupValue(rows + [g], id, s) == if g.checkin == id && g.status == s then g.n else GroupValue(rows, id, s)
  {
    assert (rows + [g])[..|rows|] == rows;
  }

  method GroupByOffering(list: seq<Checkin>) returns (groups: map<int, seq<int>>)
    ensures forall o :: o in groups <==> o > 0 && OfOffering(list, o) != []
    ensures forall o <- groups :: groups[o] == OfOffering(list, o)
  {
    groups := map[];
    for i := 0 to |list|
      invariant forall o :: o in groups <==> o > 0 && OfOffering(list[..i], o) != []
      invariant forall o <- groups :: groups[o] == OfOffering(list[..i], o)
    {
      var v := list[i];
      OfOfferingSnoc(list[..i], v);
      assert list[..i + 1] == list[..i] + [v];
      if v.offering > 0 {
        groups := groups[v.offering := (if v.offering in groups then groups[v.offering] else []) + [v.id]];
      }
    }
    assert list[..|list|] == list;
  }

  lemma OfOfferingSnoc(list: seq<Checkin>, c: Checkin)
    ensures forall o :: OfOffering(list + [c], o) == OfOffering(list, o) + if c.offering == o then [c.id] else []
  {
    assert (list + [c])[..|list|] == list;
  }

  function CheckinValue(rows: seq<CheckinGroup>, id: int): nat {
    if rows == [] then 0
    else
      var g := rows[|rows| - 1];
      if g.checkin == id then g.n else CheckinValue(rows[..|rows| - 1], id)
  }

  lemma CheckinValueSnoc(rows: seq<CheckinGroup>, g: CheckinGroup)
    ensures forall id :: CheckinValue(rows + [g], id) == if g.checkin == id then g.n else CheckinValue(rows, id)
  {
    assert (rows + [g])[..|rows|] == rows;
  }

  /** The part of the loop for one offering. */
  method AddRoster(stats0: map<int, Stat>, chkIds: seq<int>, expected: nat, rows: seq<CheckinGroup>) returns (stats: map<int, Stat>)
    requires (forall id <- chkIds :: id in stats0 && stats0[id].rosterRows == 0) && forall g <- rows :: g.checkin in chkIds
    ensures stats.Keys == stats0.Keys
    ensures forall id <- stats ::
              stats[id] == if id in chkIds then stats0[id].(expected := expected, rosterRows := CheckinValue(rows, id)) else stats0[id]
  {
    stats := stats0;
    for k := 0 to |rows|
      invariant stats.Keys == stats0.Keys
      invariant forall id <- stats :: stats[id] == if id in chkIds then stats0[id].(rosterRows := CheckinValue(rows[..k], id)) else stats0[id]
    {
      var g := rows[k];
      assert g in rows;
      CheckinValueSnoc(rows[..k], g);
      assert rows[..k + 1] == rows[..k] + [g];
      stats := stats[g.checkin := stats[g.checkin].(rosterRows := g.n)];
    }
    assert rows[..|rows|] == rows;
    ghost var counted := stats;
    for i := 0 to |chkIds|
      invariant stats.Keys == stats0.Keys && forall id <- chkIds :: id in stats
      invariant forall id <- stats :: stats[id] == if id in chkIds[..i] then counted[id].(expected := expected) else counted[id]
    {
      assert chkIds[i] in chkIds;
      assert chkIds[..i + 1] == chkIds[..i] + [chkIds[i]];
      stats := stats[chkIds[i] := stats[chkIds[i]].(expected := expected)];
    }
    assert chkIds[..|chkIds|] == chkIds;
  }

  /** An entry once its offering, if any, has been counted. */
  function Filled(st: Stat, a: Answers, id: int, offering: int): Stat {
    if offering > 0 then st.(expected := a.rosterCount(offering), rosterRows := CheckinValue(a.rosterGroups(offering), id)) else st
  }

  /** The offering of a checkin if it is among those counted, otherwise 0. */
  function Among(offerings: set<int>, c: Checkin): int {
    if c.offering in offerings then c.offering else 0
  }

  /** The entries of all listed checkins, the offerings in `done` being counted. */
  ghost predicate FilledIn(stats: map<int, Stat>, list: seq<Checkin>, a: Answers, done: set<int>) {
    forall c <- list :: c.id in stats && stats[c.id] == Filled(StatusStat(a.byStatus, c.id), a, c.id, Among(done, c))
  }

  /** Fills in the counts of listed checkins. */
  method BackfillCounts(ghost at: Reads, list: seq<Checkin>, a: Answers) returns (counts: seq<Counts>)
    requires OneEachId(list) && Answered(at, list, a)
    ensures |counts| == |list|
    ensures forall i :: 0 <= i < |list| ==> counts[i] == CountsAt(at, list[i])
  {
    var stats := CountByStatus(Ids(list), a.byStatus);
    var offerings := GroupByOffering(list);
    var left := offerings.Keys;
    ghost var done: set<int> := {};
    StartsFilledIn(stats, list, a, done);
    while left != {}
      invariant done + left == offerings.Keys && done !! left && FilledIn(stats, list, a, done)
      decreases left
    {
      SomeElement(left);
      var o: int :| o in left;
      stats := CountOffering(at, stats, list, a, done, o, offerings[o]);
      done, left := done + {o}, left - {o};
    }
    AllFilledIn(stats, at, list, a, done);
    counts := Attach(at, list, stats);
  }

  /** The two queries of one offering. */
  method CountOffering(ghost at: Reads, stats0: map<int, Stat>, list: seq<Checkin>, a: Answers, ghost done: set<int>,
                       o: int, chkIds: seq<int>) returns (stats: map<int, Stat>)
    requires OneEachId(list) && Answered(at, list, a) && FilledIn(stats0, list, a, done)
    requires o > 0 && o !in done && chkIds == OfOffering(list, o)
    ensures FilledIn(stats, list, a, done + {o})
  {
    assert AnsweredFor(at, list, a, o);
    NotYetCounted(stats0, list, a, done, o);
    stats := AddRoster(stats0, chkIds, a.rosterCount(o), a.rosterGroups(o));
    CountedToo(stats0, stats, list, a, done, o);
  }

  /** The last loop: absent also counts the roster seats without a record. */
  method Attach(ghost at: Reads, list: seq<Checkin>, stats: map<int, Stat>) returns (counts: seq<Counts>)
    requires forall i :: 0 <= i < |list| ==> list[i].id in stats && CountsAt(at, list[i]) == Totalled(stats[list[i].id])
    ensures |counts| == |list|
    ensures forall i :: 0 <= i < |list| ==> counts[i] == CountsAt(at, list[i])
  {
    counts := [];
    for i := 0 to |list|
      invariant |counts| == i && forall k :: 0 <= k < i ==> counts[k] == CountsAt(at, list[k])
    {
      var st := stats[list[i].id];
      st := st.(absent := st.absent + st.expected - st.rosterRows);
      counts := counts + [Counts(st.expected, st.present, st.late, st.absent, st.leave)];
    }
  }

  function Totalled(st: Stat): Counts {
    Counts(st.expected, st.present, st.late, st.absent + st.expected - st.rosterRows, st.leave)
  }

  lemma AllFilledIn(stats: map<int, Stat>, at: Reads, list: seq<Checkin>, a: Answers, done: set<int>)
    requires OneEachId(list) && Answered(at, list, a) && FilledIn(stats, list, a, done)
    requires forall o :: o in done <==> o > 0 && OfOffering(list, o) != []
    ensures forall i :: 0 <= i < |list| ==> list[i].id in stats && CountsAt(at, list[i]) == Totalled(stats[list[i].id])
  {
    forall i | 0 <= i < |list| ensures list[i].id in stats && CountsAt(at, list[i]) == Totalled(stats[list[i].id]) {
      assert list[i] in list;
      OfOfferingHas(list, list[i]);
      EntryIsSpec(at, list, a, list[i]);
    }
  }

  lemma StartsFilledIn(stats: map<int, Stat>, list: seq<Checkin>, a: Answers, done: set<int>)
    requires done == {} && stats.Keys == set id | id in Ids(list)
    requires forall id <- stats :: stats[id] == StatusStat(a.byStatus, id)
    ensures FilledIn(stats, list, a, done)
  {
    forall c | c in list ensures c.id in stats && stats[c.id] == Filled(StatusStat(a.byStatus, c.id), a, c.id, Among(done, c)) {
      var i :| 0 <= i < |list| && list[i] == c;
      assert Ids(list)[i] == c.id;
    }
  }

  lemma {:induction false} OfOfferingFrom(list: seq<Checkin>, o: int, id: int) returns (i: nat)
    requires id in OfOffering(list, o)
    ensures i < |list| && list[i] == Checkin(id, o)
  {
    var n := |list| - 1;
    if id in OfOffering(list[..n], o) { i := OfOfferingFrom(list[..n], o, id); } else { i := n; }
  }

  lemma {:induction false} OfOfferingHas(list: seq<Checkin>, c: Checkin)
    requires c in list
    ensures c.id in OfOffering(list, c.offering)
  {
    var n := |list| - 1;
    if c != list[n] {
      assert list == list[..n] + [list[n]];
      OfOfferingHas(list[..n], c);
    }
  }

  /** Among listed checkins, those with the ids of an offering are those that have it. */
  lemma OfOfferingIffHas(list: seq<Checkin>, c: Checkin, o: int)
    requires OneEachId(list) && c in list
    ensures c.id in OfOffering(list, o) <==> c.offering == o
  {
    OfOfferingHas(list, c);
    if c.id in OfOffering(list, o) {
      var i := OfOfferingFrom(list, o, c.id);
      var k :| 0 <= k < |list| && list[k] == c;
      assert list[i].id == list[k].id;
    }
  }

  lemma NotYetCounted(stats: map<int, Stat>, list: seq<Checkin>, a: Answers, done: set<int>, o: int)
    requires FilledIn(stats, list, a, done) && o !in done
    ensures forall id <- OfOffering(list, o) :: id in stats && stats[id].rosterRows == 0
  {
    forall id | id in OfOffering(list, o) ensures id in stats && stats[id].rosterRows == 0 {
      var i := OfOfferingFrom(list, o, id);
      assert list[i] in list;
    }
  }

  lemma CountedToo(before: map<int, Stat>, stats: map<int, Stat>, list: seq<Checkin>, a: Answers, done: set<int>, o: int)
    requires OneEachId(list) && FilledIn(before, list, a, done) && o !in done && o > 0 && stats.Keys == before.Keys
    requires forall id <- stats ::
               stats[id] == if id in OfOffering(list, o)
                            then before[id].(expected := a.rosterCount(o), rosterRows := CheckinValue(a.rosterGroups(o), id))
                            else before[id]
    ensures FilledIn(stats, list, a, done + {o})
  {
    forall c | c in list ensures c.id in stats && stats[c.id] == Filled(StatusStat(a.byStatus, c.id), a, c.id, Among(done + {o}, c)) {
      OfOfferingIffHas(list, c, o);
    }
  }

  // -- What it computes -----------------------------------------------------

  /** The roster of a checkin: none without an offering. */
  function RosterOf(t: Tables, c: Checkin): seq<int> {
    if c.offering > 0 then Roster(t, c.offering) else []
  }

  /** The counts of one checkin from what the queries find: the roster size, the records
      by status, and the roster records that the last query subtracts. */
  function CountsAt(at: Reads, c: Checkin): Counts {
    var records := RecordsOf(at.byStatus.records, c.id);
    var expected := if c.offering > 0 then DistinctUsers(Roster(at.rosterCount(c.offering), c.offering)) else 0;
    var recorded := if c.offering > 0 then RecordedSeats(at.rosterGroups(c.offering), c) else 0;
    Counts(expected, WithStatus(records, Present), WithStatus(records, Late),
           WithStatus(records, Absent) + expected - recorded, WithStatus(records, Leave))
  }

  /** The records of a checkin joined with its roster. */
  function RecordedSeats(t: Tables, c: Checkin): nat {
    JoinedWithRoster(RecordsOf(t.records, c.id), RosterOf(t, c))
  }

  /** The counts of one checkin, from its records and its roster at one moment. */
  function CountsOf(t: Tables, c: Checkin): Counts {
    var records, roster := RecordsOf(t.records, c.id), RosterOf(t, c);
    Counts(DistinctUsers(roster), FastCount(records, roster, Present), FastCount(records, roster, Late),
           FastCount(records, roster, Absent), FastCount(records, roster, Leave))
  }

  lemma {:induction false} GroupValueFound(rows: seq<StatusGroup>, i: nat)
    requires i < |rows|
    requires forall j, k :: 0 <= j < k < |rows| ==> rows[j].checkin != rows[k].checkin || rows[j].status != rows[k].status
    ensures GroupValue(rows, rows[i].checkin, rows[i].status) == rows[i].n
  {
    if i < |rows| - 1 { GroupValueFound(rows[..|rows| - 1], i); }
  }

  lemma {:induction false} GroupValueMissing(rows: seq<StatusGroup>, id: int, s: Status)
    requires !HasStatusGroup(rows, id, s)
    ensures GroupValue(rows, id, s) == 0
  {
    if rows != [] {
      var n := |rows| - 1;
      assert !(rows[n].checkin == id && rows[n].status == s);
      assert forall i :: 0 <= i < n ==> rows[..n][i] == rows[i];
      GroupValueMissing(rows[..n], id, s);
    }
  }

  lemma GroupValueIsCount(t: Tables, ids: seq<int>, rows: seq<StatusGroup>, id: int, s: Status)
    requires GroupsByStatus(t, ids, rows) && id in ids
    ensures GroupValue(rows, id, s) == WithStatus(RecordsOf(t.records, id), s)
  {
    if HasStatusGroup(rows, id, s) {
      var i :| 0 <= i < |rows| && rows[i].checkin == id && rows[i].status == s;
      GroupValueFound(rows, i);
      assert rows[i] in rows;
    } else {
      GroupValueMissing(rows, id, s);
    }
  }

  lemma {:induction false} CheckinValueFound(rows: seq<CheckinGroup>, i: nat)
    requires i < |rows| && forall j, k :: 0 <= j < k < |rows| ==> rows[j].checkin != rows[k].checkin
    ensures CheckinValue(rows, rows[i].checkin) == rows[i].n
  {
    if i < |rows| - 1 { CheckinValueFound(rows[..|rows| - 1], i); }
  }

  lemma {:induction false} CheckinValueMissing(rows: seq<CheckinGroup>, id: int)
    requires !HasCheckinGroup(rows, id)
    ensures CheckinValue(rows, id) == 0
  {
    if rows != [] {
      var n := |rows| - 1;
      assert rows[n].checkin != id;
      assert forall i :: 0 <= i < n ==> rows[..n][i] == rows[i];
      CheckinValueMissing(rows[..n], id);
    }
  }

  lemma CheckinValueIsCount(t: Tables, ids: seq<int>, o: int, rows: seq<CheckinGroup>, id: int)
    requires GroupsByCheckin(t, ids, o, rows) && id in ids
    ensures CheckinValue(rows, id) == JoinedWithRoster(RecordsOf(t.records, id), Roster(t, o))
  {
    if HasCheckinGroup(rows, id) {
      var i :| 0 <= i < |rows| && rows[i].checkin == id;
      CheckinValueFound(rows, i);
      assert rows[i] in rows;
    } else {
      CheckinValueMissing(rows, id);
    }
  }

  lemma {:induction false} NoRosterRows(records: seq<Record>)
    ensures JoinedWithRoster(records, []) == 0 && DistinctUsers([]) == 0
  {
    var none: seq<int> := [];
    assert (set u | u in none) == {};
    if records != [] { NoRosterRows(records[..|records| - 1]); }
  }

  lemma EntryIsSpec(at: Reads, list: seq<Checkin>, a: Answers, c: Checkin)
    requires Answered(at, list, a) && c in list && c.id in OfOffering(list, c.offering)
    ensures var st := Filled(StatusStat(a.byStatus, c.id), a, c.id, if c.offering > 0 then c.offering else 0);
            CountsAt(at, c) == Totalled(st)
  {
    var i :| 0 <= i < |list| && list[i] == c;
    assert Ids(list)[i] == c.id;
    StatusStatIsCount(at.byStatus, Ids(list), a.byStatus, c.id);
    if c.offering > 0 {
      assert AnsweredFor(at, list, a, c.offering);
      CheckinValueIsCount(at.rosterGroups(c.offering), OfOffering(list, c.offering), c.offering, a.rosterGroups(c.offering), c.id);
    }
  }

  lemma StatusStatIsCount(t: Tables, ids: seq<int>, rows: seq<StatusGroup>, id: int)
    requires GroupsByStatus(t, ids, rows) && id in ids
    ensures var records := RecordsOf(t.records, id);
            StatusStat(rows, id) == Stat(WithStatus(records, Present), WithStatus(records, Late),
                                         WithStatus(records, Absent), WithStatus(records, Leave), 0, 0)
  {
    GroupValueIsCount(t, ids, rows, id, Present);
    GroupValueIsCount(t, ids, rows, id, Late);
    GroupValueIsCount(t, ids, rows, id, Absent);
    GroupValueIsCount(t, ids, rows, id, Leave);
  }

  /** All queries find the same tables. */
  ghost predicate AtOnce(at: Reads, t: Tables) {
    at.byStatus == t && forall o :: at.rosterCount(o) == t && at.rosterGroups(o) == t
  }

  lemma CountsAtOnce(at: Reads, t: Tables, c: Checkin)
    requires AtOnce(at, t)
    ensures CountsAt(at, c) == CountsOf(t, c)
  {
    NoRosterRows(RecordsOf(t.records, c.id));
  }

  /** Two tables that differ in their records only. */
  predicate SameRosters(t: Tables, u: Tables) {
    t == u.(records := t.records)
  }

  lemma SameSeats(t: Tables, u: Tables, offering: int)
    requires SameRosters(t, u)
    ensures Roster(t, offering) == Roster(u, offering)
  {
  }

  /** The queries behind a checkin find the same rosters, and the last one the records
      of u. */
  ghost predicate SpreadOut(at: Reads, t: Tables, u: Tables, c: Checkin) {
    && at.byStatus == t && SameRosters(t, u)
    && SameRosters(t, at.rosterCount(c.offering)) && at.rosterGroups(c.offering) == u
  }

  /** When the records change between the first and the last query, absent is short of its
      count at the first by the roster records that came in between. */
  lemma SpreadOutCounts(at: Reads, t: Tables, u: Tables, c: Checkin)
    requires SpreadOut(at, t, u, c)
    ensures CountsAt(at, c) == CountsOf(t, c).(absent := CountsOf(t, c).absent - (RecordedSeats(u, c) - RecordedSeats(t, c)))
  {
    NoRosterRows(RecordsOf(t.records, c.id));
    NoRosterRows(RecordsOf(u.records, c.id));
    SameSeats(t, u, c.offering);
    SameSeats(t, at.rosterCount(c.offering), c.offering);
  }

  // -- Agreement with the list ----------------------------------------------

  function Count(c: Counts, s: Status): int {
    match s case Present => c.present case Late => c.late case Absent => c.absent case Leave => c.leave
  }

  /** The list of a checkin, with its offering or none. */
  function ListOf(t: Tables, c: Checkin): seq<Row> {
    RecordUnion(t, c.id, c.offering)
  }

  lemma SameRoster(t: Tables, c: Checkin)
    requires Keyed(t)
    ensures Roster(t, c.offering) == RosterOf(t, c) && Distinct(RosterOf(t, c))
  {
    RosterIsDistinct(t, c.offering);
  }

  /** Each status count is the number of rows with that status in the list. */
  lemma CountsAgreeWithList(t: Tables, c: Checkin, s: Status)
    requires Keyed(t)
    ensures Count(CountsOf(t, c), s) == CountRows(ListOf(t, c), s)
  {
    var records, roster := RecordsOf(t.records, c.id), RosterOf(t, c);
    SameRoster(t, c);
    RecordsOfOneEach(t.records, c.id);
    ListAgreesWithFastCount(records, roster, s);
    CountConcat(RosterBranch(records, roster), ExtraBranch(records, roster), s);
  }

  lemma {:induction false} StatusesPartition(rows: seq<Row>)
    ensures CountRows(rows, Present) + CountRows(rows, Late) + CountRows(rows, Absent) + CountRows(rows, Leave) == |rows|
  {
    if rows != [] { StatusesPartition(rows[..|rows| - 1]); }
  }

  /** Nobody is counted twice and nobody is lost: the four counts add up to the roster
      plus the records outside it. */
  lemma CountsAddUp(t: Tables, c: Checkin)
    requires Keyed(t)
    ensures var n := CountsOf(t, c);
            n.present + n.late + n.absent + n.leave == n.expected + |ExtraBranch(RecordsOf(t.records, c.id), RosterOf(t, c))|
  {
    var records, roster := RecordsOf(t.records, c.id), RosterOf(t, c);
    CountsAgreeWithList(t, c, Present);
    CountsAgreeWithList(t, c, Late);
    CountsAgreeWithList(t, c, Absent);
    CountsAgreeWithList(t, c, Leave);
    StatusesPartition(ListOf(t, c));
    SameRoster(t, c);
    RecordsOfOneEach(t.records, c.id);
    ListAgreesWithFastCount(records, roster, Present);
  }

  /** A checkin without an offering lists exactly its records. */
  lemma StandaloneListsItsRecords(t: Tables, c: Checkin)
    requires Keyed(t) && c.offering == 0
    ensures CountsOf(t, c).expected == 0
    ensures |ListOf(t, c)| == |RecordsOf(t.records, c.id)| && forall row <- ListOf(t, c) :: row.extra
  {
    SameRoster(t, c);
    NoRosterRows([]);
    AllExtra(RecordsOf(t.records, c.id));
  }

  lemma {:induction false} AllExtra(records: seq<Record>)
    ensures |ExtraBranch(records, [])| == |records| && forall row <- ExtraBranch(records, []) :: row.extra
  {
    if records != [] { AllExtra(records[..|records| - 1]); }
  }
}

/** The semester matrix: one row per student, one column per checkin
    (OfferingSummary in attendance/store_records.go). */
module AttendanceSummary {
  import opened AttendanceStatus
  import opened Common
  import opened AttendanceTables
  import opened AttendanceCounts

  // -- The program ----------------------------------------------------------

  datatype SummaryRow = SummaryRow(user: int, inRoster: bool, records: map<int, Status>, totals: map<Status, nat>)

  /** The results of the four queries for an offering: its checkins, its roster in
      some order, the students with records outside it, and all record rows. */
  datatype Answers = Answers(checkins: seq<int>, roster: seq<int>, extras: seq<int>, records: seq<Record>)

  ghost predicate Answered(t: Tables, offering: int, a: Answers) {
    && Distinct(a.checkins)
    && Distinct(a.roster) && (forall u :: u in a.roster <==> u in Roster(t, offering))
    && Distinct(a.extras) && (forall u :: u in a.extras <==> u !in Roster(t, offering) && HasRecord(t, a.checkins, u))
    && OneRecordEach(a.records) && (forall r :: r in a.records <==> r in t.records && r.checkin in a.checkins)
  }

  ghost predicate HasRecord(t: Tables, checkins: seq<int>, user: int) {
    exists r <- t.records :: r.user == user && r.checkin in checkins
  }

  method GroupByStudent(records: seq<Record>) returns (recs: map<int, map<int, Status>>)
    ensures forall u, c :: Stored(recs, u, c) == StatusIn(RecordsOf(records, c), u)
  {
    recs := map[];
    for i := 0 to |records|
      invariant forall u, c :: Stored(recs, u, c) == StatusIn(RecordsOf(records[..i], c), u)
    {
      var r := records[i];
      StoredSnoc(records[..i], r);
      assert records[..i + 1] == records[..i] + [r];
      StoreOne(recs, r);
      recs := Store(recs, r);
    }
    assert records[..|records|] == records;
  }

  function Store(recs: map<int, map<int, Status>>, r: Record): map<int, map<int, Status>> {
    var m := if r.user in recs then recs[r.user] else map[];
    recs[r.user := m[r.checkin := r.status]]
  }

  lemma StoreOne(recs: map<int, map<int, Status>>, r: Record)
    ensures forall u, c :: Stored(Store(recs, r), u, c) == if r.user == u && r.checkin == c then Some(r.status) else Stored(recs, u, c)
  {
  }

  /** recs[user][checkin] */
  function Stored(recs: map<int, map<int, Status>>, user: int, checkin: int): Option<Status> {
    if user in recs && checkin in recs[user] then Some(recs[user][checkin]) else None
  }

  method OfferingSummary(ghost t: Tables, ghost offering: int, a: Answers) returns (rows: seq<SummaryRow>)
    requires Keyed(t) && Answered(t, offering, a)
    ensures a.checkins == [] ==> rows == []
    ensures a.checkins != [] ==> |rows| == |a.roster| + |a.extras|
    ensures forall i :: 0 <= i < |rows| ==> ShowsStudent(t, a, i, rows[i])
  {
    if |a.checkins| == 0 { return []; }
    rows := [];
    for i := 0 to |a.roster|
      invariant |rows| == i && forall k :: 0 <= k < i ==> rows[k] == SummaryRow(a.roster[k], true, map[], map[])
    {
      rows := rows + [SummaryRow(a.roster[i], true, map[], map[])];
    }
    for i := 0 to |a.extras|
      invariant |rows| == |a.roster| + i
      invariant forall k :: 0 <= k < |rows| ==> rows[k] == SummaryRow(StudentAt(a, k), k < |a.roster|, map[], map[])
    {
      rows := rows + [SummaryRow(a.extras[i], false, map[], map[])];
    }
    var recs := GroupByStudent(a.records);
    RecordsAgree(t, offering, a);
    for i := 0 to |rows|
      invariant |rows| == |a.roster| + |a.extras|
      invariant forall k :: 0 <= k < i ==> ShowsStudent(t, a, k, rows[k])
      invariant forall k :: i <= k < |rows| ==> rows[k] == SummaryRow(StudentAt(a, k), k < |a.roster|, map[], map[])
    {
      var r := FillRow(t, rows[i], a.checkins, recs);
      rows := rows[i := r];
    }
  }

  function StudentAt(a: Answers, i: nat): int
    requires i < |a.roster| + |a.extras|
  {
    if i < |a.roster| then a.roster[i] else a.extras[i - |a.roster|]
  }

  method FillRow(ghost t: Tables, row: SummaryRow, checkins: seq<int>, recs: map<int, map<int, Status>>) returns (r: SummaryRow)
    requires Distinct(checkins)
    requires forall u, c :: c in checkins ==> Stored(recs, u, c) == StatusIn(RecordsOf(t.records, c), u)
    ensures r.user == row.user && r.inRoster == row.inRoster && ShowsCells(t, checkins, r)
  {
    r := row.(records := map[], totals := map[]);
    for k := 0 to |checkins|
      invariant r.user == row.user && r.inRoster == row.inRoster && ShowsCells(t, checkins[..k], r)
    {
      var c := checkins[k];
      assert checkins[..k + 1] == checkins[..k] + [c];
      var status, ok := Absent, r.user in recs && c in recs[r.user];
      if ok { status := recs[r.user][c]; }
      assert Stored(recs, r.user, c) == if ok then Some(status) else None;
      ghost var shown := r;
      if ok || r.inRoster {
        r := r.(records := r.records[c := status],
                totals := r.totals[status := (if status in r.totals then r.totals[status] else 0) + 1]);
      }
      OneMoreCell(t, checkins[..k], c, shown, r);
    }
    assert checkins[..|checkins|] == checkins;
  }

  /** A row that shows the cells of some checkins, with one more cell. */
  lemma OneMoreCell(t: Tables, checkins: seq<int>, c: int, row: SummaryRow, next: SummaryRow)
    requires c !in checkins && ShowsCells(t, checkins, row)
    requires next == match Cell(t, row.user, row.inRoster, c)
                     case None => row
                     case Some(s) => row.(records := row.records[c := s], totals := row.totals[s := Total(row, s) + 1])
    ensures ShowsCells(t, checkins + [c], next)
  {
    CellCountSnoc(t, row.user, row.inRoster, checkins, c);
    assert ShowsRecords(t, checkins + [c], next);
    assert ShowsTotals(t, checkins + [c], next);
  }

  // -- What it computes -----------------------------------------------------

  function StatusIn(records: seq<Record>, user: int): Option<Status> {
    if records == [] then None
    else if records[|records| - 1].user == user then Some(records[|records| - 1].status)
    else StatusIn(records[..|records| - 1], user)
  }

  /** The cell of a student and a checkin: the recorded status, or absent for a roster
      student without a record. */
  function Cell(t: Tables, user: int, inRoster: bool, checkin: int): Option<Status> {
    var s := StatusIn(RecordsOf(t.records, checkin), user);
    if s == None && inRoster then Some(Absent) else s
  }

  /** How many of a student's cells show a status. */
  function CellCount(t: Tables, user: int, inRoster: bool, checkins: seq<int>, s: Status): nat {
    if checkins == [] then 0
    else
      var n := |checkins| - 1;
      CellCount(t, user, inRoster, checkins[..n], s) + if Cell(t, user, inRoster, checkins[n]) == Some(s) then 1 else 0
  }

  function Total(row: SummaryRow, s: Status): nat {
    if s in row.totals then row.totals[s] else 0
  }

  /** Records holds exactly the row's cells, and Totals counts them by status. */
  ghost predicate ShowsCells(t: Tables, checkins: seq<int>, row: SummaryRow) {
    ShowsRecords(t, checkins, row) && ShowsTotals(t, checkins, row)
  }

  ghost predicate ShowsRecords(t: Tables, checkins: seq<int>, row: SummaryRow) {
    && (forall c :: c in row.records <==> c in checkins && Cell(t, row.user, row.inRoster, c).Some?)
    && (forall c <- row.records :: Some(row.records[c]) == Cell(t, row.user, row.inRoster, c))
  }

  ghost predicate ShowsTotals(t: Tables, checkins: seq<int>, row: SummaryRow) {
    forall s :: Total(row, s) == CellCount(t, row.user, row.inRoster, checkins, s)
  }

  ghost predicate ShowsStudent(t: Tables, a: Answers, i: nat, row: SummaryRow) {
    && i < |a.roster| + |a.extras|
    && row.user == StudentAt(a, i) && row.inRoster == (i < |a.roster|)
    && ShowsCells(t, a.checkins, row)
  }

  lemma StoredSnoc(records: seq<Record>, r: Record)
    ensures forall u, c :: StatusIn(RecordsOf(records + [r], c), u)
                        == if r.user == u && r.checkin == c then Some(r.status) else StatusIn(RecordsOf(records, c), u)
  {
    forall u, c ensures StatusIn(RecordsOf(records + [r], c), u)
                     == if r.user == u && r.checkin == c then Some(r.status) else StatusIn(RecordsOf(records, c), u) {
      assert (records + [r])[..|records|] == records;
      assert RecordsOf(records, c) + [] == RecordsOf(records, c);
      StatusInSnoc(RecordsOf(records, c), r, u);
    }
  }

  lemma StatusInSnoc(records: seq<Record>, r: Record, u: int)
    ensures StatusIn(records + [r], u) == if r.user == u then Some(r.status) else StatusIn(records, u)
  {
    assert (records + [r])[..|records|] == records;
  }

  lemma CellCountSnoc(t: Tables, user: int, inRoster: bool, checkins: seq<int>, c: int)
    ensures forall s :: CellCount(t, user, inRoster, checkins + [c], s)
                     == CellCount(t, user, inRoster, checkins, s) + if Cell(t, user, inRoster, c) == Some(s) then 1 else 0
  {
    assert (checkins + [c])[..|checkins|] == checkins;
  }

  lemma {:induction false} StatusInIffRecord(records: seq<Record>, c: int, u: int, s: Status)
    requires OneRecordEach(records)
    ensures StatusIn(RecordsOf(records, c), u) == Some(s) <==> Record(c, u, s) in records
  {
    if records != [] {
      var init, r := records[..|records| - 1], records[|records| - 1];
      assert records == init + [r];
      StatusInIffRecord(init, c, u, s);
      StoredSnoc(init, r);
      if r.user == u && r.checkin == c && Record(c, u, s) in records {
        var i :| 0 <= i < |records| && records[i] == Record(c, u, s);
        assert i == |records| - 1;
      }
    }
  }

  lemma StatusInSame(a: seq<Record>, b: seq<Record>, c: int, u: int)
    requires OneRecordEach(a) && OneRecordEach(b)
    requires forall s :: Record(c, u, s) in a <==> Record(c, u, s) in b
    ensures StatusIn(RecordsOf(a, c), u) == StatusIn(RecordsOf(b, c), u)
  {
    var x, y := StatusIn(RecordsOf(a, c), u), StatusIn(RecordsOf(b, c), u);
    if x.Some? { StatusInIffRecord(a, c, u, x.value); StatusInIffRecord(b, c, u, x.value); }
    if y.Some? { StatusInIffRecord(a, c, u, y.value); StatusInIffRecord(b, c, u, y.value); }
  }

  lemma RecordsAgree(t: Tables, offering: int, a: Answers)
    requires Keyed(t) && Answered(t, offering, a)
    ensures forall u, c :: c in a.checkins ==> StatusIn(RecordsOf(a.records, c), u) == StatusIn(RecordsOf(t.records, c), u)
  {
    forall u, c | c in a.checkins ensures StatusIn(RecordsOf(a.records, c), u) == StatusIn(RecordsOf(t.records, c), u) {
      StatusInSame(a.records, t.records, c, u);
    }
  }

  // -- Double counting ------------------------------------------------------

  /** The totals of a roster row add up to the number of checkins. */
  lemma {:induction false} RosterRowIsFull(t: Tables, user: int, checkins: seq<int>)
    ensures CellCount(t, user, true, checkins, Present) + CellCount(t, user, true, checkins, Late)
          + CellCount(t, user, true, checkins, Absent) + CellCount(t, user, true, checkins, Leave) == |checkins|
  {
    if checkins != [] {
      var n := |checkins| - 1;
      RosterRowIsFull(t, user, checkins[..n]);
      match Cell(t, user, true, checkins[n]) {
        case Some(Present) =>
        case Some(Late) =>
        case Some(Absent) =>
        case Some(Leave) =>
      }
    }
  }

  lemma RosterTotalsAddUp(t: Tables, checkins: seq<int>, row: SummaryRow)
    requires row.inRoster && ShowsCells(t, checkins, row)
    ensures Total(row, Present) + Total(row, Late) + Total(row, Absent) + Total(row, Leave) == |checkins|
  {
    RosterRowIsFull(t, row.user, checkins);
  }

  function SumTotals(rows: seq<SummaryRow>, s: Status): int {
    if rows == [] then 0 else SumTotals(rows[..|rows| - 1], s) + Total(rows[|rows| - 1], s)
  }

  /** The per-checkin counts of a status, added up over checkins. */
  function SumCounts(t: Tables, offering: int, checkins: seq<int>, s: Status): int {
    if checkins == [] then 0
    else
      var n := |checkins| - 1;
      SumCounts(t, offering, checkins[..n], s) + Count(CountsOf(t, Checkin(checkins[n], offering)), s)
  }

  /** Cells with a status, over some students and all checkins. */
  function Block(t: Tables, users: seq<int>, inRoster: bool, checkins: seq<int>, s: Status): int {
    if users == [] then 0
    else
      var n := |users| - 1;
      Block(t, users[..n], inRoster, checkins, s) + CellCount(t, users[n], inRoster, checkins, s)
  }

  function Shows(records: seq<Record>, user: int, inRoster: bool, s: Status): int {
    var x := StatusIn(records, user);
    if (if x == None && inRoster then Some(Absent) else x) == Some(s) then 1 else 0
  }

  /** Cells with a status in the column of a checkin with the given records. */
  function Column(records: seq<Record>, users: seq<int>, inRoster: bool, s: Status): int {
    if users == [] then 0
    else
      var n := |users| - 1;
      Column(records, users[..n], inRoster, s) + Shows(records, users[n], inRoster, s)
  }

  lemma {:induction false} BlockByColumns(t: Tables, users: seq<int>, inRoster: bool, checkins: seq<int>, s: Status)
    requires checkins != []
    ensures Block(t, users, inRoster, checkins, s)
         == Block(t, users, inRoster, checkins[..|checkins| - 1], s)
            + Column(RecordsOf(t.records, checkins[|checkins| - 1]), users, inRoster, s)
  {
    if users != [] { BlockByColumns(t, users[..|users| - 1], inRoster, checkins, s); }
  }

  lemma {:induction false} BlockOfNothing(t: Tables, users: seq<int>, inRoster: bool, s: Status)
    ensures Block(t, users, inRoster, [], s) == 0
  {
    if users != [] { BlockOfNothing(t, users[..|users| - 1], inRoster, s); }
  }

  lemma {:induction false} StatusInNone(records: seq<Record>, u: int)
    requires forall i :: 0 <= i < |records| ==> records[i].user != u
    ensures StatusIn(records, u) == None
  {
    if records != [] { StatusInNone(records[..|records| - 1], u); }
  }

  /** One more record changes the column by the student it belongs to. */
  lemma {:induction false} ColumnSnoc(records: seq<Record>, r: Record, users: seq<int>, inRoster: bool, s: Status)
    requires StatusIn(records, r.user) == None
    ensures Column(records + [r], users, inRoster, s)
         == Column(records, users, inRoster, s) + Occurrences(users, r.user) * (Is(r.status, s) - if inRoster then Is(Absent, s) else 0)
  {
    if users != [] {
      ColumnSnoc(records, r, users[..|users| - 1], inRoster, s);
      StatusInSnoc(records, r, users[|users| - 1]);
    }
  }

  lemma {:induction false} EmptyColumn(users: seq<int>, inRoster: bool, s: Status)
    ensures Column([], users, inRoster, s) == if inRoster && s == Absent then |users| else 0
  {
    if users != [] { EmptyColumn(users[..|users| - 1], inRoster, s); }
  }

  /** A whole column counts what the fast form counts, if the extra students are
      disjoint from the roster and hold all records outside it. */
  lemma {:induction false} ColumnIsFastCount(records: seq<Record>, roster: seq<int>, extras: seq<int>, s: Status)
    requires OneEach(records) && Distinct(roster) && Distinct(extras)
    requires forall u :: !(u in roster && u in extras)
    requires forall r <- records :: r.user in roster || r.user in extras
    ensures Column(records, roster, true, s) + Column(records, extras, false, s) == FastCount(records, roster, s)
  {
    if records == [] {
      EmptyColumn(roster, true, s);
      EmptyColumn(extras, false, s);
      DistinctUsersOfDistinct(roster);
    } else {
      var init, r := records[..|records| - 1], records[|records| - 1];
      assert records == init + [r];
      ColumnIsFastCount(init, roster, extras, s);
      StatusInNone(init, r.user);
      ColumnSnoc(init, r, roster, true, s);
      ColumnSnoc(init, r, extras, false, s);
      OccurrencesOfDistinct(roster, r.user);
      OccurrencesOfDistinct(extras, r.user);
      assert r in records;
    }
  }

  /** The order of the roster does not matter for the counts. */
  lemma {:induction false} FastCountSameRoster(records: seq<Record>, a: seq<int>, b: seq<int>, s: Status)
    requires Distinct(a) && Distinct(b) && forall u :: u in a <==> u in b
    ensures FastCount(records, a, s) == FastCount(records, b, s)
  {
    assert (set u | u in a) == (set u | u in b);
    JoinedSameRoster(records, a, b);
  }

  lemma {:induction false} JoinedSameRoster(records: seq<Record>, a: seq<int>, b: seq<int>)
    requires Distinct(a) && Distinct(b) && forall u :: u in a <==> u in b
    ensures JoinedWithRoster(records, a) == JoinedWithRoster(records, b)
  {
    if records != [] {
      var r := records[|records| - 1];
      JoinedSameRoster(records[..|records| - 1], a, b);
      OccurrencesOfDistinct(a, r.user);
      OccurrencesOfDistinct(b, r.user);
    }
  }

  /** The column of one checkin, over all rows, is its count. */
  lemma ColumnIsCount(t: Tables, offering: int, a: Answers, c: int, s: Status)
    requires Keyed(t) && Answered(t, offering, a) && offering > 0 && c in a.checkins
    ensures Column(RecordsOf(t.records, c), a.roster, true, s) + Column(RecordsOf(t.records, c), a.extras, false, s)
         == Count(CountsOf(t, Checkin(c, offering)), s)
  {
    var records := RecordsOf(t.records, c);
    RecordsOfOneEach(t.records, c);
    RosterIsDistinct(t, offering);
    forall r | r in records ensures r.user in a.roster || r.user in a.extras {
      RecordsOfIsFilter(t.records, c, r);
      assert HasRecord(t, a.checkins, r.user);
    }
    ColumnIsFastCount(records, a.roster, a.extras, s);
    FastCountSameRoster(records, a.roster, Roster(t, offering), s);
  }

  lemma {:induction false} BlocksAreCounts(t: Tables, offering: int, a: Answers, checkins: seq<int>, s: Status)
    requires Keyed(t) && Answered(t, offering, a) && offering > 0 && forall c <- checkins :: c in a.checkins
    ensures Block(t, a.roster, true, checkins, s) + Block(t, a.extras, false, checkins, s) == SumCounts(t, offering, checkins, s)
  {
    if checkins == [] {
      BlockOfNothing(t, a.roster, true, s);
      BlockOfNothing(t, a.extras, false, s);
    } else {
      var n := |checkins| - 1;
      BlocksAreCounts(t, offering, a, checkins[..n], s);
      BlockByColumns(t, a.roster, true, checkins, s);
      BlockByColumns(t, a.extras, false, checkins, s);
      ColumnIsCount(t, offering, a, checkins[n], s);
    }
  }

  /** The total of every row counts the cells of its student. */
  ghost predicate TotalsAreCells(t: Tables, a: Answers, rows: seq<SummaryRow>, s: Status) {
    && |rows| == |a.roster| + |a.extras|
    && forall i :: 0 <= i < |rows| ==> Total(rows[i], s) == CellCount(t, StudentAt(a, i), i < |a.roster|, a.checkins, s)
  }

  lemma {:induction false} RosterTotals(t: Tables, a: Answers, rows: seq<SummaryRow>, s: Status, n: nat)
    requires TotalsAreCells(t, a, rows, s) && n <= |a.roster|
    ensures SumTotals(rows[..n], s) == Block(t, a.roster[..n], true, a.checkins, s)
  {
    if n > 0 {
      RosterTotals(t, a, rows, s, n - 1);
      TotalsSnoc(rows, n - 1, s);
      BlockSnoc(t, a.roster, n - 1, true, a.checkins, s);
    }
  }

  lemma {:induction false} ExtraTotals(t: Tables, a: Answers, rows: seq<SummaryRow>, s: Status, n: nat)
    requires TotalsAreCells(t, a, rows, s) && n <= |a.extras|
    ensures SumTotals(rows[..|a.roster| + n], s) == SumTotals(rows[..|a.roster|], s) + Block(t, a.extras[..n], false, a.checkins, s)
  {
    if n > 0 {
      ExtraTotals(t, a, rows, s, n - 1);
      TotalsSnoc(rows, |a.roster| + n - 1, s);
      BlockSnoc(t, a.extras, n - 1, false, a.checkins, s);
    }
  }

  lemma TotalsSnoc(rows: seq<SummaryRow>, i: nat, s: Status)
    requires i < |rows|
    ensures SumTotals(rows[..i + 1], s) == SumTotals(rows[..i], s) + Total(rows[i], s)
  {
    assert rows[..i + 1][..i] == rows[..i];
  }

  lemma BlockSnoc(t: Tables, users: seq<int>, i: nat, inRoster: bool, checkins: seq<int>, s: Status)
    requires i < |users|
    ensures Block(t, users[..i + 1], inRoster, checkins, s)
         == Block(t, users[..i], inRoster, checkins, s) + CellCount(t, users[i], inRoster, checkins, s)
  {
    assert users[..i + 1][..i] == users[..i];
  }

  lemma TotalsAreBlocks(t: Tables, a: Answers, rows: seq<SummaryRow>, s: Status)
    requires |rows| == |a.roster| + |a.extras| && forall i :: 0 <= i < |rows| ==> ShowsStudent(t, a, i, rows[i])
    ensures SumTotals(rows, s) == Block(t, a.roster, true, a.checkins, s) + Block(t, a.extras, false, a.checkins, s)
  {
    forall i | 0 <= i < |rows|
      ensures Total(rows[i], s) == CellCount(t, StudentAt(a, i), i < |a.roster|, a.checkins, s)
    {
      assert ShowsStudent(t, a, i, rows[i]);
    }
    RosterTotals(t, a, rows, s, |a.roster|);
    ExtraTotals(t, a, rows, s, |a.extras|);
    assert rows[..|rows|] == rows && a.roster[..|a.roster|] == a.roster && a.extras[..|a.extras|] == a.extras;
  }

  /** Double counting: a status adds up to the same over the rows' totals as over the
      checkins' counts. */
  lemma RowsAndColumnsAgree(t: Tables, offering: int, a: Answers, rows: seq<SummaryRow>, s: Status)
    requires Keyed(t) && Answered(t, offering, a) && offering > 0
    requires |rows| == |a.roster| + |a.extras| && forall i :: 0 <= i < |rows| ==> ShowsStudent(t, a, i, rows[i])
    ensures SumTotals(rows, s) == SumCounts(t, offering, a.checkins, s)
  {
    TotalsAreBlocks(t, a, rows, s);
    BlocksAreCounts(t, offering, a, a.checkins, s);
  }
}

/** The merged-cell weekly grid of course/timetable_export.go: days are columns,
    periods are rows, and a multi-period occupant becomes one merged block. */
module TimetableExport {
  import opened Common
  import opened Occupancy
  import opened Timetable

  /** What is written to the sheet body. A block is merged when bottom > row. */
  datatype CellWrite =
    | FreeCell(col: int, row: int)
    | Block(col: int, row: int, bottom: int, occupant: RowId)

  predicate CoversCell(w: CellWrite, col: int, row: int) {
    w.col == col && w.row <= row <= (if w.Block? then w.bottom else w.row)
  }

  // -- Lookups --------------------------------------------------------------

  /** slotFor: the first slot with this period index, or none. */
  function SlotFor(slots: seq<TimetableSlot>, p: int): (r: Option<TimetableSlot>)
    ensures r.Some? ==> r.value in slots && r.value.periodIndex == p
    ensures r.None? ==> forall s <- slots :: s.periodIndex != p
  {
    if slots == [] then None
    else if slots[0].periodIndex == p then Some(slots[0])
    else SlotFor(slots[1..], p)
  }

  /** The range of the record a slot shows. */
  function Range(s: TimetableSlot): Slot
    requires !Free(s)
  {
    if s.session.Some? then s.session.value.session.slot else s.booking.value.booking.slot
  }

  /** The record of the slot starts exactly at period p: one of the two switch
      cases that open a block. */
  predicate Opens(s: TimetableSlot, p: int) {
    || (s.session.Some? && s.session.value.session.slot.ps == p)
    || (s.booking.Some? && s.booking.value.booking.slot.ps == p)
  }

  function OpenedBy(s: TimetableSlot, p: int): (RowId, int)
    requires Opens(s, p)
  {
    if s.session.Some? && s.session.value.session.slot.ps == p
    then (SessionRow(s.session.value.id), s.session.value.session.slot.pe - p + 1)
    else (BookingRow(s.booking.value.id), s.booking.value.booking.slot.pe - p + 1)
  }

  function Min(a: int, b: int): int { if a <= b then a else b }

  // -- One column, row by row -----------------------------------------------

  /** skip[di] before row ri is processed. */
  function SkipAt(slots: seq<TimetableSlot>, periods: seq<TimetableSlot>, ri: nat): int
    requires ri <= |periods|
  {
    if ri == 0 then 0
    else
      var k := SkipAt(slots, periods, ri - 1);
      var p := periods[ri - 1].periodIndex;
      var slot := SlotFor(slots, p);
      if ri - 1 < k || slot.None? || !Opens(slot.value, p) then k
      else ri - 1 + OpenedBy(slot.value, p).1
  }

  /** What row ri writes in one column: nothing where an earlier merge covers it. */
  function WriteAt(slots: seq<TimetableSlot>, col: int, periods: seq<TimetableSlot>, ri: nat): seq<CellWrite>
    requires ri < |periods|
  {
    var p := periods[ri].periodIndex;
    var slot := SlotFor(slots, p);
    if ri < SkipAt(slots, periods, ri) then []
    else if slot.None? || Free(slot.value) then [FreeCell(col, ri + 2)]
    else if Opens(slot.value, p) then
      var (o, span) := OpenedBy(slot.value, p);
      [Block(col, ri + 2, Min(ri + 2 + span - 1, 1 + |periods|), o)]
    else []
  }

  /** The cells of row ri, left to right. */
  function RowCells(days: seq<TimetableDay>, periods: seq<TimetableSlot>, ri: nat): seq<seq<CellWrite>>
    requires ri < |periods|
  {
    seq(|days|, di requires 0 <= di < |days| => WriteAt(days[di].slots, di + 2, periods, ri))
  }

  function Rows(days: seq<TimetableDay>, periods: seq<TimetableSlot>): seq<seq<CellWrite>> {
    seq(|periods|, ri requires 0 <= ri < |periods| => Flatten(RowCells(days, periods, ri)))
  }

  /** All writes of the sheet body, in the order they happen. */
  function GridWrites(days: seq<TimetableDay>, periods: seq<TimetableSlot>): seq<CellWrite> {
    Flatten(Rows(days, periods))
  }

  // -- The export -----------------------------------------------------------

  predicate HasIndex(slots: seq<TimetableSlot>, p: int) {
    exists i :: 0 <= i < |slots| && slots[i].periodIndex == p
  }

  predicate SomeDayHas(days: seq<TimetableDay>, p: int) {
    exists d :: 0 <= d < |days| && HasIndex(days[d].slots, p)
  }

  /** The row labels: every period index of the week once, ascending. */
  ghost predicate IsUnion(periods: seq<TimetableSlot>, days: seq<TimetableDay>) {
    StrictlySorted(periods) && forall p :: HasIndex(periods, p) <==> SomeDayHas(days, p)
  }

  lemma HasIndexOneMore(slots: seq<TimetableSlot>, i: nat)
    requires i < |slots|
    ensures forall p :: HasIndex(slots[..i + 1], p) <==> HasIndex(slots[..i], p) || slots[i].periodIndex == p
  {
    var shorter, longer := slots[..i], slots[..i + 1];
    forall p ensures HasIndex(longer, p) <==> HasIndex(shorter, p) || slots[i].periodIndex == p {
      if j :| 0 <= j < |shorter| && shorter[j].periodIndex == p { assert longer[j].periodIndex == p; }
      if slots[i].periodIndex == p { assert longer[i].periodIndex == p; }
      if j :| 0 <= j < |longer| && longer[j].periodIndex == p {
        if j < i { assert shorter[j].periodIndex == p; }
      }
    }
  }

  lemma SomeDayHasOneMore(days: seq<TimetableDay>, d: nat)
    requires d < |days|
    ensures forall p :: SomeDayHas(days[..d + 1], p) <==> SomeDayHas(days[..d], p) || HasIndex(days[d].slots, p)
  {
    forall p ensures SomeDayHas(days[..d + 1], p) <==> SomeDayHas(days[..d], p) || HasIndex(days[d].slots, p) {
      if SomeDayHas(days[..d], p) {
        var k :| 0 <= k < |days[..d]| && HasIndex(days[..d][k].slots, p);
        assert HasIndex(days[..d + 1][k].slots, p);
      }
      if HasIndex(days[d].slots, p) { assert HasIndex(days[..d + 1][d].slots, p); }
      if SomeDayHas(days[..d + 1], p) {
        var k :| 0 <= k < |days[..d + 1]| && HasIndex(days[..d + 1][k].slots, p);
        if k < d { assert HasIndex(days[..d][k].slots, p); }
      }
    }
  }

  /** First slot of each period index wins. */
  method CollectPeriods(days: seq<TimetableDay>) returns (periodMap: map<int, TimetableSlot>)
    ensures forall p :: p in periodMap <==> SomeDayHas(days, p)
    ensures forall p <- periodMap :: periodMap[p].periodIndex == p
  {
    periodMap := map[];
    for d := 0 to |days|
      invariant forall p :: p in periodMap <==> SomeDayHas(days[..d], p)
      invariant forall p <- periodMap :: periodMap[p].periodIndex == p
    {
      ghost var before := periodMap;
      var slots := days[d].slots;
      for i := 0 to |slots|
        invariant forall p :: p in periodMap <==> p in before || HasIndex(slots[..i], p)
        invariant forall p <- periodMap :: periodMap[p].periodIndex == p
      {
        HasIndexOneMore(slots, i);
        if slots[i].periodIndex !in periodMap {
          periodMap := periodMap[slots[i].periodIndex := slots[i]];
        }
      }
      assert slots[..|slots|] == slots;
      SomeDayHasOneMore(days, d);
    }
    assert days[..|days|] == days;
  }

  /** The values of the period map, in whatever order the map yields them. */
  method ListPeriods(periodMap: map<int, TimetableSlot>) returns (list: seq<TimetableSlot>)
    requires forall p <- periodMap :: periodMap[p].periodIndex == p
    ensures DistinctIndices(list)
    ensures forall p :: HasIndex(list, p) <==> p in periodMap
  {
    list := [];
    var left := periodMap.Keys;
    while left != {}
      invariant left <= periodMap.Keys
      invariant forall p :: HasIndex(list, p) <==> p in periodMap && p !in left
      invariant DistinctIndices(list)
      decreases left
    {
      SomeElement(left);
      var p: int :| p in left;
      AppendDistinct(list, periodMap[p]);
      list := list + [periodMap[p]];
      left := left - {p};
    }
  }

  lemma AppendDistinct(list: seq<TimetableSlot>, x: TimetableSlot)
    requires DistinctIndices(list) && !HasIndex(list, x.periodIndex)
    ensures DistinctIndices(list + [x])
    ensures forall q :: HasIndex(list + [x], q) <==> HasIndex(list, q) || q == x.periodIndex
  {
    var longer := list + [x];
    assert longer[..|list|] == list && longer[..|list| + 1] == longer;
    HasIndexOneMore(longer, |list|);
    forall i | 0 <= i < |list| ensures longer[i].periodIndex != x.periodIndex {
      assert list[i] == longer[i];
    }
  }

  method UnionPeriods(days: seq<TimetableDay>) returns (periods: seq<TimetableSlot>)
    ensures IsUnion(periods, days)
  {
    var periodMap := CollectPeriods(days);
    var list := ListPeriods(periodMap);
    periods := SortSlots(list);
    SortingKeepsElements(list);
    SortingSorts(list);
    SameElementsSameIndices(list, periods);
  }

  lemma SameElementsSameIndices(a: seq<TimetableSlot>, b: seq<TimetableSlot>)
    requires multiset(a) == multiset(b)
    ensures forall p :: HasIndex(a, p) <==> HasIndex(b, p)
  {
    forall x ensures x in a <==> x in b {
      assert x in a <==> x in multiset(a);
      assert x in b <==> x in multiset(b);
    }
    forall p ensures HasIndex(a, p) <==> HasIndex(b, p) {
      if HasIndex(a, p) {
        var i :| 0 <= i < |a| && a[i].periodIndex == p;
        assert a[i] in b;
      }
      if HasIndex(b, p) {
        var i :| 0 <= i < |b| && b[i].periodIndex == p;
        assert b[i] in a;
      }
    }
  }

  /** One body cell: what it writes and the column's new skip count. */
  method WriteCell(slots: seq<TimetableSlot>, col: int, periods: seq<TimetableSlot>, ri: nat, covered: int)
    returns (writes: seq<CellWrite>, skip: int)
    requires ri < |periods| && covered == SkipAt(slots, periods, ri)
    ensures writes == WriteAt(slots, col, periods, ri) && skip == SkipAt(slots, periods, ri + 1)
  {
    var row := ri + 2;
    var lastRow := 1 + |periods|;
    var p := periods[ri].periodIndex;
    writes, skip := [], covered;
    if ri < covered { return; }
    var slot := SlotFor(slots, p);
    if slot.None? || Free(slot.value) {
      writes := [FreeCell(col, row)];
    } else if Opens(slot.value, p) {
      var (occupant, span) := OpenedBy(slot.value, p);
      var bottom := row + span - 1;
      if bottom > lastRow { bottom := lastRow; }
      writes, skip := [Block(col, row, bottom, occupant)], ri + span;
    }
  }

  /** The skip array before row ri. */
  function SkipRow(days: seq<TimetableDay>, periods: seq<TimetableSlot>, ri: nat): seq<int>
    requires ri <= |periods|
  {
    seq(|days|, k requires 0 <= k < |days| => SkipAt(days[k].slots, periods, ri))
  }

  /** One sheet row, left to right. */
  method WriteRow(days: seq<TimetableDay>, periods: seq<TimetableSlot>, ri: nat, skip: array<int>) returns (writes: seq<CellWrite>)
    requires ri < |periods| && skip[..] == SkipRow(days, periods, ri)
    modifies skip
    ensures writes == Flatten(RowCells(days, periods, ri))
    ensures skip[..] == SkipRow(days, periods, ri + 1)
  {
    writes := [];
    ghost var cells := RowCells(days, periods, ri);
    ghost var before, after := SkipRow(days, periods, ri), SkipRow(days, periods, ri + 1);
    for di := 0 to |days|
      invariant writes == Flatten(cells[..di])
      invariant skip.Length == |days|
      invariant forall k :: 0 <= k < |days| ==> skip[k] == if k < di then after[k] else before[k]
    {
      var cell, next := WriteCell(days[di].slots, di + 2, periods, ri, skip[di]);
      FlattenAppend(cells[..di], cells[di]);
      assert cells[..di + 1] == cells[..di] + [cells[di]];
      writes := writes + cell;
      skip[di] := next;
    }
    assert cells[..|days|] == cells;
  }

  method BuildTimetableGrid(days: seq<TimetableDay>) returns (periods: seq<TimetableSlot>, writes: seq<CellWrite>)
    ensures IsUnion(periods, days)
    ensures writes == GridWrites(days, periods)
  {
    periods := UnionPeriods(days);
    var skip := new int[|days|](_ => 0);
    writes := [];
    ghost var rows := Rows(days, periods);
    for ri := 0 to |periods|
      invariant writes == Flatten(rows[..ri])
      invariant skip[..] == SkipRow(days, periods, ri)
    {
      var rowWrites := WriteRow(days, periods, ri, skip);
      FlattenAppend(rows[..ri], rows[ri]);
      assert rows[..ri + 1] == rows[..ri] + [rows[ri]];
      writes := writes + rowWrites;
    }
    assert rows[..|periods|] == rows;
  }

  // -- What a well-formed week looks like -----------------------------------

  /** Period indices are 1, 2, 3, ... in order. */
  ghost predicate Numbered(slots: seq<TimetableSlot>) {
    forall i :: 0 <= i < |slots| ==> slots[i].periodIndex == i + 1
  }

  /** Every record shown covers its period, and is shown on every period of the day
      that it covers: what disjoint occupants amount to. */
  ghost predicate Consistent(slots: seq<TimetableSlot>) {
    && (forall i :: 0 <= i < |slots| && !Free(slots[i]) ==>
          && (slots[i].session.None? || slots[i].booking.None?)
          && 1 <= Range(slots[i]).ps <= slots[i].periodIndex <= Range(slots[i]).pe)
    && (forall i, j :: 0 <= i < |slots| && 0 <= j < |slots| && !Free(slots[i])
                       && Range(slots[i]).ps <= slots[j].periodIndex <= Range(slots[i]).pe ==>
          !Free(slots[j]) && Shown(slots[j]) == Shown(slots[i]) && Range(slots[j]) == Range(slots[i]))
  }

  ghost predicate ColumnOk(slots: seq<TimetableSlot>, periods: seq<TimetableSlot>) {
    |slots| <= |periods| && Numbered(slots) && Numbered(periods) && Consistent(slots)
  }

  lemma {:induction false} SlotForNumbered(slots: seq<TimetableSlot>, first: int, p: int)
    requires forall i :: 0 <= i < |slots| ==> slots[i].periodIndex == first + i
    ensures SlotFor(slots, p) == if first <= p < first + |slots| then Some(slots[p - first]) else None
  {
    if slots != [] && slots[0].periodIndex != p {
      SlotForNumbered(slots[1..], first + 1, p);
    }
  }

  // -- One column -----------------------------------------------------------

  /** Row ri of the column is not covered from above and opens a block. */
  predicate BlockAt(slots: seq<TimetableSlot>, periods: seq<TimetableSlot>, ri: nat)
    requires ri < |periods|
  {
    ri < |slots| && ri >= SkipAt(slots, periods, ri) && Opens(slots[ri], ri + 1)
  }

  /** The skip count after row ri, in terms of the record opened there. */
  lemma SkipAfter(slots: seq<TimetableSlot>, periods: seq<TimetableSlot>, ri: nat)
    requires ColumnOk(slots, periods) && ri < |periods|
    ensures SkipAt(slots, periods, ri + 1) ==
            if BlockAt(slots, periods, ri) then Range(slots[ri]).pe else SkipAt(slots, periods, ri)
    ensures BlockAt(slots, periods, ri) ==> Range(slots[ri]).ps == ri + 1 && Range(slots[ri]).pe > ri
  {
    SlotForNumbered(slots, 1, ri + 1);
  }

  lemma OpenedByRange(s: TimetableSlot, p: int)
    requires !Free(s) && (s.session.None? || s.booking.None?)
    ensures Opens(s, p) <==> Range(s).ps == p
    ensures Opens(s, p) ==> OpenedBy(s, p) == (Shown(s).value, Range(s).pe - p + 1)
  {
  }

  /** Where the record opened at each row ends; 0 where none starts. */
  function Ends(slots: seq<TimetableSlot>, rows: nat): seq<int> {
    seq(rows, ri requires 0 <= ri < rows =>
      if ri < |slots| && !Free(slots[ri]) && Range(slots[ri]).ps == ri + 1 then Range(slots[ri]).pe else 0)
  }

  /** The skip counts of a column as a recurrence on its record ends. */
  ghost predicate Recurrence(ks: seq<int>, ends: seq<int>) {
    && |ks| == |ends| + 1 && ks[0] == 0
    && (forall i :: 0 <= i < |ends| ==> ends[i] == 0 || ends[i] > i)
    && forall i :: 0 <= i < |ends| ==> ks[i + 1] == if ends[i] > 0 && i >= ks[i] then ends[i] else ks[i]
  }

  lemma SkipFollowsEnds(slots: seq<TimetableSlot>, periods: seq<TimetableSlot>, ri: nat)
    requires ColumnOk(slots, periods) && ri < |periods|
    ensures var end, k := Ends(slots, |periods|)[ri], SkipAt(slots, periods, ri);
            SkipAt(slots, periods, ri + 1) == if end > 0 && ri >= k then end else k
    ensures Ends(slots, |periods|)[ri] > 0 ==> Ends(slots, |periods|)[ri] > ri
  {
    SkipAfter(slots, periods, ri);
    if ri < |slots| && !Free(slots[ri]) { OpenedByRange(slots[ri], ri + 1); }
  }

  function SkipCounts(slots: seq<TimetableSlot>, periods: seq<TimetableSlot>): seq<int> {
    seq(|periods| + 1, ri requires 0 <= ri <= |periods| => SkipAt(slots, periods, ri))
  }

  lemma SkipCountsRecur(slots: seq<TimetableSlot>, periods: seq<TimetableSlot>)
    requires ColumnOk(slots, periods)
    ensures Recurrence(SkipCounts(slots, periods), Ends(slots, |periods|))
  {
    var ks, ends := SkipCounts(slots, periods), Ends(slots, |periods|);
    forall ri | 0 <= ri < |periods|
      ensures ks[ri + 1] == if ends[ri] > 0 && ri >= ks[ri] then ends[ri] else ks[ri]
      ensures ends[ri] == 0 || ends[ri] > ri
    {
      SkipFollowsEnds(slots, periods, ri);
    }
  }

  lemma {:induction false} Ascending(ks: seq<int>, ends: seq<int>, a: nat, b: nat)
    requires Recurrence(ks, ends) && a <= b < |ks|
    ensures ks[a] <= ks[b]
    decreases b - a
  {
    if a < b { Ascending(ks, ends, a + 1, b); }
  }

  lemma {:induction false} Opener(ks: seq<int>, ends: seq<int>, i: nat) returns (a: nat)
    requires Recurrence(ks, ends) && i < |ks| && ks[i] > 0
    ensures a < i && ends[a] == ks[i] && a >= ks[a]
    decreases i
  {
    if ends[i - 1] > 0 && i - 1 >= ks[i - 1] {
      a := i - 1;
    } else {
      a := Opener(ks, ends, i - 1);
    }
  }

  /** Below an opened block the column stays skipped at least to its end. */
  lemma BlockSkipsItsRows(slots: seq<TimetableSlot>, periods: seq<TimetableSlot>, a: nat, b: nat)
    requires ColumnOk(slots, periods) && a < b <= |periods|
    requires a < |slots| && !Free(slots[a]) && Range(slots[a]).ps == a + 1 && a >= SkipAt(slots, periods, a)
    ensures Range(slots[a]).pe <= SkipAt(slots, periods, b)
  {
    var ks, ends := SkipCounts(slots, periods), Ends(slots, |periods|);
    SkipCountsRecur(slots, periods);
    assert ks[a] == SkipAt(slots, periods, a) && ks[b] == SkipAt(slots, periods, b);
    assert ends[a] == Range(slots[a]).pe;
    EndStaysSkipped(ks, ends, a, b);
  }

  lemma EndStaysSkipped(ks: seq<int>, ends: seq<int>, a: nat, b: nat)
    requires Recurrence(ks, ends) && a < b < |ks| && ends[a] > 0 && a >= ks[a]
    ensures ends[a] <= ks[b]
  {
    Ascending(ks, ends, a + 1, b);
  }

  /** A positive skip count is the end of a block opened further up. */
  lemma SkipHasOpener(slots: seq<TimetableSlot>, periods: seq<TimetableSlot>, ri: nat) returns (a: nat)
    requires ColumnOk(slots, periods) && ri <= |periods| && SkipAt(slots, periods, ri) > 0
    ensures a < ri && BlockAt(slots, periods, a) && Range(slots[a]).pe == SkipAt(slots, periods, ri)
  {
    SkipCountsRecur(slots, periods);
    a := Opener(SkipCounts(slots, periods), Ends(slots, |periods|), ri);
  }

  /** A covered cell shows a record that started further up. */
  lemma CoveredCellShowsItsOpener(slots: seq<TimetableSlot>, periods: seq<TimetableSlot>, ri: nat)
    requires ColumnOk(slots, periods) && ri < |slots| && ri < SkipAt(slots, periods, ri)
    ensures !Free(slots[ri]) && Range(slots[ri]).ps <= ri
  {
    var a := SkipHasOpener(slots, periods, ri);
    SkipAfter(slots, periods, a);
    assert Range(slots[a]).ps <= slots[ri].periodIndex <= Range(slots[a]).pe;
  }

  /** The last case of the switch never leaves a hole: an occupied cell that is not
      already covered is the first cell of its record. */
  lemma UncoveredOccupiedCellOpens(slots: seq<TimetableSlot>, periods: seq<TimetableSlot>, ri: nat)
    requires ColumnOk(slots, periods) && ri < |slots| && !Free(slots[ri]) && ri >= SkipAt(slots, periods, ri)
    ensures BlockAt(slots, periods, ri) && Range(slots[ri]).ps == ri + 1
  {
    var s := Range(slots[ri]).ps - 1;
    if s < ri {
      assert Range(slots[s]) == Range(slots[ri]) && !Free(slots[s]);
      if s < SkipAt(slots, periods, s) { CoveredCellShowsItsOpener(slots, periods, s); }
      BlockSkipsItsRows(slots, periods, s, ri);
    }
  }

  /** The write of a row with the slot lookup resolved. */
  lemma WriteAtNumbered(slots: seq<TimetableSlot>, col: int, periods: seq<TimetableSlot>, ri: nat)
    requires Numbered(slots) && Numbered(periods) && ri < |periods|
    ensures WriteAt(slots, col, periods, ri) ==
            if ri < SkipAt(slots, periods, ri) then []
            else if ri >= |slots| || Free(slots[ri]) then [FreeCell(col, ri + 2)]
            else if Opens(slots[ri], ri + 1) then
              [Block(col, ri + 2, Min(ri + 1 + OpenedBy(slots[ri], ri + 1).1, 1 + |periods|), OpenedBy(slots[ri], ri + 1).0)]
            else []
  {
    SlotForNumbered(slots, 1, ri + 1);
  }

  /** What a row writes in its column, in terms of the records of the column. */
  ghost predicate ColumnWrite(slots: seq<TimetableSlot>, col: int, lastRow: int, ri: nat, w: CellWrite) {
    && w.col == col && w.row == ri + 2
    && if w.Block?
       then ri < |slots| && !Free(slots[ri]) && Range(slots[ri]).ps == ri + 1 && Range(slots[ri]).pe > ri
            && w == Block(col, ri + 2, Min(Range(slots[ri]).pe + 1, lastRow), Shown(slots[ri]).value)
       else ri < |slots| ==> Free(slots[ri])
  }

  /** An uncovered row of a well-formed column writes exactly one cell. */
  lemma UncoveredRowWrites(slots: seq<TimetableSlot>, col: int, periods: seq<TimetableSlot>, ri: nat) returns (w: CellWrite)
    requires ColumnOk(slots, periods) && ri < |periods| && ri >= SkipAt(slots, periods, ri)
    ensures WriteAt(slots, col, periods, ri) == [w] && ColumnWrite(slots, col, 1 + |periods|, ri, w)
    ensures w.Block? <==> ri < |slots| && !Free(slots[ri])
  {
    WriteAtNumbered(slots, col, periods, ri);
    if ri < |slots| && !Free(slots[ri]) {
      UncoveredOccupiedCellOpens(slots, periods, ri);
      OpenedByRange(slots[ri], ri + 1);
    }
    w := WriteAt(slots, col, periods, ri)[0];
  }

  lemma ColumnWriteMeans(slots: seq<TimetableSlot>, col: int, periods: seq<TimetableSlot>, ri: nat, w: CellWrite)
    requires ColumnOk(slots, periods) && ri < |periods| && w in WriteAt(slots, col, periods, ri)
    ensures ColumnWrite(slots, col, 1 + |periods|, ri, w) && ri >= SkipAt(slots, periods, ri)
  {
    var v := UncoveredRowWrites(slots, col, periods, ri);
  }

  /** Every row of a column is covered by some write of that column. */
  lemma ColumnIsCovered(slots: seq<TimetableSlot>, col: int, periods: seq<TimetableSlot>, ri: nat) returns (a: nat, w: CellWrite)
    requires ColumnOk(slots, periods) && ri < |periods|
    ensures a <= ri && w in WriteAt(slots, col, periods, a) && CoversCell(w, col, ri + 2)
  {
    a := ri;
    if ri < SkipAt(slots, periods, ri) { a := SkipHasOpener(slots, periods, ri); }
    w := UncoveredRowWrites(slots, col, periods, a);
  }

  /** No row of a column is covered by two writes. */
  lemma ColumnIsDisjoint(slots: seq<TimetableSlot>, periods: seq<TimetableSlot>, a: nat, b: nat, row: int, w: CellWrite, v: CellWrite)
    requires ColumnOk(slots, periods) && a < b < |periods| && w.col == v.col
    requires w in WriteAt(slots, w.col, periods, a) && v in WriteAt(slots, v.col, periods, b)
    requires CoversCell(v, v.col, row)
    ensures !CoversCell(w, w.col, row)
  {
    ColumnWriteMeans(slots, w.col, periods, a, w);
    ColumnWriteMeans(slots, v.col, periods, b, v);
    if w.Block? { BlockSkipsItsRows(slots, periods, a, b); }
  }

  // -- The whole sheet ------------------------------------------------------

  predicate WrittenAt(days: seq<TimetableDay>, periods: seq<TimetableSlot>, ri: int, di: int, w: CellWrite) {
    0 <= ri < |periods| && 0 <= di < |days| && w in WriteAt(days[di].slots, di + 2, periods, ri)
  }

  lemma GridHas(days: seq<TimetableDay>, periods: seq<TimetableSlot>, ri: nat, di: nat, w: CellWrite)
    requires WrittenAt(days, periods, ri, di, w)
    ensures w in GridWrites(days, periods)
  {
    FlattenHas(RowCells(days, periods, ri), di, w);
    FlattenHas(Rows(days, periods), ri, w);
  }

  lemma GridFrom(days: seq<TimetableDay>, periods: seq<TimetableSlot>, w: CellWrite) returns (ri: nat, di: nat)
    requires w in GridWrites(days, periods)
    ensures WrittenAt(days, periods, ri, di, w)
  {
    ri := FlattenFrom(Rows(days, periods), w);
    di := FlattenFrom(RowCells(days, periods, ri), w);
  }

  predicate Before(a: CellWrite, b: CellWrite) {
    a.row < b.row || (a.row == b.row && a.col < b.col)
  }

  ghost predicate InSheetOrder(ws: seq<CellWrite>) {
    forall i, j :: 0 <= i < j < |ws| ==> Before(ws[i], ws[j])
  }

  lemma WriteAtPlace(slots: seq<TimetableSlot>, col: int, periods: seq<TimetableSlot>, ri: nat)
    requires ri < |periods|
    ensures |WriteAt(slots, col, periods, ri)| <= 1
    ensures forall w <- WriteAt(slots, col, periods, ri) :: w.col == col && w.row == ri + 2
  {
  }

  lemma {:induction false} FlattenInOrder(ss: seq<seq<CellWrite>>)
    requires forall i :: 0 <= i < |ss| ==> InSheetOrder(ss[i])
    requires forall i, j, a, b :: 0 <= i < j < |ss| && a in ss[i] && b in ss[j] ==> Before(a, b)
    ensures InSheetOrder(Flatten(ss))
  {
    if ss != [] {
      FlattenInOrder(ss[1..]);
      var first, rest := ss[0], Flatten(ss[1..]);
      forall a, b | a in first && b in rest ensures Before(a, b) {
        var k := FlattenFrom(ss[1..], b);
        assert b in ss[k + 1];
      }
    }
  }

  lemma RowInOrder(days: seq<TimetableDay>, periods: seq<TimetableSlot>, ri: nat)
    requires ri < |periods|
    ensures InSheetOrder(Flatten(RowCells(days, periods, ri)))
    ensures forall w <- Flatten(RowCells(days, periods, ri)) :: w.row == ri + 2
  {
    var cells := RowCells(days, periods, ri);
    forall di | 0 <= di < |days| ensures |cells[di]| <= 1 && forall w: CellWrite <- cells[di] :: w.col == di + 2 && w.row == ri + 2 {
      WriteAtPlace(days[di].slots, di + 2, periods, ri);
    }
    FlattenInOrder(cells);
    forall w | w in Flatten(cells) ensures w.row == ri + 2 {
      var di := FlattenFrom(cells, w);
    }
  }

  /** Writes happen in sheet order; in particular no cell is the start of two. */
  lemma GridInOrder(days: seq<TimetableDay>, periods: seq<TimetableSlot>)
    ensures InSheetOrder(GridWrites(days, periods))
  {
    var rows := Rows(days, periods);
    forall ri | 0 <= ri < |periods| ensures InSheetOrder(rows[ri]) && forall w: CellWrite <- rows[ri] :: w.row == ri + 2 {
      RowInOrder(days, periods, ri);
    }
    FlattenInOrder(rows);
  }

  ghost predicate WeekOk(days: seq<TimetableDay>, periods: seq<TimetableSlot>) {
    forall d :: 0 <= d < |days| ==> ColumnOk(days[d].slots, periods)
  }

  ghost predicate CoveredOnce(writes: seq<CellWrite>, col: int, row: int) {
    exists i :: 0 <= i < |writes| && CoversCell(writes[i], col, row)
                && forall j :: 0 <= j < |writes| && CoversCell(writes[j], col, row) ==> j == i
  }

  lemma OneCoverInColumn(slots: seq<TimetableSlot>, col: int, periods: seq<TimetableSlot>, ra: nat, rb: nat, row: int,
                         w: CellWrite, v: CellWrite)
    requires ColumnOk(slots, periods) && ra < |periods| && rb < |periods|
    requires w in WriteAt(slots, col, periods, ra) && v in WriteAt(slots, col, periods, rb)
    requires CoversCell(w, col, row) && CoversCell(v, col, row)
    ensures w == v
  {
    WriteAtPlace(slots, col, periods, ra);
    WriteAtPlace(slots, col, periods, rb);
    if ra < rb { ColumnIsDisjoint(slots, periods, ra, rb, row, w, v); }
    if rb < ra { ColumnIsDisjoint(slots, periods, rb, ra, row, v, w); }
  }

  lemma WriteIsInItsColumn(days: seq<TimetableDay>, periods: seq<TimetableSlot>, col: int, row: int, w: CellWrite) returns (ri: nat)
    requires w in GridWrites(days, periods) && CoversCell(w, col, row)
    ensures ri < |periods| && 0 <= col - 2 < |days| && w in WriteAt(days[col - 2].slots, col, periods, ri)
  {
    var di;
    ri, di := GridFrom(days, periods, w);
    WriteAtPlace(days[di].slots, di + 2, periods, ri);
  }

  lemma SameWriteSamePlace(ws: seq<CellWrite>, i: nat, j: nat)
    requires InSheetOrder(ws) && i < |ws| && j < |ws| && ws[i] == ws[j]
    ensures i == j
  {
  }

  lemma SheetCoversCell(days: seq<TimetableDay>, periods: seq<TimetableSlot>, col: int, row: int) returns (w: CellWrite)
    requires WeekOk(days, periods) && 2 <= col <= 1 + |days| && 2 <= row <= 1 + |periods|
    ensures w in GridWrites(days, periods) && CoversCell(w, col, row)
  {
    var a: nat;
    a, w := ColumnIsCovered(days[col - 2].slots, col, periods, row - 2);
    GridHas(days, periods, a, col - 2, w);
  }

  lemma CellIsCoveredOnce(days: seq<TimetableDay>, periods: seq<TimetableSlot>, writes: seq<CellWrite>, col: int, row: int)
    requires WeekOk(days, periods) && 2 <= col <= 1 + |days| && 2 <= row <= 1 + |periods|
    requires writes == GridWrites(days, periods)
    ensures CoveredOnce(writes, col, row)
  {
    GridInOrder(days, periods);
    var w := SheetCoversCell(days, periods, col, row);
    var i :| 0 <= i < |writes| && writes[i] == w;
    forall j | 0 <= j < |writes| && CoversCell(writes[j], col, row) ensures j == i {
      var ra := WriteIsInItsColumn(days, periods, col, row, w);
      var rb := WriteIsInItsColumn(days, periods, col, row, writes[j]);
      OneCoverInColumn(days[col - 2].slots, col, periods, ra, rb, row, w, writes[j]);
      SameWriteSamePlace(writes, i, j);
    }
  }

  predicate InBody(w: CellWrite, cols: int, lastRow: int) {
    2 <= w.row <= lastRow && 2 <= w.col <= cols + 1 && (w.Block? ==> w.row <= w.bottom <= lastRow)
  }

  /** The sheet body is tiled: every cell of rows 2 .. lastRow and of the day
      columns lies in exactly one write, and no write leaves the body, even for a
      record that runs past the last row. */
  lemma SheetIsTiled(days: seq<TimetableDay>, periods: seq<TimetableSlot>, writes: seq<CellWrite>)
    requires WeekOk(days, periods) && writes == GridWrites(days, periods)
    ensures forall col, row :: 2 <= col <= 1 + |days| && 2 <= row <= 1 + |periods| ==> CoveredOnce(writes, col, row)
    ensures forall w <- writes :: InBody(w, |days|, 1 + |periods|)
  {
    forall col, row | 2 <= col <= 1 + |days| && 2 <= row <= 1 + |periods| ensures CoveredOnce(writes, col, row) {
      CellIsCoveredOnce(days, periods, writes, col, row);
    }
    forall w | w in writes ensures InBody(w, |days|, 1 + |periods|) {
      WriteIsFreeOrRecord(days, periods, w);
    }
  }

  /** A record starts at period p of day d, and that period has a slot. */
  predicate StartsAt(days: seq<TimetableDay>, d: int, p: int) {
    0 <= d < |days| && 1 <= p <= |days[d].slots| && !Free(days[d].slots[p - 1]) && Range(days[d].slots[p - 1]).ps == p
  }

  /** The block of that record: exactly its rows, clipped at the last row. */
  function BlockFor(days: seq<TimetableDay>, d: int, p: int, lastRow: int): CellWrite
    requires StartsAt(days, d, p)
  {
    Block(d + 2, p + 1, Min(Range(days[d].slots[p - 1]).pe + 1, lastRow), Shown(days[d].slots[p - 1]).value)
  }

  /** The first cell of a record is never covered by another record's block. */
  lemma StartIsNeverCovered(slots: seq<TimetableSlot>, periods: seq<TimetableSlot>, ri: nat)
    requires ColumnOk(slots, periods) && ri < |slots| && !Free(slots[ri]) && Range(slots[ri]).ps == ri + 1
    ensures ri >= SkipAt(slots, periods, ri)
  {
    if ri < SkipAt(slots, periods, ri) { CoveredCellShowsItsOpener(slots, periods, ri); }
  }

  lemma RecordInColumn(slots: seq<TimetableSlot>, col: int, periods: seq<TimetableSlot>, ri: nat)
    requires ColumnOk(slots, periods) && ri < |slots| && !Free(slots[ri]) && Range(slots[ri]).ps == ri + 1
    ensures Block(col, ri + 2, Min(Range(slots[ri]).pe + 1, 1 + |periods|), Shown(slots[ri]).value) in WriteAt(slots, col, periods, ri)
  {
    StartIsNeverCovered(slots, periods, ri);
    var w := UncoveredRowWrites(slots, col, periods, ri);
  }

  lemma RecordIsWritten(days: seq<TimetableDay>, periods: seq<TimetableSlot>, d: int, p: int)
    requires WeekOk(days, periods) && StartsAt(days, d, p)
    ensures BlockFor(days, d, p, 1 + |periods|) in GridWrites(days, periods)
  {
    RecordInColumn(days[d].slots, d + 2, periods, p - 1);
    GridHas(days, periods, p - 1, d, BlockFor(days, d, p, 1 + |periods|));
  }

  /** A free cell stands for a period with no record (or with no slot that day). */
  predicate TrulyFree(days: seq<TimetableDay>, w: CellWrite)
    requires 2 <= w.col <= 1 + |days| && 2 <= w.row
  {
    w.row - 2 < |days[w.col - 2].slots| ==> Free(days[w.col - 2].slots[w.row - 2])
  }

  ghost predicate FreeOrRecord(days: seq<TimetableDay>, w: CellWrite, lastRow: int) {
    && InBody(w, |days|, lastRow)
    && if w.Block? then StartsAt(days, w.col - 2, w.row - 1) && w == BlockFor(days, w.col - 2, w.row - 1, lastRow)
       else TrulyFree(days, w)
  }

  lemma WriteIsFreeOrRecord(days: seq<TimetableDay>, periods: seq<TimetableSlot>, w: CellWrite)
    requires WeekOk(days, periods) && w in GridWrites(days, periods)
    ensures FreeOrRecord(days, w, 1 + |periods|)
  {
    var ri, di := GridFrom(days, periods, w);
    ColumnWriteMeans(days[di].slots, di + 2, periods, ri, w);
  }

  /** The blocks of the sheet are exactly the records whose start period has a slot
      in their day; every other write is a genuinely free cell. With the tiling,
      each such record is written exactly once. */
  lemma BlocksAreTheRecords(days: seq<TimetableDay>, periods: seq<TimetableSlot>, writes: seq<CellWrite>)
    requires WeekOk(days, periods) && writes == GridWrites(days, periods)
    ensures forall d, p :: StartsAt(days, d, p) ==> BlockFor(days, d, p, 1 + |periods|) in writes
    ensures forall w <- writes :: FreeOrRecord(days, w, 1 + |periods|)
  {
    forall d, p | StartsAt(days, d, p) ensures BlockFor(days, d, p, 1 + |periods|) in writes {
      RecordIsWritten(days, periods, d, p);
    }
    forall w | w in writes ensures FreeOrRecord(days, w, 1 + |periods|) {
      WriteIsFreeOrRecord(days, periods, w);
    }
  }

  // -- Where well-formed weeks come from ------------------------------------

  /** Strictly ascending indices that are exactly 1 .. n are 1, 2, 3, ... */
  lemma {:induction false} AscendingOneToN(slots: seq<TimetableSlot>, n: nat)
    requires StrictlySorted(slots) && forall p :: HasIndex(slots, p) <==> 1 <= p <= n
    ensures |slots| == n && Numbered(slots)
  {
    var i := 0;
    while i < |slots|
      invariant 0 <= i <= |slots| && i <= n
      invariant forall k :: 0 <= k < i ==> slots[k].periodIndex == k + 1
    {
      assert HasIndex(slots, slots[i].periodIndex);
      assert i > 0 ==> slots[i - 1].periodIndex < slots[i].periodIndex;
      assert HasIndex(slots, i + 1);
      var j :| 0 <= j < |slots| && slots[j].periodIndex == i + 1;
      i := i + 1;
    }
    assert i < n ==> HasIndex(slots, i + 1);
  }

  ghost predicate OneToN(r: Regime, n: nat) {
    && (forall i, j :: 0 <= i < j < |r.periods| ==> r.periods[i].index != r.periods[j].index)
    && (forall p :: 1 <= p <= n <==> HasPeriod(r, p))
  }

  lemma DayHasPeriodsOfRegime(r: Regime, sessions: seq<SessionView>, bookings: seq<BookingView>, date: int, day: TimetableDay)
    requires ShowsDay(day, Some(r), sessions, bookings, date)
    ensures forall p :: HasIndex(day.slots, p) <==> HasPeriod(r, p)
  {
    DaySlotsAreSlotAts(day, r, sessions, bookings, date);
    forall p ensures HasIndex(day.slots, p) <==> HasPeriod(r, p) {
      if HasIndex(day.slots, p) {
        var i :| 0 <= i < |day.slots| && day.slots[i].periodIndex == p;
        assert day.slots[i] in day.slots;
      }
      if HasPeriod(r, p) {
        var i :| 0 <= i < |r.periods| && r.periods[i].index == p;
        var s := SlotAt(sessions, bookings, date, r.periods[i]);
        assert s in day.slots;
        var k :| 0 <= k < |day.slots| && day.slots[k] == s;
      }
    }
  }

  /** The slot shows the occupant of its period, if there is one, and its range. */
  ghost predicate SlotSound(t: Tables, room: int, date: int, s: TimetableSlot) {
    && (s.session.None? || s.booking.None?)
    && (forall o :: Shown(s) == Some(o) <==> CoveredBy(t, o, room, date, s.periodIndex))
    && (!Free(s) ==> Occupies(t, Shown(s).value) && Range(s) == SlotOf(t, Shown(s).value))
  }

  lemma SlotAtIsSound(t: Tables, sessions: seq<SessionView>, bookings: seq<BookingView>, room: int,
                      from: int, upTo: int, date: int, p: Period)
    requires NonOverlap(t) && room > 0 && from <= date <= upTo
    requires ListsSessions(sessions, t, room, from, upTo) && ListsActiveBookings(bookings, t, room, from, upTo)
    ensures SlotSound(t, room, date, SlotAt(sessions, bookings, date, p))
  {
    SlotShowsTheOccupant(t, sessions, bookings, room, from, upTo, date, p);
    LastCoverCovers(sessions, SessionSlot, date, p.index);
    LastCoverCovers(bookings, BookingSlot, date, p.index);
  }

  lemma SoundSlotsAreConsistent(t: Tables, room: int, date: int, slots: seq<TimetableSlot>)
    requires WellFormed(t) && Numbered(slots)
    requires forall i :: 0 <= i < |slots| ==> SlotSound(t, room, date, slots[i])
    ensures Consistent(slots)
  {
    forall i | 0 <= i < |slots| && !Free(slots[i])
      ensures 1 <= Range(slots[i]).ps <= slots[i].periodIndex <= Range(slots[i]).pe
    {
      assert CoveredBy(t, Shown(slots[i]).value, room, date, slots[i].periodIndex);
    }
    forall i, j | 0 <= i < |slots| && 0 <= j < |slots| && !Free(slots[i])
                  && Range(slots[i]).ps <= slots[j].periodIndex <= Range(slots[i]).pe
      ensures !Free(slots[j]) && Shown(slots[j]) == Shown(slots[i]) && Range(slots[j]) == Range(slots[i])
    {
      var o := Shown(slots[i]).value;
      assert CoveredBy(t, o, room, date, slots[i].periodIndex);
      assert CoveredBy(t, o, room, date, slots[j].periodIndex);
    }
  }

  lemma DaySlotsAreSound(t: Tables, r: Regime, sessions: seq<SessionView>, bookings: seq<BookingView>, room: int,
                         from: int, upTo: int, date: int, day: TimetableDay)
    requires NonOverlap(t) && room > 0 && from <= date <= upTo
    requires ListsSessions(sessions, t, room, from, upTo) && ListsActiveBookings(bookings, t, room, from, upTo)
    requires ShowsDay(day, Some(r), sessions, bookings, date)
    ensures forall i :: 0 <= i < |day.slots| ==> SlotSound(t, room, date, day.slots[i])
  {
    DaySlotsAreSlotAts(day, r, sessions, bookings, date);
    forall i | 0 <= i < |day.slots|
      ensures SlotSound(t, room, date, day.slots[i])
    {
      assert day.slots[i] in day.slots;
      var k :| 0 <= k < |r.periods| && day.slots[i] == SlotAt(sessions, bookings, date, r.periods[k]);
      SlotAtIsSound(t, sessions, bookings, room, from, upTo, date, r.periods[k]);
    }
  }

  /** A timetable day of a regime with periods 1 .. n over non-overlapping tables
      is a well-formed column. */
  lemma TimetableDayIsWellFormed(t: Tables, r: Regime, n: nat, sessions: seq<SessionView>, bookings: seq<BookingView>, room: int,
                                 from: int, upTo: int, date: int, day: TimetableDay)
    requires WellFormed(t) && NonOverlap(t) && room > 0 && from <= date <= upTo && OneToN(r, n)
    requires ListsSessions(sessions, t, room, from, upTo) && ListsActiveBookings(bookings, t, room, from, upTo)
    requires ShowsDay(day, Some(r), sessions, bookings, date)
    ensures |day.slots| == n && Numbered(day.slots) && Consistent(day.slots)
  {
    DaySlotsAreSound(t, r, sessions, bookings, room, from, upTo, date, day);
    DayHasPeriodsOfRegime(r, sessions, bookings, date, day);
    AscendingOneToN(day.slots, n);
    SoundSlotsAreConsistent(t, room, date, day.slots);
  }

  ghost predicate NumberedDays(days: seq<TimetableDay>) {
    forall d :: 0 <= d < |days| ==> Numbered(days[d].slots)
  }

  /** The number of periods of the longest day. */
  function LongestDay(days: seq<TimetableDay>): (n: nat)
    ensures forall d :: 0 <= d < |days| ==> |days[d].slots| <= n
    ensures n > 0 ==> exists d :: 0 <= d < |days| && |days[d].slots| == n
  {
    if days == [] then 0
    else
      var rest := LongestDay(days[1..]);
      if rest <= |days[0].slots| then |days[0].slots| else rest
  }

  lemma NumberedHasIndex(slots: seq<TimetableSlot>, p: int)
    requires Numbered(slots)
    ensures HasIndex(slots, p) <==> 1 <= p <= |slots|
  {
    if 1 <= p <= |slots| { assert slots[p - 1].periodIndex == p; }
  }

  /** When every day counts its periods 1 .. n, so do the row labels. */
  lemma UnionIsNumbered(days: seq<TimetableDay>, periods: seq<TimetableSlot>)
    requires NumberedDays(days) && IsUnion(periods, days)
    ensures Numbered(periods) && |periods| == LongestDay(days)
  {
    var n := LongestDay(days);
    forall p ensures HasIndex(periods, p) <==> 1 <= p <= n {
      if SomeDayHas(days, p) {
        var d :| 0 <= d < |days| && HasIndex(days[d].slots, p);
        NumberedHasIndex(days[d].slots, p);
      }
      if 1 <= p <= n {
        var d :| 0 <= d < |days| && |days[d].slots| == n;
        NumberedHasIndex(days[d].slots, p);
        assert SomeDayHas(days, p);
      }
    }
    AscendingOneToN(periods, n);
  }

  ghost predicate RegimesCountFromOne(active: int -> Option<Regime>) {
    forall date :: active(date).Some? ==> exists n: nat :: OneToN(active(date).value, n)
  }

  /** The row is a session or an active booking of this room in the range, and its first
      period is one of that date's regime. */
  ghost predicate OnSheet(t: Tables, active: int -> Option<Regime>, o: RowId, room: int, from: int, upTo: int) {
    && Occupies(t, o) && SlotOf(t, o).room == room && from <= SlotOf(t, o).date <= upTo
    && active(SlotOf(t, o).date).Some? && HasPeriod(active(SlotOf(t, o).date).value, SlotOf(t, o).ps)
  }

  /** The block of a row of the tables: the column of its date, the rows of its periods. */
  function TableBlock(t: Tables, o: RowId, from: int, lastRow: int): CellWrite
    requires Occupies(t, o)
  {
    Block(SlotOf(t, o).date - from + 2, SlotOf(t, o).ps + 1, Min(SlotOf(t, o).pe + 1, lastRow), o)
  }

  /** A day of the export: numbered from 1, its periods those of the regime, sound. */
  ghost predicate DayMirrors(t: Tables, active: Option<Regime>, room: int, date: int, day: TimetableDay) {
    && Numbered(day.slots)
    && (active.None? ==> day.slots == [])
    && (active.Some? ==> forall p :: HasPeriod(active.value, p) <==> 1 <= p <= |day.slots|)
    && forall i :: 0 <= i < |day.slots| ==> SlotSound(t, room, date, day.slots[i])
  }

  lemma DayMirrorsTheTables(t: Tables, active: int -> Option<Regime>, sessions: seq<SessionView>, bookings: seq<BookingView>,
                            room: int, from: int, upTo: int, date: int, day: TimetableDay)
    requires WellFormed(t) && NonOverlap(t) && room > 0 && RegimesCountFromOne(active) && from <= date <= upTo
    requires ListsSessions(sessions, t, room, from, upTo) && ListsActiveBookings(bookings, t, room, from, upTo)
    requires ShowsDay(day, active(date), sessions, bookings, date)
    ensures DayMirrors(t, active(date), room, date, day) && Consistent(day.slots)
  {
    if active(date).Some? {
      var r := active(date).value;
      var n: nat :| OneToN(r, n);
      TimetableDayIsWellFormed(t, r, n, sessions, bookings, room, from, upTo, date, day);
      DaySlotsAreSound(t, r, sessions, bookings, room, from, upTo, date, day);
      assert forall p :: 1 <= p <= n <==> HasPeriod(r, p);
    }
  }

  ghost predicate DaysMirror(t: Tables, active: int -> Option<Regime>, room: int, from: int, upTo: int, days: seq<TimetableDay>) {
    && |days| == (if from <= upTo then upTo - from + 1 else 0)
    && forall d :: 0 <= d < |days| ==> DayMirrors(t, active(from + d), room, from + d, days[d])
  }

  lemma DaysMirrorTheTables(t: Tables, active: int -> Option<Regime>, sessions: seq<SessionView>, bookings: seq<BookingView>,
                            room: int, from: int, upTo: int, days: seq<TimetableDay>, periods: seq<TimetableSlot>)
    requires WellFormed(t) && NonOverlap(t) && room > 0 && RegimesCountFromOne(active)
    requires ListsSessions(sessions, t, room, from, upTo) && ListsActiveBookings(bookings, t, room, from, upTo)
    requires ShowsDays(days, active, sessions, bookings, from, upTo) && IsUnion(periods, days)
    ensures DaysMirror(t, active, room, from, upTo, days) && WeekOk(days, periods)
  {
    forall d | 0 <= d < |days|
      ensures DayMirrors(t, active(from + d), room, from + d, days[d]) && Consistent(days[d].slots)
    {
      assert ShowsDay(days[d], active(from + d), sessions, bookings, from + d);
      DayMirrorsTheTables(t, active, sessions, bookings, room, from, upTo, from + d, days[d]);
    }
    UnionIsNumbered(days, periods);
  }

  /** The record that starts in a day is a row on the sheet, and every such row starts. */
  lemma RowStartsItsBlock(t: Tables, active: int -> Option<Regime>, days: seq<TimetableDay>, o: RowId,
                          room: int, from: int, upTo: int, lastRow: int)
    requires WellFormed(t) && DaysMirror(t, active, room, from, upTo, days) && OnSheet(t, active, o, room, from, upTo)
    ensures var s := SlotOf(t, o);
            StartsAt(days, s.date - from, s.ps) && BlockFor(days, s.date - from, s.ps, lastRow) == TableBlock(t, o, from, lastRow)
  {
    var s := SlotOf(t, o);
    var d := s.date - from;
    assert DayMirrors(t, active(from + d), room, from + d, days[d]);
    var slot := days[d].slots[s.ps - 1];
    assert CoveredBy(t, o, room, s.date, slot.periodIndex);
    assert SlotSound(t, room, s.date, slot);
  }

  lemma BlockIsOfARow(t: Tables, active: int -> Option<Regime>, days: seq<TimetableDay>, d: int, p: int,
                      room: int, from: int, upTo: int, lastRow: int)
    requires DaysMirror(t, active, room, from, upTo, days) && StartsAt(days, d, p)
    ensures var w := BlockFor(days, d, p, lastRow);
            OnSheet(t, active, w.occupant, room, from, upTo) && w == TableBlock(t, w.occupant, from, lastRow)
  {
    assert DayMirrors(t, active(from + d), room, from + d, days[d]);
    var slot := days[d].slots[p - 1];
    assert SlotSound(t, room, from + d, slot);
    assert CoveredBy(t, Shown(slot).value, room, from + d, slot.periodIndex);
  }

  /** The blocks written are exactly those of the rows on the sheet. */
  lemma BlocksAreTheRows(t: Tables, active: int -> Option<Regime>, room: int, from: int, upTo: int,
                         days: seq<TimetableDay>, lastRow: int, writes: seq<CellWrite>)
    requires WellFormed(t) && DaysMirror(t, active, room, from, upTo, days)
    requires forall d, p :: StartsAt(days, d, p) ==> BlockFor(days, d, p, lastRow) in writes
    requires forall w <- writes :: FreeOrRecord(days, w, lastRow)
    ensures forall o :: OnSheet(t, active, o, room, from, upTo) ==> TableBlock(t, o, from, lastRow) in writes
    ensures forall w <- writes :: w.Block? ==>
              OnSheet(t, active, w.occupant, room, from, upTo) && w == TableBlock(t, w.occupant, from, lastRow)
  {
    forall o | OnSheet(t, active, o, room, from, upTo) ensures TableBlock(t, o, from, lastRow) in writes {
      RowStartsItsBlock(t, active, days, o, room, from, upTo, lastRow);
    }
    forall w | w in writes && w.Block?
      ensures OnSheet(t, active, w.occupant, room, from, upTo) && w == TableBlock(t, w.occupant, from, lastRow)
    {
      BlockIsOfARow(t, active, days, w.col - 2, w.row - 1, room, from, upTo, lastRow);
    }
  }

  /** End to end: the timetable built from non-overlapping tables, exported, tiles the
      sheet; its blocks are exactly those of the rows on the sheet, and its other cells
      are free ones. */
  lemma ExportedTimetableIsTiled(t: Tables, active: int -> Option<Regime>, sessions: seq<SessionView>, bookings: seq<BookingView>,
                                 room: int, from: int, upTo: int, days: seq<TimetableDay>,
                                 periods: seq<TimetableSlot>, writes: seq<CellWrite>)
    requires WellFormed(t) && NonOverlap(t) && room > 0 && RegimesCountFromOne(active)
    requires ListsSessions(sessions, t, room, from, upTo) && ListsActiveBookings(bookings, t, room, from, upTo)
    requires ShowsDays(days, active, sessions, bookings, from, upTo)
    requires IsUnion(periods, days) && writes == GridWrites(days, periods)
    ensures forall col, row :: 2 <= col <= 1 + |days| && 2 <= row <= 1 + |periods| ==> CoveredOnce(writes, col, row)
    ensures forall o :: OnSheet(t, active, o, room, from, upTo) ==> TableBlock(t, o, from, 1 + |periods|) in writes
    ensures forall w <- writes :: w.Block? ==>
              OnSheet(t, active, w.occupant, room, from, upTo) && w == TableBlock(t, w.occupant, from, 1 + |periods|)
    ensures forall w <- writes :: FreeOrRecord(days, w, 1 + |periods|)
  {
    DaysMirrorTheTables(t, active, sessions, bookings, room, from, upTo, days, periods);
    SheetIsTiled(days, periods, writes);
    BlocksAreTheRecords(days, periods, writes);
    BlocksAreTheRows(t, active, room, from, upTo, days, 1 + |periods|, writes);
  }
}

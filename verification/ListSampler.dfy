/** Tool results under a byte budget (ai/agent.go). Texts are byte sequences. */
module ListSampler {
  import opened Common
  import opened Utf8

  // -- Sampling -------------------------------------------------------------

  /** Serialized size of rows with one separating comma each. */
  function ListBytes(sizes: seq<nat>): nat {
    if sizes == [] then 0 else ListBytes(sizes[..|sizes| - 1]) + sizes[|sizes| - 1] + 1
  }

  method SumListBytes(sizes: seq<nat>) returns (n: nat)
    ensures n == ListBytes(sizes)
  {
    n := 0;
    for i := 0 to |sizes|
      invariant n == ListBytes(sizes[..i])
    {
      assert sizes[..i + 1][..i] == sizes[..i];
      n := n + sizes[i] + 1;
    }
    assert sizes[..|sizes|] == sizes;
  }

  /** A sample of `head` first rows and the rows from `tail` on. Both ends are
      greedily maximal: the head within half of the budget, the tail within what the
      head leaves. */
  ghost predicate Samples(sizes: seq<nat>, budget: nat, head: nat, tail: nat) {
    && 0 < head <= tail <= |sizes|
    && (forall h :: 0 <= h <= |sizes| ==> (ListBytes(sizes[..h]) <= budget / 2 <==> h <= head))
    && (forall t :: head <= t <= |sizes| ==> (ListBytes(sizes[..head]) + ListBytes(sizes[t..]) <= budget <==> t >= tail))
  }

  /** The first row alone does not fit half of the budget. */
  predicate FirstTooBig(sizes: seq<nat>, budget: int)
    requires sizes != []
  {
    budget <= 0 || sizes[0] + 1 > budget / 2
  }

  ghost predicate SampledFrom<T>(items: seq<T>, sizes: seq<nat>, budget: int, out: seq<T>)
    requires |sizes| == |items|
  {
    if items == [] then out == []
    else if FirstTooBig(sizes, budget) then out == items[..1]
    else exists head: nat, tail: nat :: Samples(sizes, budget, head, tail) && out == items[..head] + items[tail..]
  }

  method SampleBothEnds<T>(items: seq<T>, sizes: seq<nat>, budget: int) returns (out: seq<T>)
    requires |sizes| == |items|
    ensures SampledFrom(items, sizes, budget, out)
    ensures items == [] ==> out == []
    ensures items != [] && (budget <= 0 || sizes[0] + 1 > budget / 2) ==> out == items[..1]
    ensures items != [] && budget > 0 && sizes[0] + 1 <= budget / 2 ==>
              exists head, tail :: SampledAt(sizes, budget, head, tail) && out == items[..head] + items[tail..]
  {
    if |items| == 0 { return items; }
    if budget <= 0 { return items[..1]; }
    var half := budget / 2;
    var head, usedHead := 0, 0;
    while head < |items| && usedHead + sizes[head] + 1 <= half
      invariant head <= |items| && usedHead == ListBytes(sizes[..head]) <= half
      invariant head == 0 ==> usedHead == 0
    {
      OneMoreRow(sizes, head);
      usedHead := usedHead + sizes[head] + 1;
      head := head + 1;
    }
    if head == 0 { return items[..1]; }
    HeadIsMaximal(sizes, half, head);
    var tail, usedTail := |items|, 0;
    while tail > head && usedTail + sizes[tail - 1] + 1 <= budget - usedHead
      invariant head <= tail <= |items| && usedTail == ListBytes(sizes[tail..]) <= budget - usedHead
    {
      DropOneLess(sizes, tail - 1);
      usedTail := usedTail + sizes[tail - 1] + 1;
      tail := tail - 1;
    }
    TailIsMaximal(sizes, budget - usedHead, head, tail);
    FirstOfHead(sizes, half, head);
    out := items[..head] + items[tail..];
    assert Samples(sizes, budget, head, tail);
    assert SampledAt(sizes, budget, head, tail);
  }

  /** The first rows up to `head` fill half of the budget, one more would exceed it; the
      rows from `tail` on fill the rest, one more would exceed it. */
  ghost predicate SampledAt(sizes: seq<nat>, budget: int, head: int, tail: int) {
    && 0 < head <= tail <= |sizes|
    && ListBytes(sizes[..head]) <= budget / 2
    && (head < |sizes| ==> ListBytes(sizes[..head + 1]) > budget / 2)
    && ListBytes(sizes[..head]) + ListBytes(sizes[tail..]) <= budget
    && (head < tail ==> ListBytes(sizes[..head]) + ListBytes(sizes[tail - 1..]) > budget)
  }

  lemma OneMoreRow(sizes: seq<nat>, h: nat)
    requires h < |sizes|
    ensures ListBytes(sizes[..h + 1]) == ListBytes(sizes[..h]) + sizes[h] + 1
  {
    assert sizes[..h + 1][..h] == sizes[..h];
  }

  lemma {:induction false} ListBytesConcat(a: seq<nat>, b: seq<nat>)
    ensures ListBytes(a + b) == ListBytes(a) + ListBytes(b)
  {
    if b == [] {
      assert a + b == a;
    } else {
      assert (a + b)[..|a + b| - 1] == a + b[..|b| - 1];
      ListBytesConcat(a, b[..|b| - 1]);
    }
  }

  lemma DropOneLess(sizes: seq<nat>, t: nat)
    requires t < |sizes|
    ensures ListBytes(sizes[t..]) == sizes[t] + 1 + ListBytes(sizes[t + 1..])
  {
    assert sizes[t..] == [sizes[t]] + sizes[t + 1..];
    ListBytesConcat([sizes[t]], sizes[t + 1..]);
    assert ListBytes([sizes[t]]) == sizes[t] + 1;
  }

  lemma {:induction false} PrefixesGrow(sizes: seq<nat>, h: nat, k: nat)
    requires h <= k <= |sizes|
    ensures ListBytes(sizes[..h]) <= ListBytes(sizes[..k])
  {
    assert sizes[..k] == sizes[..h] + sizes[h..k];
    ListBytesConcat(sizes[..h], sizes[h..k]);
  }

  lemma SuffixesShrink(sizes: seq<nat>, t: nat, k: nat)
    requires t <= k <= |sizes|
    ensures ListBytes(sizes[k..]) <= ListBytes(sizes[t..])
  {
    assert sizes[t..] == sizes[t..k] + sizes[k..];
    ListBytesConcat(sizes[t..k], sizes[k..]);
  }

  lemma HeadIsMaximal(sizes: seq<nat>, half: nat, head: nat)
    requires head <= |sizes| && ListBytes(sizes[..head]) <= half
    requires head < |sizes| ==> ListBytes(sizes[..head]) + sizes[head] + 1 > half
    ensures forall h :: 0 <= h <= |sizes| ==> (ListBytes(sizes[..h]) <= half <==> h <= head)
  {
    forall h | 0 <= h <= |sizes| ensures ListBytes(sizes[..h]) <= half <==> h <= head {
      if h <= head { PrefixesGrow(sizes, h, head); } else { OneMoreRow(sizes, head); PrefixesGrow(sizes, head + 1, h); }
    }
  }

  lemma TailIsMaximal(sizes: seq<nat>, left: nat, head: nat, tail: nat)
    requires head <= tail <= |sizes| && ListBytes(sizes[tail..]) <= left
    requires tail > head ==> ListBytes(sizes[tail..]) + sizes[tail - 1] + 1 > left
    ensures forall t :: head <= t <= |sizes| ==> (ListBytes(sizes[t..]) <= left <==> t >= tail)
  {
    forall t | head <= t <= |sizes| ensures ListBytes(sizes[t..]) <= left <==> t >= tail {
      if t >= tail { SuffixesShrink(sizes, tail, t); } else { DropOneLess(sizes, tail - 1); SuffixesShrink(sizes, t, tail - 1); }
    }
  }

  lemma FirstOfHead(sizes: seq<nat>, half: nat, head: nat)
    requires 0 < head <= |sizes| && ListBytes(sizes[..head]) <= half
    ensures sizes[0] + 1 <= half
  {
    PrefixesGrow(sizes, 1, head);
    assert sizes[..1] == [sizes[0]] && ListBytes([sizes[0]]) == sizes[0] + 1;
  }

  /** The greedy sample is determined: no other pair of ends is one. */
  lemma SampleIsUnique(sizes: seq<nat>, budget: nat, h1: nat, t1: nat, h2: nat, t2: nat)
    requires Samples(sizes, budget, h1, t1) && Samples(sizes, budget, h2, t2)
    ensures h1 == h2 && t1 == t2
  {
    assert ListBytes(sizes[..h1]) <= budget / 2 && ListBytes(sizes[..h2]) <= budget / 2;
    assert ListBytes(sizes[..h1]) + ListBytes(sizes[t1..]) <= budget;
    assert ListBytes(sizes[..h2]) + ListBytes(sizes[t2..]) <= budget;
  }

  lemma WholeAgain(sizes: seq<nat>, k: nat)
    requires k <= |sizes|
    ensures ListBytes(sizes[..k]) + ListBytes(sizes[k..]) == ListBytes(sizes)
  {
    assert sizes == sizes[..k] + sizes[k..];
    ListBytesConcat(sizes[..k], sizes[k..]);
  }

  /** A sample of an over-budget list fits the budget and drops at least one row. */
  lemma SampleFitsAndShrinks(sizes: seq<nat>, budget: nat, head: nat, tail: nat)
    requires Samples(sizes, budget, head, tail) && ListBytes(sizes) > budget
    ensures ListBytes(sizes[..head] + sizes[tail..]) <= budget && head < tail
  {
    assert ListBytes(sizes[..head]) + ListBytes(sizes[tail..]) <= budget;
    ListBytesConcat(sizes[..head], sizes[tail..]);
    WholeAgain(sizes, head);
  }

  // -- Rendering ------------------------------------------------------------

  /** A JSON object field: its key and the JSON text of its value. */
  datatype Field = Field(key: seq<Byte>, value: seq<Byte>)

  /** The JSON text of a row, or None if it cannot be encoded. */
  type Row = Option<seq<Byte>>

  const MAX_TOOL_RESULT_BYTES := 12000
  const ENVELOPE_RESERVE := 400

  function Ascii(s: string): (t: seq<Byte>)
    ensures |t| == |s|
  {
    seq(|s|, i requires 0 <= i < |s| => (s[i] as int) % 0x80)
  }

  function Join(parts: seq<seq<Byte>>): seq<Byte> {
    if parts == [] then [] else if |parts| == 1 then parts[0] else Join(parts[..|parts| - 1]) + Ascii(",") + parts[|parts| - 1]
  }

  function FieldText(f: Field): seq<Byte> {
    Ascii("\"") + f.key + Ascii("\":") + f.value
  }

  function FieldTexts(fields: seq<Field>): seq<seq<Byte>> {
    seq(|fields|, i requires 0 <= i < |fields| => FieldText(fields[i]))
  }

  function Object(fields: seq<Field>): seq<Byte> {
    Ascii("{") + Join(FieldTexts(fields)) + Ascii("}")
  }

  function RowTexts(rows: seq<Row>): seq<seq<Byte>> {
    seq(|rows|, i requires 0 <= i < |rows| => if rows[i].Some? then rows[i].value else [])
  }

  function Array(rows: seq<Row>): seq<Byte> {
    Ascii("[") + Join(RowTexts(rows)) + Ascii("]")
  }

  function Decimal(n: nat): seq<Byte> {
    if n < 10 then [0x30 + n] else Decimal(n / 10) + [0x30 + n % 10]
  }

  /** What a list tool adds to its envelope; the note is the JSON text of noteFmt
      applied to total and shown. */
  function Added(key: seq<Byte>, kept: seq<Row>, total: nat, note: seq<Byte>): seq<Field> {
    [Field(key, Array(kept)), Field(Ascii("total"), Decimal(total)), Field(Ascii("shown"), Decimal(|kept|))]
    + if |kept| < total then [Field(Ascii("truncated"), Ascii("true")), Field(Ascii("note"), note)] else []
  }

  /** marshalToolResult: one row that cannot be encoded fails the whole text. */
  function Rendered(env: seq<Field>, key: seq<Byte>, kept: seq<Row>, total: nat, note: seq<Byte>, failure: seq<Byte>): seq<Byte> {
    if None in kept then failure else Object(env + Added(key, kept, total, note))
  }

  function Sizes(rows: seq<Row>): (sizes: seq<nat>)
    ensures |sizes| == |rows|
  {
    seq(|rows|, i requires 0 <= i < |rows| => if rows[i].Some? then |rows[i].value| else 0)
  }

  /** The rows a list tool shows when `remaining` bytes are left for them. */
  ghost predicate Keeps(rows: seq<Row>, remaining: int, kept: seq<Row>) {
    if ListBytes(Sizes(rows)) <= remaining then kept == rows else SampledFrom(rows, Sizes(rows), remaining, kept)
  }

  method MeasureRows(items: seq<Row>) returns (sizes: seq<nat>)
    ensures sizes == Sizes(items)
  {
    sizes := [];
    for i := 0 to |items|
      invariant sizes == Sizes(items)[..i]
    {
      var size := 0;
      if items[i].Some? { size := |items[i].value|; }
      sizes := sizes + [size];
    }
  }

  method MarshalToolListBudget(env: seq<Field>, key: seq<Byte>, items: seq<Row>, total: nat, noteFmt: (nat, nat) -> seq<Byte>,
                               budget: int, failure: seq<Byte>) returns (result: seq<Byte>)
    ensures exists kept :: IsList(env, key, items, total, noteFmt, budget, failure, kept, result)
  {
    var remaining := budget - |Object(env)| - ENVELOPE_RESERVE;
    var kept := ChooseRows(items, remaining);
    var note := noteFmt(total, |kept|);
    result := AttachList(env, key, kept, total, note, failure);
    assert IsList(env, key, items, total, noteFmt, budget, failure, kept, result);
  }

  /** The result renders the rows kept for what the envelope and its reserve leave. */
  ghost predicate IsList(env: seq<Field>, key: seq<Byte>, items: seq<Row>, total: nat, noteFmt: (nat, nat) -> seq<Byte>,
                         budget: int, failure: seq<Byte>, kept: seq<Row>, result: seq<Byte>)
  {
    && Keeps(items, budget - |Object(env)| - 400, kept)
    && result == Rendered(env, key, kept, total, noteFmt(total, |kept|), failure)
  }

  method ChooseRows(items: seq<Row>, remaining: int) returns (kept: seq<Row>)
    ensures Keeps(items, remaining, kept)
  {
    var sizes := MeasureRows(items);
    var bytes := SumListBytes(sizes);
    if bytes <= remaining { return items; }
    kept := SampleBothEnds(items, sizes, remaining);
  }

  method AttachList(env: seq<Field>, key: seq<Byte>, kept: seq<Row>, total: nat, note: seq<Byte>, failure: seq<Byte>)
    returns (result: seq<Byte>)
    ensures result == Rendered(env, key, kept, total, note, failure)
  {
    var added := [Field(key, Array(kept)), Field(Ascii("total"), Decimal(total)), Field(Ascii("shown"), Decimal(|kept|))];
    if |kept| < total { added := added + [Field(Ascii("truncated"), Ascii("true")), Field(Ascii("note"), note)]; }
    assert added == Added(key, kept, total, note);
    result := if None in kept then failure else Object(env + added);
  }

  // -- Reading the result back ----------------------------------------------

  /** The value of a key; the last one counts. */
  function Lookup(fields: seq<Field>, key: seq<Byte>): Option<seq<Byte>> {
    if fields == [] then None
    else if fields[|fields| - 1].key == key then Some(fields[|fields| - 1].value)
    else Lookup(fields[..|fields| - 1], key)
  }

  lemma LookupSnoc(fields: seq<Field>, f: Field, key: seq<Byte>)
    ensures Lookup(fields + [f], key) == if f.key == key then Some(f.value) else Lookup(fields, key)
  {
    assert (fields + [f])[..|fields|] == fields;
  }

  /** The number that decimal digits stand for. */
  function Value(digits: seq<Byte>): int {
    if digits == [] then 0
    else
      var last: int := digits[|digits| - 1];
      Value(digits[..|digits| - 1]) * 10 + last - 48
  }

  lemma {:induction false} DecimalReadsBack(n: nat)
    ensures Value(Decimal(n)) == n && Decimal(n) != [] && forall i :: 0 <= i < |Decimal(n)| ==> 48 <= Decimal(n)[i] <= 57
  {
    if n < 10 {
      assert Decimal(n)[..0] == [];
    } else {
      DecimalReadsBack(n / 10);
      assert Decimal(n)[..|Decimal(n)| - 1] == Decimal(n / 10);
    }
  }

  const TOTAL: seq<Byte> := [116, 111, 116, 97, 108]
  const SHOWN: seq<Byte> := [115, 104, 111, 119, 110]
  const TRUNCATED_KEY: seq<Byte> := [116, 114, 117, 110, 99, 97, 116, 101, 100]
  const NOTE: seq<Byte> := [110, 111, 116, 101]
  const TRUE: seq<Byte> := [116, 114, 117, 101]

  lemma KeysAreAscii()
    ensures Ascii("total") == TOTAL && Ascii("shown") == SHOWN && Ascii("truncated") == TRUNCATED_KEY
    ensures Ascii("note") == NOTE && Ascii("true") == TRUE
  {
  }

  /** What the fields of a list result say: the kept rows, the full number and the number
      shown, the mark and the note of a list that is not complete, and the envelope's own
      fields. */
  lemma ListReadsBack(env: seq<Field>, key: seq<Byte>, kept: seq<Row>, total: nat, note: seq<Byte>)
    requires key !in {TOTAL, SHOWN, TRUNCATED_KEY, NOTE}
    ensures var fields := env + Added(key, kept, total, note);
            && Lookup(fields, key) == Some(Array(kept))
            && Lookup(fields, TOTAL) == Some(Decimal(total)) && Lookup(fields, SHOWN) == Some(Decimal(|kept|))
            && Lookup(fields, TRUNCATED_KEY) == (if |kept| < total then Some(TRUE) else Lookup(env, TRUNCATED_KEY))
            && Lookup(fields, NOTE) == (if |kept| < total then Some(note) else Lookup(env, NOTE))
            && forall k :: k !in {key, TOTAL, SHOWN, TRUNCATED_KEY, NOTE} ==> Lookup(fields, k) == Lookup(env, k)
  {
    KeysAreAscii();
    forall k: seq<Byte> {
      AddedLookup(env, key, kept, total, note, k);
    }
    assert TOTAL[0] == 116 && TRUNCATED_KEY[0] == 116 && TOTAL[1] != TRUNCATED_KEY[1] && SHOWN[0] == 115 && NOTE[0] == 110;
  }

  lemma AddedLookup(env: seq<Field>, key: seq<Byte>, kept: seq<Row>, total: nat, note: seq<Byte>, k: seq<Byte>)
    ensures Lookup(env + Added(key, kept, total, note), k)
         == if |kept| < total && k == Ascii("note") then Some(note)
            else if |kept| < total && k == Ascii("truncated") then Some(Ascii("true"))
            else if k == Ascii("shown") then Some(Decimal(|kept|))
            else if k == Ascii("total") then Some(Decimal(total))
            else if k == key then Some(Array(kept))
            else Lookup(env, k)
  {
    var list, tot, shown := Field(key, Array(kept)), Field(Ascii("total"), Decimal(total)), Field(Ascii("shown"), Decimal(|kept|));
    LookupSnoc(env, list, k);
    LookupSnoc(env + [list], tot, k);
    LookupSnoc(env + [list] + [tot], shown, k);
    if |kept| < total {
      var mark, text := Field(Ascii("truncated"), Ascii("true")), Field(Ascii("note"), note);
      LookupSnoc(env + [list] + [tot] + [shown], mark, k);
      LookupSnoc(env + [list] + [tot] + [shown] + [mark], text, k);
      assert env + Added(key, kept, total, note) == env + [list] + [tot] + [shown] + [mark] + [text];
    } else {
      assert env + Added(key, kept, total, note) == env + [list] + [tot] + [shown];
    }
  }

  /** What a list result that can be rendered says: its rows, the number of matches, the
      number of rows shown, and on an incomplete list the mark and the note for these two
      numbers. */
  lemma ListSays(env: seq<Field>, key: seq<Byte>, items: seq<Row>, total: nat, noteFmt: (nat, nat) -> seq<Byte>,
                 budget: int, failure: seq<Byte>, kept: seq<Row>, result: seq<Byte>) returns (fields: seq<Field>)
    requires IsList(env, key, items, total, noteFmt, budget, failure, kept, result)
    requires None !in kept && key !in {TOTAL, SHOWN, TRUNCATED_KEY, NOTE}
    ensures result == Object(fields) && Lookup(fields, key) == Some(Array(kept))
    ensures Lookup(fields, TOTAL).Some? && Value(Lookup(fields, TOTAL).value) == total
    ensures Lookup(fields, SHOWN).Some? && Value(Lookup(fields, SHOWN).value) == |kept|
    ensures |kept| < total ==> Lookup(fields, TRUNCATED_KEY) == Some(TRUE) && Lookup(fields, NOTE) == Some(noteFmt(total, |kept|))
  {
    fields := env + Added(key, kept, total, noteFmt(total, |kept|));
    ListReadsBack(env, key, kept, total, noteFmt(total, |kept|));
    DecimalReadsBack(total);
    DecimalReadsBack(|kept|);
  }

  /** Each part of a joined text stands at the bytes and commas of the parts before it,
      and a comma follows unless it is the last. */
  lemma {:induction false} JoinAt(parts: seq<seq<Byte>>, i: nat)
    requires i < |parts|
    ensures var at := ListBytes(Lengths(parts[..i]));
            && at + |parts[i]| <= |Join(parts)|
            && Join(parts)[at..at + |parts[i]|] == parts[i]
            && (if i == |parts| - 1 then at + |parts[i]| == |Join(parts)|
                else at + |parts[i]| < |Join(parts)| && Join(parts)[at + |parts[i]|] == 0x2C)
  {
    var n := |parts| - 1;
    if n == 0 {
      assert parts[..0] == [];
    } else if i < n {
      JoinAt(parts[..n], i);
      assert parts[..n][..i] == parts[..i];
      InFront(Join(parts[..n]), Ascii(",") + parts[n], ListBytes(Lengths(parts[..i])), |parts[i]|);
      assert Join(parts) == Join(parts[..n]) + (Ascii(",") + parts[n]);
      JoinLength(parts[..n]);
    } else {
      JoinLength(parts[..n]);
      assert Join(parts) == Join(parts[..n]) + Ascii(",") + parts[n];
    }
  }

  lemma InFront(a: seq<Byte>, b: seq<Byte>, at: nat, n: nat)
    requires at + n <= |a|
    ensures (a + b)[at..at + n] == a[at..at + n]
    ensures at + n < |a| ==> (a + b)[at + n] == a[at + n]
    ensures at + n == |a| && b != [] ==> (a + b)[at + n] == b[0]
  {
  }

  lemma ArrayIs(kept: seq<Row>)
    ensures Array(kept) == [0x5B] + Join(RowTexts(kept)) + [0x5D]
  {
  }

  lemma PartOfRows(kept: seq<Row>, i: nat)
    requires None !in kept && i < |kept|
    ensures kept[i].Some? && RowTexts(kept)[i] == kept[i].value && Lengths(RowTexts(kept)[..i]) == Sizes(kept)[..i]
  {
    assert kept[i] in kept;
  }

  /** An array is its rows in order, in brackets and separated by commas. */
  lemma RowAt(kept: seq<Row>, i: nat)
    requires None !in kept && i < |kept|
    ensures kept[i].Some?
    ensures var text, at, row := Array(kept), 1 + ListBytes(Sizes(kept)[..i]), kept[i].value;
            && text[0] == 0x5B && text[|text| - 1] == 0x5D
            && at + |row| < |text| && text[at..at + |row|] == row
            && text[at + |row|] == if i == |kept| - 1 then 0x5D else 0x2C
  {
    var parts := RowTexts(kept);
    JoinAt(parts, i);
    PartOfRows(kept, i);
    Bracketed(0x5B, Join(parts), 0x5D, ListBytes(Lengths(parts[..i])), |parts[i]|);
    ArrayIs(kept);
  }

  lemma Bracketed(open: Byte, inner: seq<Byte>, close: Byte, at: nat, n: nat)
    requires at + n <= |inner|
    ensures var text := [open] + inner + [close];
            && text[1 + at..1 + at + n] == inner[at..at + n]
            && text[0] == open && text[|text| - 1] == close
            && text[1 + at + n] == if at + n == |inner| then close else inner[at + n]
  {
  }

  /** A field is its quoted key, a colon and its value. */
  lemma FieldIs(f: Field)
    ensures FieldText(f) == [0x22] + f.key + [0x22, 0x3A] + f.value
  {
  }

  lemma ObjectIs(fields: seq<Field>)
    ensures Object(fields) == [0x7B] + Join(FieldTexts(fields)) + [0x7D]
  {
  }

  lemma PartOfFields(fields: seq<Field>, i: nat)
    requires i < |fields|
    ensures FieldTexts(fields)[..i] == FieldTexts(fields[..i]) && FieldTexts(fields)[i] == FieldText(fields[i])
  {
  }

  /** An object is its fields in order, in braces and separated by commas. */
  lemma FieldAt(fields: seq<Field>, i: nat)
    requires i < |fields|
    ensures var text, at, field := Object(fields), 1 + ListBytes(Lengths(FieldTexts(fields[..i]))), FieldText(fields[i]);
            && text[0] == 0x7B && text[|text| - 1] == 0x7D
            && at + |field| < |text| && text[at..at + |field|] == field
            && text[at + |field|] == if i == |fields| - 1 then 0x7D else 0x2C
  {
    var parts := FieldTexts(fields);
    JoinAt(parts, i);
    PartOfFields(fields, i);
    Bracketed(0x7B, Join(parts), 0x7D, ListBytes(Lengths(parts[..i])), |parts[i]|);
    ObjectIs(fields);
  }

  function Lengths(parts: seq<seq<Byte>>): seq<nat> {
    seq(|parts|, i requires 0 <= i < |parts| => |parts[i]|)
  }

  lemma {:induction false} JoinLength(parts: seq<seq<Byte>>)
    ensures |Join(parts)| + (if parts == [] then 0 else 1) == ListBytes(Lengths(parts))
  {
    if |parts| > 0 {
      var init := parts[..|parts| - 1];
      JoinLength(init);
      assert Lengths(parts)[..|parts| - 1] == Lengths(init);
    }
  }

  function FieldBytes(fields: seq<Field>): nat {
    ListBytes(Lengths(FieldTexts(fields)))
  }

  lemma FieldBytesSnoc(fields: seq<Field>, f: Field)
    ensures FieldBytes(fields + [f]) == FieldBytes(fields) + |f.key| + |f.value| + 4
  {
    assert Lengths(FieldTexts(fields + [f])) == Lengths(FieldTexts(fields)) + [|FieldText(f)|];
    ListBytesConcat(Lengths(FieldTexts(fields)), [|FieldText(f)|]);
    assert ListBytes([|FieldText(f)|]) == |FieldText(f)| + 1;
  }

  lemma ObjectSize(fields: seq<Field>)
    ensures |Object(fields)| == FieldBytes(fields) + if fields == [] then 2 else 1
  {
    JoinLength(FieldTexts(fields));
  }

  /** Bytes of the added fields and their commas, apart from the rows. */
  function Overhead(key: seq<Byte>, shown: nat, total: nat, note: seq<Byte>): nat {
    |key| + 6 + (9 + |Decimal(total)|) + (9 + |Decimal(shown)|) + if shown < total then 17 + 8 + |note| else 0
  }

  lemma AddedBytes(env: seq<Field>, key: seq<Byte>, kept: seq<Row>, total: nat, note: seq<Byte>)
    ensures FieldBytes(env + Added(key, kept, total, note)) == FieldBytes(env) + Overhead(key, |kept|, total, note) + |Join(RowTexts(kept))|
  {
    var list, tot, shown := Field(key, Array(kept)), Field(Ascii("total"), Decimal(total)), Field(Ascii("shown"), Decimal(|kept|));
    FieldBytesSnoc(env, list);
    FieldBytesSnoc(env + [list], tot);
    FieldBytesSnoc(env + [list] + [tot], shown);
    if |kept| < total {
      var mark, text := Field(Ascii("truncated"), Ascii("true")), Field(Ascii("note"), note);
      FieldBytesSnoc(env + [list] + [tot] + [shown], mark);
      FieldBytesSnoc(env + [list] + [tot] + [shown] + [mark], text);
      assert env + Added(key, kept, total, note) == env + [list] + [tot] + [shown] + [mark] + [text];
    } else {
      assert env + Added(key, kept, total, note) == env + [list] + [tot] + [shown];
    }
  }

  lemma RowBytes(rows: seq<Row>)
    ensures |Join(RowTexts(rows))| + (if rows == [] then 0 else 1) == ListBytes(Sizes(rows))
  {
    JoinLength(RowTexts(rows));
    assert Lengths(RowTexts(rows)) == Sizes(rows);
  }

  /** The exact size of a list result. */
  lemma RenderedSize(env: seq<Field>, key: seq<Byte>, kept: seq<Row>, total: nat, note: seq<Byte>, failure: seq<Byte>)
    requires None !in kept
    ensures |Rendered(env, key, kept, total, note, failure)|
         == |Object(env)| + Overhead(key, |kept|, total, note) + ListBytes(Sizes(kept))
            - (if kept == [] then 0 else 1) - (if env == [] then 1 else 0)
  {
    AddedBytes(env, key, kept, total, note);
    RowBytes(kept);
    ObjectSize(env);
    ObjectSize(env + Added(key, kept, total, note));
  }

  lemma SizesOfSample(rows: seq<Row>, head: nat, tail: nat)
    requires head <= tail <= |rows|
    ensures Sizes(rows[..head] + rows[tail..]) == Sizes(rows)[..head] + Sizes(rows)[tail..]
  {
  }

  /** The rows kept fit what the envelope and its reserve leave, unless the first row
      alone does not fit half of it and is kept by itself. */
  lemma KeptRowsFit(rows: seq<Row>, remaining: int, kept: seq<Row>)
    requires Keeps(rows, remaining, kept)
    ensures rows != [] ==> kept != []
    ensures ListBytes(Sizes(kept)) <= remaining || rows == [] || (FirstTooBig(Sizes(rows), remaining) && kept == [rows[0]])
    ensures |kept| <= |rows| && (|kept| == |rows| ==> kept == rows)
    ensures ListBytes(Sizes(rows)) > remaining && rows != [] && !FirstTooBig(Sizes(rows), remaining) ==> |kept| < |rows|
  {
    var sizes := Sizes(rows);
    if ListBytes(sizes) > remaining && rows != [] && !FirstTooBig(sizes, remaining) {
      var head: nat, tail: nat :| Samples(sizes, remaining, head, tail) && kept == rows[..head] + rows[tail..];
      SampleFitsAndShrinks(sizes, remaining, head, tail);
      SizesOfSample(rows, head, tail);
    }
  }

  /** A list result stays within its budget if the added keys and the note fit the
      reserve, and the rows fit what is left or the first one fits half of it. */
  lemma ResultWithinBudget(env: seq<Field>, key: seq<Byte>, rows: seq<Row>, kept: seq<Row>, total: nat, note: seq<Byte>,
                           budget: int, failure: seq<Byte>)
    requires Keeps(rows, budget - |Object(env)| - ENVELOPE_RESERVE, kept) && None !in kept
    requires Overhead(key, |kept|, total, note) <= ENVELOPE_RESERVE
    requires var remaining := budget - |Object(env)| - ENVELOPE_RESERVE;
             ListBytes(Sizes(rows)) <= remaining || (rows != [] && !FirstTooBig(Sizes(rows), remaining))
    ensures |Rendered(env, key, kept, total, note, failure)| <= budget
  {
    KeptRowsFit(rows, budget - |Object(env)| - ENVELOPE_RESERVE, kept);
    RenderedSize(env, key, kept, total, note, failure);
  }

  /** In the remaining case the rows do not fit, and there is no first row or it
      exceeds half of what is left. */
  predicate Squeezed(rows: seq<Row>, remaining: int) {
    ListBytes(Sizes(rows)) > remaining && (rows == [] || FirstTooBig(Sizes(rows), remaining))
  }

  /** Then the result is the envelope with at most the first row. */
  function SqueezedSize(env: seq<Field>, key: seq<Byte>, rows: seq<Row>, total: nat, note: seq<Byte>): int {
    |Object(env)| - (if env == [] then 1 else 0)
    + if rows == [] then Overhead(key, 0, total, note) else Overhead(key, 1, total, note) + Sizes(rows)[0]
  }

  /** The exact size in that case, whatever the keys and the note need. */
  lemma SqueezedResult(env: seq<Field>, key: seq<Byte>, rows: seq<Row>, kept: seq<Row>, total: nat, note: seq<Byte>,
                       remaining: int, failure: seq<Byte>)
    requires Keeps(rows, remaining, kept) && None !in kept && Squeezed(rows, remaining)
    ensures |Rendered(env, key, kept, total, note, failure)| == SqueezedSize(env, key, rows, total, note)
  {
    SqueezedSample(rows, remaining, kept);
    RenderedSize(env, key, kept, total, note, failure);
  }

  lemma SqueezedSample(rows: seq<Row>, remaining: int, kept: seq<Row>)
    requires Keeps(rows, remaining, kept) && Squeezed(rows, remaining)
    ensures kept == if rows == [] then [] else [rows[0]]
    ensures ListBytes(Sizes(kept)) == if rows == [] then 0 else Sizes(rows)[0] + 1
  {
    if rows != [] {
      assert Sizes(kept) == [Sizes(rows)[0]];
      assert [Sizes(rows)[0]][..0] == [];
    }
  }

  /** Exactly when a result whose added keys and note fit the reserve is within its
      budget: always, except that a squeezed list must still fit with its first row. */
  lemma WithinBudgetIff(env: seq<Field>, key: seq<Byte>, rows: seq<Row>, kept: seq<Row>, total: nat, note: seq<Byte>,
                        budget: int, failure: seq<Byte>)
    requires Keeps(rows, budget - |Object(env)| - ENVELOPE_RESERVE, kept) && None !in kept
    requires Overhead(key, |kept|, total, note) <= ENVELOPE_RESERVE
    ensures |Rendered(env, key, kept, total, note, failure)| <= budget
       <==> (Squeezed(rows, budget - |Object(env)| - ENVELOPE_RESERVE) ==> SqueezedSize(env, key, rows, total, note) <= budget)
  {
    var remaining := budget - |Object(env)| - ENVELOPE_RESERVE;
    KeptRowsFit(rows, remaining, kept);
    if Squeezed(rows, remaining) {
      SqueezedResult(env, key, rows, kept, total, note, remaining, failure);
    } else {
      ResultWithinBudget(env, key, rows, kept, total, note, budget, failure);
    }
  }

  /** A single row of 13000 bytes exceeds the default budget and is kept. */
  lemma OneHugeRowExceedsTheBudget(key: seq<Byte>, note: seq<Byte>, failure: seq<Byte>) returns (rows: seq<Row>)
    ensures Keeps(rows, MAX_TOOL_RESULT_BYTES - |Object([])| - ENVELOPE_RESERVE, rows) && |rows| == 1
    ensures None !in rows && |Rendered([], key, rows, 1, note, failure)| > MAX_TOOL_RESULT_BYTES
  {
    var huge: seq<Byte> := seq(13000, _ => 0x20);
    rows := [Some(huge)];
    assert Sizes(rows) == [13000] && [13000][..0] == [];
    assert rows[..1] == rows;
    RenderedSize([], key, rows, 1, note, failure);
  }

  // -- Truncation -----------------------------------------------------------

  predicate RuneStart(b: Byte) {
    !(0x80 <= b < 0xC0)
  }

  const TRUNCATED: seq<Byte> := [0xE2, 0x80, 0xA6] + Ascii("(") + [0xE5, 0xB7, 0xB2, 0xE6, 0x88, 0xAA, 0xE6, 0x96, 0xAD] + Ascii(")")

  const TRUNCATED_BYTES := 14

  /** A short text is untouched, a long one cut and marked. */
  ghost predicate IsTruncation(s: seq<Byte>, max: nat, r: seq<Byte>) {
    if |s| <= max then r == s else exists cut: nat :: CutsAt(s, max, cut) && r == s[..cut] + TRUNCATED
  }

  method Truncate(s: seq<Byte>, max: nat) returns (r: seq<Byte>)
    ensures IsTruncation(s, max, r)
    ensures |r| <= max + TRUNCATED_BYTES
  {
    if |s| <= max { return s; }
    var cut := max;
    while cut > 0 && !RuneStart(s[cut])
      invariant 0 <= cut <= max && forall k :: cut < k <= max ==> !RuneStart(s[k])
    {
      cut := cut - 1;
    }
    r := s[..cut] + TRUNCATED;
    assert CutsAt(s, max, cut);
  }

  /** The last place up to max where a sequence starts, or the very start. */
  ghost predicate CutsAt(s: seq<Byte>, max: nat, cut: nat)
    requires max < |s|
  {
    cut <= max && (cut == 0 || RuneStart(s[cut])) && forall k :: cut < k <= max ==> !RuneStart(s[k])
  }

  lemma StartsOfEncoded(c: Scalar)
    ensures 1 <= |Encode(c)| <= 4 && RuneStart(Encode(c)[0]) && forall k :: 1 <= k < |Encode(c)| ==> !RuneStart(Encode(c)[k])
  {
  }

  /** Valid text is never cut inside a character, and no earlier than needed: what is
      left is the longest run of whole characters within max bytes. */
  lemma {:induction false} TruncationKeepsCharacters(text: seq<Scalar>, max: nat, cut: nat) returns (n: nat)
    requires max < |EncodeAll(text)| && CutsAt(EncodeAll(text), max, cut)
    ensures n < |text| && EncodeAll(text)[..cut] == EncodeAll(text[..n])
    ensures |EncodeAll(text[..n])| <= max < |EncodeAll(text[..n + 1])|
  {
    var first, rest := Encode(text[0]), EncodeAll(text[1..]);
    if max < |first| {
      n := 0;
      CutInFirst(text[0], rest, max, cut);
      assert text[..1] == [text[0]] && text[..1][1..] == [];
    } else {
      FirstByteStarts(text[1..]);
      CutInRest(text[0], rest, max, cut);
      n := TruncationKeepsCharacters(text[1..], max - |first|, cut - |first|);
      PrefixOfTail(text, n);
      n := n + 1;
      PrefixOfTail(text, n);
      CutBehind(first, rest, cut);
    }
  }

  /** The mark comes on top of the limit: a valid text that is truncated ends up longer
      than max, by 11 to 14 bytes. */
  lemma TruncatedTextSize(text: seq<Scalar>, max: nat, r: seq<Byte>)
    requires max < |EncodeAll(text)| && IsTruncation(EncodeAll(text), max, r)
    ensures max + TRUNCATED_BYTES - 3 <= |r| <= max + TRUNCATED_BYTES
  {
    var s := EncodeAll(text);
    var cut: nat :| CutsAt(s, max, cut) && r == s[..cut] + TRUNCATED;
    var n := TruncationKeepsCharacters(text, max, cut);
    assert text[..n + 1] == text[..n] + [text[n]];
    EncodeAllConcat(text[..n], [text[n]]);
    StartsOfEncoded(text[n]);
    assert EncodeAll([text[n]]) == Encode(text[n]) + EncodeAll([]);
    assert |s[..cut]| == cut;
  }

  // -- From a list to the tool message --------------------------------------

  /** The tool message of a list: rendered with the kept rows, then capped. */
  ghost predicate IsListMessage(env: seq<Field>, key: seq<Byte>, items: seq<Row>, total: nat, noteFmt: (nat, nat) -> seq<Byte>,
                                failure: seq<Byte>, kept: seq<Row>, result: seq<Byte>)
  {
    && Keeps(items, 12000 - |Object(env)| - 400, kept)
    && IsTruncation(Rendered(env, key, kept, total, noteFmt(total, |kept|), failure), 12000, result)
  }

  /** A list tool followed by the cap of executeTool. */
  method CappedToolList(env: seq<Field>, key: seq<Byte>, items: seq<Row>, total: nat, noteFmt: (nat, nat) -> seq<Byte>,
                        failure: seq<Byte>) returns (result: seq<Byte>)
    ensures exists kept :: IsListMessage(env, key, items, total, noteFmt, failure, kept, result)
    ensures |result| <= 12014
  {
    var list := MarshalToolListBudget(env, key, items, total, noteFmt, MAX_TOOL_RESULT_BYTES, failure);
    ghost var kept :| IsList(env, key, items, total, noteFmt, 12000, failure, kept, list);
    result := Truncate(list, MAX_TOOL_RESULT_BYTES);
    assert IsListMessage(env, key, items, total, noteFmt, failure, kept, result);
  }

  /** A list result reaches the model as the JSON object it was rendered as exactly if it
      is not a squeezed one whose first row is too big; otherwise it is cut text. */
  lemma ListReachesTheModelIff(env: seq<Field>, key: seq<Byte>, rows: seq<Row>, kept: seq<Row>, total: nat, note: seq<Byte>,
                               failure: seq<Byte>, result: seq<Byte>)
    requires Keeps(rows, MAX_TOOL_RESULT_BYTES - |Object(env)| - ENVELOPE_RESERVE, kept) && None !in kept
    requires Overhead(key, |kept|, total, note) <= ENVELOPE_RESERVE
    requires IsTruncation(Rendered(env, key, kept, total, note, failure), MAX_TOOL_RESULT_BYTES, result)
    ensures result == Rendered(env, key, kept, total, note, failure)
       <==> (Squeezed(rows, MAX_TOOL_RESULT_BYTES - |Object(env)| - ENVELOPE_RESERVE)
             ==> SqueezedSize(env, key, rows, total, note) <= MAX_TOOL_RESULT_BYTES)
  {
    WithinBudgetIff(env, key, rows, kept, total, note, MAX_TOOL_RESULT_BYTES, failure);
    TruncationIsSeen(env + Added(key, kept, total, note), MAX_TOOL_RESULT_BYTES, result);
  }

  /** A cut object is not the object any more: it does not end in a brace. */
  lemma TruncationIsSeen(fields: seq<Field>, max: nat, r: seq<Byte>)
    requires IsTruncation(Object(fields), max, r)
    ensures r == Object(fields) <==> |Object(fields)| <= max
  {
    var s := Object(fields);
    assert s[|s| - 1] == 0x7D;
    if |s| > max {
      var cut: nat :| CutsAt(s, max, cut) && r == s[..cut] + TRUNCATED;
      assert r[|r| - 1] == TRUNCATED[TRUNCATED_BYTES - 1] == 0x29;
    }
  }

  lemma CutInFirst(c: Scalar, rest: seq<Byte>, max: nat, cut: nat)
    requires max < |Encode(c)| && CutsAt(Encode(c) + rest, max, cut)
    ensures cut == 0
  {
    StartsOfEncoded(c);
    assert (Encode(c) + rest)[cut] == Encode(c)[cut];
  }

  lemma CutInRest(c: Scalar, rest: seq<Byte>, max: nat, cut: nat)
    requires |Encode(c)| <= max < |Encode(c)| + |rest| && RuneStart(rest[0]) && CutsAt(Encode(c) + rest, max, cut)
    ensures cut >= |Encode(c)| && CutsAt(rest, max - |Encode(c)|, cut - |Encode(c)|)
  {
    var n, s := |Encode(c)|, Encode(c) + rest;
    assert s[n] == rest[0];
    assert cut >= n;
    forall k | cut - n < k <= max - n ensures !RuneStart(rest[k]) {
      assert rest[k] == s[n + k];
    }
    assert s[cut] == rest[cut - n];
  }

  lemma CutBehind(first: seq<Byte>, rest: seq<Byte>, cut: nat)
    requires |first| <= cut <= |first| + |rest|
    ensures (first + rest)[..cut] == first + rest[..cut - |first|]
  {
  }

  lemma FirstByteStarts(text: seq<Scalar>)
    requires text != []
    ensures EncodeAll(text) != [] && RuneStart(EncodeAll(text)[0])
  {
    StartsOfEncoded(text[0]);
  }

  lemma PrefixOfTail(text: seq<Scalar>, n: nat)
    requires n < |text|
    ensures EncodeAll(text[..n + 1]) == Encode(text[0]) + EncodeAll(text[1..][..n])
  {
    assert text[..n + 1][1..] == text[1..][..n];
  }
}

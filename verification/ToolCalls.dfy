/** One upstream stream of the assistant: relaying text and reassembling fragmented
    tool calls (consumeStream and finishRound in ai/agent.go). */
module ToolCalls {
  import opened Common

  // -- The stream -----------------------------------------------------------

  /** A tool call, and also a fragment of one. */
  datatype ToolCall = ToolCall(index: int, id: string, kind: string, name: string, arguments: string)

  datatype Choice = Choice(reasoning: string, content: string, fragments: seq<ToolCall>)

  /** What the receiving loop gets from the upstream, its idle timer and its context,
      in the order it picks them up. */
  datatype Arrival =
    | KeepAlive
    | Chunk(choices: seq<Choice>)
    | ErrorChunk
    | Eof
    | ReadError(context: Context)
    | ContextDone(overdue: bool)
    | PumpClosed
    | IdleTimeout

  /** The round's context: running, cancelled by the caller, or past its deadline. */
  datatype Context = Live | Aborted | Overdue

  datatype Failure =
    | TimedOut
    | Cancelled
    | DeadlineExceeded
    | EndedEarly
    | Unavailable
    | TooManySteps
    | Refused(reason: string)
    | ToolBroke(cancelled: bool)

  datatype Status = Running | Succeeded | Failed

  datatype Event =
    | Thinking(content: string)
    | Delta(content: string)
    | Tool(id: string, name: string, status: Status)
    | Proposal
    | Done
    | Error(failure: Failure)

  datatype Round = Round(text: string, reasoning: string, calls: seq<ToolCall>) | Broken(failure: Failure)

  /** The response stream: the events emitted so far. */
  class EventSink {
    var events: seq<Event>

    constructor ()
      ensures events == []
    {
      events := [];
    }

    method Emit(e: Event)
      modifies this
      ensures events == old(events) + [e]
    {
      events := events + [e];
    }
  }

  // -- The loop -------------------------------------------------------------

  function Patch(c: ToolCall, f: ToolCall): ToolCall {
    ToolCall(c.index,
             if f.id != "" then f.id else c.id,
             if f.kind != "" then f.kind else c.kind,
             if f.name != "" then f.name else c.name,
             c.arguments + f.arguments)
  }

  function Merge(calls: map<int, ToolCall>, f: ToolCall): map<int, ToolCall> {
    calls[f.index := Patch(if f.index in calls then calls[f.index] else ToolCall(f.index, "", "", "", ""), f)]
  }

  /** Relays deltas to the sink until the stream stops. A stream that never stops by
      itself runs into the idle timer. */
  method ConsumeStream(arrivals: seq<Arrival>, sink: EventSink) returns (r: Round)
    modifies sink
    ensures sink.events == old(sink.events) + Relayed(Heard(arrivals))
    ensures Concludes(r, Ending(arrivals), Heard(arrivals))
    ensures r.Round? <==> Ending(arrivals) == Eof
    ensures Ending(arrivals) == IdleTimeout ==> r == Broken(TimedOut)
    ensures Ending(arrivals) in {ContextDone(true), ReadError(Overdue)} ==> r == Broken(DeadlineExceeded)
    ensures Ending(arrivals) in {ContextDone(false), ReadError(Aborted)} ==> r == Broken(Cancelled)
    ensures Ending(arrivals) == PumpClosed ==> r == Broken(EndedEarly)
    ensures Ending(arrivals) in {ReadError(Live), ErrorChunk} ==> r == Broken(Unavailable)
  {
    var text, reasoning := "", "";
    var calls: map<int, ToolCall> := map[];
    ghost var before := sink.events;
    ghost var heard: seq<Choice> := [];
    var n := 0;
    HearAll(arrivals);
    while n < |arrivals|
      invariant n <= |arrivals| && Ahead(arrivals, n, heard)
      invariant sink.events == before + Relayed(heard) && Kept(heard, text, reasoning, calls)
    {
      var a := arrivals[n];
      if Stops(a) {
        HearStop(arrivals, n, heard);
        r := Conclude(a, text, reasoning, calls, heard);
        return;
      }
      text, reasoning, calls, heard := RelayArrival(arrivals, n, sink, text, reasoning, calls, before, heard);
      n := n + 1;
    }
    HearNothing(arrivals, heard);
    r := Conclude(IdleTimeout, text, reasoning, calls, heard);
  }

  method RelayArrival(arrivals: seq<Arrival>, n: nat, sink: EventSink, text0: string, reasoning0: string, calls0: map<int, ToolCall>,
                      ghost before: seq<Event>, ghost earlier: seq<Choice>)
    returns (text: string, reasoning: string, calls: map<int, ToolCall>, ghost heard: seq<Choice>)
    requires n < |arrivals| && !Stops(arrivals[n]) && Ahead(arrivals, n, earlier)
    requires sink.events == before + Relayed(earlier) && Kept(earlier, text0, reasoning0, calls0)
    modifies sink
    ensures Ahead(arrivals, n + 1, heard)
    ensures sink.events == before + Relayed(heard) && Kept(heard, text, reasoning, calls)
  {
    HearOne(arrivals, n, earlier);
    match arrivals[n] {
      case KeepAlive => text, reasoning, calls, heard := text0, reasoning0, calls0, earlier;
      case Chunk(choices) =>
        text, reasoning, calls := RelayChoices(choices, sink, text0, reasoning0, calls0, before, earlier);
        heard := earlier + choices;
    }
  }

  method Conclude(a: Arrival, text: string, reasoning: string, calls: map<int, ToolCall>, ghost heard: seq<Choice>)
    returns (r: Round)
    requires Stops(a) && Kept(heard, text, reasoning, calls)
    ensures Concludes(r, a, heard)
  {
    match a {
      case IdleTimeout => return Broken(TimedOut);
      case ContextDone(overdue) => return Broken(if overdue then DeadlineExceeded else Cancelled);
      case PumpClosed => return Broken(EndedEarly);
      case ReadError(context) =>
        if context == Live { return Broken(Unavailable); }
        return Broken(if context == Overdue then DeadlineExceeded else Cancelled);
      case ErrorChunk => return Broken(Unavailable);
      case Eof =>
        MergedOwnIndexes(Fragments(heard));
        var list := FinishRound(calls);
        return Round(text, reasoning, list);
    }
  }

  method RelayChoices(choices: seq<Choice>, sink: EventSink, text0: string, reasoning0: string, calls0: map<int, ToolCall>,
                      ghost before: seq<Event>, ghost earlier: seq<Choice>)
    returns (text: string, reasoning: string, calls: map<int, ToolCall>)
    requires sink.events == before + Relayed(earlier) && Kept(earlier, text0, reasoning0, calls0)
    modifies sink
    ensures sink.events == before + Relayed(earlier + choices) && Kept(earlier + choices, text, reasoning, calls)
  {
    text, reasoning, calls := text0, reasoning0, calls0;
    assert earlier + choices[..0] == earlier;
    for k := 0 to |choices|
      invariant sink.events == before + Relayed(earlier + choices[..k])
      invariant Kept(earlier + choices[..k], text, reasoning, calls)
    {
      var c := choices[k];
      ghost var heard := earlier + choices[..k];
      TakeOneMore(earlier, choices, k);
      HeardSnoc(heard, c);
      Associative(before, Relayed(heard), RelayedOne(c));
      RelayText(c, sink);
      text := text + c.content;
      reasoning := reasoning + c.reasoning;
      calls := Accumulate(calls, c.fragments, Fragments(heard));
    }
    assert choices[..|choices|] == choices;
  }

  /** What a round has accumulated after `heard`. */
  ghost predicate Kept(heard: seq<Choice>, text: string, reasoning: string, calls: map<int, ToolCall>) {
    text == Text(heard) && reasoning == Reasoning(heard) && calls == Merged(Fragments(heard))
  }

  method RelayText(c: Choice, sink: EventSink)
    modifies sink
    ensures sink.events == old(sink.events) + RelayedOne(c)
  {
    if c.reasoning != "" { sink.Emit(Thinking(c.reasoning)); }
    if c.content != "" { sink.Emit(Delta(c.content)); }
  }

  method Accumulate(calls: map<int, ToolCall>, fragments: seq<ToolCall>, ghost earlier: seq<ToolCall>) returns (out: map<int, ToolCall>)
    requires calls == Merged(earlier)
    ensures out == Merged(earlier + fragments)
  {
    out := calls;
    ghost var sofar := earlier;
    for k := 0 to |fragments|
      invariant sofar == earlier + fragments[..k] && out == Merged(sofar)
    {
      var tc := fragments[k];
      TakeOneMore(earlier, fragments, k);
      MergedSnoc(sofar, tc);
      sofar := sofar + [tc];
      out := MergeFragment(out, tc);
    }
    assert fragments[..|fragments|] == fragments;
  }

  method MergeFragment(calls: map<int, ToolCall>, tc: ToolCall) returns (out: map<int, ToolCall>)
    ensures out == Merge(calls, tc)
  {
    var call := if tc.index in calls then calls[tc.index] else ToolCall(tc.index, "", "", "", "");
    if tc.id != "" { call := call.(id := tc.id); }
    if tc.kind != "" { call := call.(kind := tc.kind); }
    if tc.name != "" { call := call.(name := tc.name); }
    call := call.(arguments := call.arguments + tc.arguments);
    out := calls[tc.index := call];
  }

  function InsertSorted(x: int, s: seq<int>): seq<int> {
    if s == [] || x <= s[0] then [x] + s else [s[0]] + InsertSorted(x, s[1..])
  }

  /** sort.Ints */
  function SortInts(s: seq<int>): seq<int> {
    if s == [] then [] else InsertSorted(s[0], SortInts(s[1..]))
  }

  method FinishRound(calls: map<int, ToolCall>) returns (list: seq<ToolCall>)
    requires OwnIndexes(calls)
    ensures ListsCalls(list, calls)
  {
    if |calls| == 0 { return []; }
    var indexes := CollectIndexes(calls);
    SortedIndexes(indexes);
    indexes := SortInts(indexes);
    list := [];
    for k := 0 to |indexes|
      invariant |list| == k && forall j :: 0 <= j < k ==> indexes[j] in calls && list[j] == calls[indexes[j]]
    {
      assert indexes[k] in indexes;
      list := list + [calls[indexes[k]]];
    }
    SortedListsCalls(list, indexes, calls);
  }

  /** The keys in whatever order the map yields them. */
  method CollectIndexes(calls: map<int, ToolCall>) returns (indexes: seq<int>)
    ensures Distinct(indexes) && forall i :: i in indexes <==> i in calls
  {
    indexes := [];
    var left := calls.Keys;
    while left != {}
      invariant left <= calls.Keys && forall i :: i in indexes <==> i in calls.Keys - left
      invariant Distinct(indexes)
      decreases |left|
    {
      SomeElement(left);
      var i :| i in left;
      left := left - {i};
      indexes := indexes + [i];
    }
  }

  lemma SortedListsCalls(list: seq<ToolCall>, indexes: seq<int>, calls: map<int, ToolCall>)
    requires OwnIndexes(calls) && Increasing(indexes) && (forall i :: i in indexes <==> i in calls)
    requires |list| == |indexes| && forall j :: 0 <= j < |list| ==> indexes[j] in calls && list[j] == calls[indexes[j]]
    ensures ListsCalls(list, calls)
  {
    forall i | i in calls ensures exists k :: 0 <= k < |list| && list[k].index == i {
      assert i in indexes;
      var k :| 0 <= k < |indexes| && indexes[k] == i;
      assert list[k].index == i;
    }
  }

  // -- What it computes -----------------------------------------------------

  /** A round succeeds exactly when the stream ends properly; it then carries all that
      was heard. */
  ghost predicate Concludes(r: Round, ending: Arrival, heard: seq<Choice>) {
    && (r.Round? <==> ending == Eof)
    && (r.Broken? ==> r.failure == Verdict(ending))
    && (r.Round? ==> r.text == Text(heard) && r.reasoning == Reasoning(heard) && ListsCalls(r.calls, Merged(Fragments(heard))))
  }

  predicate Stops(a: Arrival) {
    !a.KeepAlive? && !a.Chunk?
  }

  /** All choices received before the stream stops. */
  function Heard(arrivals: seq<Arrival>): seq<Choice> {
    if arrivals == [] || Stops(arrivals[0]) then []
    else (if arrivals[0].Chunk? then arrivals[0].choices else []) + Heard(arrivals[1..])
  }

  /** What stops the stream. */
  function Ending(arrivals: seq<Arrival>): (a: Arrival)
    ensures Stops(a)
  {
    if arrivals == [] then IdleTimeout else if Stops(arrivals[0]) then arrivals[0] else Ending(arrivals[1..])
  }

  function Verdict(a: Arrival): Failure {
    match a
    case IdleTimeout => TimedOut
    case ContextDone(overdue) => if overdue then DeadlineExceeded else Cancelled
    case PumpClosed => EndedEarly
    case ReadError(Aborted) => Cancelled
    case ReadError(Overdue) => DeadlineExceeded
    case _ => Unavailable
  }

  function RelayedOne(c: Choice): seq<Event> {
    (if c.reasoning != "" then [Thinking(c.reasoning)] else []) + (if c.content != "" then [Delta(c.content)] else [])
  }

  /** The events of received choices. */
  function Relayed(heard: seq<Choice>): seq<Event> {
    if heard == [] then [] else Relayed(heard[..|heard| - 1]) + RelayedOne(heard[|heard| - 1])
  }

  function Text(heard: seq<Choice>): string {
    if heard == [] then "" else Text(heard[..|heard| - 1]) + heard[|heard| - 1].content
  }

  function Reasoning(heard: seq<Choice>): string {
    if heard == [] then "" else Reasoning(heard[..|heard| - 1]) + heard[|heard| - 1].reasoning
  }

  function Fragments(heard: seq<Choice>): seq<ToolCall> {
    if heard == [] then [] else Fragments(heard[..|heard| - 1]) + heard[|heard| - 1].fragments
  }

  function Merged(fragments: seq<ToolCall>): map<int, ToolCall> {
    if fragments == [] then map[] else Merge(Merged(fragments[..|fragments| - 1]), fragments[|fragments| - 1])
  }

  ghost predicate OwnIndexes(calls: map<int, ToolCall>) {
    forall i <- calls :: calls[i].index == i
  }

  /** All calls, once each, by increasing index. */
  ghost predicate ListsCalls(list: seq<ToolCall>, calls: map<int, ToolCall>) {
    && (forall j, k :: 0 <= j < k < |list| ==> list[j].index < list[k].index)
    && (forall k :: 0 <= k < |list| ==> list[k].index in calls && list[k] == calls[list[k].index])
    && (forall i <- calls :: exists k :: 0 <= k < |list| && list[k].index == i)
  }

  /** `heard` is what the first n arrivals brought, and the stream is not over. */
  ghost predicate Ahead(arrivals: seq<Arrival>, n: nat, heard: seq<Choice>)
    requires n <= |arrivals|
  {
    Heard(arrivals) == heard + Heard(arrivals[n..]) && Ending(arrivals) == Ending(arrivals[n..])
  }

  lemma HearAll(arrivals: seq<Arrival>)
    ensures Ahead(arrivals, 0, [])
  {
    assert arrivals[0..] == arrivals;
  }

  lemma HearStop(arrivals: seq<Arrival>, n: nat, heard: seq<Choice>)
    requires n < |arrivals| && Ahead(arrivals, n, heard) && Stops(arrivals[n])
    ensures Heard(arrivals) == heard && Ending(arrivals) == arrivals[n]
  {
    assert arrivals[n..][0] == arrivals[n];
  }

  lemma HearNothing(arrivals: seq<Arrival>, heard: seq<Choice>)
    requires Ahead(arrivals, |arrivals|, heard)
    ensures Heard(arrivals) == heard && Ending(arrivals) == IdleTimeout
  {
    assert arrivals[|arrivals|..] == [];
  }

  lemma HearOne(arrivals: seq<Arrival>, n: nat, heard: seq<Choice>)
    requires n < |arrivals| && Ahead(arrivals, n, heard) && !Stops(arrivals[n])
    ensures arrivals[n].KeepAlive? ==> Ahead(arrivals, n + 1, heard)
    ensures arrivals[n].Chunk? ==> Ahead(arrivals, n + 1, heard + arrivals[n].choices)
  {
    assert arrivals[n..][0] == arrivals[n] && arrivals[n..][1..] == arrivals[n + 1..];
    if arrivals[n].Chunk? { Associative(heard, arrivals[n].choices, Heard(arrivals[n + 1..])); }
  }

  lemma HeardSnoc(heard: seq<Choice>, c: Choice)
    ensures Relayed(heard + [c]) == Relayed(heard) + RelayedOne(c)
    ensures Text(heard + [c]) == Text(heard) + c.content && Reasoning(heard + [c]) == Reasoning(heard) + c.reasoning
    ensures Fragments(heard + [c]) == Fragments(heard) + c.fragments
  {
    assert (heard + [c])[..|heard|] == heard;
  }

  lemma {:induction false} MergedOwnIndexes(fragments: seq<ToolCall>)
    ensures OwnIndexes(Merged(fragments))
  {
    if fragments != [] { MergedOwnIndexes(fragments[..|fragments| - 1]); }
  }

  lemma MergedSnoc(fragments: seq<ToolCall>, f: ToolCall)
    ensures Merged(fragments + [f]) == Merge(Merged(fragments), f)
  {
    assert (fragments + [f])[..|fragments|] == fragments;
  }

  // -- What was heard, in plain terms ---------------------------------------

  function ChoicesOf(arrivals: seq<Arrival>): seq<seq<Choice>> {
    seq(|arrivals|, i requires 0 <= i < |arrivals| => if arrivals[i].Chunk? then arrivals[i].choices else [])
  }

  /** A stream is heard up to its first arrival that is neither a chunk nor keep-alive
      traffic; what comes later is not. */
  lemma {:induction false} HeardUntilTheEnd(before: seq<Arrival>, end: Arrival, later: seq<Arrival>)
    requires forall a <- before :: a.Chunk? || a.KeepAlive?
    requires !end.Chunk? && !end.KeepAlive?
    ensures Heard(before + [end] + later) == Flatten(ChoicesOf(before)) && Ending(before + [end] + later) == end
    ensures Heard(before) == Flatten(ChoicesOf(before)) && Ending(before) == IdleTimeout
  {
    if before != [] {
      HeardUntilTheEnd(before[1..], end, later);
      assert (before + [end] + later)[1..] == before[1..] + [end] + later;
      assert ChoicesOf(before)[1..] == ChoicesOf(before[1..]);
    }
  }

  function Contents(heard: seq<Choice>): seq<string> {
    seq(|heard|, i requires 0 <= i < |heard| => heard[i].content)
  }

  function Reasonings(heard: seq<Choice>): seq<string> {
    seq(|heard|, i requires 0 <= i < |heard| => heard[i].reasoning)
  }

  function FragmentLists(heard: seq<Choice>): seq<seq<ToolCall>> {
    seq(|heard|, i requires 0 <= i < |heard| => heard[i].fragments)
  }

  /** The text, the reasoning and the fragments are those of the choices, in order. */
  lemma {:induction false} HeardInOrder(heard: seq<Choice>)
    ensures Text(heard) == Flatten(Contents(heard)) && Reasoning(heard) == Flatten(Reasonings(heard))
    ensures Fragments(heard) == Flatten(FragmentLists(heard))
  {
    if heard != [] {
      var n := |heard| - 1;
      HeardInOrder(heard[..n]);
      FlattenAppend(Contents(heard[..n]), heard[n].content);
      FlattenAppend(Reasonings(heard[..n]), heard[n].reasoning);
      FlattenAppend(FragmentLists(heard[..n]), heard[n].fragments);
      assert Contents(heard) == Contents(heard[..n]) + [heard[n].content];
      assert Reasonings(heard) == Reasonings(heard[..n]) + [heard[n].reasoning];
      assert FragmentLists(heard) == FragmentLists(heard[..n]) + [heard[n].fragments];
    }
  }

  /** A choice is relayed as its reasoning, then its content; empty ones are not. */
  lemma RelayedInOrder(c: Choice)
    ensures c.reasoning != "" && c.content != "" ==> RelayedOne(c) == [Thinking(c.reasoning), Delta(c.content)]
    ensures c.reasoning != "" && c.content == "" ==> RelayedOne(c) == [Thinking(c.reasoning)]
    ensures c.reasoning == "" && c.content != "" ==> RelayedOne(c) == [Delta(c.content)]
    ensures c.reasoning == "" && c.content == "" ==> RelayedOne(c) == []
  {
  }

  function RelayedEach(heard: seq<Choice>): seq<seq<Event>> {
    seq(|heard|, i requires 0 <= i < |heard| => RelayedOne(heard[i]))
  }

  lemma {:induction false} RelayedChoiceByChoice(heard: seq<Choice>)
    ensures Relayed(heard) == Flatten(RelayedEach(heard))
  {
    if heard != [] {
      var n := |heard| - 1;
      RelayedChoiceByChoice(heard[..n]);
      FlattenAppend(RelayedEach(heard[..n]), RelayedOne(heard[n]));
      assert RelayedEach(heard) == RelayedEach(heard[..n]) + [RelayedOne(heard[n])];
    }
  }

  // -- Sorting --------------------------------------------------------------

  ghost predicate Increasing(s: seq<int>) {
    forall i, j :: 0 <= i < j < |s| ==> s[i] < s[j]
  }

  lemma {:induction false} InsertKeepsIncreasing(x: int, s: seq<int>)
    requires Increasing(s) && x !in s
    ensures Increasing(InsertSorted(x, s)) && forall y :: y in InsertSorted(x, s) <==> y == x || y in s
  {
    if s != [] && x > s[0] {
      InsertKeepsIncreasing(x, s[1..]);
      var t := InsertSorted(x, s[1..]);
      assert forall y :: y in s <==> y == s[0] || y in s[1..];
      assert forall y :: y in [s[0]] + t <==> y == s[0] || y in t;
      forall k | 0 <= k < |t| ensures s[0] < t[k] { assert t[k] in t; }
    }
  }

  lemma {:induction false} SortedIndexes(s: seq<int>)
    requires Distinct(s)
    ensures Increasing(SortInts(s)) && forall y :: y in SortInts(s) <==> y in s
  {
    if s != [] {
      SortedIndexes(s[1..]);
      InsertKeepsIncreasing(s[0], SortInts(s[1..]));
    }
  }

  // -- What the client sees -------------------------------------------------

  function ThinkingOf(events: seq<Event>): string {
    if events == [] then ""
    else ThinkingOf(events[..|events| - 1]) + if events[|events| - 1].Thinking? then events[|events| - 1].content else ""
  }

  function DeltasOf(events: seq<Event>): string {
    if events == [] then ""
    else DeltasOf(events[..|events| - 1]) + if events[|events| - 1].Delta? then events[|events| - 1].content else ""
  }

  lemma EventSnoc(events: seq<Event>, e: Event)
    ensures ThinkingOf(events + [e]) == ThinkingOf(events) + if e.Thinking? then e.content else ""
    ensures DeltasOf(events + [e]) == DeltasOf(events) + if e.Delta? then e.content else ""
  {
    assert (events + [e])[..|events|] == events;
  }

  lemma RelayedOneReads(events: seq<Event>, c: Choice)
    ensures DeltasOf(events + RelayedOne(c)) == DeltasOf(events) + c.content
    ensures ThinkingOf(events + RelayedOne(c)) == ThinkingOf(events) + c.reasoning
  {
    var thought := if c.reasoning != "" then events + [Thinking(c.reasoning)] else events;
    if c.reasoning != "" { EventSnoc(events, Thinking(c.reasoning)); }
    if c.content != "" { EventSnoc(thought, Delta(c.content)); }
    assert events + RelayedOne(c) == if c.content != "" then thought + [Delta(c.content)] else thought;
  }

  /** The client sees exactly the text and the reasoning that the turn keeps. */
  lemma {:induction false} RelayedIsWhatWasRead(heard: seq<Choice>)
    ensures DeltasOf(Relayed(heard)) == Text(heard) && ThinkingOf(Relayed(heard)) == Reasoning(heard)
    ensures forall e <- Relayed(heard) :: e.Thinking? || e.Delta?
  {
    if heard != [] {
      var init, c := heard[..|heard| - 1], heard[|heard| - 1];
      RelayedIsWhatWasRead(init);
      RelayedOneReads(Relayed(init), c);
    }
  }
}

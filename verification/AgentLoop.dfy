/** One chat turn of the assistant: the bounded loop of model rounds and tool calls
    (runRounds, finalAnswer and executeTool in ai/agent.go) and the choice of the
    terminal event (chat in ai/handler.go). */
module AgentLoop {
  import opened Common
  import opened ToolCalls

  const MAX_ROUNDS := 7
  const FINAL_ROUND_NOTE := "The tool budget is used up; answer from the results above."

  // -- The program ----------------------------------------------------------

  datatype Message =
    | Plain(role: string, content: string)
    | AssistantCalls(reasoning: string, calls: seq<ToolCall>)
    | ToolResult(callId: string, content: string)

  datatype Request = Request(msgs: seq<Message>, tools: bool)

  datatype Reply = Opened(arrivals: seq<Arrival>) | NotOpened(failure: Failure)

  /** What running a tool comes to. The result is the text after its byte cap. */
  datatype Ran = Ran(result: string, ok: bool, proposal: bool) | Broke(cancelled: bool)

  /** The answers of everything outside: the upstream to the n-th request, a tool to
      the call at a position of a round, and the permission gate. */
  datatype World = World(
    upstream: nat -> Reply,
    tool: (nat, nat, ToolCall) -> Ran,
    permitted: string -> bool,
    denial: string -> string)

  /** What the model said in a round with tool calls. */
  datatype Exchange = Exchange(reasoning: string, calls: seq<ToolCall>)

  datatype Answered = Answered(content: string, proposal: bool) | Stuck(failure: Failure)

  datatype ChatOutcome = Silent | PlainError(failure: Failure) | Streamed

  class Turn {
    const world: World
    const sink: EventSink
    var requests: seq<Request>

    constructor (world: World)
      ensures this.world == world && requests == [] && fresh(sink) && sink.events == []
    {
      this.world := world;
      sink := new EventSink();
      requests := [];
    }

    method StreamRequest(msgs: seq<Message>, tools: bool) returns (reply: Reply)
      modifies this
      ensures requests == old(requests) + [Request(msgs, tools)] && reply == ReplyTo(world, |old(requests)|)
    {
      reply := ReplyTo(world, |requests|);
      requests := requests + [Request(msgs, tools)];
    }

    method ExecuteTool(round: nat, position: nat, call: ToolCall) returns (r: Answered)
      modifies sink
      ensures sink.events == old(sink.events) + ToolEvents(world, round, position, call)
      ensures r == ToolAnswer(world, round, position, call)
      ensures !world.permitted(call.name) ==>
                && r == Answered(world.denial(call.name), false)
                && sink.events == old(sink.events) + [Tool(call.id, call.name, Failed)]
      ensures world.permitted(call.name) ==>
                match world.tool(round, position, call)
                case Broke(cancelled) =>
                  r == Stuck(ToolBroke(cancelled)) && sink.events == old(sink.events) + [Tool(call.id, call.name, Running)]
                case Ran(result, ok, proposal) =>
                  r == Answered(result, proposal)
                  && sink.events == old(sink.events) + [Tool(call.id, call.name, Running),
                                                        Tool(call.id, call.name, if ok then Succeeded else Failed)]
    {
      if !world.permitted(call.name) {
        sink.Emit(Tool(call.id, call.name, Failed));
        return Answered(world.denial(call.name), false);
      }
      sink.Emit(Tool(call.id, call.name, Running));
      var ran := world.tool(round, position, call);
      match ran {
        case Broke(cancelled) => return Stuck(ToolBroke(cancelled));
        case Ran(result, ok, proposal) =>
          var status := Succeeded;
          if !ok { status := Failed; }
          sink.Emit(Tool(call.id, call.name, status));
          return Answered(result, proposal);
      }
    }

    /** None stands for a nil error. The first stream is already open. The log records
        what the model said in each round whose calls were all answered, and `stuck` are
        the calls of the round that ended the turn, if they did. */
    method RunRounds(msgs0: seq<Message>, first: seq<Arrival>)
      returns (r: Option<Failure>, ghost log: seq<Exchange>, ghost stuck: seq<ToolCall>)
      requires requests == [Request(msgs0, true)]
      modifies this, sink
      ensures Turned(world, first, msgs0, log, stuck, requests, r)
      ensures sink.events == old(sink.events) + TurnEvents(world, first, log, stuck)
    {
      var msgs, arrivals, toolRounds := msgs0, first, 0;
      ghost var before := sink.events;
      log := [];
      while true
        invariant toolRounds == |log| < MAX_ROUNDS && |requests| == toolRounds + 1
        invariant Recorded(world, first, msgs0, log, requests) && msgs == Grown(world, msgs0, log)
        invariant arrivals == StreamOf(world, first, toolRounds) && Answering(world, toolRounds)
        invariant sink.events == before + LogEvents(world, first, log)
        decreases MAX_ROUNDS - toolRounds
      {
        ghost var x;
        var over;
        over, r, msgs, x := OneRound(toolRounds, first, msgs, arrivals);
        stuck := x.calls;
        EmittedSoFar(before, world, first, log, x);
        if over { return; }
        log := LogRound(world, first, msgs0, log, x, requests);
        toolRounds, stuck := toolRounds + 1, [];
        over, r, arrivals := AskAgain(toolRounds, first, msgs0, log, msgs);
        Associative(before, LogEvents(world, first, log), TailEvents(world, first, |log|, []));
        if over { return; }
      }
    }

    /** The request after a round with calls: the next one, or the last. */
    method AskAgain(k: nat, ghost first: seq<Arrival>, ghost msgs0: seq<Message>, ghost log: seq<Exchange>, msgs: seq<Message>)
      returns (over: bool, r: Option<Failure>, arrivals: seq<Arrival>)
      requires 0 < k == |log| == |requests| <= MAX_ROUNDS && msgs == Grown(world, msgs0, log)
      modifies this, sink
      ensures requests == old(requests) + [RequestAfter(world, msgs0, log)]
      ensures over <==> k == MAX_ROUNDS || ReplyTo(world, k).NotOpened?
      ensures over ==> EndsWith(world, first, k, [], r) && sink.events == old(sink.events) + TailEvents(world, first, k, [])
      ensures !over ==> arrivals == StreamOf(world, first, k) && sink.events == old(sink.events)
    {
      over, r, arrivals := true, None, [];
      if k >= MAX_ROUNDS {
        r := FinalAnswer(msgs);
        return;
      }
      var reply := StreamRequest(msgs, true);
      if reply.NotOpened? { return true, Some(reply.failure), []; }
      return false, None, reply.arrivals;
    }

    /** One round: its stream and, unless the turn is over, its calls. */
    method OneRound(k: nat, ghost first: seq<Arrival>, asked: seq<Message>, arrivals: seq<Arrival>)
      returns (over: bool, r: Option<Failure>, msgs: seq<Message>, ghost x: Exchange)
      requires k < MAX_ROUNDS && Answering(world, k) && arrivals == StreamOf(world, first, k)
      modifies sink
      ensures sink.events == old(sink.events) + RoundEvents(world, k, arrivals, x.calls)
      ensures over ==> EndsWith(world, first, k, x.calls, r)
      ensures !over ==> Said(arrivals, x) && NoneBreaks(world, k, x.calls) && msgs == asked + Told(world, k, x)
    {
      ghost var before := sink.events;
      var round := ReadRound(arrivals);
      msgs, r := asked, None;
      x := Exchange("", []);
      RoundInTwoParts(before, world, k, arrivals, []);
      if round.Broken? { return true, Some(round.failure), msgs, x; }
      if round.calls == [] {
        sink.Emit(Done);
        return true, None, msgs, x;
      }
      x := Exchange(round.reasoning, round.calls);
      msgs, r := RunCalls(k, round, asked);
      over := r.Some?;
      RoundInTwoParts(before, world, k, arrivals, x.calls);
    }

    method ReadRound(arrivals: seq<Arrival>) returns (r: Round)
      modifies sink
      ensures sink.events == old(sink.events) + Relayed(Heard(arrivals))
      ensures r.Round? && r.calls != [] ==> Said(arrivals, Exchange(r.reasoning, r.calls))
      ensures r.Round? <==> Ending(arrivals) == Eof
      ensures r.Broken? ==> r.failure == Verdict(Ending(arrivals))
      ensures r.Round? ==> r.text == Text(Heard(arrivals)) && (r.calls == [] <==> Fragments(Heard(arrivals)) == [])
    {
      r := ConsumeStream(arrivals, sink);
      if r.Round? { CallsIffFragments(Fragments(Heard(arrivals)), r.calls); }
    }

    /** Echoes the calls of a round and answers them in order; a broken tool ends the
        turn. */
    method RunCalls(k: nat, round: Round, asked: seq<Message>) returns (msgs: seq<Message>, failure: Option<Failure>)
      requires round.Round?
      modifies sink
      ensures sink.events == old(sink.events) + Flatten(CallEvents(world, k, round.calls)[..CallsRun(world, k, round.calls, 0)])
      ensures failure.None? ==>
                NoneBreaks(world, k, round.calls) && msgs == asked + Told(world, k, Exchange(round.reasoning, round.calls))
      ensures failure.Some? ==> ToolBreaks(world, k, round.calls, failure.value)
    {
      var calls := round.calls;
      msgs, failure := asked + [AssistantCalls(round.reasoning, calls)], None;
      ghost var said, each, before := msgs, CallEvents(world, k, calls), sink.events;
      for j := 0 to |calls|
        invariant msgs == said + Answers(world, k, calls)[..j]
        invariant sink.events == before + Flatten(each[..j])
        invariant CallsRun(world, k, calls, 0) == CallsRun(world, k, calls, j)
        invariant forall i :: 0 <= i < j ==> ToolAnswer(world, k, i, calls[i]).Answered?
      {
        FlattenOneMore(before, each, j);
        var answer := CallOne(k, j, calls[j]);
        if answer.Stuck? { return msgs, Some(answer.failure); }
        TakeOneMore(said, Answers(world, k, calls), j);
        msgs := msgs + [ToolResult(calls[j].id, answer.content)];
      }
      assert Answers(world, k, calls)[..|calls|] == Answers(world, k, calls);
      assert CallsRun(world, k, calls, |calls|) == |calls|;
      Associative(asked, [AssistantCalls(round.reasoning, calls)], Answers(world, k, calls));
    }

    method CallOne(k: nat, j: nat, call: ToolCall) returns (answer: Answered)
      modifies sink
      ensures answer == ToolAnswer(world, k, j, call)
      ensures sink.events == old(sink.events) + OneCallEvents(world, k, j, call)
    {
      answer := ExecuteTool(k, j, call);
      if answer.Answered? && answer.proposal { sink.Emit(Proposal); }
    }

    method FinalAnswer(msgs: seq<Message>) returns (r: Option<Failure>)
      modifies this, sink
      ensures requests == old(requests) + [Request(msgs + [Plain("user", FINAL_ROUND_NOTE)], false)]
      ensures r == LastVerdict(ReplyTo(world, |old(requests)|))
      ensures sink.events == old(sink.events) + LastEvents(ReplyTo(world, |old(requests)|))
    {
      var reply := StreamRequest(msgs + [Plain("user", FINAL_ROUND_NOTE)], false);
      if reply.NotOpened? { return Some(reply.failure); }
      var round := ReadRound(reply.arrivals);
      if round.Broken? { return Some(round.failure); }
      if round.text == "" && |round.calls| > 0 { return Some(TooManySteps); }
      sink.Emit(Done);
      return None;
    }

    /** chat, from its preflight request on. */
    method Chat(msgs: seq<Message>, contextEnded: bool, clientGone: bool)
      returns (outcome: ChatOutcome, ghost log: seq<Exchange>, ghost stuck: seq<ToolCall>, ghost failure: Option<Failure>)
      requires requests == [] && sink.events == []
      modifies this, sink
      ensures outcome == Streamed ==>
                ReplyTo(world, 0).Opened? && Turned(world, ReplyTo(world, 0).arrivals, msgs, log, stuck, requests, failure)
      ensures outcome == Streamed ==>
                sink.events == TurnEvents(world, ReplyTo(world, 0).arrivals, log, stuck)
                               + if failure.None? || (failure.value in {Cancelled, ToolBroke(true)} && clientGone) then [] else [Error(failure.value)]
      ensures outcome == Streamed ==>
                if failure.None? then Finished(sink.events)
                else if failure.value in {Cancelled, ToolBroke(true)} && clientGone then Unfinished(sink.events)
                else EndsInError(sink.events, failure.value)
      ensures outcome != Streamed ==>
                sink.events == [] && |requests| == 1 && ReplyTo(world, 0).NotOpened?
                && outcome == if contextEnded then Silent else PlainError(ReplyTo(world, 0).failure)
    {
      var reply := StreamRequest(msgs, true);
      if reply.NotOpened? {
        if contextEnded { return Silent, [], [], None; }
        return PlainError(reply.failure), [], [], None;
      }
      outcome := Streamed;
      var err;
      err, log, stuck := RunRounds(msgs, reply.arrivals);
      failure := err;
      TurnIsTerminated(world, reply.arrivals, msgs, log, stuck, requests, err);
      assert sink.events == TurnEvents(world, reply.arrivals, log, stuck);
      Report(err, clientGone);
    }

    /** The terminal event of a failed turn. */
    method Report(err: Option<Failure>, clientGone: bool)
      requires if err.None? then Finished(sink.events) else Unfinished(sink.events)
      modifies sink
      ensures sink.events == old(sink.events) + if err.None? || (IsCancelled(err.value) && clientGone) then [] else [Error(err.value)]
      ensures if err.None? then Finished(sink.events)
              else if IsCancelled(err.value) && clientGone then Unfinished(sink.events)
              else EndsInError(sink.events, err.value)
    {
      if err.Some? {
        if IsCancelled(err.value) && clientGone { return; }
        ErrorIsLast(sink.events, err.value);
        sink.Emit(Error(err.value));
      }
    }
  }

  predicate IsCancelled(f: Failure) {
    f == Cancelled || f == ToolBroke(true)
  }

  // -- What the operations come to ------------------------------------------

  function ToolEvents(w: World, round: nat, position: nat, call: ToolCall): seq<Event> {
    if !w.permitted(call.name) then [Tool(call.id, call.name, Failed)]
    else
      [Tool(call.id, call.name, Running)]
      + match w.tool(round, position, call)
        case Broke(_) => []
        case Ran(_, ok, _) => [Tool(call.id, call.name, if ok then Succeeded else Failed)]
  }

  function ToolAnswer(w: World, round: nat, position: nat, call: ToolCall): Answered {
    if !w.permitted(call.name) then Answered(w.denial(call.name), false)
    else
      match w.tool(round, position, call)
      case Broke(cancelled) => Stuck(ToolBroke(cancelled))
      case Ran(result, _, proposal) => Answered(result, proposal)
  }

  /** The events of a call: the tool's, and a proposal if it made one. */
  function OneCallEvents(w: World, round: nat, position: nat, call: ToolCall): seq<Event> {
    var a := ToolAnswer(w, round, position, call);
    ToolEvents(w, round, position, call) + if a.Answered? && a.proposal then [Proposal] else []
  }

  function CallEvents(w: World, round: nat, calls: seq<ToolCall>): seq<seq<Event>> {
    seq(|calls|, j requires 0 <= j < |calls| => OneCallEvents(w, round, j, calls[j]))
  }

  /** How many calls of a round are run, from j on: a tool that breaks is the last. */
  function CallsRun(w: World, round: nat, calls: seq<ToolCall>, j: nat): (n: nat)
    requires j <= |calls|
    ensures j <= n <= |calls|
    decreases |calls| - j
  {
    if j == |calls| then j
    else if ToolAnswer(w, round, j, calls[j]).Stuck? then j + 1
    else CallsRun(w, round, calls, j + 1)
  }

  /** The events of a round: what its stream brought, then `done` or those of its calls. */
  function RoundEvents(w: World, k: nat, arrivals: seq<Arrival>, calls: seq<ToolCall>): seq<Event> {
    Relayed(Heard(arrivals)) + AfterStream(w, k, arrivals, calls)
  }

  function AfterStream(w: World, k: nat, arrivals: seq<Arrival>, calls: seq<ToolCall>): seq<Event> {
    if Ending(arrivals) != Eof then []
    else if calls == [] then [Done]
    else Flatten(CallEvents(w, k, calls)[..CallsRun(w, k, calls, 0)])
  }

  lemma RoundInTwoParts(before: seq<Event>, w: World, k: nat, arrivals: seq<Arrival>, calls: seq<ToolCall>)
    ensures before + RoundEvents(w, k, arrivals, calls) == (before + Relayed(Heard(arrivals))) + AfterStream(w, k, arrivals, calls)
  {
    Associative(before, Relayed(Heard(arrivals)), AfterStream(w, k, arrivals, calls));
  }

  function LogEvents(w: World, first: seq<Arrival>, log: seq<Exchange>): seq<Event> {
    if log == [] then []
    else
      var n := |log| - 1;
      LogEvents(w, first, log[..n]) + RoundEvents(w, n, StreamOf(w, first, n), log[n].calls)
  }

  /** The events of the final request. */
  function LastEvents(reply: Reply): seq<Event> {
    match reply
    case NotOpened(_) => []
    case Opened(arrivals) => Relayed(Heard(arrivals)) + if LastVerdict(reply).None? then [Done] else []
  }

  /** What a turn emits after its whole exchanges. */
  function TailEvents(w: World, first: seq<Arrival>, k: nat, stuck: seq<ToolCall>): seq<Event> {
    if k >= MAX_ROUNDS then LastEvents(ReplyTo(w, k))
    else if !Answering(w, k) then []
    else RoundEvents(w, k, StreamOf(w, first, k), stuck)
  }

  /** Everything a turn emits. */
  function TurnEvents(w: World, first: seq<Arrival>, log: seq<Exchange>, stuck: seq<ToolCall>): seq<Event> {
    LogEvents(w, first, log) + TailEvents(w, first, |log|, stuck)
  }

  lemma EmittedSoFar(before: seq<Event>, w: World, first: seq<Arrival>, log: seq<Exchange>, x: Exchange)
    requires |log| < MAX_ROUNDS && Answering(w, |log|)
    ensures var round := RoundEvents(w, |log|, StreamOf(w, first, |log|), x.calls);
            && before + LogEvents(w, first, log + [x]) == (before + LogEvents(w, first, log)) + round
            && before + TurnEvents(w, first, log, x.calls) == (before + LogEvents(w, first, log)) + round
  {
    assert (log + [x])[..|log|] == log;
    Associative(before, LogEvents(w, first, log), RoundEvents(w, |log|, StreamOf(w, first, |log|), x.calls));
  }

  ghost predicate NoneBreaks(w: World, round: nat, calls: seq<ToolCall>) {
    forall i :: 0 <= i < |calls| ==> ToolAnswer(w, round, i, calls[i]).Answered?
  }

  /** One tool message per call, in the order of the calls. */
  function Answers(w: World, round: nat, calls: seq<ToolCall>): seq<Message> {
    seq(|calls|, j requires 0 <= j < |calls| =>
      var a := ToolAnswer(w, round, j, calls[j]);
      ToolResult(calls[j].id, if a.Answered? then a.content else ""))
  }

  function ReplyTo(w: World, k: nat): Reply {
    w.upstream(k)
  }

  function StreamOf(w: World, first: seq<Arrival>, k: nat): seq<Arrival> {
    if k == 0 then first else match ReplyTo(w, k) case Opened(arrivals) => arrivals case NotOpened(_) => []
  }

  /** The exchange holds what the stream brought: its reasoning and all its calls. */
  ghost predicate Said(arrivals: seq<Arrival>, x: Exchange) {
    var heard := Heard(arrivals);
    Ending(arrivals) == Eof && x.calls != [] && x.reasoning == Reasoning(heard) && ListsCalls(x.calls, Merged(Fragments(heard)))
  }

  /** The messages of one exchange: the calls, then their answers. */
  function Told(w: World, round: nat, x: Exchange): seq<Message> {
    [AssistantCalls(x.reasoning, x.calls)] + Answers(w, round, x.calls)
  }

  /** The transcript after some exchanges. */
  function Grown(w: World, msgs0: seq<Message>, log: seq<Exchange>): seq<Message> {
    if log == [] then msgs0
    else
      var n := |log| - 1;
      Grown(w, msgs0, log[..n]) + Told(w, n, log[n])
  }

  /** The request after some exchanges: only the one after the last round goes out
      without tools, and with the note. */
  function RequestAfter(w: World, msgs0: seq<Message>, log: seq<Exchange>): Request {
    if |log| < MAX_ROUNDS then Request(Grown(w, msgs0, log), true)
    else Request(Grown(w, msgs0, log) + [Plain("user", FINAL_ROUND_NOTE)], false)
  }

  /** All requests up to the one after the exchanges. */
  function Transcript(w: World, msgs0: seq<Message>, log: seq<Exchange>): seq<Request> {
    (if log == [] then [] else Transcript(w, msgs0, log[..|log| - 1])) + [RequestAfter(w, msgs0, log)]
  }

  /** Every exchange holds what its stream brought, and its calls were all answered. */
  ghost predicate AllSaid(w: World, first: seq<Arrival>, log: seq<Exchange>) {
    log == []
    || (var n := |log| - 1;
        AllSaid(w, first, log[..n]) && Said(StreamOf(w, first, n), log[n]) && NoneBreaks(w, n, log[n].calls))
  }

  /** The requests follow from what the model said, and it said it in its streams. */
  ghost predicate Recorded(w: World, first: seq<Arrival>, msgs0: seq<Message>, log: seq<Exchange>, requests: seq<Request>) {
    requests == Transcript(w, msgs0, log) && AllSaid(w, first, log)
  }

  lemma LogRound(w: World, first: seq<Arrival>, msgs0: seq<Message>, log: seq<Exchange>, x: Exchange, requests: seq<Request>)
    returns (longer: seq<Exchange>)
    requires Recorded(w, first, msgs0, log, requests) && Said(StreamOf(w, first, |log|), x) && NoneBreaks(w, |log|, x.calls)
    ensures longer == log + [x]
    ensures |longer| == |log| + 1 && Recorded(w, first, msgs0, longer, requests + [RequestAfter(w, msgs0, longer)])
    ensures Grown(w, msgs0, longer) == Grown(w, msgs0, log) + Told(w, |log|, x)
  {
    longer := log + [x];
    GrownSnoc(w, msgs0, log, x);
    assert longer[..|log|] == log;
  }

  lemma GrownSnoc(w: World, msgs0: seq<Message>, log: seq<Exchange>, x: Exchange)
    ensures Grown(w, msgs0, log + [x]) == Grown(w, msgs0, log) + Told(w, |log|, x)
    ensures Transcript(w, msgs0, log + [x]) == Transcript(w, msgs0, log) + [RequestAfter(w, msgs0, log + [x])]
  {
    assert (log + [x])[..|log|] == log;
  }

  /** The upstream answers the request after k exchanges. */
  predicate Answering(w: World, k: nat) {
    k == 0 || ReplyTo(w, k).Opened?
  }

  /** The final request succeeds if its stream ends properly with some text, or
      without calls. */
  function LastVerdict(reply: Reply): Option<Failure> {
    match reply
    case NotOpened(failure) => Some(failure)
    case Opened(arrivals) =>
      if Ending(arrivals) != Eof then Some(Verdict(Ending(arrivals)))
      else if Text(Heard(arrivals)) == "" && Fragments(Heard(arrivals)) != [] then Some(TooManySteps)
      else None
  }

  /** The first call of a round whose tool breaks ends the turn. */
  ghost predicate ToolBreaks(w: World, round: nat, calls: seq<ToolCall>, f: Failure) {
    exists j :: 0 <= j < |calls| && ToolAnswer(w, round, j, calls[j]) == Stuck(f)
                && forall i :: 0 <= i < j ==> ToolAnswer(w, round, i, calls[i]).Answered?
  }

  /** How a turn ends after k exchanges, and why; `stuck` are the calls of a round in
      which a tool broke. */
  ghost predicate EndsWith(w: World, first: seq<Arrival>, k: nat, stuck: seq<ToolCall>, r: Option<Failure>) {
    if k >= MAX_ROUNDS then stuck == [] && r == LastVerdict(ReplyTo(w, k))
    else if !Answering(w, k) then stuck == [] && r == Some(ReplyTo(w, k).failure)
    else
      var arrivals := StreamOf(w, first, k);
      if Ending(arrivals) != Eof then stuck == [] && r == Some(Verdict(Ending(arrivals)))
      else if Fragments(Heard(arrivals)) == [] then stuck == [] && r == None
      else stuck != [] && ListsCalls(stuck, Merged(Fragments(Heard(arrivals)))) && r.Some? && ToolBreaks(w, k, stuck, r.value)
  }

  /** A whole turn: its requests and how it ended. */
  ghost predicate Turned(w: World, first: seq<Arrival>, msgs0: seq<Message>, log: seq<Exchange>, stuck: seq<ToolCall>,
                         requests: seq<Request>, r: Option<Failure>)
  {
    |log| <= MAX_ROUNDS && Recorded(w, first, msgs0, log, requests) && EndsWith(w, first, |log|, stuck, r)
  }

  lemma {:induction false} CallsIffFragments(fragments: seq<ToolCall>, calls: seq<ToolCall>)
    requires ListsCalls(calls, Merged(fragments))
    ensures calls == [] <==> fragments == []
  {
    if fragments != [] {
      assert fragments[|fragments| - 1].index in Merged(fragments);
    }
    assert calls != [] ==> calls[0].index in Merged(fragments);
  }

  // -- Events ---------------------------------------------------------------

  predicate IsTerminal(e: Event) {
    e.Done? || e.Error?
  }

  ghost predicate Unfinished(events: seq<Event>) {
    forall e <- events :: !IsTerminal(e)
  }

  /** Exactly one `done`, and it is last. */
  ghost predicate Finished(events: seq<Event>) {
    events != [] && events[|events| - 1] == Done && Unfinished(events[..|events| - 1])
  }

  lemma UnfinishedConcat(a: seq<Event>, b: seq<Event>)
    requires Unfinished(a) && Unfinished(b)
    ensures Unfinished(a + b)
  {
  }

  lemma {:induction false} UnfinishedFlatten(each: seq<seq<Event>>)
    requires forall i :: 0 <= i < |each| ==> Unfinished(each[i])
    ensures Unfinished(Flatten(each))
  {
    if each != [] {
      UnfinishedFlatten(each[1..]);
      UnfinishedConcat(each[0], Flatten(each[1..]));
    }
  }

  lemma RelayedIsUnfinished(heard: seq<Choice>)
    ensures Unfinished(Relayed(heard))
  {
    RelayedIsWhatWasRead(heard);
  }

  lemma CallsAreUnfinished(w: World, k: nat, calls: seq<ToolCall>, n: nat)
    requires n <= |calls|
    ensures Unfinished(Flatten(CallEvents(w, k, calls)[..n]))
  {
    UnfinishedFlatten(CallEvents(w, k, calls)[..n]);
  }

  lemma RoundIsUnfinished(w: World, k: nat, arrivals: seq<Arrival>, calls: seq<ToolCall>)
    requires Ending(arrivals) == Eof ==> calls != []
    ensures Unfinished(RoundEvents(w, k, arrivals, calls))
  {
    RelayedIsUnfinished(Heard(arrivals));
    CallsAreUnfinished(w, k, calls, CallsRun(w, k, calls, 0));
    UnfinishedConcat(Relayed(Heard(arrivals)), AfterStream(w, k, arrivals, calls));
  }

  lemma {:induction false} LogIsUnfinished(w: World, first: seq<Arrival>, log: seq<Exchange>)
    requires AllSaid(w, first, log)
    ensures Unfinished(LogEvents(w, first, log))
  {
    if log != [] {
      var n := |log| - 1;
      LogIsUnfinished(w, first, log[..n]);
      RoundIsUnfinished(w, n, StreamOf(w, first, n), log[n].calls);
      UnfinishedConcat(LogEvents(w, first, log[..n]), RoundEvents(w, n, StreamOf(w, first, n), log[n].calls));
    }
  }

  lemma DoneIsLast(events: seq<Event>)
    requires Unfinished(events)
    ensures Finished(events + [Done])
  {
    assert (events + [Done])[..|events|] == events;
  }

  lemma ErrorIsLast(events: seq<Event>, f: Failure)
    requires Unfinished(events)
    ensures EndsInError(events + [Error(f)], f)
  {
    assert (events + [Error(f)])[..|events|] == events;
  }

  /** The tail ends in `done` if the turn succeeds, and holds no terminal event if not. */
  lemma TailIsTerminated(w: World, first: seq<Arrival>, k: nat, stuck: seq<ToolCall>, r: Option<Failure>)
    requires EndsWith(w, first, k, stuck, r)
    ensures if r.None? then Finished(TailEvents(w, first, k, stuck)) else Unfinished(TailEvents(w, first, k, stuck))
  {
    if k >= MAX_ROUNDS {
      LastIsTerminated(ReplyTo(w, k));
    } else if Answering(w, k) {
      var arrivals := StreamOf(w, first, k);
      if r.None? {
        RelayedIsUnfinished(Heard(arrivals));
        DoneIsLast(Relayed(Heard(arrivals)));
      } else {
        RoundIsUnfinished(w, k, arrivals, stuck);
      }
    }
  }

  lemma LastIsTerminated(reply: Reply)
    ensures if LastVerdict(reply).None? then Finished(LastEvents(reply)) else Unfinished(LastEvents(reply))
  {
    if reply.Opened? {
      RelayedIsUnfinished(Heard(reply.arrivals));
      DoneIsLast(Relayed(Heard(reply.arrivals)));
      assert Relayed(Heard(reply.arrivals)) + [] == Relayed(Heard(reply.arrivals));
    }
  }

  lemma FinishedAfter(a: seq<Event>, b: seq<Event>)
    requires Unfinished(a) && Finished(b)
    ensures Finished(a + b)
  {
    assert (a + b)[..|a + b| - 1] == a + b[..|b| - 1];
    UnfinishedConcat(a, b[..|b| - 1]);
  }

  /** A whole turn emits one `done`, last, if it succeeds, and no terminal event if it
      fails. */
  lemma TurnIsTerminated(w: World, first: seq<Arrival>, msgs0: seq<Message>, log: seq<Exchange>, stuck: seq<ToolCall>,
                         requests: seq<Request>, r: Option<Failure>)
    requires Turned(w, first, msgs0, log, stuck, requests, r)
    ensures if r.None? then Finished(TurnEvents(w, first, log, stuck)) else Unfinished(TurnEvents(w, first, log, stuck))
  {
    LogIsUnfinished(w, first, log);
    TailIsTerminated(w, first, |log|, stuck, r);
    if r.None? {
      FinishedAfter(LogEvents(w, first, log), TailEvents(w, first, |log|, stuck));
    } else {
      UnfinishedConcat(LogEvents(w, first, log), TailEvents(w, first, |log|, stuck));
    }
  }

  /** Exactly one `error`, last, and no `done`. */
  ghost predicate EndsInError(events: seq<Event>, f: Failure) {
    events != [] && events[|events| - 1] == Error(f) && Unfinished(events[..|events| - 1])
  }

  // -- The transcript protocol ----------------------------------------------

  /** Every assistant message with tool calls is followed at once by one tool message
      per call, same ids, same order; and there are no other tool messages. */
  ghost predicate WellFormed(msgs: seq<Message>) {
    && (forall i :: 0 <= i < |msgs| && msgs[i].AssistantCalls? ==> RepliedTo(msgs, i))
    && (forall i :: 0 <= i < |msgs| && msgs[i].ToolResult? ==> exists a :: InBlock(msgs, a, i))
  }

  ghost predicate RepliedTo(msgs: seq<Message>, i: nat)
    requires i < |msgs| && msgs[i].AssistantCalls?
  {
    var calls := msgs[i].calls;
    calls != [] && i + |calls| < |msgs| && forall j :: 0 <= j < |calls| ==> IsAnswer(msgs[i + 1 + j], calls[j].id)
  }

  predicate IsAnswer(m: Message, id: string) {
    m.ToolResult? && m.callId == id
  }

  ghost predicate InBlock(msgs: seq<Message>, a: nat, i: nat) {
    a < i <= |msgs| && msgs[a].AssistantCalls? && i <= a + |msgs[a].calls|
  }

  ghost predicate NoCalls(msgs: seq<Message>) {
    forall m <- msgs :: m.Plain?
  }

  /** Where the messages of an exchange are once it is told. */
  lemma ToldAt(w: World, round: nat, msgs: seq<Message>, x: Exchange, i: nat)
    requires i < |msgs + Told(w, round, x)|
    ensures |msgs + Told(w, round, x)| == |msgs| + 1 + |x.calls|
    ensures i < |msgs| ==> (msgs + Told(w, round, x))[i] == msgs[i]
    ensures i == |msgs| ==> (msgs + Told(w, round, x))[i] == AssistantCalls(x.reasoning, x.calls)
    ensures i > |msgs| ==> IsAnswer((msgs + Told(w, round, x))[i], x.calls[i - |msgs| - 1].id)
  {
  }

  lemma EarlierAreRepliedTo(w: World, round: nat, msgs: seq<Message>, x: Exchange, i: nat)
    requires i < |msgs| && msgs[i].AssistantCalls? && RepliedTo(msgs, i)
    ensures var all := msgs + Told(w, round, x); all[i].AssistantCalls? && RepliedTo(all, i)
  {
    var all := msgs + Told(w, round, x);
    ToldAt(w, round, msgs, x, i);
    forall j | 0 <= j < |msgs[i].calls| ensures IsAnswer(all[i + 1 + j], msgs[i].calls[j].id) {
      ToldAt(w, round, msgs, x, i + 1 + j);
    }
  }

  lemma ToldIsRepliedTo(w: World, round: nat, msgs: seq<Message>, x: Exchange)
    requires x.calls != []
    ensures var all := msgs + Told(w, round, x);
            |msgs| < |all| && all[|msgs|].AssistantCalls? && RepliedTo(all, |msgs|)
  {
    var all := msgs + Told(w, round, x);
    ToldAt(w, round, msgs, x, |msgs|);
    forall j | 0 <= j < |x.calls| ensures IsAnswer(all[|msgs| + 1 + j], x.calls[j].id) {
      ToldAt(w, round, msgs, x, |msgs| + 1 + j);
    }
  }

  /** A finished transcript stays well formed when calls and all their answers are
      added. */
  lemma ExchangeKeepsWellFormed(w: World, round: nat, msgs: seq<Message>, x: Exchange)
    requires WellFormed(msgs) && x.calls != []
    ensures WellFormed(msgs + Told(w, round, x))
  {
    var a, all := |msgs|, msgs + Told(w, round, x);
    ToldIsRepliedTo(w, round, msgs, x);
    forall i | 0 <= i < |all| && all[i].AssistantCalls? ensures RepliedTo(all, i) {
      ToldAt(w, round, msgs, x, i);
      if i < a { EarlierAreRepliedTo(w, round, msgs, x, i); }
    }
    forall i | 0 <= i < |all| && all[i].ToolResult? ensures exists b :: InBlock(all, b, i) {
      ToldAt(w, round, msgs, x, i);
      if i < a {
        var b: nat :| InBlock(msgs, b, i);
        ToldAt(w, round, msgs, x, b);
        assert InBlock(all, b, i);
      } else {
        ToldAt(w, round, msgs, x, a);
        assert InBlock(all, a, i);
      }
    }
  }

  lemma {:induction false} GrownIsWellFormed(w: World, msgs0: seq<Message>, log: seq<Exchange>)
    requires NoCalls(msgs0) && forall x <- log :: x.calls != []
    ensures WellFormed(Grown(w, msgs0, log))
  {
    if log == [] {
      assert forall i :: 0 <= i < |msgs0| ==> msgs0[i] in msgs0;
    } else {
      var n := |log| - 1;
      GrownIsWellFormed(w, msgs0, log[..n]);
      ExchangeKeepsWellFormed(w, n, Grown(w, msgs0, log[..n]), log[n]);
    }
  }

  /** A turn sends one request more than it has exchanges, and request k asks with the
      transcript after k exchanges. */
  lemma {:induction false} RequestAt(w: World, msgs0: seq<Message>, log: seq<Exchange>, k: nat)
    requires k <= |log|
    ensures |Transcript(w, msgs0, log)| == |log| + 1
    ensures Transcript(w, msgs0, log)[k] == RequestAfter(w, msgs0, log[..k])
  {
    if k < |log| {
      RequestAt(w, msgs0, log[..|log| - 1], k);
      assert log[..|log| - 1][..k] == log[..k];
    } else {
      assert log[..k] == log;
      if log != [] { RequestAt(w, msgs0, log[..|log| - 1], 0); }
    }
  }

  lemma {:induction false} ExchangesHaveCalls(w: World, first: seq<Arrival>, log: seq<Exchange>)
    requires AllSaid(w, first, log)
    ensures forall x <- log :: x.calls != []
  {
    if log != [] { ExchangesHaveCalls(w, first, log[..|log| - 1]); }
  }

  /** A turn makes at most eight requests, only the eighth without tools; and if it starts without open calls, then in each request every
      assistant message with tool calls is followed at once by one tool message per
      call. */
  lemma RequestsAreWellFormed(w: World, first: seq<Arrival>, msgs0: seq<Message>, log: seq<Exchange>, requests: seq<Request>)
    requires Recorded(w, first, msgs0, log, requests) && |log| <= MAX_ROUNDS && NoCalls(msgs0)
    ensures |requests| <= 8
    ensures forall k :: 0 <= k < |requests| ==> WellFormed(requests[k].msgs) && (requests[k].tools <==> k < 7)
  {
    ExchangesHaveCalls(w, first, log);
    RequestAt(w, msgs0, log, 0);
    forall k | 0 <= k < |requests| ensures WellFormed(requests[k].msgs) && (requests[k].tools <==> k < 7) {
      RequestAt(w, msgs0, log, k);
      GrownIsWellFormed(w, msgs0, log[..k]);
      PlainKeepsWellFormed(Grown(w, msgs0, log[..k]), "user", FINAL_ROUND_NOTE);
    }
  }

  /** The transcript only grows: each request repeats the whole one before it. */
  lemma RequestsOnlyGrow(w: World, first: seq<Arrival>, msgs0: seq<Message>, log: seq<Exchange>, requests: seq<Request>, k: nat)
    requires Recorded(w, first, msgs0, log, requests) && |log| <= MAX_ROUNDS && 0 < k < |requests|
    ensures requests[k - 1].msgs < requests[k].msgs
  {
    RequestAt(w, msgs0, log, 0);
    RequestAt(w, msgs0, log, k - 1);
    RequestAt(w, msgs0, log, k);
    assert log[..k][..k - 1] == log[..k - 1];
  }

  lemma PlainKeepsWellFormed(msgs: seq<Message>, role: string, content: string)
    requires WellFormed(msgs)
    ensures WellFormed(msgs + [Plain(role, content)])
  {
    var all := msgs + [Plain(role, content)];
    forall i | 0 <= i < |all| && all[i].AssistantCalls? ensures RepliedTo(all, i) {
      assert RepliedTo(msgs, i);
      forall j | 0 <= j < |msgs[i].calls| ensures IsAnswer(all[i + 1 + j], msgs[i].calls[j].id) {
        assert IsAnswer(msgs[i + 1 + j], msgs[i].calls[j].id);
      }
    }
    forall i | 0 <= i < |all| && all[i].ToolResult? ensures exists b :: InBlock(all, b, i) {
      var b: nat :| InBlock(msgs, b, i);
      assert InBlock(all, b, i);
    }
  }
}

/** What a whole chat turn of the assistant comes to, in plain terms: what the model is
    told in each request, why the turn ends, and what the client sees. */
module AgentTurns {
  import opened Common
  import opened ToolCalls
  import opened AgentLoop

  // -- What the model is told -----------------------------------------------

  /** The message that answers a call: the result of its tool, or the denial. */
  ghost predicate Answers1(w: World, k: nat, j: nat, call: ToolCall, m: Message) {
    && (!w.permitted(call.name) ==> m == ToolResult(call.id, w.denial(call.name)))
    && (w.permitted(call.name) ==>
          match w.tool(k, j, call)
          case Ran(result, _, _) => m == ToolResult(call.id, result)
          case Broke(_) => false)
  }

  lemma AnswersCarryResults(w: World, k: nat, calls: seq<ToolCall>)
    requires NoneBreaks(w, k, calls)
    ensures |Answers(w, k, calls)| == |calls|
    ensures forall j :: 0 <= j < |calls| ==> Answers1(w, k, j, calls[j], Answers(w, k, calls)[j])
  {
    forall j | 0 <= j < |calls| ensures Answers1(w, k, j, calls[j], Answers(w, k, calls)[j]) {
      assert ToolAnswer(w, k, j, calls[j]).Answered?;
    }
  }

  /** From position `at` on, the messages are an assistant turn with this reasoning and
      these calls, and the answer to each call. */
  ghost predicate HoldsExchange(w: World, k: nat, msgs: seq<Message>, at: nat, x: Exchange) {
    && at + 1 + |x.calls| <= |msgs| && msgs[at] == AssistantCalls(x.reasoning, x.calls)
    && forall j :: 0 <= j < |x.calls| ==> Answers1(w, k, j, x.calls[j], msgs[at + 1 + j])
  }

  lemma ToldHoldsExchange(w: World, k: nat, msgs: seq<Message>, x: Exchange)
    requires NoneBreaks(w, k, x.calls)
    ensures HoldsExchange(w, k, msgs + Told(w, k, x), |msgs|, x)
  {
    var all, answers := msgs + Told(w, k, x), Answers(w, k, x.calls);
    AnswersCarryResults(w, k, x.calls);
    assert all == msgs + ([AssistantCalls(x.reasoning, x.calls)] + answers);
    forall i | |msgs| < i < |all| ensures all[i] == answers[i - |msgs| - 1] {}
  }

  lemma StillHeld(w: World, k: nat, msgs: seq<Message>, more: seq<Message>, at: nat, x: Exchange)
    requires HoldsExchange(w, k, msgs, at, x)
    ensures HoldsExchange(w, k, msgs + more, at, x)
  {
    var all := msgs + more;
    forall i | 0 <= i < |msgs| ensures all[i] == msgs[i] {}
  }

  lemma {:induction false} GrownHoldsExchange(w: World, first: seq<Arrival>, msgs0: seq<Message>, log: seq<Exchange>, k: nat)
    requires AllSaid(w, first, log) && k < |log|
    ensures HoldsExchange(w, k, Grown(w, msgs0, log), |Grown(w, msgs0, log[..k])|, log[k])
  {
    var n := |log| - 1;
    if k == n {
      ToldHoldsExchange(w, n, Grown(w, msgs0, log[..n]), log[n]);
    } else {
      GrownHoldsExchange(w, first, msgs0, log[..n], k);
      assert log[..n][..k] == log[..k];
      StillHeld(w, k, Grown(w, msgs0, log[..n]), Told(w, n, log[n]), |Grown(w, msgs0, log[..k])|, log[k]);
    }
  }

  lemma {:induction false} SaidInItsStream(w: World, first: seq<Arrival>, log: seq<Exchange>, k: nat)
    requires AllSaid(w, first, log) && k < |log|
    ensures Said(StreamOf(w, first, k), log[k])
  {
    if k < |log| - 1 {
      SaidInItsStream(w, first, log[..|log| - 1], k);
    }
  }

  /** Every request after round k repeats, right behind what the request of round k held,
      the model's reasoning and calls of that round as its stream brought them, and for
      each call the result of its tool, or the denial of one that is not permitted. */
  lemma LaterRequestsCarryResults(w: World, first: seq<Arrival>, msgs0: seq<Message>, log: seq<Exchange>, requests: seq<Request>,
                                  k: nat, m: nat)
    requires Recorded(w, first, msgs0, log, requests) && |log| <= 7 && k < m < |requests|
    ensures k < |log| && HoldsExchange(w, k, requests[m].msgs, |requests[k].msgs|, log[k])
    ensures var heard := Heard(if k == 0 then first else match w.upstream(k) case Opened(arrivals) => arrivals case NotOpened(_) => []);
            log[k].reasoning == Reasoning(heard) && log[k].calls != [] && ListsCalls(log[k].calls, Merged(Fragments(heard)))
  {
    RequestAt(w, msgs0, log, 0);
    RequestAt(w, msgs0, log, k);
    RequestAt(w, msgs0, log, m);
    SaidInItsStream(w, first, log, k);
    PartSaid(w, first, log, m);
    GrownHoldsExchange(w, first, msgs0, log[..m], k);
    assert log[..m][..k] == log[..k] && log[..m][k] == log[k];
    StillHeld(w, k, Grown(w, msgs0, log[..m]), [Plain("user", FINAL_ROUND_NOTE)], |Grown(w, msgs0, log[..k])|, log[k]);
  }

  lemma {:induction false} PartSaid(w: World, first: seq<Arrival>, log: seq<Exchange>, m: nat)
    requires AllSaid(w, first, log) && m <= |log|
    ensures AllSaid(w, first, log[..m])
  {
    if m < |log| {
      var n := |log| - 1;
      PartSaid(w, first, log[..n], m);
      assert log[..n][..m] == log[..m];
    } else {
      assert log[..m] == log;
    }
  }

  /** The first request is the one given; the eighth, if there is one, ends in the note
      and goes out without tools. */
  lemma FirstAndLastRequest(w: World, first: seq<Arrival>, msgs0: seq<Message>, log: seq<Exchange>, requests: seq<Request>)
    requires Recorded(w, first, msgs0, log, requests) && |log| <= 7
    ensures requests != [] && requests[0] == Request(msgs0, true) && |requests| == |log| + 1
    ensures |requests| == 8 ==>
              var last := requests[7].msgs;
              !requests[7].tools && last != [] && last[|last| - 1] == Plain("user", FINAL_ROUND_NOTE)
  {
    RequestAt(w, msgs0, log, 0);
    RequestAt(w, msgs0, log, |log|);
    assert log[..0] == [] && log[..|log|] == log;
  }

  // -- Why it ends ----------------------------------------------------------

  /** A turn whose seven rounds of calls are not used up ends with the refusal of its next
      request, with what broke its stream, with success if the stream ends without calls,
      or with the first tool that breaks. */
  lemma WhyItEnds(w: World, first: seq<Arrival>, msgs0: seq<Message>, log: seq<Exchange>, stuck: seq<ToolCall>,
                  requests: seq<Request>, r: Option<Failure>)
    requires Turned(w, first, msgs0, log, stuck, requests, r) && |log| < 7
    ensures |log| > 0 && w.upstream(|log|).NotOpened? ==> r == Some(w.upstream(|log|).failure)
    ensures |log| == 0 || w.upstream(|log|).Opened? ==>
              var arrivals := if |log| == 0 then first else w.upstream(|log|).arrivals;
              && (Ending(arrivals) != Eof ==> r == Some(Verdict(Ending(arrivals))))
              && (Ending(arrivals) == Eof ==> (r.None? <==> Fragments(Heard(arrivals)) == []))
              && (Ending(arrivals) == Eof && r.Some? ==> BreaksIn(w, |log|, stuck, r.value))
  {
    if |log| == 0 || w.upstream(|log|).Opened? {
      var arrivals := StreamOf(w, first, |log|);
      if Ending(arrivals) == Eof && r.Some? { BreakIsABreak(w, |log|, stuck, r.value); }
    }
  }

  /** The failure is that of a permitted call's tool, and the calls before it were
      answered. */
  ghost predicate BreaksIn(w: World, k: nat, calls: seq<ToolCall>, f: Failure) {
    exists j :: 0 <= j < |calls| && BrokeAt(w, k, j, calls[j], f) && forall i :: 0 <= i < j ==> !FailsToAnswer(w, k, i, calls[i])
  }

  predicate BrokeAt(w: World, k: nat, j: nat, call: ToolCall, f: Failure) {
    w.permitted(call.name) && w.tool(k, j, call).Broke? && f == ToolBroke(w.tool(k, j, call).cancelled)
  }

  predicate FailsToAnswer(w: World, k: nat, j: nat, call: ToolCall) {
    w.permitted(call.name) && w.tool(k, j, call).Broke?
  }

  lemma BreakIsABreak(w: World, k: nat, calls: seq<ToolCall>, f: Failure)
    requires ToolBreaks(w, k, calls, f)
    ensures BreaksIn(w, k, calls, f)
  {
    var j :| 0 <= j < |calls| && ToolAnswer(w, k, j, calls[j]) == Stuck(f)
             && forall i :: 0 <= i < j ==> ToolAnswer(w, k, i, calls[i]).Answered?;
    assert BrokeAt(w, k, j, calls[j], f);
    forall i | 0 <= i < j ensures !FailsToAnswer(w, k, i, calls[i]) {
      assert ToolAnswer(w, k, i, calls[i]).Answered?;
    }
  }

  /** With seven rounds used up the final request decides: it fails if it is refused, if
      its stream breaks, or if the model only asks for more calls. */
  lemma WhyAFullTurnEnds(w: World, first: seq<Arrival>, msgs0: seq<Message>, log: seq<Exchange>, stuck: seq<ToolCall>,
                         requests: seq<Request>, r: Option<Failure>)
    requires Turned(w, first, msgs0, log, stuck, requests, r) && |log| >= 7
    ensures |log| == 7
    ensures match w.upstream(7)
            case NotOpened(failure) => r == Some(failure)
            case Opened(arrivals) =>
              var heard := Heard(arrivals);
              && (Ending(arrivals) != Eof ==> r == Some(Verdict(Ending(arrivals))))
              && (Ending(arrivals) == Eof ==>
                    r == if Text(heard) == "" && Fragments(heard) != [] then Some(TooManySteps) else None)
  {
  }

  // -- What the client sees -------------------------------------------------

  /** A call that is not permitted is shown as failed and not run; one that runs is shown
      as running and then as succeeded or failed, followed by its proposal; one whose
      tool breaks is shown as running. */
  lemma CallIsShown(w: World, k: nat, j: nat, call: ToolCall)
    ensures !w.permitted(call.name) ==> OneCallEvents(w, k, j, call) == [Tool(call.id, call.name, Failed)]
    ensures w.permitted(call.name) ==>
              match w.tool(k, j, call)
              case Broke(_) => OneCallEvents(w, k, j, call) == [Tool(call.id, call.name, Running)]
              case Ran(_, ok, proposal) =>
                OneCallEvents(w, k, j, call)
                == [Tool(call.id, call.name, Running), Tool(call.id, call.name, if ok then Succeeded else Failed)]
                   + if proposal then [Proposal] else []
  {
  }

  lemma {:induction false} AllCallsRun(w: World, k: nat, calls: seq<ToolCall>, j: nat)
    requires NoneBreaks(w, k, calls) && j <= |calls|
    ensures CallsRun(w, k, calls, j) == |calls|
    decreases |calls| - j
  {
    if j < |calls| { AllCallsRun(w, k, calls, j + 1); }
  }

  /** The events of each answered round: the text and reasoning of its stream, then each
      call in order. */
  function RoundsShown(w: World, first: seq<Arrival>, log: seq<Exchange>): seq<seq<Event>> {
    seq(|log|, k requires 0 <= k < |log| => Relayed(Heard(StreamOf(w, first, k))) + Flatten(CallEvents(w, k, log[k].calls)))
  }

  lemma RoundIsShown(w: World, first: seq<Arrival>, k: nat, x: Exchange)
    requires Said(StreamOf(w, first, k), x) && NoneBreaks(w, k, x.calls)
    ensures RoundEvents(w, k, StreamOf(w, first, k), x.calls)
         == Relayed(Heard(StreamOf(w, first, k))) + Flatten(CallEvents(w, k, x.calls))
  {
    AllCallsRun(w, k, x.calls, 0);
    assert CallEvents(w, k, x.calls)[..|x.calls|] == CallEvents(w, k, x.calls);
  }

  lemma ShownSnoc(w: World, first: seq<Arrival>, log: seq<Exchange>)
    requires log != []
    ensures var n := |log| - 1;
            RoundsShown(w, first, log)
            == RoundsShown(w, first, log[..n]) + [Relayed(Heard(StreamOf(w, first, n))) + Flatten(CallEvents(w, n, log[n].calls))]
  {
  }

  lemma {:induction false} LogIsShownInOrder(w: World, first: seq<Arrival>, log: seq<Exchange>)
    requires AllSaid(w, first, log)
    ensures LogEvents(w, first, log) == Flatten(RoundsShown(w, first, log))
  {
    if log != [] {
      var n := |log| - 1;
      LogIsShownInOrder(w, first, log[..n]);
      RoundIsShown(w, first, n, log[n]);
      ShownSnoc(w, first, log);
      FlattenAppend(RoundsShown(w, first, log[..n]), RoundEvents(w, n, StreamOf(w, first, n), log[n].calls));
    }
  }
}

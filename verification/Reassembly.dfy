/** What the reassembly of tool calls from fragments guarantees (consumeStream and
    finishRound in ai/agent.go). */
module Reassembly {
  import opened ToolCalls

  /** The fragments that carry index i, in order. */
  function Own(fragments: seq<ToolCall>, i: int): seq<ToolCall> {
    if fragments == [] then []
    else
      var f := fragments[|fragments| - 1];
      Own(fragments[..|fragments| - 1], i) + if f.index == i then [f] else []
  }

  datatype Part = Id | Kind | Name

  function Get(f: ToolCall, part: Part): string {
    match part case Id => f.id case Kind => f.kind case Name => f.name
  }

  /** The last one given. */
  function LastSet(own: seq<ToolCall>, part: Part): string {
    if own == [] then ""
    else
      var last := Get(own[|own| - 1], part);
      if last != "" then last else LastSet(own[..|own| - 1], part)
  }

  function Arguments(own: seq<ToolCall>): string {
    if own == [] then "" else Arguments(own[..|own| - 1]) + own[|own| - 1].arguments
  }

  /** The call a run of fragments stands for: the last id, type and name that were
      given, and all argument pieces in order. */
  function Reassembled(i: int, own: seq<ToolCall>): ToolCall {
    ToolCall(i, LastSet(own, Id), LastSet(own, Kind), LastSet(own, Name), Arguments(own))
  }

  /** Each call depends on its own fragments alone, whatever they are interleaved with. */
  lemma {:induction false} MergedIsReassembled(fragments: seq<ToolCall>, i: int)
    ensures var calls := Merged(fragments);
            && (i in calls <==> Own(fragments, i) != [])
            && (i in calls ==> calls[i] == Reassembled(i, Own(fragments, i)))
  {
    if fragments != [] {
      var init, f := fragments[..|fragments| - 1], fragments[|fragments| - 1];
      MergedIsReassembled(init, i);
      ReassembledSnoc(i, Own(init, i), f);
      assert Own(init, i) + [] == Own(init, i);
    }
  }

  lemma ReassembledSnoc(i: int, own: seq<ToolCall>, f: ToolCall)
    ensures Reassembled(i, own + [f]) == Patch(Reassembled(i, own), f)
    ensures Reassembled(i, []) == ToolCall(i, "", "", "", "")
  {
    assert (own + [f])[..|own|] == own;
  }

  lemma {:induction false} IncreasingIsUnique(a: seq<int>, b: seq<int>)
    requires Increasing(a) && Increasing(b) && forall i :: i in a <==> i in b
    ensures a == b
    decreases |a|
  {
    assert b != [] ==> b[0] in b;
    assert a != [] ==> a[0] in a;
    if a != [] {
      var m, n := |a| - 1, |b| - 1;
      LastIsGreatest(a, b);
      LastIsGreatest(b, a);
      forall i ensures i in a[..m] <==> i in b[..n] {
        InInit(a, i);
        InInit(b, i);
      }
      IncreasingIsUnique(a[..m], b[..n]);
      assert a == a[..m] + [a[m]] && b == b[..n] + [b[n]];
    }
  }

  lemma LastIsGreatest(a: seq<int>, b: seq<int>)
    requires Increasing(a) && Increasing(b) && a != [] && b != [] && forall i :: i in a <==> i in b
    ensures a[|a| - 1] <= b[|b| - 1]
  {
    assert a[|a| - 1] in a;
    var k :| 0 <= k < |b| && b[k] == a[|a| - 1];
  }

  lemma InInit(a: seq<int>, i: int)
    requires Increasing(a) && a != []
    ensures i in a[..|a| - 1] <==> i in a && i != a[|a| - 1]
  {
    assert a == a[..|a| - 1] + [a[|a| - 1]];
  }

  function Indexes(list: seq<ToolCall>): seq<int> {
    seq(|list|, k requires 0 <= k < |list| => list[k].index)
  }

  lemma IndexesOfList(list: seq<ToolCall>, calls: map<int, ToolCall>)
    requires ListsCalls(list, calls)
    ensures Increasing(Indexes(list)) && forall i :: i in Indexes(list) <==> i in calls
  {
    forall i | i in calls ensures i in Indexes(list) {
      var k :| 0 <= k < |list| && list[k].index == i;
      assert Indexes(list)[k] == i;
    }
  }

  /** The list is determined by the calls. */
  lemma ListIsUnique(a: seq<ToolCall>, b: seq<ToolCall>, calls: map<int, ToolCall>)
    requires ListsCalls(a, calls) && ListsCalls(b, calls)
    ensures a == b
  {
    IndexesOfList(a, calls);
    IndexesOfList(b, calls);
    IncreasingIsUnique(Indexes(a), Indexes(b));
    assert |a| == |Indexes(a)| == |b|;
    forall k | 0 <= k < |a| ensures a[k] == b[k] {
      assert Indexes(a)[k] == Indexes(b)[k];
    }
  }

  /** Fragmentation invariance: if every index gets fragments that stand for the same
      call, however cut and however interleaved, the same list comes out. */
  lemma FragmentationInvariance(f1: seq<ToolCall>, f2: seq<ToolCall>, l1: seq<ToolCall>, l2: seq<ToolCall>)
    requires ListsCalls(l1, Merged(f1)) && ListsCalls(l2, Merged(f2))
    requires forall i :: (Own(f1, i) == [] <==> Own(f2, i) == []) && Reassembled(i, Own(f1, i)) == Reassembled(i, Own(f2, i))
    ensures l1 == l2
  {
    forall i ensures i in Merged(f1) <==> i in Merged(f2) {
      MergedIsReassembled(f1, i);
      MergedIsReassembled(f2, i);
    }
    forall i | i in Merged(f1) ensures Merged(f1)[i] == Merged(f2)[i] {
      MergedIsReassembled(f1, i);
      MergedIsReassembled(f2, i);
    }
    assert Merged(f1) == Merged(f2);
    ListIsUnique(l1, l2, Merged(f1));
  }

  /** A way of sending `calls`: every call has fragments that stand for it, and there
      are no others. */
  ghost predicate Sends(fragments: seq<ToolCall>, calls: seq<ToolCall>) {
    && (forall k :: 0 <= k < |calls| ==>
          var own := Own(fragments, calls[k].index); own != [] && Reassembled(calls[k].index, own) == calls[k])
    && (forall i :: Own(fragments, i) != [] ==> exists k :: 0 <= k < |calls| && calls[k].index == i)
  }

  ghost predicate IncreasingIndexes(calls: seq<ToolCall>) {
    forall j, k :: 0 <= j < k < |calls| ==> calls[j].index < calls[k].index
  }

  /** The round trip: calls with increasing indexes come back as they were sent, in
      whatever fragments. */
  lemma EveryFragmentationIsReassembled(fragments: seq<ToolCall>, calls: seq<ToolCall>, list: seq<ToolCall>)
    requires IncreasingIndexes(calls)
    requires Sends(fragments, calls) && ListsCalls(list, Merged(fragments))
    ensures list == calls
  {
    var merged := Merged(fragments);
    forall k | 0 <= k < |calls| ensures calls[k].index in merged && calls[k] == merged[calls[k].index] {
      MergedIsReassembled(fragments, calls[k].index);
    }
    forall i | i in merged ensures exists k :: 0 <= k < |calls| && calls[k].index == i {
      MergedIsReassembled(fragments, i);
    }
    assert ListsCalls(calls, merged);
    ListIsUnique(list, calls, merged);
  }

  /** A piece of the arguments: no id, type or name. */
  predicate IsPiece(f: ToolCall) {
    f.id == f.kind == f.name == ""
  }

  /** The usual way of sending calls: the first fragment of each carries its id, type
      and name, the rest only pieces of its arguments. */
  ghost predicate SendsHeadAndPieces(fragments: seq<ToolCall>, calls: seq<ToolCall>) {
    && (forall k :: 0 <= k < |calls| ==> HeadAndPieces(Own(fragments, calls[k].index), calls[k]))
    && (forall i :: Own(fragments, i) != [] ==> exists k :: 0 <= k < |calls| && calls[k].index == i)
  }

  ghost predicate HeadAndPieces(own: seq<ToolCall>, call: ToolCall) {
    && own != [] && own[0].id == call.id && own[0].kind == call.kind && own[0].name == call.name
    && (forall j :: 1 <= j < |own| ==> IsPiece(own[j]))
    && Arguments(own) == call.arguments
  }

  lemma HeadAndPiecesMakeTheCall(own: seq<ToolCall>, call: ToolCall)
    requires HeadAndPieces(own, call)
    ensures Reassembled(call.index, own) == call
  {
    HeadIsLastSet(own, Id);
    HeadIsLastSet(own, Kind);
    HeadIsLastSet(own, Name);
  }

  lemma {:induction false} HeadIsLastSet(own: seq<ToolCall>, part: Part)
    requires own != [] && forall k :: 1 <= k < |own| ==> IsPiece(own[k])
    ensures LastSet(own, part) == Get(own[0], part)
  {
    if |own| > 1 { HeadIsLastSet(own[..|own| - 1], part); }
  }

  /** Calls with increasing indexes that are sent in heads and pieces, interleaved in
      any way, come back as they were sent. */
  lemma HeadsAndPiecesAreReassembled(fragments: seq<ToolCall>, calls: seq<ToolCall>, list: seq<ToolCall>)
    requires IncreasingIndexes(calls)
    requires SendsHeadAndPieces(fragments, calls) && ListsCalls(list, Merged(fragments))
    ensures list == calls
  {
    forall k | 0 <= k < |calls|
      ensures var own := Own(fragments, calls[k].index); own != [] && Reassembled(calls[k].index, own) == calls[k] {
      assert HeadAndPieces(Own(fragments, calls[k].index), calls[k]);
      HeadAndPiecesMakeTheCall(Own(fragments, calls[k].index), calls[k]);
    }
    EveryFragmentationIsReassembled(fragments, calls, list);
  }

  // -- Calls sent whole -----------------------------------------------------

  lemma {:induction false} OwnOfNone(calls: seq<ToolCall>, i: int)
    requires forall k :: 0 <= k < |calls| ==> calls[k].index != i
    ensures Own(calls, i) == []
  {
    if calls != [] { OwnOfNone(calls[..|calls| - 1], i); }
  }

  lemma {:induction false} OwnOfWholeCall(calls: seq<ToolCall>, k: nat)
    requires k < |calls| && IncreasingIndexes(calls)
    ensures Own(calls, calls[k].index) == [calls[k]]
  {
    var n := |calls| - 1;
    var i := calls[k].index;
    if k < n {
      OwnOfWholeCall(calls[..n], k);
      assert Own(calls[..n], i) + [] == Own(calls[..n], i);
    } else {
      OwnOfNone(calls[..n], i);
    }
  }

  lemma WholeCall(c: ToolCall)
    ensures Reassembled(c.index, [c]) == c
  {
    HeadIsLastSet([c], Id);
    HeadIsLastSet([c], Kind);
    HeadIsLastSet([c], Name);
    assert [c][..0] == [];
    assert Arguments([c]) == Arguments([]) + c.arguments;
  }

  /** Calls that arrive whole, as in a reply that was not streamed, come back as sent
      exactly if their indexes increase. */
  lemma WholeCallsComeBackIff(calls: seq<ToolCall>, list: seq<ToolCall>)
    requires ListsCalls(list, Merged(calls))
    ensures list == calls <==> IncreasingIndexes(calls)
  {
    assert IncreasingIndexes(list);
    if IncreasingIndexes(calls) {
      forall k | 0 <= k < |calls|
        ensures var own := Own(calls, calls[k].index); own != [] && Reassembled(calls[k].index, own) == calls[k] {
        OwnOfWholeCall(calls, k);
        WholeCall(calls[k]);
      }
      forall i | Own(calls, i) != [] ensures exists k :: 0 <= k < |calls| && calls[k].index == i {
        if forall k :: 0 <= k < |calls| ==> calls[k].index != i { OwnOfNone(calls, i); }
      }
      EveryFragmentationIsReassembled(calls, calls, list);
    }
  }

  /** All calls under one index, as when a provider leaves the index out, come back as
      one: the last id, type and name given, and the arguments run together. */
  lemma SharedIndexMerges(calls: seq<ToolCall>, i: int, list: seq<ToolCall>)
    requires calls != [] && (forall k :: 0 <= k < |calls| ==> calls[k].index == i) && ListsCalls(list, Merged(calls))
    ensures list == [Reassembled(i, calls)]
  {
    var merged := Merged(calls);
    forall j ensures j in merged <==> j == i {
      MergedIsReassembled(calls, j);
      OwnOfOneIndex(calls, i, j);
    }
    MergedIsReassembled(calls, i);
    OwnOfOneIndex(calls, i, i);
    ListsOnlyOne(Reassembled(i, calls), merged, list);
  }

  lemma ListsOnlyOne(c: ToolCall, calls: map<int, ToolCall>, list: seq<ToolCall>)
    requires ListsCalls(list, calls) && (forall j :: j in calls <==> j == c.index) && calls[c.index] == c
    ensures list == [c]
  {
    assert [c][0].index == c.index;
    ListIsUnique(list, [c], calls);
  }

  lemma {:induction false} OwnOfOneIndex(calls: seq<ToolCall>, i: int, j: int)
    requires forall k :: 0 <= k < |calls| ==> calls[k].index == i
    ensures Own(calls, j) == if j == i then calls else []
  {
    if calls != [] {
      var n := |calls| - 1;
      OwnOfOneIndex(calls[..n], i, j);
      assert calls == calls[..n] + [calls[n]];
    }
  }
}

/** Nobody waits for ever: every statement moves its operation forward, and while an
    operation is unfinished some statement can run. */
module OccupancyProgress {
  import opened Occupancy
  import opened OccupancyInvariant
  import opened OccupancyProtocol

  // -- The shape of a step --------------------------------------------------

  /** Statements a transaction can still run. */
  function Remaining(tx: Tx): nat {
    match tx.pc
    case Start => 5
    case FastRead(_) => 4
    case Locked(_) => 4
    case SessionsClear(_) => 3
    case BothClear(_) => 2
    case Written(_, _) => 1
    case Done(_) => 0
  }

  /** Only transaction i moves, and it moves forward. */
  predicate MovesOn(s: State, s2: State, i: nat)
    requires i < |s.txs|
  {
    && |s2.txs| == |s.txs| && s2.txs == s.txs[i := s2.txs[i]]
    && s2.txs[i].op == s.txs[i].op && Remaining(s2.txs[i]) < Remaining(s.txs[i])
  }

  lemma FinishMovesOn(s: State, i: nat, outcome: Outcome)
    requires i < |s.txs| && !Finished(s.txs[i])
    ensures MovesOn(s, Finish(s, i, outcome), i)
  {
  }

  lemma BeginMovesOn(s: State, i: nat)
    requires i < |s.txs| && s.txs[i].pc.Start?
    ensures MovesOn(s, Begin(s, i), i)
  {
  }

  lemma UpdateMovesOn(s: State, i: nat)
    requires i < |s.txs| && (s.txs[i].op.Cancel? || s.txs[i].op.Reject?) && !Finished(s.txs[i])
    ensures MovesOn(s, UpdateStatusNow(s, i), i)
  {
  }

  lemma WriteMovesOn(s: State, i: nat, slot: Slot)
    requires i < |s.txs| && s.txs[i].pc.BothClear?
    ensures MovesOn(s, WriteRow(s, i, slot), i)
  {
  }

  lemma EventMovesOn(s: State, e: Event)
    requires CanHappen(s, e)
    ensures MovesOn(s, Apply(s, e), e.tx)
  {
    var i := e.tx;
    if e.Abort? {
      FinishMovesOn(s, i, Failed);
    } else {
      match s.txs[i].pc
      case Start => BeginMovesOn(s, i);
      case FastRead(_) => if s.txs[i].op.Cancel? || s.txs[i].op.Reject? { UpdateMovesOn(s, i); }
      case BothClear(slot) => WriteMovesOn(s, i, slot);
      case _ =>
    }
  }

  // -- Progress -------------------------------------------------------------

  /** The lock order (one room, then one row, then nothing) leaves some statement
      runnable while any transaction is unfinished. */
  lemma NeverDeadlocked(s: State)
    requires Inv(s) && exists i :: 0 <= i < |s.txs| && !Finished(s.txs[i])
    ensures exists i: nat :: i < |s.txs| && Enabled(s, i)
  {
    if w :| w in s.rowLock {
      var i := s.rowLock[w];
      assert HoldsRow(s.txs[i], w) <==> Owns(s.rowLock, w, i);
      assert Enabled(s, i);
    } else if r :| r in s.roomLock {
      var i := s.roomLock[r];
      assert HoldsRoom(s.txs[i], r) <==> Owns(s.roomLock, r, i);
      assert Enabled(s, i);
    } else {
      var i :| 0 <= i < |s.txs| && !Finished(s.txs[i]);
      assert Enabled(s, i);
    }
  }

  function TotalRemaining(txs: seq<Tx>): nat {
    if txs == [] then 0 else Remaining(txs[0]) + TotalRemaining(txs[1..])
  }

  lemma {:induction false} ReplaceRemaining(txs: seq<Tx>, i: nat, tx: Tx)
    requires i < |txs|
    ensures TotalRemaining(txs[i := tx]) == TotalRemaining(txs) - Remaining(txs[i]) + Remaining(tx)
  {
    if i == 0 {
      assert txs[0 := tx][1..] == txs[1..];
    } else {
      assert txs[i := tx][1..] == txs[1..][i - 1 := tx];
      ReplaceRemaining(txs[1..], i - 1, tx);
    }
  }

  lemma EventMakesProgress(s: State, e: Event)
    requires CanHappen(s, e)
    ensures |Apply(s, e).txs| == |s.txs|
    ensures TotalRemaining(Apply(s, e).txs) < TotalRemaining(s.txs)
  {
    EventMovesOn(s, e);
    ReplaceRemaining(s.txs, e.tx, Apply(s, e).txs[e.tx]);
  }

  lemma {:induction false} RunsAreShort(s: State, es: seq<Event>)
    requires ValidRun(s, es)
    ensures |es| + TotalRemaining(Run(s, es).txs) <= TotalRemaining(s.txs)
    ensures |Run(s, es).txs| == |s.txs|
    decreases |es|
  {
    if es != [] {
      EventMakesProgress(s, es[0]);
      RunsAreShort(Apply(s, es[0]), es[1..]);
    }
  }

  ghost predicate AllFinished(s: State) {
    forall i :: 0 <= i < |s.txs| ==> Finished(s.txs[i])
  }

  lemma {:induction false} FiveStatementsEach(txs: seq<Tx>)
    ensures TotalRemaining(txs) <= 5 * |txs|
  {
    if txs != [] { FiveStatementsEach(txs[1..]); }
  }

  /** From every reachable state the unfinished operations can all be run to their
      end by statements alone, with no abort to break a wait. */
  lemma {:induction false} CanAlwaysFinish(s: State)
    requires Inv(s)
    ensures exists es: seq<Event> :: ValidRun(s, es) && (forall e <- es :: e.Statement?) && AllFinished(Run(s, es))
    decreases TotalRemaining(s.txs)
  {
    if AllFinished(s) {
      assert ValidRun(s, []) && AllFinished(Run(s, []));
    } else {
      NeverDeadlocked(s);
      var i: nat :| i < |s.txs| && Enabled(s, i);
      var e := Statement(i);
      EventKeepsInv(s, e);
      EventMakesProgress(s, e);
      CanAlwaysFinish(Apply(s, e));
      var rest: seq<Event> :| ValidRun(Apply(s, e), rest) && (forall x <- rest :: x.Statement?) && AllFinished(Run(Apply(s, e), rest));
      var es := [e] + rest;
      assert es[1..] == rest;
      assert ValidRun(s, es) && AllFinished(Run(s, es));
    }
  }

  /** No schedule deadlocks, and none runs longer than five statements per operation. */
  lemma EveryScheduleTerminates(s: State, es: seq<Event>)
    requires Initial(s) && ValidRun(s, es)
    ensures |es| <= 5 * |s.txs|
    ensures !AllFinished(Run(s, es)) ==> exists i: nat :: i < |Run(s, es).txs| && Enabled(Run(s, es), i)
  {
    InitialInv(s);
    RunKeepsInv(s, es);
    RunsAreShort(s, es);
    FiveStatementsEach(s.txs);
    if !AllFinished(Run(s, es)) { NeverDeadlocked(Run(s, es)); }
  }
}

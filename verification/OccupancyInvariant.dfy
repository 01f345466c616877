/** The main result of the locking protocol: no room is ever double-booked. */
module OccupancyInvariant {
  import opened Occupancy
  import opened OccupancyProtocol
  import opened OccupancySteps

  lemma InitialInv(s: State)
    requires Initial(s)
    ensures Inv(s)
  {
  }

  lemma StatementKeepsInv(s: State, i: nat)
    requires Inv(s) && i < |s.txs| && Enabled(s, i)
    ensures Inv(Exec(s, i))
  {
    assert TxInv(s, s.txs[i]);
    match s.txs[i].pc
    case Start => BeginKeepsInv(s, i);
    case BothClear(_) =>
      if s.txs[i].op.Create? || s.txs[i].op.CreateSession? { InsertStepKeepsInv(s, i); } else { UpdateStepKeepsInv(s, i); }
    case Written(_, w) => CommitKeepsInv(s, i, OutcomeOf(w));
    case _ => ReadsAndChecksKeepInv(s, i);
  }

  /** What a finished operation was told does not matter to the others. */
  lemma AnyOutcomeKeepsInv(s: State, i: nat, outcome: Outcome)
    requires Inv(s) && i < |s.txs| && s.txs[i].pc.Done?
    ensures Inv(SetPc(s, i, Done(outcome)))
  {
    var s2 := SetPc(s, i, Done(outcome));
    forall j | 0 <= j < |s2.txs| ensures TxInv(s2, s2.txs[j]) {
      assert TxInv(s, s.txs[j]);
    }
    forall j, r | 0 <= j < |s2.txs| ensures HoldsRoom(s2.txs[j], r) <==> Owns(s2.roomLock, r, j) {
      assert HoldsRoom(s.txs[j], r) <==> Owns(s.roomLock, r, j);
    }
    forall j, w | 0 <= j < |s2.txs| ensures HoldsRow(s2.txs[j], w) <==> Owns(s2.rowLock, w, j) {
      assert HoldsRow(s.txs[j], w) <==> Owns(s.rowLock, w, j);
    }
    forall j, k | 0 <= j < |s2.txs| && 0 <= k < |s2.txs| && j != k ensures !SameInsert(s2.txs[j], s2.txs[k]) {
      assert !SameInsert(s.txs[j], s.txs[k]);
    }
  }

  lemma EventKeepsInv(s: State, e: Event)
    requires Inv(s) && CanHappen(s, e)
    ensures Inv(Apply(s, e))
  {
    match e
    case Abort(i) => FinishKeepsInv(s, i, Failed);
    case Statement(i) => StatementKeepsInv(s, i);
    case LostAck(i) =>
      if s.txs[i].pc.Written? {
        CommitKeepsInv(s, i, Failed);
      } else {
        StatementKeepsInv(s, i);
        AutoCommitFinishes(s, i);
        AnyOutcomeKeepsInv(Exec(s, i), i, Failed);
      }
  }

  lemma AutoCommitFinishes(s: State, i: nat)
    requires i < |s.txs| && Enabled(s, i) && AutoCommits(s.txs[i])
    ensures i < |Exec(s, i).txs| && Exec(s, i).txs[i].pc.Done?
  {
  }

  lemma {:induction false} RunKeepsInv(s: State, es: seq<Event>)
    requires Inv(s) && ValidRun(s, es)
    ensures Inv(Run(s, es))
    decreases |es|
  {
    if es != [] {
      EventKeepsInv(s, es[0]);
      RunKeepsInv(Apply(s, es[0]), es[1..]);
    }
  }

  // -- Safety ---------------------------------------------------------------

  /** From non-overlapping tables, after any interleaving of the statements of
      any operations, with errors and lost acknowledgements anywhere, no two
      sessions or active bookings of a room share a period on one date. */
  lemma NeverDoubleBooked(s: State, es: seq<Event>)
    requires Initial(s) && ValidRun(s, es)
    ensures NonOverlap(Run(s, es).tables)
  {
    InitialInv(s);
    RunKeepsInv(s, es);
  }
}

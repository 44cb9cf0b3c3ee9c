/** Row locks never deadlock, and every client finishes. */
module Deadlock {
  import opened Database
  import opened Invariant
  import opened Selection
  import opened Concurrency
  import opened Linearizability

  /** Client s waits for a row that client h has locked. */
  ghost predicate WaitsFor(sys: System, s: nat, h: nat)
    requires |sys.tasks| == |sys.phases|
  {
    && s < |sys.phases| && h < |sys.phases| && s != h
    && var wanted := Wants(sys.db, sys.tasks[s], sys.phases[s]);
       wanted.Some? && wanted.value in Held(sys.phases[h])
  }

  /** How much further up the waiting order a client can be: nothing locked yet, a refund locked and its parent wanted,
      or no lock wanted any more. */
  function Rank(phase: Phase): nat {
    match phase
    case Ready => 2
    case Checked(_) => 2
    case StatusWritten(_, _, _, _) => 1
    case _ => 0
  }

  /** A client waits only for clients of a lower rank: whoever holds a payment row waits for nobody. */
  lemma WaitingDescends(sys: System, s: nat, h: nat)
    requires SysInv(sys) && WaitsFor(sys, s, h)
    ensures Rank(sys.phases[h]) < Rank(sys.phases[s])
  {
    assert PhaseFits(sys.db, sys.tasks[s], sys.phases[s]) && PhaseFits(sys.db, sys.tasks[h], sys.phases[h]);
    if sys.phases[s].StatusWritten? {
      assert RowHolds(sys.db, sys.phases[s].i);
    }
  }

  ghost predicate IsChain(sys: System, chain: seq<nat>)
    requires |sys.tasks| == |sys.phases|
  {
    forall k :: 0 <= k < |chain| - 1 ==> WaitsFor(sys, chain[k], chain[k + 1])
  }

  /** The wait graph is acyclic, with no chain of more than three clients. */
  lemma {:induction false} NoDeadlock(sys: System, chain: seq<nat>)
    requires SysInv(sys) && IsChain(sys, chain) && chain != [] && chain[0] < |sys.phases|
    ensures |chain| <= Rank(sys.phases[chain[0]]) + 1 <= 3
    ensures |chain| > 1 ==> chain[0] != chain[|chain| - 1]
    decreases |chain|
  {
    if |chain| > 1 {
      assert WaitsFor(sys, chain[0], chain[1]);
      WaitingDescends(sys, chain[0], chain[1]);
      forall k | 0 <= k < |chain[1..]| - 1
        ensures WaitsFor(sys, chain[1..][k], chain[1..][k + 1])
      {
        assert WaitsFor(sys, chain[k + 1], chain[k + 2]);
      }
      NoDeadlock(sys, chain[1..]);
      ChainDescends(sys, chain, |chain| - 1);
    }
  }

  lemma {:induction false} ChainDescends(sys: System, chain: seq<nat>, k: nat)
    requires SysInv(sys) && IsChain(sys, chain) && 0 < k < |chain|
    ensures chain[0] < |sys.phases| && chain[k] < |sys.phases|
    ensures Rank(sys.phases[chain[k]]) < Rank(sys.phases[chain[0]])
  {
    assert WaitsFor(sys, chain[k - 1], chain[k]);
    WaitingDescends(sys, chain[k - 1], chain[k]);
    if k > 1 {
      ChainDescends(sys, chain, k - 1);
    }
  }

  /** As long as a client is unfinished, some client can take a step of its own (not merely give up). */
  lemma SomeoneCanStep(sys: System, s: nat) returns (q: nat, a: Action)
    requires SysInv(sys) && s < |sys.phases| && !sys.phases[s].Done?
    ensures a != Abort && Enabled(sys, q, a)
    decreases Rank(sys.phases[s])
  {
    if sys.phases[s].Ready? && sys.tasks[s].SweepTask? {
      var skip := HeldByOthers(sys.phases, s);
      SelectIsABatch(sys.db.txns, sys.tasks[s].now, skip);
      q, a := s, Pick(Select(sys.db.txns, sys.tasks[s].now, skip));
    } else if Granted(sys, s) {
      q, a := s, Go;
    } else {
      var r := Wants(sys.db, sys.tasks[s], sys.phases[s]).value;
      var h :| 0 <= h < |sys.phases| && h != s && r in Held(sys.phases[h]);
      WaitingDescends(sys, s, h);
      q, a := SomeoneCanStep(sys, h);
    }
  }

  // ---------------------------------------------------------------------------------------------
  // Termination
  // ---------------------------------------------------------------------------------------------

  /** A bound on the steps a client still has to take. */
  function StepsLeft(phase: Phase): nat {
    match phase
    case Ready => 5
    case Locked(_, _) => 4
    case StatusWritten(_, _, _, _) => 3
    case ParentLocked(_, _, _, _, _) => 2
    case Picked(_) => 2
    case ToCommit(_, _, _) => 1
    case SweepToCommit(_, _) => 1
    case Checked(_) => 1
    case Done(_) => 0
  }

  function AllStepsLeft(phases: seq<Phase>): nat {
    if phases == [] then 0 else StepsLeft(phases[0]) + AllStepsLeft(phases[1..])
  }

  lemma {:induction false} FewerStepsLeft(phases: seq<Phase>, s: nat, phase': Phase)
    requires s < |phases|
    ensures AllStepsLeft(phases[s := phase']) == AllStepsLeft(phases) - StepsLeft(phases[s]) + StepsLeft(phase')
  {
    if s == 0 {
      assert phases[s := phase'][1..] == phases[1..];
    } else {
      assert phases[s := phase'][1..] == phases[1..][s - 1 := phase'];
      FewerStepsLeft(phases[1..], s - 1, phase');
    }
  }

  lemma AdvanceDescends(db: Db, task: Task, phase: Phase)
    requires PhaseFits(db, task, phase) && !phase.Done? && !(phase.Ready? && task.SweepTask?)
    ensures StepsLeft(Advance(db, task, phase).1) < StepsLeft(phase)
  {
    match phase {
      case Ready =>
      case Locked(_, _) =>
      case StatusWritten(_, _, _, _) =>
      case ParentLocked(_, _, _, _, _) =>
      case ToCommit(_, _, _) =>
      case Picked(_) =>
      case SweepToCommit(_, _) =>
      case Checked(_) =>
    }
  }

  lemma StepDescends(sys: System, s: nat, a: Action)
    requires SysInv(sys) && Enabled(sys, s, a)
    ensures AllStepsLeft(Next(sys, s, a).phases) < AllStepsLeft(sys.phases)
  {
    assert PhaseFits(sys.db, sys.tasks[s], sys.phases[s]);
    FewerStepsLeft(sys.phases, s, Next(sys, s, a).phases[s]);
    if a == Go {
      AdvanceDescends(sys.db, sys.tasks[s], sys.phases[s]);
    }
  }

  function Arrivals(moves: seq<Move>): nat {
    if moves == [] then 0 else (if moves[0].Arrive? then 1 else 0) + Arrivals(moves[1..])
  }

  lemma {:induction false} OneMoreClient(phases: seq<Phase>, phase: Phase)
    ensures AllStepsLeft(phases + [phase]) == AllStepsLeft(phases) + StepsLeft(phase)
  {
    if phases == [] {
      assert phases + [phase] == [phase] && [phase][1..] == [];
    } else {
      assert (phases + [phase])[1..] == phases[1..] + [phase];
      OneMoreClient(phases[1..], phase);
    }
  }

  /** Every schedule is finite: each step, whoever takes it, brings the end closer, and each arrival adds the steps of
      one client. */
  lemma {:induction false} SchedulesAreFinite(sys: System, moves: seq<Move>)
    requires SysInv(sys) && IsSchedule(sys, moves)
    ensures |moves| + AllStepsLeft(Execute(sys, moves).phases)
         <= AllStepsLeft(sys.phases) + Arrivals(moves) * (StepsLeft(Ready) + 1)
    decreases |moves|
  {
    if moves != [] {
      MoveKeepsSysInv(sys, moves[0]);
      match moves[0] {
        case Move(s, a) => StepDescends(sys, s, a);
        case Arrive(_) => OneMoreClient(sys.phases, Ready);
      }
      SchedulesAreFinite(After(sys, moves[0]), moves[1..]);
    }
  }

  ghost predicate AllDone(sys: System) {
    forall s :: 0 <= s < |sys.phases| ==> sys.phases[s].Done?
  }

  /** A schedule that no client can prolong by a step of its own ends with every client done. */
  lemma MaximalSchedulesEnd(sys: System, moves: seq<Move>)
    requires SysInv(sys) && IsSchedule(sys, moves)
    requires forall q, a :: a != Abort ==> !Enabled(Execute(sys, moves), q, a)
    ensures AllDone(Execute(sys, moves))
  {
    var end := Execute(sys, moves);
    EveryInterleavingIsSerial(sys, moves);
    forall s: nat | s < |end.phases|
      ensures end.phases[s].Done?
    {
      if !end.phases[s].Done? {
        var q, a := SomeoneCanStep(end, s);
      }
    }
  }

  /** Nobody has to give up: from any point the clients at hand can all be brought to their end. */
  lemma EveryoneCanFinish(sys: System) returns (moves: seq<Move>)
    requires SysInv(sys)
    ensures forall k :: 0 <= k < |moves| ==> moves[k].Move? && moves[k].action != Abort
    ensures IsSchedule(sys, moves) && AllDone(Execute(sys, moves)) && |Execute(sys, moves).phases| == |sys.phases|
    decreases AllStepsLeft(sys.phases)
  {
    if AllDone(sys) {
      moves := [];
    } else {
      var s :| 0 <= s < |sys.phases| && !sys.phases[s].Done?;
      var q, a := SomeoneCanStep(sys, s);
      StepKeepsSysInv(sys, q, a);
      StepDescends(sys, q, a);
      var rest := EveryoneCanFinish(Next(sys, q, a));
      moves := [Move(q, a)] + rest;
      assert moves[1..] == rest;
    }
  }
}

/** What the steps of a backfill leave in its records, field by field. */
module BackfillRecords {
  import opened Lists
  import opened BackfillStore
  import opened Backfill
  import opened BackfillProof
  import opened BackfillTheorems

  /** Row n and nothing else may differ. */
  ghost predicate OnlyRow(before: Rows, after: Rows, n: nat) {
    && n in before && after.Keys == before.Keys
    && forall m :: m in before && m != n ==> after[m] == before[m]
  }

  /** What one step writes to the iterations. */
  ghost predicate RowsWritten(s: State, a: Action, t: State) {
    match a
    case MarkRunning(p, at) =>
      && p < |s.plan| && OnlyRow(s.rows, t.rows, s.plan[p].index)
      && var x, y := s.rows[s.plan[p].index], t.rows[s.plan[p].index];
         && y.status == Running && y.startedAt == Some(at) && y.error == None
         && y.key == x.key && y.runId == x.runId && y.completedAt == x.completedAt
    case Succeed(p, runId, at) =>
      && p < |s.plan| && OnlyRow(s.rows, t.rows, s.plan[p].index)
      && var x, y := s.rows[s.plan[p].index], t.rows[s.plan[p].index];
         && y.status == Succeeded && y.runId == Some(runId) && y.error == None && y.completedAt == Some(at)
         && y.key == x.key && y.startedAt == x.startedAt
    case RecordFailure(p, error, at) =>
      && p < |s.plan| && OnlyRow(s.rows, t.rows, s.plan[p].index)
      && var x, y := s.rows[s.plan[p].index], t.rows[s.plan[p].index];
         && y.status == Failed && y.error == Some(error) && y.completedAt == Some(at)
         && y.key == x.key && y.runId == x.runId && y.startedAt == x.startedAt
    case ResetNext =>
      s.phase.Resetting? && s.phase.pos < |s.listing| &&
      var n := s.listing[s.phase.pos].index;
      && OnlyRow(s.rows, t.rows, n)
      && var x, y := s.rows[n], t.rows[n];
         if x.status == Failed
         then y.status == Pending && y.error == None && y.key == x.key && y.runId == x.runId
              && y.startedAt == x.startedAt && y.completedAt == x.completedAt
         else y == x
    case _ => t.rows == s.rows
  }

  /** And to the backfill: in progress while the loop runs, then the outcome. */
  ghost predicate StatusWritten(s: State, a: Action, t: State) {
    t.status ==
    match a
    case StartLoop => InProgress
    case Decide => if s.cancel then Cancelled else if exists n :: n in s.rows && s.rows[n].status == Failed then Aborted else Completed
    case _ => s.status
  }

  lemma StepWritesRows(c: Config, s: State, a: Action)
    requires Inv(c, s) && Enabled(c, s, a)
    ensures RowsWritten(s, a, Do(c, s, a))
  {
    match a {
      case ResetNext => ResetWrites(c, s);
      case MarkRunning(_, _) => TaskWrites(c, s, a);
      case Succeed(_, _, _) => TaskWrites(c, s, a);
      case RecordFailure(_, _, _) => TaskWrites(c, s, a);
      case _ => hide Inv, ToRun, ProgressOf, ListingOf;
    }
  }

  lemma TaskWrites(c: Config, s: State, a: Action)
    requires Inv(c, s) && Enabled(c, s, a) && (a.MarkRunning? || a.Succeed? || a.RecordFailure?)
    ensures RowsWritten(s, a, Do(c, s, a))
  {
    hide RowsOk, RestOk, FlagOk, OutcomeOk, OvershootOk, ExecutedOk, PermitsOk, ToRun;
    assert s.plan[a.p].index in s.rows;
  }

  lemma ResetWrites(c: Config, s: State)
    requires Inv(c, s) && Enabled(c, s, ResetNext)
    ensures RowsWritten(s, ResetNext, Do(c, s, ResetNext))
  {
    hide RowsOk, FlagOk, OutcomeOk, OvershootOk, ExecutedOk, PermitsOk, ToRun, ProgressOf;
    var x := s.listing[s.phase.pos];
    assert x.index in s.rows && s.rows[x.index] == x.row;
  }

  lemma StepWritesStatus(c: Config, s: State, a: Action)
    requires Inv(c, s) && Enabled(c, s, a)
    ensures StatusWritten(s, a, Do(c, s, a))
  {
    hide RowsOk, RestOk, FlagOk, OvershootOk, ExecutedOk, PermitsOk, ToRun, CountStatus, PlanOk, Touch;
    if a.Decide? {
      BucketEmpty(s.rows, Failed);
      assert s.phase.progress == ProgressOf(s.rows);
    }
  }

  /** Along every behaviour each step writes exactly the fields it should: to the row of its iteration, and to
      no other. */
  lemma StepWrites(c: Config, states: seq<State>, actions: seq<Action>, i: nat)
    requires Behaviour(c, states, actions) && i < |actions|
    ensures |states| == |actions| + 1
    ensures RowsWritten(states[i], actions[i], states[i + 1]) && StatusWritten(states[i], actions[i], states[i + 1])
  {
    hide Inv, Enabled, Do, RowsWritten, StatusWritten;
    BehaviourLength(c, states, actions);
    InvAlways(c, states, actions, i);
    BehaviourStep(c, states, actions, i + 1);
    StepWritesRows(c, states[i], actions[i]);
    StepWritesStatus(c, states[i], actions[i]);
  }

  predicate InLoop(s: State) {
    !s.phase.Down? && !s.phase.Resetting? && !s.phase.Finished?
  }

  lemma LoopStep(c: Config, s: State, a: Action)
    requires Enabled(c, s, a) && InLoop(Do(c, s, a))
    ensures a.StartLoop? || (InLoop(s) && !a.Decide?)
  {
    hide ToRun, Touch, ProgressOf, ListingOf;
  }

  /** While a coordinator runs its loop the backfill is in progress. */
  lemma {:induction false} InProgressWhileRunning(c: Config, states: seq<State>, actions: seq<Action>, i: nat)
    requires Behaviour(c, states, actions) && i < |states|
    ensures InLoop(states[i]) ==> states[i].status == InProgress
  {
    hide Inv, Enabled, Do, RowsWritten, InLoop;
    BehaviourLength(c, states, actions);
    if i == 0 {
      NotInLoop(states[0]);
    } else if InLoop(states[i]) {
      InProgressWhileRunning(c, states, actions, i - 1);
      BehaviourStep(c, states, actions, i);
      StepWrites(c, states, actions, i - 1);
      LoopStep(c, states[i - 1], actions[i - 1]);
    }
  }

  lemma NotInLoop(s: State)
    requires Init(s)
    ensures !InLoop(s)
  {
  }

  // ---- Where a finished record comes from ----

  /** Action a records the success of iteration n. */
  predicate Succeeds(s: State, a: Action, n: nat) {
    a.Succeed? && a.p < |s.plan| && s.plan[a.p].index == n
  }

  predicate RecordsFailure(s: State, a: Action, n: nat) {
    a.RecordFailure? && a.p < |s.plan| && s.plan[a.p].index == n
  }

  lemma OtherStepKeeps(s: State, a: Action, t: State, n: nat)
    requires RowsWritten(s, a, t) && n in t.rows
    ensures t.rows[n].status == Succeeded ==> Succeeds(s, a, n) || (n in s.rows && t.rows[n] == s.rows[n])
    ensures t.rows[n].status == Failed ==> RecordsFailure(s, a, n) || (n in s.rows && t.rows[n] == s.rows[n])
  {
  }

  /** A Succeeded record is what the one Succeed on its iteration wrote: run id, time, no error. */
  lemma {:induction false} RunIdRecorded(c: Config, states: seq<State>, actions: seq<Action>, j: nat, n: nat) returns (k: nat)
    requires Behaviour(c, states, actions) && j < |states| && n in states[j].rows && states[j].rows[n].status == Succeeded
    ensures |states| == |actions| + 1 && k < j
    ensures Succeeds(states[k], actions[k], n)
    ensures
      var row := states[j].rows[n];
      row.runId == Some(actions[k].runId) && row.completedAt == Some(actions[k].at) && row.error == None
    ensures forall m :: k < m < j ==> !Succeeds(states[m], actions[m], n)
  {
    hide Inv, Enabled, Do, Succeeds;
    BehaviourLength(c, states, actions);
    if j == 0 {
      InitPending(c, states, actions, n);
      assert false;
    } else {
      StepWrites(c, states, actions, j - 1);
      OtherStepKeeps(states[j - 1], actions[j - 1], states[j], n);
      if Succeeds(states[j - 1], actions[j - 1], n) {
        k := j - 1;
        SuccessWritten(states[k], actions[k], states[j], n);
      } else {
        k := RunIdRecorded(c, states, actions, j - 1, n);
      }
    }
  }

  lemma SuccessWritten(s: State, a: Action, t: State, n: nat)
    requires Succeeds(s, a, n) && RowsWritten(s, a, t)
    ensures n in t.rows && t.rows[n].runId == Some(a.runId) && t.rows[n].completedAt == Some(a.at) && t.rows[n].error == None
  {
  }

  lemma FailureWritten(s: State, a: Action, t: State, n: nat)
    requires RecordsFailure(s, a, n) && RowsWritten(s, a, t)
    ensures n in t.rows && t.rows[n].error == Some(a.error) && t.rows[n].completedAt == Some(a.at)
  {
  }

  lemma InitPending(c: Config, states: seq<State>, actions: seq<Action>, n: nat)
    requires Behaviour(c, states, actions) && n in states[0].rows
    ensures states[0].rows[n].status == Pending
  {
    hide Enabled, Do;
  }

  /** A Failed record is what the last failure of its iteration wrote. */
  lemma {:induction false} ErrorRecorded(c: Config, states: seq<State>, actions: seq<Action>, j: nat, n: nat) returns (k: nat)
    requires Behaviour(c, states, actions) && j < |states| && n in states[j].rows && states[j].rows[n].status == Failed
    ensures |states| == |actions| + 1 && k < j
    ensures RecordsFailure(states[k], actions[k], n)
    ensures states[j].rows[n].error == Some(actions[k].error) && states[j].rows[n].completedAt == Some(actions[k].at)
    ensures forall m :: k < m < j ==> !RecordsFailure(states[m], actions[m], n)
  {
    hide Inv, Enabled, Do, RecordsFailure;
    BehaviourLength(c, states, actions);
    if j == 0 {
      InitPending(c, states, actions, n);
      assert false;
    } else {
      StepWrites(c, states, actions, j - 1);
      OtherStepKeeps(states[j - 1], actions[j - 1], states[j], n);
      if RecordsFailure(states[j - 1], actions[j - 1], n) {
        k := j - 1;
        FailureWritten(states[k], actions[k], states[j], n);
      } else {
        k := ErrorRecorded(c, states, actions, j - 1, n);
      }
    }
  }

  /** So there is only one Succeed per iteration, over all coordinators. */
  lemma SucceedsOnce(c: Config, states: seq<State>, actions: seq<Action>, k: nat, j: nat, n: nat)
    requires Behaviour(c, states, actions) && k < j < |actions|
    ensures |states| == |actions| + 1
    ensures Succeeds(states[k], actions[k], n) ==> !Succeeds(states[j], actions[j], n)
  {
    hide Inv, Enabled, Do, Succeeds;
    BehaviourLength(c, states, actions);
    StepWrites(c, states, actions, k);
    InvAlways(c, states, actions, j);
    BehaviourStep(c, states, actions, j + 1);
    if Succeeds(states[k], actions[k], n) {
      SuccessStatus(states[k], actions[k], states[k + 1], n);
      SucceededForever(c, states, actions, k + 1, j, n);
      OnlyRunningSucceeds(c, states[j], actions[j], n);
    }
  }

  lemma OnlyRunningSucceeds(c: Config, s: State, a: Action, n: nat)
    requires Inv(c, s) && Enabled(c, s, a)
    ensures Succeeds(s, a, n) ==> n in s.rows && s.rows[n].status == Running
  {
    hide RestOk, FlagOk, OutcomeOk, OvershootOk, ExecutedOk, PermitsOk, ToRun;
    if Succeeds(s, a, n) {
      assert RowOk(s, a.p);
    }
  }

  lemma SuccessStatus(s: State, a: Action, t: State, n: nat)
    requires Succeeds(s, a, n) && RowsWritten(s, a, t)
    ensures n in t.rows && t.rows[n].status == Succeeded
  {
  }
}

/** What the coordinator guarantees, over every behaviour. */
module BackfillTheorems {
  import opened Lists
  import opened BackfillStore
  import opened Backfill
  import opened BackfillProof

  // ---- Final status ----

  /** No unfinished iteration shares its key with a finished one. */
  predicate NoShadowedKeys(list: seq<Indexed>) {
    forall x :: x in list && x.row.status != Succeeded ==> x.row.key !in SucceededKeys(list)
  }

  /** Completed means nothing failed and the whole plan succeeded. */
  lemma CompletedPlan(c: Config, s: State)
    requires Inv(c, s) && s.phase == Finished(Completed)
    ensures !s.sawCancel && s.next == |s.plan|
    ensures forall p :: 0 <= p < |s.plan| ==> s.plan[p].index in s.rows && s.rows[s.plan[p].index].status == Succeeded
  {
    hide ToRun, RestOk, OvershootOk, ExecutedOk, CountStatus;
    BucketEmpty(s.rows, Failed);
    assert s.tasks == map[];
    forall p | 0 <= p < |s.plan|
      ensures s.rows[s.plan[p].index].status != Failed
      ensures p < s.next ==> s.rows[s.plan[p].index].status == Succeeded
    {
      assert RowOk(s, p);
    }
    assert !s.hadFailure;
  }

  /** A coordinator that ends Completed leaves every persisted iteration Succeeded exactly when no
      unfinished iteration shared its key with a finished one when it began. */
  lemma CompletedIff(c: Config, s: State)
    requires Inv(c, s) && s.phase == Finished(Completed)
    ensures (forall n :: n in s.rows ==> s.rows[n].status == Succeeded) <==> NoShadowedKeys(s.listing)
  {
    hide ToRun, OutcomeOk, OvershootOk, ExecutedOk, FlagOk, RowsOk, PermitsOk, SucceededKeys;
    CompletedPlan(c, s);
    forall i | 0 <= i < |s.listing|
      ensures s.rows[s.listing[i].index].status == Succeeded <==>
              s.listing[i].row.status == Succeeded || s.listing[i].row.key !in SucceededKeys(s.listing)
    {
      ListedOutcome(s, i);
    }
    if NoShadowedKeys(s.listing) {
      forall n | n in s.rows
        ensures s.rows[n].status == Succeeded
      {
        var i :| 0 <= i < |s.listing| && s.listing[i].index == n;
        assert s.listing[i] in s.listing;
      }
    }
    if forall n :: n in s.rows ==> s.rows[n].status == Succeeded {
      forall x | x in s.listing && x.row.status != Succeeded
        ensures x.row.key !in SucceededKeys(s.listing)
      {
        var i :| 0 <= i < |s.listing| && s.listing[i] == x;
        assert s.rows[s.listing[i].index].status == Succeeded;
      }
    }
  }

  lemma ListedOutcome(s: State, i: nat)
    requires PlanOk(s) && RestOk(s) && s.phase.Finished? && i < |s.listing|
    requires forall p :: 0 <= p < |s.plan| ==> s.rows[s.plan[p].index].status == Succeeded
    ensures s.rows[s.listing[i].index].status == Succeeded <==>
            s.listing[i].row.status == Succeeded || s.listing[i].row.key !in SucceededKeys(s.listing)
  {
    hide FilterMap, ToRun;
    var x := s.listing[i];
    assert x in s.listing;
    if x.row.key !in SucceededKeys(s.listing) {
      hide RestOk;
      var p := PlanPosition(s, i);
    } else {
      assert s.rows[x.index] == Reset(x.row);
    }
  }

  /** Aborted means some iteration failed in this very run and the cancel flag was not set when the
      status was decided. */
  lemma AbortedMeansFailed(c: Config, s: State)
    requires Inv(c, s) && s.phase == Finished(Aborted)
    ensures !s.sawCancel
    ensures exists n :: n in s.failedHere && n in s.rows && s.rows[n].status == Failed
  {
    hide ToRun, OvershootOk, ExecutedOk, CountStatus, FlagOk, SucceededKeys;
    BucketEmpty(s.rows, Failed);
    var n :| n in s.rows && s.rows[n].status == Failed;
    var i :| 0 <= i < |s.listing| && s.listing[i].index == n;
    assert s.listing[i].row.key in SucceededKeys(s.listing) ==> s.rows[n] == Reset(s.listing[i].row);
    hide RestOk, OutcomeOk;
    var p := PlanPosition(s, i);
    assert RowOk(s, p);
  }

  lemma PlanPosition(s: State, i: nat) returns (p: nat)
    requires PlanOk(s) && i < |s.listing| && s.listing[i].row.key !in SucceededKeys(s.listing)
    ensures p < |s.plan| && s.plan[p].index == s.listing[i].index
  {
    var x := s.listing[i];
    ToRunMember(s.listing, SucceededKeys(s.listing), Item(x.index, x.row.key));
    assert Item(x.index, x.row.key) in s.plan;
    p :| 0 <= p < |s.plan| && s.plan[p] == Item(x.index, x.row.key);
  }

  /** The three final statuses, in every state of every behaviour. */
  lemma FinalStatus(c: Config, states: seq<State>, actions: seq<Action>, i: nat)
    requires Behaviour(c, states, actions) && i < |states| && states[i].phase.Finished?
    ensures
      var s := states[i];
      && s.status == s.phase.outcome
      && (s.status == Completed ==>
            ((forall n :: n in s.rows ==> s.rows[n].status == Succeeded) <==> NoShadowedKeys(s.listing)))
      && (s.status == Aborted ==>
            !s.sawCancel && exists n :: n in s.failedHere && n in s.rows && s.rows[n].status == Failed)
      && (s.status == Cancelled <==> s.sawCancel)
  {
    InvAlways(c, states, actions, i);
    var s := states[i];
    hide Behaviour, PlanOk, PermitsOk, RowsOk, RestOk, FlagOk, OvershootOk, ExecutedOk, ToRun, NoShadowedKeys, ProgressOf;
    if s.phase == Finished(Completed) {
      CompletedIff(c, s);
    } else if s.phase == Finished(Aborted) {
      AbortedMeansFailed(c, s);
    }
  }

  // ---- Concurrency ----

  /** Never more than `concurrency` tasks; every permit is free, with a task, or with the launcher;
      and no iteration is executed twice by one coordinator. */
  lemma BoundedConcurrency(c: Config, states: seq<State>, actions: seq<Action>, i: nat)
    requires Behaviour(c, states, actions) && i < |states|
    ensures
      var s := states[i];
      && |s.tasks| <= c.concurrency
      && (Live(s) ==> s.permits + |s.tasks| + (if s.phase.Holding? then 1 else 0) == c.concurrency)
      && (Live(s) ==> forall n :: s.executed[n] <= s.base[n] + 1)
  {
    InvAlways(c, states, actions, i);
    hide Behaviour, PlanOk, RowsOk, RestOk, FlagOk, OutcomeOk, OvershootOk, ToRun;
    var s := states[i];
    if Live(s) {
      forall n
        ensures s.executed[n] <= s.base[n] + 1
      {
        if p :| 0 <= p < |s.plan| && s.plan[p].index == n {
          assert s.executed[s.plan[p].index] == s.base[s.plan[p].index] + if Started(s, p) then 1 else 0;
        } else {
          assert s.executed[n] == s.base[n];
        }
      }
    }
  }

  // ---- Overshoot ----

  function Spawns(actions: seq<Action>): nat {
    if actions == [] then 0 else Spawns(actions[..|actions| - 1]) + if actions[|actions| - 1].Spawn? then 1 else 0
  }

  /** No coordinator starts or dies between i and j. */
  predicate SameCoordinator(actions: seq<Action>, i: nat, j: nat)
    requires i <= j <= |actions|
  {
    forall k :: i <= k < j ==> !actions[k].Begin? && !actions[k].Crash?
  }

  lemma {:induction false} OvershootCounts(c: Config, states: seq<State>, actions: seq<Action>, i: nat, j: nat)
    requires Behaviour(c, states, actions) && i <= j < |states| && SameCoordinator(actions, i, j)
    requires Live(states[i]) && Stop(c, states[i])
    ensures Live(states[j]) && Stop(c, states[j])
    ensures states[j].overshoot == states[i].overshoot + Spawns(actions[i..j])
  {
    hide Behaviour, Do, Enabled, Stop, Live;
    BehaviourLength(c, states, actions);
    if i < j {
      OvershootCounts(c, states, actions, i, j - 1);
      BehaviourStep(c, states, actions, j);
      OvershootOne(c, states[j - 1], actions[j - 1]);
      assert actions[i..j][..j - 1 - i] == actions[i..j - 1];
    }
  }

  lemma OvershootOne(c: Config, s: State, a: Action)
    requires Enabled(c, s, a) && !a.Begin? && !a.Crash? && Live(s) && Stop(c, s)
    ensures
      var t := Do(c, s, a);
      Live(t) && Stop(c, t) && t.overshoot == s.overshoot + if a.Spawn? then 1 else 0
  {
    hide ToRun, ProgressOf, Updated, Touch;
  }

  /** Once the cancel flag, or under fail-fast the failure flag, is up, a coordinator spawns at most
      one more iteration, however long it goes on. */
  lemma BoundedOvershoot(c: Config, states: seq<State>, actions: seq<Action>, i: nat, j: nat)
    requires Behaviour(c, states, actions) && i <= j < |states| && SameCoordinator(actions, i, j)
    requires Live(states[i]) && Stop(c, states[i])
    ensures Spawns(actions[i..j]) <= 1
  {
    OvershootCounts(c, states, actions, i, j);
    InvAlways(c, states, actions, j);
    hide Behaviour, PlanOk, RowsOk, RestOk, FlagOk, OutcomeOk, ExecutedOk, PermitsOk, Spawns, Stop;
  }

  // ---- Across stops, crashes and resumptions ----

  lemma SucceededStep(c: Config, s: State, a: Action, n: nat)
    requires Inv(c, s) && Enabled(c, s, a) && n in s.rows
    ensures
      var t := Do(c, s, a);
      && t.rows.Keys == s.rows.Keys
      && t.rows[n].key == s.rows[n].key
      && (s.rows[n].status == Succeeded ==> t.rows[n] == s.rows[n] && t.executed[n] == s.executed[n])
  {
    if TaskStep(a) {
      TaskKeepsSucceeded(c, s, a, n);
    } else if a.ResetNext? {
      ResetKeepsSucceeded(c, s, a, n);
    } else {
      hide ToRun, ProgressOf, PlanOk, RowsOk, RestOk, FlagOk, OutcomeOk, OvershootOk, ExecutedOk, PermitsOk, Updated, Touch;
    }
  }

  lemma TaskKeepsSucceeded(c: Config, s: State, a: Action, n: nat)
    requires Inv(c, s) && Enabled(c, s, a) && n in s.rows && TaskStep(a)
    ensures
      var t := Do(c, s, a);
      && t.rows.Keys == s.rows.Keys && t.rows[n].key == s.rows[n].key
      && (s.rows[n].status == Succeeded ==> t.rows[n] == s.rows[n] && t.executed[n] == s.executed[n])
  {
    hide ToRun, ProgressOf, RestOk, FlagOk, OutcomeOk, OvershootOk, ExecutedOk, SucceededKeys;
    assert Live(s) && a.p < |s.plan| && a.p in s.tasks;
    assert RowOk(s, a.p) && s.plan[a.p].index in s.rows;
    hide PlanOk, RowsOk, PermitsOk, Inv, LiveInv;
    if s.plan[a.p].index == n && s.rows[n].status == Succeeded {
      assert a.Release?;
    }
  }

  lemma ResetKeepsSucceeded(c: Config, s: State, a: Action, n: nat)
    requires Inv(c, s) && Enabled(c, s, a) && n in s.rows && a.ResetNext?
    ensures
      var t := Do(c, s, a);
      && t.rows.Keys == s.rows.Keys && t.rows[n].key == s.rows[n].key
      && (s.rows[n].status == Succeeded ==> t.rows[n] == s.rows[n] && t.executed[n] == s.executed[n])
  {
    hide ToRun, ProgressOf, RowsOk, FlagOk, OutcomeOk, OvershootOk, ExecutedOk;
    var x := s.listing[s.phase.pos];
    assert s.rows[x.index] == x.row;
  }

  /** Over any sequence of starts, stops, crashes and resumptions: the set of iterations and their keys
      never change, and an iteration once Succeeded keeps its whole record, its run id included, and is
      never executed again. */
  lemma {:induction false} SucceededForever(c: Config, states: seq<State>, actions: seq<Action>, i: nat, j: nat, n: nat)
    requires Behaviour(c, states, actions) && i <= j < |states| && n in states[i].rows
    ensures states[j].rows.Keys == states[i].rows.Keys && states[j].rows[n].key == states[i].rows[n].key
    ensures states[i].rows[n].status == Succeeded ==>
              states[j].rows[n] == states[i].rows[n] && states[j].executed[n] == states[i].executed[n]
  {
    hide *;
    BehaviourLength(c, states, actions);
    if i < j {
      SucceededForever(c, states, actions, i, j - 1, n);
      InvAlways(c, states, actions, j - 1);
      BehaviourStep(c, states, actions, j);
      assert n in states[j - 1].rows.Keys;
      SucceededStep(c, states[j - 1], actions[j - 1], n);
    }
  }

  // ---- Termination ----

  function PhaseWork(s: State): nat {
    var left := if s.next <= |s.plan| then |s.plan| - s.next else 0;
    match s.phase
    case Down => 0
    case Resetting(pos) => 10 * |s.plan| + 10 + if pos <= |s.listing| then |s.listing| - pos else 0
    case CheckCancel => 10 * left + 6
    case CheckFail => 10 * left + 5
    case Waiting => 10 * left + 4
    case Holding => 10 * left + 3
    case Joining => 2
    case Deciding(_) => 1
    case Finished(_) => 0
  }

  function TaskRank(t: Task): nat {
    match t
    case Spawned => 4
    case Executing => 3
    case Failing => 2
    case Ending => 1
  }

  function TaskWork(tasks: map<nat, Task>, n: nat): nat {
    if n == 0 then 0 else TaskWork(tasks, n - 1) + if n - 1 in tasks then TaskRank(tasks[n - 1]) else 0
  }

  function Work(s: State): nat {
    PhaseWork(s) + TaskWork(s.tasks, s.next)
  }

  /** Steps of the coordinator and its tasks, as opposed to its environment. */
  predicate OwnStep(a: Action) {
    !a.Begin? && !a.SetCancel? && !a.Crash?
  }

  lemma {:induction false} TaskWorkChanged(before: map<nat, Task>, after: map<nat, Task>, n: nat, p: nat)
    requires p < n && p in before
    requires forall q :: q != p ==> (q in before <==> q in after) && (q in before ==> after[q] == before[q])
    requires p in after ==> TaskRank(after[p]) < TaskRank(before[p])
    ensures TaskWork(after, n) < TaskWork(before, n)
  {
    if p < n - 1 {
      TaskWorkChanged(before, after, n - 1, p);
    } else {
      TaskWorkSame(before, after, n - 1);
    }
  }

  lemma {:induction false} TaskWorkSame(before: map<nat, Task>, after: map<nat, Task>, n: nat)
    requires forall q :: q < n ==> (q in before <==> q in after) && (q in before ==> after[q] == before[q])
    ensures TaskWork(after, n) == TaskWork(before, n)
  {
    if n > 0 {
      TaskWorkSame(before, after, n - 1);
    }
  }

  /** Every step of its own brings a coordinator nearer its end. */
  lemma StepsRunOut(c: Config, s: State, a: Action)
    requires Inv(c, s) && Enabled(c, s, a) && OwnStep(a)
    ensures Work(Do(c, s, a)) < Work(s)
  {
    hide ToRun, ProgressOf, PlanOk, RowsOk, RestOk, FlagOk, OutcomeOk, OvershootOk, ExecutedOk, Updated, Touch, TaskWork;
    if TaskStep(a) {
      TaskStepsRunOut(c, s, a);
    } else if a.Spawn? {
      var t := Do(c, s, a);
      assert s.next !in s.tasks;
      TaskWorkSame(s.tasks, t.tasks, s.next);
      SpawnWork(t.tasks, s.next);
    }
  }

  lemma SpawnWork(tasks: map<nat, Task>, n: nat)
    requires n in tasks && tasks[n] == Spawned
    ensures TaskWork(tasks, n + 1) == TaskWork(tasks, n) + 4
  {
  }

  lemma TaskStepsRunOut(c: Config, s: State, a: Action)
    requires PermitsOk(c, s) && Enabled(c, s, a) && TaskStep(a)
    ensures Work(Do(c, s, a)) < Work(s)
  {
    hide ToRun, ProgressOf, Updated, Touch, TaskWork;
    var t := Do(c, s, a);
    TaskWorkChanged(s.tasks, t.tasks, s.next, a.p);
  }

  /** A coordinator that has not finished can always take a step of its own, except one waiting for a
      permit of an empty semaphore. So with `concurrency` at least 1 every run ends. */
  lemma NeverStuck(c: Config, s: State)
    requires Inv(c, s) && Live(s) && !s.phase.Finished?
    ensures (exists a :: OwnStep(a) && Enabled(c, s, a)) <==> !(s.phase.Waiting? && c.concurrency == 0)
  {
    hide ToRun, ProgressOf, RowsOk, FlagOk, OutcomeOk, OvershootOk, ExecutedOk;
    if s.tasks != map[] {
      assert |s.tasks| > 0 by {
        assert |s.tasks.Keys| == |s.tasks|;
        assert s.tasks.Keys != {};
      }
      var p :| p in s.tasks;
      var a := match s.tasks[p]
        case Spawned => MarkRunning(p, "")
        case Executing => Fail(p)
        case Failing => RecordFailure(p, "", "")
        case Ending => Release(p);
      assert OwnStep(a) && Enabled(c, s, a);
    } else {
      var a := match s.phase
        case Resetting(pos) => if pos < |s.listing| then ResetNext else StartLoop
        case CheckCancel => LoadCancel
        case CheckFail => LoadFailure
        case Waiting => Acquire
        case Holding => Spawn
        case Joining => ReadProgress
        case _ => Decide;
      assert OwnStep(a);
      if !(s.phase.Waiting? && c.concurrency == 0) {
        assert Enabled(c, s, a);
      }
    }
  }
}

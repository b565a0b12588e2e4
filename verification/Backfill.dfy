/** The backfill coordinator as a transition system: a launcher loop, a semaphore, tasks, two flags,
    a store that outlives crashes, and resumption. */
module Backfill {
  import opened Lists
  import opened BackfillStore

  datatype Config = Config(concurrency: nat, failFast: bool)

  /** One iteration the coordinator intends to run. */
  datatype Item = Item(index: nat, key: string)

  /** Where the coordinator is. The two stop flags are loaded one after the other, before the wait
      for a permit; a permit is held between the wait and the spawn. */
  datatype Phase =
    | Down
    | Resetting(pos: nat)
    | CheckCancel
    | CheckFail
    | Waiting
    | Holding
    | Joining
    | Deciding(progress: Progress)
    | Finished(outcome: BackfillStatus)

  /** Where a spawned task is; `Failing` has raised the failure flag but not yet written its row,
      `Ending` has written its row but still holds its permit. */
  datatype Task = Spawned | Executing | Failing | Ending

  datatype State = State(
    rows: Rows,                // persisted
    status: BackfillStatus,    // persisted
    listing: seq<Indexed>,     // what this coordinator read when it began
    plan: seq<Item>,           // what it intends to run
    next: nat,                 // position of the launcher loop in `plan`
    phase: Phase,
    tasks: map<nat, Task>,     // in-flight tasks by position in `plan`
    permits: nat,
    cancel: bool,
    hadFailure: bool,
    sawCancel: bool,           // the cancel flag as the final decision read it
    failedHere: set<nat>,      // indices this coordinator has marked failed
    overshoot: nat,            // spawns since a stop condition became true
    executed: multiset<nat>,   // every execution ever started, by index
    base: multiset<nat>        // the executions started before this coordinator
  )

  datatype Action =
    | Begin(listing: seq<Indexed>, cancelled: bool)
    | ResetNext
    | StartLoop
    | LoadCancel
    | LoadFailure
    | Acquire
    | Spawn
    | MarkRunning(p: nat, at: string)
    | Succeed(p: nat, runId: string, at: string)
    | Fail(p: nat)
    | RecordFailure(p: nat, error: string, at: string)
    | Release(p: nat)
    | ReadProgress
    | Decide
    | SetCancel
    | Crash

  function SucceededKeys(list: seq<Indexed>): set<string> {
    set x | x in list && x.row.status == Succeeded :: x.row.key
  }

  function ToRunFn(done: set<string>): Indexed -> Option<Item> {
    (x: Indexed) => if x.row.key in done then None else Some(Item(x.index, x.row.key))
  }

  /** The iterations whose key has not succeeded yet, in index order. */
  function ToRun(list: seq<Indexed>): seq<Item> {
    FilterMap(list, ToRunFn(SucceededKeys(list)))
  }

  function Touch(rows: Rows, index: nat, status: IterationStatus, runId: Option<string>, error: Option<string>,
                 startedAt: Option<string>, completedAt: Option<string>): Rows {
    if index in rows then rows[index := Updated(rows[index], status, runId, error, startedAt, completedAt)] else rows
  }

  /** What resuming does to a listed row before anything runs. */
  function Reset(row: Iteration): Iteration {
    if row.status == Failed then Updated(row, Pending, None, None, None, None) else row
  }

  predicate Stop(c: Config, s: State) {
    s.cancel || (c.failFast && s.hadFailure)
  }

  function Outcome(cancel: bool, progress: Progress): BackfillStatus {
    if cancel then Cancelled else if progress.failed > 0 then Aborted else Completed
  }

  predicate At(s: State, p: nat, t: Task) {
    p in s.tasks && s.tasks[p] == t && p < |s.plan|
  }

  ghost predicate Enabled(c: Config, s: State, a: Action) {
    match a
    case Begin(listing, _) => (s.phase.Down? || s.phase.Finished?) && ListingOf(listing, s.rows)
    case ResetNext => s.phase.Resetting? && s.phase.pos < |s.listing|
    case StartLoop => s.phase.Resetting? && s.phase.pos == |s.listing|
    case LoadCancel => s.phase.CheckCancel?
    case LoadFailure => s.phase.CheckFail?
    case Acquire => s.phase.Waiting? && s.permits > 0
    case Spawn => s.phase.Holding? && s.next < |s.plan|
    case MarkRunning(p, _) => At(s, p, Spawned)
    case Succeed(p, _, _) => At(s, p, Executing)
    case Fail(p) => At(s, p, Executing)
    case RecordFailure(p, _, _) => At(s, p, Failing)
    case Release(p) => At(s, p, Ending)
    case ReadProgress => s.phase.Joining? && s.tasks == map[]
    case Decide => s.phase.Deciding?
    case SetCancel => true
    case Crash => true
  }

  ghost function Do(c: Config, s: State, a: Action): State
    requires Enabled(c, s, a)
  {
    match a
    case Begin(listing, cancelled) =>
      s.(listing := listing, plan := ToRun(listing), next := 0, phase := Resetting(0), tasks := map[],
         permits := c.concurrency, cancel := cancelled, hadFailure := false, sawCancel := false,
         failedHere := {}, overshoot := 0, base := s.executed)
    case ResetNext =>
      var x := s.listing[s.phase.pos];
      s.(rows := if x.row.status == Failed then Touch(s.rows, x.index, Pending, None, None, None, None) else s.rows,
         phase := Resetting(s.phase.pos + 1))
    case StartLoop => s.(phase := CheckCancel, status := InProgress)
    case LoadCancel => s.(phase := if s.next == |s.plan| || s.cancel then Joining else CheckFail)
    case LoadFailure => s.(phase := if c.failFast && s.hadFailure then Joining else Waiting)
    case Acquire => s.(phase := Holding, permits := s.permits - 1)
    case Spawn =>
      s.(phase := CheckCancel, tasks := s.tasks[s.next := Spawned], next := s.next + 1,
         overshoot := s.overshoot + if Stop(c, s) then 1 else 0)
    case MarkRunning(p, at) =>
      s.(tasks := s.tasks[p := Executing], executed := s.executed + multiset{s.plan[p].index},
         rows := Touch(s.rows, s.plan[p].index, Running, None, None, Some(at), None))
    case Succeed(p, runId, at) =>
      s.(tasks := s.tasks[p := Ending],
         rows := Touch(s.rows, s.plan[p].index, Succeeded, Some(runId), None, None, Some(at)))
    case Fail(p) => s.(tasks := s.tasks[p := Failing], hadFailure := true)
    case RecordFailure(p, error, at) =>
      s.(tasks := s.tasks[p := Ending], failedHere := s.failedHere + {s.plan[p].index},
         rows := Touch(s.rows, s.plan[p].index, Failed, None, Some(error), None, Some(at)))
    case Release(p) => s.(tasks := s.tasks - {p}, permits := s.permits + 1)
    case ReadProgress => s.(phase := Deciding(ProgressOf(s.rows)))
    case Decide =>
      var outcome := Outcome(s.cancel, s.phase.progress);
      s.(phase := Finished(outcome), status := outcome, sawCancel := s.cancel)
    case SetCancel => s.(cancel := true)
    case Crash => s.(phase := Down, tasks := map[])
  }

  /** A freshly persisted backfill: every iteration pending, no coordinator yet. */
  ghost predicate Init(s: State) {
    && s.phase == Down && s.tasks == map[] && s.executed == multiset{}
    && forall n :: n in s.rows ==> s.rows[n].status == Pending
  }

  /** `states` is a run of the system: any interleaving of launcher, tasks, flag writes and crashes. */
  ghost predicate Behaviour(c: Config, states: seq<State>, actions: seq<Action>) {
    && |states| == |actions| + 1
    && Init(states[0])
    && forall i :: 0 <= i < |actions| ==> Enabled(c, states[i], actions[i]) && states[i + 1] == Do(c, states[i], actions[i])
  }

  // ---- The inductive invariant ----

  predicate Live(s: State) {
    !s.phase.Down?
  }

  /** Distinct planned indices, and the plan is what the listing says. */
  ghost predicate PlanOk(s: State) {
    && (forall i, j :: 0 <= i < j < |s.listing| ==> s.listing[i].index < s.listing[j].index)
    && (forall i :: 0 <= i < |s.listing| ==> s.listing[i].index in s.rows)
    && (forall n :: n in s.rows ==> exists i :: 0 <= i < |s.listing| && s.listing[i].index == n)
    && s.plan == ToRun(s.listing)
    && (forall p, q :: 0 <= p < q < |s.plan| ==> s.plan[p].index < s.plan[q].index)
    && (forall p :: 0 <= p < |s.plan| ==> s.plan[p].index in s.rows)
  }

  ghost predicate PermitsOk(c: Config, s: State) {
    && s.next <= |s.plan|
    && (forall p :: p in s.tasks ==> p < s.next)
    && s.permits + |s.tasks| + (if s.phase.Holding? then 1 else 0) == c.concurrency
    && (s.phase.Resetting? ==> s.next == 0 && s.tasks == map[] && !s.hadFailure)
    && (s.phase.CheckFail? || s.phase.Waiting? || s.phase.Holding? ==> s.next < |s.plan|)
    && (s.phase.Deciding? || s.phase.Finished? ==> s.tasks == map[])
  }

  predicate Untouched(row: Iteration) {
    row.status != Succeeded && row.status != Failed
  }

  predicate Done(s: State, index: nat)
    requires index in s.rows
  {
    s.rows[index].status == Succeeded || (s.rows[index].status == Failed && s.hadFailure && index in s.failedHere)
  }

  /** The row of the planned iteration at position p matches the progress of its task. */
  ghost predicate RowOk(s: State, p: nat)
    requires p < |s.plan| && s.plan[p].index in s.rows
  {
    var index := s.plan[p].index;
    if p !in s.tasks then
      if p < s.next then Done(s, index)
      else if s.phase.Resetting? then s.rows[index].status != Succeeded
      else Untouched(s.rows[index])
    else
      match s.tasks[p]
      case Spawned => Untouched(s.rows[index])
      case Executing => s.rows[index].status == Running
      case Failing => s.rows[index].status == Running && s.hadFailure
      case Ending => Done(s, index)
  }

  ghost predicate RowsOk(s: State)
    requires PlanOk(s)
  {
    forall p :: 0 <= p < |s.plan| ==> RowOk(s, p)
  }

  /** Rows outside the plan are as listed, reset when they had failed. */
  ghost predicate RestOk(s: State)
    requires PlanOk(s)
  {
    && (s.phase.Resetting? ==> s.phase.pos <= |s.listing|)
    && (forall i :: 0 <= i < |s.listing| && s.listing[i].row.key in SucceededKeys(s.listing) ==>
          s.rows[s.listing[i].index] ==
          if s.phase.Resetting? && s.phase.pos <= i then s.listing[i].row else Reset(s.listing[i].row))
    && (s.phase.Resetting? ==>
          forall i :: 0 <= i < |s.listing| ==>
            s.rows[s.listing[i].index] == if s.phase.pos <= i then s.listing[i].row else Reset(s.listing[i].row))
  }

  /** The failure flag always has a culprit, already recorded or about to be. */
  ghost predicate FlagOk(s: State)
    requires PlanOk(s)
  {
    s.hadFailure ==>
      exists p :: 0 <= p < s.next && p < |s.plan| &&
        (s.rows[s.plan[p].index].status == Failed || (p in s.tasks && s.tasks[p] == Failing))
  }

  /** The loop only ends early for a reason; the outcome is what was decided on. */
  ghost predicate OutcomeOk(c: Config, s: State) {
    && (s.phase.Joining? && s.next < |s.plan| ==> Stop(c, s))
    && (s.phase.Deciding? && s.next < |s.plan| ==> Stop(c, s))
    && (s.phase.Deciding? ==> s.phase.progress == ProgressOf(s.rows))
    && (s.phase.Finished? ==>
          && s.phase.outcome == s.status == Outcome(s.sawCancel, ProgressOf(s.rows))
          && (s.next < |s.plan| ==> s.sawCancel || (c.failFast && s.hadFailure)))
  }

  ghost predicate OvershootOk(c: Config, s: State) {
    && s.overshoot <= 1
    && (s.overshoot == 1 ==> Stop(c, s))
    && (s.phase.Waiting? || s.phase.Holding? || s.phase.Resetting? ==> s.overshoot == 0)
    && (s.phase.CheckFail? && s.overshoot == 1 ==> c.failFast && s.hadFailure)
  }

  /** The task at position p has started its execution. */
  predicate Started(s: State, p: nat) {
    p < s.next && !(p in s.tasks && s.tasks[p] == Spawned)
  }

  /** This coordinator has executed each planned iteration once if it started it, and nothing else. */
  ghost predicate ExecutedOk(s: State) {
    && (forall p :: 0 <= p < |s.plan| ==>
          s.executed[s.plan[p].index] == s.base[s.plan[p].index] + if Started(s, p) then 1 else 0)
    && (forall n :: (forall p :: 0 <= p < |s.plan| ==> s.plan[p].index != n) ==> s.executed[n] == s.base[n])
  }

  ghost predicate LiveInv(c: Config, s: State) {
    && PlanOk(s)
    && PermitsOk(c, s)
    && RowsOk(s)
    && RestOk(s)
    && FlagOk(s)
    && OutcomeOk(c, s)
    && OvershootOk(c, s)
    && ExecutedOk(s)
  }

  ghost predicate Inv(c: Config, s: State) {
    && (s.phase.Down? ==> s.tasks == map[])
    && (Live(s) ==> LiveInv(c, s))
  }
}

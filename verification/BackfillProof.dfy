/** Safety and termination of the coordinator over every interleaving. */
module BackfillProof {
  import opened Lists
  import opened BackfillStore
  import opened Backfill

  // ---- The plan ----

  lemma {:induction false} ToRunMember(list: seq<Indexed>, done: set<string>, item: Item)
    ensures item in FilterMap(list, ToRunFn(done)) <==>
            exists i :: 0 <= i < |list| && list[i].index == item.index && list[i].row.key == item.key && item.key !in done
  {
    FilterMapMember(list, ToRunFn(done), item);
    hide FilterMap;
    if x :| x in list && ToRunFn(done)(x) == Some(item) {
      var i :| 0 <= i < |list| && list[i] == x;
    }
    if i :| 0 <= i < |list| && list[i].index == item.index && list[i].row.key == item.key && item.key !in done {
      assert list[i] in list && ToRunFn(done)(list[i]) == Some(item);
    }
  }

  lemma {:induction false} ToRunIncreasing(list: seq<Indexed>, done: set<string>)
    requires forall i, j :: 0 <= i < j < |list| ==> list[i].index < list[j].index
    ensures
      var plan := FilterMap(list, ToRunFn(done));
      && (forall p, q :: 0 <= p < q < |plan| ==> plan[p].index < plan[q].index)
      && (forall item <- plan :: exists x :: x in list && x.index == item.index)
  {
    hide FilterMap;
    if list == [] {
      FilterMapEmpty(ToRunFn(done));
    } else {
      var n := |list| - 1;
      ToRunIncreasing(list[..n], done);
      var before := FilterMap(list[..n], ToRunFn(done));
      assert list == list[..n] + [list[n]];
      FilterMapSnoc(list[..n], list[n], ToRunFn(done));
      assert list[n] in list;
      forall item | item in before
        ensures item.index < list[n].index
        ensures exists x :: x in list && x.index == item.index
      {
        var x :| x in list[..n] && x.index == item.index;
        var i :| 0 <= i < n && list[..n][i] == x;
        assert list[i] == x && x in list;
      }
    }
  }

  // ---- Every step keeps the invariant ----

  lemma PlanStep(c: Config, s: State, a: Action)
    requires Inv(c, s) && Enabled(c, s, a) && Live(Do(c, s, a))
    ensures PlanOk(Do(c, s, a))
  {
    if a.Begin? {
      ToRunFacts(a.listing, s.rows);
    } else {
      hide ToRun, ProgressOf, Updated, FilterMap, PermitsOk, RowsOk, RestOk, FlagOk, OutcomeOk, OvershootOk, ExecutedOk, PlanOk, Do;
      PlanFrame(c, s, a);
      PlanSame(s, Do(c, s, a));
    }
  }

  lemma PlanFrame(c: Config, s: State, a: Action)
    requires Enabled(c, s, a) && !a.Begin?
    ensures
      var t := Do(c, s, a);
      t.listing == s.listing && t.plan == s.plan && t.rows.Keys == s.rows.Keys
  {
    hide ToRun, ProgressOf, Updated, FilterMap;
    assert Do(c, s, a).rows.Keys == s.rows.Keys;
  }

  lemma PlanSame(s: State, t: State)
    requires PlanOk(s) && t.listing == s.listing && t.plan == s.plan && t.rows.Keys == s.rows.Keys
    ensures PlanOk(t)
  {
    hide ToRun;
    assert forall n :: n in t.rows <==> n in s.rows.Keys;
  }

  lemma ToRunFacts(list: seq<Indexed>, rows: Rows)
    requires ListingOf(list, rows)
    ensures
      var plan := ToRun(list);
      && (forall p, q :: 0 <= p < q < |plan| ==> plan[p].index < plan[q].index)
      && (forall p :: 0 <= p < |plan| ==> plan[p].index in rows)
  {
    ToRunIncreasing(list, SucceededKeys(list));
    hide FilterMap, SucceededKeys;
    var plan := ToRun(list);
    forall p | 0 <= p < |plan|
      ensures plan[p].index in rows
    {
      assert plan[p] in plan;
      var x :| x in list && x.index == plan[p].index;
    }
  }

  predicate TaskStep(a: Action) {
    a.MarkRunning? || a.Succeed? || a.Fail? || a.RecordFailure? || a.Release?
  }

  /** Steps of the launcher and the flags: they touch neither rows nor tasks. */
  predicate QuietStep(a: Action) {
    a.LoadCancel? || a.LoadFailure? || a.Acquire? || a.ReadProgress? || a.Decide? || a.SetCancel?
  }

  lemma PermitsStep(c: Config, s: State, a: Action)
    requires Inv(c, s) && Enabled(c, s, a) && Live(Do(c, s, a))
    ensures PermitsOk(c, Do(c, s, a))
  {
    hide ToRun, ProgressOf, Updated, PlanOk, RowsOk, RestOk, FlagOk, OutcomeOk, OvershootOk, ExecutedOk, Touch;
    if a.Spawn? || TaskStep(a) {
      hide Inv;
      PermitsTask(c, s, a);
    }
  }

  lemma PermitsTask(c: Config, s: State, a: Action)
    requires PermitsOk(c, s) && Enabled(c, s, a) && (a.Spawn? || TaskStep(a))
    ensures PermitsOk(c, Do(c, s, a))
  {
    hide *;
    if a.Spawn? {
      PermitsSpawn(c, s, a);
    } else if a.Release? {
      PermitsRelease(c, s, a);
    } else {
      PermitsProgress(c, s, a);
    }
  }

  lemma PermitsSpawn(c: Config, s: State, a: Action)
    requires PermitsOk(c, s) && Enabled(c, s, a) && a.Spawn?
    ensures PermitsOk(c, Do(c, s, a))
  {
    hide ToRun, ProgressOf, Updated, Touch;
    CardAdded(s.tasks, Do(c, s, a).tasks, s.next);
  }

  lemma PermitsRelease(c: Config, s: State, a: Action)
    requires PermitsOk(c, s) && Enabled(c, s, a) && a.Release?
    ensures PermitsOk(c, Do(c, s, a))
  {
    hide ToRun, ProgressOf, Updated, Touch;
    CardAdded(Do(c, s, a).tasks, s.tasks, a.p);
  }

  lemma PermitsProgress(c: Config, s: State, a: Action)
    requires PermitsOk(c, s) && Enabled(c, s, a) && TaskStep(a) && !a.Release?
    ensures PermitsOk(c, Do(c, s, a))
  {
    TaskFrame(c, s, a);
    hide ToRun, ProgressOf, Updated, Touch, Do, Enabled;
    CardSame(s.tasks, Do(c, s, a).tasks);
  }

  lemma CardAdded(small: map<nat, Task>, big: map<nat, Task>, p: nat)
    requires p !in small && big.Keys == small.Keys + {p}
    ensures |big| == |small| + 1
  {
    assert |big| == |big.Keys| && |small| == |small.Keys|;
  }

  lemma CardSame(x: map<nat, Task>, y: map<nat, Task>)
    requires x.Keys == y.Keys
    ensures |x| == |y|
    ensures x == map[] <==> y == map[]
  {
    assert |x| == |x.Keys| && |y| == |y.Keys|;
    assert x == map[] <==> x.Keys == {};
    assert y == map[] <==> y.Keys == {};
  }

  lemma TaskFrame(c: Config, s: State, a: Action)
    requires Enabled(c, s, a) && TaskStep(a) && !a.Release?
    ensures
      var t := Do(c, s, a);
      && t.tasks.Keys == s.tasks.Keys && t.next == s.next && t.plan == s.plan && t.permits == s.permits
      && t.phase == s.phase && a.p in s.tasks && (t.hadFailure == s.hadFailure || a.Fail?)
  {
    hide ToRun, ProgressOf, Updated, Touch;
  }

  /** A row nobody stepped on stays right. */
  lemma RowFrame(s: State, t: State, p: nat)
    requires p < |s.plan| && s.plan == t.plan && s.plan[p].index in s.rows && s.plan[p].index in t.rows
    requires RowOk(s, p) && t.rows[s.plan[p].index] == s.rows[s.plan[p].index]
    requires (p in s.tasks <==> p in t.tasks) && (p in s.tasks ==> t.tasks[p] == s.tasks[p])
    requires (p < s.next <==> p < t.next) && (s.phase.Resetting? <==> t.phase.Resetting?)
    requires (s.hadFailure ==> t.hadFailure) && s.failedHere <= t.failedHere
    ensures RowOk(t, p)
  {
  }

  lemma RowsStep(c: Config, s: State, a: Action)
    requires Inv(c, s) && Enabled(c, s, a) && Live(Do(c, s, a)) && PlanOk(Do(c, s, a))
    ensures RowsOk(Do(c, s, a))
  {
    var t := Do(c, s, a);
    hide PlanOk, RestOk, FlagOk, OutcomeOk, OvershootOk, ExecutedOk, RowsOk, PermitsOk;
    if a.Begin? {
      BeginRows(c, s, a);
    } else if a.ResetNext? {
      ResetRows(c, s, a);
    } else if a.StartLoop? {
      StartRows(c, s, a);
    } else if TaskStep(a) {
      TaskRows(c, s, a);
    } else if a.Spawn? {
      SpawnRows(c, s, a);
    } else {
      assert QuietStep(a);
      QuietRows(c, s, a);
    }
  }

  lemma QuietRows(c: Config, s: State, a: Action)
    requires Enabled(c, s, a) && QuietStep(a) && PlanOk(s) && RowsOk(s) && PlanOk(Do(c, s, a))
    ensures RowsOk(Do(c, s, a))
  {
    hide ToRun, ProgressOf, RowOk;
    var t := Do(c, s, a);
    forall p | 0 <= p < |t.plan|
      ensures RowOk(t, p)
    {
      RowFrame(s, t, p);
    }
  }

  lemma SpawnRows(c: Config, s: State, a: Action)
    requires Enabled(c, s, a) && a.Spawn? && PlanOk(s) && PermitsOk(c, s) && RowsOk(s) && PlanOk(Do(c, s, a))
    ensures RowsOk(Do(c, s, a))
  {
    hide ToRun, ProgressOf;
    var t := Do(c, s, a);
    assert RowOk(s, s.next);
    forall p | 0 <= p < |t.plan| && p != s.next
      ensures RowOk(t, p)
    {
      assert RowOk(s, p);
      hide RowOk;
      RowFrame(s, t, p);
    }
  }

  lemma TaskRows(c: Config, s: State, a: Action)
    requires Enabled(c, s, a) && TaskStep(a) && PlanOk(s) && PermitsOk(c, s) && RowsOk(s) && PlanOk(Do(c, s, a))
    ensures RowsOk(Do(c, s, a))
  {
    hide ToRun, ProgressOf, Do, RowOk, PermitsOk, PlanOk, Enabled;
    OwnRow(c, s, a);
    forall p | 0 <= p < |Do(c, s, a).plan| && p != a.p
      ensures p < |Do(c, s, a).plan| && Do(c, s, a).plan[p].index in Do(c, s, a).rows && RowOk(Do(c, s, a), p)
    {
      OtherRow(c, s, a, p);
    }
  }

  lemma OtherRow(c: Config, s: State, a: Action, p: nat)
    requires Enabled(c, s, a) && TaskStep(a) && PlanOk(s) && RowsOk(s) && p < |Do(c, s, a).plan| && p != a.p
    ensures Do(c, s, a).plan[p].index in Do(c, s, a).rows && RowOk(Do(c, s, a), p)
  {
    TaskRowFrame(c, s, a);
    hide ToRun, ProgressOf, Do, RowOk, Enabled;
    assert RowOk(s, p) && a.p < |s.plan|;
    PlanDistinct(s, p, a.p);
    hide PlanOk, RowsOk;
    RowFrame(s, Do(c, s, a), p);
  }

  lemma OwnRow(c: Config, s: State, a: Action)
    requires Enabled(c, s, a) && TaskStep(a) && PlanOk(s) && PermitsOk(c, s) && RowsOk(s)
    ensures
      var t := Do(c, s, a);
      a.p < |t.plan| && t.plan[a.p].index in t.rows && RowOk(t, a.p)
  {
    hide ToRun, ProgressOf;
    assert RowOk(s, a.p);
  }

  lemma BeginRows(c: Config, s: State, a: Action)
    requires Enabled(c, s, a) && a.Begin? && PlanOk(Do(c, s, a))
    ensures RowsOk(Do(c, s, a))
  {
    hide FilterMap;
    var t := Do(c, s, a);
    forall p | 0 <= p < |t.plan|
      ensures RowOk(t, p)
    {
      ToRunMember(t.listing, SucceededKeys(t.listing), t.plan[p]);
      assert t.plan[p] in t.plan;
      var i :| 0 <= i < |t.listing| && t.listing[i].index == t.plan[p].index && t.listing[i].row.key == t.plan[p].key;
      assert t.listing[i] in t.listing;
    }
  }

  lemma ResetRows(c: Config, s: State, a: Action)
    requires Enabled(c, s, a) && a.ResetNext? && PlanOk(s) && PermitsOk(c, s) && RowsOk(s) && PlanOk(Do(c, s, a))
    ensures RowsOk(Do(c, s, a))
  {
    hide FilterMap, ToRun, ProgressOf;
    var t := Do(c, s, a);
    forall p | 0 <= p < |t.plan|
      ensures RowOk(t, p)
    {
      assert RowOk(s, p);
    }
  }

  lemma StartRows(c: Config, s: State, a: Action)
    requires Enabled(c, s, a) && a.StartLoop? && PlanOk(s) && PermitsOk(c, s) && RowsOk(s) && RestOk(s) && PlanOk(Do(c, s, a))
    ensures RowsOk(Do(c, s, a))
  {
    hide FilterMap, ToRun, ProgressOf;
    var t := Do(c, s, a);
    forall p | 0 <= p < |t.plan|
      ensures RowOk(t, p)
    {
      assert RowOk(s, p);
      var i :| 0 <= i < |s.listing| && s.listing[i].index == s.plan[p].index;
      assert s.rows[s.listing[i].index] == Reset(s.listing[i].row);
    }
  }

  lemma RestStep(c: Config, s: State, a: Action)
    requires Inv(c, s) && Enabled(c, s, a) && Live(Do(c, s, a)) && PlanOk(Do(c, s, a))
    ensures RestOk(Do(c, s, a))
  {
    hide FilterMap, ToRun, ProgressOf, FlagOk, OutcomeOk, OvershootOk, RowsOk, SucceededKeys, PermitsOk, Updated, PlanOk,
      RestOk, ExecutedOk;
    if a.Begin? {
      BeginRest(c, s, a);
    } else if a.ResetNext? {
      ResetRest(c, s, a);
    } else if TaskStep(a) {
      TaskRest(c, s, a);
    } else {
      QuietRest(c, s, a);
    }
  }

  lemma BeginRest(c: Config, s: State, a: Action)
    requires Enabled(c, s, a) && a.Begin? && PlanOk(Do(c, s, a))
    ensures RestOk(Do(c, s, a))
  {
    hide FilterMap, ToRun, ProgressOf, SucceededKeys, Updated;
  }

  lemma QuietRest(c: Config, s: State, a: Action)
    requires Enabled(c, s, a) && (QuietStep(a) || a.StartLoop? || a.Spawn?)
    requires PlanOk(s) && RestOk(s) && PlanOk(Do(c, s, a))
    ensures RestOk(Do(c, s, a))
  {
    hide FilterMap, ToRun, ProgressOf, SucceededKeys, Updated, PlanOk, RestOk;
    QuietFrame(c, s, a);
    hide Do, Enabled;
    RestSame(s, Do(c, s, a));
  }

  lemma QuietFrame(c: Config, s: State, a: Action)
    requires Enabled(c, s, a) && (QuietStep(a) || a.StartLoop? || a.Spawn?)
    ensures
      var t := Do(c, s, a);
      && t.rows == s.rows && t.listing == s.listing
      && (t.phase == s.phase || (!t.phase.Resetting? && (s.phase.Resetting? ==> s.phase.pos == |s.listing|)))
  {
    hide ToRun, ProgressOf, Updated, Touch;
  }

  lemma RestSame(s: State, t: State)
    requires PlanOk(s) && PlanOk(t) && RestOk(s) && t.rows == s.rows && t.listing == s.listing
    requires t.phase == s.phase || (!t.phase.Resetting? && (s.phase.Resetting? ==> s.phase.pos == |s.listing|))
    ensures RestOk(t)
  {
    hide ToRun, SucceededKeys, Reset;
  }

  lemma ResetRest(c: Config, s: State, a: Action)
    requires Enabled(c, s, a) && a.ResetNext? && PlanOk(s) && RestOk(s) && PlanOk(Do(c, s, a))
    ensures RestOk(Do(c, s, a))
  {
    hide FilterMap, ToRun, ProgressOf, SucceededKeys, Reset, Do;
    ResetFrame(c, s, a);
  }

  lemma ResetFrame(c: Config, s: State, a: Action)
    requires Enabled(c, s, a) && a.ResetNext? && PlanOk(s) && RestOk(s)
    ensures
      var t, pos := Do(c, s, a), s.phase.pos;
      && t.phase == Resetting(pos + 1) && t.listing == s.listing
      && s.listing[pos].index in t.rows && t.rows[s.listing[pos].index] == Reset(s.listing[pos].row)
      && forall i :: 0 <= i < |s.listing| && i != pos ==>
           s.listing[i].index in t.rows && t.rows[s.listing[i].index] == s.rows[s.listing[i].index]
  {
    hide FilterMap, ToRun, ProgressOf, SucceededKeys;
    var t, pos := Do(c, s, a), s.phase.pos;
    var x := s.listing[pos];
    assert s.rows[x.index] == x.row;
    forall i | 0 <= i < |s.listing| && i != pos
      ensures s.listing[i].index != x.index
    {
      if i < pos {
        assert s.listing[i].index < s.listing[pos].index;
      } else {
        assert s.listing[pos].index < s.listing[i].index;
      }
    }
  }

  lemma TaskNotResetting(c: Config, s: State, a: Action)
    requires Enabled(c, s, a) && TaskStep(a) && PermitsOk(c, s)
    ensures !s.phase.Resetting?
  {
    hide ToRun, ProgressOf;
  }

  lemma TaskRest(c: Config, s: State, a: Action)
    requires Enabled(c, s, a) && TaskStep(a) && PlanOk(s) && PermitsOk(c, s) && RestOk(s) && PlanOk(Do(c, s, a))
    ensures RestOk(Do(c, s, a))
  {
    hide FilterMap, ToRun, ProgressOf, SucceededKeys, Updated, Touch, Do, Enabled, Reset;
    TaskRowFrame(c, s, a);
    TaskNotResetting(c, s, a);
    forall i | 0 <= i < |s.listing| && s.listing[i].row.key in SucceededKeys(s.listing)
      ensures Do(c, s, a).rows[s.listing[i].index] == s.rows[s.listing[i].index]
    {
      PlannedKeysHaveNotSucceeded(s, i);
    }
  }

  /** A task writes no row but its own and moves no task but its own. */
  lemma TaskRowFrame(c: Config, s: State, a: Action)
    requires Enabled(c, s, a) && TaskStep(a)
    ensures
      var t := Do(c, s, a);
      && a.p < |s.plan| && t.phase == s.phase && t.listing == s.listing && t.plan == s.plan && t.rows.Keys == s.rows.Keys
      && t.next == s.next && (s.hadFailure ==> t.hadFailure) && s.failedHere <= t.failedHere
      && (forall n :: n in s.rows && n != s.plan[a.p].index ==> t.rows[n] == s.rows[n])
      && (forall p :: p != a.p ==> (p in s.tasks <==> p in t.tasks))
      && (forall p :: p != a.p && p in s.tasks ==> t.tasks[p] == s.tasks[p])
  {
    hide ToRun, ProgressOf, Updated;
  }

  /** An iteration whose key had succeeded is not planned, under any index sharing that key. */
  lemma PlannedKeysHaveNotSucceeded(s: State, i: nat)
    requires PlanOk(s) && i < |s.listing| && s.listing[i].row.key in SucceededKeys(s.listing)
    ensures forall p :: 0 <= p < |s.plan| ==> s.plan[p].index != s.listing[i].index
  {
    hide FilterMap, SucceededKeys;
    forall p | 0 <= p < |s.plan|
      ensures s.plan[p].index != s.listing[i].index
    {
      ToRunMember(s.listing, SucceededKeys(s.listing), s.plan[p]);
      assert s.plan[p] in s.plan;
      var j :| 0 <= j < |s.listing| && s.listing[j].index == s.plan[p].index && s.listing[j].row.key == s.plan[p].key;
      assert i != j;
    }
  }

  /** Position p accounts for the failure flag. */
  predicate Culprit(s: State, p: nat)
    requires p < |s.plan| ==> s.plan[p].index in s.rows
  {
    p < s.next && p < |s.plan| && (s.rows[s.plan[p].index].status == Failed || (p in s.tasks && s.tasks[p] == Failing))
  }

  lemma FlagStep(c: Config, s: State, a: Action)
    requires Inv(c, s) && Enabled(c, s, a) && Live(Do(c, s, a)) && PlanOk(Do(c, s, a))
    ensures FlagOk(Do(c, s, a))
  {
    var t := Do(c, s, a);
    if t.hadFailure && !a.Begin? && !a.ResetNext? && !a.StartLoop? {
      hide FilterMap, ToRun, ProgressOf, RestOk, OutcomeOk, OvershootOk, RowsOk, Updated, PlanOk, PermitsOk, FlagOk, ExecutedOk;
      if a.Fail? || a.RecordFailure? {
        NewCulprit(c, s, a);
      } else {
        var p := FlagCulprit(s);
        CulpritStays(c, s, a, p);
        FlagFromCulprit(t, p);
      }
    } else if t.hadFailure {
      hide FilterMap, ToRun, ProgressOf, RestOk, OutcomeOk, OvershootOk, RowsOk, Updated, PlanOk;
    }
  }

  lemma FlagFromCulprit(t: State, p: nat)
    requires PlanOk(t) && Culprit(t, p)
    ensures FlagOk(t)
  {
    hide ToRun;
  }

  lemma NewCulprit(c: Config, s: State, a: Action)
    requires PlanOk(s) && PermitsOk(c, s) && Enabled(c, s, a) && (a.Fail? || a.RecordFailure?) && PlanOk(Do(c, s, a))
    ensures FlagOk(Do(c, s, a))
  {
    hide ToRun, FilterMap, ProgressOf;
    var t := Do(c, s, a);
    assert Culprit(t, a.p);
  }

  ghost function FlagCulprit(s: State): (p: nat)
    requires PlanOk(s) && FlagOk(s) && s.hadFailure
    ensures Culprit(s, p)
  {
    var p :| 0 <= p < s.next && p < |s.plan| &&
        (s.rows[s.plan[p].index].status == Failed || (p in s.tasks && s.tasks[p] == Failing));
    p
  }

  lemma CulpritStays(c: Config, s: State, a: Action, p: nat)
    requires PlanOk(s) && PermitsOk(c, s) && RowsOk(s) && Enabled(c, s, a) && PlanOk(Do(c, s, a))
    requires QuietStep(a) || a.Spawn? || a.MarkRunning? || a.Succeed? || a.Release?
    requires Culprit(s, p)
    ensures Culprit(Do(c, s, a), p)
  {
    assert s.plan[p].index in s.rows;
    hide FilterMap, ToRun, ProgressOf, Updated, PlanOk, RowsOk, PermitsOk;
    if QuietStep(a) || a.Spawn? {
      CulpritQuiet(c, s, a, p);
    } else if p == a.p {
      CulpritOwn(c, s, a);
    } else {
      TaskRowFrame(c, s, a);
      PlanDistinct(s, p, a.p);
      hide Do, Enabled;
    }
  }

  lemma CulpritQuiet(c: Config, s: State, a: Action, p: nat)
    requires PermitsOk(c, s) && Enabled(c, s, a) && (QuietStep(a) || a.Spawn?)
    requires p < |s.plan| && s.plan[p].index in s.rows && Culprit(s, p)
    ensures
      var t := Do(c, s, a);
      t.plan == s.plan && t.rows == s.rows && Culprit(t, p)
  {
    hide ToRun, ProgressOf, Updated, Touch;
  }

  lemma CulpritOwn(c: Config, s: State, a: Action)
    requires PlanOk(s) && PermitsOk(c, s) && RowsOk(s) && Enabled(c, s, a) && PlanOk(Do(c, s, a))
    requires a.MarkRunning? || a.Succeed? || a.Release?
    requires Culprit(s, a.p)
    ensures Culprit(Do(c, s, a), a.p)
  {
    hide ToRun, ProgressOf, Updated, Touch;
    assert RowOk(s, a.p);
    hide PlanOk, RowsOk;
  }

  lemma PlanDistinct(s: State, p: nat, q: nat)
    requires PlanOk(s) && p < |s.plan| && q < |s.plan| && p != q
    ensures s.plan[p].index != s.plan[q].index
  {
    if p < q {
      assert s.plan[p].index < s.plan[q].index;
    } else {
      assert s.plan[q].index < s.plan[p].index;
    }
  }

  lemma OutcomeStep(c: Config, s: State, a: Action)
    requires Inv(c, s) && Enabled(c, s, a) && Live(Do(c, s, a))
    ensures OutcomeOk(c, Do(c, s, a))
  {
    hide FilterMap, ToRun, ProgressOf, PlanOk, RowsOk, RestOk, FlagOk, OvershootOk, ExecutedOk;
  }

  lemma OvershootStep(c: Config, s: State, a: Action)
    requires Inv(c, s) && Enabled(c, s, a) && Live(Do(c, s, a))
    ensures OvershootOk(c, Do(c, s, a))
  {
    hide FilterMap, ToRun, ProgressOf, PlanOk, RowsOk, RestOk, FlagOk, OutcomeOk, ExecutedOk, Touch;
  }

  lemma ExecutedStep(c: Config, s: State, a: Action)
    requires Inv(c, s) && Enabled(c, s, a) && Live(Do(c, s, a)) && PlanOk(Do(c, s, a))
    ensures ExecutedOk(Do(c, s, a))
  {
    hide FilterMap, ToRun, ProgressOf, RestOk, OutcomeOk, OvershootOk, RowsOk, FlagOk, Updated, Touch, PlanOk, ExecutedOk,
      PermitsOk;
    if a.MarkRunning? {
      ExecutedOnce(c, s, a);
    } else if a.Begin? {
      ExecutedNothing(c, s, a);
    } else {
      ExecutedFrame(c, s, a);
    }
  }

  lemma ExecutedOnce(c: Config, s: State, a: Action)
    requires PlanOk(s) && PermitsOk(c, s) && ExecutedOk(s) && Enabled(c, s, a) && a.MarkRunning?
    ensures ExecutedOk(Do(c, s, a))
  {
    hide FilterMap, ToRun, ProgressOf, Updated, Touch;
    var t := Do(c, s, a);
    assert t.executed == s.executed + multiset{s.plan[a.p].index};
    assert forall p :: p != a.p ==> (Started(t, p) <==> Started(s, p));
    forall p | 0 <= p < |t.plan| && p != a.p
      ensures t.plan[p].index != t.plan[a.p].index
    {
      PlanDistinct(s, p, a.p);
    }
  }

  lemma ExecutedNothing(c: Config, s: State, a: Action)
    requires Enabled(c, s, a) && a.Begin?
    ensures ExecutedOk(Do(c, s, a))
  {
    hide FilterMap, ToRun, ProgressOf, Updated, Touch;
    assert forall p :: !Started(Do(c, s, a), p);
  }

  lemma ExecutedFrame(c: Config, s: State, a: Action)
    requires PermitsOk(c, s) && ExecutedOk(s) && Enabled(c, s, a) && Live(Do(c, s, a)) && !a.MarkRunning? && !a.Begin?
    ensures ExecutedOk(Do(c, s, a))
  {
    StartedFrame(c, s, a);
    hide Do, Enabled, Started;
  }

  lemma StartedFrame(c: Config, s: State, a: Action)
    requires PermitsOk(c, s) && Enabled(c, s, a) && Live(Do(c, s, a)) && !a.MarkRunning? && !a.Begin?
    ensures
      var t := Do(c, s, a);
      t.plan == s.plan && t.executed == s.executed && t.base == s.base && forall p :: Started(t, p) <==> Started(s, p)
  {
    hide FilterMap, ToRun, ProgressOf, Updated, Touch;
  }

  lemma InvStep(c: Config, s: State, a: Action)
    requires Inv(c, s) && Enabled(c, s, a)
    ensures Inv(c, Do(c, s, a))
  {
    if Live(Do(c, s, a)) {
      hide PlanOk, PermitsOk, RowsOk, RestOk, FlagOk, OutcomeOk, OvershootOk, ExecutedOk, ToRun, ProgressOf, Touch;
      PlanStep(c, s, a);
      PermitsStep(c, s, a);
      RowsStep(c, s, a);
      RestStep(c, s, a);
      FlagStep(c, s, a);
      OutcomeStep(c, s, a);
      OvershootStep(c, s, a);
      ExecutedStep(c, s, a);
    }
  }

  lemma BehaviourLength(c: Config, states: seq<State>, actions: seq<Action>)
    requires Behaviour(c, states, actions)
    ensures |states| == |actions| + 1
  {
  }

  lemma BehaviourStep(c: Config, states: seq<State>, actions: seq<Action>, i: nat)
    requires Behaviour(c, states, actions) && 0 < i < |states|
    ensures |states| == |actions| + 1
    ensures Enabled(c, states[i - 1], actions[i - 1]) && states[i] == Do(c, states[i - 1], actions[i - 1])
  {
    hide Enabled, Do, Init;
    assert states[i - 1 + 1] == states[i];
  }

  /** The invariant holds in every state of every behaviour. */
  lemma {:induction false} InvAlways(c: Config, states: seq<State>, actions: seq<Action>, i: nat)
    requires Behaviour(c, states, actions) && i < |states|
    ensures Inv(c, states[i])
  {
    hide Inv, Do, Enabled;
    if i == 0 {
      InvStart(c, states[0]);
    } else {
      InvAlways(c, states, actions, i - 1);
      BehaviourStep(c, states, actions, i);
      InvStep(c, states[i - 1], actions[i - 1]);
    }
  }

  lemma InvStart(c: Config, s: State)
    requires Init(s)
    ensures Inv(c, s)
  {
  }
}

/** Preparing to resume on the real store, and the run that completes a backfill without finishing it. */
module BackfillResume {
  import opened Lists
  import opened BackfillStore
  import opened Backfill

  // ---- The loops before the coordinator starts ----

  /** Every row as it was, failed ones back to pending with their run and timestamps kept. */
  ghost predicate AllReset(before: Rows, after: Rows) {
    after.Keys == before.Keys && forall n :: n in before ==> after[n] == Reset(before[n])
  }

  /** The first `k` listed rows are reset and the others are as before. */
  ghost predicate ResetUpTo(list: seq<Indexed>, before: Rows, after: Rows, k: nat) {
    && after.Keys == before.Keys
    && forall i :: 0 <= i < |list| ==>
         list[i].index in before && after[list[i].index] == if i < k then Reset(before[list[i].index]) else before[list[i].index]
  }

  lemma ResetStart(list: seq<Indexed>, rows: Rows)
    requires ListingOf(list, rows)
    ensures ResetUpTo(list, rows, rows, 0)
  {
  }

  lemma ResetStep(list: seq<Indexed>, before: Rows, after: Rows, k: nat)
    requires ListingOf(list, before) && ResetUpTo(list, before, after, k) && k < |list|
    ensures ResetUpTo(list, before,
      if list[k].row.status == Failed then Touch(after, list[k].index, Pending, None, None, None, None) else after, k + 1)
  {
    assert list[k].index in before && before[list[k].index] == list[k].row;
    forall i | 0 <= i < |list| && i != k
      ensures list[i].index != list[k].index
    {
    }
  }

  lemma ResetEnd(list: seq<Indexed>, before: Rows, after: Rows)
    requires ListingOf(list, before) && ResetUpTo(list, before, after, |list|)
    ensures AllReset(before, after)
  {
    forall n | n in before
      ensures after[n] == Reset(before[n])
    {
      var i :| 0 <= i < |list| && list[i].index == n;
    }
  }

  method CollectSucceededKeys(list: seq<Indexed>) returns (keys: set<string>)
    ensures keys == SucceededKeys(list)
  {
    keys := {};
    for i := 0 to |list|
      invariant keys == SucceededKeys(list[..i])
    {
      assert list[..i + 1] == list[..i] + [list[i]];
      if list[i].row.status == Succeeded {
        keys := keys + {list[i].row.key};
      }
      OneMoreKey(list[..i], list[i]);
    }
    assert list[..|list|] == list;
  }

  lemma OneMoreKey(list: seq<Indexed>, x: Indexed)
    ensures SucceededKeys(list + [x]) == SucceededKeys(list) + if x.row.status == Succeeded then {x.row.key} else {}
  {
    var more := list + [x];
    assert forall y :: y in more <==> y in list || y == x;
    forall k | k in SucceededKeys(list)
      ensures k in SucceededKeys(more)
    {
      var y :| y in list && y.row.status == Succeeded && y.row.key == k;
      assert y in more;
    }
    if x.row.status == Succeeded {
      assert x in more;
    }
  }

  method PlanRuns(list: seq<Indexed>, done: set<string>) returns (plan: seq<Item>)
    ensures plan == FilterMap(list, ToRunFn(done))
  {
    plan := [];
    for i := 0 to |list|
      invariant plan == FilterMap(list[..i], ToRunFn(done))
    {
      if list[i].row.key !in done {
        plan := plan + [Item(list[i].index, list[i].row.key)];
      }
      assert list[..i + 1] == list[..i] + [list[i]];
      FilterMapSnoc(list[..i], list[i], ToRunFn(done));
    }
    assert list[..|list|] == list;
  }

  /** What happens on the store before a resumed coordinator launches anything: the plan is the one the
      transition system uses, and its resets are these updates. */
  method PrepareResume(store: Store) returns (plan: seq<Item>, listing: seq<Indexed>)
    modifies store`rows
    ensures ListingOf(listing, old(store.rows)) && plan == ToRun(listing)
    ensures AllReset(old(store.rows), store.rows)
  {
    hide ListingOf, ResetUpTo, AllReset, SucceededKeys, FilterMap;
    listing := store.ListIterations();
    ghost var before := store.rows;
    var done := CollectSucceededKeys(listing);
    ResetStart(listing, before);
    for i := 0 to |listing|
      invariant ResetUpTo(listing, before, store.rows, i)
    {
      ResetStep(listing, before, store.rows, i);
      if listing[i].row.status == Failed {
        store.UpdateIteration(listing[i].index, Pending, None, None, None, None);
      }
    }
    ResetEnd(listing, before, store.rows);
    plan := PlanRuns(listing, done);
  }

  // ---- Nothing left to run ----

  ghost predicate Path(c: Config, states: seq<State>, actions: seq<Action>) {
    && |states| == |actions| + 1
    && forall i :: 0 <= i < |actions| ==> Enabled(c, states[i], actions[i]) && states[i + 1] == Do(c, states[i], actions[i])
  }

  lemma PathStart(c: Config, s: State)
    ensures Path(c, [s], [])
  {
  }

  lemma Extend(c: Config, states: seq<State>, actions: seq<Action>, a: Action) returns (more: seq<State>, done: seq<Action>)
    requires Path(c, states, actions) && states != [] && Enabled(c, states[|states| - 1], a)
    ensures Path(c, more, done) && more != [] && more[0] == states[0] && more[|more| - 1] == Do(c, states[|states| - 1], a)
  {
    more, done := states + [Do(c, states[|states| - 1], a)], actions + [a];
    hide Enabled, Do;
    forall i | 0 <= i < |done|
      ensures Enabled(c, more[i], done[i]) && more[i + 1] == Do(c, more[i], done[i])
    {
      if i < |actions| {
        assert states[i + 1] == Do(c, states[i], actions[i]);
      }
    }
  }

  /** A fresh coordinator, not cancelled, that has handled the first `k` listed rows. */
  ghost predicate ResettingAt(c: Config, list: seq<Indexed>, before: Rows, t: State, k: nat) {
    && t.phase == Resetting(k) && t.listing == list && t.plan == ToRun(list) && t.next == 0 && t.tasks == map[]
    && !t.cancel && !t.hadFailure && t.permits == c.concurrency && ResetUpTo(list, before, t.rows, k)
  }

  lemma FirstReset(c: Config, s: State, list: seq<Indexed>)
    requires s.phase.Down? && ListingOf(list, s.rows)
    ensures Enabled(c, s, Begin(list, false)) && ResettingAt(c, list, s.rows, Do(c, s, Begin(list, false)), 0)
  {
    hide ToRun, ListingOf, ResetUpTo;
    ResetStart(list, s.rows);
  }

  lemma NextReset(c: Config, list: seq<Indexed>, before: Rows, t: State, k: nat)
    requires ListingOf(list, before) && ResettingAt(c, list, before, t, k) && k < |list|
    ensures Enabled(c, t, ResetNext) && ResettingAt(c, list, before, Do(c, t, ResetNext), k + 1)
  {
    hide ToRun, ListingOf, ResetUpTo, Touch;
    ResetStep(list, before, t.rows, k);
  }

  lemma {:induction false} ResetsRun(c: Config, s: State, list: seq<Indexed>, k: nat) returns (states: seq<State>, actions: seq<Action>)
    requires s.phase.Down? && ListingOf(list, s.rows) && k <= |list|
    ensures Path(c, states, actions) && states != [] && states[0] == s
    ensures ResettingAt(c, list, s.rows, states[|states| - 1], k)
  {
    hide *;
    if k == 0 {
      states, actions := [s], [];
      PathStart(c, s);
      FirstReset(c, s, list);
      states, actions := Extend(c, states, actions, Begin(list, false));
    } else {
      states, actions := ResetsRun(c, s, list, k - 1);
      NextReset(c, list, s.rows, states[|states| - 1], k - 1);
      states, actions := Extend(c, states, actions, ResetNext);
    }
  }

  lemma NoneFailed(before: Rows, after: Rows)
    requires AllReset(before, after)
    ensures ProgressOf(after).failed == 0
  {
    forall n | n in after
      ensures after[n].status != Failed
    {
      assert after[n] == Reset(before[n]);
    }
    BucketEmpty(after, Failed);
  }

  /** When every key has some succeeded row, a resume plans nothing, resets the failed rows, and ends
      Completed: a row whose key another row finished is never run. */
  lemma ShadowedCompletes(c: Config, s: State, list: seq<Indexed>) returns (states: seq<State>, actions: seq<Action>)
    requires s.phase.Down? && ListingOf(list, s.rows) && ToRun(list) == []
    ensures Path(c, states, actions) && states != [] && states[0] == s
    ensures
      var t := states[|states| - 1];
      t.phase == Finished(Completed) && AllReset(s.rows, t.rows)
  {
    hide ToRun, ListingOf, ResetUpTo, Path, AllReset, ProgressOf;
    states, actions := ResetsRun(c, s, list, |list|);
    ResetEnd(list, s.rows, states[|states| - 1].rows);
    NoneFailed(s.rows, states[|states| - 1].rows);
    states, actions := Extend(c, states, actions, StartLoop);
    states, actions := Extend(c, states, actions, LoadCancel);
    states, actions := Extend(c, states, actions, ReadProgress);
    states, actions := Extend(c, states, actions, Decide);
  }

  /** The smallest case: two iterations under one key, the first succeeded. */
  lemma ShadowedIterationNeverRuns(c: Config, s: State, first: Iteration, second: Iteration)
    returns (states: seq<State>, actions: seq<Action>)
    requires s.phase.Down? && s.rows == map[0 := first, 1 := second]
    requires first.key == second.key && first.status == Succeeded && second.status == Pending
    ensures Path(c, states, actions) && states != [] && states[0] == s
    ensures
      var t := states[|states| - 1];
      t.phase == Finished(Completed) && 1 in t.rows && t.rows[1] == second
  {
    var list := [Indexed(0, first), Indexed(1, second)];
    assert list[0] in list && list[0].index == 0 && list[1].index == 1;
    assert first.key in SucceededKeys(list);
    assert ListingOf(list, s.rows);
    FilterMapNone(list, ToRunFn(SucceededKeys(list)));
    hide ToRun, ListingOf, Path, SucceededKeys;
    states, actions := ShadowedCompletes(c, s, list);
  }

  // ---- How such a store comes about ----

  lemma Joined(c: Config, a: seq<State>, x: seq<Action>, b: seq<State>, y: seq<Action>)
    requires Path(c, a, x) && Path(c, b, y) && a != [] && b != [] && a[|a| - 1] == b[0]
    ensures Path(c, a + b[1..], x + y) && a + b[1..] != [] && (a + b[1..])[0] == a[0]
    ensures (a + b[1..])[|a + b[1..]| - 1] == b[|b| - 1]
  {
    hide Enabled, Do;
    var states, actions := a + b[1..], x + y;
    forall i | 0 <= i < |actions|
      ensures Enabled(c, states[i], actions[i]) && states[i + 1] == Do(c, states[i], actions[i])
    {
      if i < |x| {
        assert states[i] == a[i] && states[i + 1] == a[i + 1];
      } else {
        assert states[i] == b[i - |x|] && states[i + 1] == b[i - |x| + 1];
      }
    }
  }

  /** A coordinator about to launch its first two iterations. */
  ghost predicate Launching(c: Config, list: seq<Indexed>, t: State)
    requires |list| == 2
  {
    && t.phase == CheckCancel && t.next == 0 && t.tasks == map[] && !t.cancel && !t.hadFailure && t.permits == c.concurrency
    && |t.plan| == 2 && t.plan[0] == Item(0, list[0].row.key) && t.rows == map[0 := list[0].row, 1 := list[1].row]
  }

  lemma BothPlanned(list: seq<Indexed>, first: Iteration, second: Iteration)
    requires list == [Indexed(0, first), Indexed(1, second)] && first.status == second.status == Pending
    ensures ToRun(list) == [Item(0, first.key), Item(1, second.key)]
  {
    assert SucceededKeys(list) == {};
    var f := ToRunFn({});
    FilterMapSnoc([], list[0], f);
    FilterMapSnoc([list[0]], list[1], f);
    assert [] + [list[0]] == [list[0]] && [list[0]] + [list[1]] == list;
  }

  lemma Launches(c: Config, s: State, first: Iteration, second: Iteration) returns (states: seq<State>, actions: seq<Action>)
    requires s.phase.Down? && s.rows == map[0 := first, 1 := second] && first.status == second.status == Pending
    ensures Path(c, states, actions) && states != [] && states[0] == s
    ensures Launching(c, [Indexed(0, first), Indexed(1, second)], states[|states| - 1])
  {
    var list := [Indexed(0, first), Indexed(1, second)];
    assert list[0] in list && list[0].index == 0 && list[1].index == 1;
    assert ListingOf(list, s.rows);
    BothPlanned(list, first, second);
    hide ToRun, ListingOf, Path;
    states, actions := ResetsRun(c, s, list, 2);
    var t := states[|states| - 1];
    assert t.rows[list[0].index] == first && t.rows[list[1].index] == second;
    assert t.rows == map[0 := first, 1 := second];
    states, actions := Extend(c, states, actions, StartLoop);
  }

  /** It has spawned the first one. */
  ghost predicate Flying(list: seq<Indexed>, t: State)
    requires |list| == 2
  {
    && t.tasks == map[0 := Spawned] && |t.plan| == 2 && t.plan[0] == Item(0, list[0].row.key)
    && t.rows == map[0 := list[0].row, 1 := list[1].row]
  }

  lemma FirstSpawned(c: Config, list: seq<Indexed>, t: State) returns (states: seq<State>, actions: seq<Action>)
    requires |list| == 2 && Launching(c, list, t) && c.concurrency > 0
    ensures Path(c, states, actions) && states != [] && states[0] == t && Flying(list, states[|states| - 1])
  {
    hide Path;
    states, actions := [t], [];
    PathStart(c, t);
    states, actions := Extend(c, states, actions, LoadCancel);
    states, actions := Extend(c, states, actions, LoadFailure);
    states, actions := Extend(c, states, actions, Acquire);
    states, actions := Extend(c, states, actions, Spawn);
  }

  lemma RunsToItsEnd(c: Config, list: seq<Indexed>, t: State, runId: string, at: string)
    requires |list| == 2 && Flying(list, t)
    ensures Enabled(c, t, MarkRunning(0, at))
    ensures
      var running := Do(c, t, MarkRunning(0, at));
      && Enabled(c, running, Succeed(0, runId, at))
      && var done := Do(c, running, Succeed(0, runId, at));
         && 0 in done.rows && done.rows == map[0 := done.rows[0], 1 := list[1].row]
         && done.rows[0].status == Succeeded && done.rows[0].key == list[0].row.key
  {
  }

  /** It runs the first one to its end and dies. */
  lemma FirstSucceeds(c: Config, list: seq<Indexed>, t: State, runId: string, at: string)
    returns (states: seq<State>, actions: seq<Action>, done: Iteration)
    requires |list| == 2 && Launching(c, list, t) && c.concurrency > 0
    ensures Path(c, states, actions) && states != [] && states[0] == t
    ensures states[|states| - 1].phase.Down? && states[|states| - 1].rows == map[0 := done, 1 := list[1].row]
    ensures done.status == Succeeded && done.key == list[0].row.key
  {
    hide Path, Launching, Flying, Enabled, Do;
    states, actions := FirstSpawned(c, list, t);
    RunsToItsEnd(c, list, states[|states| - 1], runId, at);
    states, actions := Extend(c, states, actions, MarkRunning(0, at));
    states, actions := Extend(c, states, actions, Succeed(0, runId, at));
    done := states[|states| - 1].rows[0];
    Crashes(c, states[|states| - 1]);
    states, actions := Extend(c, states, actions, Crash);
  }

  lemma Crashes(c: Config, s: State)
    ensures Enabled(c, s, Crash) && Do(c, s, Crash).phase.Down? && Do(c, s, Crash).rows == s.rows
  {
  }

  lemma PathIsBehaviour(c: Config, states: seq<State>, actions: seq<Action>)
    requires Path(c, states, actions) && states != [] && Init(states[0])
    ensures Behaviour(c, states, actions)
  {
    hide Enabled, Do, Init;
  }

  /** A fresh backfill of two iterations under one key, as an expanded list of values may contain: after the
      first has succeeded, a crash and a resume end in Completed with the second still as it was created. */
  lemma RepeatedKeyLosesIteration(c: Config, s: State, first: Iteration, second: Iteration, runId: string, at: string)
    returns (states: seq<State>, actions: seq<Action>)
    requires Init(s) && s.rows == map[0 := first, 1 := second] && first.key == second.key && c.concurrency > 0
    ensures Behaviour(c, states, actions) && states[0] == s
    ensures
      var t := states[|states| - 1];
      t.phase == Finished(Completed) && 1 in t.rows && t.rows[1] == second && second.status == Pending
  {
    assert first.status == Pending && second.status == Pending by {
      assert s.rows[0] == first && s.rows[1] == second;
    }
    hide Path, Behaviour, Launching;
    var list := [Indexed(0, first), Indexed(1, second)];
    var more, next, done;
    states, actions := Launches(c, s, first, second);
    more, next, done := FirstSucceeds(c, list, states[|states| - 1], runId, at);
    Joined(c, states, actions, more, next);
    states, actions := states + more[1..], actions + next;
    more, next := ShadowedIterationNeverRuns(c, states[|states| - 1], done, second);
    Joined(c, states, actions, more, next);
    states, actions := states + more[1..], actions + next;
    PathIsBehaviour(c, states, actions);
  }
}

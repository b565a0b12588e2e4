/** Time travel for whole rows. A version keeps the row it was opened with, so a query returns the row of
    the last run that brought something new, which need not be the row staged since. */
module SnapshotRows {
  import opened Lists
  import opened Snapshot
  import opened SnapshotHistory

  function StagedRow(run: Run, k: Key): Option<Row> {
    var rows := StagedRows(run.staged, k);
    if rows == [] then None else Some(rows[0])
  }

  // ---- The replay ----

  /** The row key k has once `runs` are done: the one staged by the last run at which the key appeared or
      its signal changed. */
  function RowAfter(sink: Sink, runs: seq<Run>, k: Key): Option<Row> {
    if runs == [] then None
    else
      var last, before := runs[|runs| - 1], RowAfter(sink, runs[..|runs| - 1], k);
      var staged := StagedRow(last, k);
      if staged.Some? then
        if before.Some? && sink.signal(before.value) == sink.signal(staged.value) then before else staged
      else if last.deletes == Ignore then before
      else None
  }

  function RowAt(sink: Sink, runs: seq<Run>, k: Key, t: int): Option<Row> {
    if runs == [] then None
    else
      var last, earlier := runs[|runs| - 1], runs[..|runs| - 1];
      if last.now <= t then RowAfter(sink, runs, k)
      else if last.deletes == Delete && StagedRow(last, k).None? && RowAfter(sink, earlier, k).Some? then None
      else RowAt(sink, earlier, k, t)
  }

  // ---- Rows and their signals ----

  lemma AtMostOneSignal(sink: Sink, rows: seq<Row>)
    requires |rows| <= 1
    ensures FilterMap(rows, SignalFn(sink)) == if rows == [] then [] else [sink.signal(rows[0])]
  {
    hide FilterMap;
    FilterMapEmpty(SignalFn(sink));
    if rows != [] {
      assert rows == [] + [rows[0]];
      FilterMapSnoc([], rows[0], SignalFn(sink));
    }
  }

  lemma AtMostOneStaged(staged: seq<Row>, k: Key)
    requires DistinctKeys(staged)
    ensures |StagedRows(staged, k)| <= 1
  {
    FilterMapFew(staged, StagedRowFn(k));
    hide FilterMap;
  }

  /** The class of a key, read off its rows. */
  lemma ClassOfRows(sink: Sink, table: seq<Version>, staged: seq<Row>, k: Key)
    requires |CurrentRows(table, k)| <= 1 && |StagedRows(staged, k)| <= 1
    ensures
      var c, current, news := Classify(sink, table, staged, k), CurrentRows(table, k), StagedRows(staged, k);
      c == if news == [] then if current == [] then None else Some(Gone)
           else if current == [] then Some(New)
           else if sink.signal(current[0]) == sink.signal(news[0]) then Some(Unchanged)
           else Some(Changed)
  {
    hide FilterMap, CurrentRows, StagedRows;
    SignalsOfRows(sink, table, staged, k, 0);
    AtMostOneSignal(sink, CurrentRows(table, k));
    AtMostOneSignal(sink, StagedRows(staged, k));
  }

  // ---- One run ----

  /** One run's effect on the query: an unchanged key keeps the row it had. */
  lemma RowsAfterRun(sink: Sink, table: seq<Version>, run: Run, k: Key, t: int)
    requires Sane(table) && Before(table, run.now) && DistinctKeys(run.staged) && |CurrentRows(table, k)| <= 1
    ensures
      var staged, current := StagedRows(run.staged, k), CurrentRows(table, k);
      |staged| <= 1 &&
      RowsAt(Apply(sink, table, run), k, t) ==
      if t < run.now then
        if run.deletes == Delete && staged == [] && current != [] then [] else RowsAt(table, k, t)
      else if staged != [] then
        if current != [] && sink.signal(current[0]) == sink.signal(staged[0]) then current else staged
      else if run.deletes == Ignore then current
      else []
  {
    hide FilterMap, FateFn, OpenFn, Survivors, Opened, CurrentRows, StagedRows, Classify;
    AtMostOneStaged(run.staged, k);
    ClassOfRows(sink, table, run.staged, k);
    SurvivorRows(sink, table, run, k, t);
    OpenedRows(sink, table, run, k, t);
    FilterMapConcat(Survivors(sink, table, run), Opened(sink, table, run), RowAtFn(k, t));
  }

  // ---- Any sequence of runs ----

  /** `table` answers every point-in-time query with the row the runs say the key had. */
  ghost predicate RowAnswers(sink: Sink, table: seq<Version>, runs: seq<Run>) {
    && (forall k, t :: RowsAt(table, k, t) == Opt(RowAt(sink, runs, k, t)))
    && (forall k :: CurrentRows(table, k) == Opt(RowAfter(sink, runs, k)))
  }

  lemma RowStep(sink: Sink, runs: seq<Run>, k: Key, t: int)
    requires runs != [] && |StagedRows(runs[|runs| - 1].staged, k)| <= 1
    ensures
      var last, earlier := runs[|runs| - 1], runs[..|runs| - 1];
      var staged, current := StagedRows(last.staged, k), Opt(RowAfter(sink, earlier, k));
      Opt(RowAt(sink, runs, k, t)) ==
      if t < last.now then
        if last.deletes == Delete && staged == [] && current != [] then [] else Opt(RowAt(sink, earlier, k, t))
      else if staged != [] then
        if current != [] && sink.signal(current[0]) == sink.signal(staged[0]) then current else staged
      else if last.deletes == Ignore then current
      else []
  {
    hide FilterMap, StagedRows;
  }

  lemma RowsOfSameTable(a: seq<Version>, b: seq<Version>, k: Key, t: int)
    requires multiset(a) == multiset(b) && |RowsAt(a, k, t)| <= 1
    ensures RowsAt(b, k, t) == RowsAt(a, k, t)
  {
    FilterMapPermuted(b, a, RowAtFn(k, t));
    AtMostOneSame(RowsAt(a, k, t), RowsAt(b, k, t));
  }

  lemma RowTimeTravelStep(sink: Sink, table: seq<Version>, next: seq<Version>, runs: seq<Run>, k: Key, t: int)
    requires runs != [] && Sane(table) && Before(table, runs[|runs| - 1].now)
    requires DistinctKeys(runs[|runs| - 1].staged) && Ran(sink, table, runs[|runs| - 1], next)
    requires RowsAt(table, k, t) == Opt(RowAt(sink, runs[..|runs| - 1], k, t))
    requires CurrentRows(table, k) == Opt(RowAfter(sink, runs[..|runs| - 1], k))
    ensures RowsAt(next, k, t) == Opt(RowAt(sink, runs, k, t))
  {
    hide FilterMap, RowsAt, CurrentRows, StagedRows, RowAt, RowAfter, Apply;
    var last := runs[|runs| - 1];
    RowsAfterRun(sink, table, last, k, t);
    RowStep(sink, runs, k, t);
    RowsOfSameTable(Apply(sink, table, last), next, k, t);
  }

  lemma RowRunAnswers(sink: Sink, table: seq<Version>, next: seq<Version>, runs: seq<Run>)
    requires runs != [] && Legal(runs) && Answers(sink, table, runs[..|runs| - 1]) && Answers(sink, next, runs)
    requires RowAnswers(sink, table, runs[..|runs| - 1]) && Ran(sink, table, runs[|runs| - 1], next)
    ensures RowAnswers(sink, next, runs)
  {
    hide FilterMap, RowsAt, CurrentRows, RowAt, RowAfter, SignalsAt, CurrentSignals, StateAt, StateAfter;
    var last := runs[|runs| - 1];
    LastRunIsLater(sink, table, runs);
    forall k, t
      ensures RowsAt(next, k, t) == Opt(RowAt(sink, runs, k, t))
    {
      assert RowsAt(table, k, t) == Opt(RowAt(sink, runs[..|runs| - 1], k, t));
      RowTimeTravelStep(sink, table, next, runs, k, t);
    }
    forall k
      ensures CurrentRows(next, k) == Opt(RowAfter(sink, runs, k))
    {
      CurrentRowsAreLatest(next, k, last.now);
      assert RowsAt(next, k, last.now) == Opt(RowAt(sink, runs, k, last.now));
      RowAtEnd(sink, runs, k);
    }
  }

  lemma RowAtEnd(sink: Sink, runs: seq<Run>, k: Key)
    requires runs != []
    ensures RowAt(sink, runs, k, runs[|runs| - 1].now) == RowAfter(sink, runs, k)
  {
  }

  /** Time travel for rows: after any runs, at any time, for any key, in any mix of hard-delete modes, the
      query returns exactly the row the runs say the key had, all columns included. */
  lemma {:induction false} RowTimeTravel(sink: Sink, tables: seq<seq<Version>>, runs: seq<Run>)
    requires History(sink, tables, runs) && Legal(runs)
    ensures RowAnswers(sink, tables[|runs|], runs)
  {
    hide FilterMap, RowsAt, CurrentRows, RowAt, RowAfter, Answers, Apply, RowAnswers;
    var n := |runs|;
    TimeTravel(sink, tables, runs);
    if n == 0 {
      NoRowsAnswer(sink);
    } else {
      TimeTravel(sink, tables[..n], runs[..n - 1]);
      RowTimeTravel(sink, tables[..n], runs[..n - 1]);
      assert Ran(sink, tables[n - 1], runs[n - 1], tables[n]);
      RowRunAnswers(sink, tables[n - 1], tables[n], runs);
    }
  }

  lemma NoRowsAnswer(sink: Sink)
    ensures RowAnswers(sink, [], [])
  {
  }

  /** With `invalidate`, a time between run i and run i + 1 gives back the row of the last run, up to run i,
      at which the key appeared or its signal changed. */
  lemma {:induction false} InvalidateRowTravel(sink: Sink, tables: seq<seq<Version>>, runs: seq<Run>, i: nat, k: Key, t: int)
    requires History(sink, tables, runs) && Legal(runs) && i < |runs|
    requires forall r <- runs :: r.deletes == Invalidate
    requires runs[i].now <= t && (i + 1 < |runs| ==> t < runs[i + 1].now)
    ensures RowsAt(tables[|runs|], k, t) == Opt(RowAfter(sink, runs[..i + 1], k))
  {
    hide FilterMap, RowsAt, CurrentRows, RowAt, RowAfter;
    RowTimeTravel(sink, tables, runs);
    assert RowsAt(tables[|runs|], k, t) == Opt(RowAt(sink, runs, k, t));
    InvalidateRowAt(sink, runs, i, k, t);
  }

  lemma {:induction false} InvalidateRowAt(sink: Sink, runs: seq<Run>, i: nat, k: Key, t: int)
    requires Legal(runs) && i < |runs| && forall r <- runs :: r.deletes == Invalidate
    requires runs[i].now <= t && (i + 1 < |runs| ==> t < runs[i + 1].now)
    ensures RowAt(sink, runs, k, t) == RowAfter(sink, runs[..i + 1], k)
  {
    hide RowAt, RowAfter;
    var n := |runs|;
    assert runs[n - 1] in runs;
    RowAtLast(sink, runs, k, t);
    if i < n - 1 {
      assert runs[i + 1].now <= runs[n - 1].now;
      InvalidateRowAt(sink, runs[..n - 1], i, k, t);
      assert runs[..n - 1][..i + 1] == runs[..i + 1];
    } else {
      assert runs[..i + 1] == runs;
    }
  }

  lemma RowAtLast(sink: Sink, runs: seq<Run>, k: Key, t: int)
    requires runs != [] && runs[|runs| - 1].deletes == Invalidate
    ensures RowAt(sink, runs, k, t) ==
      if runs[|runs| - 1].now <= t then RowAfter(sink, runs, k) else RowAt(sink, runs[..|runs| - 1], k, t)
  {
    hide RowAfter;
  }

  /** The guide's reading, that such a query returns the row staged by run i, is right exactly when the key was
      not staged, or was new, or its signal changed, or the kept row is the staged one: what a run stages
      under an unchanged signal is not recorded. */
  lemma QueryIsStagedIff(sink: Sink, tables: seq<seq<Version>>, runs: seq<Run>, i: nat, k: Key, t: int)
    requires History(sink, tables, runs) && Legal(runs) && i < |runs|
    requires forall r <- runs :: r.deletes == Invalidate
    requires runs[i].now <= t && (i + 1 < |runs| ==> t < runs[i + 1].now)
    ensures
      var before, staged := RowAfter(sink, runs[..i], k), StagedRow(runs[i], k);
      RowsAt(tables[|runs|], k, t) == Opt(staged)
      <==> staged.None? || before.None? || sink.signal(before.value) != sink.signal(staged.value) || before == staged
  {
    InvalidateRowTravel(sink, tables, runs, i, k, t);
    assert runs[..i + 1][..i] == runs[..i] && runs[i] in runs;
    hide History, RowsAt, StagedRow, Legal;
    OptInjective(RowAfter(sink, runs[..i + 1], k), StagedRow(runs[i], k));
  }

  lemma OptInjective<T>(a: Option<T>, b: Option<T>)
    ensures Opt(a) == Opt(b) <==> a == b
  {
    assert a.Some? ==> Opt(a)[0] == a.value;
    assert b.Some? ==> Opt(b)[0] == b.value;
  }
}

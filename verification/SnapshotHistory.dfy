/** What any sequence of snapshot runs leaves behind: point-in-time queries, invariants, idempotence. */
module SnapshotHistory {
  import opened Lists
  import opened Snapshot

  // ---- Rows of a key, and their signals ----

  function RowAtFn(k: Key, t: int): Version -> Option<Row> {
    (v: Version) => if v.row.key == k && ValidAt(v, t) then Some(v.row) else None
  }

  function CurrentRowFn(k: Key): Version -> Option<Row> {
    (v: Version) => if v.row.key == k && v.isCurrent then Some(v.row) else None
  }

  function StagedRowFn(k: Key): Row -> Option<Row> {
    (r: Row) => if r.key == k then Some(r) else None
  }

  /** The point-in-time query, with all columns. */
  function RowsAt(table: seq<Version>, k: Key, t: int): seq<Row> {
    FilterMap(table, RowAtFn(k, t))
  }

  function CurrentRows(table: seq<Version>, k: Key): seq<Row> {
    FilterMap(table, CurrentRowFn(k))
  }

  function StagedRows(staged: seq<Row>, k: Key): seq<Row> {
    FilterMap(staged, StagedRowFn(k))
  }

  function SignalFn(sink: Sink): Row -> Option<Signal> {
    (r: Row) => Some(sink.signal(r))
  }

  /** Signals are the images of rows. */
  lemma SignalsOfRows(sink: Sink, table: seq<Version>, staged: seq<Row>, k: Key, t: int)
    ensures SignalsAt(sink, table, k, t) == FilterMap(RowsAt(table, k, t), SignalFn(sink))
    ensures CurrentSignals(sink, table, k) == FilterMap(CurrentRows(table, k), SignalFn(sink))
    ensures StagedSignals(sink, staged, k) == FilterMap(StagedRows(staged, k), SignalFn(sink))
  {
    hide FilterMap;
    FilterMapCompose(table, RowAtFn(k, t), SignalFn(sink), SignalAtFn(sink, k, t));
    FilterMapCompose(table, CurrentRowFn(k), SignalFn(sink), CurrentFn(sink, k));
    FilterMapCompose(staged, StagedRowFn(k), SignalFn(sink), StagedFn(sink, k));
  }

  // ---- One run, seen by the point-in-time query ----

  /** Every run's effect on the query "which signals does key k have at time t". */
  lemma {:induction false} SignalsAfterRun(sink: Sink, table: seq<Version>, run: Run, k: Key, t: int)
    requires Sane(table) && Before(table, run.now) && DistinctKeys(run.staged)
    requires |CurrentSignals(sink, table, k)| <= 1
    ensures
      var staged := StagedSignals(sink, run.staged, k);
      var current := CurrentSignals(sink, table, k);
      SignalsAt(sink, Apply(sink, table, run), k, t) ==
      if t < run.now then
        if run.deletes == Delete && staged == [] && current != [] then [] else SignalsAt(sink, table, k, t)
      else if staged != [] then staged
      else if run.deletes == Ignore then current
      else []
  {
    hide FilterMap, SignalAtFn, CurrentFn, StagedFn, FateFn, OpenFn, Survivors, Opened, CurrentSignals, StagedSignals;
    DistinctStaged(sink, run.staged, k);
    SurvivorSignals(sink, table, run, k, t);
    OpenedSignals(sink, table, run, k, t);
    FilterMapConcat(Survivors(sink, table, run), Opened(sink, table, run), SignalAtFn(sink, k, t));
  }

  predicate Closes(c: Option<Class>, run: Run) {
    c == Some(Changed) || (c == Some(Gone) && run.deletes == Invalidate)
  }

  predicate Erases(c: Option<Class>, run: Run) {
    c == Some(Gone) && run.deletes == Delete
  }

  /** What one existing version of `k` shows at time `t` once its fate is decided. */
  lemma FateRow(v: Version, c: Option<Class>, run: Run, k: Key, t: int)
    requires SaneVersion(v) && BeforeNow(v, run.now) && v.row.key == k
    ensures
      var w := Fate(v, c, run);
      (if w.Some? then RowAtFn(k, t)(w.value) else None) ==
      if Erases(c, run) then None
      else if t < run.now then RowAtFn(k, t)(v)
      else if Closes(c, run) then None
      else CurrentRowFn(k)(v)
  {
    if t < run.now {
      assert ValidAt(Close(v, run.now), t) <==> ValidAt(v, t) || (v.validTo.Some? && v.validFrom <= t);
    } else {
      assert !ValidAt(Close(v, run.now), t);
      assert v.isCurrent <==> ValidAt(v, t);
    }
  }

  lemma SurvivorRows(sink: Sink, table: seq<Version>, run: Run, k: Key, t: int)
    requires Sane(table) && Before(table, run.now)
    ensures
      var c := Classify(sink, table, run.staged, k);
      RowsAt(Survivors(sink, table, run), k, t) ==
      if Erases(c, run) then []
      else if t < run.now then RowsAt(table, k, t)
      else if Closes(c, run) then []
      else CurrentRows(table, k)
  {
    hide FilterMap, Classify;
    var c := Classify(sink, table, run.staged, k);
    var f, g, now := FateFn(sink, table, run), RowAtFn(k, t), CurrentRowFn(k);
    var h := (v: Version) =>
      if v.row.key != k || Erases(c, run) then None
      else if t < run.now then g(v)
      else if Closes(c, run) then None
      else now(v);
    forall v | v in table
      ensures h(v) == if f(v).Some? then g(f(v).value) else None
    {
      if v.row.key == k {
        FateRow(v, c, run, k, t);
      }
    }
    FilterMapCompose(table, f, g, h);
    if Erases(c, run) || (t >= run.now && Closes(c, run)) {
      FilterMapNone(table, h);
    } else {
      FilterMapSame(table, h, if t < run.now then g else now);
    }
  }

  lemma OpenedRows(sink: Sink, table: seq<Version>, run: Run, k: Key, t: int)
    ensures
      RowsAt(Opened(sink, table, run), k, t) ==
      if t >= run.now && Opens(Classify(sink, table, run.staged, k)) then StagedRows(run.staged, k) else []
  {
    hide FilterMap, Classify;
    var f, g := OpenFn(sink, table, run), RowAtFn(k, t);
    var h := (r: Row) => if f(r).Some? then g(f(r).value) else None;
    FilterMapCompose(run.staged, f, g, h);
    if t >= run.now && Opens(Classify(sink, table, run.staged, k)) {
      FilterMapSame(run.staged, h, StagedRowFn(k));
    } else {
      FilterMapNone(run.staged, h);
    }
  }

  /** Once every interval has started and ended, only the current versions are valid. */
  lemma CurrentRowsAreLatest(table: seq<Version>, k: Key, t: int)
    requires Sane(table) && Dated(table, t)
    ensures CurrentRows(table, k) == RowsAt(table, k, t)
  {
    forall v | v in table
      ensures CurrentRowFn(k)(v) == RowAtFn(k, t)(v)
    {
      assert SaneVersion(v);
      assert v.isCurrent <==> ValidAt(v, t);
    }
    FilterMapSame(table, CurrentRowFn(k), RowAtFn(k, t));
  }

  lemma SurvivorSignals(sink: Sink, table: seq<Version>, run: Run, k: Key, t: int)
    requires Sane(table) && Before(table, run.now)
    ensures
      var c := Classify(sink, table, run.staged, k);
      SignalsAt(sink, Survivors(sink, table, run), k, t) ==
      if Erases(c, run) then []
      else if t < run.now then SignalsAt(sink, table, k, t)
      else if Closes(c, run) then []
      else CurrentSignals(sink, table, k)
  {
    hide FilterMap, Classify, SignalsAt, CurrentSignals, RowsAt, CurrentRows, Survivors;
    SurvivorRows(sink, table, run, k, t);
    SignalsOfRows(sink, table, run.staged, k, t);
    SignalsOfRows(sink, Survivors(sink, table, run), run.staged, k, t);
    FilterMapEmpty(SignalFn(sink));
  }

  lemma OpenedSignals(sink: Sink, table: seq<Version>, run: Run, k: Key, t: int)
    ensures
      SignalsAt(sink, Opened(sink, table, run), k, t) ==
      if t >= run.now && Opens(Classify(sink, table, run.staged, k)) then StagedSignals(sink, run.staged, k) else []
  {
    hide FilterMap, Classify, SignalsAt, StagedSignals, RowsAt, StagedRows, Opened;
    OpenedRows(sink, table, run, k, t);
    SignalsOfRows(sink, Opened(sink, table, run), run.staged, k, t);
    FilterMapEmpty(SignalFn(sink));
  }

  lemma CurrentIsLatest(sink: Sink, table: seq<Version>, k: Key, t: int)
    requires Sane(table) && Dated(table, t)
    ensures CurrentSignals(sink, table, k) == SignalsAt(sink, table, k, t)
  {
    hide FilterMap, SignalsAt, CurrentSignals;
    CurrentRowsAreLatest(table, k, t);
    SignalsOfRows(sink, table, [], k, t);
  }

  /** A run keeps every version sane and dates nothing after itself. */
  lemma {:induction false} RunKeepsSane(sink: Sink, table: seq<Version>, run: Run)
    requires Sane(table) && Before(table, run.now)
    ensures Sane(Apply(sink, table, run))
    ensures forall v <- Apply(sink, table, run) ::
              v.validFrom <= run.now && (v.validTo.Some? ==> v.validTo.value <= run.now)
  {
    forall v | v in Apply(sink, table, run)
      ensures SaneVersion(v) && v.validFrom <= run.now && (v.validTo.Some? ==> v.validTo.value <= run.now)
    {
      FilterMapMember(table, FateFn(sink, table, run), v);
      FilterMapMember(run.staged, OpenFn(sink, table, run), v);
    }
  }

  // ---- Sequences of runs ----

  /** One run took `table` to `next`. Rows of a table have no order. */
  ghost predicate Ran(sink: Sink, table: seq<Version>, run: Run, next: seq<Version>) {
    multiset(next) == multiset(Apply(sink, table, run))
  }

  /** `tables` is the history of an initially empty target under `runs`. */
  ghost predicate History(sink: Sink, tables: seq<seq<Version>>, runs: seq<Run>) {
    && |tables| == |runs| + 1
    && tables[0] == []
    && forall i :: 0 <= i < |runs| ==> Ran(sink, tables[i], runs[i], tables[i + 1])
  }

  /** Every run is later than those before it. */
  predicate Later(runs: seq<Run>) {
    forall i, j :: 0 <= i < j < |runs| ==> runs[i].now < runs[j].now
  }

  predicate Legal(runs: seq<Run>) {
    Later(runs) && forall i :: 0 <= i < |runs| ==> DistinctKeys(runs[i].staged)
  }

  function StagedSignal(sink: Sink, run: Run, k: Key): Option<Signal> {
    var s := StagedSignals(sink, run.staged, k);
    if s == [] then None else Some(s[0])
  }

  /** The signal key k has once `runs` are done: what the source said last. */
  function StateAfter(sink: Sink, runs: seq<Run>, k: Key): Option<Signal> {
    if runs == [] then None
    else
      var last := runs[|runs| - 1];
      var staged := StagedSignal(sink, last, k);
      if staged.Some? then staged
      else if last.deletes == Ignore then StateAfter(sink, runs[..|runs| - 1], k)
      else None
  }

  /** The signal key k had at time t, read off the runs alone. A run in `Delete` mode erases the
      past of the keys the source dropped. */
  function StateAt(sink: Sink, runs: seq<Run>, k: Key, t: int): Option<Signal> {
    if runs == [] then None
    else
      var last, earlier := runs[|runs| - 1], runs[..|runs| - 1];
      if last.now <= t then StateAfter(sink, runs, k)
      else if last.deletes == Delete && StagedSignal(sink, last, k).None? && StateAfter(sink, earlier, k).Some? then None
      else StateAt(sink, earlier, k, t)
  }

  ghost predicate Dated(table: seq<Version>, now: int) {
    forall v <- table :: v.validFrom <= now && (v.validTo.Some? ==> v.validTo.value <= now)
  }

  lemma {:induction false} SaneOfSameRows(table: seq<Version>, next: seq<Version>, now: int)
    requires multiset(next) == multiset(table) && Sane(table) && Dated(table, now)
    ensures Sane(next) && Dated(next, now)
  {
    forall v | v in next
      ensures v in table
    {
      assert v in multiset(next);
    }
  }

  /** `table` answers every point-in-time query, for every key, as the runs say it should. */
  ghost predicate Answers(sink: Sink, table: seq<Version>, runs: seq<Run>) {
    && Sane(table)
    && (runs == [] ==> table == [])
    && (runs != [] ==> Dated(table, runs[|runs| - 1].now))
    && (forall k, t :: SignalsAt(sink, table, k, t) == Opt(StateAt(sink, runs, k, t)))
    && (forall k :: CurrentSignals(sink, table, k) == Opt(StateAfter(sink, runs, k)))
  }

  /** Time travel: after any runs, at any time, for any key, in any mix of hard-delete modes,
      the point-in-time query answers with exactly the signal the runs say the key had. */
  lemma {:induction false} TimeTravel(sink: Sink, tables: seq<seq<Version>>, runs: seq<Run>)
    requires History(sink, tables, runs) && Legal(runs)
    ensures Answers(sink, tables[|runs|], runs)
  {
    hide Apply, FilterMap, DistinctKeys, StateAt, StateAfter;
    var n := |runs|;
    if n > 0 {
      LegalPrefix(runs, n - 1);
      TimeTravel(sink, tables[..n], runs[..n - 1]);
      assert Ran(sink, tables[n - 1], runs[n - 1], tables[n]);
      RunAnswers(sink, tables[n - 1], tables[n], runs);
    } else {
      EmptyAnswers(sink);
    }
  }

  lemma EmptyAnswers(sink: Sink)
    ensures Answers(sink, [], [])
  {
  }

  lemma {:induction false} RunAnswers(sink: Sink, table: seq<Version>, next: seq<Version>, runs: seq<Run>)
    requires runs != [] && Legal(runs) && Answers(sink, table, runs[..|runs| - 1])
    requires Ran(sink, table, runs[|runs| - 1], next)
    ensures Answers(sink, next, runs)
  {
    var last := runs[|runs| - 1];
    LastRunIsLater(sink, table, runs);
    RunKeepsSane(sink, table, last);
    SaneOfSameRows(Apply(sink, table, last), next, last.now);
    forall k, t
      ensures SignalsAt(sink, next, k, t) == Opt(StateAt(sink, runs, k, t))
    {
      TimeTravelStep(sink, table, next, runs, k, t);
    }
    forall k
      ensures CurrentSignals(sink, next, k) == Opt(StateAfter(sink, runs, k))
    {
      CurrentIsLatest(sink, next, k, last.now);
      assert SignalsAt(sink, next, k, last.now) == Opt(StateAt(sink, runs, k, last.now));
    }
  }

  lemma LastRunIsLater(sink: Sink, table: seq<Version>, runs: seq<Run>)
    requires runs != [] && Legal(runs) && Answers(sink, table, runs[..|runs| - 1])
    ensures Before(table, runs[|runs| - 1].now)
  {
    if |runs| > 1 {
      assert runs[|runs| - 2].now < runs[|runs| - 1].now;
    }
  }

  lemma {:induction false} TimeTravelStep(
      sink: Sink, table: seq<Version>, next: seq<Version>, runs: seq<Run>, k: Key, t: int)
    requires runs != [] && Sane(table) && Before(table, runs[|runs| - 1].now)
    requires DistinctKeys(runs[|runs| - 1].staged) && Ran(sink, table, runs[|runs| - 1], next)
    requires SignalsAt(sink, table, k, t) == Opt(StateAt(sink, runs[..|runs| - 1], k, t))
    requires CurrentSignals(sink, table, k) == Opt(StateAfter(sink, runs[..|runs| - 1], k))
    ensures SignalsAt(sink, next, k, t) == Opt(StateAt(sink, runs, k, t))
  {
    var last := runs[|runs| - 1];
    DistinctStaged(sink, last.staged, k);
    SignalsAfterRun(sink, table, last, k, t);
    StateStep(sink, runs, k, t);
    SignalsOfSameRows(sink, Apply(sink, table, last), next, k, t);
  }

  /** The replay unrolled by its last run. */
  lemma StateStep(sink: Sink, runs: seq<Run>, k: Key, t: int)
    requires runs != [] && |StagedSignals(sink, runs[|runs| - 1].staged, k)| <= 1
    ensures
      var last, earlier := runs[|runs| - 1], runs[..|runs| - 1];
      var staged := StagedSignals(sink, last.staged, k);
      var current := Opt(StateAfter(sink, earlier, k));
      Opt(StateAt(sink, runs, k, t)) ==
      if t < last.now then
        if last.deletes == Delete && staged == [] && current != [] then [] else Opt(StateAt(sink, earlier, k, t))
      else if staged != [] then staged
      else if last.deletes == Ignore then current
      else []
  {
  }

  lemma SignalsOfSameRows(sink: Sink, table: seq<Version>, next: seq<Version>, k: Key, t: int)
    requires multiset(table) == multiset(next) && |SignalsAt(sink, table, k, t)| <= 1
    ensures SignalsAt(sink, next, k, t) == SignalsAt(sink, table, k, t)
  {
    FilterMapPermuted(next, table, SignalAtFn(sink, k, t));
    AtMostOneSame(SignalsAt(sink, table, k, t), SignalsAt(sink, next, k, t));
  }

  /** The case the user guide promises: with `invalidate`, asking for a
      time `t` between run i and run i + 1 gives back run i's staged signals. */
  lemma {:induction false} InvalidateTimeTravel(sink: Sink, tables: seq<seq<Version>>, runs: seq<Run>, i: nat, k: Key, t: int)
    requires History(sink, tables, runs) && Legal(runs) && i < |runs|
    requires forall r <- runs :: r.deletes == Invalidate
    requires runs[i].now <= t && (i + 1 < |runs| ==> t < runs[i + 1].now)
    ensures SignalsAt(sink, tables[|runs|], k, t) == StagedSignals(sink, runs[i].staged, k)
  {
    hide FilterMap, SignalsAt, StagedSignals, StateAfter, StateAt;
    TimeTravel(sink, tables, runs);
    assert SignalsAt(sink, tables[|runs|], k, t) == Opt(StateAt(sink, runs, k, t));
    DistinctStaged(sink, runs[i].staged, k);
    InvalidateStateAt(sink, runs, i, k, t);
  }

  lemma {:induction false} InvalidateStateAt(sink: Sink, runs: seq<Run>, i: nat, k: Key, t: int)
    requires Legal(runs) && i < |runs| && forall r <- runs :: r.deletes == Invalidate
    requires runs[i].now <= t && (i + 1 < |runs| ==> t < runs[i + 1].now)
    ensures StateAt(sink, runs, k, t) == StagedSignal(sink, runs[i], k)
  {
    hide DistinctKeys, StagedSignals;
    var n := |runs|;
    assert runs[n - 1] in runs;
    if i < n - 1 {
      assert runs[i + 1].now <= runs[n - 1].now;
      LegalPrefix(runs, n - 1);
      InvalidateStateAt(sink, runs[..n - 1], i, k, t);
    }
  }

  lemma LegalPrefix(runs: seq<Run>, n: nat)
    requires Legal(runs) && n <= |runs|
    ensures Legal(runs[..n])
  {
    hide DistinctKeys;
  }

  /** Two versions of one key never cover the same instant. */
  ghost predicate DisjointIntervals(table: seq<Version>) {
    forall i, j, t :: 0 <= i < j < |table| && table[i].row.key == table[j].row.key
                      ==> !(ValidAt(table[i], t) && ValidAt(table[j], t))
  }

  ghost predicate OneCurrentPerKey(table: seq<Version>) {
    forall i, j :: 0 <= i < j < |table| && table[i].isCurrent && table[j].isCurrent
                   ==> table[i].row.key != table[j].row.key
  }

  /** Every reachable target keeps the SCD2 shape. */
  lemma {:induction false} ReachableShape(sink: Sink, tables: seq<seq<Version>>, runs: seq<Run>)
    requires History(sink, tables, runs) && Legal(runs)
    ensures Sane(tables[|runs|])
    ensures DisjointIntervals(tables[|runs|])
    ensures OneCurrentPerKey(tables[|runs|])
  {
    TimeTravel(sink, tables, runs);
    var table := tables[|runs|];
    forall k, t
      ensures |SignalsAt(sink, table, k, t)| <= 1
    {
      assert SignalsAt(sink, table, k, t) == Opt(StateAt(sink, runs, k, t));
    }
    forall k
      ensures |CurrentSignals(sink, table, k)| <= 1
    {
      assert CurrentSignals(sink, table, k) == Opt(StateAfter(sink, runs, k));
    }
    AtMostOneValid(sink, table);
    AtMostOneCurrent(sink, table);
  }

  /** "At most one signal per key and time" in its index form. */
  lemma {:induction false} AtMostOneValid(sink: Sink, table: seq<Version>)
    ensures DisjointIntervals(table) <==> forall k, t :: |SignalsAt(sink, table, k, t)| <= 1
  {
    hide FilterMap;
    if forall k, t :: |SignalsAt(sink, table, k, t)| <= 1 {
      forall i, j, t | 0 <= i < j < |table| && table[i].row.key == table[j].row.key
        ensures !(ValidAt(table[i], t) && ValidAt(table[j], t))
      {
        var k := table[i].row.key;
        assert |SignalsAt(sink, table, k, t)| <= 1;
        if ValidAt(table[i], t) && ValidAt(table[j], t) {
          FilterMapAtMostOne(table, SignalAtFn(sink, k, t), i, j);
        }
      }
    }
    if DisjointIntervals(table) {
      forall k, t
        ensures |SignalsAt(sink, table, k, t)| <= 1
      {
        FilterMapFew(table, SignalAtFn(sink, k, t));
      }
    }
  }

  /** "At most one current signal per key" in its index form. */
  lemma {:induction false} AtMostOneCurrent(sink: Sink, table: seq<Version>)
    ensures OneCurrentPerKey(table) <==> forall k :: |CurrentSignals(sink, table, k)| <= 1
  {
    if forall k :: |CurrentSignals(sink, table, k)| <= 1 {
      forall i, j | 0 <= i < j < |table| && table[i].isCurrent && table[j].isCurrent
        ensures table[i].row.key != table[j].row.key
      {
        var k := table[i].row.key;
        assert |CurrentSignals(sink, table, k)| <= 1;
        if table[j].row.key == k {
          FilterMapAtMostOne(table, CurrentFn(sink, k), i, j);
        }
      }
    }
    if OneCurrentPerKey(table) {
      forall k
        ensures |CurrentSignals(sink, table, k)| <= 1
      {
        FilterMapFew(table, CurrentFn(sink, k));
      }
    }
  }

  // ---- What breaks, and exactly when ----

  /** The reference run keeps "one current version per key" exactly when the staged keys are distinct. */
  lemma {:induction false} OneCurrentIffDistinct(sink: Sink, table: seq<Version>, run: Run)
    requires Sane(table) && Before(table, run.now) && OneCurrentPerKey(table)
    ensures OneCurrentPerKey(Apply(sink, table, run)) <==> DistinctKeys(run.staged)
  {
    var next := Apply(sink, table, run);
    RunKeepsSane(sink, table, run);
    AtMostOneCurrent(sink, table);
    AtMostOneCurrent(sink, next);
    forall k
      ensures |StagedSignals(sink, run.staged, k)| > 1 ==> |CurrentSignals(sink, next, k)| > 1
      ensures DistinctKeys(run.staged) ==> |CurrentSignals(sink, next, k)| <= 1
    {
      assert |CurrentSignals(sink, table, k)| <= 1;
      CurrentIsLatest(sink, next, k, run.now);
      SurvivorSignals(sink, table, run, k, run.now);
      OpenedSignals(sink, table, run, k, run.now);
      FilterMapConcat(Survivors(sink, table, run), Opened(sink, table, run), SignalAtFn(sink, k, run.now));
      if DistinctKeys(run.staged) {
        DistinctStaged(sink, run.staged, k);
      }
    }
    RepeatedStaged(sink, run.staged);
  }

  lemma SameRowsOneCurrent(sink: Sink, table: seq<Version>, next: seq<Version>)
    requires multiset(table) == multiset(next)
    ensures OneCurrentPerKey(table) <==> OneCurrentPerKey(next)
  {
    hide FilterMap, OneCurrentPerKey;
    AtMostOneCurrent(sink, table);
    AtMostOneCurrent(sink, next);
    forall k
      ensures |CurrentSignals(sink, table, k)| == |CurrentSignals(sink, next, k)|
    {
      FilterMapPermuted(table, next, CurrentFn(sink, k));
      assert |multiset(CurrentSignals(sink, table, k))| == |CurrentSignals(sink, table, k)|;
      assert |multiset(CurrentSignals(sink, next, k))| == |CurrentSignals(sink, next, k)|;
    }
  }

  lemma HistoryPrefix(sink: Sink, tables: seq<seq<Version>>, runs: seq<Run>, i: nat)
    requires History(sink, tables, runs) && Later(runs) && i < |runs|
    requires forall j :: 0 <= j < i ==> DistinctKeys(runs[j].staged)
    ensures History(sink, tables[..i + 1], runs[..i]) && Legal(runs[..i])
    ensures Sane(tables[i]) && OneCurrentPerKey(tables[i]) && Before(tables[i], runs[i].now)
  {
    hide Ran, OneCurrentPerKey, DistinctKeys, SaneVersion, StateAt, StateAfter;
    assert forall j :: 0 <= j < i ==> Ran(sink, tables[j], runs[j], tables[j + 1]);
    TimeTravel(sink, tables[..i + 1], runs[..i]);
    ReachableShape(sink, tables[..i + 1], runs[..i]);
    assert i > 0 ==> runs[i - 1].now < runs[i].now;
  }

  /** Runs with an increasing clock keep one current version per key throughout exactly when every one of
      them stages distinct keys. */
  lemma ShapeIff(sink: Sink, tables: seq<seq<Version>>, runs: seq<Run>)
    requires History(sink, tables, runs) && Later(runs)
    ensures (forall i :: 0 <= i <= |runs| ==> OneCurrentPerKey(tables[i]))
      <==> forall i :: 0 <= i < |runs| ==> DistinctKeys(runs[i].staged)
  {
    hide Apply, OneCurrentPerKey, DistinctKeys, Before, Sane;
    assert OneCurrentPerKey([]) by { NothingCurrent(); }
    if forall i :: 0 <= i <= |runs| ==> OneCurrentPerKey(tables[i]) {
      for i := 0 to |runs|
        invariant forall j :: 0 <= j < i ==> DistinctKeys(runs[j].staged)
      {
        ShapeStep(sink, tables, runs, i);
      }
    }
    if forall i :: 0 <= i < |runs| ==> DistinctKeys(runs[i].staged) {
      forall i | 0 < i <= |runs|
        ensures OneCurrentPerKey(tables[i])
      {
        ShapeStep(sink, tables, runs, i - 1);
      }
    }
  }

  lemma NothingCurrent()
    ensures OneCurrentPerKey([])
  {
  }

  lemma ShapeStep(sink: Sink, tables: seq<seq<Version>>, runs: seq<Run>, i: nat)
    requires History(sink, tables, runs) && Later(runs) && i < |runs|
    requires forall j :: 0 <= j < i ==> DistinctKeys(runs[j].staged)
    ensures OneCurrentPerKey(tables[i + 1]) <==> DistinctKeys(runs[i].staged)
  {
    hide Apply, OneCurrentPerKey, DistinctKeys, Before, Sane;
    HistoryPrefix(sink, tables, runs, i);
    OneCurrentIffDistinct(sink, tables[i], runs[i]);
    assert Ran(sink, tables[i], runs[i], tables[i + 1]);
    SameRowsOneCurrent(sink, Apply(sink, tables[i], runs[i]), tables[i + 1]);
  }

  // ---- Idempotence and immutability ----

  /** Running the same staged batch again, later, in the same mode, changes nothing at all exactly when its
      keys are distinct: a key staged twice is new every time. */
  lemma RerunIsIdentityIff(sink: Sink, table: seq<Version>, run: Run, later: int)
    requires Sane(table) && Before(table, run.now) && OneCurrentPerKey(table) && run.now < later
    ensures
      var once := Apply(sink, table, run);
      Apply(sink, once, run.(now := later)) == once <==> DistinctKeys(run.staged)
  {
    hide FilterMap, Apply, Classify, DistinctKeys;
    var once, again := Apply(sink, table, run), run.(now := later);
    if DistinctKeys(run.staged) {
      AtMostOneCurrent(sink, table);
      forall k {
        RerunClass(sink, table, run, k);
      }
      QuietRunIsIdentity(sink, once, again);
    } else {
      RunKeepsSane(sink, table, run);
      RepeatedOpens(sink, once, again);
    }
  }

  /** A repeated key opens a version dated now. */
  lemma RepeatedOpens(sink: Sink, table: seq<Version>, run: Run)
    requires !DistinctKeys(run.staged)
    ensures exists v <- Apply(sink, table, run) :: v.validFrom == run.now
  {
    hide FilterMap;
    var i, j :| 0 <= i < j < |run.staged| && run.staged[i].key == run.staged[j].key;
    var r := run.staged[i];
    if |StagedSignals(sink, run.staged, r.key)| <= 1 {
      FilterMapAtMostOne(run.staged, StagedFn(sink, r.key), i, j);
    }
    var v := Open(sink, r, run.now);
    FilterMapMember(run.staged, OpenFn(sink, table, run), v);
    assert OpenFn(sink, table, run)(r) == Some(v);
    assert v in Apply(sink, table, run);
  }

  predicate Quiet(c: Option<Class>, deletes: HardDeletes) {
    c == None || c == Some(Unchanged) || (c == Some(Gone) && deletes == Ignore)
  }

  lemma {:induction false} QuietRunIsIdentity(sink: Sink, table: seq<Version>, run: Run)
    requires forall k :: Quiet(Classify(sink, table, run.staged, k), run.deletes)
    ensures Apply(sink, table, run) == table
  {
    hide FilterMap, Classify;
    forall v | v in table
      ensures FateFn(sink, table, run)(v) == Some(v)
    {
      assert Quiet(Classify(sink, table, run.staged, v.row.key), run.deletes);
    }
    FilterMapAll(table, FateFn(sink, table, run));
    forall r | r in run.staged
      ensures OpenFn(sink, table, run)(r).None?
    {
      assert Quiet(Classify(sink, table, run.staged, r.key), run.deletes);
    }
    FilterMapNone(run.staged, OpenFn(sink, table, run));
  }

  /** After a run, every key its batch stages is unchanged; keys still gone were left alone. */
  lemma {:induction false} RerunClass(sink: Sink, table: seq<Version>, run: Run, k: Key)
    requires Sane(table) && Before(table, run.now) && DistinctKeys(run.staged)
    requires |CurrentSignals(sink, table, k)| <= 1
    ensures Quiet(Classify(sink, Apply(sink, table, run), run.staged, k), run.deletes)
  {
    hide FilterMap, Apply, SignalsAt, CurrentSignals, StagedSignals, SaneVersion;
    var once := Apply(sink, table, run);
    DistinctStaged(sink, run.staged, k);
    RunKeepsSane(sink, table, run);
    SignalsAfterRun(sink, table, run, k, run.now);
    CurrentIsLatest(sink, once, k, run.now);
  }

  function ClosedFn(): Version -> Option<Version> {
    (v: Version) => if v.isCurrent then None else Some(v)
  }

  /** Outside `delete` mode a run neither alters nor drops an already closed version. */
  lemma {:induction false} ClosedVersionsStay(sink: Sink, table: seq<Version>, run: Run)
    requires run.deletes != Delete
    ensures multiset(FilterMap(table, ClosedFn())) <= multiset(Apply(sink, table, run))
  {
    var f, g := FateFn(sink, table, run), ClosedFn();
    var kept := (v: Version) => if v.isCurrent then f(v) else None;
    FilterMapSplit(table, g, kept, f);
  }
}

/** Both sinks, run after run: what they share, and exactly when they part. */
module SinkAgreement {
  import opened Lists
  import opened Snapshot
  import opened SnapshotHistory
  import opened PostgresSnapshot
  import opened SinkRefinement
  import opened PostgresRepeats

  // ---- Postgres targets stay good ----

  /** A run keeps everything the next run relies on. */
  lemma RunKeepsGood(mode: ChangeDetection, target: seq<Version>, run: Run, keys: set<Key>)
    requires GoodTarget(target, keys) && GoodRun(target, run, keys)
    ensures GoodTarget(Apply(PostgresSink(mode), target, run), keys)
  {
    var sink := PostgresSink(mode);
    var next := Apply(sink, target, run);
    RunKeepsSane(sink, target, run);
    RunKeepsIds(mode, target, run, keys);
    OneCurrentOfGood(target, run.now);
    AtMostOneCurrent(sink, target);
    AtMostOneValid(sink, target);
    hide FilterMap, Apply, SignalsAt, CurrentSignals, StagedSignals;
    forall k, t
      ensures |SignalsAt(sink, next, k, t)| <= 1
    {
      assert |CurrentSignals(sink, target, k)| <= 1 && |SignalsAt(sink, target, k, t)| <= 1;
      DistinctStaged(sink, run.staged, k);
      SignalsAfterRun(sink, target, run, k, t);
    }
    AtMostOneValid(sink, next);
  }

  lemma RunKeepsIds(mode: ChangeDetection, target: seq<Version>, run: Run, keys: set<Key>)
    requires IdsMatch(target) && KeysWithin(target, keys) && forall r <- run.staged :: r.key in keys
    ensures IdsMatch(Apply(PostgresSink(mode), target, run)) && KeysWithin(Apply(PostgresSink(mode), target, run), keys)
  {
    var sink := PostgresSink(mode);
    forall w | w in Apply(sink, target, run)
      ensures w.id == PostgresId(w.row.key, w.validFrom) && w.row.key in keys
    {
      FilterMapMember(target, FateFn(sink, target, run), w);
      FilterMapMember(run.staged, OpenFn(sink, target, run), w);
      hide FilterMap, Classify;
    }
  }

  /** The targets of successive Postgres writes, starting from an empty table. */
  ghost predicate PostgresRuns(mode: ChangeDetection, tables: seq<seq<Version>>, runs: seq<Run>) {
    && |tables| == |runs| + 1
    && tables[0] == []
    && forall i :: 0 <= i < |runs| ==> tables[i + 1] == Merged(mode, tables[i], runs[i])
  }

  predicate RunsOver(runs: seq<Run>, keys: set<Key>) {
    forall i :: 0 <= i < |runs| ==> forall r <- runs[i].staged :: r.key in keys
  }

  /** So the time-travel theorem and the SCD2 shape hold of every Postgres target too. */
  lemma {:induction false} PostgresHistory(mode: ChangeDetection, tables: seq<seq<Version>>, runs: seq<Run>, keys: set<Key>)
    requires PostgresRuns(mode, tables, runs) && Legal(runs) && RunsOver(runs, keys) && JoinsApart(keys)
    ensures History(PostgresSink(mode), tables, runs)
    ensures Answers(PostgresSink(mode), tables[|runs|], runs)
    ensures GoodTarget(tables[|runs|], keys)
  {
    hide FilterMap, Apply, Merged, SignalsAt, StateAt, StateAfter, CurrentSignals, Answers, JoinsApart;
    var sink, n := PostgresSink(mode), |runs|;
    if n > 0 {
      PostgresHistory(mode, tables[..n], runs[..n - 1], keys);
      assert tables[..n][n - 1] == tables[n - 1];
      PostgresStep(mode, tables[n - 1], tables[n], runs, keys);
      ExtendHistory(sink, tables, runs);
    }
    TimeTravel(sink, tables, runs);
  }

  lemma PostgresStep(mode: ChangeDetection, table: seq<Version>, next: seq<Version>, runs: seq<Run>, keys: set<Key>)
    requires runs != [] && Legal(runs) && RunsOver(runs, keys) && JoinsApart(keys)
    requires Answers(PostgresSink(mode), table, runs[..|runs| - 1]) && GoodTarget(table, keys)
    requires next == Merged(mode, table, runs[|runs| - 1])
    ensures next == Apply(PostgresSink(mode), table, runs[|runs| - 1])
    ensures GoodTarget(next, keys)
  {
    LastRunIsLater(PostgresSink(mode), table, runs);
    hide FilterMap, Apply, Merged, Answers, GoodTarget, JoinsApart;
    MergedIsApply(mode, table, runs[|runs| - 1], keys);
    RunKeepsGood(mode, table, runs[|runs| - 1], keys);
  }

  lemma ExtendHistory(sink: Sink, tables: seq<seq<Version>>, runs: seq<Run>)
    requires |runs| > 0 && |tables| == |runs| + 1
    requires History(sink, tables[..|runs|], runs[..|runs| - 1])
    requires tables[|runs|] == Apply(sink, tables[|runs| - 1], runs[|runs| - 1])
    ensures History(sink, tables, runs)
  {
    hide Apply;
    var n := |runs|;
    forall i | 0 <= i < n
      ensures Ran(sink, tables[i], runs[i], tables[i + 1])
    {
      if i < n - 1 {
        assert Ran(sink, tables[..n][i], runs[..n - 1][i], tables[..n][i + 1]);
      }
    }
  }

  // ---- The two sinks, up to surrogate ids ----

  function EraseFn(): Version -> Option<Version> {
    (v: Version) => Some(v.(id := Fnv(0)))
  }

  /** The table with every surrogate id blanked. */
  function Erased(table: seq<Version>): seq<Version> {
    FilterMap(table, EraseFn())
  }

  /** No current row and staged row of one key look alike to the hash but differ in value. */
  ghost predicate NoCollision(hash: seq<string> -> int, mode: ChangeDetection, table: seq<Version>, staged: seq<Row>) {
    forall v, s :: v in table && s in staged && v.isCurrent && v.row.key == s.key
                   && ParquetSignal(hash, mode, v.row) == ParquetSignal(hash, mode, s)
                   ==> PostgresSignal(mode, v.row) == PostgresSignal(mode, s)
  }

  /** Equal values always hash alike, so collisions are the only disagreement. */
  lemma EqualValuesHashAlike(hash: seq<string> -> int, mode: ChangeDetection, a: Row, b: Row)
    requires PostgresSignal(mode, a) == PostgresSignal(mode, b)
    ensures ParquetSignal(hash, mode, a) == ParquetSignal(hash, mode, b)
  {
  }

  lemma ClassesWithoutCollision(hash: seq<string> -> int, mode: ChangeDetection, table: seq<Version>, staged: seq<Row>, k: Key)
    requires OneCurrentPerKey(table) && DistinctKeys(staged) && NoCollision(hash, mode, table, staged)
    ensures Classify(ParquetSink(hash, mode), table, staged, k) == Classify(PostgresSink(mode), table, staged, k)
  {
    var p, q := PostgresSink(mode), ParquetSink(hash, mode);
    SameCurrents(p, q, table, k);
    StagedSignalMember(p, staged, k);
    StagedSignalMember(q, staged, k);
    DistinctStaged(p, staged, k);
    DistinctStaged(q, staged, k);
    if v :| v in table && v.isCurrent && v.row.key == k {
      ClassOfCurrent(p, table, staged, v);
      ClassOfCurrent(q, table, staged, v);
      if s :| s in staged && s.key == k {
        ComparisonsAgree(hash, mode, table, staged, v, s);
      }
    } else {
      FilterMapNone(table, CurrentFn(p, k));
      FilterMapNone(table, CurrentFn(q, k));
    }
  }

  lemma ComparisonsAgree(hash: seq<string> -> int, mode: ChangeDetection, table: seq<Version>, staged: seq<Row>, v: Version, s: Row)
    requires NoCollision(hash, mode, table, staged)
    requires v in table && s in staged && v.isCurrent && v.row.key == s.key
    ensures ParquetSignal(hash, mode, v.row) == ParquetSignal(hash, mode, s)
            <==> PostgresSignal(mode, v.row) == PostgresSignal(mode, s)
  {
    if PostgresSignal(mode, v.row) == PostgresSignal(mode, s) {
      EqualValuesHashAlike(hash, mode, v.row, s);
    }
  }

  lemma SameCurrents(p: Sink, q: Sink, table: seq<Version>, k: Key)
    ensures CurrentSignals(p, table, k) == [] <==> CurrentSignals(q, table, k) == []
  {
    FilterMapLonger(table, CurrentFn(p, k), CurrentFn(q, k));
    FilterMapLonger(table, CurrentFn(q, k), CurrentFn(p, k));
  }

  /** Classes depend neither on row order nor on surrogate ids. */
  lemma ClassesOfSameRows(sink: Sink, a: seq<Version>, b: seq<Version>, staged: seq<Row>, k: Key)
    requires multiset(Erased(a)) == multiset(Erased(b)) && OneCurrentPerKey(a)
    ensures Classify(sink, a, staged, k) == Classify(sink, b, staged, k)
  {
    AtMostOneCurrent(sink, a);
    assert |CurrentSignals(sink, a, k)| <= 1;
    var f := CurrentFn(sink, k);
    FilterMapCompose(a, EraseFn(), f, f);
    FilterMapCompose(b, EraseFn(), f, f);
    hide FilterMap;
    FilterMapPermuted(Erased(a), Erased(b), f);
    AtMostOneSame(FilterMap(Erased(a), f), FilterMap(Erased(b), f));
  }

  /** What a run does to an erased row, given the class of every key. */
  function ErasedFateFn(classes: Key -> Option<Class>, run: Run): Version -> Option<Version> {
    (v: Version) => Fate(v, classes(v.row.key), run)
  }

  function ErasedOpenFn(classes: Key -> Option<Class>, run: Run): Row -> Option<Version> {
    (r: Row) => if Opens(classes(r.key)) then Some(Version(r, Fnv(0), run.now, None, true)) else None
  }

  /** Erasing the ids of a run's result is running on the erased table. */
  lemma EraseApply(sink: Sink, table: seq<Version>, run: Run, classes: Key -> Option<Class>)
    requires forall k :: classes(k) == Classify(sink, table, run.staged, k)
    ensures Erased(Apply(sink, table, run)) ==
            FilterMap(Erased(table), ErasedFateFn(classes, run)) + FilterMap(run.staged, ErasedOpenFn(classes, run))
  {
    hide FilterMap, Classify;
    var f, g, e := FateFn(sink, table, run), ErasedFateFn(classes, run), EraseFn();
    FilterMapConcat(Survivors(sink, table, run), Opened(sink, table, run), e);
    var h := (v: Version) => if f(v).Some? then e(f(v).value) else None;
    FilterMapCompose(table, f, e, h);
    forall v | v in table
      ensures h(v) == g(e(v).value)
    {
      FateErased(v, classes(v.row.key), run);
    }
    FilterMapCompose(table, e, g, h);
    FilterMapCompose(run.staged, OpenFn(sink, table, run), e, ErasedOpenFn(classes, run));
  }

  lemma FateErased(v: Version, c: Option<Class>, run: Run)
    ensures
      var w, e := Fate(v, c, run), EraseFn();
      Fate(e(v).value, c, run) == if w.Some? then e(w.value) else None
  {
  }

  /** One run of each sink from targets that agree up to ids ends in targets that agree up to ids,
      provided no hash collision hides a change. */
  lemma SinksAgree(hash: seq<string> -> int, mode: ChangeDetection, a: seq<Version>, b: seq<Version>, run: Run)
    requires multiset(Erased(a)) == multiset(Erased(b))
    requires OneCurrentPerKey(a) && DistinctKeys(run.staged) && NoCollision(hash, mode, a, run.staged)
    ensures multiset(Erased(Apply(ParquetSink(hash, mode), a, run))) == multiset(Erased(Apply(PostgresSink(mode), b, run)))
  {
    var p, q := PostgresSink(mode), ParquetSink(hash, mode);
    var classes := (k: Key) => Classify(q, a, run.staged, k);
    forall k
      ensures classes(k) == Classify(p, b, run.staged, k)
    {
      ClassesWithoutCollision(hash, mode, a, run.staged, k);
      ClassesOfSameRows(p, a, b, run.staged, k);
    }
    hide *;
    EraseBoth(q, a, run, classes);
    EraseApply(p, b, run, classes);
    FilterMapPermuted(Erased(a), Erased(b), ErasedFateFn(classes, run));
  }

  lemma EraseBoth(q: Sink, a: seq<Version>, run: Run, classes: Key -> Option<Class>)
    requires forall k :: classes(k) == Classify(q, a, run.staged, k)
    ensures Erased(Apply(q, a, run)) ==
            FilterMap(Erased(a), ErasedFateFn(classes, run)) + FilterMap(run.staged, ErasedOpenFn(classes, run))
  {
    hide *;
    EraseApply(q, a, run, classes);
  }

  /** Run for run the sinks keep the same history, ids aside, in all three hard-delete modes. */
  lemma {:induction false} SinksStayTogether(hash: seq<string> -> int, mode: ChangeDetection,
                                             parquet: seq<seq<Version>>, postgres: seq<seq<Version>>, runs: seq<Run>)
    requires History(ParquetSink(hash, mode), parquet, runs) && History(PostgresSink(mode), postgres, runs) && Legal(runs)
    requires forall i :: 0 <= i < |runs| ==> NoCollision(hash, mode, parquet[i], runs[i].staged)
    ensures multiset(Erased(parquet[|runs|])) == multiset(Erased(postgres[|runs|]))
  {
    hide FilterMap, Apply, Erased, NoCollision;
    var n, p, q := |runs|, PostgresSink(mode), ParquetSink(hash, mode);
    if n > 0 {
      var a, b, last := parquet[n - 1], postgres[n - 1], runs[n - 1];
      assert Ran(q, a, last, parquet[n]) && Ran(p, b, last, postgres[n]);
      SinksStayTogether(hash, mode, parquet[..n], postgres[..n], runs[..n - 1]);
      assert parquet[..n][n - 1] == a && postgres[..n][n - 1] == b;
      ReachableShape(q, parquet[..n], runs[..n - 1]);
      SinksAgree(hash, mode, a, b, last);
      ErasedPermuted(parquet[n], Apply(q, a, last));
      ErasedPermuted(postgres[n], Apply(p, b, last));
    }
  }

  lemma ErasedPermuted(a: seq<Version>, b: seq<Version>)
    requires multiset(a) == multiset(b)
    ensures multiset(Erased(a)) == multiset(Erased(b))
  {
    FilterMapPermuted(a, b, EraseFn());
  }

  /** A collision is also the only thing that can part them: on one table they agree exactly when
      no current row collides with the row staged for its key. */
  lemma SinksAgreeIff(hash: seq<string> -> int, mode: ChangeDetection, table: seq<Version>, run: Run)
    requires OneCurrentPerKey(table) && DistinctKeys(run.staged) && Before(table, run.now)
    ensures multiset(Erased(Apply(ParquetSink(hash, mode), table, run)))
            == multiset(Erased(Apply(PostgresSink(mode), table, run)))
            <==> NoCollision(hash, mode, table, run.staged)
  {
    var p, q := PostgresSink(mode), ParquetSink(hash, mode);
    if NoCollision(hash, mode, table, run.staged) {
      SinksAgree(hash, mode, table, table, run);
    } else {
      var v, s :| v in table && s in run.staged && v.isCurrent && v.row.key == s.key
        && ParquetSignal(hash, mode, v.row) == ParquetSignal(hash, mode, s)
        && PostgresSignal(mode, v.row) != PostgresSignal(mode, s);
      hide FilterMap, Apply;
      HiddenChange(hash, mode, table, run, v, s);
      var x := Version(s, Fnv(0), run.now, None, true);
      assert x in multiset(Erased(Apply(p, table, run)));
      assert x !in multiset(Erased(Apply(q, table, run)));
    }
  }

  lemma HiddenChange(hash: seq<string> -> int, mode: ChangeDetection, table: seq<Version>, run: Run, v: Version, s: Row)
    requires OneCurrentPerKey(table) && DistinctKeys(run.staged) && Before(table, run.now)
    requires v in table && s in run.staged && v.isCurrent && v.row.key == s.key
    requires ParquetSignal(hash, mode, v.row) == ParquetSignal(hash, mode, s)
    requires PostgresSignal(mode, v.row) != PostgresSignal(mode, s)
    ensures
      var x := Version(s, Fnv(0), run.now, None, true);
      && x in Erased(Apply(PostgresSink(mode), table, run))
      && x !in Erased(Apply(ParquetSink(hash, mode), table, run))
  {
    var p, q := PostgresSink(mode), ParquetSink(hash, mode);
    DistinctStaged(p, run.staged, s.key);
    DistinctStaged(q, run.staged, s.key);
    ClassOfCurrent(p, table, run.staged, v);
    ClassOfCurrent(q, table, run.staged, v);
    hide FilterMap, Classify, StagedSignals, Apply;
    OpenedIsThere(p, table, run, s);
    NothingOpened(q, table, run, s);
  }

  lemma OpenedIsThere(sink: Sink, table: seq<Version>, run: Run, s: Row)
    requires s in run.staged && Opens(Classify(sink, table, run.staged, s.key))
    ensures Version(s, Fnv(0), run.now, None, true) in Erased(Apply(sink, table, run))
  {
    hide FilterMap, Classify, Survivors;
    var y := Open(sink, s, run.now);
    FilterMapMember(run.staged, OpenFn(sink, table, run), y);
    assert y in Apply(sink, table, run);
    FilterMapMember(Apply(sink, table, run), EraseFn(), Version(s, Fnv(0), run.now, None, true));
  }

  lemma NothingOpened(sink: Sink, table: seq<Version>, run: Run, s: Row)
    requires Before(table, run.now) && !Opens(Classify(sink, table, run.staged, s.key))
    ensures Version(s, Fnv(0), run.now, None, true) !in Erased(Apply(sink, table, run))
  {
    hide FilterMap, Classify;
    var x := Version(s, Fnv(0), run.now, None, true);
    FilterMapMember(Apply(sink, table, run), EraseFn(), x);
    if w :| w in Apply(sink, table, run) && EraseFn()(w) == Some(x) {
      FilterMapMember(table, FateFn(sink, table, run), w);
      FilterMapMember(run.staged, OpenFn(sink, table, run), w);
      assert false;
    }
  }

  // ---- What the two sinks write ----

  /** One sink does the same to tables that differ in ids and order only. */
  lemma AppliedAlike(sink: Sink, a: seq<Version>, b: seq<Version>, run: Run)
    requires multiset(Erased(a)) == multiset(Erased(b)) && OneCurrentPerKey(a)
    ensures multiset(Erased(Apply(sink, a, run))) == multiset(Erased(Apply(sink, b, run)))
  {
    var classes := (k: Key) => Classify(sink, a, run.staged, k);
    forall k
      ensures classes(k) == Classify(sink, b, run.staged, k)
    {
      ClassesOfSameRows(sink, a, b, run.staged, k);
    }
    hide *;
    EraseBoth(sink, a, run, classes);
    EraseApply(sink, b, run, classes);
    FilterMapPermuted(Erased(a), Erased(b), ErasedFateFn(classes, run));
  }

  /** What Parquet writes and what the Postgres transaction leaves, from targets equal up to ids, is equal up
      to ids exactly when no changed row collides with its current version. */
  lemma WritesAgreeIff(hash: seq<string> -> int, mode: ChangeDetection, a: seq<Version>, b: seq<Version>, run: Run,
                       written: seq<Version>, keys: set<Key>)
    requires multiset(Erased(a)) == multiset(Erased(b)) && OneCurrentPerKey(a) && Before(a, run.now)
    requires GoodTarget(b, keys) && GoodRun(b, run, keys) && JoinsApart(keys)
    requires multiset(written) == multiset(Apply(ParquetSink(hash, mode), a, run))
    ensures multiset(Erased(written)) == multiset(Erased(Merged(mode, b, run))) <==> NoCollision(hash, mode, a, run.staged)
  {
    hide Erased, Apply, Merged, NoCollision, GoodTarget, JoinsApart, OneCurrentPerKey, Before;
    ErasedPermuted(written, Apply(ParquetSink(hash, mode), a, run));
    MergedIsApply(mode, b, run, keys);
    AppliedAlike(PostgresSink(mode), a, b, run);
    SinksAgreeIff(hash, mode, a, run);
  }

  ghost predicate SameAfter(parquet: seq<seq<Version>>, postgres: seq<seq<Version>>, i: nat)
    requires i < |parquet| && i < |postgres|
  {
    multiset(Erased(parquet[i])) == multiset(Erased(postgres[i]))
  }

  lemma StepAgrees(hash: seq<string> -> int, mode: ChangeDetection, parquet: seq<seq<Version>>, postgres: seq<seq<Version>>,
                   runs: seq<Run>, keys: set<Key>, i: nat)
    requires History(ParquetSink(hash, mode), parquet, runs) && PostgresRuns(mode, postgres, runs)
    requires Legal(runs) && RunsOver(runs, keys) && JoinsApart(keys)
    requires i < |runs| && SameAfter(parquet, postgres, i)
    ensures SameAfter(parquet, postgres, i + 1) <==> NoCollision(hash, mode, parquet[i], runs[i].staged)
  {
    hide Apply, Merged, Erased, NoCollision, GoodTarget, Answers, JoinsApart, OneCurrentPerKey, Before;
    assert PostgresRuns(mode, postgres[..i + 1], runs[..i]) && Legal(runs[..i]) && RunsOver(runs[..i], keys);
    HistoryPrefix(ParquetSink(hash, mode), parquet, runs, i);
    PostgresHistory(mode, postgres[..i + 1], runs[..i], keys);
    assert runs[..i + 1][..i] == runs[..i];
    LastRunIsLater(PostgresSink(mode), postgres[i], runs[..i + 1]);
    assert Ran(ParquetSink(hash, mode), parquet[i], runs[i], parquet[i + 1]);
    WritesAgreeIff(hash, mode, parquet[i], postgres[i], runs[i], parquet[i + 1], keys);
  }

  /** The Parquet files and the Postgres targets are equal up to ids after every run exactly when no run meets
      a collision. */
  lemma HistoriesAgreeIff(hash: seq<string> -> int, mode: ChangeDetection, parquet: seq<seq<Version>>, postgres: seq<seq<Version>>,
                          runs: seq<Run>, keys: set<Key>)
    requires History(ParquetSink(hash, mode), parquet, runs) && PostgresRuns(mode, postgres, runs)
    requires Legal(runs) && RunsOver(runs, keys) && JoinsApart(keys)
    ensures (forall i :: 0 <= i <= |runs| ==> SameAfter(parquet, postgres, i))
      <==> forall i :: 0 <= i < |runs| ==> NoCollision(hash, mode, parquet[i], runs[i].staged)
  {
    hide Apply, Merged, Erased, NoCollision, Legal, RunsOver, JoinsApart;
    assert SameAfter(parquet, postgres, 0);
    if forall i :: 0 <= i < |runs| ==> NoCollision(hash, mode, parquet[i], runs[i].staged) {
      for i := 0 to |runs|
        invariant forall j :: 0 <= j <= i ==> SameAfter(parquet, postgres, j)
      {
        StepAgrees(hash, mode, parquet, postgres, runs, keys, i);
      }
    }
    if forall i :: 0 <= i <= |runs| ==> SameAfter(parquet, postgres, i) {
      forall i | 0 <= i < |runs|
        ensures NoCollision(hash, mode, parquet[i], runs[i].staged)
      {
        StepAgrees(hash, mode, parquet, postgres, runs, keys, i);
      }
    }
  }

  // ---- Repeated keys in the Parquet sink ----

  /** What the Parquet sink writes keeps one current version per key exactly when the staged keys are
      distinct. The Postgres sink has another condition, see OneCurrentAfterMergeIff. */
  lemma ParquetOneCurrentIff(hash: seq<string> -> int, mode: ChangeDetection, table: seq<Version>, run: Run, written: seq<Version>)
    requires Sane(table) && Before(table, run.now) && OneCurrentPerKey(table)
    requires multiset(written) == multiset(Apply(ParquetSink(hash, mode), table, run))
    ensures OneCurrentPerKey(written) <==> DistinctKeys(run.staged)
  {
    var next := Apply(ParquetSink(hash, mode), table, run);
    OneCurrentIffDistinct(ParquetSink(hash, mode), table, run);
    hide Apply, Matches, OneCurrentPerKey, DistinctKeys;
    OneCurrentByKey(next);
    OneCurrentByKey(written);
    forall k
      ensures |Matches(next, k)| == |Matches(written, k)|
    {
      SameMatches(written, next, k);
    }
  }

  // ---- An input without batches ----

  lemma CurrentIsGone(sink: Sink, table: seq<Version>, v: Version)
    requires v in table
    ensures v.isCurrent ==> Classify(sink, table, [], v.row.key) == Some(Gone)
    ensures (forall u <- table :: !u.isCurrent) ==> Classify(sink, table, [], v.row.key) == None
  {
    var k := v.row.key;
    if v.isCurrent {
      FilterMapMember(table, CurrentFn(sink, k), sink.signal(v.row));
      assert sink.signal(v.row) in CurrentSignals(sink, table, k);
    } else if forall u <- table :: !u.isCurrent {
      FilterMapNone(table, CurrentFn(sink, k));
    }
  }

  lemma NothingStaged(sink: Sink, table: seq<Version>, deletes: HardDeletes, now: int)
    ensures Apply(sink, table, Run([], deletes, now)) == FilterMap(table, FateFn(sink, table, Run([], deletes, now)))
  {
    hide Classify;
    FilterMapEmpty(OpenFn(sink, table, Run([], deletes, now)));
  }

  /** Without batches the sinks leave the same table exactly when deletes are ignored or nothing is
      current: Parquet goes on to treat every current key as gone, Postgres returns before it looks. */
  lemma EmptyInputIff(hash: seq<string> -> int, mode: ChangeDetection, table: seq<Version>, deletes: HardDeletes, now: int)
    ensures
      multiset(Apply(ParquetSink(hash, mode), table, Run(Flatten([]), deletes, now)))
        == multiset(Written(mode, table, [], deletes, now))
      <==> deletes == Ignore || forall v <- table :: !v.isCurrent
  {
    hide FilterMap, Classify, Merged;
    var sink, run := ParquetSink(hash, mode), Run([], deletes, now);
    var f := FateFn(sink, table, run);
    NothingStaged(sink, table, deletes, now);
    forall v | v in table
      ensures v.isCurrent ==> Classify(sink, table, [], v.row.key) == Some(Gone)
      ensures (forall u <- table :: !u.isCurrent) ==> Classify(sink, table, [], v.row.key) == None
    {
      CurrentIsGone(sink, table, v);
    }
    if deletes == Ignore || forall v <- table :: !v.isCurrent {
      FilterMapAll(table, f);
    } else {
      var v :| v in table && v.isCurrent;
      FilterMapMember(table, f, v);
      assert v !in FilterMap(table, f);
      assert v in multiset(table) && v !in multiset(FilterMap(table, f));
    }
  }

  /** One current row is enough: Parquet closes or drops it, Postgres leaves it. */
  lemma EmptyInputParts(hash: seq<string> -> int, mode: ChangeDetection, r: Row, since: int, now: int)
    ensures
      var sink := ParquetSink(hash, mode);
      var v := Open(sink, r, since);
      && Apply(sink, [v], Run(Flatten([]), Invalidate, now)) == [Close(v, now)]
      && Apply(sink, [v], Run(Flatten([]), Delete, now)) == []
      && Written(mode, [v], [], Invalidate, now) == Written(mode, [v], [], Delete, now) == [v]
  {
    hide FilterMap, Classify, Merged;
    var sink := ParquetSink(hash, mode);
    var v := Open(sink, r, since);
    CurrentIsGone(sink, [v], v);
    assert [] + [v] == [v];
    forall deletes: HardDeletes
      ensures Apply(sink, [v], Run([], deletes, now)) == Opt(Fate(v, Some(Gone), Run([], deletes, now)))
    {
      NothingStaged(sink, [v], deletes, now);
      FilterMapEmpty(FateFn(sink, [v], Run([], deletes, now)));
      FilterMapSnoc([], v, FateFn(sink, [v], Run([], deletes, now)));
    }
  }
}

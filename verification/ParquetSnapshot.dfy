/** The Parquet sink: read everything, split, classify, rewrite. */
module ParquetSnapshot {
  import opened Lists
  import opened Snapshot
  import opened SnapshotPlan

  /** The rows of a batch at the given indices, in index order. */
  function TakeRows<T>(batch: seq<T>, idx: seq<nat>): seq<T>
    requires forall i <- idx :: i < |batch|
  {
    seq(|idx|, j requires 0 <= j < |idx| => assert idx[j] in idx; batch[idx[j]])
  }

  function CloseAll(batch: seq<Version>, now: int): seq<Version> {
    seq(|batch|, i requires 0 <= i < |batch| => Close(batch[i], now))
  }

  function OpenAll(sink: Sink, batch: seq<Row>, now: int): seq<Version> {
    seq(|batch|, i requires 0 <= i < |batch| => Open(sink, batch[i], now))
  }

  function StagedSignalRows(sink: Sink, staged: seq<Row>): seq<Keyed> {
    seq(|staged|, i requires 0 <= i < |staged| => Keyed(staged[i].key, sink.signal(staged[i])))
  }

  function CurrentSignalRows(sink: Sink, current: seq<Version>): seq<Keyed> {
    seq(|current|, i requires 0 <= i < |current| => Keyed(current[i].row.key, sink.signal(current[i].row)))
  }

  function IsCurrentFn(): Version -> Option<Version> {
    (v: Version) => if v.isCurrent then Some(v) else None
  }

  function IsHistoricalFn(): Version -> Option<Version> {
    (v: Version) => if v.isCurrent then None else Some(v)
  }

  // ---- The planner's view agrees with the reference classification ----

  lemma {:induction false} StagedRowsAgree(sink: Sink, staged: seq<Row>, k: Key)
    ensures SignalsFor(StagedSignalRows(sink, staged), k) == StagedSignals(sink, staged, k)
  {
    if staged != [] {
      var n, x := |staged| - 1, staged[|staged| - 1];
      StagedRowsAgree(sink, staged[..n], k);
      FilterMapSnoc(staged[..n], x, StagedFn(sink, k));
      SignalsSnoc(StagedSignalRows(sink, staged[..n]), Keyed(x.key, sink.signal(x)), k);
      assert StagedSignalRows(sink, staged) == StagedSignalRows(sink, staged[..n]) + [Keyed(x.key, sink.signal(x))];
      assert staged == staged[..n] + [x];
    }
  }

  lemma {:induction false} CurrentRowsAgree(sink: Sink, current: seq<Version>, k: Key)
    requires forall v <- current :: v.isCurrent
    ensures SignalsFor(CurrentSignalRows(sink, current), k) == CurrentSignals(sink, current, k)
  {
    if current != [] {
      var n, x := |current| - 1, current[|current| - 1];
      assert x in current;
      CurrentRowsAgree(sink, current[..n], k);
      FilterMapSnoc(current[..n], x, CurrentFn(sink, k));
      SignalsSnoc(CurrentSignalRows(sink, current[..n]), Keyed(x.row.key, sink.signal(x.row)), k);
      assert CurrentSignalRows(sink, current) == CurrentSignalRows(sink, current[..n]) + [Keyed(x.row.key, sink.signal(x.row))];
      assert current == current[..n] + [x];
    }
  }

  lemma {:induction false} CurrentSliceAgrees(sink: Sink, target: seq<Version>, k: Key)
    ensures CurrentSignals(sink, FilterMap(target, IsCurrentFn()), k) == CurrentSignals(sink, target, k)
  {
    FilterMapCompose(target, IsCurrentFn(), CurrentFn(sink, k), CurrentFn(sink, k));
  }

  lemma CurrentSliceIsCurrent(target: seq<Version>)
    ensures forall v <- FilterMap(target, IsCurrentFn()) :: v.isCurrent
    ensures forall v <- FilterMap(target, IsHistoricalFn()) :: !v.isCurrent
  {
    forall v | v in FilterMap(target, IsCurrentFn())
      ensures v.isCurrent
    {
      FilterMapMember(target, IsCurrentFn(), v);
    }
    forall v | v in FilterMap(target, IsHistoricalFn())
      ensures !v.isCurrent
    {
      FilterMapMember(target, IsHistoricalFn(), v);
    }
  }

  /** What every later step needs of a plan: the class of each key is the reference class. */
  ghost predicate ClassesAgree(classes: map<Key, Class>, sink: Sink, target: seq<Version>, staged: seq<Row>) {
    forall k :: (if k in classes then Some(classes[k]) else None) == Classify(sink, target, staged, k)
  }

  lemma PlanAgrees(rows: seq<Classified>, sink: Sink, target: seq<Version>, staged: seq<Row>, k: Key)
    requires Plans(rows, CurrentSignalRows(sink, FilterMap(target, IsCurrentFn())), StagedSignalRows(sink, staged))
    ensures LastOf(ClassesFor(rows, k)) == Classify(sink, target, staged, k)
  {
    CurrentSliceIsCurrent(target);
    hide FilterMap, IsCurrentFn, CurrentSignalRows, StagedSignalRows, ClassesFor, SignalsFor, CurrentSignals, StagedSignals;
    StagedRowsAgree(sink, staged, k);
    CurrentRowsAgree(sink, FilterMap(target, IsCurrentFn()), k);
    CurrentSliceAgrees(sink, target, k);
  }

  lemma GoneRowsAreGone(rows: seq<Classified>, current: seq<Keyed>, staged: seq<Keyed>, k: Key)
    requires Plans(rows, current, staged)
    ensures k in KeysOf(rows, Gone) <==> LastOf(ClassesFor(rows, k)) == Some(Gone)
  {
    FilterMapMember(rows, OfClassFn(Gone), k);
    FilterMapMember(rows, ClassFn(k), Gone);
    hide FilterMap, SignalsFor;
    assert forall i :: 0 <= i < |staged| ==> rows[i].kind != Gone;
    if k in KeysOf(rows, Gone) {
      var x :| x in rows && OfClassFn(Gone)(x) == Some(k);
      var i :| 0 <= i < |rows| && rows[i] == x;
      assert |staged| <= i;
    }
  }

  /** The facts about a plan that the rewrite relies on, for every key at once. */
  lemma PlanSettlesEveryKey(rows: seq<Classified>, sink: Sink, target: seq<Version>, staged: seq<Row>,
                            classes: map<Key, Class>)
    requires Plans(rows, CurrentSignalRows(sink, FilterMap(target, IsCurrentFn())), StagedSignalRows(sink, staged))
    requires forall k :: (if k in classes then Some(classes[k]) else None) == LastOf(ClassesFor(rows, k))
    ensures ClassesAgree(classes, sink, target, staged)
    ensures forall k :: k in KeysOf(rows, Gone) <==> Classify(sink, target, staged, k) == Some(Gone)
  {
    hide Classify, ClassesFor, KeysOf, Plans, FilterMap;
    forall k
      ensures (if k in classes then Some(classes[k]) else None) == Classify(sink, target, staged, k)
      ensures k in KeysOf(rows, Gone) <==> Classify(sink, target, staged, k) == Some(Gone)
    {
      PlanAgrees(rows, sink, target, staged, k);
      GoneRowsAreGone(rows, CurrentSignalRows(sink, FilterMap(target, IsCurrentFn())), StagedSignalRows(sink, staged), k);
    }
  }

  // ---- The steps of the rewrite ----

  method SplitCurrent(target: seq<Version>) returns (current: seq<Version>, historical: seq<Version>)
    ensures current == FilterMap(target, IsCurrentFn())
    ensures historical == FilterMap(target, IsHistoricalFn())
  {
    hide FilterMap;
    var curIdx: seq<nat>, histIdx: seq<nat> := [], [];
    assert FilterMap(target[..0], IsCurrentFn()) == [] && FilterMap(target[..0], IsHistoricalFn()) == [] by {
      FilterMapNone(target[..0], IsCurrentFn());
      FilterMapNone(target[..0], IsHistoricalFn());
    }
    for i := 0 to |target|
      invariant forall j <- curIdx :: j < |target|
      invariant forall j <- histIdx :: j < |target|
      invariant TakeRows(target, curIdx) == FilterMap(target[..i], IsCurrentFn())
      invariant TakeRows(target, histIdx) == FilterMap(target[..i], IsHistoricalFn())
    {
      assert target[..i + 1] == target[..i] + [target[i]];
      FilterMapSnoc(target[..i], target[i], IsCurrentFn());
      FilterMapSnoc(target[..i], target[i], IsHistoricalFn());
      if target[i].isCurrent {
        TakeSnoc(target, curIdx, i);
        curIdx := curIdx + [i];
      } else {
        TakeSnoc(target, histIdx, i);
        histIdx := histIdx + [i];
      }
    }
    assert target[..|target|] == target;
    current, historical := TakeRows(target, curIdx), TakeRows(target, histIdx);
  }

  lemma TakeSnoc<T>(batch: seq<T>, idx: seq<nat>, i: nat)
    requires i < |batch| && forall j <- idx :: j < |batch|
    ensures TakeRows(batch, idx + [i]) == TakeRows(batch, idx) + [batch[i]]
    ensures forall j <- idx + [i] :: j < |batch|
  {
  }

  method IndexClasses(rows: seq<Classified>) returns (classes: map<Key, Class>)
    ensures forall k :: (if k in classes then Some(classes[k]) else None) == LastOf(ClassesFor(rows, k))
  {
    hide ClassesFor;
    classes := map[];
    NothingClassified();
    assert rows[..0] == [];
    for i := 0 to |rows|
      invariant forall k :: (if k in classes then Some(classes[k]) else None) == LastOf(ClassesFor(rows[..i], k))
    {
      assert rows[..i + 1] == rows[..i] + [rows[i]];
      forall k
        ensures ClassesFor(rows[..i + 1], k) == ClassesFor(rows[..i], k) + if rows[i].key == k then [rows[i].kind] else []
      {
        ClassesSnoc(rows[..i], rows[i], k);
      }
      classes := classes[rows[i].key := rows[i].kind];
    }
    assert rows[..|rows|] == rows;
  }

  lemma NothingClassified()
    ensures forall k :: ClassesFor([], k) == []
  {
  }

  /** Step 8a: historical rows survive, unless their key is gone and deletes are physical. */
  method KeepHistorical(historical: seq<Version>, gone: set<Key>, deletes: HardDeletes,
                        ghost sink: Sink, ghost target: seq<Version>, ghost run: Run)
    returns (keep: seq<Version>)
    requires forall v <- historical :: !v.isCurrent
    requires run.deletes == deletes
    requires forall k :: k in gone <==> Classify(sink, target, run.staged, k) == Some(Gone)
    ensures keep == FilterMap(historical, FateFn(sink, target, run))
  {
    hide FilterMap, Classify;
    ghost var f := FateFn(sink, target, run);
    if deletes == Delete {
      var idx: seq<nat> := [];
      FilterMapNone(historical[..0], f);
      for i := 0 to |historical|
        invariant forall j <- idx :: j < |historical|
        invariant TakeRows(historical, idx) == FilterMap(historical[..i], f)
      {
        assert historical[..i + 1] == historical[..i] + [historical[i]];
        FilterMapSnoc(historical[..i], historical[i], f);
        assert historical[i] in historical;
        if historical[i].row.key !in gone {
          TakeSnoc(historical, idx, i);
          idx := idx + [i];
        }
      }
      assert historical[..|historical|] == historical;
      keep := TakeRows(historical, idx);
    } else {
      FilterMapAll(historical, f);
      keep := historical;
    }
  }

  /** Step 8b: current rows are kept, closed or dropped by the class of their key. */
  method RewriteCurrent(current: seq<Version>, classes: map<Key, Class>, deletes: HardDeletes, now: int,
                        ghost sink: Sink, ghost target: seq<Version>, ghost run: Run)
    returns (kept: seq<Version>, closed: seq<Version>)
    requires forall v <- current :: v.isCurrent
    requires run.deletes == deletes && run.now == now
    requires ClassesAgree(classes, sink, target, run.staged)
    ensures multiset(kept) + multiset(closed) == multiset(FilterMap(current, FateFn(sink, target, run)))
  {
    hide *;
    var keep: seq<nat>, changed: seq<nat>, gone: seq<nat> := [], [], [];
    NothingRewritten(current, sink, target, run);
    for i := 0 to |current|
      invariant InRange(keep, |current|) && InRange(changed, |current|) && InRange(gone, |current|)
      invariant Rewritten(current, keep, changed, gone, now) == multiset(FilterMap(current[..i], FateFn(sink, target, run)))
    {
      var k := current[i].row.key;
      FateStep(current, i, classes, sink, target, run);
      PushIndex(current, keep, changed, gone, i, now);
      if k !in classes || classes[k] == Unchanged || classes[k] == New {
        keep := keep + [i];
      } else if classes[k] == Changed {
        changed := changed + [i];
      } else {
        match deletes {
          case Ignore => keep := keep + [i];
          case Invalidate => gone := gone + [i];
          case Delete =>
        }
      }
    }
    assert current[..|current|] == current;
    kept, closed := RewriteResult(current, keep, changed, gone, now);
  }

  predicate InRange(idx: seq<nat>, n: nat) {
    forall i <- idx :: i < n
  }

  /** The rows the three index lists stand for. */
  ghost function Rewritten(current: seq<Version>, keep: seq<nat>, changed: seq<nat>, gone: seq<nat>, now: int): multiset<Version>
    requires InRange(keep, |current|) && InRange(changed, |current|) && InRange(gone, |current|)
  {
    multiset(TakeRows(current, keep)) + multiset(CloseAll(TakeRows(current, changed), now))
    + multiset(CloseAll(TakeRows(current, gone), now))
  }

  lemma NothingRewritten(current: seq<Version>, sink: Sink, target: seq<Version>, run: Run)
    ensures InRange([], |current|)
    ensures Rewritten(current, [], [], [], run.now) == multiset(FilterMap(current[..0], FateFn(sink, target, run)))
  {
  }

  lemma PushIndex(current: seq<Version>, keep: seq<nat>, changed: seq<nat>, gone: seq<nat>, i: nat, now: int)
    requires InRange(keep, |current|) && InRange(changed, |current|) && InRange(gone, |current|) && i < |current|
    ensures InRange(keep + [i], |current|) && InRange(changed + [i], |current|) && InRange(gone + [i], |current|)
    ensures
      var before, v := Rewritten(current, keep, changed, gone, now), current[i];
      && Rewritten(current, keep + [i], changed, gone, now) == before + multiset{v}
      && Rewritten(current, keep, changed + [i], gone, now) == before + multiset{Close(v, now)}
      && Rewritten(current, keep, changed, gone + [i], now) == before + multiset{Close(v, now)}
  {
    hide TakeRows, CloseAll, Close;
    TakeSnoc(current, keep, i);
    TakeSnoc(current, changed, i);
    TakeSnoc(current, gone, i);
    CloseSnoc(TakeRows(current, changed), current[i], now);
    CloseSnoc(TakeRows(current, gone), current[i], now);
  }

  lemma FateStep(current: seq<Version>, i: nat, classes: map<Key, Class>, sink: Sink, target: seq<Version>, run: Run)
    requires i < |current| && (forall v <- current :: v.isCurrent) && ClassesAgree(classes, sink, target, run.staged)
    ensures
      var k, v, f := current[i].row.key, current[i], FateFn(sink, target, run);
      multiset(FilterMap(current[..i + 1], f)) == multiset(FilterMap(current[..i], f)) +
      if k !in classes || classes[k] == Unchanged || classes[k] == New then multiset{v}
      else if classes[k] == Changed then multiset{Close(v, run.now)}
      else match run.deletes
           case Ignore => multiset{v}
           case Invalidate => multiset{Close(v, run.now)}
           case Delete => multiset{}
  {
    hide FilterMap, Classify, Close;
    var k, v, f := current[i].row.key, current[i], FateFn(sink, target, run);
    assert current[..i + 1] == current[..i] + [v];
    FilterMapSnoc(current[..i], v, f);
    assert v in current;
    assert (if k in classes then Some(classes[k]) else None) == Classify(sink, target, run.staged, k);
    assert f(v) == Fate(v, Classify(sink, target, run.staged, k), run);
  }

  method RewriteResult(current: seq<Version>, keep: seq<nat>, changed: seq<nat>, gone: seq<nat>, now: int)
    returns (kept: seq<Version>, closed: seq<Version>)
    requires InRange(keep, |current|) && InRange(changed, |current|) && InRange(gone, |current|)
    ensures multiset(kept) + multiset(closed) == Rewritten(current, keep, changed, gone, now)
  {
    var toClose := changed + gone;
    TakeConcat(current, changed, gone);
    kept, closed := TakeRows(current, keep), CloseAll(TakeRows(current, toClose), now);
    assert closed == CloseAll(TakeRows(current, changed), now) + CloseAll(TakeRows(current, gone), now);
  }

  lemma CloseSnoc(batch: seq<Version>, v: Version, now: int)
    ensures CloseAll(batch + [v], now) == CloseAll(batch, now) + [Close(v, now)]
  {
  }

  lemma TakeConcat<T>(batch: seq<T>, a: seq<nat>, b: seq<nat>)
    requires forall j <- a :: j < |batch|
    requires forall j <- b :: j < |batch|
    ensures forall j <- a + b :: j < |batch|
    ensures TakeRows(batch, a + b) == TakeRows(batch, a) + TakeRows(batch, b)
  {
  }

  /** Step 8c: staged rows whose key is new or changed open a version each. */
  method OpenVersions(staged: seq<Row>, classes: map<Key, Class>, now: int,
                      sink: Sink, ghost target: seq<Version>, ghost run: Run)
    returns (added: seq<Version>)
    requires run.staged == staged && run.now == now
    requires ClassesAgree(classes, sink, target, staged)
    ensures added == Opened(sink, target, run)
  {
    hide FilterMap, Classify;
    ghost var f := OpenFn(sink, target, run);
    var idx: seq<nat> := [];
    FilterMapNone(staged[..0], f);
    for i := 0 to |staged|
      invariant forall j <- idx :: j < |staged|
      invariant OpenAll(sink, TakeRows(staged, idx), now) == FilterMap(staged[..i], f)
    {
      assert staged[..i + 1] == staged[..i] + [staged[i]];
      FilterMapSnoc(staged[..i], staged[i], f);
      var k := staged[i].key;
      assert (if k in classes then Some(classes[k]) else None) == Classify(sink, target, staged, k);
      if k in classes && (classes[k] == New || classes[k] == Changed) {
        TakeSnoc(staged, idx, i);
        OpenSnoc(sink, TakeRows(staged, idx), staged[i], now);
        idx := idx + [i];
      }
    }
    assert staged[..|staged|] == staged;
    added := OpenAll(sink, TakeRows(staged, idx), now);
  }

  lemma OpenSnoc(sink: Sink, batch: seq<Row>, r: Row, now: int)
    ensures OpenAll(sink, batch + [r], now) == OpenAll(sink, batch, now) + [Open(sink, r, now)]
  {
  }

  lemma SplitFate(sink: Sink, target: seq<Version>, run: Run)
    ensures
      multiset(Survivors(sink, target, run)) ==
      multiset(FilterMap(FilterMap(target, IsHistoricalFn()), FateFn(sink, target, run)))
      + multiset(FilterMap(FilterMap(target, IsCurrentFn()), FateFn(sink, target, run)))
  {
    hide FilterMap, Classify, Fate;
    var f := FateFn(sink, target, run);
    var hist := (v: Version) => if v.isCurrent then None else f(v);
    var cur := (v: Version) => if v.isCurrent then f(v) else None;
    FilterMapCompose(target, IsHistoricalFn(), f, hist);
    FilterMapCompose(target, IsCurrentFn(), f, cur);
    FilterMapSplit(target, hist, cur, f);
  }

  /** The whole write. No batches and no target is a no-op; otherwise the target becomes, as a
      multiset of rows, the reference result of the run, whatever the staged rows and the target. */
  method WriteParquetSnapshot(target: Option<seq<Version>>, data: seq<seq<Row>>, hash: seq<string> -> int,
                              mode: ChangeDetection, deletes: HardDeletes, now: int)
    returns (output: Option<seq<Version>>, stats: Stats, rowsWritten: nat)
    ensures output.None? <==> data == [] && target.None?
    ensures output.None? ==> rowsWritten == 0 && stats == Stats(0, 0, 0, 0, 0, 0)
    ensures output.Some? ==>
              var sink, existing := ParquetSink(hash, mode), if target.Some? then target.value else [];
              var run := Run(Flatten(data), deletes, now);
              && multiset(output.value) == multiset(Apply(sink, existing, run))
              && rowsWritten == |Apply(sink, existing, run)|
              && exists rows :: Plans(rows, CurrentSignalRows(sink, FilterMap(existing, IsCurrentFn())),
                                      StagedSignalRows(sink, run.staged)) && stats == StatsOf(rows, deletes)
  {
    if data == [] && target.None? {
      return None, Stats(0, 0, 0, 0, 0, 0), 0;
    }
    hide *;
    var sink := ParquetSink(hash, mode);
    var staged, existing := Flatten(data), if target.Some? then target.value else [];
    ghost var run := Run(staged, deletes, now);
    var out, st := Rewrite(existing, staged, sink, deletes, now);
    assert |multiset(out)| == |out| && |multiset(Apply(sink, existing, run))| == |Apply(sink, existing, run)|;
    output, stats, rowsWritten := Some(out), st, |out|;
  }

  method Rewrite(existing: seq<Version>, staged: seq<Row>, sink: Sink, deletes: HardDeletes, now: int)
    returns (out: seq<Version>, stats: Stats)
    ensures multiset(out) == multiset(Apply(sink, existing, Run(staged, deletes, now)))
    ensures exists rows :: Plans(rows, CurrentSignalRows(sink, FilterMap(existing, IsCurrentFn())),
                                 StagedSignalRows(sink, staged)) && stats == StatsOf(rows, deletes)
  {
    hide *;
    ghost var run := Run(staged, deletes, now);
    var current, historical := SplitCurrent(existing);
    CurrentSliceIsCurrent(existing);
    var stagedRows, currentRows := StagedSignalRows(sink, staged), CurrentSignalRows(sink, current);
    var rows;
    rows, stats := PlanSnapshotMerge(currentRows, stagedRows, deletes);
    var classes := IndexClasses(rows);
    PlanSettlesEveryKey(rows, sink, existing, staged, classes);
    var goneList := KeysOf(rows, Gone);
    var gone := set k | k in goneList;
    var hist := KeepHistorical(historical, gone, deletes, sink, existing, run);
    var kept, closed := RewriteCurrent(current, classes, deletes, now, sink, existing, run);
    var added := OpenVersions(staged, classes, now, sink, existing, run);
    out := hist + kept + closed + added;
    SplitFate(sink, existing, run);
    ApplySplits(sink, existing, run);
  }

  lemma ApplySplits(sink: Sink, table: seq<Version>, run: Run)
    ensures multiset(Apply(sink, table, run)) == multiset(Survivors(sink, table, run)) + multiset(Opened(sink, table, run))
  {
    hide Survivors, Opened;
  }
}

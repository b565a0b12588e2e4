/** Conservation: the planner's counters, the diff's counters and the row counts are one accounting. */
module SnapshotCounts {
  import opened Lists
  import opened Snapshot
  import opened SnapshotPlan
  import opened SnapshotHistory
  import opened ParquetSnapshot

  function CurrentKeyFn(sink: Sink, table: seq<Version>, staged: seq<Row>, c: Class): Version -> Option<Key> {
    (v: Version) => if v.isCurrent && Classify(sink, table, staged, v.row.key) == Some(c) then Some(v.row.key) else None
  }

  function StagedKeyFn(sink: Sink, table: seq<Version>, staged: seq<Row>, c: Class): Row -> Option<Key> {
    (r: Row) => if Classify(sink, table, staged, r.key) == Some(c) then Some(r.key) else None
  }

  /** The keys of the current versions whose class is `c`. */
  function CurrentKeys(sink: Sink, table: seq<Version>, staged: seq<Row>, c: Class): seq<Key> {
    FilterMap(table, CurrentKeyFn(sink, table, staged, c))
  }

  /** The keys of the staged rows whose class is `c`. */
  function StagedKeys(sink: Sink, table: seq<Version>, staged: seq<Row>, c: Class): seq<Key> {
    FilterMap(staged, StagedKeyFn(sink, table, staged, c))
  }

  // ---- Counting lists without repeats ----

  lemma {:induction false} KeepsNoRepeats<A, B>(s: seq<A>, f: A -> Option<B>)
    requires forall i, j :: 0 <= i < j < |s| && f(s[i]).Some? && f(s[j]).Some? ==> f(s[i]) != f(s[j])
    ensures NoRepeats(FilterMap(s, f))
  {
    if s != [] {
      var n := |s| - 1;
      KeepsNoRepeats(s[..n], f);
      if f(s[n]).Some? {
        FilterMapMember(s[..n], f, f(s[n]).value);
      }
    }
  }

  lemma SameElements<T>(a: seq<T>, b: seq<T>)
    requires NoRepeats(a) && NoRepeats(b)
    requires forall x :: x in a <==> x in b
    ensures multiset(a) == multiset(b)
    ensures |a| == |b|
  {
    forall x
      ensures multiset(a)[x] == multiset(b)[x]
    {
      CountNoRepeats(a, x);
      CountNoRepeats(b, x);
    }
    assert |multiset(a)| == |a| && |multiset(b)| == |b|;
  }

  lemma {:induction false} CountNoRepeats<T>(a: seq<T>, x: T)
    requires NoRepeats(a)
    ensures multiset(a)[x] == if x in a then 1 else 0
  {
    if a != [] {
      var n := |a| - 1;
      CountNoRepeats(a[..n], x);
      assert a == a[..n] + [a[n]];
    }
  }

  /** Three partial functions that share out a list share out its length. */
  lemma {:induction false} LengthsAddUp<A, B>(s: seq<A>, all: A -> Option<A>, f: A -> Option<B>, g: A -> Option<B>, h: A -> Option<B>)
    requires forall x <- s ::
               (if all(x).Some? then 1 else 0) ==
               (if f(x).Some? then 1 else 0) + (if g(x).Some? then 1 else 0) + (if h(x).Some? then 1 else 0)
    ensures |FilterMap(s, all)| == |FilterMap(s, f)| + |FilterMap(s, g)| + |FilterMap(s, h)|
  {
    if s != [] {
      assert s[|s| - 1] in s;
      LengthsAddUp(s[..|s| - 1], all, f, g, h);
    }
  }

  // ---- Which keys have which class ----

  lemma CurrentKeyMember(sink: Sink, table: seq<Version>, staged: seq<Row>, c: Class, k: Key)
    ensures k in CurrentKeys(sink, table, staged, c) <==>
            Classify(sink, table, staged, k) == Some(c) && CurrentSignals(sink, table, k) != []
  {
    var f := CurrentKeyFn(sink, table, staged, c);
    FilterMapMember(table, f, k);
    hide FilterMap, Classify;
    if k in CurrentKeys(sink, table, staged, c) {
      var v :| v in table && f(v) == Some(k);
      FilterMapMember(table, CurrentFn(sink, k), sink.signal(v.row));
    } else if CurrentSignals(sink, table, k) != [] {
      var x := CurrentSignals(sink, table, k)[0];
      FilterMapMember(table, CurrentFn(sink, k), x);
      var v :| v in table && CurrentFn(sink, k)(v) == Some(x);
      assert f(v).None?;
    }
  }

  lemma StagedKeyMember(sink: Sink, table: seq<Version>, staged: seq<Row>, c: Class, k: Key)
    ensures k in StagedKeys(sink, table, staged, c) <==>
            Classify(sink, table, staged, k) == Some(c) && StagedSignals(sink, staged, k) != []
  {
    var f := StagedKeyFn(sink, table, staged, c);
    FilterMapMember(staged, f, k);
    hide FilterMap, Classify;
    if k in StagedKeys(sink, table, staged, c) {
      var r :| r in staged && f(r) == Some(k);
      FilterMapMember(staged, StagedFn(sink, k), sink.signal(r));
    } else if StagedSignals(sink, staged, k) != [] {
      var x := StagedSignals(sink, staged, k)[0];
      FilterMapMember(staged, StagedFn(sink, k), x);
      var r :| r in staged && StagedFn(sink, k)(r) == Some(x);
      assert f(r).None?;
    }
  }

  lemma CurrentKeysOnce(sink: Sink, table: seq<Version>, staged: seq<Row>, c: Class)
    requires OneCurrentPerKey(table)
    ensures NoRepeats(CurrentKeys(sink, table, staged, c))
  {
    hide FilterMap, Classify;
    KeepsNoRepeats(table, CurrentKeyFn(sink, table, staged, c));
  }

  /** A key staged twice is New, so the keys of the other classes are staged once. */
  lemma StagedKeysOnce(sink: Sink, table: seq<Version>, staged: seq<Row>, c: Class)
    requires DistinctKeys(staged) || c in {Unchanged, Changed}
    ensures NoRepeats(StagedKeys(sink, table, staged, c))
  {
    hide FilterMap;
    forall i, j | 0 <= i < j < |staged| && staged[i].key == staged[j].key
      ensures Classify(sink, table, staged, staged[i].key) == Some(New)
    {
      if |StagedSignals(sink, staged, staged[i].key)| <= 1 {
        FilterMapAtMostOne(staged, StagedFn(sink, staged[i].key), i, j);
      }
    }
    hide Classify;
    KeepsNoRepeats(staged, StagedKeyFn(sink, table, staged, c));
  }

  /** Matched keys are counted alike from either side of the join. */
  lemma MatchedKeysAgree(sink: Sink, table: seq<Version>, staged: seq<Row>, c: Class)
    requires OneCurrentPerKey(table) && c in {Unchanged, Changed}
    ensures multiset(CurrentKeys(sink, table, staged, c)) == multiset(StagedKeys(sink, table, staged, c))
    ensures |CurrentKeys(sink, table, staged, c)| == |StagedKeys(sink, table, staged, c)|
  {
    CurrentKeysOnce(sink, table, staged, c);
    StagedKeysOnce(sink, table, staged, c);
    forall k
      ensures k in CurrentKeys(sink, table, staged, c) <==> k in StagedKeys(sink, table, staged, c)
    {
      CurrentKeyMember(sink, table, staged, c, k);
      StagedKeyMember(sink, table, staged, c, k);
      hide FilterMap, CurrentSignals, StagedSignals;
    }
    hide *;
    SameElements(CurrentKeys(sink, table, staged, c), StagedKeys(sink, table, staged, c));
  }

  // ---- The three conservation laws ----

  /** Every staged row is unchanged, changed or new. */
  lemma StagedRowsConserved(sink: Sink, table: seq<Version>, staged: seq<Row>)
    ensures |staged| == |StagedKeys(sink, table, staged, Unchanged)| + |StagedKeys(sink, table, staged, Changed)|
                        + |StagedKeys(sink, table, staged, New)|
  {
    var all := (r: Row) => Some(r);
    FilterMapAll(staged, all);
    forall r | r in staged
      ensures Classify(sink, table, staged, r.key) in {Some(Unchanged), Some(Changed), Some(New)}
    {
      FilterMapMember(staged, StagedFn(sink, r.key), sink.signal(r));
      hide FilterMap;
      assert sink.signal(r) in StagedSignals(sink, staged, r.key);
    }
    hide FilterMap, Classify;
    LengthsAddUp(staged, all, StagedKeyFn(sink, table, staged, Unchanged), StagedKeyFn(sink, table, staged, Changed),
                 StagedKeyFn(sink, table, staged, New));
  }

  /** Every current version is unchanged, changed or gone. */
  lemma CurrentRowsConserved(sink: Sink, table: seq<Version>, staged: seq<Row>)
    requires DistinctKeys(staged)
    ensures |FilterMap(table, IsCurrentFn())| ==
            |CurrentKeys(sink, table, staged, Unchanged)| + |CurrentKeys(sink, table, staged, Changed)|
            + |CurrentKeys(sink, table, staged, Gone)|
  {
    forall v | v in table && v.isCurrent
      ensures Classify(sink, table, staged, v.row.key) in {Some(Unchanged), Some(Changed), Some(Gone)}
    {
      FilterMapMember(table, CurrentFn(sink, v.row.key), sink.signal(v.row));
      DistinctStaged(sink, staged, v.row.key);
      hide FilterMap;
      assert sink.signal(v.row) in CurrentSignals(sink, table, v.row.key);
    }
    hide FilterMap, Classify;
    LengthsAddUp(table, IsCurrentFn(), CurrentKeyFn(sink, table, staged, Unchanged),
                 CurrentKeyFn(sink, table, staged, Changed), CurrentKeyFn(sink, table, staged, Gone));
  }

  function NoKeyFn<A>(): A -> Option<Key> {
    (x: A) => None
  }

  function GoneVersionFn(sink: Sink, table: seq<Version>, staged: seq<Row>): Version -> Option<Key> {
    (v: Version) => if Classify(sink, table, staged, v.row.key) == Some(Gone) then Some(v.row.key) else None
  }

  lemma OpenedCount(sink: Sink, table: seq<Version>, run: Run)
    ensures |Opened(sink, table, run)| ==
            |StagedKeys(sink, table, run.staged, Changed)| + |StagedKeys(sink, table, run.staged, New)|
  {
    hide FilterMap, Classify;
    var staged, open := run.staged, OpenFn(sink, table, run);
    var openRow := (r: Row) => if open(r).Some? then Some(r) else None;
    LengthsAddUp(staged, openRow, StagedKeyFn(sink, table, staged, Changed), StagedKeyFn(sink, table, staged, New),
                 NoKeyFn());
    FilterMapNone(staged, NoKeyFn());
    FilterMapLonger(staged, open, openRow);
    FilterMapLonger(staged, openRow, open);
  }

  /** The target grows by one row per changed and per new staged row; `delete` mode takes away every
      version of the gone keys, and no other mode takes away anything. */
  lemma TargetRowsConserved(sink: Sink, table: seq<Version>, run: Run)
    ensures
      |Apply(sink, table, run)| ==
      |table| + |StagedKeys(sink, table, run.staged, Changed)| + |StagedKeys(sink, table, run.staged, New)|
      - (if run.deletes == Delete then |FilterMap(table, GoneVersionFn(sink, table, run.staged))| else 0)
  {
    hide FilterMap, Classify;
    var staged := run.staged;
    var all := (v: Version) => Some(v);
    var fate, gone := FateFn(sink, table, run), GoneVersionFn(sink, table, staged);
    FilterMapAll(table, all);
    if run.deletes == Delete {
      var keep := (v: Version) => if fate(v).Some? then Some(v.row.key) else None;
      LengthsAddUp(table, all, keep, gone, NoKeyFn());
      FilterMapNone(table, NoKeyFn());
      FilterMapLonger(table, fate, keep);
      FilterMapLonger(table, keep, fate);
    } else {
      FilterMapLonger(table, fate, all);
      FilterMapLonger(table, all, fate);
    }
    OpenedCount(sink, table, run);
  }

  // ---- The planner's counters ----

  ghost predicate KeyedOnce(rows: seq<Classified>) {
    forall i, j :: 0 <= i < j < |rows| ==> rows[i].key != rows[j].key
  }

  lemma PlanKeyedOnce(rows: seq<Classified>, current: seq<Keyed>, staged: seq<Keyed>)
    requires Plans(rows, current, staged)
    requires forall i, j :: 0 <= i < j < |staged| ==> staged[i].key != staged[j].key
    ensures KeyedOnce(rows)
  {
    hide FilterMap, ClassesFor;
    forall i, j | 0 <= i < j < |rows|
      ensures rows[i].key != rows[j].key
    {
      if i < |staged| <= j {
        var k := rows[i].key;
        FilterMapMember(staged, KeyedFn(k), staged[i].signal);
        assert staged[i] in staged;
        assert SignalsFor(staged, k) != [];
      }
    }
  }

  lemma KeyOfItsClass(rows: seq<Classified>, c: Class, k: Key)
    requires KeyedOnce(rows)
    ensures k in KeysOf(rows, c) <==> LastOf(ClassesFor(rows, k)) == Some(c)
  {
    FilterMapMember(rows, OfClassFn(c), k);
    FilterMapMember(rows, ClassFn(k), c);
    hide FilterMap;
    FilterMapFew(rows, ClassFn(k));
    if k in KeysOf(rows, c) {
      var x :| x in rows && OfClassFn(c)(x) == Some(k);
      assert ClassFn(k)(x) == Some(c);
    }
  }

  /** With distinct staged keys the planner's counters are the reference counts. */
  lemma PlanCounts(rows: seq<Classified>, sink: Sink, table: seq<Version>, staged: seq<Row>, deletes: HardDeletes)
    requires Plans(rows, CurrentSignalRows(sink, FilterMap(table, IsCurrentFn())), StagedSignalRows(sink, staged))
    requires OneCurrentPerKey(table) && DistinctKeys(staged)
    ensures StatsOf(rows, deletes) == RunStats(sink, table, staged, deletes)
  {
    hide FilterMap, ClassesFor, Plans, SignalsFor, StatsOf, KeysOf;
    PlanKeyedOnce(rows, CurrentSignalRows(sink, FilterMap(table, IsCurrentFn())), StagedSignalRows(sink, staged));
    PlanCount(rows, sink, table, staged, Unchanged);
    PlanCount(rows, sink, table, staged, Changed);
    PlanCount(rows, sink, table, staged, New);
    PlanCount(rows, sink, table, staged, Gone);
    StatsUnfold(rows, deletes);
  }

  lemma StatsUnfold(rows: seq<Classified>, deletes: HardDeletes)
    ensures
      var gone := |KeysOf(rows, Gone)|;
      StatsOf(rows, deletes) ==
      Stats(|KeysOf(rows, Unchanged)|, |KeysOf(rows, Changed)|, |KeysOf(rows, New)|, gone,
            if deletes == Invalidate then gone else 0, if deletes == Delete then gone else 0)
  {
    hide KeysOf;
  }

  lemma PlanCount(rows: seq<Classified>, sink: Sink, table: seq<Version>, staged: seq<Row>, c: Class)
    requires Plans(rows, CurrentSignalRows(sink, FilterMap(table, IsCurrentFn())), StagedSignalRows(sink, staged))
    requires KeyedOnce(rows) && OneCurrentPerKey(table) && DistinctKeys(staged)
    ensures |KeysOf(rows, c)| ==
            if c == Gone then |CurrentKeys(sink, table, staged, c)| else |StagedKeys(sink, table, staged, c)|
  {
    hide FilterMap, Plans, CurrentSignals, StagedSignals, CurrentKeys, StagedKeys, ClassesFor;
    KeepsNoRepeats(rows, OfClassFn(c));
    CurrentKeysOnce(sink, table, staged, c);
    StagedKeysOnce(sink, table, staged, c);
    var keys := if c == Gone then CurrentKeys(sink, table, staged, c) else StagedKeys(sink, table, staged, c);
    forall k
      ensures k in KeysOf(rows, c) <==> k in keys
    {
      KeyOfItsClass(rows, c, k);
      PlanAgrees(rows, sink, table, staged, k);
      CurrentKeyMember(sink, table, staged, c, k);
      StagedKeyMember(sink, table, staged, c, k);
    }
    SameElements(KeysOf(rows, c), keys);
  }

  /** The receipt of one run, counted on the reference classification. */
  function RunStats(sink: Sink, table: seq<Version>, staged: seq<Row>, deletes: HardDeletes): Stats {
    var gone := |CurrentKeys(sink, table, staged, Gone)|;
    Stats(|StagedKeys(sink, table, staged, Unchanged)|, |StagedKeys(sink, table, staged, Changed)|,
          |StagedKeys(sink, table, staged, New)|, gone,
          if deletes == Invalidate then gone else 0, if deletes == Delete then gone else 0)
  }

  function SaturatingSub(a: nat, b: nat): nat {
    if a < b then 0 else a - b
  }

  /** The Postgres roll-up of the diff query's three numbers. */
  function StatsFromDiff(totalStageRows: nat, changed: nat, newVersions: nat, gone: nat, deletes: HardDeletes): Stats {
    var unaltered := SaturatingSub(SaturatingSub(totalStageRows, changed), newVersions);
    match deletes
    case Ignore => Stats(unaltered, changed, newVersions, gone, 0, 0)
    case Invalidate => Stats(unaltered, changed, newVersions, gone, gone, 0)
    case Delete => Stats(unaltered, changed, newVersions, gone, 0, gone)
  }

  /** The roll-up of the reference classes does not saturate, although it counts the changed keys on the
      target side of the join and the receipt counts them on the staged side. */
  lemma DiffStatsAgree(sink: Sink, table: seq<Version>, staged: seq<Row>, deletes: HardDeletes)
    requires OneCurrentPerKey(table)
    ensures
      var changed, added := |CurrentKeys(sink, table, staged, Changed)|, |StagedKeys(sink, table, staged, New)|;
      && changed + added <= |staged|
      && StatsFromDiff(|staged|, changed, added, |CurrentKeys(sink, table, staged, Gone)|, deletes)
         == RunStats(sink, table, staged, deletes)
  {
    hide CurrentKeys, StagedKeys;
    StagedRowsConserved(sink, table, staged);
    MatchedKeysAgree(sink, table, staged, Changed);
  }
}

/** The receipts: what the planner and the diff query count, repeated keys included, against what the runs
    do to the table. */
module SnapshotReceipt {
  import opened Lists
  import opened Snapshot
  import opened SnapshotPlan
  import opened SnapshotHistory
  import opened SnapshotCounts
  import opened ParquetSnapshot
  import opened PostgresSnapshot
  import opened SinkRefinement
  import opened PostgresRepeats

  // ---- What the planner makes of each staged occurrence ----

  ghost predicate PlanOf(rows: seq<Classified>, sink: Sink, table: seq<Version>, staged: seq<Row>) {
    Plans(rows, CurrentSignalRows(sink, FilterMap(table, IsCurrentFn())), StagedSignalRows(sink, staged))
  }

  /** The class of staged row i on its own: a key is used up by its first occurrence. */
  function Occurrence(sink: Sink, table: seq<Version>, staged: seq<Row>, i: nat): Class
    requires i < |staged|
  {
    var current := CurrentSignals(sink, table, staged[i].key);
    if current == [] || StagedSignals(sink, staged[..i], staged[i].key) != [] then New
    else if current[|current| - 1] == sink.signal(staged[i]) then Unchanged
    else Changed
  }

  lemma PlannedOccurrence(rows: seq<Classified>, sink: Sink, table: seq<Version>, staged: seq<Row>, i: nat)
    requires PlanOf(rows, sink, table, staged) && i < |staged|
    ensures i < |rows| && rows[i] == Classified(staged[i].key, Occurrence(sink, table, staged, i))
  {
    var current, k := FilterMap(table, IsCurrentFn()), staged[i].key;
    CurrentSliceIsCurrent(table);
    hide FilterMap, SignalsFor, CurrentSignals, StagedSignals, ClassesFor;
    assert StagedSignalRows(sink, staged)[..i] == StagedSignalRows(sink, staged[..i]);
    StagedRowsAgree(sink, staged[..i], k);
    CurrentRowsAgree(sink, current, k);
    CurrentSliceAgrees(sink, table, k);
  }

  /** The rows after the staged ones are the gone keys, each once. */
  lemma PlannedParts(rows: seq<Classified>, sink: Sink, table: seq<Version>, staged: seq<Row>, c: Class)
    requires PlanOf(rows, sink, table, staged)
    ensures |staged| <= |rows|
    ensures c != Gone ==> KeysOf(rows, c) == KeysOf(rows[..|staged|], c)
    ensures NoRepeats(KeysOf(rows, Gone))
  {
    var n := |staged|;
    hide FilterMap, SignalsFor, ClassesFor, Occurrence, CurrentSignalRows;
    assert |StagedSignalRows(sink, staged)| == n;
    assert rows == rows[..n] + rows[n..];
    FilterMapConcat(rows[..n], rows[n..], OfClassFn(c));
    if c != Gone {
      FilterMapNone(rows[n..], OfClassFn(c));
    }
    forall i | 0 <= i < n
      ensures rows[i].kind != Gone
    {
      PlannedOccurrence(rows, sink, table, staged, i);
      OccurrenceNotGone(sink, table, staged, i);
    }
    KeepsNoRepeats(rows, OfClassFn(Gone));
  }

  lemma OccurrenceNotGone(sink: Sink, table: seq<Version>, staged: seq<Row>, i: nat)
    requires i < |staged|
    ensures Occurrence(sink, table, staged, i) != Gone
  {
  }

  /** Every staged row is counted once. */
  lemma PlannedStagedConserved(rows: seq<Classified>, sink: Sink, table: seq<Version>, staged: seq<Row>)
    requires PlanOf(rows, sink, table, staged)
    ensures |KeysOf(rows, Unchanged)| + |KeysOf(rows, Changed)| + |KeysOf(rows, New)| == |staged|
  {
    hide FilterMap, PlanOf, Occurrence;
    PlannedParts(rows, sink, table, staged, Unchanged);
    PlannedParts(rows, sink, table, staged, Changed);
    PlannedParts(rows, sink, table, staged, New);
    var first := rows[..|staged|];
    forall x | x in first
      ensures x.kind != Gone
    {
      var i :| 0 <= i < |first| && first[i] == x;
      PlannedOccurrence(rows, sink, table, staged, i);
      OccurrenceNotGone(sink, table, staged, i);
    }
    ThreeKinds(first);
  }

  lemma ThreeKinds(rows: seq<Classified>)
    requires forall x <- rows :: x.kind != Gone
    ensures |KeysOf(rows, Unchanged)| + |KeysOf(rows, Changed)| + |KeysOf(rows, New)| == |rows|
  {
    hide FilterMap;
    var all := (x: Classified) => Some(x);
    FilterMapAll(rows, all);
    LengthsAddUp(rows, all, OfClassFn(Unchanged), OfClassFn(Changed), OfClassFn(New));
  }

  /** The planner's gone keys are those of the reference classification, whatever is staged. */
  lemma GoneCounted(rows: seq<Classified>, sink: Sink, table: seq<Version>, staged: seq<Row>)
    requires PlanOf(rows, sink, table, staged) && OneCurrentPerKey(table)
    ensures |KeysOf(rows, Gone)| == |CurrentKeys(sink, table, staged, Gone)|
  {
    hide FilterMap, Plans, KeysOf, ClassesFor, CurrentKeys, CurrentSignals, StagedSignals, CurrentSignalRows, StagedSignalRows;
    PlannedParts(rows, sink, table, staged, Gone);
    CurrentKeysOnce(sink, table, staged, Gone);
    forall k
      ensures k in KeysOf(rows, Gone) <==> k in CurrentKeys(sink, table, staged, Gone)
    {
      GoneRowsAreGone(rows, CurrentSignalRows(sink, FilterMap(table, IsCurrentFn())), StagedSignalRows(sink, staged), k);
      PlanAgrees(rows, sink, table, staged, k);
      CurrentKeyMember(sink, table, staged, Gone, k);
    }
    SameElements(KeysOf(rows, Gone), CurrentKeys(sink, table, staged, Gone));
  }

  // ---- The diff query, counted from the staged side ----

  function JoinedFn(mode: ChangeDetection, s: Row): Version -> Option<ScdId> {
    (v: Version) => if v.isCurrent && s.key == v.row.key && Distinct(mode, v, s) then Some(v.id) else None
  }

  lemma {:induction false} ChangedIdsSnoc(mode: ChangeDetection, target: seq<Version>, stage: seq<Row>, s: Row)
    ensures |ChangedIds(mode, target, stage + [s])| == |ChangedIds(mode, target, stage)| + |FilterMap(target, JoinedFn(mode, s))|
  {
    if target != [] {
      var n, v := |target| - 1, target[|target| - 1];
      ChangedIdsSnoc(mode, target[..n], stage, s);
      FilterMapSnoc(stage, s, ChangedJoinFn(mode, v));
    }
  }

  function ChangedRowFn(mode: ChangeDetection, target: seq<Version>): Row -> Option<Row> {
    (s: Row) =>
      var current := Matches(target, s.key);
      if current != [] && Distinct(mode, current[0], s) then Some(s) else None
  }

  lemma JoinedOnce(mode: ChangeDetection, target: seq<Version>, s: Row)
    requires OneCurrentPerKey(target)
    ensures |FilterMap(target, JoinedFn(mode, s))| == if ChangedRowFn(mode, target)(s).Some? then 1 else 0
  {
    var g := (v: Version) => if Distinct(mode, v, s) then Some(v.id) else None;
    var current := Matches(target, s.key);
    AtMostOneMatch(target, s.key);
    FilterMapCompose(target, MatchFn(s.key), g, JoinedFn(mode, s));
    hide FilterMap, Distinct;
    FilterMapEmpty(g);
    if current != [] {
      assert current == [] + [current[0]];
      FilterMapSnoc([], current[0], g);
    }
  }

  /** With one current version per key, each staged row joins with at most one. */
  lemma {:induction false} ChangedFromStage(mode: ChangeDetection, target: seq<Version>, stage: seq<Row>)
    requires OneCurrentPerKey(target)
    ensures |ChangedIds(mode, target, stage)| == |FilterMap(stage, ChangedRowFn(mode, target))|
  {
    hide OneCurrentPerKey, ChangedRowFn;
    if stage == [] {
      NothingChanged(mode, target);
    } else {
      hide FilterMap;
      var n := |stage| - 1;
      ChangedFromStage(mode, target, stage[..n]);
      assert stage == stage[..n] + [stage[n]];
      ChangedIdsSnoc(mode, target, stage[..n], stage[n]);
      JoinedOnce(mode, target, stage[n]);
      FilterMapSnoc(stage[..n], stage[n], ChangedRowFn(mode, target));
    }
  }

  lemma {:induction false} NothingChanged(mode: ChangeDetection, target: seq<Version>)
    ensures ChangedIds(mode, target, []) == []
  {
    if target != [] {
      NothingChanged(mode, target[..|target| - 1]);
    }
  }

  /** The roll-up never saturates on a target with one current version per key, whatever is staged. */
  lemma DiffWithinStage(mode: ChangeDetection, target: seq<Version>, stage: seq<Row>)
    requires OneCurrentPerKey(target)
    ensures |ChangedIds(mode, target, stage)| + NewCount(target, stage) <= |stage|
  {
    var changed, added := ChangedRowFn(mode, target), UnmatchedFn(target);
    var all := (s: Row) => Some(s);
    var rest := (s: Row) => if changed(s).None? && added(s).None? then Some(s) else None;
    ChangedFromStage(mode, target, stage);
    FilterMapAll(stage, all);
    hide FilterMap, Distinct, Matches;
    LengthsAddUp(stage, all, changed, added, rest);
  }

  /** A row of this key that differs from both versions, in either mode. */
  function Unlike(u: Version, w: Version): Row {
    var a, b := u.row.updatedAt, w.row.updatedAt;
    var x, y := if a.Some? then a.value else 0, if b.Some? then b.value else 0;
    Row(u.row.key, seq(|u.row.tracked| + |w.row.tracked| + 1, i => Null), Some(if x < y then y + 1 else x + 1), [])
  }

  lemma UnlikeDiffers(mode: ChangeDetection, u: Version, w: Version)
    ensures Distinct(mode, u, Unlike(u, w)) && Distinct(mode, w, Unlike(u, w))
  {
    assert |Unlike(u, w).tracked| > |u.row.tracked| && |Unlike(u, w).tracked| > |w.row.tracked|;
  }

  /** No staged batch makes the roll-up saturate exactly when the target has one current version per key. */
  lemma NeverSaturatesIff(mode: ChangeDetection, target: seq<Version>)
    ensures (forall stage :: |ChangedIds(mode, target, stage)| + NewCount(target, stage) <= |stage|) <==> OneCurrentPerKey(target)
  {
    hide FilterMap, ChangedIds, NewCount, Distinct;
    if OneCurrentPerKey(target) {
      hide OneCurrentPerKey;
      forall stage: seq<Row>
        ensures |ChangedIds(mode, target, stage)| + NewCount(target, stage) <= |stage|
      {
        DiffWithinStage(mode, target, stage);
      }
    } else {
      var i, j :| 0 <= i < j < |target| && target[i].isCurrent && target[j].isCurrent && target[i].row.key == target[j].row.key;
      var s := Unlike(target[i], target[j]);
      UnlikeDiffers(mode, target[i], target[j]);
      NothingChanged(mode, target);
      ChangedIdsSnoc(mode, target, [], s);
      assert [] + [s] == [s];
      if |FilterMap(target, JoinedFn(mode, s))| <= 1 {
        FilterMapAtMostOne(target, JoinedFn(mode, s), i, j);
      }
      assert |ChangedIds(mode, target, [s])| + NewCount(target, [s]) > |[s]|;
    }
  }

  /** With two current versions of a key it can: one differing staged row is counted once for each. */
  lemma RollUpSaturates(mode: ChangeDetection, a: Row, b: Row, first: int, deletes: HardDeletes)
    requires a.key == b.key && PostgresSignal(mode, a) != PostgresSignal(mode, b)
    ensures
      var target := Merged(mode, [], Run([a, a], deletes, first));
      && target == [Open(PostgresSink(mode), a, first), Open(PostgresSink(mode), a, first)]
      && |ChangedIds(mode, target, [b])| == 2 && NewCount(target, [b]) == 0
      && StatsFromDiff(1, 2, 0, 0, deletes).unaltered == 0
  {
    hide FilterMap, Merged, ChangedIds, Matches, PostgresSink, PostgresSignal;
    var v := Open(PostgresSink(mode), a, first);
    NewTwice(mode, a, first, deletes);
    NothingChanged(mode, [v, v]);
    ChangedIdsSnoc(mode, [v, v], [], b);
    FilterMapPair(v, v, JoinedFn(mode, b));
    MatchesMember([v, v], b.key, v);
    FilterMapNone([b], UnmatchedFn([v, v]));
    assert [] + [b] == [b];
  }

  lemma ClassWhenEmpty(mode: ChangeDetection, a: Row)
    ensures DiffClass(mode, [], [a, a], a.key) == Some(New)
  {
    StagedMember([a, a], a.key, a);
    FilterMapEmpty(MatchFn(a.key));
    hide FilterMap, StagedOf;
    assert a in [a, a];
  }

  lemma NewTwice(mode: ChangeDetection, a: Row, now: int, deletes: HardDeletes)
    ensures Merged(mode, [], Run([a, a], deletes, now)) == [Open(PostgresSink(mode), a, now), Open(PostgresSink(mode), a, now)]
  {
    hide FilterMap, Merged, DiffClass, PostgresSink, PostgresSignal;
    var run := Run([a, a], deletes, now);
    MergedIsEffect(mode, [], run);
    ClassWhenEmpty(mode, a);
    FilterMapEmpty(DiffFateFn(mode, [], run));
    FilterMapPair(a, a, DiffOpenFn(mode, [], run));
  }

  // ---- Exactly when the roll-up is the planner's ----

  lemma CurrentOfMatches(mode: ChangeDetection, target: seq<Version>, k: Key)
    requires OneCurrentPerKey(target)
    ensures
      var current := Matches(target, k);
      CurrentSignals(PostgresSink(mode), target, k) == if current == [] then [] else [PostgresSignal(mode, current[0].row)]
  {
    var sink := PostgresSink(mode);
    var g := (v: Version) => Some(sink.signal(v.row));
    var current := Matches(target, k);
    AtMostOneMatch(target, k);
    FilterMapCompose(target, MatchFn(k), g, CurrentFn(sink, k));
    hide FilterMap;
    FilterMapEmpty(g);
    if current != [] {
      assert current == [] + [current[0]];
      FilterMapSnoc([], current[0], g);
    }
  }

  predicate StagedBefore(stage: seq<Row>, i: nat)
    requires i < |stage|
  {
    exists j :: 0 <= j < i && stage[j].key == stage[i].key
  }

  lemma EarlierStaged(sink: Sink, stage: seq<Row>, i: nat)
    requires i < |stage|
    ensures StagedSignals(sink, stage[..i], stage[i].key) != [] <==> StagedBefore(stage, i)
  {
    StagedSignalMember(sink, stage[..i], stage[i].key);
    hide FilterMap, StagedSignals;
    if StagedBefore(stage, i) {
      var j :| 0 <= j < i && stage[j].key == stage[i].key;
      assert stage[..i][j] in stage[..i];
    }
  }

  /** The planner's class of a staged row in the terms of the diff. */
  lemma OccurrenceOfDiff(mode: ChangeDetection, target: seq<Version>, stage: seq<Row>, i: nat)
    requires OneCurrentPerKey(target) && i < |stage|
    ensures Occurrence(PostgresSink(mode), target, stage, i) ==
      if UnmatchedFn(target)(stage[i]).Some? || StagedBefore(stage, i) then New
      else if ChangedRowFn(mode, target)(stage[i]).Some? then Changed
      else Unchanged
    ensures UnmatchedFn(target)(stage[i]).Some? ==> ChangedRowFn(mode, target)(stage[i]).None?
  {
    hide FilterMap, CurrentSignals, StagedSignals, Matches, OneCurrentPerKey, StagedBefore, PostgresSignal;
    CurrentOfMatches(mode, target, stage[i].key);
    EarlierStaged(PostgresSink(mode), stage, i);
  }

  /** The new versions the planner counts are those of the diff and the further occurrences of stored keys. */
  lemma NewCounted(rows: seq<Classified>, mode: ChangeDetection, target: seq<Version>, stage: seq<Row>)
    requires PlanOf(rows, PostgresSink(mode), target, stage) && OneCurrentPerKey(target)
    ensures |KeysOf(rows, New)| == NewCount(target, stage) <==> RepeatsAreNew(target, stage)
  {
    var sink, f, g := PostgresSink(mode), UnmatchedFn(target), OfClassFn(New);
    PlannedParts(rows, sink, target, stage, New);
    var first := rows[..|stage|];
    hide FilterMap, PlanOf, Occurrence, Matches, ChangedRowFn, OneCurrentPerKey;
    forall i | 0 <= i < |stage|
      ensures g(first[i]).Some? <==> f(stage[i]).Some? || StagedBefore(stage, i)
    {
      PlannedOccurrence(rows, sink, target, stage, i);
      OccurrenceOfDiff(mode, target, stage, i);
    }
    FilterMapParallel(stage, first, f, g);
    if RepeatsAreNew(target, stage) {
      forall i | 0 <= i < |stage| && StagedBefore(stage, i)
        ensures f(stage[i]).Some?
      {
        var j :| 0 <= j < i && stage[j].key == stage[i].key;
      }
    } else {
      var j, i :| 0 <= j < i < |stage| && stage[j].key == stage[i].key && Matches(target, stage[j].key) != [];
      assert StagedBefore(stage, i);
      assert g(first[i]).Some? && f(stage[i]).None?;
    }
  }

  lemma ChangedCounted(rows: seq<Classified>, mode: ChangeDetection, target: seq<Version>, stage: seq<Row>)
    requires PlanOf(rows, PostgresSink(mode), target, stage) && OneCurrentPerKey(target) && RepeatsAreNew(target, stage)
    ensures |KeysOf(rows, Changed)| == |ChangedIds(mode, target, stage)|
  {
    var sink, f, g := PostgresSink(mode), ChangedRowFn(mode, target), OfClassFn(Changed);
    PlannedParts(rows, sink, target, stage, Changed);
    ChangedFromStage(mode, target, stage);
    var first := rows[..|stage|];
    hide FilterMap, PlanOf, Occurrence, Matches, OneCurrentPerKey, ChangedIds;
    forall i | 0 <= i < |stage|
      ensures g(first[i]).Some? <==> f(stage[i]).Some?
    {
      PlannedOccurrence(rows, sink, target, stage, i);
      OccurrenceOfDiff(mode, target, stage, i);
      if StagedBefore(stage, i) {
        var j :| 0 <= j < i && stage[j].key == stage[i].key;
      }
    }
    FilterMapParallel(stage, first, f, g);
  }

  /** The Postgres receipt is the planner's exactly when every key staged more than once is new to the target:
      the planner counts each further occurrence of a stored key as a new version, the diff query does not. */
  lemma DiffIsPlanIff(rows: seq<Classified>, mode: ChangeDetection, target: seq<Version>, stage: seq<Row>, deletes: HardDeletes)
    requires PlanOf(rows, PostgresSink(mode), target, stage) && OneCurrentPerKey(target)
    ensures
      StatsFromDiff(|stage|, |ChangedIds(mode, target, stage)|, NewCount(target, stage), |GoneIds(target, stage)|, deletes)
        == StatsOf(rows, deletes)
      <==> RepeatsAreNew(target, stage)
  {
    hide FilterMap, PlanOf, KeysOf, ChangedIds, NewCount, GoneIds, OneCurrentPerKey, RepeatsAreNew, StatsOf;
    StatsUnfold(rows, deletes);
    DiffWithinStage(mode, target, stage);
    NewCounted(rows, mode, target, stage);
    if RepeatsAreNew(target, stage) {
      ChangedCounted(rows, mode, target, stage);
      GoneCounted(rows, PostgresSink(mode), target, stage);
      GoneCount(mode, target, stage);
      PlannedStagedConserved(rows, PostgresSink(mode), target, stage);
    }
  }

  // ---- Every current version is counted, whatever is staged ----

  function MatchedFn(): Classified -> Option<Key> {
    (x: Classified) => if x.kind == New then None else Some(x.key)
  }

  function CurrentKeyOnlyFn(): Version -> Option<Key> {
    (v: Version) => if v.isCurrent then Some(v.row.key) else None
  }

  lemma MatchedOnce(rows: seq<Classified>, sink: Sink, table: seq<Version>, staged: seq<Row>)
    requires PlanOf(rows, sink, table, staged)
    ensures NoRepeats(FilterMap(rows, MatchedFn()))
  {
    hide FilterMap, SignalsFor, ClassesFor, CurrentSignals, StagedSignals, CurrentSignalRows;
    var n := |staged|;
    forall i, j | 0 <= i < j < |rows| && rows[i].kind != New && rows[j].kind != New
      ensures rows[i].key != rows[j].key
    {
      if i < n {
        PlannedOccurrence(rows, sink, table, staged, i);
        if j < n {
          PlannedOccurrence(rows, sink, table, staged, j);
          EarlierStaged(sink, staged, j);
        } else {
          StagedRowsAgree(sink, staged, rows[j].key);
          StagedSignalMember(sink, staged, rows[j].key);
          assert staged[i] in staged;
        }
      }
    }
    KeepsNoRepeats(rows, MatchedFn());
  }

  lemma {:induction false} FirstOccurrence(staged: seq<Row>, i: nat) returns (j: nat)
    requires i < |staged|
    ensures j < |staged| && staged[j].key == staged[i].key && !StagedBefore(staged, j)
  {
    j := i;
    if StagedBefore(staged, i) {
      var k :| 0 <= k < i && staged[k].key == staged[i].key;
      j := FirstOccurrence(staged, k);
    }
  }

  lemma FirstIsMatched(sink: Sink, table: seq<Version>, staged: seq<Row>, j: nat)
    requires j < |staged| && !StagedBefore(staged, j) && CurrentSignals(sink, table, staged[j].key) != []
    ensures Occurrence(sink, table, staged, j) != New
  {
    EarlierStaged(sink, staged, j);
    hide FilterMap;
  }

  lemma MatchedMember(rows: seq<Classified>, sink: Sink, table: seq<Version>, staged: seq<Row>, k: Key)
    requires PlanOf(rows, sink, table, staged)
    ensures k in FilterMap(rows, MatchedFn()) <==> CurrentSignals(sink, table, k) != []
  {
    hide FilterMap, Plans, SignalsFor, ClassesFor, CurrentSignals, StagedSignals, CurrentSignalRows, StagedSignalRows, Occurrence;
    FilterMapMember(rows, MatchedFn(), k);
    PlanAgrees(rows, sink, table, staged, k);
    GoneRowsAreGone(rows, CurrentSignalRows(sink, FilterMap(table, IsCurrentFn())), StagedSignalRows(sink, staged), k);
    FilterMapMember(rows, OfClassFn(Gone), k);
    StagedSignalMember(sink, staged, k);
    if x :| x in rows && MatchedFn()(x) == Some(k) {
      if x.kind != Gone {
        var i :| 0 <= i < |rows| && rows[i] == x;
        KindOfRow(rows, sink, table, staged, i);
      } else {
        assert OfClassFn(Gone)(x) == Some(k);
      }
    }
    if CurrentSignals(sink, table, k) != [] && StagedSignals(sink, staged, k) != [] {
      var r :| r in staged && r.key == k;
      var i :| 0 <= i < |staged| && staged[i] == r;
      var j := FirstOccurrence(staged, i);
      PlannedOccurrence(rows, sink, table, staged, j);
      FirstIsMatched(sink, table, staged, j);
      assert rows[j] in rows && MatchedFn()(rows[j]) == Some(k);
    }
  }

  lemma KindOfRow(rows: seq<Classified>, sink: Sink, table: seq<Version>, staged: seq<Row>, i: nat)
    requires PlanOf(rows, sink, table, staged) && i < |rows| && rows[i].kind !in {New, Gone}
    ensures CurrentSignals(sink, table, rows[i].key) != []
  {
    hide FilterMap, SignalsFor, ClassesFor, CurrentSignals, StagedSignals, CurrentSignalRows;
    assert i < |staged|;
    PlannedOccurrence(rows, sink, table, staged, i);
  }

  lemma MatchedSplit(rows: seq<Classified>)
    ensures |FilterMap(rows, MatchedFn())| == |KeysOf(rows, Unchanged)| + |KeysOf(rows, Changed)| + |KeysOf(rows, Gone)|
  {
    hide FilterMap;
    var same := (x: Classified) => if x.kind == New then None else Some(x);
    LengthsAddUp(rows, same, OfClassFn(Unchanged), OfClassFn(Changed), OfClassFn(Gone));
    FilterMapLonger(rows, same, MatchedFn());
    FilterMapLonger(rows, MatchedFn(), same);
  }

  /** The planner counts every current version once as unchanged, changed or gone, however often its key is
      staged. */
  lemma PlannedCurrentsConserved(rows: seq<Classified>, sink: Sink, table: seq<Version>, staged: seq<Row>)
    requires PlanOf(rows, sink, table, staged) && OneCurrentPerKey(table)
    ensures |KeysOf(rows, Unchanged)| + |KeysOf(rows, Changed)| + |KeysOf(rows, Gone)| == |FilterMap(table, IsCurrentFn())|
  {
    hide FilterMap, KeysOf, PlanOf, CurrentSignals;
    MatchedSplit(rows);
    MatchedOnce(rows, sink, table, staged);
    KeepsNoRepeats(table, CurrentKeyOnlyFn());
    forall k
      ensures k in FilterMap(rows, MatchedFn()) <==> k in FilterMap(table, CurrentKeyOnlyFn())
    {
      MatchedMember(rows, sink, table, staged, k);
      CurrentMember(sink, table, k);
      FilterMapMember(table, CurrentKeyOnlyFn(), k);
    }
    SameElements(FilterMap(rows, MatchedFn()), FilterMap(table, CurrentKeyOnlyFn()));
    FilterMapLonger(table, CurrentKeyOnlyFn(), IsCurrentFn());
    FilterMapLonger(table, IsCurrentFn(), CurrentKeyOnlyFn());
  }

  lemma CurrentMember(sink: Sink, table: seq<Version>, k: Key)
    ensures CurrentSignals(sink, table, k) != [] <==> exists v <- table :: v.isCurrent && v.row.key == k
  {
    if v :| v in table && v.isCurrent && v.row.key == k {
      FilterMapMember(table, CurrentFn(sink, k), sink.signal(v.row));
    } else {
      FilterMapNone(table, CurrentFn(sink, k));
    }
  }

  // ---- What the receipt says against what the run did ----

  predicate StagedAfter(staged: seq<Row>, i: nat)
    requires i < |staged|
  {
    exists j :: i < j < |staged| && staged[j].key == staged[i].key
  }

  lemma StagedAlone(sink: Sink, staged: seq<Row>, i: nat)
    requires i < |staged|
    ensures
      var s := StagedSignals(sink, staged, staged[i].key);
      if StagedBefore(staged, i) || StagedAfter(staged, i) then |s| > 1 else s == [sink.signal(staged[i])]
  {
    hide FilterMap;
    var f := StagedFn(sink, staged[i].key);
    if StagedBefore(staged, i) || StagedAfter(staged, i) {
      var j :| 0 <= j < |staged| && j != i && staged[j].key == staged[i].key;
      if |FilterMap(staged, f)| <= 1 {
        FilterMapAtMostOne(staged, f, i, j);
      }
    } else {
      FilterMapFew(staged, f);
      assert staged[i] in staged;
      FilterMapMember(staged, f, sink.signal(staged[i]));
    }
  }

  /** The class a staged row counts as is the class of its key, unless the key is staged again. */
  lemma OccurrenceIsClass(sink: Sink, table: seq<Version>, staged: seq<Row>, i: nat, c: Class)
    requires i < |staged| && c in {Unchanged, Changed}
    ensures Classify(sink, table, staged, staged[i].key) == Some(c) <==> Occurrence(sink, table, staged, i) == c && !StagedAfter(staged, i)
  {
    hide FilterMap, CurrentSignals, StagedSignals, StagedBefore, StagedAfter;
    StagedAlone(sink, staged, i);
    EarlierStaged(sink, staged, i);
  }

  lemma MatchedCounted(rows: seq<Classified>, sink: Sink, table: seq<Version>, staged: seq<Row>, c: Class)
    requires PlanOf(rows, sink, table, staged) && c in {Unchanged, Changed}
    ensures |StagedKeys(sink, table, staged, c)| == |KeysOf(rows, c)|
      <==> forall i :: 0 <= i < |staged| && StagedAfter(staged, i) ==> Occurrence(sink, table, staged, i) != c
  {
    hide FilterMap, PlanOf, Occurrence, Classify, StagedAfter;
    PlannedParts(rows, sink, table, staged, c);
    var first := rows[..|staged|];
    forall i | 0 <= i < |staged|
      ensures StagedKeyFn(sink, table, staged, c)(staged[i]).Some? <==> Occurrence(sink, table, staged, i) == c && !StagedAfter(staged, i)
      ensures OfClassFn(c)(first[i]).Some? <==> Occurrence(sink, table, staged, i) == c
    {
      PlannedOccurrence(rows, sink, table, staged, i);
      OccurrenceIsClass(sink, table, staged, i, c);
    }
    FilterMapParallel(staged, first, StagedKeyFn(sink, table, staged, c), OfClassFn(c));
  }

  function ClosesFn(sink: Sink, table: seq<Version>, run: Run): Version -> Option<Version> {
    (v: Version) => if v.isCurrent && Closes(Classify(sink, table, run.staged, v.row.key), run) then Some(v) else None
  }

  /** The versions a run closes. */
  function ClosedBy(sink: Sink, table: seq<Version>, run: Run): seq<Version> {
    FilterMap(table, ClosesFn(sink, table, run))
  }

  lemma ClosedCount(sink: Sink, table: seq<Version>, run: Run)
    ensures |ClosedBy(sink, table, run)| ==
      |CurrentKeys(sink, table, run.staged, Changed)| + if run.deletes == Invalidate then |CurrentKeys(sink, table, run.staged, Gone)| else 0
  {
    hide FilterMap, Classify;
    FilterMapNone(table, NoKeyFn());
    LengthsAddUp(table, ClosesFn(sink, table, run), CurrentKeyFn(sink, table, run.staged, Changed),
                 if run.deletes == Invalidate then CurrentKeyFn(sink, table, run.staged, Gone) else NoKeyFn(), NoKeyFn());
  }

  /** The inserted rows of the receipt are the versions opened exactly when no key staged again is first
      staged unchanged. */
  lemma InsertedIff(rows: seq<Classified>, sink: Sink, table: seq<Version>, run: Run)
    requires PlanOf(rows, sink, table, run.staged)
    ensures StatsOf(rows, run.deletes).RowsInserted() == |Opened(sink, table, run)|
      <==> forall i :: 0 <= i < |run.staged| && StagedAfter(run.staged, i) ==> Occurrence(sink, table, run.staged, i) != Unchanged
  {
    hide FilterMap, PlanOf, KeysOf, StagedKeys, Opened, Occurrence, StagedAfter, StatsOf;
    StatsUnfold(rows, run.deletes);
    PlannedStagedConserved(rows, sink, table, run.staged);
    StagedRowsConserved(sink, table, run.staged);
    OpenedCount(sink, table, run);
    MatchedCounted(rows, sink, table, run.staged, Unchanged);
  }

  /** The updated rows of the receipt are the versions closed exactly when no key staged again is first
      staged changed. */
  lemma UpdatedIff(rows: seq<Classified>, sink: Sink, table: seq<Version>, run: Run)
    requires PlanOf(rows, sink, table, run.staged) && OneCurrentPerKey(table)
    ensures StatsOf(rows, run.deletes).RowsUpdated() == |ClosedBy(sink, table, run)|
      <==> forall i :: 0 <= i < |run.staged| && StagedAfter(run.staged, i) ==> Occurrence(sink, table, run.staged, i) != Changed
  {
    hide FilterMap, PlanOf, KeysOf, StagedKeys, CurrentKeys, ClosedBy, Occurrence, StagedAfter, StatsOf, OneCurrentPerKey;
    StatsUnfold(rows, run.deletes);
    ClosedCount(sink, table, run);
    MatchedKeysAgree(sink, table, run.staged, Changed);
    GoneCounted(rows, sink, table, run.staged);
    MatchedCounted(rows, sink, table, run.staged, Changed);
  }

  /** The deleted rows of the receipt count gone keys: they are the rows removed exactly when no gone key has
      closed versions, or nothing is deleted. */
  lemma DeletedIff(rows: seq<Classified>, sink: Sink, table: seq<Version>, run: Run)
    requires PlanOf(rows, sink, table, run.staged) && OneCurrentPerKey(table)
    ensures StatsOf(rows, run.deletes).RowsDeleted() + |Survivors(sink, table, run)| == |table|
      <==> run.deletes == Delete ==> forall v <- table :: Classify(sink, table, run.staged, v.row.key) == Some(Gone) ==> v.isCurrent
  {
    hide FilterMap, PlanOf, KeysOf, Opened, Classify, StagedKeys, StatsOf, OneCurrentPerKey, Survivors;
    StatsUnfold(rows, run.deletes);
    GoneCounted(rows, sink, table, run.staged);
    TargetRowsConserved(sink, table, run);
    OpenedCount(sink, table, run);
    var f, g := CurrentKeyFn(sink, table, run.staged, Gone), GoneVersionFn(sink, table, run.staged);
    FilterMapParallel(table, table, f, g);
    assert (forall i :: 0 <= i < |table| ==> f(table[i]).Some? == g(table[i]).Some?)
      <==> forall v <- table :: Classify(sink, table, run.staged, v.row.key) == Some(Gone) ==> v.isCurrent;
  }
}

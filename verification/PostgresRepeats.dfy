/** Exactly when the Postgres transaction is the reference run, and exactly when it keeps one current
    version per key: repeated keys and key texts that coincide when joined. */
module PostgresRepeats {
  import opened Lists
  import opened Snapshot
  import opened SnapshotHistory
  import opened PostgresSnapshot
  import opened SinkRefinement

  // ---- Counting the current versions of one key ----

  lemma OneCurrentByKey(table: seq<Version>)
    ensures OneCurrentPerKey(table) <==> forall k :: |Matches(table, k)| <= 1
  {
    hide FilterMap;
    if OneCurrentPerKey(table) {
      forall k
        ensures |Matches(table, k)| <= 1
      {
        AtMostOneMatch(table, k);
      }
    }
    if forall k :: |Matches(table, k)| <= 1 {
      forall i, j | 0 <= i < j < |table| && table[i].isCurrent && table[j].isCurrent
        ensures table[i].row.key != table[j].row.key
      {
        if table[i].row.key == table[j].row.key {
          assert |Matches(table, table[i].row.key)| <= 1;
          FilterMapAtMostOne(table, MatchFn(table[i].row.key), i, j);
        }
      }
    }
  }

  /** The current versions of a key with class `c` stay current. */
  predicate Stays(c: Option<Class>, run: Run) {
    c != Some(Changed) && (c == Some(Gone) ==> run.deletes == Ignore)
  }

  lemma MatchesOfFate(target: seq<Version>, f: Version -> Option<Version>, k: Key, c: Option<Class>, run: Run)
    requires forall v <- target :: f(v).Some? ==> f(v).value.row == v.row
    requires forall v <- target :: v.row.key == k ==> f(v) == Fate(v, c, run)
    ensures Matches(FilterMap(target, f), k) == if Stays(c, run) then Matches(target, k) else []
  {
    var g := MatchFn(k);
    var h := (v: Version) => if Stays(c, run) then g(v) else None;
    hide FilterMap;
    FilterMapCompose(target, f, g, h);
    if Stays(c, run) {
      FilterMapSame(target, h, g);
    } else {
      FilterMapNone(target, h);
    }
  }

  lemma MatchesOfOpened(mode: ChangeDetection, stage: seq<Row>, f: Row -> Option<Version>, k: Key, opens: bool, now: int)
    requires forall s <- stage :: f(s).Some? ==> f(s).value == Open(PostgresSink(mode), s, now)
    requires forall s <- stage :: s.key == k ==> (f(s).Some? <==> opens)
    ensures |Matches(FilterMap(stage, f), k)| == if opens then |StagedOf(stage, k)| else 0
  {
    var g := MatchFn(k);
    var h := (s: Row) => if f(s).Some? then g(f(s).value) else None;
    hide FilterMap;
    FilterMapCompose(stage, f, g, h);
    if opens {
      FilterMapLonger(stage, h, WithKeyFn(k));
      FilterMapLonger(stage, WithKeyFn(k), h);
    } else {
      FilterMapNone(stage, h);
    }
  }

  /** How many current versions a run leaves for a key of class `c`. */
  function CurrentAfter(c: Option<Class>, run: Run, current: nat, staged: nat): nat {
    (if Stays(c, run) then current else 0) + if Opens(c) then staged else 0
  }

  lemma MatchesConcat(a: seq<Version>, b: seq<Version>, k: Key)
    ensures Matches(a + b, k) == Matches(a, k) + Matches(b, k)
  {
    FilterMapConcat(a, b, MatchFn(k));
  }

  lemma EffectCount(mode: ChangeDetection, target: seq<Version>, run: Run, k: Key)
    ensures |Matches(Effect(mode, target, run), k)| ==
      CurrentAfter(DiffClass(mode, target, run.staged, k), run, |Matches(target, k)|, |StagedOf(run.staged, k)|)
  {
    hide FilterMap, DiffClass, Matches, StagedOf;
    var f, g := DiffFateFn(mode, target, run), DiffOpenFn(mode, target, run);
    var c := DiffClass(mode, target, run.staged, k);
    MatchesOfFate(target, f, k, c, run);
    MatchesOfOpened(mode, run.staged, g, k, Opens(c), run.now);
    MatchesConcat(FilterMap(target, f), FilterMap(run.staged, g), k);
  }

  lemma ApplyCount(mode: ChangeDetection, target: seq<Version>, run: Run, k: Key)
    ensures |Matches(Apply(PostgresSink(mode), target, run), k)| ==
      CurrentAfter(Classify(PostgresSink(mode), target, run.staged, k), run, |Matches(target, k)|, |StagedOf(run.staged, k)|)
  {
    hide FilterMap, Classify, Matches, StagedOf;
    var sink := PostgresSink(mode);
    var f, g := FateFn(sink, target, run), OpenFn(sink, target, run);
    var c := Classify(sink, target, run.staged, k);
    MatchesOfFate(target, f, k, c, run);
    MatchesOfOpened(mode, run.staged, g, k, Opens(c), run.now);
    MatchesConcat(FilterMap(target, f), FilterMap(run.staged, g), k);
  }

  // ---- Repeated staged keys ----

  lemma RepeatedCount(stage: seq<Row>, i: nat, j: nat)
    requires i < j < |stage| && stage[i].key == stage[j].key
    ensures |StagedOf(stage, stage[i].key)| > 1
  {
    hide FilterMap;
    if |StagedOf(stage, stage[i].key)| <= 1 {
      FilterMapAtMostOne(stage, WithKeyFn(stage[i].key), i, j);
    }
  }

  lemma RepeatedPair(stage: seq<Row>, k: Key) returns (i: nat, j: nat)
    requires |StagedOf(stage, k)| > 1
    ensures i < j < |stage| && stage[i].key == stage[j].key == k
  {
    hide FilterMap;
    if forall i, j :: 0 <= i < j < |stage| ==> stage[i].key != k || stage[j].key != k {
      FilterMapFew(stage, WithKeyFn(k));
    }
    i, j :| 0 <= i < j < |stage| && stage[i].key == k && stage[j].key == k;
  }

  /** Every key staged more than once has no current version yet. */
  predicate RepeatsAreNew(target: seq<Version>, stage: seq<Row>) {
    forall i, j :: 0 <= i < j < |stage| && stage[i].key == stage[j].key ==> Matches(target, stage[i].key) == []
  }

  /** Every key staged more than once has a current version, and none of its staged rows differs from it. */
  ghost predicate RepeatsAreUnchanged(mode: ChangeDetection, target: seq<Version>, stage: seq<Row>) {
    forall i, j :: 0 <= i < j < |stage| && stage[i].key == stage[j].key ==>
      exists v <- target :: v.isCurrent && v.row.key == stage[i].key && !Distinct(mode, v, stage[i]) && !Distinct(mode, v, stage[j])
  }

  lemma ClassesWhenRepeatsAreNew(mode: ChangeDetection, target: seq<Version>, stage: seq<Row>, k: Key)
    requires OneCurrentPerKey(target) && RepeatsAreNew(target, stage)
    ensures DiffClass(mode, target, stage, k) == Classify(PostgresSink(mode), target, stage, k)
  {
    hide Matches, StagedOf, DiffClass, Classify, OneCurrentPerKey;
    DiffClassIsClassify(mode, target, stage, k);
    if |StagedOf(stage, k)| > 1 {
      var i, j := RepeatedPair(stage, k);
      assert Matches(target, stage[i].key) == [];
    }
  }

  lemma RepeatsPart(mode: ChangeDetection, target: seq<Version>, run: Run, i: nat, j: nat)
    requires OneCurrentPerKey(target) && i < j < |run.staged| && run.staged[i].key == run.staged[j].key
    requires Matches(target, run.staged[i].key) != []
    ensures multiset(Effect(mode, target, run)) != multiset(Apply(PostgresSink(mode), target, run))
  {
    var k := run.staged[i].key;
    RepeatedCount(run.staged, i, j);
    AtMostOneMatch(target, k);
    DiffClassIsClassify(mode, target, run.staged, k);
    RepeatedClass(mode, target, run.staged, k);
    hide FilterMap, Matches, StagedOf, DiffClass, Classify, OneCurrentPerKey, Effect, Apply;
    EffectCount(mode, target, run, k);
    ApplyCount(mode, target, run, k);
    SameMatches(Effect(mode, target, run), Apply(PostgresSink(mode), target, run), k);
  }

  lemma SameMatches(a: seq<Version>, b: seq<Version>, k: Key)
    ensures multiset(a) == multiset(b) ==> |Matches(a, k)| == |Matches(b, k)|
  {
    hide FilterMap;
    if multiset(a) == multiset(b) {
      FilterMapPermuted(a, b, MatchFn(k));
      assert |multiset(Matches(a, k))| == |Matches(a, k)| && |multiset(Matches(b, k))| == |Matches(b, k)|;
    }
  }

  lemma RepeatedClass(mode: ChangeDetection, target: seq<Version>, stage: seq<Row>, k: Key)
    requires |StagedOf(stage, k)| > 1 && Matches(target, k) != []
    ensures DiffClass(mode, target, stage, k) in {Some(Changed), Some(Unchanged)}
  {
    hide Matches, StagedOf, Differs;
  }

  /** Over keys that joining tells apart, the transaction is the reference run exactly when every key
      staged more than once is new to the target: otherwise the reference, which is what the Parquet sink
      computes, keeps the current version and opens all the staged rows next to it. */
  lemma MergedIsApplyIff(mode: ChangeDetection, target: seq<Version>, run: Run, keys: set<Key>)
    requires GoodTarget(target, keys) && Timely(target, run, keys) && JoinsApart(keys)
    ensures multiset(Merged(mode, target, run)) == multiset(Apply(PostgresSink(mode), target, run))
      <==> RepeatsAreNew(target, run.staged)
    ensures RepeatsAreNew(target, run.staged) ==> Merged(mode, target, run) == Apply(PostgresSink(mode), target, run)
  {
    hide Merged, Apply, Effect, DiffClass, Classify, JoinsApart, DisjointIntervals, OneCurrentPerKey, UniqueIds, Matches;
    IdsAreUnique(target, keys);
    OneCurrentOfGood(target, run.now);
    MergedIsEffect(mode, target, run);
    if RepeatsAreNew(target, run.staged) {
      forall k
        ensures DiffClass(mode, target, run.staged, k) == Classify(PostgresSink(mode), target, run.staged, k)
      {
        ClassesWhenRepeatsAreNew(mode, target, run.staged, k);
      }
      SameClassesSameRun(mode, target, run);
    } else {
      var i, j :| 0 <= i < j < |run.staged| && run.staged[i].key == run.staged[j].key
        && Matches(target, run.staged[i].key) != [];
      RepeatsPart(mode, target, run, i, j);
    }
  }

  lemma RepeatUnchanged(mode: ChangeDetection, target: seq<Version>, stage: seq<Row>, k: Key)
    requires OneCurrentPerKey(target) && RepeatsAreUnchanged(mode, target, stage) && |StagedOf(stage, k)| > 1
    ensures DiffClass(mode, target, stage, k) == Some(Unchanged)
  {
    hide Matches, StagedOf, Distinct;
    var i, j := RepeatedPair(stage, k);
    var v :| v in target && v.isCurrent && v.row.key == k && !Distinct(mode, v, stage[i]) && !Distinct(mode, v, stage[j]);
    OnlyMatch(target, v);
    forall s | s in StagedOf(stage, k)
      ensures !Distinct(mode, v, s)
    {
      StagedMember(stage, k, s);
      var p :| 0 <= p < |stage| && stage[p] == s;
      var q := if p == i then j else i;
      var lo, hi := if p < q then p else q, if p < q then q else p;
      assert stage[lo].key == stage[hi].key;
      var w :| w in target && w.isCurrent && w.row.key == stage[lo].key
        && !Distinct(mode, w, stage[lo]) && !Distinct(mode, w, stage[hi]);
      MatchesMember(target, k, w);
      assert w == v;
    }
  }

  lemma UnchangedRepeat(mode: ChangeDetection, target: seq<Version>, stage: seq<Row>, i: nat, j: nat)
    requires i < j < |stage| && stage[i].key == stage[j].key
    requires DiffClass(mode, target, stage, stage[i].key) == Some(Unchanged)
    ensures exists v <- target ::
              v.isCurrent && v.row.key == stage[i].key && !Distinct(mode, v, stage[i]) && !Distinct(mode, v, stage[j])
  {
    hide Distinct;
    var v := Matches(target, stage[i].key)[0];
    MatchesMember(target, stage[i].key, v);
    UnchangedMatches(mode, target, stage, stage[i]);
    UnchangedMatches(mode, target, stage, stage[j]);
    hide Matches, StagedOf;
  }

  /** The transaction keeps one current version per key exactly when every key staged more than once
      already has a current version and is staged unchanged. */
  lemma OneCurrentAfterMergeIff(mode: ChangeDetection, target: seq<Version>, run: Run, keys: set<Key>)
    requires GoodTarget(target, keys) && Timely(target, run, keys) && JoinsApart(keys)
    ensures OneCurrentPerKey(Merged(mode, target, run)) <==> RepeatsAreUnchanged(mode, target, run.staged)
  {
    hide Merged, Effect, DiffClass, JoinsApart, DisjointIntervals, OneCurrentPerKey, UniqueIds, Matches, StagedOf, Distinct;
    IdsAreUnique(target, keys);
    OneCurrentOfGood(target, run.now);
    MergedIsEffect(mode, target, run);
    var next := Effect(mode, target, run);
    OneCurrentByKey(next);
    if RepeatsAreUnchanged(mode, target, run.staged) {
      forall k
        ensures |Matches(next, k)| <= 1
      {
        KeptSingle(mode, target, run, k);
      }
    }
    if OneCurrentPerKey(next) {
      forall i, j | 0 <= i < j < |run.staged| && run.staged[i].key == run.staged[j].key
        ensures exists v <- target ::
                  && v.isCurrent && v.row.key == run.staged[i].key
                  && !Distinct(mode, v, run.staged[i]) && !Distinct(mode, v, run.staged[j])
      {
        SingleUnchanged(mode, target, run, i, j);
        UnchangedRepeat(mode, target, run.staged, i, j);
      }
    }
  }

  lemma KeptSingle(mode: ChangeDetection, target: seq<Version>, run: Run, k: Key)
    requires OneCurrentPerKey(target) && RepeatsAreUnchanged(mode, target, run.staged)
    ensures |Matches(Effect(mode, target, run), k)| <= 1
  {
    AtMostOneMatch(target, k);
    NewHasNone(mode, target, run.staged, k);
    hide DiffClass, Matches, StagedOf, OneCurrentPerKey, Effect, RepeatsAreUnchanged;
    EffectCount(mode, target, run, k);
    if |StagedOf(run.staged, k)| > 1 {
      RepeatUnchanged(mode, target, run.staged, k);
    }
  }

  lemma NewHasNone(mode: ChangeDetection, target: seq<Version>, stage: seq<Row>, k: Key)
    ensures DiffClass(mode, target, stage, k) == Some(New) ==> Matches(target, k) == []
  {
    hide Matches, StagedOf, Differs;
  }

  lemma SingleUnchanged(mode: ChangeDetection, target: seq<Version>, run: Run, i: nat, j: nat)
    requires i < j < |run.staged| && run.staged[i].key == run.staged[j].key
    requires OneCurrentPerKey(Effect(mode, target, run))
    ensures DiffClass(mode, target, run.staged, run.staged[i].key) == Some(Unchanged)
  {
    var k := run.staged[i].key;
    RepeatedCount(run.staged, i, j);
    StagedHasClass(mode, target, run.staged, k);
    hide DiffClass, Matches, StagedOf, Effect, OneCurrentPerKey;
    EffectCount(mode, target, run, k);
    AtMostOneMatch(Effect(mode, target, run), k);
  }

  lemma StagedHasClass(mode: ChangeDetection, target: seq<Version>, stage: seq<Row>, k: Key)
    requires StagedOf(stage, k) != []
    ensures DiffClass(mode, target, stage, k) == Some(Unchanged) || Opens(DiffClass(mode, target, stage, k))
  {
    hide Matches, StagedOf, Differs;
  }

  // ---- Keys whose joined texts coincide ----

  lemma FilterMapPair<A, B>(x: A, y: A, f: A -> Option<B>)
    ensures FilterMap([x, y], f) == Opt(f(x)) + Opt(f(y))
  {
    assert [x, y] == [] + [x] + [y];
    FilterMapSnoc([], x, f);
    FilterMapSnoc([x], y, f);
  }

  lemma SharedIdClasses(mode: ChangeDetection, a: Row, changed: Row, b: Row, since: int)
    requires a.key == changed.key && a.key != b.key && PostgresSignal(mode, a) != PostgresSignal(mode, changed)
    ensures
      var sink := PostgresSink(mode);
      var target := [Open(sink, a, since), Open(sink, b, since)];
      && Classify(sink, target, [changed, b], a.key) == Some(Changed)
      && Classify(sink, target, [changed, b], b.key) == Some(Unchanged)
  {
    hide FilterMap, PostgresSignal;
    var sink := PostgresSink(mode);
    var u, v := Open(sink, a, since), Open(sink, b, since);
    FilterMapPair(u, v, CurrentFn(sink, a.key));
    FilterMapPair(u, v, CurrentFn(sink, b.key));
    FilterMapPair(changed, b, StagedFn(sink, a.key));
    FilterMapPair(changed, b, StagedFn(sink, b.key));
  }

  lemma SharedIdReference(mode: ChangeDetection, a: Row, changed: Row, b: Row, since: int, deletes: HardDeletes, now: int)
    requires a.key == changed.key && a.key != b.key && PostgresSignal(mode, a) != PostgresSignal(mode, changed)
    ensures
      var sink := PostgresSink(mode);
      var u, v := Open(sink, a, since), Open(sink, b, since);
      Apply(sink, [u, v], Run([changed, b], deletes, now)) == [Close(u, now), v, Open(sink, changed, now)]
  {
    hide FilterMap, Classify, PostgresSignal;
    var sink := PostgresSink(mode);
    var u, v := Open(sink, a, since), Open(sink, b, since);
    var target, run := [u, v], Run([changed, b], deletes, now);
    SharedIdClasses(mode, a, changed, b, since);
    FilterMapPair(u, v, FateFn(sink, target, run));
    FilterMapPair(changed, b, OpenFn(sink, target, run));
  }

  lemma SharedIdDiff(mode: ChangeDetection, a: Row, changed: Row, b: Row, since: int)
    requires a.key == changed.key && a.key != b.key && PostgresSignal(mode, a) != PostgresSignal(mode, changed)
    ensures
      var u, v := Open(PostgresSink(mode), a, since), Open(PostgresSink(mode), b, since);
      ChangedIds(mode, [u, v], [changed, b]) == [u.id] && GoneIds([u, v], [changed, b]) == []
  {
    hide FilterMap, PostgresSignal;
    var u, v := Open(PostgresSink(mode), a, since), Open(PostgresSink(mode), b, since);
    var stage := [changed, b];
    FilterMapPair(changed, b, ChangedJoinFn(mode, u));
    FilterMapPair(changed, b, ChangedJoinFn(mode, v));
    FilterMapPair(changed, b, WithKeyFn(a.key));
    FilterMapPair(changed, b, WithKeyFn(b.key));
    FilterMapPair(u, v, GoneFn(stage));
    assert [u, v][..1] == [u] && [u][..0] == [];
    assert ChangedIds(mode, [u], stage) == ChangedIds(mode, [], stage) + FilterMap(stage, ChangedJoinFn(mode, u));
  }

  lemma {:induction false} UnmatchedAllInserted(mode: ChangeDetection, table: seq<Version>, stage: seq<Row>)
    requires forall v <- table :: !v.isCurrent
    ensures InsertFilter(mode, table, stage) == stage
  {
    if stage != [] {
      UnmatchedAllInserted(mode, table, stage[..|stage| - 1]);
      FilterMapNone(table, MatchFn(stage[|stage| - 1].key));
    }
  }

  /** Two keys with one joined text share their surrogate ids: when the first changes, the unchanged second
      is closed with it and opened again, in every mode. */
  lemma SharedIdReopens(mode: ChangeDetection, a: Row, changed: Row, b: Row, since: int, deletes: HardDeletes, now: int)
    requires a.key == changed.key && a.key != b.key && JoinBar(a.key) == JoinBar(b.key)
    requires PostgresSignal(mode, a) != PostgresSignal(mode, changed)
    ensures
      var sink := PostgresSink(mode);
      var u, v := Open(sink, a, since), Open(sink, b, since);
      Merged(mode, [u, v], Run([changed, b], deletes, now))
        == [Close(u, now), Close(v, now), Open(sink, changed, now), Open(sink, b, now)]
  {
    hide FilterMap, ChangedIds, InsertFilter, NewCount, GoneIds, HardDeleted, JoinBar, PostgresSignal;
    var u, v := Open(PostgresSink(mode), a, since), Open(PostgresSink(mode), b, since);
    var target, run := [u, v], Run([changed, b], deletes, now);
    SharedIdDiff(mode, a, changed, b, since);
    MergeSteps(mode, target, run);
    FilterMapPair(u, v, CloseFn([u.id], now));
    var closed := [Close(u, now), Close(v, now)];
    assert [u.id] + [] == [u.id];
    assert Closed(target, [u.id], now) == closed;
    UnmatchedAllInserted(mode, closed, run.staged);
    FilterMapPair(changed, b, OpenAllFn(mode, now));
  }

  function Sample(k: Key, n: int): Row {
    Row(k, [if n == 0 then Cell.Null else Text("x")], Some(n), [])
  }

  lemma SharedIdGood(mode: ChangeDetection, a: Key, b: Key, keys: set<Key>)
    requires a in keys && b in keys && a != b
    ensures
      var sink := PostgresSink(mode);
      var target := [Open(sink, Sample(a, 0), 0), Open(sink, Sample(b, 0), 0)];
      GoodTarget(target, keys) && GoodRun(target, Run([Sample(a, 1), Sample(b, 0)], Ignore, 1), keys)
  {
  }

  lemma SampleChanges(mode: ChangeDetection, k: Key)
    ensures PostgresSignal(mode, Sample(k, 0)) != PostgresSignal(mode, Sample(k, 1))
  {
    assert Sample(k, 0).tracked[0] != Sample(k, 1).tracked[0];
  }

  /** Every run with distinct keys from a set, on every target over that set, is the reference run. */
  ghost predicate AlwaysReference(mode: ChangeDetection, keys: set<Key>) {
    forall target, run :: GoodTarget(target, keys) && GoodRun(target, run, keys) ==>
      Merged(mode, target, run) == Apply(PostgresSink(mode), target, run)
  }

  /** For a set of keys, the transaction is the reference run on all of them exactly when joining with the
      separator tells them apart. */
  lemma AlwaysReferenceIff(mode: ChangeDetection, keys: set<Key>)
    ensures AlwaysReference(mode, keys) <==> JoinsApart(keys)
  {
    hide Merged, Apply, GoodTarget, GoodRun, JoinBar, PostgresSignal;
    if JoinsApart(keys) {
      forall target, run | GoodTarget(target, keys) && GoodRun(target, run, keys)
        ensures Merged(mode, target, run) == Apply(PostgresSink(mode), target, run)
      {
        MergedIsApply(mode, target, run, keys);
      }
    } else {
      var a, b :| a in keys && b in keys && JoinBar(a) == JoinBar(b) && a != b;
      var sink := PostgresSink(mode);
      var target := [Open(sink, Sample(a, 0), 0), Open(sink, Sample(b, 0), 0)];
      var run := Run([Sample(a, 1), Sample(b, 0)], Ignore, 1);
      SharedIdGood(mode, a, b, keys);
      SampleChanges(mode, a);
      SharedIdReopens(mode, Sample(a, 0), Sample(a, 1), Sample(b, 0), 0, Ignore, 1);
      SharedIdReference(mode, Sample(a, 0), Sample(a, 1), Sample(b, 0), 0, Ignore, 1);
      assert |Merged(mode, target, run)| == 4 && |Apply(sink, target, run)| == 3;
    }
  }
}

/** What the Postgres transaction does to a target, whatever is staged, and when that is the reference
    run. */
module SinkRefinement {
  import opened Lists
  import opened Snapshot
  import opened SnapshotHistory
  import opened SnapshotPlan
  import opened SnapshotCounts
  import opened PostgresSnapshot

  // ---- Surrogate ids ----

  predicate BarFree(s: string) {
    '|' !in s
  }

  /** A fixed number of key columns, and no separator in any component after the first. A key of one
      column is always clean. */
  predicate CleanKey(k: Key, arity: nat) {
    |k| == arity && forall i :: 1 <= i < |k| ==> BarFree(k[i])
  }

  lemma SplitAtLastBar(x: string, y: string, p: string, q: string)
    requires x + "|" + p == y + "|" + q && BarFree(p) && BarFree(q)
    ensures x == y && p == q
  {
    var s := x + "|" + p;
    assert s[|x|] == '|' && s[|y|] == '|';
    assert forall i :: |x| < i < |s| ==> s[i] == p[i - |x| - 1];
    assert forall i :: |y| < i < |s| ==> s[i] == q[i - |y| - 1];
    assert |x| == |y|;
    assert x == s[..|x|] == y;
    assert p == s[|x| + 1..] == q;
  }

  lemma {:induction false} JoinBarInjective(a: Key, b: Key, arity: nat)
    requires arity > 0 && CleanKey(a, arity) && CleanKey(b, arity) && JoinBar(a) == JoinBar(b)
    ensures a == b
  {
    var n := arity - 1;
    assert a == a[..n] + [a[n]] && b == b[..n] + [b[n]];
    if n > 0 {
      SplitAtLastBar(JoinBar(a[..n]), JoinBar(b[..n]), a[n], b[n]);
      JoinBarInjective(a[..n], b[..n], n);
    }
  }

  /** Joining with the separator tells these keys apart. */
  ghost predicate JoinsApart(keys: set<Key>) {
    forall a, b :: a in keys && b in keys && JoinBar(a) == JoinBar(b) ==> a == b
  }

  /** Clean keys of one arity are such keys. */
  lemma CleanKeysJoinApart(keys: set<Key>, arity: nat)
    requires arity > 0 && forall k :: k in keys ==> CleanKey(k, arity)
    ensures JoinsApart(keys)
  {
    forall a, b | a in keys && b in keys && JoinBar(a) == JoinBar(b)
      ensures a == b
    {
      JoinBarInjective(a, b, arity);
    }
  }

  predicate IdsMatch(table: seq<Version>) {
    forall v <- table :: v.id == PostgresId(v.row.key, v.validFrom)
  }

  predicate KeysWithin(table: seq<Version>, keys: set<Key>) {
    forall v <- table :: v.row.key in keys
  }

  predicate UniqueIds(table: seq<Version>) {
    forall i, j :: 0 <= i < j < |table| ==> table[i].id != table[j].id
  }

  /** What every Postgres snapshot target over these keys satisfies between runs. */
  ghost predicate GoodTarget(table: seq<Version>, keys: set<Key>) {
    Sane(table) && DisjointIntervals(table) && IdsMatch(table) && KeysWithin(table, keys)
  }

  /** Staged keys among these, and a clock later than all stored times. */
  predicate Timely(table: seq<Version>, run: Run, keys: set<Key>) {
    (forall r <- run.staged :: r.key in keys) && Before(table, run.now)
  }

  predicate GoodRun(table: seq<Version>, run: Run, keys: set<Key>) {
    Timely(table, run, keys) && DistinctKeys(run.staged)
  }

  /** Two versions with one id would be versions of one key starting at one time. */
  lemma IdsAreUnique(table: seq<Version>, keys: set<Key>)
    requires GoodTarget(table, keys) && JoinsApart(keys)
    ensures UniqueIds(table)
  {
    forall i, j | 0 <= i < j < |table|
      ensures table[i].id != table[j].id
    {
      var u, v := table[i], table[j];
      assert u in table && v in table;
      if u.id == v.id {
        assert JoinBar(u.row.key) == JoinBar(v.row.key);
        assert SaneVersion(u) && SaneVersion(v);
        assert ValidAt(u, u.validFrom) && ValidAt(v, u.validFrom);
        assert false;
      }
    }
  }

  lemma OneCurrentOfGood(table: seq<Version>, now: int)
    requires Sane(table) && DisjointIntervals(table) && Before(table, now)
    ensures OneCurrentPerKey(table)
  {
    forall i, j | 0 <= i < j < |table| && table[i].isCurrent && table[j].isCurrent
      ensures table[i].row.key != table[j].row.key
    {
      assert table[i] in table && table[j] in table;
      assert SaneVersion(table[i]) && SaneVersion(table[j]);
      assert ValidAt(table[i], now) && ValidAt(table[j], now);
    }
  }

  // ---- The class of a current row, seen from the row ----

  lemma ClassOfCurrent(sink: Sink, table: seq<Version>, staged: seq<Row>, v: Version)
    requires OneCurrentPerKey(table) && DistinctKeys(staged) && v in table && v.isCurrent
    ensures
      var c, s := Classify(sink, table, staged, v.row.key), StagedSignals(sink, staged, v.row.key);
      && |s| <= 1
      && (s == [] ==> c == Some(Gone))
      && (s != [] ==> c == Some(if s[0] == sink.signal(v.row) then Unchanged else Changed))
  {
    var k := v.row.key;
    DistinctStaged(sink, staged, k);
    AtMostOneCurrent(sink, table);
    assert |CurrentSignals(sink, table, k)| <= 1;
    FilterMapMember(table, CurrentFn(sink, k), sink.signal(v.row));
    hide FilterMap;
    assert sink.signal(v.row) in CurrentSignals(sink, table, k);
  }

  lemma StagedSignalMember(sink: Sink, staged: seq<Row>, k: Key)
    ensures StagedSignals(sink, staged, k) == [] <==> forall r <- staged :: r.key != k
    ensures FilterMap(staged, WithKeyFn(k)) == [] <==> forall r <- staged :: r.key != k
  {
    if r :| r in staged && r.key == k {
      FilterMapMember(staged, StagedFn(sink, k), sink.signal(r));
      FilterMapMember(staged, WithKeyFn(k), r);
    } else {
      FilterMapNone(staged, StagedFn(sink, k));
      FilterMapNone(staged, WithKeyFn(k));
    }
  }

  lemma {:induction false} ChangedIdMember(mode: ChangeDetection, target: seq<Version>, stage: seq<Row>, id: ScdId)
    ensures id in ChangedIds(mode, target, stage) <==>
            exists v, s :: v in target && s in stage && v.id == id && v.isCurrent && s.key == v.row.key && Distinct(mode, v, s)
  {
    if target != [] {
      var n, v := |target| - 1, target[|target| - 1];
      ChangedIdMember(mode, target[..n], stage, id);
      FilterMapMember(stage, ChangedJoinFn(mode, v), id);
      hide FilterMap, Distinct;
      assert target == target[..n] + [v];
    }
  }

  // ---- The class the diff gives a key, repeated keys included ----

  predicate Differs(mode: ChangeDetection, current: seq<Version>, staged: seq<Row>) {
    exists v <- current, s <- staged :: Distinct(mode, v, s)
  }

  function StagedOf(stage: seq<Row>, k: Key): seq<Row> {
    FilterMap(stage, WithKeyFn(k))
  }

  function DiffClass(mode: ChangeDetection, target: seq<Version>, stage: seq<Row>, k: Key): Option<Class> {
    var current, staged := Matches(target, k), StagedOf(stage, k);
    if staged == [] then if current == [] then None else Some(Gone)
    else if current == [] then Some(New)
    else if Differs(mode, current, staged) then Some(Changed)
    else Some(Unchanged)
  }

  lemma MatchesMember(target: seq<Version>, k: Key, v: Version)
    ensures v in Matches(target, k) <==> v in target && v.isCurrent && v.row.key == k
  {
    FilterMapMember(target, MatchFn(k), v);
    hide FilterMap;
  }

  lemma StagedMember(stage: seq<Row>, k: Key, s: Row)
    ensures s in StagedOf(stage, k) <==> s in stage && s.key == k
  {
    FilterMapMember(stage, WithKeyFn(k), s);
    hide FilterMap;
  }

  lemma AtMostOneMatch(target: seq<Version>, k: Key)
    requires OneCurrentPerKey(target)
    ensures |Matches(target, k)| <= 1
  {
    FilterMapFew(target, MatchFn(k));
    hide FilterMap;
  }

  lemma OnlyMatch(target: seq<Version>, v: Version)
    requires OneCurrentPerKey(target) && v in target && v.isCurrent
    ensures Matches(target, v.row.key) == [v]
  {
    hide Matches, OneCurrentPerKey;
    AtMostOneMatch(target, v.row.key);
    MatchesMember(target, v.row.key, v);
  }

  lemma ChangedIdOfRow(mode: ChangeDetection, target: seq<Version>, stage: seq<Row>, v: Version)
    requires OneCurrentPerKey(target) && UniqueIds(target) && v in target
    ensures v.id in ChangedIds(mode, target, stage) <==>
            v.isCurrent && DiffClass(mode, target, stage, v.row.key) == Some(Changed)
  {
    hide FilterMap, ChangedIds, Matches, StagedOf, Distinct;
    ChangedIdMember(mode, target, stage, v.id);
    assert forall u <- target :: u.id == v.id ==> u == v;
    var k := v.row.key;
    if v.isCurrent {
      OnlyMatch(target, v);
      if s :| s in stage && s.key == k && Distinct(mode, v, s) {
        StagedMember(stage, k, s);
        assert v in Matches(target, k) && s in StagedOf(stage, k);
      } else {
        forall s | s in StagedOf(stage, k)
          ensures !Distinct(mode, v, s)
        {
          StagedMember(stage, k, s);
        }
      }
    }
  }

  lemma GoneIdOfRow(mode: ChangeDetection, target: seq<Version>, stage: seq<Row>, v: Version)
    requires OneCurrentPerKey(target) && UniqueIds(target) && v in target
    ensures v.id in GoneIds(target, stage) <==> v.isCurrent && DiffClass(mode, target, stage, v.row.key) == Some(Gone)
  {
    FilterMapMember(target, GoneFn(stage), v.id);
    if v.isCurrent {
      OnlyMatch(target, v);
    }
    hide FilterMap, Matches, OneCurrentPerKey;
    assert forall u <- target :: u.id == v.id ==> u == v;
  }

  /** The ids a run closes are exactly those of the current rows it should close. */
  lemma ClosedIds(mode: ChangeDetection, target: seq<Version>, run: Run, v: Version)
    requires OneCurrentPerKey(target) && UniqueIds(target) && v in target
    ensures v.id in ToClose(mode, target, run.staged, run.deletes)
      <==> v.isCurrent && Closes(DiffClass(mode, target, run.staged, v.row.key), run)
  {
    hide DiffClass, ChangedIds, GoneIds;
    ChangedIdOfRow(mode, target, run.staged, v);
    GoneIdOfRow(mode, target, run.staged, v);
  }

  // ---- What the statements do ----

  /** What a run makes of a version, and which rows it opens, by the classes of the diff. */
  function DiffFateFn(mode: ChangeDetection, target: seq<Version>, run: Run): Version -> Option<Version> {
    (v: Version) => Fate(v, DiffClass(mode, target, run.staged, v.row.key), run)
  }

  function DiffOpenFn(mode: ChangeDetection, target: seq<Version>, run: Run): Row -> Option<Version> {
    (s: Row) => if Opens(DiffClass(mode, target, run.staged, s.key)) then Some(Open(PostgresSink(mode), s, run.now)) else None
  }

  /** The reference run, with the classes of the diff. */
  function Effect(mode: ChangeDetection, target: seq<Version>, run: Run): seq<Version> {
    FilterMap(target, DiffFateFn(mode, target, run)) + FilterMap(run.staged, DiffOpenFn(mode, target, run))
  }

  function Gentle(run: Run): Run {
    run.(deletes := if run.deletes == Delete then Ignore else run.deletes)
  }

  /** Closing by id does to each row what its class asks for, deletions aside. */
  lemma CloseIsFate(mode: ChangeDetection, target: seq<Version>, run: Run)
    requires OneCurrentPerKey(target) && UniqueIds(target)
    ensures AfterClose(mode, target, run) == FilterMap(target, DiffFateFn(mode, target, Gentle(run)))
  {
    hide FilterMap, DiffClass, ToClose, OneCurrentPerKey, UniqueIds;
    var ids, f := ToClose(mode, target, run.staged, run.deletes), DiffFateFn(mode, target, Gentle(run));
    forall v | v in target
      ensures CloseFn(ids, run.now)(v) == f(v)
    {
      ClosedIds(mode, target, run, v);
    }
    if ids == [] {
      FilterMapAll(target, CloseFn(ids, run.now));
    }
    FilterMapSame(target, CloseFn(ids, run.now), f);
  }

  /** After the close, a staged key still has its current row exactly when it is unchanged. */
  lemma MatchesAfterClose(mode: ChangeDetection, target: seq<Version>, run: Run, k: Key)
    requires OneCurrentPerKey(target) && StagedOf(run.staged, k) != []
    ensures
      var closed := FilterMap(target, DiffFateFn(mode, target, Gentle(run)));
      Matches(closed, k) == if DiffClass(mode, target, run.staged, k) == Some(Unchanged) then Matches(target, k) else []
  {
    var c := DiffClass(mode, target, run.staged, k);
    var f, g := DiffFateFn(mode, target, Gentle(run)), MatchFn(k);
    var h := (v: Version) => if c == Some(Unchanged) then g(v) else None;
    forall v | v in target
      ensures h(v) == if f(v).Some? then g(f(v).value) else None
    {
      if v.isCurrent && v.row.key == k {
        MatchesMember(target, k, v);
      }
      hide FilterMap, Matches, StagedOf, Differs;
    }
    hide FilterMap;
    FilterMapCompose(target, f, g, h);
    if c == Some(Unchanged) {
      FilterMapSame(target, h, g);
    } else {
      FilterMapNone(target, h);
    }
  }

  lemma UnchangedMatches(mode: ChangeDetection, target: seq<Version>, stage: seq<Row>, s: Row)
    requires s in stage && DiffClass(mode, target, stage, s.key) == Some(Unchanged)
    ensures Matches(target, s.key) != [] && forall t <- Matches(target, s.key) :: !Distinct(mode, t, s)
  {
    StagedMember(stage, s.key, s);
    hide Matches, StagedOf, Distinct;
  }

  function InsertFilterOne(mode: ChangeDetection, target: seq<Version>, s: Row): seq<Row> {
    var matches := Matches(target, s.key);
    if matches == [] then [s] else FilterMap(matches, DiffersFn(mode, s))
  }

  lemma InsertOne(mode: ChangeDetection, target: seq<Version>, s: Row, now: int)
    ensures
      var matches := Matches(target, s.key);
      (matches == [] || (forall t <- matches :: !Distinct(mode, t, s))) ==>
      FilterMap(InsertFilterOne(mode, target, s), OpenAllFn(mode, now))
      == if matches == [] then [Open(PostgresSink(mode), s, now)] else []
  {
    var matches := Matches(target, s.key);
    if matches == [] {
      FilterMapSnoc([], s, OpenAllFn(mode, now));
    } else if forall t <- matches :: !Distinct(mode, t, s) {
      FilterMapNone(matches, DiffersFn(mode, s));
    }
  }

  lemma InsertFilterSnoc(mode: ChangeDetection, target: seq<Version>, stage: seq<Row>)
    requires stage != []
    ensures InsertFilter(mode, target, stage)
      == InsertFilter(mode, target, stage[..|stage| - 1]) + InsertFilterOne(mode, target, stage[|stage| - 1])
  {
    hide FilterMap, Matches;
  }

  lemma FilterStep(mode: ChangeDetection, target: seq<Version>, run: Run, s: Row)
    requires OneCurrentPerKey(target) && s in run.staged
    ensures FilterMap(InsertFilterOne(mode, FilterMap(target, DiffFateFn(mode, target, Gentle(run))), s), OpenAllFn(mode, run.now))
      == Opt(DiffOpenFn(mode, target, run)(s))
  {
    hide FilterMap, Matches, Differs, Distinct, OneCurrentPerKey, InsertFilterOne;
    var closed := FilterMap(target, DiffFateFn(mode, target, Gentle(run)));
    StagedMember(run.staged, s.key, s);
    MatchesAfterClose(mode, target, run, s.key);
    UnchangedOrOpened(mode, target, run.staged, s);
    InsertOne(mode, closed, s, run.now);
  }

  lemma UnchangedOrOpened(mode: ChangeDetection, target: seq<Version>, stage: seq<Row>, s: Row)
    requires s in stage
    ensures StagedOf(stage, s.key) != []
    ensures
      var c := DiffClass(mode, target, stage, s.key);
      if c == Some(Unchanged) then
        Matches(target, s.key) != [] && forall t <- Matches(target, s.key) :: !Distinct(mode, t, s)
      else Opens(c)
  {
    StagedMember(stage, s.key, s);
    if DiffClass(mode, target, stage, s.key) == Some(Unchanged) {
      UnchangedMatches(mode, target, stage, s);
    }
    hide FilterMap, Matches, Distinct, StagedOf;
  }

  /** The key step: the filter re-evaluated on the closed table selects exactly the changed and
      new rows of the earlier diff. */
  lemma {:induction false} FilterAfterClose(mode: ChangeDetection, target: seq<Version>, run: Run, stage: seq<Row>)
    requires OneCurrentPerKey(target) && forall s <- stage :: s in run.staged
    ensures
      Inserted(mode, FilterMap(target, DiffFateFn(mode, target, Gentle(run))), stage, run.now)
        == FilterMap(stage, DiffOpenFn(mode, target, run))
  {
    hide FilterMap, Matches, OneCurrentPerKey, DiffClass, InsertFilterOne;
    var closed := FilterMap(target, DiffFateFn(mode, target, Gentle(run)));
    if stage == [] {
      FilterMapEmpty(OpenAllFn(mode, run.now));
      FilterMapEmpty(DiffOpenFn(mode, target, run));
    } else {
      var n, s := |stage| - 1, stage[|stage| - 1];
      assert s in stage && stage == stage[..n] + [s];
      FilterAfterClose(mode, target, run, stage[..n]);
      FilterStep(mode, target, run, s);
      InsertFilterSnoc(mode, closed, stage);
      FilterMapConcat(InsertFilter(mode, closed, stage[..n]), InsertFilterOne(mode, closed, s), OpenAllFn(mode, run.now));
      FilterMapSnoc(stage[..n], s, DiffOpenFn(mode, target, run));
    }
  }

  /** The insert is skipped only when there is nothing to insert. */
  lemma NothingToInsert(mode: ChangeDetection, target: seq<Version>, run: Run)
    requires OneCurrentPerKey(target) && UniqueIds(target)
    requires |ChangedIds(mode, target, run.staged)| + NewCount(target, run.staged) == 0
    ensures FilterMap(run.staged, DiffOpenFn(mode, target, run)) == []
  {
    var stage := run.staged;
    forall s | s in stage
      ensures !Opens(DiffClass(mode, target, stage, s.key))
    {
      FilterMapMember(stage, UnmatchedFn(target), s);
      assert FilterMap(stage, UnmatchedFn(target)) == [];
      hide FilterMap, ChangedIds, OneCurrentPerKey, UniqueIds, Differs, StagedOf;
      var current := Matches(target, s.key);
      if current != [] {
        var v := current[0];
        MatchesMember(target, s.key, v);
        ChangedIdOfRow(mode, target, stage, v);
      }
    }
    hide FilterMap, DiffClass, ChangedIds, NewCount;
    FilterMapNone(stage, DiffOpenFn(mode, target, run));
  }

  lemma InsertIsEffect(mode: ChangeDetection, target: seq<Version>, run: Run)
    requires OneCurrentPerKey(target) && UniqueIds(target)
    ensures AfterInsert(mode, target, run) == Effect(mode, target, Gentle(run))
  {
    hide FilterMap, DiffClass, ChangedIds, NewCount, AfterClose, Inserted, OneCurrentPerKey, UniqueIds;
    CloseIsFate(mode, target, run);
    FilterAfterClose(mode, target, run, run.staged);
    FilterMapSame(run.staged, DiffOpenFn(mode, target, run), DiffOpenFn(mode, target, Gentle(run)));
    if |ChangedIds(mode, target, run.staged)| + NewCount(target, run.staged) == 0 {
      NothingToInsert(mode, target, run);
    }
  }

  /** The keys read back by the gone ids, after the inserts, are exactly the gone keys. */
  lemma GoneKeys(mode: ChangeDetection, target: seq<Version>, run: Run, k: Key)
    requires OneCurrentPerKey(target) && UniqueIds(target) && IdsMatch(target) && Before(target, run.now)
    ensures
      var keys := FilterMap(Effect(mode, target, Gentle(run)), KeyOfIdFn(GoneIds(target, run.staged)));
      k in keys <==> DiffClass(mode, target, run.staged, k) == Some(Gone)
  {
    hide FilterMap, DiffClass, GoneIds, UniqueIds, IdsMatch, OneCurrentPerKey, Effect;
    var gone, table := GoneIds(target, run.staged), Effect(mode, target, Gentle(run));
    FilterMapMember(table, KeyOfIdFn(gone), k);
    if k in FilterMap(table, KeyOfIdFn(gone)) {
      var w :| w in table && KeyOfIdFn(gone)(w) == Some(k);
      var v := GoneIdOwner(mode, target, run, w);
      GoneIdOfRow(mode, target, run.staged, v);
    }
    if DiffClass(mode, target, run.staged, k) == Some(Gone) {
      var v := GoneHasCurrent(mode, target, run.staged, k);
      GoneIdOfRow(mode, target, run.staged, v);
      var w := FateStays(mode, target, run, v);
      assert w in table && KeyOfIdFn(gone)(w) == Some(k);
    }
  }

  lemma FateStays(mode: ChangeDetection, target: seq<Version>, run: Run, v: Version) returns (w: Version)
    requires v in target
    ensures w in Effect(mode, target, Gentle(run)) && w.id == v.id && w.row == v.row
  {
    hide FilterMap, DiffClass;
    var f := DiffFateFn(mode, target, Gentle(run));
    w := f(v).value;
    FilterMapMember(target, f, w);
  }

  lemma GoneHasCurrent(mode: ChangeDetection, target: seq<Version>, stage: seq<Row>, k: Key) returns (v: Version)
    requires DiffClass(mode, target, stage, k) == Some(Gone)
    ensures v in target && v.isCurrent && v.row.key == k
  {
    v := Matches(target, k)[0];
    MatchesMember(target, k, v);
  }

  /** A row carrying a gone id after the insert is the gone row itself: new ids are dated now. */
  lemma GoneIdOwner(mode: ChangeDetection, target: seq<Version>, run: Run, w: Version) returns (v: Version)
    requires IdsMatch(target) && Before(target, run.now)
    requires w in Effect(mode, target, Gentle(run)) && w.id in GoneIds(target, run.staged)
    ensures v in target && v.id == w.id && v.row.key == w.row.key
  {
    FilterMapMember(target, GoneFn(run.staged), w.id);
    FilterMapMember(target, DiffFateFn(mode, target, Gentle(run)), w);
    FilterMapMember(run.staged, DiffOpenFn(mode, target, run), w);
    hide FilterMap, DiffClass;
    var u :| u in target && GoneFn(run.staged)(u) == Some(w.id);
    assert u.id == PostgresId(u.row.key, u.validFrom) && BeforeNow(u, run.now);
    v :| v in target && DiffFateFn(mode, target, Gentle(run))(v) == Some(w);
  }

  lemma HardDeleteIsEffect(mode: ChangeDetection, target: seq<Version>, run: Run, keys: seq<Key>)
    requires run.deletes == Delete
    requires forall k :: k in keys <==> DiffClass(mode, target, run.staged, k) == Some(Gone)
    ensures FilterMap(Effect(mode, target, Gentle(run)), NotKeyedFn(keys)) == Effect(mode, target, run)
  {
    hide FilterMap, DiffClass;
    var gentle, f := Gentle(run), NotKeyedFn(keys);
    var kept, added := DiffFateFn(mode, target, gentle), DiffOpenFn(mode, target, gentle);
    FilterMapConcat(FilterMap(target, kept), FilterMap(run.staged, added), f);
    FilterMapCompose(target, kept, f, DiffFateFn(mode, target, run));
    FilterMapCompose(run.staged, added, f, DiffOpenFn(mode, target, run));
  }

  /** The whole transaction, whatever is staged: every row meets the fate of its class in the diff, and
      exactly the rows of new and changed keys are added. */
  lemma MergedIsEffect(mode: ChangeDetection, target: seq<Version>, run: Run)
    requires OneCurrentPerKey(target) && UniqueIds(target) && IdsMatch(target) && Before(target, run.now)
    ensures Merged(mode, target, run) == Effect(mode, target, run)
  {
    hide FilterMap, DiffClass, AfterInsert, Effect, GoneIds, OneCurrentPerKey, UniqueIds, IdsMatch, Before;
    InsertIsEffect(mode, target, run);
    var gone := GoneIds(target, run.staged);
    if run.deletes == Delete {
      var table := Effect(mode, target, Gentle(run));
      var keys := FilterMap(table, KeyOfIdFn(gone));
      forall k
        ensures k in keys <==> DiffClass(mode, target, run.staged, k) == Some(Gone)
      {
        GoneKeys(mode, target, run, k);
      }
      HardDeleteIsEffect(mode, target, run, keys);
      if gone == [] {
        FilterMapNone(table, KeyOfIdFn(gone));
        FilterMapAll(table, NotKeyedFn(keys));
      }
    } else {
      assert Gentle(run) == run;
    }
  }

  // ---- Against the reference run ----

  lemma StagedCounts(sink: Sink, stage: seq<Row>, k: Key)
    ensures |StagedSignals(sink, stage, k)| == |StagedOf(stage, k)|
  {
    FilterMapLonger(stage, StagedFn(sink, k), WithKeyFn(k));
    FilterMapLonger(stage, WithKeyFn(k), StagedFn(sink, k));
  }

  /** A key staged at most once, or without a current row, has its reference class in the diff. */
  lemma DiffClassIsClassify(mode: ChangeDetection, target: seq<Version>, stage: seq<Row>, k: Key)
    requires OneCurrentPerKey(target)
    ensures |StagedOf(stage, k)| <= 1 || Matches(target, k) == [] ==>
              DiffClass(mode, target, stage, k) == Classify(PostgresSink(mode), target, stage, k)
    ensures |StagedOf(stage, k)| > 1 ==> Classify(PostgresSink(mode), target, stage, k) == Some(New)
  {
    var sink := PostgresSink(mode);
    StagedCounts(sink, stage, k);
    UnmatchedHasNoCurrent(sink, target, k);
    AtMostOneMatch(target, k);
    var current, staged := Matches(target, k), StagedOf(stage, k);
    if |staged| == 1 && current != [] {
      OneAgainstOne(mode, target, stage, k);
    }
    hide FilterMap, Matches, StagedOf, CurrentSignals, StagedSignals, OneCurrentPerKey;
  }

  lemma OneAgainstOne(mode: ChangeDetection, target: seq<Version>, stage: seq<Row>, k: Key)
    requires |StagedOf(stage, k)| == 1 && |Matches(target, k)| == 1
    ensures
      var v, s, sink := Matches(target, k)[0], StagedOf(stage, k)[0], PostgresSink(mode);
      && CurrentSignals(sink, target, k) == [sink.signal(v.row)] && StagedSignals(sink, stage, k) == [sink.signal(s)]
      && (Differs(mode, Matches(target, k), StagedOf(stage, k)) <==> Distinct(mode, v, s))
  {
    hide FilterMap;
    var sink := PostgresSink(mode);
    var v, s := Matches(target, k)[0], StagedOf(stage, k)[0];
    var f := (t: Version) => Some(sink.signal(t.row));
    var g := (r: Row) => Some(sink.signal(r));
    FilterMapCompose(target, MatchFn(k), f, CurrentFn(sink, k));
    FilterMapCompose(stage, WithKeyFn(k), g, StagedFn(sink, k));
    assert Matches(target, k) == [] + [v] && StagedOf(stage, k) == [] + [s];
    FilterMapEmpty(f);
    FilterMapEmpty(g);
    FilterMapSnoc([], v, f);
    FilterMapSnoc([], s, g);
    assert v in Matches(target, k) && s in StagedOf(stage, k);
  }

  lemma DistinctStagedOf(stage: seq<Row>, k: Key)
    requires DistinctKeys(stage)
    ensures |StagedOf(stage, k)| <= 1
  {
    FilterMapFew(stage, WithKeyFn(k));
    hide FilterMap;
  }

  lemma SameClassesSameRun(mode: ChangeDetection, target: seq<Version>, run: Run)
    requires forall k :: DiffClass(mode, target, run.staged, k) == Classify(PostgresSink(mode), target, run.staged, k)
    ensures Effect(mode, target, run) == Apply(PostgresSink(mode), target, run)
  {
    hide FilterMap, DiffClass, Classify;
    var sink := PostgresSink(mode);
    FilterMapSame(target, DiffFateFn(mode, target, run), FateFn(sink, target, run));
    FilterMapSame(run.staged, DiffOpenFn(mode, target, run), OpenFn(sink, target, run));
  }

  /** The Postgres transaction is the reference run, row for row, in every hard-delete mode. */
  lemma MergedIsApply(mode: ChangeDetection, target: seq<Version>, run: Run, keys: set<Key>)
    requires GoodTarget(target, keys) && GoodRun(target, run, keys) && JoinsApart(keys)
    ensures Merged(mode, target, run) == Apply(PostgresSink(mode), target, run)
  {
    hide Merged, Apply, Effect, DiffClass, Classify, JoinsApart, DisjointIntervals, OneCurrentPerKey, UniqueIds, DistinctKeys;
    IdsAreUnique(target, keys);
    OneCurrentOfGood(target, run.now);
    MergedIsEffect(mode, target, run);
    forall k
      ensures DiffClass(mode, target, run.staged, k) == Classify(PostgresSink(mode), target, run.staged, k)
    {
      DistinctStagedOf(run.staged, k);
      DiffClassIsClassify(mode, target, run.staged, k);
    }
    SameClassesSameRun(mode, target, run);
  }

  // ---- The diff's three numbers ----

  lemma {:induction false} ChangedCount(mode: ChangeDetection, target: seq<Version>, stage: seq<Row>, part: seq<Version>)
    requires OneCurrentPerKey(target) && DistinctKeys(stage) && forall v <- part :: v in target
    ensures |ChangedIds(mode, part, stage)| == |FilterMap(part, CurrentKeyFn(PostgresSink(mode), target, stage, Changed))|
  {
    if part != [] {
      var n, v := |part| - 1, part[|part| - 1];
      assert v in part;
      ChangedCount(mode, target, stage, part[..n]);
      ChangedJoinCount(mode, target, stage, v);
    }
  }

  lemma JoinsAtMostOne(mode: ChangeDetection, stage: seq<Row>, v: Version)
    requires DistinctKeys(stage)
    ensures |FilterMap(stage, ChangedJoinFn(mode, v))| <= 1
  {
    hide FilterMap, Distinct;
    FilterMapFew(stage, ChangedJoinFn(mode, v));
  }

  lemma ChangedJoinCount(mode: ChangeDetection, target: seq<Version>, stage: seq<Row>, v: Version)
    requires OneCurrentPerKey(target) && DistinctKeys(stage) && v in target
    ensures v.isCurrent ==>
              |FilterMap(stage, ChangedJoinFn(mode, v))| ==
              if CurrentKeyFn(PostgresSink(mode), target, stage, Changed)(v).Some? then 1 else 0
  {
    hide FilterMap, Classify, OneCurrentPerKey, DistinctKeys;
    if v.isCurrent {
      var sink, f := PostgresSink(mode), ChangedJoinFn(mode, v);
      ClassOfCurrent(sink, target, stage, v);
      StagedSignalMember(sink, stage, v.row.key);
      DistinctStaged(sink, stage, v.row.key);
      JoinsAtMostOne(mode, stage, v);
      if s :| s in stage && s.key == v.row.key && Distinct(mode, v, s) {
        FilterMapMember(stage, f, v.id);
        assert f(s) == Some(v.id);
      } else {
        FilterMapNone(stage, f);
      }
    }
  }

  lemma GoneCount(mode: ChangeDetection, target: seq<Version>, stage: seq<Row>)
    ensures |GoneIds(target, stage)| == |CurrentKeys(PostgresSink(mode), target, stage, Gone)|
  {
    var sink := PostgresSink(mode);
    var f, g := GoneFn(stage), CurrentKeyFn(sink, target, stage, Gone);
    forall v | v in target
      ensures f(v).Some? <==> g(v).Some?
    {
      StagedSignalMember(sink, stage, v.row.key);
      if v.isCurrent {
        FilterMapMember(target, CurrentFn(sink, v.row.key), sink.signal(v.row));
        assert sink.signal(v.row) in CurrentSignals(sink, target, v.row.key);
      }
      hide FilterMap;
    }
    hide FilterMap, Classify;
    FilterMapLonger(target, f, g);
    FilterMapLonger(target, g, f);
  }

  lemma AddedCount(mode: ChangeDetection, target: seq<Version>, stage: seq<Row>)
    requires DistinctKeys(stage)
    ensures NewCount(target, stage) == |StagedKeys(PostgresSink(mode), target, stage, New)|
  {
    var sink := PostgresSink(mode);
    var f, g := UnmatchedFn(target), StagedKeyFn(sink, target, stage, New);
    forall s | s in stage
      ensures f(s).Some? <==> g(s).Some?
    {
      DistinctStaged(sink, stage, s.key);
      UnmatchedHasNoCurrent(sink, target, s.key);
      StagedSignalMember(sink, stage, s.key);
      hide FilterMap, CurrentSignals, StagedSignals, Matches;
    }
    hide FilterMap, Classify;
    FilterMapLonger(stage, f, g);
    FilterMapLonger(stage, g, f);
  }

  lemma UnmatchedHasNoCurrent(sink: Sink, target: seq<Version>, k: Key)
    ensures Matches(target, k) == [] <==> CurrentSignals(sink, target, k) == []
  {
    FilterMapLonger(target, MatchFn(k), CurrentFn(sink, k));
    FilterMapLonger(target, CurrentFn(sink, k), MatchFn(k));
  }

  /** The diff query returns the reference counts, so the receipt is the planner's receipt. */
  lemma DiffCounts(mode: ChangeDetection, target: seq<Version>, stage: seq<Row>, deletes: HardDeletes)
    requires OneCurrentPerKey(target) && DistinctKeys(stage)
    ensures
      StatsFromDiff(|stage|, |ChangedIds(mode, target, stage)|, NewCount(target, stage), |GoneIds(target, stage)|, deletes)
      == RunStats(PostgresSink(mode), target, stage, deletes)
    ensures |ChangedIds(mode, target, stage)| + NewCount(target, stage) ==
            |Opened(PostgresSink(mode), target, Run(stage, deletes, 0))|
  {
    hide FilterMap, Classify, ChangedIds, NewCount, GoneIds, Opened, RunStats, StagedKeys;
    ChangedCount(mode, target, stage, target);
    GoneCount(mode, target, stage);
    AddedCount(mode, target, stage);
    DiffStatsAgree(PostgresSink(mode), target, stage, deletes);
    OpenedCount(PostgresSink(mode), target, Run(stage, deletes, 0));
    MatchedKeysAgree(PostgresSink(mode), target, stage, Changed);
  }
}

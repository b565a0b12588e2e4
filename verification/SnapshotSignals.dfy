/** What the two sinks compare and how they number versions, in terms of columns: which columns make a run
    close a version and open another, and why no two versions share an id. */
module SnapshotSignals {
  import opened Lists
  import opened Decimal
  import opened Snapshot
  import opened SnapshotHistory
  import opened PostgresSnapshot
  import opened SinkRefinement
  import opened PostgresRepeats

  // ---- Signals and columns ----

  /** A row changes when any tracked column does, or its `updated_at`. */
  predicate ColumnsDiffer(mode: ChangeDetection, a: Row, b: Row) {
    match mode
    case Check => |a.tracked| != |b.tracked| || exists i :: 0 <= i < |a.tracked| && a.tracked[i] != b.tracked[i]
    case Timestamp => a.updatedAt != b.updatedAt
  }

  lemma DistinctIff(mode: ChangeDetection, v: Version, s: Row)
    ensures Distinct(mode, v, s) <==> ColumnsDiffer(mode, v.row, s)
  {
    var a, b := v.row.tracked, s.tracked;
    if mode == Check && !ColumnsDiffer(mode, v.row, s) {
      assert a == b;
    }
  }

  /** The text formatter cannot tell a null from the text it stands for. */
  predicate SameText(a: Cell, b: Cell) {
    a == b || (a in {Null, Text("\0NULL")} && b in {Null, Text("\0NULL")})
  }

  /** Nor the comparison of times a null from the smallest 64-bit integer. */
  predicate SameMoment(a: Option<int>, b: Option<int>) {
    a == b || (a in {None, Some(-9223372036854775808)} && b in {None, Some(-9223372036854775808)})
  }

  predicate TextsDiffer(mode: ChangeDetection, a: Row, b: Row) {
    match mode
    case Check => |a.tracked| != |b.tracked| || exists i :: 0 <= i < |a.tracked| && !SameText(a.tracked[i], b.tracked[i])
    case Timestamp => !SameMoment(a.updatedAt, b.updatedAt)
  }

  ghost predicate Injective(hash: seq<string> -> int) {
    forall x, y :: hash(x) == hash(y) ==> x == y
  }

  lemma SameDisplays(a: seq<Cell>, b: seq<Cell>)
    ensures Displays(a) == Displays(b) <==> |a| == |b| && forall i :: 0 <= i < |a| ==> SameText(a[i], b[i])
  {
    if |a| == |b| && forall i :: 0 <= i < |a| ==> SameText(a[i], b[i]) {
      forall i | 0 <= i < |a|
        ensures Displays(a)[i] == Displays(b)[i]
      {
      }
    }
    if Displays(a) == Displays(b) {
      assert |Displays(a)| == |a| && |Displays(b)| == |b|;
      forall i | 0 <= i < |a|
        ensures SameText(a[i], b[i])
      {
        assert Displays(a)[i] == Displays(b)[i];
      }
    }
  }

  /** Without hash collisions the Parquet signals differ exactly when some tracked column's text does. */
  lemma ParquetSignalsIff(hash: seq<string> -> int, mode: ChangeDetection, a: Row, b: Row)
    requires Injective(hash)
    ensures ParquetSignal(hash, mode, a) != ParquetSignal(hash, mode, b) <==> TextsDiffer(mode, a, b)
  {
    SameDisplays(a.tracked, b.tracked);
    hide Displays;
  }

  // ---- What a run does about it ----

  /** Version v is closed at `now` and the staged row opened next to it, or v is left current and nothing is
      opened; `id` is what the sink calls the new version. */
  predicate Superseded(table: seq<Version>, v: Version, s: Row, id: ScdId, now: int) {
    && Version(s, id, now, None, true) in table
    && Version(v.row, v.id, v.validFrom, Some(now), false) in table
    && v !in table
  }

  predicate LeftAlone(table: seq<Version>, v: Version, s: Row, id: ScdId, now: int) {
    && Version(s, id, now, None, true) !in table
    && Version(v.row, v.id, v.validFrom, Some(now), false) !in table
    && v in table
  }

  lemma ClassOfPair(sink: Sink, table: seq<Version>, run: Run, v: Version, s: Row)
    requires OneCurrentPerKey(table) && DistinctKeys(run.staged)
    requires v in table && v.isCurrent && s in run.staged && s.key == v.row.key
    ensures Classify(sink, table, run.staged, s.key) == Some(if sink.signal(v.row) == sink.signal(s) then Unchanged else Changed)
  {
    ClassOfCurrent(sink, table, run.staged, v);
    DistinctStaged(sink, run.staged, s.key);
  }

  lemma SameCurrent(table: seq<Version>, v: Version, w: Version)
    requires OneCurrentPerKey(table) && v in table && w in table && v.isCurrent && w.isCurrent && v.row.key == w.row.key
    ensures v == w
  {
    var i :| 0 <= i < |table| && table[i] == v;
    var j :| 0 <= j < |table| && table[j] == w;
    assert i == j;
  }

  /** Only v itself can end up as v, closed now, or newly opened. */
  lemma FateOfOther(table: seq<Version>, w: Version, c: Option<Class>, run: Run, v: Version, s: Row, id: ScdId)
    requires Sane(table) && OneCurrentPerKey(table) && Before(table, run.now) && v in table && w in table && v.isCurrent
    requires Fate(w, c, run) in
      {Some(v), Some(Version(s, id, run.now, None, true)), Some(Version(v.row, v.id, v.validFrom, Some(run.now), false))}
    ensures w == v && Fate(w, c, run) != Some(Version(s, id, run.now, None, true))
  {
    assert SaneVersion(w) && SaneVersion(v) && BeforeNow(w, run.now) && BeforeNow(v, run.now);
    hide OneCurrentPerKey;
    SameCurrent(table, v, w);
  }

  lemma OpenedOfOther(sink: Sink, r: Row, run: Run, v: Version, s: Row)
    requires BeforeNow(v, run.now)
    ensures Open(sink, r, run.now) != v
    ensures Open(sink, r, run.now) != Version(v.row, v.id, v.validFrom, Some(run.now), false)
    ensures Open(sink, r, run.now) == Version(s, sink.surrogate(s.key, run.now), run.now, None, true) <==> r == s
  {
  }

  lemma SupersededOrNot(sink: Sink, table: seq<Version>, run: Run, v: Version, s: Row)
    requires Sane(table) && OneCurrentPerKey(table) && DistinctKeys(run.staged) && Before(table, run.now)
    requires v in table && v.isCurrent && s in run.staged && s.key == v.row.key
    ensures
      var id, next := sink.surrogate(s.key, run.now), Apply(sink, table, run);
      if sink.signal(v.row) != sink.signal(s) then Superseded(next, v, s, id, run.now) else LeftAlone(next, v, s, id, run.now)
  {
    hide FilterMap, Classify, OneCurrentPerKey, DistinctKeys, Apply, Fate, Open;
    ClassOfPair(sink, table, run, v, s);
    var id := sink.surrogate(s.key, run.now);
    var added, closed := Version(s, id, run.now, None, true), Version(v.row, v.id, v.validFrom, Some(run.now), false);
    FateMember(sink, table, run, v);
    FateMember(sink, table, run, closed);
    FateMember(sink, table, run, added);
    forall w | w in table && FateFn(sink, table, run)(w) in {Some(v), Some(closed), Some(added)}
      ensures w == v && FateFn(sink, table, run)(w) != Some(added)
    {
      FateOfOther(table, w, Classify(sink, table, run.staged, w.row.key), run, v, s, id);
    }
    forall r: Row
      ensures Open(sink, r, run.now) != v && Open(sink, r, run.now) != closed && (Open(sink, r, run.now) == added <==> r == s)
    {
      OpenedOfOther(sink, r, run, v, s);
    }
    FateOfPair(sink, v, Classify(sink, table, run.staged, s.key), run);
  }

  lemma FateOfPair(sink: Sink, v: Version, c: Option<Class>, run: Run)
    requires SaneVersion(v) && v.isCurrent
    ensures c == Some(Changed) ==> Fate(v, c, run) == Some(Version(v.row, v.id, v.validFrom, Some(run.now), false))
    ensures c == Some(Unchanged) ==> Fate(v, c, run) == Some(v)
  {
  }

  lemma FateMember(sink: Sink, table: seq<Version>, run: Run, x: Version)
    ensures x in Apply(sink, table, run) <==>
      || (exists w <- table :: FateFn(sink, table, run)(w) == Some(x))
      || (exists r <- run.staged :: Opens(Classify(sink, table, run.staged, r.key)) && Open(sink, r, run.now) == x)
  {
    FilterMapMember(table, FateFn(sink, table, run), x);
    FilterMapMember(run.staged, OpenFn(sink, table, run), x);
    hide FilterMap, Classify, Fate, Open;
  }

  lemma SameMembers(a: seq<Version>, b: seq<Version>, v: Version, s: Row, id: ScdId, now: int)
    requires multiset(a) == multiset(b)
    ensures Superseded(a, v, s, id, now) == Superseded(b, v, s, id, now) && LeftAlone(a, v, s, id, now) == LeftAlone(b, v, s, id, now)
  {
    forall x: Version
      ensures x in a <==> x in b
    {
      assert x in a <==> x in multiset(a);
      assert x in b <==> x in multiset(b);
    }
  }

  /** The Postgres transaction supersedes the current version of a staged row exactly when a compared column
      differs, the columns being looked at one by one. */
  lemma PostgresSupersedesIff(mode: ChangeDetection, target: seq<Version>, run: Run, keys: set<Key>, v: Version, s: Row)
    requires GoodTarget(target, keys) && GoodRun(target, run, keys) && JoinsApart(keys)
    requires v in target && v.isCurrent && s in run.staged && s.key == v.row.key
    ensures
      var next, id := Merged(mode, target, run), Md5(run.now, JoinBar(s.key));
      if ColumnsDiffer(mode, v.row, s) then Superseded(next, v, s, id, run.now) else LeftAlone(next, v, s, id, run.now)
  {
    hide Merged, Apply, JoinsApart, DisjointIntervals, Superseded, LeftAlone, ColumnsDiffer, DistinctKeys, KeysWithin, IdsMatch;
    OneCurrentOfGood(target, run.now);
    MergedIsApply(mode, target, run, keys);
    DistinctIff(mode, v, s);
    SupersededOrNot(PostgresSink(mode), target, run, v, s);
  }

  /** What the Parquet sink writes does so exactly when the text of a compared column differs, unless two
      lists of texts share a hash. */
  lemma ParquetSupersedesIff(hash: seq<string> -> int, mode: ChangeDetection, table: seq<Version>, run: Run,
                             written: seq<Version>, v: Version, s: Row)
    requires Injective(hash) && Sane(table) && OneCurrentPerKey(table) && DistinctKeys(run.staged) && Before(table, run.now)
    requires multiset(written) == multiset(Apply(ParquetSink(hash, mode), table, run))
    requires v in table && v.isCurrent && s in run.staged && s.key == v.row.key
    ensures
      var id := Fnv(hash(s.key + [IntText(run.now)]));
      if TextsDiffer(mode, v.row, s) then Superseded(written, v, s, id, run.now) else LeftAlone(written, v, s, id, run.now)
  {
    hide Injective, Apply, Superseded, LeftAlone, TextsDiffer, OneCurrentPerKey, DistinctKeys, Before, Sane, ParquetSignal, IntText;
    ParquetSignalsIff(hash, mode, v.row, s);
    SupersededOrNot(ParquetSink(hash, mode), table, run, v, s);
    SameMembers(written, Apply(ParquetSink(hash, mode), table, run), v, s, Fnv(hash(s.key + [IntText(run.now)])), run.now);
  }

  // ---- Surrogate ids ----

  /** Every version carries the id of its key and its start. */
  ghost predicate NamedByStart(sink: Sink, table: seq<Version>) {
    forall v <- table :: v.id == sink.surrogate(v.row.key, v.validFrom)
  }

  lemma RunKeepsNames(sink: Sink, table: seq<Version>, run: Run, next: seq<Version>)
    requires NamedByStart(sink, table) && Ran(sink, table, run, next)
    ensures NamedByStart(sink, next)
  {
    forall w | w in next
      ensures w.id == sink.surrogate(w.row.key, w.validFrom)
    {
      assert w in multiset(next);
      assert w in Apply(sink, table, run);
      FilterMapMember(table, FateFn(sink, table, run), w);
      FilterMapMember(run.staged, OpenFn(sink, table, run), w);
      hide FilterMap, Classify;
    }
  }

  lemma {:induction false} HistoryKeepsNames(sink: Sink, tables: seq<seq<Version>>, runs: seq<Run>, i: nat)
    requires History(sink, tables, runs) && i <= |runs|
    ensures NamedByStart(sink, tables[i])
  {
    hide Ran, NamedByStart;
    if i == 0 {
      NoNames(sink);
    } else {
      HistoryKeepsNames(sink, tables, runs, i - 1);
      assert Ran(sink, tables[i - 1], runs[i - 1], tables[i]);
      RunKeepsNames(sink, tables[i - 1], runs[i - 1], tables[i]);
    }
  }

  lemma NoNames(sink: Sink)
    ensures NamedByStart(sink, [])
  {
  }

  lemma ParquetIdInjective(hash: seq<string> -> int, a: Key, b: Key, m: int, n: int)
    requires Injective(hash) && hash(a + [IntText(m)]) == hash(b + [IntText(n)])
    ensures a == b && m == n
  {
    var x, y := a + [IntText(m)], b + [IntText(n)];
    assert x == y;
    hide IntText;
    assert x[|x| - 1] == IntText(m) && y[|y| - 1] == IntText(n);
    assert x[..|x| - 1] == a && y[..|y| - 1] == b;
    IntTextInjective(m, n);
  }

  /** In every Parquet history the ids of versions are pairwise distinct, unless two lists of texts share a
      hash: two versions of one key differ in their start. */
  lemma ParquetIdsUnique(hash: seq<string> -> int, mode: ChangeDetection, tables: seq<seq<Version>>, runs: seq<Run>)
    requires Injective(hash) && History(ParquetSink(hash, mode), tables, runs) && Legal(runs)
    ensures UniqueIds(tables[|runs|])
  {
    hide Injective, Ran, OneCurrentPerKey, Legal, IntText;
    var table := tables[|runs|];
    HistoryKeepsNames(ParquetSink(hash, mode), tables, runs, |runs|);
    ReachableShape(ParquetSink(hash, mode), tables, runs);
    forall i, j | 0 <= i < j < |table|
      ensures table[i].id != table[j].id
    {
      var u, v := table[i], table[j];
      assert u in table && v in table;
      assert SaneVersion(u) && SaneVersion(v);
      assert ValidAt(u, u.validFrom) && ValidAt(v, v.validFrom);
      if u.id == v.id {
        ParquetIdInjective(hash, u.row.key, v.row.key, u.validFrom, v.validFrom);
        assert false;
      }
    }
  }
}

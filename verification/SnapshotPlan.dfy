/** The sink-agnostic planner: one pass over the staged rows against a map that is used up. */
module SnapshotPlan {
  import opened Lists
  import opened Snapshot

  /** A key with its change signal, staged or current. */
  datatype Keyed = Keyed(key: Key, signal: Signal)

  datatype Classified = Classified(key: Key, kind: Class)

  datatype Stats = Stats(unaltered: nat, changed: nat, newVersions: nat, gone: nat, invalidated: nat, physical: nat) {
    function RowsInserted(): nat { newVersions + changed }
    function RowsUpdated(): nat { changed + invalidated }
    function RowsDeleted(): nat { physical }
  }

  function KeyedFn(k: Key): Keyed -> Option<Signal> {
    (x: Keyed) => if x.key == k then Some(x.signal) else None
  }

  function SignalsFor(list: seq<Keyed>, k: Key): seq<Signal> {
    FilterMap(list, KeyedFn(k))
  }

  function ClassFn(k: Key): Classified -> Option<Class> {
    (x: Classified) => if x.key == k then Some(x.kind) else None
  }

  function ClassesFor(rows: seq<Classified>, k: Key): seq<Class> {
    FilterMap(rows, ClassFn(k))
  }

  function OfClassFn(c: Class): Classified -> Option<Key> {
    (x: Classified) => if x.kind == c then Some(x.key) else None
  }

  /** The keys of the rows classified `c`, in plan order. */
  function KeysOf(rows: seq<Classified>, c: Class): seq<Key> {
    FilterMap(rows, OfClassFn(c))
  }

  function LastOf<T>(s: seq<T>): Option<T> {
    if s == [] then None else Some(s[|s| - 1])
  }

  function StatsOf(rows: seq<Classified>, deletes: HardDeletes): Stats {
    var gone := |KeysOf(rows, Gone)|;
    Stats(|KeysOf(rows, Unchanged)|, |KeysOf(rows, Changed)|, |KeysOf(rows, New)|, gone,
          if deletes == Invalidate then gone else 0, if deletes == Delete then gone else 0)
  }

  /** The class of one staged occurrence, after the occurrences `before` it. */
  function OccurrenceClass(current: seq<Keyed>, before: seq<Keyed>, s: Keyed): Class {
    var prior := SignalsFor(current, s.key);
    if prior == [] || SignalsFor(before, s.key) != [] then New
    else if prior[|prior| - 1] == s.signal then Unchanged
    else Changed
  }

  predicate NoRepeats<T(==)>(s: seq<T>) {
    forall i, j :: 0 <= i < j < |s| ==> s[i] != s[j]
  }

  /** What a plan must say; `done` staged rows and `gone` left-over keys have been classified. */
  ghost predicate Plans(rows: seq<Classified>, current: seq<Keyed>, staged: seq<Keyed>) {
    && |staged| <= |rows|
    && (forall i :: 0 <= i < |staged| ==>
          rows[i] == Classified(staged[i].key, OccurrenceClass(current, staged[..i], staged[i])))
    && (forall i :: |staged| <= i < |rows| ==>
          rows[i].kind == Gone && SignalsFor(current, rows[i].key) != [] && SignalsFor(staged, rows[i].key) == [])
    && (forall i, j :: |staged| <= i < j < |rows| ==> rows[i].key != rows[j].key)
    && (forall k :: LastOf(ClassesFor(rows, k)) == ClassOf(SignalsFor(current, k), SignalsFor(staged, k)))
  }

  /** `left` holds the last signal of every current key not yet staged. */
  ghost predicate Leftover(left: map<Key, Signal>, current: seq<Keyed>, staged: seq<Keyed>) {
    forall k ::
      && (k in left <==> SignalsFor(current, k) != [] && SignalsFor(staged, k) == [])
      && (k in left ==> Some(left[k]) == LastOf(SignalsFor(current, k)))
  }

  /** Everything staged so far is classified; nothing else is. */
  ghost predicate Classifies(rows: seq<Classified>, current: seq<Keyed>, staged: seq<Keyed>) {
    forall k ::
      LastOf(ClassesFor(rows, k)) ==
      if SignalsFor(staged, k) == [] then None else ClassOf(SignalsFor(current, k), SignalsFor(staged, k))
  }

  lemma SignalsSnoc(list: seq<Keyed>, x: Keyed, k: Key)
    ensures SignalsFor(list + [x], k) == SignalsFor(list, k) + if x.key == k then [x.signal] else []
  {
    FilterMapSnoc(list, x, KeyedFn(k));
  }

  lemma ClassesSnoc(rows: seq<Classified>, x: Classified, k: Key)
    ensures ClassesFor(rows + [x], k) == ClassesFor(rows, k) + if x.key == k then [x.kind] else []
  {
    FilterMapSnoc(rows, x, ClassFn(k));
  }

  lemma ClassifiesOne(rows: seq<Classified>, current: seq<Keyed>, before: seq<Keyed>, s: Keyed)
    requires Classifies(rows, current, before)
    ensures Classifies(rows + [Classified(s.key, OccurrenceClass(current, before, s))], current, before + [s])
  {
    hide ClassesFor, SignalsFor;
    var row := Classified(s.key, OccurrenceClass(current, before, s));
    forall k
      ensures LastOf(ClassesFor(rows + [row], k)) ==
              if SignalsFor(before + [s], k) == [] then None
              else ClassOf(SignalsFor(current, k), SignalsFor(before + [s], k))
    {
      ClassesSnoc(rows, row, k);
      SignalsSnoc(before, s, k);
      assert LastOf(ClassesFor(rows, k)) ==
             if SignalsFor(before, k) == [] then None else ClassOf(SignalsFor(current, k), SignalsFor(before, k));
    }
  }

  lemma LeftoverOne(left: map<Key, Signal>, current: seq<Keyed>, before: seq<Keyed>, s: Keyed)
    requires Leftover(left, current, before)
    ensures Leftover(left - {s.key}, current, before + [s])
    ensures s.key in left ==> OccurrenceClass(current, before, s) == if left[s.key] == s.signal then Unchanged else Changed
    ensures s.key !in left ==> OccurrenceClass(current, before, s) == New
  {
    hide SignalsFor;
    forall k {
      SignalsSnoc(before, s, k);
    }
  }

  lemma LeftoverIndexed(byKey: map<Key, Signal>, before: seq<Keyed>, s: Keyed)
    requires Leftover(byKey, before, [])
    ensures Leftover(byKey[s.key := s.signal], before + [s], [])
  {
    forall k {
      SignalsSnoc(before, s, k);
    }
  }

  lemma StatsSnoc(rows: seq<Classified>, row: Classified, deletes: HardDeletes)
    ensures
      var s := StatsOf(rows, deletes);
      StatsOf(rows + [row], deletes) ==
      match row.kind
      case Unchanged => s.(unaltered := s.unaltered + 1)
      case Changed => s.(changed := s.changed + 1)
      case New => s.(newVersions := s.newVersions + 1)
      case Gone => s.(gone := s.gone + 1,
                      invalidated := s.invalidated + if deletes == Invalidate then 1 else 0,
                      physical := s.physical + if deletes == Delete then 1 else 0)
  {
    hide FilterMap;
    FilterMapSnoc(rows, row, OfClassFn(Unchanged));
    FilterMapSnoc(rows, row, OfClassFn(Changed));
    FilterMapSnoc(rows, row, OfClassFn(New));
    FilterMapSnoc(rows, row, OfClassFn(Gone));
  }

  /** The positions of the rows classified `c`. */
  function OfKind(rows: seq<Classified>, c: Class): set<nat> {
    set i | 0 <= i < |rows| && rows[i].kind == c
  }

  lemma OfKindSnoc(rows: seq<Classified>, x: Classified, c: Class)
    ensures OfKind(rows + [x], c) == OfKind(rows, c) + if x.kind == c then {|rows|} else {}
  {
  }

  lemma {:induction false} KindCount(rows: seq<Classified>, c: Class)
    ensures |KeysOf(rows, c)| == |OfKind(rows, c)|
  {
    hide FilterMap;
    if rows == [] {
      FilterMapEmpty(OfClassFn(c));
      assert OfKind(rows, c) == {};
    } else {
      var n := |rows| - 1;
      assert rows == rows[..n] + [rows[n]];
      KindCount(rows[..n], c);
      OfKindSnoc(rows[..n], rows[n], c);
      FilterMapSnoc(rows[..n], rows[n], OfClassFn(c));
      assert n !in OfKind(rows[..n], c);
      hide OfKind;
    }
  }

  /** Each counter counts the rows of its class, and the deletes are the gone rows of their mode. */
  lemma StatsCount(rows: seq<Classified>, deletes: HardDeletes)
    ensures
      var s := StatsOf(rows, deletes);
      && s.unaltered == |set i | 0 <= i < |rows| && rows[i].kind == Unchanged|
      && s.changed == |set i | 0 <= i < |rows| && rows[i].kind == Changed|
      && s.newVersions == |set i | 0 <= i < |rows| && rows[i].kind == New|
      && s.gone == |set i | 0 <= i < |rows| && rows[i].kind == Gone|
      && s.invalidated == (if deletes == Invalidate then s.gone else 0)
      && s.physical == (if deletes == Delete then s.gone else 0)
  {
    KindCount(rows, Unchanged);
    KindCount(rows, Changed);
    KindCount(rows, New);
    KindCount(rows, Gone);
    hide KeysOf;
    assert OfKind(rows, Unchanged) == set i | 0 <= i < |rows| && rows[i].kind == Unchanged;
    assert OfKind(rows, Changed) == set i | 0 <= i < |rows| && rows[i].kind == Changed;
    assert OfKind(rows, New) == set i | 0 <= i < |rows| && rows[i].kind == New;
    assert OfKind(rows, Gone) == set i | 0 <= i < |rows| && rows[i].kind == Gone;
  }

  method IndexCurrent(current: seq<Keyed>) returns (byKey: map<Key, Signal>)
    ensures Leftover(byKey, current, [])
  {
    byKey := map[];
    for i := 0 to |current|
      invariant Leftover(byKey, current[..i], [])
    {
      assert current[..i + 1] == current[..i] + [current[i]];
      LeftoverIndexed(byKey, current[..i], current[i]);
      byKey := byKey[current[i].key := current[i].signal];
    }
    assert current[..|current|] == current;
  }

  lemma PlanStart(current: seq<Keyed>, deletes: HardDeletes)
    ensures StatsOf([], deletes) == Stats(0, 0, 0, 0, 0, 0)
    ensures Classifies([], current, [])
  {
  }

  method PlanSnapshotMerge(current: seq<Keyed>, staged: seq<Keyed>, deletes: HardDeletes)
    returns (rows: seq<Classified>, stats: Stats)
    ensures Plans(rows, current, staged)
    ensures stats == StatsOf(rows, deletes)
  {
    hide *;
    rows, stats := [], Stats(0, 0, 0, 0, 0, 0);
    PlanStart(current, deletes);
    var left := IndexCurrent(current);
    for i := 0 to |staged|
      invariant |rows| == i && stats == StatsOf(rows, deletes)
      invariant forall j :: 0 <= j < i ==>
                  rows[j] == Classified(staged[j].key, OccurrenceClass(current, staged[..j], staged[j]))
      invariant Leftover(left, current, staged[..i])
      invariant Classifies(rows, current, staged[..i])
    {
      var s := staged[i];
      assert staged[..i + 1] == staged[..i] + [s];
      LeftoverOne(left, current, staged[..i], s);
      ClassifiesOne(rows, current, staged[..i], s);
      var row;
      if s.key !in left {
        stats := stats.(newVersions := stats.newVersions + 1);
        row := Classified(s.key, New);
      } else if left[s.key] == s.signal {
        stats := stats.(unaltered := stats.unaltered + 1);
        row := Classified(s.key, Unchanged);
      } else {
        stats := stats.(changed := stats.changed + 1);
        row := Classified(s.key, Changed);
      }
      StatsSnoc(rows, row, deletes);
      left := left - {s.key};
      rows := rows + [row];
    }
    assert staged[..|staged|] == staged;
    rows, stats := DrainGone(left, rows, stats, current, staged, deletes);
  }

  /** `rows` classifies the staged rows and, as gone, the keys of `unstaged` no longer in `left`. */
  ghost predicate Drained(rows: seq<Classified>, staged: seq<Keyed>, unstaged: map<Key, Signal>, left: map<Key, Signal>,
                          classified: seq<Classified>) {
    && |classified| == |staged|
    && classified <= rows
    && left.Keys <= unstaged.Keys
    && (forall i :: |staged| <= i < |rows| ==> rows[i].kind == Gone && rows[i].key in unstaged && rows[i].key !in left)
    && (forall i, j :: |staged| <= i < j < |rows| ==> rows[i].key != rows[j].key)
    && (forall k :: k in unstaged && k !in left ==> LastOf(ClassesFor(rows, k)) == Some(Gone))
    && (forall k :: k !in unstaged || k in left ==> ClassesFor(rows, k) == ClassesFor(classified, k))
  }

  lemma DrainStart(staged: seq<Keyed>, unstaged: map<Key, Signal>, classified: seq<Classified>)
    requires |classified| == |staged|
    ensures Drained(classified, staged, unstaged, unstaged, classified)
  {
  }

  lemma DrainOne(rows: seq<Classified>, staged: seq<Keyed>, unstaged: map<Key, Signal>, left: map<Key, Signal>,
                 classified: seq<Classified>, k: Key)
    requires Drained(rows, staged, unstaged, left, classified) && k in left
    ensures Drained(rows + [Classified(k, Gone)], staged, unstaged, left - {k}, classified)
  {
    hide ClassesFor;
    forall k' {
      ClassesSnoc(rows, Classified(k, Gone), k');
    }
  }

  lemma DrainedPlans(rows: seq<Classified>, current: seq<Keyed>, staged: seq<Keyed>, unstaged: map<Key, Signal>,
                     classified: seq<Classified>)
    requires Drained(rows, staged, unstaged, map[], classified)
    requires Leftover(unstaged, current, staged) && Classifies(classified, current, staged)
    requires forall j :: 0 <= j < |staged| ==>
               classified[j] == Classified(staged[j].key, OccurrenceClass(current, staged[..j], staged[j]))
    ensures Plans(rows, current, staged)
  {
    forall k
      ensures LastOf(ClassesFor(rows, k)) == ClassOf(SignalsFor(current, k), SignalsFor(staged, k))
    {
      if k !in unstaged {
        assert ClassesFor(rows, k) == ClassesFor(classified, k);
      }
    }
  }

  /** What is left of the map is gone from the source; a hash map hands it out in any order. */
  method DrainGone(unstaged: map<Key, Signal>, classified: seq<Classified>, counted: Stats,
                   ghost current: seq<Keyed>, ghost staged: seq<Keyed>, deletes: HardDeletes)
    returns (rows: seq<Classified>, stats: Stats)
    requires |classified| == |staged| && counted == StatsOf(classified, deletes)
    requires forall j :: 0 <= j < |staged| ==>
               classified[j] == Classified(staged[j].key, OccurrenceClass(current, staged[..j], staged[j]))
    requires Leftover(unstaged, current, staged) && Classifies(classified, current, staged)
    ensures Plans(rows, current, staged)
    ensures stats == StatsOf(rows, deletes)
  {
    hide *;
    var left := unstaged;
    rows, stats := classified, counted;
    DrainStart(staged, unstaged, classified);
    while left.Keys != {}
      invariant Drained(rows, staged, unstaged, left, classified) && stats == StatsOf(rows, deletes)
      decreases |left.Keys|
    {
      var k :| k in left.Keys;
      DrainOne(rows, staged, unstaged, left, classified, k);
      StatsSnoc(rows, Classified(k, Gone), deletes);
      stats := stats.(gone := stats.gone + 1);
      match deletes {
        case Ignore =>
        case Invalidate => stats := stats.(invalidated := stats.invalidated + 1);
        case Delete => stats := stats.(physical := stats.physical + 1);
      }
      rows := rows + [Classified(k, Gone)];
      left := left - {k};
    }
    assert left == map[];
    DrainedPlans(rows, current, staged, unstaged, classified);
  }
}

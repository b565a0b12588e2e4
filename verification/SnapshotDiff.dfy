/** The diff preview: the planner's classification again, with counters and a bounded sample. */
module SnapshotDiff {
  import opened Lists
  import opened Snapshot
  import opened SnapshotPlan

  datatype Summary = Summary(unaltered: nat, changed: nat, newVersions: nat, gone: nat, sample: seq<Classified>)

  function ReportedFn(): Classified -> Option<Classified> {
    (x: Classified) => if x.kind == Unchanged then None else Some(x)
  }

  function FirstOf<T>(s: seq<T>, limit: nat): seq<T> {
    if limit < |s| then s[..limit] else s
  }

  /** The counts of a plan, and its first `limit` rows that are not unchanged. */
  function SummaryOf(rows: seq<Classified>, limit: nat): Summary {
    var stats := StatsOf(rows, Ignore);
    Summary(stats.unaltered, stats.changed, stats.newVersions, stats.gone, FirstOf(FilterMap(rows, ReportedFn()), limit))
  }

  function PushSample(sample: seq<Classified>, row: Classified, limit: nat): seq<Classified> {
    if |sample| < limit then sample + [row] else sample
  }

  lemma SummarySnoc(rows: seq<Classified>, row: Classified, limit: nat)
    ensures
      var s := SummaryOf(rows, limit);
      SummaryOf(rows + [row], limit) ==
      match row.kind
      case Unchanged => s.(unaltered := s.unaltered + 1)
      case Changed => s.(changed := s.changed + 1, sample := PushSample(s.sample, row, limit))
      case New => s.(newVersions := s.newVersions + 1, sample := PushSample(s.sample, row, limit))
      case Gone => s.(gone := s.gone + 1, sample := PushSample(s.sample, row, limit))
  {
    StatsSnoc(rows, row, Ignore);
    FilterMapSnoc(rows, row, ReportedFn());
    hide StatsOf, FilterMap;
    var seen := FilterMap(rows, ReportedFn());
    assert row.kind == Unchanged ==> seen + [] == seen;
    assert row.kind != Unchanged ==> FirstOf(seen + [row], limit) == PushSample(FirstOf(seen, limit), row, limit);
  }

  /** The counters are those of the classes, and the sample is the first `limit` of the rows that are not
      unchanged. */
  lemma SummarySays(rows: seq<Classified>, limit: nat)
    ensures
      var s, reported := SummaryOf(rows, limit), FilterMap(rows, ReportedFn());
      && s.unaltered == |set i | 0 <= i < |rows| && rows[i].kind == Unchanged|
      && s.changed == |set i | 0 <= i < |rows| && rows[i].kind == Changed|
      && s.newVersions == |set i | 0 <= i < |rows| && rows[i].kind == New|
      && s.gone == |set i | 0 <= i < |rows| && rows[i].kind == Gone|
      && s.sample <= reported && |s.sample| <= limit && (|s.sample| == limit || s.sample == reported)
      && forall x :: x in reported <==> x in rows && x.kind != Unchanged
  {
    StatsCount(rows, Ignore);
    forall x
      ensures x in FilterMap(rows, ReportedFn()) <==> x in rows && x.kind != Unchanged
    {
      FilterMapMember(rows, ReportedFn(), x);
      hide FilterMap;
    }
    hide FilterMap, StatsOf;
  }

  lemma SummaryStart(limit: nat)
    ensures SummaryOf([], limit) == Summary(0, 0, 0, 0, [])
  {
  }

  /** The loop over what no staged row used up. */
  method ReportGone(unstaged: map<Key, Signal>, counted: Summary, ghost classified: seq<Classified>, limit: nat,
                    ghost current: seq<Keyed>, ghost staged: seq<Keyed>)
    returns (s: Summary)
    requires |classified| == |staged| && counted == SummaryOf(classified, limit)
    requires forall j :: 0 <= j < |staged| ==>
               classified[j] == Classified(staged[j].key, OccurrenceClass(current, staged[..j], staged[j]))
    requires Leftover(unstaged, current, staged) && Classifies(classified, current, staged)
    ensures exists rows :: Plans(rows, current, staged) && s == SummaryOf(rows, limit)
  {
    hide *;
    var left := unstaged;
    s := counted;
    ghost var rows := classified;
    DrainStart(staged, unstaged, classified);
    while left.Keys != {}
      invariant Drained(rows, staged, unstaged, left, classified) && s == SummaryOf(rows, limit)
      decreases |left.Keys|
    {
      var k :| k in left.Keys;
      DrainOne(rows, staged, unstaged, left, classified, k);
      SummarySnoc(rows, Classified(k, Gone), limit);
      s := s.(gone := s.gone + 1, sample := PushSample(s.sample, Classified(k, Gone), limit));
      rows := rows + [Classified(k, Gone)];
      left := left - {k};
    }
    assert left == map[];
    DrainedPlans(rows, current, staged, unstaged, classified);
  }

  /** `byKey` is the map of current signals, however it was listed. The preview counts and samples a
      classification the planner could have produced for the same rows. */
  method ClassifyDiff(staged: seq<Keyed>, byKey: map<Key, Signal>, limit: nat, ghost current: seq<Keyed>)
    returns (s: Summary)
    requires Leftover(byKey, current, [])
    ensures exists rows :: Plans(rows, current, staged) && s == SummaryOf(rows, limit)
  {
    hide *;
    s := Summary(0, 0, 0, 0, []);
    ghost var rows: seq<Classified> := [];
    SummaryStart(limit);
    PlanStart(current, Ignore);
    var left := byKey;
    for i := 0 to |staged|
      invariant |rows| == i && s == SummaryOf(rows, limit)
      invariant forall j :: 0 <= j < i ==>
                  rows[j] == Classified(staged[j].key, OccurrenceClass(current, staged[..j], staged[j]))
      invariant Leftover(left, current, staged[..i])
      invariant Classifies(rows, current, staged[..i])
    {
      var x := staged[i];
      assert staged[..i + 1] == staged[..i] + [x];
      LeftoverOne(left, current, staged[..i], x);
      ClassifiesOne(rows, current, staged[..i], x);
      ghost var row := Classified(x.key, OccurrenceClass(current, staged[..i], x));
      SummarySnoc(rows, row, limit);
      if x.key !in left {
        s := s.(newVersions := s.newVersions + 1, sample := PushSample(s.sample, Classified(x.key, New), limit));
      } else if left[x.key] == x.signal {
        s := s.(unaltered := s.unaltered + 1);
      } else {
        s := s.(changed := s.changed + 1, sample := PushSample(s.sample, Classified(x.key, Changed), limit));
      }
      left := left - {x.key};
      rows := rows + [row];
    }
    assert staged[..|staged|] == staged;
    s := ReportGone(left, s, rows, limit, current, staged);
  }
}

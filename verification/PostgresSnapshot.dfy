/** The Postgres sink: stage, diff, close by surrogate id, insert, optionally hard-delete. Each
    statement is modelled by its relational meaning. */
module PostgresSnapshot {
  import opened Lists
  import opened Snapshot
  import opened SnapshotHistory

  // ---- The statements ----

  function MatchFn(k: Key): Version -> Option<Version> {
    (v: Version) => if v.isCurrent && v.row.key == k then Some(v) else None
  }

  /** The current target rows a stage row joins with. */
  function Matches(target: seq<Version>, k: Key): seq<Version> {
    FilterMap(target, MatchFn(k))
  }

  predicate Distinct(mode: ChangeDetection, v: Version, s: Row) {
    PostgresSignal(mode, v.row) != PostgresSignal(mode, s)
  }

  function ChangedJoinFn(mode: ChangeDetection, v: Version): Row -> Option<ScdId> {
    (s: Row) => if s.key == v.row.key && Distinct(mode, v, s) then Some(v.id) else None
  }

  /** `changed_ids`: ids of current rows joined with a stage row that differs. */
  function ChangedIds(mode: ChangeDetection, target: seq<Version>, stage: seq<Row>): seq<ScdId> {
    if target == [] then []
    else
      var v := target[|target| - 1];
      ChangedIds(mode, target[..|target| - 1], stage)
      + if v.isCurrent then FilterMap(stage, ChangedJoinFn(mode, v)) else []
  }

  function WithKeyFn(k: Key): Row -> Option<Row> {
    (s: Row) => if s.key == k then Some(s) else None
  }

  function GoneFn(stage: seq<Row>): Version -> Option<ScdId> {
    (v: Version) => if v.isCurrent && FilterMap(stage, WithKeyFn(v.row.key)) == [] then Some(v.id) else None
  }

  /** `gone_ids`: ids of current rows without a stage row. */
  function GoneIds(target: seq<Version>, stage: seq<Row>): seq<ScdId> {
    FilterMap(target, GoneFn(stage))
  }

  function UnmatchedFn(target: seq<Version>): Row -> Option<Row> {
    (s: Row) => if Matches(target, s.key) == [] then Some(s) else None
  }

  /** `new_count`: stage rows without a current row. */
  function NewCount(target: seq<Version>, stage: seq<Row>): nat {
    |FilterMap(stage, UnmatchedFn(target))|
  }

  function CloseFn(ids: seq<ScdId>, now: int): Version -> Option<Version> {
    (v: Version) => Some(if v.id in ids then Close(v, now) else v)
  }

  /** `UPDATE target SET valid_to = now, is_current = false WHERE scd_id = ANY(ids)`. */
  function Closed(target: seq<Version>, ids: seq<ScdId>, now: int): seq<Version> {
    FilterMap(target, CloseFn(ids, now))
  }

  function DiffersFn(mode: ChangeDetection, s: Row): Version -> Option<Row> {
    (t: Version) => if Distinct(mode, t, s) then Some(s) else None
  }

  /** The stage rows the insert's left join lets through: once when unmatched, otherwise once
      per current row they differ from. */
  function InsertFilter(mode: ChangeDetection, target: seq<Version>, stage: seq<Row>): seq<Row> {
    if stage == [] then []
    else
      var s := stage[|stage| - 1];
      var matches := Matches(target, s.key);
      InsertFilter(mode, target, stage[..|stage| - 1])
      + if matches == [] then [s] else FilterMap(matches, DiffersFn(mode, s))
  }

  function OpenAllFn(mode: ChangeDetection, now: int): Row -> Option<Version> {
    (s: Row) => Some(Open(PostgresSink(mode), s, now))
  }

  function Inserted(mode: ChangeDetection, target: seq<Version>, stage: seq<Row>, now: int): seq<Version> {
    FilterMap(InsertFilter(mode, target, stage), OpenAllFn(mode, now))
  }

  function KeyOfIdFn(ids: seq<ScdId>): Version -> Option<Key> {
    (v: Version) => if v.id in ids then Some(v.row.key) else None
  }

  function NotKeyedFn(keys: seq<Key>): Version -> Option<Version> {
    (v: Version) => if v.row.key in keys then None else Some(v)
  }

  /** Read back the keys behind the gone ids, then delete every version of those keys. */
  function HardDeleted(target: seq<Version>, goneIds: seq<ScdId>): seq<Version> {
    FilterMap(target, NotKeyedFn(FilterMap(target, KeyOfIdFn(goneIds))))
  }

  function ToClose(mode: ChangeDetection, target: seq<Version>, stage: seq<Row>, deletes: HardDeletes): seq<ScdId> {
    ChangedIds(mode, target, stage) + if deletes == Invalidate then GoneIds(target, stage) else []
  }

  function AfterClose(mode: ChangeDetection, target: seq<Version>, run: Run): seq<Version> {
    var ids := ToClose(mode, target, run.staged, run.deletes);
    if ids == [] then target else Closed(target, ids, run.now)
  }

  function AfterInsert(mode: ChangeDetection, target: seq<Version>, run: Run): seq<Version> {
    var closed := AfterClose(mode, target, run);
    if |ChangedIds(mode, target, run.staged)| + NewCount(target, run.staged) > 0
    then closed + Inserted(mode, closed, run.staged, run.now)
    else closed
  }

  /** The target after the whole transaction. */
  function Merged(mode: ChangeDetection, target: seq<Version>, run: Run): seq<Version> {
    var inserted, gone := AfterInsert(mode, target, run), GoneIds(target, run.staged);
    if run.deletes == Delete && gone != [] then HardDeleted(inserted, gone) else inserted
  }

  /** `Merged` one statement at a time. */
  lemma MergeSteps(mode: ChangeDetection, target: seq<Version>, run: Run)
    ensures
      var changed, gone := ChangedIds(mode, target, run.staged), GoneIds(target, run.staged);
      var ids := if run.deletes == Invalidate then changed + gone else changed;
      var t1 := if ids == [] then target else Closed(target, ids, run.now);
      var t2 := if |changed| + NewCount(target, run.staged) > 0
                then t1 + Inserted(mode, t1, run.staged, run.now) else t1;
      Merged(mode, target, run) == if run.deletes == Delete && gone != [] then HardDeleted(t2, gone) else t2
  {
    hide ChangedIds, GoneIds, NewCount, Closed, Inserted, HardDeleted;
    var changed := ChangedIds(mode, target, run.staged);
    assert changed + [] == changed;
  }

  /** The target after a write of these batches: without any the sink returns early. */
  function Written(mode: ChangeDetection, target: seq<Version>, data: seq<seq<Row>>, deletes: HardDeletes, now: int): seq<Version> {
    if data == [] then target else Merged(mode, target, Run(Flatten(data), deletes, now))
  }

  lemma WrittenSome(mode: ChangeDetection, target: seq<Version>, data: seq<seq<Row>>, deletes: HardDeletes, now: int)
    requires data != []
    ensures Written(mode, target, data, deletes, now) == Merged(mode, target, Run(Flatten(data), deletes, now))
  {
  }

  // ---- The transaction ----

  class SnapshotSink {
    var target: seq<Version>
    var stage: seq<Row>

    constructor ()
      ensures target == [] && stage == []
    {
      target, stage := [], [];
    }

    /** Fills the temp table row by row, in batches of `batchSize`. */
    method StageRows(data: seq<seq<Row>>, batchSize: nat) returns (total: nat)
      requires batchSize > 0
      modifies this`stage
      ensures stage == Flatten(data) && total == |stage|
    {
      stage, total := [], 0;
      for b := 0 to |data|
        invariant stage == Flatten(data[..b]) && total == |stage|
      {
        var batch, chunkStart := data[b], 0;
        ghost var before := stage;
        while chunkStart < |batch|
          invariant chunkStart <= |batch| + batchSize
          invariant stage == before + batch[..if chunkStart < |batch| then chunkStart else |batch|]
          invariant total == |stage|
        {
          var chunkEnd := if chunkStart + batchSize < |batch| then chunkStart + batchSize else |batch|;
          for row := chunkStart to chunkEnd
            invariant stage == before + batch[..row] && total == |stage|
          {
            stage := stage + [batch[row]];
            total := total + 1;
          }
          chunkStart := chunkStart + batchSize;
        }
        assert batch[..|batch|] == batch;
        FlattenSnoc(data, b);
      }
      assert data[..|data|] == data;
    }

    method CloseVersions(now: int, ids: seq<ScdId>)
      modifies this`target
      ensures target == Closed(old(target), ids, now)
    {
      target := Closed(target, ids, now);
    }

    method InsertNewVersions(mode: ChangeDetection, now: int)
      modifies this`target
      ensures target == old(target) + Inserted(mode, old(target), stage, now)
    {
      target := target + Inserted(mode, target, stage, now);
    }

    method HardDelete(goneIds: seq<ScdId>)
      modifies this`target
      ensures target == HardDeleted(old(target), goneIds)
    {
      target := HardDeleted(target, goneIds);
    }

    /** One snapshot write. No batches at all is a no-op, even when deletes are not ignored. */
    method Write(data: seq<seq<Row>>, mode: ChangeDetection, deletes: HardDeletes, now: int, batchSize: nat)
      returns (staged: nat, changed: nat, added: nat, gone: nat)
      requires batchSize > 0
      modifies this
      ensures target == Written(mode, old(target), data, deletes, now)
      ensures data == [] ==> staged == changed == added == gone == 0
      ensures data != [] ==>
                var run := Run(Flatten(data), deletes, now);
                && staged == |run.staged|
                && changed == |ChangedIds(mode, old(target), run.staged)|
                && added == NewCount(old(target), run.staged)
                && gone == |GoneIds(old(target), run.staged)|
    {
      if data == [] {
        return 0, 0, 0, 0;
      }
      hide *;
      WrittenSome(mode, target, data, deletes, now);
      MergeSteps(mode, target, Run(Flatten(data), deletes, now));
      staged := StageRows(data, batchSize);
      var changedIds, goneIds := ChangedIds(mode, target, stage), GoneIds(target, stage);
      changed, added, gone := |changedIds|, NewCount(target, stage), |goneIds|;
      var toClose := changedIds;
      if deletes == Invalidate {
        toClose := toClose + goneIds;
      }
      if toClose != [] {
        CloseVersions(now, toClose);
      }
      if changed + added > 0 {
        InsertNewVersions(mode, now);
      }
      if deletes == Delete && goneIds != [] {
        HardDelete(goneIds);
      }
    }
  }
}

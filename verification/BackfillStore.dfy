/** The persisted records of a backfill and the store's statements on them. */
module BackfillStore {
  import opened Lists

  datatype IterationStatus = Pending | Running | Succeeded | Failed | Skipped

  datatype BackfillStatus = NotStarted | InProgress | Completed | Cancelled | Aborted

  datatype Iteration = Iteration(key: string, status: IterationStatus, runId: Option<string>, error: Option<string>,
                                 startedAt: Option<string>, completedAt: Option<string>)

  datatype Backfill = Backfill(concurrency: nat, failFast: bool, status: BackfillStatus,
                               startedAt: Option<string>, completedAt: Option<string>)

  datatype Progress = Progress(total: nat, succeeded: nat, failed: nat, running: nat, pending: nat, skipped: nat)

  /** `COALESCE(new, old)`. */
  function Coalesce(given: Option<string>, stored: Option<string>): Option<string> {
    if given.Some? then given else stored
  }

  /** One `UPDATE backfill_iterations`: the error is replaced, the other columns only overwritten. */
  function Updated(row: Iteration, status: IterationStatus, runId: Option<string>, error: Option<string>,
                   startedAt: Option<string>, completedAt: Option<string>): Iteration {
    Iteration(row.key, status, Coalesce(runId, row.runId), error,
              Coalesce(startedAt, row.startedAt), Coalesce(completedAt, row.completedAt))
  }

  type Rows = map<nat, Iteration>

  function WithStatus(rows: Rows, s: IterationStatus): set<nat> {
    set i | i in rows && rows[i].status == s
  }

  function CountStatus(rows: Rows, s: IterationStatus): nat {
    |WithStatus(rows, s)|
  }

  function ProgressOf(rows: Rows): Progress {
    Progress(|rows|, CountStatus(rows, Succeeded), CountStatus(rows, Failed), CountStatus(rows, Running),
             CountStatus(rows, Pending), CountStatus(rows, Skipped))
  }

  lemma CountIs(rows: Rows)
    ensures CountStatus(rows, Succeeded) == |set n | n in rows && rows[n].status == Succeeded|
    ensures CountStatus(rows, Failed) == |set n | n in rows && rows[n].status == Failed|
    ensures CountStatus(rows, Running) == |set n | n in rows && rows[n].status == Running|
    ensures CountStatus(rows, Pending) == |set n | n in rows && rows[n].status == Pending|
    ensures CountStatus(rows, Skipped) == |set n | n in rows && rows[n].status == Skipped|
  {
    assert WithStatus(rows, Succeeded) == set n | n in rows && rows[n].status == Succeeded;
    assert WithStatus(rows, Failed) == set n | n in rows && rows[n].status == Failed;
    assert WithStatus(rows, Running) == set n | n in rows && rows[n].status == Running;
    assert WithStatus(rows, Pending) == set n | n in rows && rows[n].status == Pending;
    assert WithStatus(rows, Skipped) == set n | n in rows && rows[n].status == Skipped;
  }

  /** The buckets always sum to the number of iterations. */
  lemma BucketsSum(rows: Rows)
    ensures
      var p := ProgressOf(rows);
      p.succeeded + p.failed + p.running + p.pending + p.skipped == p.total
  {
    var a, b := WithStatus(rows, Succeeded), WithStatus(rows, Failed);
    var c, d, e := WithStatus(rows, Running), WithStatus(rows, Pending), WithStatus(rows, Skipped);
    hide WithStatus;
    BucketsCover(rows);
    DisjointUnion(rows, a + b + c + d, e, a + b + c, d, a + b, c, a, b);
    assert |rows| == |rows.Keys|;
  }

  lemma BucketsCover(rows: Rows)
    ensures WithStatus(rows, Succeeded) + WithStatus(rows, Failed) + WithStatus(rows, Running)
            + WithStatus(rows, Pending) + WithStatus(rows, Skipped) == rows.Keys
  {
    forall i | i in rows
      ensures i in WithStatus(rows, rows[i].status)
    {
    }
  }

  lemma StatusesApart(rows: Rows)
    ensures forall s: IterationStatus, t: IterationStatus :: s != t ==> WithStatus(rows, s) !! WithStatus(rows, t)
  {
  }

  lemma DisjointUnion(rows: Rows, abcd: set<nat>, e: set<nat>, abc: set<nat>, d: set<nat>, ab: set<nat>, c: set<nat>,
                      a: set<nat>, b: set<nat>)
    requires a == WithStatus(rows, Succeeded) && b == WithStatus(rows, Failed) && c == WithStatus(rows, Running)
    requires d == WithStatus(rows, Pending) && e == WithStatus(rows, Skipped)
    requires ab == a + b && abc == ab + c && abcd == abc + d
    ensures |abcd + e| == |a| + |b| + |c| + |d| + |e|
  {
    StatusesApart(rows);
    hide WithStatus;
    assert |ab| == |a| + |b| by { assert a !! b; }
    assert |abc| == |ab| + |c| by { assert ab !! c; }
    assert |abcd| == |abc| + |d| by { assert abc !! d; }
    assert abcd !! e;
  }

  /** A bucket is empty exactly when no row has that status. */
  lemma BucketEmpty(rows: Rows, s: IterationStatus)
    ensures CountStatus(rows, s) == 0 <==> forall i :: i in rows ==> rows[i].status != s
  {
    var members := WithStatus(rows, s);
    if i :| i in rows && rows[i].status == s {
      assert i in members;
    } else {
      assert members == {};
    }
  }

  /** The rows `GROUP BY status` returns: each status that occurs, once, in any order. */
  predicate Groups(rows: Rows, groups: seq<(IterationStatus, nat)>) {
    && (forall g :: 0 <= g < |groups| ==> groups[g].1 == CountStatus(rows, groups[g].0) && groups[g].1 > 0)
    && (forall g, h :: 0 <= g < h < |groups| ==> groups[g].0 != groups[h].0)
    && (forall s: IterationStatus :: CountStatus(rows, s) > 0 ==> exists g :: 0 <= g < |groups| && groups[g].0 == s)
  }

  const STATUSES := [Succeeded, Failed, Running, Pending, Skipped]

  /** The groups of the listed statuses. */
  ghost predicate GroupsOf(rows: Rows, groups: seq<(IterationStatus, nat)>, seen: seq<IterationStatus>) {
    && (forall g :: 0 <= g < |groups| ==>
          groups[g].0 in seen && groups[g].1 == CountStatus(rows, groups[g].0) && groups[g].1 > 0)
    && (forall g, h :: 0 <= g < h < |groups| ==> groups[g].0 != groups[h].0)
    && (forall s: IterationStatus :: s in seen && CountStatus(rows, s) > 0 ==> exists g :: 0 <= g < |groups| && groups[g].0 == s)
  }

  lemma NoGroups(rows: Rows)
    ensures GroupsOf(rows, [], STATUSES[..0])
  {
  }

  lemma AddGroup(rows: Rows, groups: seq<(IterationStatus, nat)>, seen: seq<IterationStatus>, s: IterationStatus)
    requires GroupsOf(rows, groups, seen) && s !in seen
    ensures GroupsOf(rows, if CountStatus(rows, s) > 0 then groups + [(s, CountStatus(rows, s))] else groups, seen + [s])
  {
    hide CountStatus;
    if CountStatus(rows, s) > 0 {
      var more := groups + [(s, CountStatus(rows, s))];
      assert forall g :: 0 <= g < |groups| ==> more[g] == groups[g];
      assert more[|groups|].0 == s;
    }
  }

  lemma AllGroups(rows: Rows, groups: seq<(IterationStatus, nat)>)
    requires GroupsOf(rows, groups, STATUSES)
    ensures Groups(rows, groups)
  {
    hide CountStatus;
    forall s: IterationStatus
      ensures s in STATUSES
    {
      match s {
        case Succeeded => assert STATUSES[0] == s;
        case Failed => assert STATUSES[1] == s;
        case Running => assert STATUSES[2] == s;
        case Pending => assert STATUSES[3] == s;
        case Skipped => assert STATUSES[4] == s;
      }
    }
  }

  lemma NextStatus(g: nat)
    requires g < |STATUSES|
    ensures STATUSES[..g + 1] == STATUSES[..g] + [STATUSES[g]] && STATUSES[g] !in STATUSES[..g]
  {
  }

  method GroupByStatus(rows: Rows) returns (groups: seq<(IterationStatus, nat)>)
    ensures Groups(rows, groups)
  {
    hide *;
    groups := [];
    NoGroups(rows);
    for g := 0 to |STATUSES|
      invariant GroupsOf(rows, groups, STATUSES[..g])
    {
      NextStatus(g);
      AddGroup(rows, groups, STATUSES[..g], STATUSES[g]);
      var count := CountStatus(rows, STATUSES[g]);
      if count > 0 {
        groups := groups + [(STATUSES[g], count)];
      }
    }
    assert STATUSES[..|STATUSES|] == STATUSES;
    AllGroups(rows, groups);
  }

  /** The progress accumulated over `groups`: seen buckets hold their count, the others zero. */
  ghost predicate Accumulated(progress: Progress, rows: Rows, groups: seq<(IterationStatus, nat)>) {
    && progress.total == progress.succeeded + progress.failed + progress.running + progress.pending + progress.skipped
    && forall s: IterationStatus ::
         Bucket(progress, s) == if exists h :: 0 <= h < |groups| && groups[h].0 == s then CountStatus(rows, s) else 0
  }

  lemma AccumulateOne(progress: Progress, rows: Rows, groups: seq<(IterationStatus, nat)>, g: nat)
    requires Groups(rows, groups) && g < |groups| && Accumulated(progress, rows, groups[..g])
    ensures Accumulated(WithBucket(progress.(total := progress.total + groups[g].1), groups[g].0, groups[g].1),
                        rows, groups[..g + 1])
  {
    hide CountStatus;
    var (status, count) := groups[g];
    var seen := groups[..g + 1];
    assert seen == groups[..g] + [groups[g]];
    assert Bucket(progress, status) == 0;
    var after := WithBucket(progress.(total := progress.total + count), status, count);
    forall s: IterationStatus
      ensures Bucket(after, s) ==
              if exists h :: 0 <= h < |seen| && seen[h].0 == s then CountStatus(rows, s) else 0
    {
      if s == status {
        assert seen[g].0 == s;
      } else {
        assert Bucket(after, s) == Bucket(progress, s);
        assert forall h :: 0 <= h < g ==> seen[h] == groups[..g][h];
      }
    }
  }

  lemma AccumulatedAll(progress: Progress, rows: Rows, groups: seq<(IterationStatus, nat)>)
    requires Groups(rows, groups) && Accumulated(progress, rows, groups)
    ensures progress == ProgressOf(rows)
  {
    hide CountStatus;
    BucketsSum(rows);
    forall s: IterationStatus
      ensures Bucket(progress, s) == CountStatus(rows, s)
    {
    }
    assert Bucket(progress, Succeeded) == progress.succeeded && Bucket(progress, Failed) == progress.failed;
    assert Bucket(progress, Running) == progress.running && Bucket(progress, Pending) == progress.pending;
    assert Bucket(progress, Skipped) == progress.skipped;
  }

  /** The accumulating loop of `get_progress` over the grouped rows. */
  method AccumulateProgress(ghost rows: Rows, groups: seq<(IterationStatus, nat)>) returns (progress: Progress)
    requires Groups(rows, groups)
    ensures progress == ProgressOf(rows)
  {
    progress := Progress(0, 0, 0, 0, 0, 0);
    assert Accumulated(progress, rows, groups[..0]);
    hide *;
    for g := 0 to |groups|
      invariant Accumulated(progress, rows, groups[..g])
    {
      AccumulateOne(progress, rows, groups, g);
      progress := WithBucket(progress.(total := progress.total + groups[g].1), groups[g].0, groups[g].1);
    }
    assert groups[..|groups|] == groups;
    AccumulatedAll(progress, rows, groups);
  }

  function WithBucket(p: Progress, s: IterationStatus, count: nat): Progress {
    match s
    case Succeeded => p.(succeeded := count)
    case Failed => p.(failed := count)
    case Running => p.(running := count)
    case Pending => p.(pending := count)
    case Skipped => p.(skipped := count)
  }

  function Bucket(p: Progress, s: IterationStatus): nat {
    match s
    case Succeeded => p.succeeded
    case Failed => p.failed
    case Running => p.running
    case Pending => p.pending
    case Skipped => p.skipped
  }

  /** An iteration as `list_iterations` and `create_iterations` pass it: its index and its record. */
  datatype Indexed = Indexed(index: nat, row: Iteration)

  function Inserted(rows: Rows, items: seq<Indexed>): Rows {
    if items == [] then rows
    else
      var last := items[|items| - 1];
      Inserted(rows, items[..|items| - 1])[last.index := last.row]
  }

  predicate NewIndices(rows: Rows, items: seq<Indexed>) {
    && (forall i :: 0 <= i < |items| ==> items[i].index !in rows)
    && (forall i, j :: 0 <= i < j < |items| ==> items[i].index != items[j].index)
  }

  /** The old rows and the items under their indices, and nothing else. */
  ghost predicate Stored(before: Rows, items: seq<Indexed>, after: Rows) {
    && (forall n :: n in before ==> n in after && after[n] == before[n])
    && (forall i :: 0 <= i < |items| ==> items[i].index in after && after[items[i].index] == items[i].row)
    && (forall n :: n in after ==> n in before || exists i :: 0 <= i < |items| && items[i].index == n)
  }

  lemma StoredOneMore(before: Rows, items: seq<Indexed>, after: Rows, x: Indexed)
    requires Stored(before, items, after) && x.index !in after
    ensures Stored(before, items + [x], after[x.index := x.row])
  {
    var more, next := items + [x], after[x.index := x.row];
    assert more[|items|] == x && forall i :: 0 <= i < |items| ==> more[i] == items[i];
    forall n | n in next && n !in before
      ensures exists i :: 0 <= i < |more| && more[i].index == n
    {
      if n == x.index {
        assert more[|items|].index == n;
      } else {
        var i :| 0 <= i < |items| && items[i].index == n;
        assert more[i].index == n;
      }
    }
  }

  lemma {:induction false} InsertedStores(rows: Rows, items: seq<Indexed>)
    requires NewIndices(rows, items)
    ensures Stored(rows, items, Inserted(rows, items))
  {
    hide Stored;
    if items == [] {
      NothingStored(rows);
    } else {
      var k := |items| - 1;
      assert forall i :: 0 <= i < k ==> items[..k][i] == items[i];
      InsertedStores(rows, items[..k]);
      InsertedKeys(rows, items[..k], items[k].index);
      assert items == items[..k] + [items[k]];
      StoredOneMore(rows, items[..k], Inserted(rows, items[..k]), items[k]);
    }
  }

  lemma NothingStored(rows: Rows)
    ensures Stored(rows, [], rows)
  {
  }

  lemma InsertedNone(rows: Rows)
    ensures Inserted(rows, []) == rows
  {
  }

  lemma {:induction false} InsertedKeys(rows: Rows, items: seq<Indexed>, n: nat)
    ensures n in Inserted(rows, items) <==> n in rows || exists i :: 0 <= i < |items| && items[i].index == n
  {
    if items != [] {
      var init := items[..|items| - 1];
      InsertedKeys(rows, init, n);
      assert forall i :: 0 <= i < |init| ==> items[i] == init[i];
      if n == items[|items| - 1].index {
        assert items[|items| - 1].index == n;
      } else if i :| 0 <= i < |items| && items[i].index == n {
        assert init[i].index == n;
      }
    }
  }

  /** Inserting one more item: when its index is new, and what is stored then. */
  lemma InsertedOne(rows: Rows, items: seq<Indexed>, i: nat)
    requires i < |items| && NewIndices(rows, items[..i])
    ensures items[i].index !in Inserted(rows, items[..i]) ==>
              Inserted(rows, items[..i + 1]) == Inserted(rows, items[..i])[items[i].index := items[i].row]
    ensures items[i].index !in Inserted(rows, items[..i]) ==> NewIndices(rows, items[..i + 1])
    ensures items[i].index in Inserted(rows, items[..i]) ==> !NewIndices(rows, items)
  {
    assert items[..i + 1][..i] == items[..i];
    InsertedKeys(rows, items[..i], items[i].index);
    hide Inserted;
    if items[i].index in Inserted(rows, items[..i]) && items[i].index !in rows {
      var j :| 0 <= j < i && items[..i][j].index == items[i].index;
      assert items[j].index == items[i].index;
    } else {
      assert forall j :: 0 <= j < i ==> items[..i + 1][j] == items[..i][j];
    }
  }

  /** The listing of `rows` by ascending index. */
  ghost predicate ListingOf(list: seq<Indexed>, rows: Rows) {
    && (forall i, j :: 0 <= i < j < |list| ==> list[i].index < list[j].index)
    && (forall i :: 0 <= i < |list| ==> list[i].index in rows && rows[list[i].index] == list[i].row)
    && (forall n :: n in rows ==> exists i :: 0 <= i < |list| && list[i].index == n)
  }

  /** The rows outside `left` are listed, and all of them come before those in `left`. */
  ghost predicate ListedBut(list: seq<Indexed>, rows: Rows, left: set<nat>) {
    && (forall i, j :: 0 <= i < j < |list| ==> list[i].index < list[j].index)
    && (forall i :: 0 <= i < |list| ==> list[i].index in rows && rows[list[i].index] == list[i].row)
    && (forall i, n :: 0 <= i < |list| && n in left ==> list[i].index < n)
    && (forall n :: n in rows ==> n in left || exists i :: 0 <= i < |list| && list[i].index == n)
  }

  lemma NothingListed(rows: Rows)
    ensures ListedBut([], rows, rows.Keys)
  {
  }

  lemma OneListed(list: seq<Indexed>, rows: Rows, left: set<nat>, least: nat)
    requires ListedBut(list, rows, left) && least in left && least in rows && forall n :: n in left ==> least <= n
    ensures ListedBut(list + [Indexed(least, rows[least])], rows, left - {least})
  {
    var more := list + [Indexed(least, rows[least])];
    assert more[|list|].index == least;
    assert forall i :: 0 <= i < |list| ==> more[i] == list[i];
  }

  lemma AllListed(list: seq<Indexed>, rows: Rows)
    requires ListedBut(list, rows, {})
    ensures ListingOf(list, rows)
  {
  }

  class Store {
    var backfill: Option<Backfill>
    var rows: Rows

    constructor ()
      ensures backfill == None && rows == map[]
    {
      backfill, rows := None, map[];
    }

    /** Inserts one by one; a repeated index violates the primary key and stops the loop, leaving
        the rows before it in place. */
    method CreateIterations(items: seq<Indexed>) returns (ok: bool)
      modifies this`rows
      ensures ok <==> NewIndices(old(rows), items)
      ensures ok ==> rows == Inserted(old(rows), items) && Stored(old(rows), items, rows)
      ensures !ok ==> exists n :: 0 <= n < |items| && Stored(old(rows), items[..n], rows) && items[n].index in rows
    {
      hide Inserted;
      InsertedNone(rows);
      for i := 0 to |items|
        invariant rows == Inserted(old(rows), items[..i]) && NewIndices(old(rows), items[..i])
      {
        InsertedOne(old(rows), items, i);
        if items[i].index in rows {
          InsertedStores(old(rows), items[..i]);
          return false;
        }
        rows := rows[items[i].index := items[i].row];
      }
      assert items[..|items|] == items;
      InsertedStores(old(rows), items);
      ok := true;
    }

    /** A missing index updates no row. */
    method UpdateIteration(index: nat, status: IterationStatus, runId: Option<string>, error: Option<string>,
                           startedAt: Option<string>, completedAt: Option<string>)
      modifies this`rows
      ensures rows == if index in old(rows)
                      then old(rows)[index := Updated(old(rows)[index], status, runId, error, startedAt, completedAt)]
                      else old(rows)
      ensures rows.Keys == old(rows).Keys && forall n :: n in rows && n != index ==> rows[n] == old(rows)[n]
      ensures index in old(rows) ==>
                var before, after := old(rows)[index], rows[index];
                && after.key == before.key && after.status == status && after.error == error
                && after.runId == (if runId == None then before.runId else runId)
                && after.startedAt == (if startedAt == None then before.startedAt else startedAt)
                && after.completedAt == (if completedAt == None then before.completedAt else completedAt)
    {
      if index in rows {
        rows := rows[index := Updated(rows[index], status, runId, error, startedAt, completedAt)];
      }
    }

    method UpdateBackfillStatus(status: BackfillStatus, startedAt: Option<string>, completedAt: Option<string>)
      modifies this`backfill
      ensures old(backfill).None? ==> backfill == None
      ensures old(backfill).Some? ==>
                var before := old(backfill).value;
                backfill == Some(Backfill(before.concurrency, before.failFast, status,
                                          if startedAt == None then before.startedAt else startedAt,
                                          if completedAt == None then before.completedAt else completedAt))
    {
      if backfill.Some? {
        var b := backfill.value;
        backfill := Some(b.(status := status, startedAt := Coalesce(startedAt, b.startedAt),
                            completedAt := Coalesce(completedAt, b.completedAt)));
      }
    }

    method GetProgress() returns (progress: Progress)
      ensures progress == ProgressOf(rows)
      ensures progress.total == |rows|
      ensures progress.succeeded == |set n | n in rows && rows[n].status == Succeeded|
      ensures progress.failed == |set n | n in rows && rows[n].status == Failed|
      ensures progress.running == |set n | n in rows && rows[n].status == Running|
      ensures progress.pending == |set n | n in rows && rows[n].status == Pending|
      ensures progress.skipped == |set n | n in rows && rows[n].status == Skipped|
    {
      hide CountStatus, Groups;
      var groups := GroupByStatus(rows);
      progress := AccumulateProgress(rows, groups);
      CountIs(rows);
    }

    /** `SELECT ... ORDER BY iteration_index ASC`. */
    method ListIterations() returns (list: seq<Indexed>)
      ensures ListingOf(list, rows)
    {
      hide *;
      list := [];
      var left := rows.Keys;
      NothingListed(rows);
      while left != {}
        invariant left <= rows.Keys && ListedBut(list, rows, left)
        decreases |left|
      {
        var least := Least(left);
        OneListed(list, rows, left, least);
        list := list + [Indexed(least, rows[least])];
        left := left - {least};
      }
      AllListed(list, rows);
    }
  }

  method Least(s: set<nat>) returns (least: nat)
    requires s != {}
    ensures least in s && forall n :: n in s ==> least <= n
  {
    least :| least in s;
    var rest := s - {least};
    while rest != {}
      invariant rest <= s && least in s
      invariant forall n :: n in s && n !in rest ==> least <= n
      decreases |rest|
    {
      var n :| n in rest;
      if n < least {
        least := n;
      }
      rest := rest - {n};
    }
  }
}

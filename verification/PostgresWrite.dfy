/** The row-by-row Postgres strategies: append, upsert, truncate-insert and delete-insert, each inside
    one transaction that a failing statement rolls back. */
module PostgresWrite {
  import opened Lists

  datatype Cell = Null | Text(text: string)

  /** An incoming row: its unique-key columns and its other columns. */
  datatype Incoming = Incoming(key: seq<Cell>, rest: seq<Cell>)

  /** A stored row; `extra` holds the target's columns that incoming rows do not have. */
  datatype Row = Row(key: seq<Cell>, rest: seq<Cell>, extra: seq<Cell>)

  datatype Mode = Append | Upsert | TruncateInsert | DeleteInsert

  datatype Failure = NoUniqueConstraint | DuplicateKey

  datatype Receipt = Receipt(written: nat, inserted: nat, updated: nat, deleted: nat)

  datatype Outcome = Committed(receipt: Receipt) | RolledBack(failure: Failure)

  /** What is fixed about a target: whether the key columns carry a unique constraint, whether incoming
      rows have any other column, and how many columns only the target has. */
  datatype Shape = Shape(unique: bool, hasRest: bool, extras: nat)

  // ---- One statement ----

  /** SQL equality of key tuples: a null component equals nothing, itself included. */
  predicate Matches(a: seq<Cell>, b: seq<Cell>) {
    a == b && Null !in a
  }

  function Stored(shape: Shape, r: Incoming): Row {
    Row(r.key, r.rest, seq(shape.extras, i => Null))
  }

  function MatchFn(key: seq<Cell>): Row -> Option<Row> {
    (x: Row) => if Matches(x.key, key) then Some(x) else None
  }

  function OtherFn(key: seq<Cell>): Row -> Option<Row> {
    (x: Row) => if Matches(x.key, key) then None else Some(x)
  }

  function UpdateFn(shape: Shape, r: Incoming): Row -> Option<Row> {
    (x: Row) => Some(if Matches(x.key, r.key) && shape.hasRest then x.(rest := r.rest) else x)
  }

  /** `SELECT COUNT(*)` of the rows with this key. */
  function KeyCount(table: seq<Row>, key: seq<Cell>): nat {
    |FilterMap(table, MatchFn(key))|
  }

  /** `DELETE FROM t WHERE k1 = $1 AND ...` */
  function Deleted(table: seq<Row>, key: seq<Cell>): seq<Row> {
    FilterMap(table, OtherFn(key))
  }

  /** `INSERT ... ON CONFLICT (keys) DO UPDATE SET` the other columns, or `DO NOTHING` without any. */
  function Upserted(shape: Shape, table: seq<Row>, r: Incoming): seq<Row> {
    if KeyCount(table, r.key) > 0 then FilterMap(table, UpdateFn(shape, r)) else table + [Stored(shape, r)]
  }

  // ---- All rows ----

  function DeletedAll(table: seq<Row>, rs: seq<Incoming>): seq<Row> {
    if rs == [] then table else Deleted(DeletedAll(table, rs[..|rs| - 1]), rs[|rs| - 1].key)
  }

  function DeletedCount(table: seq<Row>, rs: seq<Incoming>): nat {
    if rs == [] then 0
    else DeletedCount(table, rs[..|rs| - 1]) + KeyCount(DeletedAll(table, rs[..|rs| - 1]), rs[|rs| - 1].key)
  }

  function StoredFn(shape: Shape): Incoming -> Option<Row> {
    (r: Incoming) => Some(Stored(shape, r))
  }

  function Appended(shape: Shape, table: seq<Row>, rs: seq<Incoming>): seq<Row> {
    table + FilterMap(rs, StoredFn(shape))
  }

  function UpsertedAll(shape: Shape, table: seq<Row>, rs: seq<Incoming>): seq<Row> {
    if rs == [] then table else Upserted(shape, UpsertedAll(shape, table, rs[..|rs| - 1]), rs[|rs| - 1])
  }

  /** How many of the upserts found their key already there. */
  function Conflicts(shape: Shape, table: seq<Row>, rs: seq<Incoming>): (n: nat)
    ensures n <= |rs|
  {
    if rs == [] then 0
    else
      var before := UpsertedAll(shape, table, rs[..|rs| - 1]);
      Conflicts(shape, table, rs[..|rs| - 1]) + if KeyCount(before, rs[|rs| - 1].key) > 0 then 1 else 0
  }

  /** One INSERT statement; none when it fails. */
  function InsertOne(shape: Shape, table: seq<Row>, r: Incoming, upsert: bool): Option<seq<Row>> {
    if upsert then if shape.unique then Some(Upserted(shape, table, r)) else None
    else if shape.unique && KeyCount(table, r.key) > 0 then None
    else Some(table + [Stored(shape, r)])
  }

  /** The insert loop, stopping at the first statement that fails. */
  function InsertAll(shape: Shape, table: seq<Row>, rs: seq<Incoming>, upsert: bool): Option<seq<Row>> {
    if rs == [] then Some(table)
    else
      var before := InsertAll(shape, table, rs[..|rs| - 1], upsert);
      if before.Some? then InsertOne(shape, before.value, rs[|rs| - 1], upsert) else None
  }

  function FailureOf(upsert: bool): Failure {
    if upsert then NoUniqueConstraint else DuplicateKey
  }

  /** The counters kept from what each upsert returned: a row says inserted or updated, no row says
      nothing. */
  predicate Counted(shape: Shape, table: seq<Row>, rs: seq<Incoming>, upsert: bool, inserted: nat, updated: nat) {
    var conflicts := Conflicts(shape, table, rs);
    && updated == (if upsert && shape.hasRest then conflicts else 0)
    && inserted == if upsert then |rs| - conflicts else 0
  }

  // ---- The transaction ----

  class Target {
    const shape: Shape
    var rows: seq<Row>

    constructor (shape: Shape, rows: seq<Row>)
      ensures this.shape == shape && this.rows == rows
    {
      this.shape, this.rows := shape, rows;
    }

    method DeleteKey(key: seq<Cell>) returns (n: nat)
      modifies this
      ensures rows == Deleted(old(rows), key) && n == KeyCount(old(rows), key)
    {
      n := |FilterMap(rows, MatchFn(key))|;
      rows := FilterMap(rows, OtherFn(key));
    }

    /** The pre-pass of delete-insert. */
    method DeleteMatching(data: seq<seq<Incoming>>) returns (total: nat)
      modifies this
      ensures rows == DeletedAll(old(rows), Flatten(data)) && total == DeletedCount(old(rows), Flatten(data))
    {
      hide *;
      NothingDeleted(rows);
      total := 0;
      ghost var start := rows;
      for b := 0 to |data|
        invariant rows == DeletedAll(start, Flatten(data[..b])) && total == DeletedCount(start, Flatten(data[..b]))
      {
        ghost var before := Flatten(data[..b]);
        assert before + data[b][..0] == before;
        for row := 0 to |data[b]|
          invariant rows == DeletedAll(start, before + data[b][..row])
          invariant total == DeletedCount(start, before + data[b][..row])
        {
          var n := DeleteKey(data[b][row].key);
          total := total + n;
          DeletedSnoc(start, before + data[b][..row], data[b][row]);
          OneMore(before, data[b], row);
        }
        assert data[b][..|data[b]|] == data[b];
        FlattenSnoc(data, b);
      }
      assert data[..|data|] == data;
    }

    /** One INSERT: `inserted` is absent when the statement returned no row. */
    method InsertRow(r: Incoming, upsert: bool) returns (ok: bool, inserted: Option<bool>)
      modifies this
      ensures ok == InsertOne(shape, old(rows), r, upsert).Some?
      ensures rows == if ok then InsertOne(shape, old(rows), r, upsert).value else old(rows)
      ensures ok && upsert ==>
                inserted == if KeyCount(old(rows), r.key) == 0 then Some(true) else if shape.hasRest then Some(false) else None
    {
      inserted := None;
      var present := |FilterMap(rows, MatchFn(r.key))| > 0;
      if upsert && !shape.unique {
        return false, None;
      }
      if !upsert && shape.unique && present {
        return false, None;
      }
      if upsert && present {
        rows := FilterMap(rows, UpdateFn(shape, r));
        inserted := if shape.hasRest then Some(false) else None;
      } else {
        rows := rows + [Stored(shape, r)];
        inserted := Some(true);
      }
      return true, inserted;
    }

    /** The insert loop, in batches and chunks; it stops at the first statement that fails. */
    method InsertRows(data: seq<seq<Incoming>>, upsert: bool, batchSize: nat)
      returns (ok: bool, total: nat, inserted: nat, updated: nat)
      requires batchSize > 0
      modifies this
      ensures ok == InsertAll(shape, old(rows), Flatten(data), upsert).Some?
      ensures ok ==>
                && rows == InsertAll(shape, old(rows), Flatten(data), upsert).value && total == |Flatten(data)|
                && Counted(shape, old(rows), Flatten(data), upsert, inserted, updated)
    {
      hide *;
      ok, total, inserted, updated := true, 0, 0, 0;
      ghost var start := rows;
      NothingWritten(shape, start, upsert);
      for b := 0 to |data|
        invariant Progress(shape, start, Flatten(data[..b]), upsert, rows, total, inserted, updated)
      {
        var batch, chunkStart := data[b], 0;
        ghost var before := Flatten(data[..b]);
        assert before + batch[..0] == before;
        while chunkStart < |batch|
          invariant chunkStart <= |batch| + batchSize
          invariant Progress(shape, start, before + batch[..if chunkStart < |batch| then chunkStart else |batch|], upsert,
                             rows, total, inserted, updated)
        {
          var chunkEnd := if chunkStart + batchSize < |batch| then chunkStart + batchSize else |batch|;
          for row := chunkStart to chunkEnd
            invariant Progress(shape, start, before + batch[..row], upsert, rows, total, inserted, updated)
          {
            ghost var was, wasInserted, wasUpdated := rows, inserted, updated;
            var flag;
            ok, flag := InsertRow(batch[row], upsert);
            OneMore(before, batch, row);
            if !ok {
              Stopped(shape, start, data, b, row, upsert, was, total, wasInserted, wasUpdated);
              return;
            }
            if upsert && flag.Some? {
              if flag.value {
                inserted := inserted + 1;
              } else {
                updated := updated + 1;
              }
            }
            RowWritten(shape, start, before + batch[..row], batch[row], upsert, was, rows, total, wasInserted, wasUpdated, flag);
            total := total + 1;
          }
          chunkStart := chunkStart + batchSize;
        }
        assert batch[..|batch|] == batch;
        FlattenSnoc(data, b);
      }
      assert data[..|data|] == data;
      AllWritten(shape, start, Flatten(data), upsert, rows, total, inserted, updated);
    }

    /** The whole write. A failing statement leaves the table as it was. */
    method Write(data: seq<seq<Incoming>>, mode: Mode, batchSize: nat) returns (r: Outcome)
      requires batchSize > 0
      modifies this
      ensures data == [] ==> r == Committed(Receipt(0, 0, 0, 0)) && rows == old(rows)
      ensures data != [] ==> r == Planned(shape, old(rows), Flatten(data), mode)
      ensures data != [] ==> rows == if r.Committed? then After(shape, old(rows), Flatten(data), mode) else old(rows)
    {
      if data == [] {
        return Committed(Receipt(0, 0, 0, 0));
      }
      hide InsertAll, DeletedAll, DeletedCount, Conflicts, Flatten;
      var before := rows;
      var truncated, deleted := 0, 0;
      if mode == TruncateInsert {
        truncated := |rows|;
        rows := [];
      }
      if mode == DeleteInsert {
        deleted := DeleteMatching(data);
      }
      var ok, total, inserted, updated := InsertRows(data, mode == Upsert, batchSize);
      if !ok {
        rows := before;
        return RolledBack(FailureOf(mode == Upsert));
      }
      match mode {
        case Append => return Committed(Receipt(total, total, 0, 0));
        case Upsert => return Committed(Receipt(total, inserted, updated, 0));
        case TruncateInsert => return Committed(Receipt(total, total, 0, truncated));
        case DeleteInsert => return Committed(Receipt(total, total, 0, deleted));
      }
    }
  }

  /** What the inserts start from. */
  function Cleared(table: seq<Row>, rs: seq<Incoming>, mode: Mode): seq<Row> {
    match mode
    case TruncateInsert => []
    case DeleteInsert => DeletedAll(table, rs)
    case _ => table
  }

  function Inserts(shape: Shape, table: seq<Row>, rs: seq<Incoming>, mode: Mode): Option<seq<Row>> {
    InsertAll(shape, Cleared(table, rs, mode), rs, mode == Upsert)
  }

  function After(shape: Shape, table: seq<Row>, rs: seq<Incoming>, mode: Mode): seq<Row> {
    var out := Inserts(shape, table, rs, mode);
    if out.Some? then out.value else table
  }

  function Planned(shape: Shape, table: seq<Row>, rs: seq<Incoming>, mode: Mode): Outcome {
    if Inserts(shape, table, rs, mode).None? then RolledBack(FailureOf(mode == Upsert))
    else
      var conflicts := Conflicts(shape, table, rs);
      match mode
      case Append => Committed(Receipt(|rs|, |rs|, 0, 0))
      case Upsert => Committed(Receipt(|rs|, |rs| - conflicts, if shape.hasRest then conflicts else 0, 0))
      case TruncateInsert => Committed(Receipt(|rs|, |rs|, 0, |table|))
      case DeleteInsert => Committed(Receipt(|rs|, |rs|, 0, DeletedCount(table, rs)))
  }

  // ---- One row at a time ----

  lemma OneMore<T>(before: seq<T>, batch: seq<T>, row: nat)
    requires row < |batch|
    ensures before + batch[..row + 1] == before + batch[..row] + [batch[row]]
  {
  }

  lemma NothingDeleted(table: seq<Row>)
    ensures DeletedAll(table, Flatten([])) == table && DeletedCount(table, Flatten([])) == 0
  {
  }

  lemma DeletedSnoc(table: seq<Row>, rs: seq<Incoming>, r: Incoming)
    ensures DeletedAll(table, rs + [r]) == Deleted(DeletedAll(table, rs), r.key)
    ensures DeletedCount(table, rs + [r]) == DeletedCount(table, rs) + KeyCount(DeletedAll(table, rs), r.key)
  {
    hide Deleted, KeyCount;
    assert (rs + [r])[..|rs|] == rs;
  }

  ghost predicate Progress(shape: Shape, start: seq<Row>, rs: seq<Incoming>, upsert: bool,
                           rows: seq<Row>, total: nat, inserted: nat, updated: nat) {
    && InsertAll(shape, start, rs, upsert) == Some(rows) && total == |rs|
    && Counted(shape, start, rs, upsert, inserted, updated)
    && (upsert ==> UpsertedAll(shape, start, rs) == rows)
  }

  lemma NothingWritten(shape: Shape, start: seq<Row>, upsert: bool)
    ensures Progress(shape, start, Flatten([]), upsert, start, 0, 0, 0)
    ensures Flatten<Incoming>([]) == []
  {
  }

  lemma SnocInit(rs: seq<Incoming>, r: Incoming)
    ensures (rs + [r])[..|rs + [r]| - 1] == rs && (rs + [r])[|rs + [r]| - 1] == r && rs + [r] != []
  {
  }

  lemma RowWritten(shape: Shape, start: seq<Row>, rs: seq<Incoming>, r: Incoming, upsert: bool, was: seq<Row>,
                   rows: seq<Row>, total: nat, inserted: nat, updated: nat, flag: Option<bool>)
    requires Progress(shape, start, rs, upsert, was, total, inserted, updated)
    requires InsertOne(shape, was, r, upsert) == Some(rows)
    requires upsert ==> flag == if KeyCount(was, r.key) == 0 then Some(true) else if shape.hasRest then Some(false) else None
    ensures Progress(shape, start, rs + [r], upsert, rows, total + 1,
                     if upsert && flag == Some(true) then inserted + 1 else inserted,
                     if upsert && flag == Some(false) then updated + 1 else updated)
  {
    hide KeyCount, Upserted;
    SnocInit(rs, r);
  }

  lemma {:induction false} FailureStays(shape: Shape, table: seq<Row>, rs: seq<Incoming>, n: nat, upsert: bool)
    requires n <= |rs| && InsertAll(shape, table, rs[..n], upsert).None?
    ensures InsertAll(shape, table, rs, upsert).None?
    decreases |rs|
  {
    hide InsertOne;
    if n == |rs| {
      assert rs[..n] == rs;
    } else {
      assert rs[..|rs| - 1][..n] == rs[..n];
      FailureStays(shape, table, rs[..|rs| - 1], n, upsert);
    }
  }

  lemma {:induction false} FlattenPrefix<T>(data: seq<seq<T>>, b: nat)
    requires b <= |data|
    ensures |Flatten(data[..b])| <= |Flatten(data)| && Flatten(data)[..|Flatten(data[..b])|] == Flatten(data[..b])
    decreases |data|
  {
    if b == |data| {
      assert data[..b] == data;
    } else {
      var init := data[..|data| - 1];
      assert init[..b] == data[..b];
      FlattenPrefix(init, b);
    }
  }

  lemma Stopped(shape: Shape, start: seq<Row>, data: seq<seq<Incoming>>, b: nat, row: nat, upsert: bool,
                was: seq<Row>, total: nat, inserted: nat, updated: nat)
    requires b < |data| && row < |data[b]|
    requires Progress(shape, start, Flatten(data[..b]) + data[b][..row], upsert, was, total, inserted, updated)
    requires InsertOne(shape, was, data[b][row], upsert).None?
    ensures InsertAll(shape, start, Flatten(data), upsert).None?
  {
    hide InsertOne, Flatten, Conflicts, UpsertedAll;
    var before, batch := Flatten(data[..b]), data[b];
    var rs, r := before + batch[..row], batch[row];
    SnocInit(rs, r);
    assert InsertAll(shape, start, rs + [r], upsert).None?;
    FlattenSnoc(data, b);
    FlattenPrefix(data, b + 1);
    var all := Flatten(data);
    assert all[..|before + batch|] == before + batch;
    assert all[..|rs| + 1] == (before + batch)[..|rs| + 1] == rs + [r];
    FailureStays(shape, start, all, |rs| + 1, upsert);
  }

  lemma AllWritten(shape: Shape, start: seq<Row>, rs: seq<Incoming>, upsert: bool,
                   rows: seq<Row>, total: nat, inserted: nat, updated: nat)
    requires Progress(shape, start, rs, upsert, rows, total, inserted, updated)
    ensures InsertAll(shape, start, rs, upsert) == Some(rows) && total == |rs|
    ensures Counted(shape, start, rs, upsert, inserted, updated)
  {
  }
}

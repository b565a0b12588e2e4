/** What the committed transactions of the row-by-row strategies leave, value by value, and what their
    receipts say about it. */
module PostgresOutcome {
  import opened Lists
  import opened PostgresWrite
  import opened PostgresWriteLaws
  import opened PostgresReplay

  // ---- The rows that were inserted ----

  /** Row y is what inserting r stores: its columns, and nulls where only the target has a column. */
  predicate IsInserted(shape: Shape, y: Row, r: Incoming) {
    y.key == r.key && y.rest == r.rest && |y.extra| == shape.extras && forall c <- y.extra :: c == Null
  }

  /** The rows end with one row for each incoming one, in order. */
  predicate EndsWithInserted(shape: Shape, rows: seq<Row>, rs: seq<Incoming>) {
    |rs| <= |rows| && forall i :: 0 <= i < |rs| ==> IsInserted(shape, rows[|rows| - |rs| + i], rs[i])
  }

  lemma {:induction false} StoredRows(shape: Shape, rs: seq<Incoming>)
    ensures |FilterMap(rs, StoredFn(shape))| == |rs|
    ensures forall i :: 0 <= i < |rs| ==> IsInserted(shape, FilterMap(rs, StoredFn(shape))[i], rs[i])
  {
    if rs != [] {
      StoredRows(shape, rs[..|rs| - 1]);
    }
  }

  lemma StoredLast(shape: Shape, kept: seq<Row>, rs: seq<Incoming>)
    ensures
      var after := kept + FilterMap(rs, StoredFn(shape));
      |after| == |kept| + |rs| && kept <= after && EndsWithInserted(shape, after, rs)
  {
    hide FilterMap, IsInserted;
    StoredRows(shape, rs);
  }

  /** An append commits exactly when no constraint forbids it: no null-free key comes in twice or is stored. */
  lemma AppendCommitsIff(shape: Shape, table: seq<Row>, rs: seq<Incoming>)
    ensures Planned(shape, table, rs, Append).Committed? <==>
      !shape.unique || (DistinctIncoming(rs) && forall r <- rs, x <- table :: x.key == r.key ==> Null in r.key)
  {
    hide InsertAll, KeyCount, DistinctIncoming;
    if r :| r in rs && KeyCount(table, r.key) > 0 {
      PresentRow(table, r.key);
      if shape.unique {
        BlockedInsert(shape, table, rs, r);
      } else {
        PlainValue(shape, table, rs);
      }
    } else {
      forall key: seq<Cell> | Covers(rs, key)
        ensures KeyCount(table, key) == 0
      {
      }
      PlainInserts(shape, table, rs);
      forall r, x | r in rs && x in table && x.key == r.key
        ensures Null in r.key
      {
        PresentRow(table, r.key);
      }
    }
  }

  /** A committed append keeps the table and adds every incoming row after it. */
  lemma AppendLeaves(shape: Shape, table: seq<Row>, rs: seq<Incoming>)
    requires Planned(shape, table, rs, Append).Committed?
    ensures
      var after := After(shape, table, rs, Append);
      |after| == |table| + |rs| && table <= after && EndsWithInserted(shape, after, rs)
  {
    hide InsertAll, FilterMap, EndsWithInserted;
    PlainValue(shape, table, rs);
    StoredLast(shape, table, rs);
  }

  /** A committed truncate-insert leaves the incoming rows and nothing else. */
  lemma TruncateInsertLeaves(shape: Shape, table: seq<Row>, rs: seq<Incoming>)
    requires Planned(shape, table, rs, TruncateInsert).Committed?
    ensures |After(shape, table, rs, TruncateInsert)| == |rs| && EndsWithInserted(shape, After(shape, table, rs, TruncateInsert), rs)
  {
    hide InsertAll, FilterMap, EndsWithInserted;
    PlainValue(shape, [], rs);
    StoredLast(shape, [], rs);
  }

  /** The rows whose key does not come in. */
  function KeptFn(rs: seq<Incoming>): Row -> Option<Row> {
    (x: Row) => if Null !in x.key && exists r <- rs :: r.key == x.key then None else Some(x)
  }

  /** A committed delete-insert keeps the rows of other keys and adds every incoming row after them. */
  lemma DeleteInsertLeaves(shape: Shape, table: seq<Row>, rs: seq<Incoming>)
    requires Planned(shape, table, rs, DeleteInsert).Committed?
    ensures
      var after, kept := After(shape, table, rs, DeleteInsert), FilterMap(table, KeptFn(rs));
      |after| == |kept| + |rs| && kept <= after && EndsWithInserted(shape, after, rs)
  {
    DeletedAllIsFilter(table, rs);
    forall x | x in table
      ensures UncoveredFn(rs)(x) == KeptFn(rs)(x)
    {
    }
    hide InsertAll, FilterMap, DeletedAll, Covers, EndsWithInserted;
    FilterMapSame(table, UncoveredFn(rs), KeptFn(rs));
    PlainValue(shape, DeletedAll(table, rs), rs);
    StoredLast(shape, DeletedAll(table, rs), rs);
  }

  // ---- Upsert ----

  /** The last incoming row of this key has these other columns. */
  predicate LastIs(rs: seq<Incoming>, key: seq<Cell>, rest: seq<Cell>) {
    exists j :: 0 <= j < |rs| && rs[j].key == key && rs[j].rest == rest && forall k :: j < k < |rs| ==> rs[k].key != key
  }

  lemma {:induction false} LastMatchIs(rs: seq<Incoming>, key: seq<Cell>)
    requires Null !in key
    ensures LastMatch(rs, key).Some? ==> LastIs(rs, key, LastMatch(rs, key).value.rest)
    ensures LastMatch(rs, key).None? <==> forall r <- rs :: r.key != key
  {
    if rs != [] {
      var n := |rs| - 1;
      LastMatchIs(rs[..n], key);
      assert rs == rs[..n] + [rs[n]];
      if rs[n].key == key {
        assert LastIs(rs, key, rs[n].rest);
      } else if LastMatch(rs[..n], key).Some? {
        var rest := LastMatch(rs[..n], key).value.rest;
        var j :| 0 <= j < n && rs[..n][j].key == key && rs[..n][j].rest == rest && forall k :: j < k < n ==> rs[..n][k].key != key;
        assert rs[j].key == key && rs[j].rest == rest && forall k :: j < k < |rs| ==> rs[k].key != key;
      }
    }
  }

  lemma {:induction false} UpsertKeepsUnique(shape: Shape, table: seq<Row>, rs: seq<Incoming>)
    requires KeyUnique(table)
    ensures KeyUnique(UpsertedAll(shape, table, rs))
  {
    var after := UpsertedAll(shape, table, rs);
    hide UpsertedAll, KeyCount;
    forall i, j | 0 <= i < j < |after|
      ensures !Matches(after[i].key, after[j].key)
    {
      if Matches(after[i].key, after[j].key) {
        UniqueCount(table, after[j].key);
        UpsertedAllCount(shape, table, rs, after[j].key);
        TwoMatches(after, i, j);
      }
    }
  }

  lemma TwoMatches(table: seq<Row>, i: nat, j: nat)
    requires i < j < |table| && Matches(table[i].key, table[j].key)
    ensures KeyCount(table, table[j].key) > 1
  {
    if KeyCount(table, table[j].key) <= 1 {
      FilterMapAtMostOne(table, MatchFn(table[j].key), i, j);
    }
  }

  lemma {:induction false} UpsertLength(shape: Shape, table: seq<Row>, rs: seq<Incoming>)
    ensures |UpsertedAll(shape, table, rs)| + Conflicts(shape, table, rs) == |table| + |rs|
  {
    hide KeyCount, FilterMap;
    if rs != [] {
      var n := |rs| - 1;
      UpsertLength(shape, table, rs[..n]);
      UpdateLength(shape, UpsertedAll(shape, table, rs[..n]), rs[n]);
    }
  }

  predicate ComesIn(rs: seq<Incoming>, key: seq<Cell>) {
    exists r <- rs :: r.key == key
  }

  predicate IsStored(table: seq<Row>, key: seq<Cell>) {
    exists x <- table :: x.key == key
  }

  /** Row y goes back to a stored row: its extra columns are kept, and so are the others unless its key came
      in. */
  ghost predicate FromStored(shape: Shape, table: seq<Row>, rs: seq<Incoming>, y: Row) {
    exists x <- table :: x.key == y.key && x.extra == y.extra && (y.rest == x.rest || (shape.hasRest && Null !in y.key && ComesIn(rs, y.key)))
  }

  /** Or it was inserted, under a key that was not stored, with nulls in the extra columns. */
  ghost predicate FromIncoming(shape: Shape, table: seq<Row>, rs: seq<Incoming>, y: Row) {
    && (Null in y.key || !IsStored(table, y.key))
    && exists r <- rs ::
         r.key == y.key && |y.extra| == shape.extras && (forall c <- y.extra :: c == Null) && (y.rest == r.rest || (shape.hasRest && Null !in y.key))
  }

  lemma OriginStays(shape: Shape, table: seq<Row>, rs: seq<Incoming>, x: Row, r: Incoming, y: Row)
    requires FromStored(shape, table, rs, x) || FromIncoming(shape, table, rs, x)
    requires UpdateFn(shape, r)(x) == Some(y)
    ensures FromStored(shape, table, rs + [r], y) || FromIncoming(shape, table, rs + [r], y)
  {
    assert r in rs + [r];
    forall q | q in rs
      ensures q in rs + [r]
    {
    }
  }

  lemma FreshInsert(shape: Shape, table: seq<Row>, rs: seq<Incoming>, r: Incoming)
    requires KeyCount(UpsertedAll(shape, table, rs), r.key) == 0
    ensures FromIncoming(shape, table, rs + [r], Stored(shape, r))
  {
    assert r in rs + [r];
    if Null !in r.key && IsStored(table, r.key) {
      UpsertedAllCount(shape, table, rs, r.key);
      PresentRow(table, r.key);
    }
  }

  lemma {:induction false} UpsertOrigin(shape: Shape, table: seq<Row>, rs: seq<Incoming>, y: Row)
    requires y in UpsertedAll(shape, table, rs)
    ensures FromStored(shape, table, rs, y) || FromIncoming(shape, table, rs, y)
  {
    if rs != [] {
      var n := |rs| - 1;
      var before := UpsertedAll(shape, table, rs[..n]);
      FilterMapMember(before, UpdateFn(shape, rs[n]), y);
      hide FilterMap, KeyCount, UpsertedAll, Matches, FromStored, FromIncoming;
      assert rs == rs[..n] + [rs[n]];
      assert UpsertedAll(shape, table, rs) == Upserted(shape, before, rs[n]) by { UpsertUnfold(shape, table, rs); }
      if KeyCount(before, rs[n].key) > 0 {
        var x :| x in before && UpdateFn(shape, rs[n])(x) == Some(y);
        UpsertOrigin(shape, table, rs[..n], x);
        OriginStays(shape, table, rs[..n], x, rs[n], y);
      } else if y in before {
        UpsertOrigin(shape, table, rs[..n], y);
        OriginKept(shape, table, rs[..n], rs[n], y);
      } else {
        FreshInsert(shape, table, rs[..n], rs[n]);
      }
    }
  }

  lemma UpsertUnfold(shape: Shape, table: seq<Row>, rs: seq<Incoming>)
    requires rs != []
    ensures UpsertedAll(shape, table, rs) == Upserted(shape, UpsertedAll(shape, table, rs[..|rs| - 1]), rs[|rs| - 1])
  {
  }

  lemma OriginKept(shape: Shape, table: seq<Row>, rs: seq<Incoming>, r: Incoming, y: Row)
    requires FromStored(shape, table, rs, y) || FromIncoming(shape, table, rs, y)
    ensures FromStored(shape, table, rs + [r], y) || FromIncoming(shape, table, rs + [r], y)
  {
    forall q | q in rs
      ensures q in rs + [r]
    {
    }
  }

  function NullKeyFn(): Row -> Option<Row> {
    (x: Row) => if Null in x.key then Some(x) else None
  }

  function NullIncomingFn(): Incoming -> Option<Incoming> {
    (r: Incoming) => if Null in r.key then Some(r) else None
  }

  /** The incoming rows whose key holds a null, as they are stored. */
  function NullsStored(shape: Shape, rs: seq<Incoming>): seq<Row> {
    FilterMap(FilterMap(rs, NullIncomingFn()), StoredFn(shape))
  }

  lemma UpsertedEither(shape: Shape, before: seq<Row>, r: Incoming)
    ensures Upserted(shape, before, r) == if KeyCount(before, r.key) > 0 then FilterMap(before, UpdateFn(shape, r)) else before + [Stored(shape, r)]
    ensures Null in r.key ==> KeyCount(before, r.key) == 0
    ensures NullKeyFn()(Stored(shape, r)) == if Null in r.key then Some(Stored(shape, r)) else None
  {
    if Null in r.key {
      NullCount(before, r.key);
    }
    hide FilterMap;
  }

  lemma NullStep(shape: Shape, before: seq<Row>, r: Incoming)
    ensures FilterMap(Upserted(shape, before, r), NullKeyFn()) == FilterMap(before, NullKeyFn()) + Opt(NullKeyFn()(Stored(shape, r)))
  {
    hide FilterMap, KeyCount, Upserted, NullKeyFn, UpdateFn, Stored;
    UpsertedEither(shape, before, r);
    if KeyCount(before, r.key) > 0 {
      UpdateKeepsNulls(shape, before, r);
      assert FilterMap(before, NullKeyFn()) + [] == FilterMap(before, NullKeyFn());
    } else {
      FilterMapSnoc(before, Stored(shape, r), NullKeyFn());
    }
  }

  /** Keys with nulls never conflict: their stored rows stay, and every incoming one is inserted. */
  lemma {:induction false} NullKeysInserted(shape: Shape, table: seq<Row>, rs: seq<Incoming>)
    ensures FilterMap(UpsertedAll(shape, table, rs), NullKeyFn()) == FilterMap(table, NullKeyFn()) + NullsStored(shape, rs)
  {
    hide FilterMap, Upserted, NullKeyFn, NullIncomingFn, Stored;
    if rs == [] {
      FilterMapEmpty(NullIncomingFn());
      FilterMapEmpty(StoredFn(shape));
    } else {
      var n := |rs| - 1;
      NullKeysInserted(shape, table, rs[..n]);
      NullStep(shape, UpsertedAll(shape, table, rs[..n]), rs[n]);
      StoredNulls(shape, rs[..n], rs[n]);
      assert rs == rs[..n] + [rs[n]];
      AppendAssociative(FilterMap(table, NullKeyFn()), NullsStored(shape, rs[..n]), Opt(NullKeyFn()(Stored(shape, rs[n]))));
    }
  }

  lemma StoredNulls(shape: Shape, rs: seq<Incoming>, r: Incoming)
    ensures NullsStored(shape, rs + [r]) == NullsStored(shape, rs) + Opt(NullKeyFn()(Stored(shape, r)))
  {
    hide FilterMap;
    var nulls := FilterMap(rs, NullIncomingFn());
    FilterMapSnoc(rs, r, NullIncomingFn());
    if Null in r.key {
      FilterMapSnoc(nulls, r, StoredFn(shape));
    } else {
      assert nulls + [] == nulls && NullsStored(shape, rs) + [] == NullsStored(shape, rs);
    }
  }

  lemma UpdateKeepsNulls(shape: Shape, table: seq<Row>, r: Incoming)
    ensures FilterMap(FilterMap(table, UpdateFn(shape, r)), NullKeyFn()) == FilterMap(table, NullKeyFn())
  {
    forall x: Row
      ensures UpdateFn(shape, r)(x).Some? && NullKeyFn()(UpdateFn(shape, r)(x).value) == NullKeyFn()(x)
    {
    }
    hide FilterMap;
    FilterMapCompose(table, UpdateFn(shape, r), NullKeyFn(), NullKeyFn());
  }

  /** A committed upsert leaves one row per null-free key, stored before or coming in. A stored row keeps its
      extra columns, a new one has nulls there; the other columns are those of the last incoming row of the
      key, or as stored. Rows whose key holds a null stay, and all incoming ones are added. */
  lemma UpsertLeaves(shape: Shape, table: seq<Row>, rs: seq<Incoming>)
    requires shape.unique && KeyUnique(table)
    ensures
      var after := After(shape, table, rs, Upsert);
      && KeyUnique(after)
      && (forall key: seq<Cell> :: Null !in key ==> (IsStored(after, key) <==> IsStored(table, key) || ComesIn(rs, key)))
      && (forall y <- after :: FromStored(shape, table, rs, y) || FromIncoming(shape, table, rs, y))
      && (forall y <- after :: shape.hasRest && Null !in y.key && ComesIn(rs, y.key) ==> LastIs(rs, y.key, y.rest))
      && FilterMap(after, NullKeyFn()) == FilterMap(table, NullKeyFn()) + NullsStored(shape, rs)
  {
    hide InsertAll, UpsertedAll, FilterMap, KeyCount, KeyUnique, FromStored, FromIncoming, LastIs;
    AfterUpsert(shape, table, rs);
    var after := UpsertedAll(shape, table, rs);
    UpsertKeepsUnique(shape, table, rs);
    NullKeysInserted(shape, table, rs);
    forall key: seq<Cell> | Null !in key
      ensures IsStored(after, key) <==> IsStored(table, key) || ComesIn(rs, key)
    {
      KeyPresent(shape, table, rs, key);
    }
    forall y | y in after
      ensures FromStored(shape, table, rs, y) || FromIncoming(shape, table, rs, y)
      ensures shape.hasRest && Null !in y.key && ComesIn(rs, y.key) ==> LastIs(rs, y.key, y.rest)
    {
      UpsertOrigin(shape, table, rs, y);
      SettledRows(shape, table, rs, y);
      if Null !in y.key {
        LastMatchIs(rs, y.key);
      }
    }
  }

  lemma KeyPresent(shape: Shape, table: seq<Row>, rs: seq<Incoming>, key: seq<Cell>)
    requires Null !in key
    ensures IsStored(UpsertedAll(shape, table, rs), key) <==> IsStored(table, key) || ComesIn(rs, key)
  {
    hide UpsertedAll, KeyCount;
    UpsertedAllCount(shape, table, rs, key);
    PresentRow(table, key);
    PresentRow(UpsertedAll(shape, table, rs), key);
  }

  // ---- Receipts ----

  /** The table grows by what the receipt calls inserted less what it calls deleted, in every mode; and every
      row written is inserted, or, in an upsert with non-key columns, updated. */
  lemma ReceiptBalance(shape: Shape, table: seq<Row>, rs: seq<Incoming>, mode: Mode)
    requires Planned(shape, table, rs, mode).Committed?
    ensures
      var receipt, after := Planned(shape, table, rs, mode).receipt, After(shape, table, rs, mode);
      && receipt.written == |rs|
      && |after| + receipt.deleted == |table| + receipt.inserted
      && (mode != Upsert ==> receipt.inserted == |rs| && receipt.updated == 0)
      && (mode == Upsert ==> receipt.updated == if shape.hasRest then |rs| - receipt.inserted else 0)
      && (mode in {Append, Upsert} ==> receipt.deleted == 0)
      && (mode == TruncateInsert ==> receipt.deleted == |table|)
  {
    hide InsertAll, UpsertedAll, DeletedAll, DeletedCount, Conflicts, FilterMap, EndsWithInserted;
    match mode {
      case Append => AppendLeaves(shape, table, rs);
      case TruncateInsert => TruncateInsertLeaves(shape, table, rs);
      case DeleteInsert =>
        PlainValue(shape, DeletedAll(table, rs), rs);
        StoredLast(shape, DeletedAll(table, rs), rs);
        DeletedLength(table, rs);
      case Upsert =>
        UpsertCommitsIff(shape, table, rs);
        AfterUpsert(shape, table, rs);
        UpsertLength(shape, table, rs);
        NoIncoming(shape, table, rs);
    }
  }

  lemma NoIncoming(shape: Shape, table: seq<Row>, rs: seq<Incoming>)
    ensures rs == [] ==> UpsertedAll(shape, table, rs) == table
  {
  }

  lemma {:induction false} DeletedLength(table: seq<Row>, rs: seq<Incoming>)
    ensures |DeletedAll(table, rs)| + DeletedCount(table, rs) == |table|
  {
    if rs != [] {
      var n := |rs| - 1;
      DeletedLength(table, rs[..n]);
      hide FilterMap;
      DeletedOnce(DeletedAll(table, rs[..n]), rs[n].key);
    }
  }

  lemma {:induction false} DeletedOnce(table: seq<Row>, key: seq<Cell>)
    ensures |Deleted(table, key)| + KeyCount(table, key) == |table|
  {
    if table != [] {
      DeletedOnce(table[..|table| - 1], key);
    }
  }

  /** An upsert fails for want of a constraint, the others on a duplicate key. */
  lemma FailureMeans(shape: Shape, table: seq<Row>, rs: seq<Incoming>, mode: Mode)
    requires Planned(shape, table, rs, mode).RolledBack?
    ensures After(shape, table, rs, mode) == table
    ensures if mode == Upsert then !shape.unique && Planned(shape, table, rs, mode).failure == NoUniqueConstraint
            else shape.unique && Planned(shape, table, rs, mode).failure == DuplicateKey
  {
    hide InsertAll;
    if mode == Upsert {
      UpsertCommitsIff(shape, table, rs);
    } else {
      PlainValue(shape, Cleared(table, rs, mode), rs);
    }
  }
}

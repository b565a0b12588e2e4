/** The transactions of the row-by-row strategies, roll-back included: what a replayed write does, and when
    upsert and delete-insert leave the same table. */
module PostgresReplay {
  import opened Lists
  import opened PostgresWrite
  import opened PostgresWriteLaws

  // ---- Plain inserts ----

  lemma {:induction false} PlainValue(shape: Shape, table: seq<Row>, rs: seq<Incoming>)
    ensures InsertAll(shape, table, rs, false).Some? ==>
              InsertAll(shape, table, rs, false).value == Appended(shape, table, rs)
    ensures !shape.unique ==> InsertAll(shape, table, rs, false).Some?
  {
    hide KeyCount, FilterMap;
    var f := StoredFn(shape);
    if rs == [] {
      FilterMapEmpty(f);
      assert table + [] == table;
    } else {
      var n := |rs| - 1;
      PlainValue(shape, table, rs[..n]);
      assert rs == rs[..n] + [rs[n]];
      FilterMapSnoc(rs[..n], rs[n], f);
      AppendAssociative(table, FilterMap(rs[..n], f), [Stored(shape, rs[n])]);
    }
  }

  /** A key that is already stored stops the inserts. */
  lemma BlockedInsert(shape: Shape, table: seq<Row>, rs: seq<Incoming>, r: Incoming)
    requires shape.unique && r in rs && KeyCount(table, r.key) > 0
    ensures InsertAll(shape, table, rs, false).None?
  {
    hide KeyCount, FilterMap;
    var i :| 0 <= i < |rs| && rs[i] == r;
    PlainValue(shape, table, rs[..i]);
    assert rs[..i + 1][..i] == rs[..i];
    CountConcat(table, FilterMap(rs[..i], StoredFn(shape)), r.key);
    assert InsertAll(shape, table, rs[..i + 1], false).None?;
    FailureStays(shape, table, rs, i + 1, false);
  }

  lemma {:induction false} NullKeysNeverBlock(shape: Shape, table: seq<Row>, rs: seq<Incoming>)
    requires forall r <- rs :: Null in r.key
    ensures InsertAll(shape, table, rs, false).Some?
  {
    hide KeyCount;
    if rs != [] {
      var n := |rs| - 1;
      assert rs[n] in rs;
      NullKeysNeverBlock(shape, table, rs[..n]);
      NullCount(InsertAll(shape, table, rs[..n], false).value, rs[n].key);
    }
  }

  lemma StoredLength(shape: Shape, rs: seq<Incoming>)
    ensures |FilterMap(rs, StoredFn(shape))| == |rs|
  {
    var same := (r: Incoming) => Some(r);
    FilterMapAll(rs, same);
    FilterMapLonger(rs, StoredFn(shape), same);
    FilterMapLonger(rs, same, StoredFn(shape));
  }

  lemma StoredIsThere(shape: Shape, table: seq<Row>, rs: seq<Incoming>, r: Incoming)
    requires r in rs && Null !in r.key
    ensures KeyCount(Appended(shape, table, rs), r.key) > 0
  {
    var stored := FilterMap(rs, StoredFn(shape));
    CountConcat(table, stored, r.key);
    StoredCount(shape, rs, r.key);
    assert Covers(rs, r.key);
  }

  // ---- Replay ----

  /** What one write leaves, and the same write once more. */
  ghost predicate ReplayIsHarmless(shape: Shape, table: seq<Row>, rs: seq<Incoming>, mode: Mode) {
    After(shape, After(shape, table, rs, mode), rs, mode) == After(shape, table, rs, mode)
  }

  predicate SomeKeyIsWhole(rs: seq<Incoming>) {
    exists r <- rs :: Null !in r.key
  }

  /** A replayed append changes nothing exactly when there is nothing to append, or the unique constraint
      turns it down: some incoming key is free of nulls. */
  lemma AppendReplayIff(shape: Shape, table: seq<Row>, rs: seq<Incoming>)
    ensures ReplayIsHarmless(shape, table, rs, Append) <==> rs == [] || (shape.unique && SomeKeyIsWhole(rs))
  {
    hide InsertAll, KeyCount, FilterMap;
    var once := After(shape, table, rs, Append);
    PlainValue(shape, table, rs);
    PlainValue(shape, once, rs);
    StoredLength(shape, rs);
    if rs != [] {
      if InsertAll(shape, table, rs, false).Some? && shape.unique && SomeKeyIsWhole(rs) {
        var r :| r in rs && Null !in r.key;
        StoredIsThere(shape, table, rs, r);
        BlockedInsert(shape, once, rs, r);
      } else if !SomeKeyIsWhole(rs) {
        NullKeysNeverBlock(shape, table, rs);
        NullKeysNeverBlock(shape, once, rs);
      }
    } else {
      NullKeysNeverBlock(shape, table, rs);
      NullKeysNeverBlock(shape, once, rs);
      assert table + FilterMap(rs, StoredFn(shape)) == table;
      assert once + FilterMap(rs, StoredFn(shape)) == once;
    }
  }

  lemma AfterUpsert(shape: Shape, table: seq<Row>, rs: seq<Incoming>)
    ensures After(shape, table, rs, Upsert) == if shape.unique then UpsertedAll(shape, table, rs) else table
  {
    if shape.unique {
      UpsertInserts(shape, table, rs);
    } else if rs != [] {
      UnconstrainedUpsertFails(shape, table, rs);
    }
    hide UpsertedAll, KeyCount;
  }

  /** A replayed upsert changes nothing exactly when no incoming key holds a null, or there is no unique
      constraint and it never gets through. */
  lemma UpsertReplayIff(shape: Shape, table: seq<Row>, rs: seq<Incoming>)
    ensures ReplayIsHarmless(shape, table, rs, Upsert) <==> NoNullKeys(rs) || !shape.unique
  {
    hide InsertAll, UpsertedAll, After, NoNullKeys;
    AfterUpsert(shape, table, rs);
    AfterUpsert(shape, After(shape, table, rs, Upsert), rs);
    UpsertLoopAgainIff(shape, table, rs);
  }

  lemma AfterDeleteInsert(shape: Shape, table: seq<Row>, rs: seq<Incoming>)
    ensures After(shape, table, rs, DeleteInsert) ==
      if !shape.unique || DistinctIncoming(rs) then Appended(shape, DeletedAll(table, rs), rs) else table
  {
    DeleteInsertCommitsIff(shape, table, rs);
    hide InsertAll, DeletedAll, DistinctIncoming;
  }

  /** A replayed delete-insert changes nothing exactly when no incoming key holds a null, or a repeated key
      makes it fail under the unique constraint. */
  lemma DeleteInsertReplayIff(shape: Shape, table: seq<Row>, rs: seq<Incoming>)
    ensures ReplayIsHarmless(shape, table, rs, DeleteInsert) <==> NoNullKeys(rs) || (shape.unique && !DistinctIncoming(rs))
  {
    hide InsertAll, DeletedAll, After, DistinctIncoming, NoNullKeys, Appended;
    AfterDeleteInsert(shape, table, rs);
    AfterDeleteInsert(shape, After(shape, table, rs, DeleteInsert), rs);
    DeleteInsertLoopAgainIff(shape, table, rs);
  }

  /** A replayed truncate-insert never changes anything. */
  lemma TruncateInsertReplay(shape: Shape, table: seq<Row>, rs: seq<Incoming>)
    ensures ReplayIsHarmless(shape, table, rs, TruncateInsert)
    ensures Planned(shape, table, rs, TruncateInsert).Committed? <==> !shape.unique || DistinctIncoming(rs)
    ensures Planned(shape, table, rs, TruncateInsert).Committed? ==>
              After(shape, table, rs, TruncateInsert) == FilterMap(rs, StoredFn(shape))
  {
    forall key: seq<Cell> | Covers(rs, key)
      ensures KeyCount([], key) == 0
    {
      FilterMapEmpty(MatchFn(key));
    }
    PlainInserts(shape, [], rs);
    hide InsertAll, KeyCount, Covers, FilterMap;
    assert [] + FilterMap(rs, StoredFn(shape)) == FilterMap(rs, StoredFn(shape));
  }

  // ---- Upsert against delete-insert ----

  function CoveredFn(rs: seq<Incoming>): Row -> Option<Row> {
    (x: Row) => if Covers(rs, x.key) then Some(x) else None
  }

  /** The stored rows of the incoming keys. */
  function Covered(table: seq<Row>, rs: seq<Incoming>): seq<Row> {
    FilterMap(table, CoveredFn(rs))
  }

  /** Every incoming key is stored, with the values of the last incoming row of that key. */
  predicate Stands(shape: Shape, table: seq<Row>, rs: seq<Incoming>) {
    (forall r <- rs :: KeyCount(table, r.key) > 0) && forall x <- table :: Refreshed(shape, x, rs) == x
  }

  lemma SplitByCover(table: seq<Row>, rs: seq<Incoming>)
    ensures multiset(table) == multiset(DeletedAll(table, rs)) + multiset(Covered(table, rs))
  {
    hide FilterMap, Covers, DeletedAll;
    var all := (x: Row) => Some(x);
    DeletedAllIsFilter(table, rs);
    FilterMapSplit(table, UncoveredFn(rs), CoveredFn(rs), all);
    FilterMapAll(table, all);
  }

  lemma {:induction false} MissingGrows(shape: Shape, table: seq<Row>, rs: seq<Incoming>)
    requires exists r <- rs :: KeyCount(table, r.key) == 0
    ensures |UpsertedAll(shape, table, rs)| > |table|
  {
    var n := |rs| - 1;
    var init, last := rs[..n], rs[n];
    var before := UpsertedAll(shape, table, init);
    hide KeyCount, FilterMap;
    assert rs == init + [last];
    UpdateLength(shape, before, last);
    UpsertGrows(shape, table, init);
    if exists r <- init :: KeyCount(table, r.key) == 0 {
      MissingGrows(shape, table, init);
    } else {
      assert !Covers(init, last.key);
      UpsertedAllCount(shape, table, init, last.key);
    }
  }

  lemma RefreshedStays(shape: Shape, table: seq<Row>, rs: seq<Incoming>, x: Row)
    requires KeyUnique(table) && x in table && Refreshed(shape, x, rs) in table
    ensures Refreshed(shape, x, rs) == x
  {
    var y := Refreshed(shape, x, rs);
    NullUnmatched(rs, x.key);
    if Null !in x.key {
      var i :| 0 <= i < |table| && table[i] == x;
      var j :| 0 <= j < |table| && table[j] == y;
      assert Matches(x.key, y.key) && Matches(y.key, x.key);
      assert i == j;
    }
  }

  /** The upsert loop leaves the rows as they are exactly when the batch already stands in the table. */
  lemma UpsertLoopStandsIff(shape: Shape, table: seq<Row>, rs: seq<Incoming>)
    requires KeyUnique(table)
    ensures multiset(UpsertedAll(shape, table, rs)) == multiset(table) <==> Stands(shape, table, rs)
  {
    hide UpsertedAll, FilterMap, KeyCount, Refreshed, KeyUnique;
    var up := UpsertedAll(shape, table, rs);
    if forall r <- rs :: KeyCount(table, r.key) > 0 {
      UpsertRefreshes(shape, table, rs);
      if Stands(shape, table, rs) {
        FilterMapAll(table, RefreshFn(shape, rs));
      }
      if multiset(up) == multiset(table) {
        forall x | x in table
          ensures Refreshed(shape, x, rs) == x
        {
          FilterMapMember(table, RefreshFn(shape, rs), Refreshed(shape, x, rs));
          assert Refreshed(shape, x, rs) in multiset(up);
          RefreshedStays(shape, table, rs, x);
        }
      }
    } else {
      MissingGrows(shape, table, rs);
      assert |multiset(up)| == |up| && |multiset(table)| == |table|;
    }
  }

  /** An upsert leaves the rows as they are exactly when the batch already stands in the table, or there is no
      unique constraint and it never gets through. */
  lemma UpsertStandsIff(shape: Shape, table: seq<Row>, rs: seq<Incoming>)
    requires shape.unique ==> KeyUnique(table)
    ensures multiset(After(shape, table, rs, Upsert)) == multiset(table) <==> !shape.unique || Stands(shape, table, rs)
  {
    hide After, UpsertedAll, KeyUnique, Stands;
    AfterUpsert(shape, table, rs);
    if shape.unique {
      UpsertLoopStandsIff(shape, table, rs);
    }
  }

  /** When the two strategies leave the same rows. Without the unique constraint upsert fails, so the batch
      must be exactly the stored rows of its keys. With it and distinct keys both commit, and no replaced
      row may hold a value in a column the batch lacks. With it and a repeated key delete-insert fails, so
      the batch must already stand in the table. */
  lemma UpsertIsDeleteInsertIff(shape: Shape, table: seq<Row>, rs: seq<Incoming>)
    requires Fits(shape, table, rs) && (shape.unique ==> KeyUnique(table))
    ensures multiset(After(shape, table, rs, Upsert)) == multiset(After(shape, table, rs, DeleteInsert)) <==>
      if !shape.unique then multiset(Covered(table, rs)) == multiset(FilterMap(rs, StoredFn(shape)))
      else if DistinctIncoming(rs) then NoExtrasHit(shape, table, rs)
      else Stands(shape, table, rs)
  {
    hide InsertAll, UpsertedAll, DeletedAll, After, KeyUnique, DistinctIncoming, NoExtrasHit, Stands, FilterMap, Fits, Covered;
    AfterUpsert(shape, table, rs);
    AfterDeleteInsert(shape, table, rs);
    if !shape.unique {
      SplitByCover(table, rs);
      Cancel(multiset(DeletedAll(table, rs)), multiset(Covered(table, rs)), multiset(FilterMap(rs, StoredFn(shape))));
    } else if DistinctIncoming(rs) {
      LoopsAgreeIff(shape, table, rs);
    } else {
      UpsertLoopStandsIff(shape, table, rs);
    }
  }

  lemma Cancel<T>(a: multiset<T>, b: multiset<T>, c: multiset<T>)
    ensures a + b == a + c <==> b == c
  {
    assert a + b - a == b && a + c - a == c;
  }
}

/** How the statement loops of upsert and delete-insert compare, what they count and when they fail. */
module PostgresWriteLaws {
  import opened Lists
  import opened PostgresWrite

  // ---- Keys ----

  predicate KeyUnique(table: seq<Row>) {
    forall i, j :: 0 <= i < j < |table| ==> !Matches(table[i].key, table[j].key)
  }

  predicate DistinctIncoming(rs: seq<Incoming>) {
    forall i, j :: 0 <= i < j < |rs| ==> !Matches(rs[i].key, rs[j].key)
  }

  /** Some incoming row has this key. */
  predicate Covers(rs: seq<Incoming>, key: seq<Cell>) {
    exists r <- rs :: Matches(r.key, key)
  }

  predicate NoNullKeys(rs: seq<Incoming>) {
    forall r <- rs :: Null !in r.key
  }

  lemma CoversSnoc(rs: seq<Incoming>, key: seq<Cell>)
    requires rs != []
    ensures Covers(rs, key) <==> Covers(rs[..|rs| - 1], key) || Matches(rs[|rs| - 1].key, key)
  {
    var n := |rs| - 1;
    assert rs == rs[..n] + [rs[n]];
    hide Matches;
    if r :| r in rs && Matches(r.key, key) {
      assert r in rs[..n] || r == rs[n];
    }
  }

  lemma DistinctSnoc(rs: seq<Incoming>)
    requires rs != []
    ensures DistinctIncoming(rs) <==> DistinctIncoming(rs[..|rs| - 1]) && !Covers(rs[..|rs| - 1], rs[|rs| - 1].key)
  {
    hide Matches;
    var n := |rs| - 1;
    if Covers(rs[..n], rs[n].key) {
      var r :| r in rs[..n] && Matches(r.key, rs[n].key);
      var i :| 0 <= i < n && rs[i] == r;
      assert !DistinctIncoming(rs);
    } else {
      forall i | 0 <= i < n
        ensures !Matches(rs[i].key, rs[n].key)
      {
        assert rs[..n][i] in rs[..n];
      }
      if DistinctIncoming(rs[..n]) {
        forall i, j | 0 <= i < j < |rs|
          ensures !Matches(rs[i].key, rs[j].key)
        {
          if j < n {
            assert rs[..n][i] == rs[i] && rs[..n][j] == rs[j];
          }
        }
      }
    }
  }

  lemma {:induction false} UniqueCount(table: seq<Row>, key: seq<Cell>)
    requires KeyUnique(table)
    ensures KeyCount(table, key) <= 1
  {
    forall i, j | 0 <= i < j < |table|
      ensures MatchFn(key)(table[i]).None? || MatchFn(key)(table[j]).None?
    {
      assert !Matches(table[i].key, table[j].key);
    }
    FilterMapFew(table, MatchFn(key));
  }

  lemma NullCount(table: seq<Row>, key: seq<Cell>)
    requires Null in key
    ensures KeyCount(table, key) == 0
  {
    FilterMapNone(table, MatchFn(key));
  }

  lemma SameKeyCount(table: seq<Row>, a: seq<Cell>, b: seq<Cell>)
    requires Matches(a, b)
    ensures KeyCount(table, a) == KeyCount(table, b)
  {
  }

  lemma PresentRow(table: seq<Row>, key: seq<Cell>)
    ensures KeyCount(table, key) > 0 <==> exists x <- table :: Matches(x.key, key)
  {
    var f := MatchFn(key);
    if KeyCount(table, key) > 0 {
      var x := FilterMap(table, f)[0];
      assert x in FilterMap(table, f);
      FilterMapMember(table, f, x);
    } else {
      forall x | x in table
        ensures !Matches(x.key, key)
      {
        FilterMapMember(table, f, x);
      }
    }
  }

  lemma CountConcat(a: seq<Row>, b: seq<Row>, key: seq<Cell>)
    ensures KeyCount(a + b, key) == KeyCount(a, key) + KeyCount(b, key)
  {
    FilterMapConcat(a, b, MatchFn(key));
  }

  lemma CountOne(x: Row, key: seq<Cell>)
    ensures KeyCount([x], key) == if Matches(x.key, key) then 1 else 0
  {
    FilterMapSnoc([], x, MatchFn(key));
    assert [] + [x] == [x];
  }

  // ---- One statement ----

  lemma DeletedRowCount(table: seq<Row>, k: seq<Cell>, key: seq<Cell>)
    ensures KeyCount(Deleted(table, k), key) == if Matches(k, key) then 0 else KeyCount(table, key)
  {
    var f := MatchFn(key);
    if Matches(k, key) {
      var none := (x: Row) => if Matches(x.key, k) then None else f(x);
      FilterMapCompose(table, OtherFn(k), f, none);
      FilterMapNone(table, none);
    } else {
      FilterMapCompose(table, OtherFn(k), f, f);
    }
  }

  /** An update changes no key. */
  lemma UpdatedRowCount(shape: Shape, table: seq<Row>, r: Incoming, key: seq<Cell>)
    ensures KeyCount(FilterMap(table, UpdateFn(shape, r)), key) == KeyCount(table, key)
  {
    var f, u := MatchFn(key), UpdateFn(shape, r);
    var h := (x: Row) => f(u(x).value);
    FilterMapCompose(table, u, f, h);
    FilterMapLonger(table, h, f);
    FilterMapLonger(table, f, h);
  }

  lemma UpsertedRowCount(shape: Shape, table: seq<Row>, r: Incoming, key: seq<Cell>)
    ensures KeyCount(Upserted(shape, table, r), key) ==
      if Matches(r.key, key) && KeyCount(table, r.key) == 0 then 1 else KeyCount(table, key)
  {
    UpdatedRowCount(shape, table, r, key);
    hide KeyCount;
    CountConcat(table, [Stored(shape, r)], key);
    CountOne(Stored(shape, r), key);
    if Matches(r.key, key) {
      SameKeyCount(table, r.key, key);
    }
  }

  // ---- All rows ----

  lemma {:induction false} DeletedAllCount(table: seq<Row>, rs: seq<Incoming>, key: seq<Cell>)
    ensures KeyCount(DeletedAll(table, rs), key) == if Covers(rs, key) then 0 else KeyCount(table, key)
  {
    hide KeyCount, Deleted, Matches;
    if rs != [] {
      DeletedAllCount(table, rs[..|rs| - 1], key);
      DeletedRowCount(DeletedAll(table, rs[..|rs| - 1]), rs[|rs| - 1].key, key);
      CoversSnoc(rs, key);
    }
  }

  /** Upserting leaves at most one row per key, and one for every incoming key. */
  lemma {:induction false} UpsertedAllCount(shape: Shape, table: seq<Row>, rs: seq<Incoming>, key: seq<Cell>)
    ensures !Covers(rs, key) ==> KeyCount(UpsertedAll(shape, table, rs), key) == KeyCount(table, key)
    ensures Covers(rs, key) ==> KeyCount(UpsertedAll(shape, table, rs), key) > 0
    ensures KeyCount(table, key) <= 1 ==> KeyCount(UpsertedAll(shape, table, rs), key) <= 1
  {
    hide KeyCount, Upserted;
    if rs != [] {
      var before, r := UpsertedAll(shape, table, rs[..|rs| - 1]), rs[|rs| - 1];
      UpsertedAllCount(shape, table, rs[..|rs| - 1], key);
      UpsertedRowCount(shape, before, r, key);
      CoversSnoc(rs, key);
      if Matches(r.key, key) {
        SameKeyCount(before, r.key, key);
      }
    }
  }

  lemma ConflictsSnoc(shape: Shape, table: seq<Row>, rs: seq<Incoming>)
    requires rs != []
    ensures
      var init, r := rs[..|rs| - 1], rs[|rs| - 1];
      && Conflicts(shape, table, rs) ==
           Conflicts(shape, table, init) + (if KeyCount(UpsertedAll(shape, table, init), r.key) > 0 then 1 else 0)
      && DeletedCount(table, rs) == DeletedCount(table, init) + KeyCount(DeletedAll(table, init), r.key)
  {
  }

  /** The updates upsert reports are at least the deletes delete-insert reports, and the same number
      exactly when no key comes in twice. */
  lemma {:induction false} UpdatesMatchDeletes(shape: Shape, table: seq<Row>, rs: seq<Incoming>)
    requires KeyUnique(table)
    ensures Conflicts(shape, table, rs) >= DeletedCount(table, rs)
    ensures Conflicts(shape, table, rs) == DeletedCount(table, rs) <==> DistinctIncoming(rs)
  {
    if rs != [] {
      var init, r := rs[..|rs| - 1], rs[|rs| - 1];
      UpdatesMatchDeletes(shape, table, init);
      ConflictsSnoc(shape, table, rs);
      UniqueCount(table, r.key);
      UpsertedAllCount(shape, table, init, r.key);
      DeletedAllCount(table, init, r.key);
      DistinctSnoc(rs);
      hide KeyCount, Conflicts, DeletedCount, UpsertedAll, DeletedAll, KeyUnique, DistinctIncoming, Covers;
    }
  }

  // ---- The same table ----

  /** Without other columns there is nothing in `rest`. */
  predicate Fits(shape: Shape, table: seq<Row>, rs: seq<Incoming>) {
    !shape.hasRest ==> (forall x <- table :: x.rest == []) && (forall r <- rs :: r.rest == [])
  }

  predicate DefaultExtra(shape: Shape, x: Row) {
    x.extra == seq(shape.extras, i => Null)
  }

  /** No incoming key hits a row holding something in a column the incoming rows do not have. */
  predicate NoExtrasHit(shape: Shape, table: seq<Row>, rs: seq<Incoming>) {
    forall x <- table :: Covers(rs, x.key) ==> DefaultExtra(shape, x)
  }

  lemma UpdatedIsStored(shape: Shape, x: Row, r: Incoming)
    requires Matches(x.key, r.key) && DefaultExtra(shape, x) && (!shape.hasRest ==> x.rest == [] && r.rest == [])
    ensures UpdateFn(shape, r)(x) == Some(Stored(shape, r))
  {
  }

  function UpdateMatchFn(shape: Shape, r: Incoming): Row -> Option<Row> {
    (x: Row) => if Matches(x.key, r.key) then UpdateFn(shape, r)(x) else None
  }

  lemma MatchedAreStored(shape: Shape, table: seq<Row>, r: Incoming)
    requires KeyCount(table, r.key) == 1
    requires forall x <- table :: Matches(x.key, r.key) ==> UpdateFn(shape, r)(x) == Some(Stored(shape, r))
    ensures FilterMap(table, UpdateMatchFn(shape, r)) == [Stored(shape, r)]
  {
    var m := UpdateMatchFn(shape, r);
    FilterMapLonger(table, MatchFn(r.key), m);
    FilterMapLonger(table, m, MatchFn(r.key));
    hide FilterMap, Matches;
    var one := FilterMap(table, m);
    assert one[0] in one;
    FilterMapMember(table, m, one[0]);
  }

  /** Updating the row of a key is deleting it and storing the new one. */
  lemma UpdateIsReplace(shape: Shape, table: seq<Row>, r: Incoming)
    requires KeyCount(table, r.key) == 1
    requires forall x <- table :: Matches(x.key, r.key) ==> UpdateFn(shape, r)(x) == Some(Stored(shape, r))
    ensures multiset(FilterMap(table, UpdateFn(shape, r))) == multiset(Deleted(table, r.key)) + multiset{Stored(shape, r)}
  {
    hide FilterMap, Matches, KeyCount;
    MatchedAreStored(shape, table, r);
    FilterMapSplit(table, OtherFn(r.key), UpdateMatchFn(shape, r), UpdateFn(shape, r));
  }

  lemma DeleteNothing(table: seq<Row>, key: seq<Cell>)
    requires KeyCount(table, key) == 0
    ensures Deleted(table, key) == table
  {
    forall x | x in table
      ensures OtherFn(key)(x) == Some(x)
    {
      PresentRow(table, key);
    }
    hide FilterMap;
    FilterMapAll(table, OtherFn(key));
  }

  lemma CountPermuted(a: seq<Row>, b: seq<Row>, key: seq<Cell>)
    requires multiset(a) == multiset(b)
    ensures KeyCount(a, key) == KeyCount(b, key)
  {
    FilterMapPermuted(a, b, MatchFn(key));
    var x, y := FilterMap(a, MatchFn(key)), FilterMap(b, MatchFn(key));
    assert |multiset(x)| == |x| && |multiset(y)| == |y|;
  }

  lemma {:induction false} StoredCount(shape: Shape, rs: seq<Incoming>, key: seq<Cell>)
    ensures KeyCount(FilterMap(rs, StoredFn(shape)), key) == 0 <==> !Covers(rs, key)
  {
    hide Matches;
    if rs != [] {
      var init, r := rs[..|rs| - 1], rs[|rs| - 1];
      StoredCount(shape, init, key);
      CoversSnoc(rs, key);
      assert FilterMap(rs, StoredFn(shape)) == FilterMap(init, StoredFn(shape)) + [Stored(shape, r)];
      hide KeyCount, FilterMap;
      CountConcat(FilterMap(init, StoredFn(shape)), [Stored(shape, r)], key);
      CountOne(Stored(shape, r), key);
    }
  }

  lemma SymmetricMatch(a: seq<Cell>, b: seq<Cell>)
    ensures Matches(a, b) <==> Matches(b, a)
  {
  }

  lemma DeletedMembers(table: seq<Row>, rs: seq<Incoming>, x: Row)
    ensures x in DeletedAll(table, rs) <==> x in table && !Covers(rs, x.key)
    decreases |rs|
  {
    if rs != [] {
      var n := |rs| - 1;
      DeletedMembers(table, rs[..n], x);
      CoversSnoc(rs, x.key);
      SymmetricMatch(x.key, rs[n].key);
      FilterMapMember(DeletedAll(table, rs[..n]), OtherFn(rs[n].key), x);
      hide FilterMap, Matches, Covers;
    }
  }

  /** One more upsert against one more delete and insert. */
  lemma SameTableStep(shape: Shape, up: seq<Row>, del: seq<Row>, stored: seq<Row>, r: Incoming)
    requires multiset(up) == multiset(del + stored) && KeyCount(stored, r.key) == 0 && KeyCount(del, r.key) <= 1
    requires forall x <- del :: Matches(x.key, r.key) ==> UpdateFn(shape, r)(x) == Some(Stored(shape, r))
    ensures multiset(Upserted(shape, up, r)) == multiset(Deleted(del, r.key) + (stored + [Stored(shape, r)]))
  {
    hide FilterMap, Matches;
    var u := UpdateFn(shape, r);
    CountPermuted(up, del + stored, r.key);
    CountConcat(del, stored, r.key);
    if KeyCount(del, r.key) == 0 {
      DeleteNothing(del, r.key);
    } else {
      FilterMapPermuted(up, del + stored, u);
      FilterMapConcat(del, stored, u);
      UpdateIsReplace(shape, del, r);
      UnmatchedUnchanged(shape, stored, r);
    }
  }

  lemma UnmatchedUnchanged(shape: Shape, table: seq<Row>, r: Incoming)
    requires KeyCount(table, r.key) == 0
    ensures FilterMap(table, UpdateFn(shape, r)) == table
  {
    PresentRow(table, r.key);
    hide FilterMap;
    FilterMapAll(table, UpdateFn(shape, r));
  }

  lemma {:induction false} SameTable(shape: Shape, table: seq<Row>, rs: seq<Incoming>)
    requires KeyUnique(table) && DistinctIncoming(rs) && NoExtrasHit(shape, table, rs) && Fits(shape, table, rs)
    ensures multiset(UpsertedAll(shape, table, rs)) == multiset(Appended(shape, DeletedAll(table, rs), rs))
  {
    if rs == [] {
      assert FilterMap(rs, StoredFn(shape)) == [];
      assert Appended(shape, table, rs) == table + [];
    } else {
      var n := |rs| - 1;
      var init, r := rs[..n], rs[n];
      assert FilterMap(rs, StoredFn(shape)) == FilterMap(init, StoredFn(shape)) + [Stored(shape, r)];
      hide FilterMap, KeyCount, Matches, Deleted, Upserted, KeyUnique, DistinctIncoming, NoExtrasHit, Fits;
      DistinctSnoc(rs);
      ShorterFits(shape, table, rs);
      SameTable(shape, table, init);
      UniqueCount(table, r.key);
      DeletedAllCount(table, init, r.key);
      StoredCount(shape, init, r.key);
      HitsAreStored(shape, table, rs);
      SameTableStep(shape, UpsertedAll(shape, table, init), DeletedAll(table, init), FilterMap(init, StoredFn(shape)), r);
    }
  }

  lemma ShorterFits(shape: Shape, table: seq<Row>, rs: seq<Incoming>)
    requires rs != [] && NoExtrasHit(shape, table, rs) && Fits(shape, table, rs)
    ensures NoExtrasHit(shape, table, rs[..|rs| - 1]) && Fits(shape, table, rs[..|rs| - 1])
  {
    hide Matches;
    forall x | x in table && Covers(rs[..|rs| - 1], x.key)
      ensures DefaultExtra(shape, x)
    {
      CoversSnoc(rs, x.key);
    }
  }

  lemma HitsAreStored(shape: Shape, table: seq<Row>, rs: seq<Incoming>)
    requires rs != [] && NoExtrasHit(shape, table, rs) && Fits(shape, table, rs)
    ensures
      var r := rs[|rs| - 1];
      forall x <- DeletedAll(table, rs[..|rs| - 1]) :: Matches(x.key, r.key) ==> UpdateFn(shape, r)(x) == Some(Stored(shape, r))
  {
    var n := |rs| - 1;
    forall x | x in DeletedAll(table, rs[..n]) && Matches(x.key, rs[n].key)
      ensures UpdateFn(shape, rs[n])(x) == Some(Stored(shape, rs[n]))
    {
      DeletedMembers(table, rs[..n], x);
      CoversSnoc(rs, x.key);
      assert rs[n] in rs;
      UpdatedIsStored(shape, x, rs[n]);
    }
  }

  lemma RepeatedStored(shape: Shape, rs: seq<Incoming>, i: nat, j: nat)
    requires i < j < |rs| && Matches(rs[i].key, rs[j].key)
    ensures KeyCount(FilterMap(rs, StoredFn(shape)), rs[j].key) >= 2
  {
    var key, f, g := rs[j].key, StoredFn(shape), MatchFn(rs[j].key);
    var h := (r: Incoming) => g(f(r).value);
    FilterMapCompose(rs, f, g, h);
    assert KeyCount(FilterMap(rs, f), key) == |FilterMap(rs, h)|;
    if |FilterMap(rs, h)| <= 1 {
      hide FilterMap;
      FilterMapAtMostOne(rs, h, i, j);
    }
  }

  lemma {:induction false} ExtraSurvives(shape: Shape, table: seq<Row>, rs: seq<Incoming>, x: Row) returns (y: Row)
    requires x in table
    ensures y in UpsertedAll(shape, table, rs) && y.key == x.key && y.extra == x.extra
  {
    if rs == [] {
      y := x;
    } else {
      var n := |rs| - 1;
      var z := ExtraSurvives(shape, table, rs[..n], x);
      var before, r := UpsertedAll(shape, table, rs[..n]), rs[n];
      y := if KeyCount(before, r.key) > 0 then UpdateFn(shape, r)(z).value else z;
      FilterMapMember(before, UpdateFn(shape, r), y);
      hide FilterMap, KeyCount;
    }
  }

  /** On the rows delete-insert leaves, an incoming key has nothing in the extra columns. */
  lemma FreshExtras(shape: Shape, table: seq<Row>, rs: seq<Incoming>, y: Row)
    requires y in Appended(shape, DeletedAll(table, rs), rs) && Covers(rs, y.key)
    ensures DefaultExtra(shape, y)
  {
    DeletedMembers(table, rs, y);
    FilterMapMember(rs, StoredFn(shape), y);
    hide FilterMap, DeletedAll, Covers;
  }

  /** Run to their ends, the two loops leave the same rows exactly when no key comes in twice and no row
      being replaced holds anything in a column the incoming rows lack. */
  lemma LoopsAgreeIff(shape: Shape, table: seq<Row>, rs: seq<Incoming>)
    requires KeyUnique(table) && Fits(shape, table, rs)
    ensures multiset(UpsertedAll(shape, table, rs)) == multiset(Appended(shape, DeletedAll(table, rs), rs))
      <==> DistinctIncoming(rs) && NoExtrasHit(shape, table, rs)
  {
    hide FilterMap, KeyCount, UpsertedAll, DeletedAll, Matches;
    var up, di := UpsertedAll(shape, table, rs), Appended(shape, DeletedAll(table, rs), rs);
    if !DistinctIncoming(rs) {
      var i, j :| 0 <= i < j < |rs| && Matches(rs[i].key, rs[j].key);
      var key := rs[j].key;
      RepeatedStored(shape, rs, i, j);
      CountConcat(DeletedAll(table, rs), FilterMap(rs, StoredFn(shape)), key);
      UniqueCount(table, key);
      UpsertedAllCount(shape, table, rs, key);
      assert KeyCount(up, key) <= 1 < KeyCount(di, key);
      if multiset(up) == multiset(di) {
        CountPermuted(up, di, key);
      }
    } else if !NoExtrasHit(shape, table, rs) {
      var x :| x in table && Covers(rs, x.key) && !DefaultExtra(shape, x);
      var y := ExtraSurvives(shape, table, rs, x);
      if multiset(up) == multiset(di) {
        assert y in multiset(di);
        FreshExtras(shape, table, rs, y);
      }
    } else {
      SameTable(shape, table, rs);
    }
  }

  // ---- Committing ----

  lemma {:induction false} PlainInserts(shape: Shape, table: seq<Row>, rs: seq<Incoming>)
    requires forall key: seq<Cell> :: Covers(rs, key) ==> KeyCount(table, key) == 0
    ensures InsertAll(shape, table, rs, false).Some? <==> !shape.unique || DistinctIncoming(rs)
    ensures InsertAll(shape, table, rs, false).Some? ==> InsertAll(shape, table, rs, false).value == Appended(shape, table, rs)
  {
    hide KeyCount, DistinctIncoming, Matches;
    if rs == [] {
      assert table + [] == table;
      EmptyDistinct();
    } else {
      var n := |rs| - 1;
      var init, r := rs[..n], rs[n];
      var stored := FilterMap(init, StoredFn(shape));
      assert FilterMap(rs, StoredFn(shape)) == stored + [Stored(shape, r)];
      hide FilterMap;
      ShorterCovers(rs);
      PlainInserts(shape, table, init);
      DistinctSnoc(rs);
      CountConcat(table, stored, r.key);
      StoredCount(shape, init, r.key);
      if Null in r.key {
        NullCount(table, r.key);
      } else {
        SelfCovered(rs);
      }
      AppendAssociative(table, stored, [Stored(shape, r)]);
    }
  }

  lemma EmptyDistinct()
    ensures DistinctIncoming([])
  {
  }

  lemma ShorterCovers(rs: seq<Incoming>)
    requires rs != []
    ensures forall key: seq<Cell> :: Covers(rs[..|rs| - 1], key) ==> Covers(rs, key)
  {
    forall key: seq<Cell> | Covers(rs[..|rs| - 1], key)
      ensures Covers(rs, key)
    {
      CoversSnoc(rs, key);
    }
  }

  lemma SelfCovered(rs: seq<Incoming>)
    requires rs != [] && Null !in rs[|rs| - 1].key
    ensures Covers(rs, rs[|rs| - 1].key)
  {
    assert rs[|rs| - 1] in rs;
  }

  /** Delete-insert into a table with the unique constraint commits exactly when no key comes in twice;
      without the constraint it always does. */
  lemma DeleteInsertCommitsIff(shape: Shape, table: seq<Row>, rs: seq<Incoming>)
    ensures Planned(shape, table, rs, DeleteInsert).Committed? <==> !shape.unique || DistinctIncoming(rs)
    ensures Planned(shape, table, rs, DeleteInsert).Committed? ==>
              After(shape, table, rs, DeleteInsert) == Appended(shape, DeletedAll(table, rs), rs)
  {
    forall key: seq<Cell> | Covers(rs, key)
      ensures KeyCount(DeletedAll(table, rs), key) == 0
    {
      DeletedAllCount(table, rs, key);
    }
    PlainInserts(shape, DeletedAll(table, rs), rs);
    hide InsertAll, DeletedAll, KeyCount, Covers;
  }

  lemma {:induction false} UpsertInserts(shape: Shape, table: seq<Row>, rs: seq<Incoming>)
    requires shape.unique
    ensures InsertAll(shape, table, rs, true) == Some(UpsertedAll(shape, table, rs))
  {
    hide Upserted;
    if rs != [] {
      UpsertInserts(shape, table, rs[..|rs| - 1]);
    }
  }

  lemma {:induction false} UnconstrainedUpsertFails(shape: Shape, table: seq<Row>, rs: seq<Incoming>)
    requires !shape.unique && rs != []
    ensures InsertAll(shape, table, rs, true).None?
  {
    hide KeyCount;
    if |rs| > 1 {
      UnconstrainedUpsertFails(shape, table, rs[..|rs| - 1]);
    }
  }

  /** An upsert commits exactly when the target has the unique constraint, or nothing comes in; a table
      this sink creates itself has none. */
  lemma UpsertCommitsIff(shape: Shape, table: seq<Row>, rs: seq<Incoming>)
    ensures Planned(shape, table, rs, Upsert).Committed? <==> shape.unique || rs == []
  {
    if shape.unique {
      UpsertInserts(shape, table, rs);
    } else if rs != [] {
      UnconstrainedUpsertFails(shape, table, rs);
    }
    hide UpsertedAll, Conflicts;
  }

  /** On a table with the unique constraint: upsert always commits, and its receipt and table agree with
      delete-insert's whenever that commits and the target has no columns of its own. */
  lemma ReceiptsAgree(shape: Shape, table: seq<Row>, rs: seq<Incoming>)
    requires shape.unique && KeyUnique(table) && Fits(shape, table, rs)
    ensures
      var up, di := Planned(shape, table, rs, Upsert), Planned(shape, table, rs, DeleteInsert);
      && up.Committed?
      && up.receipt.inserted + (if shape.hasRest then up.receipt.updated else Conflicts(shape, table, rs)) == |rs|
      && (di.Committed? && shape.hasRest ==> up.receipt.updated == di.receipt.deleted)
      && (di.Committed? && NoExtrasHit(shape, table, rs) ==>
            multiset(After(shape, table, rs, Upsert)) == multiset(After(shape, table, rs, DeleteInsert)))
  {
    UpsertInserts(shape, table, rs);
    DeleteInsertCommitsIff(shape, table, rs);
    UpdatesMatchDeletes(shape, table, rs);
    LoopsAgreeIff(shape, table, rs);
    hide InsertAll, UpsertedAll, DeletedAll, Conflicts, DeletedCount, KeyUnique, Fits, NoExtrasHit, DistinctIncoming, Appended;
  }

  // ---- Replay ----

  /** The last incoming row with a key. */
  function LastMatch(rs: seq<Incoming>, key: seq<Cell>): Option<Incoming> {
    if rs == [] then None
    else if Matches(key, rs[|rs| - 1].key) then Some(rs[|rs| - 1])
    else LastMatch(rs[..|rs| - 1], key)
  }

  /** What the incoming rows make of a stored row: the last one with its key wins. */
  function Refreshed(shape: Shape, x: Row, rs: seq<Incoming>): Row {
    var last := LastMatch(rs, x.key);
    if last.Some? && shape.hasRest then x.(rest := last.value.rest) else x
  }

  function RefreshFn(shape: Shape, rs: seq<Incoming>): Row -> Option<Row> {
    (x: Row) => Some(Refreshed(shape, x, rs))
  }

  lemma RefreshStep(shape: Shape, x: Row, rs: seq<Incoming>)
    requires rs != []
    ensures Some(Refreshed(shape, x, rs)) == UpdateFn(shape, rs[|rs| - 1])(Refreshed(shape, x, rs[..|rs| - 1]))
  {
    hide Matches;
  }

  lemma UpsertPresent(shape: Shape, table: seq<Row>, r: Incoming)
    requires KeyCount(table, r.key) > 0
    ensures Upserted(shape, table, r) == FilterMap(table, UpdateFn(shape, r))
  {
  }

  /** When every incoming key is already there, upserting only refreshes rows in place. */
  lemma {:induction false} UpsertRefreshes(shape: Shape, table: seq<Row>, rs: seq<Incoming>)
    requires forall r <- rs :: KeyCount(table, r.key) > 0
    ensures UpsertedAll(shape, table, rs) == FilterMap(table, RefreshFn(shape, rs))
    ensures forall key: seq<Cell> :: KeyCount(UpsertedAll(shape, table, rs), key) == KeyCount(table, key)
  {
    if rs == [] {
      FilterMapAll(table, RefreshFn(shape, rs));
    } else {
      var n := |rs| - 1;
      var init, r := rs[..n], rs[n];
      hide KeyCount, Matches, FilterMap, Refreshed, Upserted;
      assert forall q :: q in init ==> q in rs;
      UpsertRefreshes(shape, table, init);
      var before := UpsertedAll(shape, table, init);
      assert r in rs && KeyCount(before, r.key) > 0;
      forall x: Row
        ensures RefreshFn(shape, rs)(x) == UpdateFn(shape, r)(RefreshFn(shape, init)(x).value)
      {
        RefreshStep(shape, x, rs);
      }
      FilterMapCompose(table, RefreshFn(shape, init), UpdateFn(shape, r), RefreshFn(shape, rs));
      UpsertPresent(shape, before, r);
      forall key: seq<Cell>
        ensures KeyCount(FilterMap(before, UpdateFn(shape, r)), key) == KeyCount(before, key)
      {
        UpdatedRowCount(shape, before, r, key);
      }
    }
  }

  lemma {:induction false} NullUnmatched(rs: seq<Incoming>, key: seq<Cell>)
    ensures Null in key ==> LastMatch(rs, key).None?
  {
    if rs != [] {
      NullUnmatched(rs[..|rs| - 1], key);
    }
  }

  /** After the upserts every row already holds the values of the last incoming row with its key. */
  lemma {:induction false} SettledRows(shape: Shape, table: seq<Row>, rs: seq<Incoming>, x: Row)
    requires x in UpsertedAll(shape, table, rs)
    ensures Refreshed(shape, x, rs) == x
  {
    if rs != [] {
      var n := |rs| - 1;
      var before, r := UpsertedAll(shape, table, rs[..n]), rs[n];
      FilterMapMember(before, UpdateFn(shape, r), x);
      PresentRow(before, r.key);
      hide FilterMap, KeyCount;
      if exists y <- before :: UpdateFn(shape, r)(y) == Some(x) {
        var y :| y in before && UpdateFn(shape, r)(y) == Some(x);
        SettledRows(shape, table, rs[..n], y);
      } else {
        NullUnmatched(rs[..n], x.key);
      }
    }
  }

  lemma {:induction false} UpsertGrows(shape: Shape, table: seq<Row>, rs: seq<Incoming>)
    ensures |UpsertedAll(shape, table, rs)| >= |table|
    ensures !NoNullKeys(rs) ==> |UpsertedAll(shape, table, rs)| > |table|
  {
    if rs != [] {
      var n := |rs| - 1;
      var before, r := UpsertedAll(shape, table, rs[..n]), rs[n];
      UpsertGrows(shape, table, rs[..n]);
      assert rs == rs[..n] + [r];
      UpdateLength(shape, before, r);
      if Null in r.key {
        NullCount(before, r.key);
      }
      hide KeyCount, FilterMap;
    }
  }

  lemma UpdateLength(shape: Shape, table: seq<Row>, r: Incoming)
    ensures |FilterMap(table, UpdateFn(shape, r))| == |table|
  {
    var same := (x: Row) => Some(x);
    FilterMapAll(table, same);
    FilterMapLonger(table, UpdateFn(shape, r), same);
    FilterMapLonger(table, same, UpdateFn(shape, r));
  }

  /** Upserting the same rows again changes nothing exactly when no incoming key holds a null: null keys
      match nothing and are inserted again. */
  lemma UpsertLoopAgainIff(shape: Shape, table: seq<Row>, rs: seq<Incoming>)
    ensures
      var once := UpsertedAll(shape, table, rs);
      UpsertedAll(shape, once, rs) == once <==> NoNullKeys(rs)
  {
    hide UpsertedAll, FilterMap, KeyCount, Matches, Refreshed;
    var once := UpsertedAll(shape, table, rs);
    if NoNullKeys(rs) {
      forall r | r in rs
        ensures KeyCount(once, r.key) > 0
      {
        UpsertedAllCount(shape, table, rs, r.key);
        NullFreeMatches(r.key);
      }
      UpsertRefreshes(shape, once, rs);
      forall x | x in once
        ensures RefreshFn(shape, rs)(x) == Some(x)
      {
        SettledRows(shape, table, rs, x);
      }
      FilterMapAll(once, RefreshFn(shape, rs));
    } else {
      UpsertGrows(shape, once, rs);
    }
  }

  lemma NullFreeMatches(key: seq<Cell>)
    requires Null !in key
    ensures Matches(key, key)
  {
  }

  function UncoveredFn(rs: seq<Incoming>): Row -> Option<Row> {
    (x: Row) => if Covers(rs, x.key) then None else Some(x)
  }

  lemma {:induction false} DeletedAllIsFilter(table: seq<Row>, rs: seq<Incoming>)
    ensures DeletedAll(table, rs) == FilterMap(table, UncoveredFn(rs))
  {
    if rs == [] {
      FilterMapAll(table, UncoveredFn(rs));
    } else {
      var n := |rs| - 1;
      DeletedAllIsFilter(table, rs[..n]);
      forall x | x in table
        ensures UncoveredFn(rs)(x) == if UncoveredFn(rs[..n])(x).Some? then OtherFn(rs[n].key)(x) else None
      {
        CoversSnoc(rs, x.key);
        SymmetricMatch(x.key, rs[n].key);
      }
      hide FilterMap, Covers, Matches;
      FilterMapCompose(table, UncoveredFn(rs[..n]), OtherFn(rs[n].key), UncoveredFn(rs));
    }
  }

  /** So it is for deleting and inserting them again. */
  lemma DeleteInsertLoopAgainIff(shape: Shape, table: seq<Row>, rs: seq<Incoming>)
    ensures
      var once := Appended(shape, DeletedAll(table, rs), rs);
      Appended(shape, DeletedAll(once, rs), rs) == once <==> NoNullKeys(rs)
  {
    hide FilterMap, Covers, DeletedAll;
    var f := UncoveredFn(rs);
    var kept, stored := DeletedAll(table, rs), FilterMap(rs, StoredFn(shape));
    var once := kept + stored;
    DeletedAllIsFilter(once, rs);
    FilterMapConcat(kept, stored, f);
    forall x | x in kept
      ensures f(x) == Some(x)
    {
      DeletedMembers(table, rs, x);
    }
    FilterMapAll(kept, f);
    var again := FilterMap(stored, f);
    assert DeletedAll(once, rs) == kept + again;
    StoredUncovered(shape, rs);
    if again == [] {
      assert kept + again + stored == once;
    } else {
      assert |kept + again + stored| > |once|;
    }
  }

  lemma StoredUncovered(shape: Shape, rs: seq<Incoming>)
    ensures FilterMap(FilterMap(rs, StoredFn(shape)), UncoveredFn(rs)) == [] <==> NoNullKeys(rs)
  {
    var stored, f := FilterMap(rs, StoredFn(shape)), UncoveredFn(rs);
    if NoNullKeys(rs) {
      forall x | x in stored
        ensures f(x).None?
      {
        FilterMapMember(rs, StoredFn(shape), x);
        hide FilterMap;
        var r :| r in rs && Stored(shape, r) == x;
        assert Matches(r.key, x.key);
      }
      FilterMapNone(stored, f);
    } else {
      var r :| r in rs && Null in r.key;
      var x := Stored(shape, r);
      assert !Covers(rs, x.key);
      FilterMapMember(rs, StoredFn(shape), x);
      assert StoredFn(shape)(r) == Some(x);
      FilterMapMember(stored, f, x);
    }
  }
}

/** Where the walker's lists stop being complete: one family of plans per missing hypothesis. */
module LineageLimits {
  import opened Lists
  import opened Lineage
  import opened LineageSoundness
  import opened LineageListing
  import opened LineageNonInterference
  import opened LineageKinds

  // ---- Small plans, one node at a time ----

  function OneRow(t: string, c: string, v: Value): Database {
    map[t := [map[c := v]]]
  }

  function Origin(t: string, c: string, v: Value): Row {
    [Cell(v, {Leaf(Some(t), c)})]
  }

  lemma ScanOne(eng: Engine, t: string, c: string, v: Value)
    ensures
      var p := TableScan(t, [c]);
      && Fields(p) == [Field(Some(t), c)] && Walk(p) == map[c := {Upstream(Some(t), c, Direct)}]
      && Eval(eng, p, OneRow(t, c, v)) == [Origin(t, c, v)]
  {
    assert ScanRow(t, [c], map[c := v]) == Origin(t, c, v);
  }

  lemma MapOne(row: Row, f: Row -> Option<Row>)
    ensures FilterMap([row], f) == Opt(f(row))
  {
    FilterMapSnoc([], row, f);
    assert [] + [row] == [row];
  }

  lemma EvalOne(eng: Engine, e: Expr, fs: seq<Field>, row: Row)
    ensures EvalExprs(eng, [e], fs, row) == [EvalExpr(eng, e, fs, row)]
  {
  }

  lemma ProjectOne(eng: Engine, e: Expr, q: Plan, db: Database, row: Row)
    requires Eval(eng, q, db) == [row]
    ensures Eval(eng, Projection([e], q), db) == [[EvalExpr(eng, e, Fields(q), row)]]
  {
    hide EvalExpr, EvalExprs, Fields, FilterMap;
    MapOne(row, ProjectFn(eng, [e], Fields(q)));
    EvalOne(eng, e, Fields(q), row);
  }

  lemma WalkOne(e: Expr, q: Plan)
    ensures
      var p := Projection([e], q);
      && Fields(p) == [FieldOf(e)] && KeyOf(p, 0) == FieldOf(e).name
      && Walk(p) == map[FieldOf(e).name := ProjectedRefs(Walk(q), e)]
  {
    hide FieldOf, ProjectedRefs;
    var es, m := [e], Walk(q);
    assert es[..0] == [] && WalkProjection(m, es[..0]) == map[];
  }

  lemma ProjectionNamed(e: Expr, q: Plan)
    ensures WellNamed(Projection([e], q)) <==> WellNamed(q) && Resolves(Walk(q), Refs(e), q)
  {
    hide Walk, Refs, Resolves, ResolvedKeys;
    var es := [e];
    assert es[0] == e;
  }

  // ---- A constant over a filter ----

  function FilteredOn(t: string, c: string): Plan {
    Filter(Column(None, c), TableScan(t, [c]))
  }

  const ONE: Expr := Alias(Literal(Int(1)), "one")

  lemma FilteredNamed(eng: Engine, t: string, c: string)
    ensures WellNamed(FilteredOn(t, c))
  {
    var scan, r := TableScan(t, [c]), (None, c);
    ScanOne(eng, t, c, Null);
    assert KeyOf(scan, 0) == c;
    assert FindField(Fields(scan), r) == Some(0);
    assert Refs(Column(None, c)) == {r};
    hide Walk, Fields, KeyOf;
  }

  lemma FilteredRows(eng: Engine, t: string, c: string, b: bool)
    ensures Eval(eng, FilteredOn(t, c), OneRow(t, c, Bool(b))) == if b then [Origin(t, c, Bool(true))] else []
  {
    var fs, row := [Field(Some(t), c)], Origin(t, c, Bool(b));
    ScanOne(eng, t, c, Bool(b));
    assert FindField(fs, (None, c)) == Some(0);
    assert EvalExpr(eng, Column(None, c), fs, row) == row[0];
    hide FilterMap, EvalExpr;
    MapOne(row, KeepFn(eng, Column(None, c), fs));
  }

  /** `SELECT 1 AS one FROM t WHERE c`: nothing is listed for `one`, yet the filtered column decides
      whether it appears at all. This is why non-interference asks every expression projected over a
      filter to name a column. */
  lemma ConstantColumnLeaks(eng: Engine, t: string, c: string)
    ensures
      var p, yes, no := Projection([ONE], FilteredOn(t, c)), OneRow(t, c, Bool(true)), OneRow(t, c, Bool(false));
      && WellNamed(p) && Fields(p) == [Field(None, "one")] && LeavesAt(p, 0) == {} && !Simple(p)
      && SameCounts(yes, no) && AgreeOn(yes, no, LeavesAt(p, 0))
      && ColumnAt(Eval(eng, p, yes), 0) == [Int(1)] && ColumnAt(Eval(eng, p, no), 0) == []
  {
    ConstantListing(eng, t, c);
    ConstantNotSimple(t, c);
    ConstantRows(eng, t, c);
    hide Walk, Eval, WellNamed, KeyOf, FilteredOn, Fields, Simple;
  }

  lemma ConstantListing(eng: Engine, t: string, c: string)
    ensures
      var p := Projection([ONE], FilteredOn(t, c));
      WellNamed(p) && Fields(p) == [Field(None, "one")] && LeavesAt(p, 0) == {}
  {
    var q := FilteredOn(t, c);
    FilteredNamed(eng, t, c);
    assert Refs(ONE) == {};
    hide Walk, WellNamed, KeyOf, FilteredOn, Fields;
    assert ProjectedRefs(Walk(q), ONE) == {};
    ProjectionNamed(ONE, q);
    WalkOne(ONE, q);
  }

  lemma ConstantNotSimple(t: string, c: string)
    ensures !Simple(Projection([ONE], FilteredOn(t, c)))
  {
    assert Refs(Column(None, c)) == {(None, c)};
    assert Refs(ONE) == {};
    FilterIsListed(t, c);
    assert !RowsFixed(FilteredOn(t, c));
    assert ONE in [ONE];
  }

  lemma FilterIsListed(t: string, c: string)
    ensures !ReadsNothingListed(Column(None, c), TableScan(t, [c]))
  {
    var e, u := Column(None, c), Upstream(Some(t), c, Direct);
    var m := Walk(TableScan(t, [c]));
    assert m == map[c := {u}];
    assert (None, c) in Refs(e) && Resolve(m, (None, c)) == c;
    assert c in ResolvedKeys(m, e) && u in m[c];
    assert Leaf(Some(t), c) in KeyLeaves(m, ResolvedKeys(m, e));
  }

  lemma ConstantRows(eng: Engine, t: string, c: string)
    ensures
      var p := Projection([ONE], FilteredOn(t, c));
      && ColumnAt(Eval(eng, p, OneRow(t, c, Bool(true))), 0) == [Int(1)]
      && ColumnAt(Eval(eng, p, OneRow(t, c, Bool(false))), 0) == []
  {
    var q := FilteredOn(t, c);
    FilteredRows(eng, t, c, true);
    FilteredRows(eng, t, c, false);
    hide Eval, FilteredOn, OneRow, Origin, Fields;
    ProjectOne(eng, ONE, q, OneRow(t, c, Bool(true)), Origin(t, c, Bool(true)));
    NoRows(eng, ONE, q, OneRow(t, c, Bool(false)));
    assert EvalExpr(eng, ONE, Fields(q), Origin(t, c, Bool(true))) == Cell(Int(1), {});
  }

  lemma NoRows(eng: Engine, e: Expr, q: Plan, db: Database)
    requires Eval(eng, q, db) == []
    ensures Eval(eng, Projection([e], q), db) == []
  {
  }

  // ---- A grouped column under its qualified name ----

  /** `SELECT t.c FROM t GROUP BY t.c`, whose entry is recorded under `t.c` while its field is `c`. */
  function Grouped(t: string, c: string): Plan {
    Aggregate([Column(Some(t), c)], [], TableScan(t, [c]))
  }

  lemma GatherOne(m: LineageMap, t: string, c: string)
    requires m == map[c := {Upstream(Some(t), c, Direct)}]
    ensures WalkGrouped(m, [Column(Some(t), c)], GroupBy) == map[t + "." + c := {Upstream(Some(t), c, GroupBy)}]
  {
    var e, u := Column(Some(t), c), Upstream(Some(t), c, Direct);
    var es := [e];
    var us := Gathered(m, Refs(e), (r: ColumnRef, u: Upstream) => GroupBy);
    assert us == {u.(kind := GroupBy)} by {
      assert Refs(e) == {(Some(t), c)};
      assert Resolve(m, (Some(t), c)) == c;
      assert u in m[c];
      assert u.(kind := GroupBy) in us;
    }
    assert es[..0] == [];
    assert WalkGrouped(m, es[..0], GroupBy) == map[];
  }

  lemma GroupedWalk(eng: Engine, t: string, c: string)
    ensures
      var p := Grouped(t, c);
      && Fields(p) == [Field(Some(t), c)] && KeyOf(p, 0) == t + "." + c != c
      && Walk(p) == map[t + "." + c := {Upstream(Some(t), c, GroupBy)}]
  {
    var m := Walk(TableScan(t, [c]));
    ScanOne(eng, t, c, Null);
    GatherOne(m, t, c);
    assert |t + "." + c| > |c|;
    assert WalkGrouped(m, [], AggregateInput) == map[];
    assert FieldsOf([]) == [];
  }

  lemma GroupedCell(eng: Engine, t: string, c: string, v: Value)
    ensures Eval(eng, Grouped(t, c), OneRow(t, c, v)) == [Origin(t, c, v)]
  {
    var p, e, fs, row := Grouped(t, c), Column(Some(t), c), [Field(Some(t), c)], Origin(t, c, v);
    ScanOne(eng, t, c, v);
    assert FindField(fs, (Some(t), c)) == Some(0);
    assert EvalExpr(eng, e, fs, row) == row[0];
    OneGroup(eng, p, row);
    OneGroupCell(eng, e, fs, row);
    hide CellsOver, EvalExpr, AggregateRows;
    assert From(row) == row[0].from + From(row[1..]);
    assert GroupCell(eng, e, fs, [row]) == row[0];
    assert GroupRow(eng, p, [row]) == [row[0]];
  }

  lemma OneGroup(eng: Engine, p: Plan, row: Row)
    requires p.Aggregate? && p.group != []
    ensures AggregateRows(eng, p, [row]) == [GroupRow(eng, p, [row])]
  {
    var fs := Fields(p.input);
    var key := KeyValues(eng, p.group, fs, row);
    var rows: seq<Row> := [row];
    hide GroupRow, KeyValues, Fields;
    assert rows[..0] == [] && GroupKeys(eng, p.group, fs, rows[..0]) == [];
    assert GroupKeys(eng, p.group, fs, rows) == [key];
    MapOne(row, MemberFn(eng, p.group, fs, key));
  }

  lemma OneGroupCell(eng: Engine, e: Expr, fs: seq<Field>, row: Row)
    ensures CellsOver(eng, [e], fs, [row]) == [EvalExpr(eng, e, fs, row)]
  {
    var rows: seq<Row> := [row];
    hide EvalExpr, EvalExprs;
    EvalOne(eng, e, fs, row);
    assert rows[1..] == [] && CellsOver(eng, [e], fs, rows[1..]) == [];
  }

  lemma UnionOne(eng: Engine, q: Plan, db: Database)
    ensures Eval(eng, Union([q]), db) == Eval(eng, q, db)
    ensures Fields(Union([q])) == Unqualified(Fields(q))
    ensures Walk(Union([q])) == MergeInput(EmptyMap(Unqualified(Fields(q))), Walk(q), Unqualified(Fields(q)), Fields(q))
  {
    var ps, names := [q], Unqualified(Fields(q));
    assert ps[1..] == [] && ps[..0] == [];
    assert EvalAll(eng, ps[1..], db) == [];
    assert WalkAll(ps[..0], names) == EmptyMap(names);
    assert WalkAll(ps, names) == MergeInput(WalkAll(ps[..0], names), Walk(ps[0]), names, Fields(ps[0]));
  }

  /** A union looks its inputs' columns up under their field names, so directly over a grouped
      qualified column it finds nothing: the value's origin is missing from the list. This is why the
      soundness theorem asks that a union's inputs record each column under its field name. */
  lemma UnionLosesGroupedColumn(eng: Engine, t: string, c: string, v: Value)
    ensures
      var p := Union([Grouped(t, c)]);
      && Fields(p) == [Field(None, c)] && LeavesAt(p, 0) == {} && !WellNamed(p)
      && Eval(eng, p, OneRow(t, c, v)) == [Origin(t, c, v)]
  {
    var q, names := Grouped(t, c), [Field(None, c)];
    var p := Union([q]);
    GroupedWalk(eng, t, c);
    GroupedCell(eng, t, c, v);
    UnionOne(eng, q, OneRow(t, c, v));
    assert KeyOf(p, 0) == Fields(p)[0].name;
    assert p.inputs[0] == q && KeyOf(q, 0) != Fields(q)[0].name;
    assert !WellNamed(p);
    hide Eval, Walk, Fields, KeyOf, Grouped, WellNamed;
    assert Unqualified([Field(Some(t), c)]) == names;
    assert names[..0] == [];
    assert MergeInput(EmptyMap(names), Walk(q), names, [Field(Some(t), c)]) == EmptyMap(names);
    assert EmptyMap(names)[c] == {} by {
      assert names[0] in names;
    }
  }

  /** Renaming the grouped relation makes the reference `a.c` match neither `c` nor `t.c`: a
      projection then lists the column `c` of a table named after the alias, which the plan never
      scans, and not the column the value came from. */
  lemma AliasHidesGroupedColumn(eng: Engine, t: string, c: string, a: string, v: Value)
    requires a != t
    ensures
      var p := Projection([Column(Some(a), c)], SubqueryAlias(a, Grouped(t, c)));
      && Fields(p) == [Field(Some(a), c)] && !WellNamed(p)
      && LeavesAt(p, 0) == {Leaf(Some(a), c)} && ScanLeaves(p) == {Leaf(Some(t), c)}
      && Eval(eng, p, OneRow(t, c, v)) == [Origin(t, c, v)]
  {
    var q, e, r := SubqueryAlias(a, Grouped(t, c)), Column(Some(a), c), (Some(a), c);
    AliasNode(eng, t, c, a, v);
    PrefixedDiffer(a, t, c);
    AliasUnresolved(q, t, c, a);
    hide Eval, Walk, Fields, KeyOf, Grouped, WellNamed, ScanLeaves, Resolves, Refs;
    UnresolvedKept(Walk(q), a, c);
    WalkOne(e, q);
    ProjectionNamed(e, q);
    ProjectOne(eng, e, q, OneRow(t, c, v), Origin(t, c, v));
    assert FindField([Field(Some(a), c)], r) == Some(0);
  }

  lemma AliasNode(eng: Engine, t: string, c: string, a: string, v: Value)
    ensures
      var q := SubqueryAlias(a, Grouped(t, c));
      && Fields(q) == [Field(Some(a), c)] && KeyOf(q, 0) == t + "." + c
      && Walk(q) == map[t + "." + c := {Upstream(Some(t), c, GroupBy)}]
      && Eval(eng, q, OneRow(t, c, v)) == [Origin(t, c, v)]
      && ScanLeaves(Projection([Column(Some(a), c)], q)) == {Leaf(Some(t), c)}
  {
    GroupedWalk(eng, t, c);
    GroupedCell(eng, t, c, v);
    var g, scan := Grouped(t, c), TableScan(t, [c]);
    assert ScanLeaves(scan) == {Leaf(Some(t), c)} && ScanLeaves(g) == ScanLeaves(scan);
    hide Grouped;
  }

  lemma AliasUnresolved(q: Plan, t: string, c: string, a: string)
    requires Fields(q) == [Field(Some(a), c)] && KeyOf(q, 0) == t + "." + c != a + "." + c
    requires Walk(q) == map[t + "." + c := {Upstream(Some(t), c, GroupBy)}]
    ensures c !in Walk(q) && a + "." + c !in Walk(q)
    ensures !Resolves(Walk(q), Refs(Column(Some(a), c)), q)
  {
    var r := (Some(a), c);
    assert |t + "." + c| > |c|;
    assert Refs(Column(Some(a), c)) == {r};
    assert FindField([Field(Some(a), c)], r) == Some(0);
    hide Walk, KeyOf, Fields;
  }

  lemma UnresolvedKept(m: LineageMap, a: string, c: string)
    requires c !in m && a + "." + c !in m
    ensures ProjectedRefs(m, Column(Some(a), c)) == {Upstream(Some(a), c, Direct)}
  {
    var e := Column(Some(a), c);
    assert Refs(e) == {(Some(a), c)};
    assert Gathered(m, Refs(e), (r: ColumnRef, u: Upstream) => u.kind) == {};
    assert Upstream(Some(a), c, Direct) in ProjectedRefs(m, e);
  }

  lemma PrefixedDiffer(a: string, t: string, c: string)
    requires a != t
    ensures a + "." + c != t + "." + c
  {
    var x, y := a + "." + c, t + "." + c;
    assert |x| == |a| + 1 + |c| && |y| == |t| + 1 + |c|;
    assert |x| == |y| ==> a == x[..|a|] && t == y[..|a|];
  }

  // ---- A computed column under a join's residual filter ----

  function Computed(op: string, t: string, c: string): Plan {
    Projection([Alias(Call(op, [Column(None, c)]), "x")], TableScan(t, [c]))
  }

  /** `SELECT * FROM (SELECT op(c) AS x FROM t) JOIN (one row) ON x`. */
  function FilteredJoin(op: string, t: string, c: string): Plan {
    Join(Computed(op, t, c), Values([], [[]]), [], Some(Column(None, "x")), Inner)
  }

  lemma ComputedNode(eng: Engine, op: string, t: string, c: string, v: Value)
    ensures
      var q := Computed(op, t, c);
      && WellNamed(q) && Fields(q) == [Field(None, "x")] && KeyOf(q, 0) == "x"
      && Walk(q) == map["x" := {Upstream(Some(t), c, Derived)}]
      && Eval(eng, q, OneRow(t, c, v)) == [[Cell(eng.call(op, [v]), {Leaf(Some(t), c)})]]
  {
    var scan, col, r := TableScan(t, [c]), Column(None, c), (None, c);
    var e := Alias(Call(op, [col]), "x");
    ScanOne(eng, t, c, v);
    assert KeyOf(scan, 0) == c;
    assert FindField(Fields(scan), r) == Some(0);
    var args := [col];
    assert args[1..] == [];
    assert AllRefs(args) == Refs(args[0]) + AllRefs(args[1..]) == {r};
    assert Refs(e) == {r};
    ComputedCell(eng, op, t, c, v);
    hide Walk, Eval, Fields, KeyOf, Refs, EvalExpr, WellNamed;
    ComputedRefs(Walk(scan), e, t, c);
    ProjectionNamed(e, scan);
    WalkOne(e, scan);
    ProjectOne(eng, e, scan, OneRow(t, c, v), Origin(t, c, v));
    assert WellNamed(scan) by { ScanNamed(t, c); }
  }

  lemma ScanNamed(t: string, c: string)
    ensures WellNamed(TableScan(t, [c]))
  {
  }

  lemma ComputedCell(eng: Engine, op: string, t: string, c: string, v: Value)
    ensures EvalExpr(eng, Alias(Call(op, [Column(None, c)]), "x"), [Field(Some(t), c)], Origin(t, c, v))
         == Cell(eng.call(op, [v]), {Leaf(Some(t), c)})
  {
    var fs, row, col := [Field(Some(t), c)], Origin(t, c, v), Column(None, c);
    assert FindField(fs, (None, c)) == Some(0);
    assert EvalExpr(eng, col, fs, row) == row[0];
    EvalOne(eng, col, fs, row);
    assert ValuesOf([row[0]]) == [v];
    assert From([row[0]]) == row[0].from + From([row[0]][1..]);
  }

  lemma ComputedRefs(m: LineageMap, e: Expr, t: string, c: string)
    requires m == map[c := {Upstream(Some(t), c, Direct)}] && Refs(e) == {(None, c)} && ClassifyExpr(e) == Derived
    ensures ProjectedRefs(m, e) == {Upstream(Some(t), c, Derived)}
  {
    var r: ColumnRef, u := (None, c), Upstream(Some(t), c, Direct);
    assert Resolve(m, r) == c && u in m[c];
    assert u.(kind := Derived) in ProjectedRefs(m, e);
  }

  /** A join marks the columns its residual filter names as filter columns, whatever they were: a computed
      column is then listed with nothing but filter references, and holds no stored value. This is why a
      direct column is only promised to be a copy where no residual filter names a computed column. */
  lemma ResidualFilterHidesComputed(eng: Engine, op: string, t: string, c: string, v: Value)
    requires eng.call(op, [v]) == Bool(true) != v
    ensures
      var p, db, cell := FilteredJoin(op, t, c), OneRow(t, c, v), Cell(Bool(true), {Leaf(Some(t), c)});
      && WellNamed(p) && Fields(p) == [Field(None, "x")] && DirectOnly(Entry(p, 0)) && !Clear(p)
      && Eval(eng, p, db) == [[cell]] && !Copied(db, cell)
  {
    var p, q, r, db := FilteredJoin(op, t, c), Computed(op, t, c), Values([], [[]]), OneRow(t, c, v);
    var cell := Cell(Bool(true), {Leaf(Some(t), c)});
    ComputedNode(eng, op, t, c, v);
    assert Fields(r) == [] && Walk(r) == map[] && Eval(eng, r, db) == [[]] && WellNamed(r);
    NotStored(t, c, v);
    hide Walk, Eval, Fields, KeyOf, WellNamed, Computed, Refs, Clear, Copied, Entry;
    JoinedOnce(eng, p, [cell]);
    FilterMarks(p, t, c);
    JoinParts(eng, p, db);
  }

  lemma NotStored(t: string, c: string, v: Value)
    requires v != Bool(true)
    ensures !Copied(OneRow(t, c, v), Cell(Bool(true), {Leaf(Some(t), c)}))
  {
    var leaf := Leaf(Some(t), c);
    forall u: string, d: string | {leaf} == {Leaf(Some(u), d)}
      ensures u == t && d == c
    {
      assert leaf in {Leaf(Some(u), d)};
    }
  }

  lemma JoinParts(eng: Engine, p: Plan, db: Database)
    requires p.Join? && p.kind == Inner
    ensures Eval(eng, p, db) == JoinRows(eng, p, Eval(eng, p.left, db), Eval(eng, p.right, db))
    ensures WellNamed(p) <==> WellNamed(p.left) && WellNamed(p.right)
    ensures Fields(p) == Fields(p.left) + Fields(p.right)
    ensures Clear(p) ==> MarksDirect(p)
  {
  }

  lemma JoinedOnce(eng: Engine, p: Plan, row: Row)
    requires p.Join? && p.kind == Inner && p.on == [] && p.filter == Some(Column(None, "x"))
    requires Fields(p.left) == [Field(None, "x")] && Fields(p.right) == [] && |row| == 1 && row[0].value == Bool(true)
    ensures JoinRows(eng, p, [row], [[]]) == [row]
  {
    var fs := [Field(None, "x")];
    assert FindField(fs, (None, "x")) == Some(0);
    assert EvalExpr(eng, Column(None, "x"), fs, row) == row[0];
    hide Fields, FilterMap, EvalExpr;
    assert Fields(p.left) + Fields(p.right) == fs && row + [] == row;
    var none: Row := [];
    assert Joins(eng, p, row, none);
    MapOne(none, PairFn(eng, p, row));
    var ls: seq<Row> := [row];
    assert ls[1..] == [];
    assert Pairs(eng, p, ls[1..], [none], false) == [];
    assert Pairs(eng, p, ls, [none], false) == [row];
  }

  lemma FilterMarks(p: Plan, t: string, c: string)
    requires p.Join? && p.kind == Inner && p.on == [] && p.filter == Some(Column(None, "x"))
    requires Fields(p.left) == [Field(None, "x")] && KeyOf(p.left, 0) == "x" && Fields(p.right) == []
    requires Walk(p.left) == map["x" := {Upstream(Some(t), c, Derived)}] && Walk(p.right) == map[]
    ensures |Fields(p)| == 1 && DirectOnly(Entry(p, 0)) && !MarksDirect(p)
  {
    assert Refs(Column(None, "x")) == {(None, "x")};
    assert FilteredNames(p) == {"x"} && OnNames(p.on) == {};
    assert Upstream(Some(t), c, Derived) in Walk(p.left)["x"];
    assert Walk(p) == WalkJoin(Walk(p.left), Walk(p.right), p);
    assert KeyOf(p, 0) == "x";
    hide Fields, KeyOf, Walk, Refs;
  }
}

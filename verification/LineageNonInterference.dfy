/** On plans that neither join nor group, an output column depends on nothing but the base columns
    the walker lists for it. */
module LineageNonInterference {
  import opened Lists
  import opened Lineage
  import opened LineageSoundness
  import opened LineageListing

  /** Scalar expressions only. */
  predicate Scalar(e: Expr) {
    match e
    case Column(_, _) => true
    case Literal(_) => true
    case Cast(x, _) => Scalar(x)
    case TryCast(x, _) => Scalar(x)
    case Alias(x, _) => Scalar(x)
    case Call(_, args) => forall a <- args :: Scalar(a)
    case Window(_, _, _, _) => false
  }

  /** The test reads columns with empty lists only, of an input the walker tracks completely. */
  predicate ReadsNothingListed(e: Expr, input: Plan)
    decreases input, 1
  {
    && WellNamed(input) && Resolves(Walk(input), Refs(e), input) && Simple(input)
    && KeyLeaves(Walk(input), ResolvedKeys(Walk(input), e)) == {}
  }

  /** How many rows come out does not depend on the data: no filter looks at a column that is listed as
      coming from somewhere. */
  predicate RowsFixed(p: Plan)
    decreases p, 0
  {
    match p
    case TableScan(_, _) => true
    case Values(_, _) => true
    case Projection(_, input) => RowsFixed(input)
    case Filter(e, input) => RowsFixed(input) && (Refs(e) == {} || ReadsNothingListed(e, input))
    case SubqueryAlias(_, input) => RowsFixed(input)
    case Union(inputs) => forall q <- inputs :: RowsFixed(q)
    case _ => false
  }

  /** The fragment the walker tracks completely: every projected expression names a column, unless
      no filter below looks at one. */
  predicate Simple(p: Plan)
    decreases p, 0
  {
    match p
    case TableScan(_, _) => true
    case Values(_, _) => true
    case Projection(es, input) => Simple(input) && forall e <- es :: Scalar(e) && (Refs(e) != {} || RowsFixed(input))
    case Filter(e, input) => Simple(input) && Scalar(e)
    case SubqueryAlias(_, input) => Simple(input)
    case Union(inputs) => forall q <- inputs :: Simple(q)
    case _ => false
  }

  ghost predicate SameCounts(db1: Database, db2: Database) {
    forall t: string :: |TableRows(db1, t)| == |TableRows(db2, t)|
  }

  /** The two databases hold the same values in one base column. */
  ghost predicate SameColumn(db1: Database, db2: Database, leaf: Leaf) {
    leaf.table.Some? ==>
      var r1, r2 := TableRows(db1, leaf.table.value), TableRows(db2, leaf.table.value);
      |r1| == |r2| && forall k :: 0 <= k < |r1| ==> Read(r1[k], leaf.column) == Read(r2[k], leaf.column)
  }

  ghost predicate AgreeOn(db1: Database, db2: Database, leaves: set<Leaf>) {
    forall leaf <- leaves :: SameColumn(db1, db2, leaf)
  }

  /** The content of output column i. */
  function ColumnAt(rows: seq<Row>, i: nat): seq<Value> {
    seq(|rows|, k requires 0 <= k < |rows| => if i < |rows[k]| then rows[k][i].value else Null)
  }

  // ---- Expressions ----

  /** The two rows hold the same values in every column the references mean. */
  ghost predicate RowsAgree(refs: set<ColumnRef>, fs: seq<Field>, r1: Row, r2: Row) {
    && |r1| == |r2| == |fs|
    && forall c <- refs :: var i := FindField(fs, c); i.Some? ==> r1[i.value].value == r2[i.value].value
  }

  lemma {:induction false} ExprAgrees(eng: Engine, e: Expr, fs: seq<Field>, r1: Row, r2: Row)
    requires RowsAgree(Refs(e), fs, r1, r2)
    ensures EvalExpr(eng, e, fs, r1).value == EvalExpr(eng, e, fs, r2).value
    decreases e
  {
    match e {
      case Column(q, n) => assert (q, n) in Refs(e);
      case Literal(_) =>
      case Cast(x, to) =>
        ExprAgrees(eng, x, fs, r1, r2);
        assert ValuesOf([EvalExpr(eng, x, fs, r1)]) == ValuesOf([EvalExpr(eng, x, fs, r2)]);
      case TryCast(x, to) =>
        ExprAgrees(eng, x, fs, r1, r2);
        assert ValuesOf([EvalExpr(eng, x, fs, r1)]) == ValuesOf([EvalExpr(eng, x, fs, r2)]);
      case Alias(x, _) => ExprAgrees(eng, x, fs, r1, r2);
      case Call(op, args) => ExprsAgree(eng, args, fs, r1, r2);
      case Window(_, _, _, _) =>
    }
  }

  lemma {:induction false} ExprsAgree(eng: Engine, es: seq<Expr>, fs: seq<Field>, r1: Row, r2: Row)
    requires RowsAgree(AllRefs(es), fs, r1, r2)
    ensures ValuesOf(EvalExprs(eng, es, fs, r1)) == ValuesOf(EvalExprs(eng, es, fs, r2))
    decreases es
  {
    if es != [] {
      ExprAgrees(eng, es[0], fs, r1, r2);
      ExprsAgree(eng, es[1..], fs, r1, r2);
      ValuesTail(EvalExprs(eng, es, fs, r1));
      ValuesTail(EvalExprs(eng, es, fs, r2));
    }
  }

  lemma ValuesTail(cells: seq<Cell>)
    requires cells != []
    ensures ValuesOf(cells) == [cells[0].value] + ValuesOf(cells[1..])
  {
  }

  // ---- Lists of rows ----

  lemma {:induction false} MapAll<A, B>(s: seq<A>, f: A -> Option<B>)
    requires forall x <- s :: f(x).Some?
    ensures |FilterMap(s, f)| == |s|
    ensures forall k :: 0 <= k < |s| ==> f(s[k]).Some? && FilterMap(s, f)[k] == f(s[k]).value
  {
    if s != [] {
      assert s[|s| - 1] in s;
      MapAll(s[..|s| - 1], f);
    }
  }

  /** Filtering two lists by tests that agree position by position keeps the same positions. */
  lemma {:induction false} SameMask(eng: Engine, e: Expr, fs: seq<Field>, s1: seq<Row>, s2: seq<Row>, i: nat)
    requires |s1| == |s2| && ColumnAt(s1, i) == ColumnAt(s2, i)
    requires forall k :: 0 <= k < |s1| ==> (Holds(eng, e, fs, s1[k]) <==> Holds(eng, e, fs, s2[k]))
    ensures ColumnAt(FilterMap(s1, KeepFn(eng, e, fs)), i) == ColumnAt(FilterMap(s2, KeepFn(eng, e, fs)), i)
  {
    hide Holds;
    if s1 != [] {
      var n, f := |s1| - 1, KeepFn(eng, e, fs);
      ColumnInit(s1, i);
      ColumnInit(s2, i);
      SameMask(eng, e, fs, s1[..n], s2[..n], i);
      assert ColumnAt(s1, i)[n] == ColumnAt(s2, i)[n];
      ColumnConcat(FilterMap(s1[..n], f), Opt(f(s1[n])), i);
      ColumnConcat(FilterMap(s2[..n], f), Opt(f(s2[n])), i);
    }
  }

  lemma ColumnInit(s: seq<Row>, i: nat)
    requires s != []
    ensures ColumnAt(s[..|s| - 1], i) == ColumnAt(s, i)[..|s| - 1]
  {
  }

  lemma ColumnConcat(a: seq<Row>, b: seq<Row>, i: nat)
    ensures ColumnAt(a + b, i) == ColumnAt(a, i) + ColumnAt(b, i)
  {
  }

  // ---- Plans ----

  /** Without a filter that looks at a column listed as coming from somewhere, the row count depends on
      table sizes only. */
  lemma {:induction false} RowCountFixed(eng: Engine, p: Plan, db1: Database, db2: Database)
    requires RowsFixed(p) && SameCounts(db1, db2)
    ensures |Eval(eng, p, db1)| == |Eval(eng, p, db2)|
    decreases p, 0
  {
    hide WellNamed, KeyLeaves, Resolves, Fields, ReadsNothingListed;
    match p {
      case TableScan(_, _) =>
      case Values(_, _) =>
      case Projection(es, input) =>
        RowCountFixed(eng, input, db1, db2);
        MapAll(Eval(eng, input, db1), ProjectFn(eng, es, Fields(input)));
        MapAll(Eval(eng, input, db2), ProjectFn(eng, es, Fields(input)));
      case Filter(e, input) =>
        RowCountFixed(eng, input, db1, db2);
        if Refs(e) == {} {
          ConstantTest(eng, e, Fields(input), Eval(eng, input, db1));
          ConstantTest(eng, e, Fields(input), Eval(eng, input, db2));
        } else {
          FilterCountFixed(eng, e, input, db1, db2);
        }
      case SubqueryAlias(_, input) => RowCountFixed(eng, input, db1, db2);
      case Union(inputs) => UnionCountFixed(eng, inputs, db1, db2);
    }
  }

  lemma {:induction false} UnionCountFixed(eng: Engine, ps: seq<Plan>, db1: Database, db2: Database)
    requires (forall q <- ps :: RowsFixed(q)) && SameCounts(db1, db2)
    ensures |EvalAll(eng, ps, db1)| == |EvalAll(eng, ps, db2)|
    decreases ps, 0
  {
    if ps != [] {
      RowCountFixed(eng, ps[0], db1, db2);
      UnionCountFixed(eng, ps[1..], db1, db2);
    }
  }

  /** Such a test has the same value in corresponding rows. */
  lemma {:induction false} FilterCountFixed(eng: Engine, e: Expr, input: Plan, db1: Database, db2: Database)
    requires ReadsNothingListed(e, input) && SameCounts(db1, db2)
    requires |Eval(eng, input, db1)| == |Eval(eng, input, db2)|
    ensures
      var f := KeepFn(eng, e, Fields(input));
      |FilterMap(Eval(eng, input, db1), f)| == |FilterMap(Eval(eng, input, db2), f)|
    decreases input, 2
  {
    hide SameCounts, WellNamed, KeyLeaves, Resolves, Fields, Simple, Wide, InputAgrees, Walk, Eval, FilterMap, EvalExpr, Refs;
    InputNonInterference(eng, input, db1, db2, {});
    var rows1, rows2, f := Eval(eng, input, db1), Eval(eng, input, db2), KeepFn(eng, e, Fields(input));
    forall k | 0 <= k < |rows1|
      ensures f(rows1[k]).Some? == f(rows2[k]).Some?
    {
      ValueAgrees(eng, e, input, rows1, rows2, k, {});
    }
    FilterMapParallel(rows1, rows2, f, f);
  }

  /** A test that reads no column keeps every row or none. */
  lemma ConstantTest(eng: Engine, e: Expr, fs: seq<Field>, rows: seq<Row>)
    requires Refs(e) == {}
    ensures FilterMap(rows, KeepFn(eng, e, fs)) == if EvalExpr(eng, e, [], []).value == Bool(true) then rows else []
  {
    var f := KeepFn(eng, e, fs);
    forall row | row in rows
      ensures EvalExpr(eng, e, fs, row).value == EvalExpr(eng, e, [], []).value
    {
      NoRefsConstant(eng, e, fs, row, [], []);
    }
    if EvalExpr(eng, e, [], []).value == Bool(true) {
      FilterMapAll(rows, f);
    } else {
      FilterMapNone(rows, f);
    }
  }

  lemma {:induction false} NoRefsConstant(eng: Engine, e: Expr, fs: seq<Field>, row: Row, gs: seq<Field>, other: Row)
    requires Refs(e) == {}
    ensures EvalExpr(eng, e, fs, row).value == EvalExpr(eng, e, gs, other).value
    decreases e
  {
    match e {
      case Column(_, _) =>
      case Literal(_) =>
      case Cast(x, to) =>
        NoRefsConstant(eng, x, fs, row, gs, other);
        assert ValuesOf([EvalExpr(eng, x, fs, row)]) == ValuesOf([EvalExpr(eng, x, gs, other)]);
      case TryCast(x, to) =>
        NoRefsConstant(eng, x, fs, row, gs, other);
        assert ValuesOf([EvalExpr(eng, x, fs, row)]) == ValuesOf([EvalExpr(eng, x, gs, other)]);
      case Alias(x, _) => NoRefsConstant(eng, x, fs, row, gs, other);
      case Call(op, args) => NoRefsConstants(eng, args, fs, row, gs, other);
      case Window(_, _, _, _) =>
    }
  }

  lemma {:induction false} NoRefsConstants(eng: Engine, es: seq<Expr>, fs: seq<Field>, row: Row, gs: seq<Field>, other: Row)
    requires AllRefs(es) == {}
    ensures ValuesOf(EvalExprs(eng, es, fs, row)) == ValuesOf(EvalExprs(eng, es, gs, other))
    decreases es
  {
    if es != [] {
      assert Refs(es[0]) == {} && AllRefs(es[1..]) == {};
      NoRefsConstant(eng, es[0], fs, row, gs, other);
      NoRefsConstants(eng, es[1..], fs, row, gs, other);
      ValuesTail(EvalExprs(eng, es, fs, row));
      ValuesTail(EvalExprs(eng, es, gs, other));
    }
  }

  /** Column j of the input, for a reference whose entry is among the leaves agreed on. */
  ghost predicate InputAgrees(input: Plan, rows1: seq<Row>, rows2: seq<Row>, s: set<Leaf>) {
    forall j :: 0 <= j < |Fields(input)| && LeavesAt(input, j) <= s ==> ColumnAt(rows1, j) == ColumnAt(rows2, j)
  }

  /** References whose entries were agreed on read the same values in corresponding rows. */
  lemma ReadsAgree(input: Plan, refs: set<ColumnRef>, rows1: seq<Row>, rows2: seq<Row>, k: nat, s: set<Leaf>)
    requires WellNamed(input) && Resolves(Walk(input), refs, input)
    requires Wide(rows1, |Fields(input)|) && Wide(rows2, |Fields(input)|) && InputAgrees(input, rows1, rows2, s)
    requires KeyLeaves(Walk(input), set c | c in refs :: Resolve(Walk(input), c)) <= s
    requires |rows1| == |rows2| && k < |rows1|
    ensures RowsAgree(refs, Fields(input), rows1[k], rows2[k])
  {
    hide Walk, WellNamed, Resolve, KeyLeaves, Leaves, KeyOf, Fields;
    var m := Walk(input);
    var keys := set c | c in refs :: Resolve(m, c);
    assert rows1[k] in rows1 && rows2[k] in rows2;
    forall c | c in refs && FindField(Fields(input), c).Some?
      ensures
        var j := FindField(Fields(input), c).value;
        rows1[k][j].value == rows2[k][j].value
    {
      var j := FindField(Fields(input), c).value;
      assert Resolve(m, c) in keys;
      LeavesWithin(m, KeyOf(input, j), keys);
      assert LeavesAt(input, j) <= s;
      assert ColumnAt(rows1, j)[k] == ColumnAt(rows2, j)[k];
    }
  }

  /** One reference whose entry was agreed on fixes the number of rows. */
  lemma CountAgrees(input: Plan, c: ColumnRef, refs: set<ColumnRef>, rows1: seq<Row>, rows2: seq<Row>, s: set<Leaf>)
    requires WellNamed(input) && Resolves(Walk(input), refs, input) && c in refs
    requires InputAgrees(input, rows1, rows2, s)
    requires KeyLeaves(Walk(input), set c | c in refs :: Resolve(Walk(input), c)) <= s
    ensures |rows1| == |rows2|
  {
    hide Walk, WellNamed, Resolve, KeyLeaves, Leaves, KeyOf, Fields;
    var m := Walk(input);
    var keys := set c | c in refs :: Resolve(m, c);
    var j := FindField(Fields(input), c).value;
    assert Resolve(m, c) in keys;
    LeavesWithin(m, KeyOf(input, j), keys);
    assert |ColumnAt(rows1, j)| == |rows1| && |ColumnAt(rows2, j)| == |rows2|;
  }

  lemma ProjectionLeavesAt(p: Plan, i: nat)
    requires p.Projection? && WellNamed(p) && i < |p.exprs|
    ensures |Fields(p)| == |p.exprs|
    ensures KeyLeaves(Walk(p.input), ResolvedKeys(Walk(p.input), p.exprs[i])) <= LeavesAt(p, i)
  {
    var m := Walk(p.input);
    assert NoClash(m, p.exprs, FieldNames(p.exprs));
    assert KeyOf(p, i) == FieldOf(p.exprs[i]).name && Walk(p) == WalkProjection(m, p.exprs);
    hide WalkProjection, Walk, KeyLeaves, WellNamed, ResolvedKeys, FieldOf, NoClash, KeyOf;
    ProjectionEntry(m, p.exprs, i);
  }

  lemma FilterLeavesAt(p: Plan, i: nat)
    requires p.Filter? && WellNamed(p) && i < |Fields(p)|
    ensures KeyLeaves(Walk(p.input), ResolvedKeys(Walk(p.input), p.test)) <= LeavesAt(p, i)
  {
    var m := Walk(p.input);
    EveryColumnListed(p.input, i);
    assert KeyOf(p, i) == KeyOf(p.input, i) && Walk(p) == WalkFilter(m, p.test);
    hide Walk, Gathered, KeyOf, Leaves, KeyLeaves, WellNamed;
    LeavesGathered(m, Refs(p.test), (c: ColumnRef, u: Upstream) => FilterBy);
    UnionOfLeaves(m[KeyOf(p.input, i)], FilterRefs(m, p.test));
  }

  /** An expression whose entries were agreed on has the same value in corresponding rows. */
  lemma ValueAgrees(eng: Engine, e: Expr, input: Plan, rows1: seq<Row>, rows2: seq<Row>, k: nat, s: set<Leaf>)
    requires WellNamed(input) && Resolves(Walk(input), Refs(e), input)
    requires Wide(rows1, |Fields(input)|) && Wide(rows2, |Fields(input)|) && InputAgrees(input, rows1, rows2, s)
    requires KeyLeaves(Walk(input), ResolvedKeys(Walk(input), e)) <= s
    requires |rows1| == |rows2| && k < |rows1|
    ensures EvalExpr(eng, e, Fields(input), rows1[k]).value == EvalExpr(eng, e, Fields(input), rows2[k]).value
  {
    hide Walk, WellNamed, KeyLeaves, Fields, Wide, InputAgrees, Resolve, Resolves, EvalExpr, Refs, RowsAgree;
    ReadsAgree(input, Refs(e), rows1, rows2, k, s);
    ExprAgrees(eng, e, Fields(input), rows1[k], rows2[k]);
  }

  lemma ProjectionNames(p: Plan, i: nat)
    requires p.Projection? && WellNamed(p) && i < |p.exprs|
    ensures WellNamed(p.input) && Resolves(Walk(p.input), Refs(p.exprs[i]), p.input)
  {
    assert p.exprs[i] in p.exprs;
    hide Walk, Resolves, NoClash;
  }

  lemma ProjectionAgrees(eng: Engine, p: Plan, rows1: seq<Row>, rows2: seq<Row>, i: nat, s: set<Leaf>)
    requires p.Projection? && WellNamed(p) && i < |p.exprs| && LeavesAt(p, i) <= s
    requires Wide(rows1, |Fields(p.input)|) && Wide(rows2, |Fields(p.input)|) && InputAgrees(p.input, rows1, rows2, s)
    requires Refs(p.exprs[i]) == {} ==> |rows1| == |rows2|
    ensures
      var f := ProjectFn(eng, p.exprs, Fields(p.input));
      ColumnAt(FilterMap(rows1, f), i) == ColumnAt(FilterMap(rows2, f), i)
  {
    hide Walk, WellNamed, KeyLeaves, LeavesAt, Fields, Wide, InputAgrees, Resolve, Resolves, FilterMap, EvalExpr, Refs, ColumnAt;
    var f, e, fs := ProjectFn(eng, p.exprs, Fields(p.input)), p.exprs[i], Fields(p.input);
    ProjectionLeavesAt(p, i);
    ProjectionNames(p, i);
    if c :| c in Refs(e) {
      CountAgrees(p.input, c, Refs(e), rows1, rows2, s);
    }
    MapAll(rows1, f);
    MapAll(rows2, f);
    forall k | 0 <= k < |rows1|
      ensures EvalExpr(eng, e, fs, rows1[k]).value == EvalExpr(eng, e, fs, rows2[k]).value
    {
      ValueAgrees(eng, e, p.input, rows1, rows2, k, s);
    }
    SameColumns(FilterMap(rows1, f), FilterMap(rows2, f), i);
  }

  lemma SameColumns(s1: seq<Row>, s2: seq<Row>, i: nat)
    requires |s1| == |s2|
    requires forall k :: 0 <= k < |s1| ==> i < |s1[k]| && i < |s2[k]| && s1[k][i].value == s2[k][i].value
    ensures ColumnAt(s1, i) == ColumnAt(s2, i)
  {
  }

  lemma FilterNames(p: Plan)
    requires p.Filter? && WellNamed(p)
    ensures WellNamed(p.input) && Resolves(Walk(p.input), Refs(p.test), p.input) && Fields(p) == Fields(p.input)
  {
    hide Walk, Resolves;
  }

  lemma FilterAgrees(eng: Engine, p: Plan, rows1: seq<Row>, rows2: seq<Row>, i: nat, s: set<Leaf>)
    requires p.Filter? && WellNamed(p) && i < |Fields(p)| && LeavesAt(p, i) <= s
    requires Wide(rows1, |Fields(p.input)|) && Wide(rows2, |Fields(p.input)|) && InputAgrees(p.input, rows1, rows2, s)
    ensures
      var f := KeepFn(eng, p.test, Fields(p.input));
      ColumnAt(FilterMap(rows1, f), i) == ColumnAt(FilterMap(rows2, f), i)
  {
    var e, fs := p.test, Fields(p.input);
    FilterLeavesAt(p, i);
    FilterEntry(p, i);
    FilterNames(p);
    assert ColumnAt(rows1, i) == ColumnAt(rows2, i);
    assert |ColumnAt(rows1, i)| == |rows1| && |ColumnAt(rows2, i)| == |rows2|;
    hide Walk, WellNamed, KeyLeaves, LeavesAt, Fields, Wide, Resolve, Resolves, FilterMap, EvalExpr, Refs, RowsAgree;
    forall k | 0 <= k < |rows1|
      ensures Holds(eng, e, fs, rows1[k]) <==> Holds(eng, e, fs, rows2[k])
    {
      ValueAgrees(eng, e, p.input, rows1, rows2, k, s);
    }
    SameMask(eng, e, fs, rows1, rows2, i);
  }

  lemma ScanAgrees(eng: Engine, p: Plan, db1: Database, db2: Database, i: nat)
    requires p.TableScan? && i < |p.columns| && AgreeOn(db1, db2, LeavesAt(p, i))
    ensures ColumnAt(Eval(eng, p, db1), i) == ColumnAt(Eval(eng, p, db2), i)
  {
    var leaf := Leaf(Some(p.table), p.columns[i]);
    assert leaf in LeavesAt(p, i) by {
      assert Upstream(Some(p.table), p.columns[i], Direct) in Walk(p)[p.columns[i]];
    }
    assert SameColumn(db1, db2, leaf);
  }

  lemma {:induction false} UnionAgrees(eng: Engine, ps: seq<Plan>, db1: Database, db2: Database, i: nat)
    requires forall q <- ps :: ColumnAt(Eval(eng, q, db1), i) == ColumnAt(Eval(eng, q, db2), i)
    ensures ColumnAt(EvalAll(eng, ps, db1), i) == ColumnAt(EvalAll(eng, ps, db2), i)
  {
    if ps != [] {
      hide Eval;
      UnionAgrees(eng, ps[1..], db1, db2, i);
      ColumnConcat(Eval(eng, ps[0], db1), EvalAll(eng, ps[1..], db1), i);
      ColumnConcat(Eval(eng, ps[0], db2), EvalAll(eng, ps[1..], db2), i);
    }
  }

  lemma AgreeOnFewer(db1: Database, db2: Database, few: set<Leaf>, many: set<Leaf>)
    requires few <= many && AgreeOn(db1, db2, many)
    ensures AgreeOn(db1, db2, few)
  {
  }

  /** Two databases with equal row counts that agree on the base columns listed for an output column
      give that column the same content: same values, same order, same number of rows. */
  lemma {:induction false} NonInterference(eng: Engine, p: Plan, db1: Database, db2: Database, i: nat)
    requires Simple(p) && WellNamed(p) && i < |Fields(p)|
    requires SameCounts(db1, db2) && AgreeOn(db1, db2, LeavesAt(p, i))
    ensures ColumnAt(Eval(eng, p, db1), i) == ColumnAt(Eval(eng, p, db2), i)
    decreases p, 0
  {
    hide LeavesAt, AgreeOn, SameCounts, KeyOf, Resolves, ColumnAt, Holds, NoClash;
    match p {
      case TableScan(_, _) => ScanAgrees(eng, p, db1, db2, i);
      case Values(_, _) =>
      case Projection(es, input) =>
        InputNonInterference(eng, input, db1, db2, LeavesAt(p, i));
        if Refs(es[i]) == {} {
          RowCountFixed(eng, input, db1, db2);
        }
        ProjectionAgrees(eng, p, Eval(eng, input, db1), Eval(eng, input, db2), i, LeavesAt(p, i));
      case Filter(_, input) =>
        InputNonInterference(eng, input, db1, db2, LeavesAt(p, i));
        FilterAgrees(eng, p, Eval(eng, input, db1), Eval(eng, input, db2), i, LeavesAt(p, i));
      case SubqueryAlias(_, input) =>
        SameLeavesAt(p, i);
        NonInterference(eng, input, db1, db2, i);
      case Union(inputs) =>
        forall q | q in inputs
          ensures ColumnAt(Eval(eng, q, db1), i) == ColumnAt(Eval(eng, q, db2), i)
        {
          var j :| 0 <= j < |inputs| && inputs[j] == q;
          UnionLeavesAt(p, j, i);
          AgreeOnFewer(db1, db2, LeavesAt(q, i), LeavesAt(p, i));
          NonInterference(eng, q, db1, db2, i);
        }
        UnionAgrees(eng, inputs, db1, db2, i);
    }
  }

  lemma SameLeavesAt(p: Plan, i: nat)
    requires p.SubqueryAlias? && i < |Fields(p)|
    ensures i < |Fields(p.input)| && LeavesAt(p, i) == LeavesAt(p.input, i)
  {
  }

  lemma {:induction false} InputNonInterference(eng: Engine, input: Plan, db1: Database, db2: Database, s: set<Leaf>)
    requires Simple(input) && WellNamed(input) && SameCounts(db1, db2) && AgreeOn(db1, db2, s)
    ensures InputAgrees(input, Eval(eng, input, db1), Eval(eng, input, db2), s)
    ensures Wide(Eval(eng, input, db1), |Fields(input)|) && Wide(Eval(eng, input, db2), |Fields(input)|)
    decreases input, 1
  {
    RowsWide(eng, input, db1);
    RowsWide(eng, input, db2);
    hide Eval, LeavesAt, AgreeOn, Wide, WellNamed, ColumnAt, Simple, Fields;
    forall j | 0 <= j < |Fields(input)| && LeavesAt(input, j) <= s
      ensures ColumnAt(Eval(eng, input, db1), j) == ColumnAt(Eval(eng, input, db2), j)
    {
      AgreeOnFewer(db1, db2, LeavesAt(input, j), s);
      NonInterference(eng, input, db1, db2, j);
    }
  }
}

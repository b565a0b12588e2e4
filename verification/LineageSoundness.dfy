/** The walker is sound for value provenance on the whole algebra. */
module LineageSoundness {
  import opened Lists
  import opened Lineage

  /** The base columns a lineage list names. */
  function Leaves(us: set<Upstream>): set<Leaf> {
    set u | u in us :: Leaf(u.qualifier, u.column)
  }

  /** The base columns listed for output column i. */
  function LeavesAt(p: Plan, i: nat): set<Leaf>
    requires i < |Fields(p)|
  {
    var k := KeyOf(p, i);
    if k in Walk(p) then Leaves(Walk(p)[k]) else {}
  }

  function KeyLeaves(m: LineageMap, keys: set<string>): set<Leaf> {
    set k, u | k in keys && k in m && u in m[k] :: Leaf(u.qualifier, u.column)
  }

  /** Every cell of the row comes from columns the walker lists for it. */
  ghost predicate Covered(p: Plan, row: Row) {
    |row| == |Fields(p)| && forall i :: 0 <= i < |row| ==> row[i].from <= LeavesAt(p, i)
  }

  ghost predicate AllCovered(p: Plan, rows: seq<Row>) {
    forall row <- rows :: Covered(p, row)
  }

  // ---- Maps built by the walker ----

  lemma LeavesGathered(m: LineageMap, refs: set<ColumnRef>, kind: (ColumnRef, Upstream) -> Kind)
    ensures Leaves(Gathered(m, refs, kind)) == KeyLeaves(m, set c | c in refs :: Resolve(m, c))
  {
    hide Resolve;
    var us, keys := Gathered(m, refs, kind), set c | c in refs :: Resolve(m, c);
    forall x | x in Leaves(us)
      ensures x in KeyLeaves(m, keys)
    {
      var v :| v in us && x == Leaf(v.qualifier, v.column);
      var c, u :| c in refs && Resolve(m, c) in m && u in m[Resolve(m, c)] && v == u.(kind := kind(c, u));
      assert Resolve(m, c) in keys;
    }
    forall x | x in KeyLeaves(m, keys)
      ensures x in Leaves(us)
    {
      var k, u :| k in keys && k in m && u in m[k] && x == Leaf(u.qualifier, u.column);
      var c :| c in refs && Resolve(m, c) == k;
      assert u.(kind := kind(c, u)) in us;
    }
  }

  lemma ProjectedLeaves(m: LineageMap, e: Expr)
    ensures KeyLeaves(m, ResolvedKeys(m, e)) <= Leaves(ProjectedRefs(m, e))
  {
    hide Gathered, Resolve, KeyLeaves;
    var k := ClassifyExpr(e);
    LeavesGathered(m, Refs(e), (c: ColumnRef, u: Upstream) => if k == Direct then u.kind else k);
  }

  lemma {:induction false} ProjectionEntry(m: LineageMap, es: seq<Expr>, i: nat)
    requires i < |es| && NoClash(m, es, FieldNames(es))
    ensures FieldOf(es[i]).name in WalkProjection(m, es)
    ensures KeyLeaves(m, ResolvedKeys(m, es[i])) <= Leaves(WalkProjection(m, es)[FieldOf(es[i]).name])
  {
    hide KeyLeaves, Leaves, ProjectedRefs, ResolvedKeys, FieldOf;
    var n := |es| - 1;
    ProjectedLeaves(m, es[n]);
    if i < n {
      assert FieldNames(es)[i] == FieldOf(es[i]).name && FieldNames(es)[n] == FieldOf(es[n]).name;
      if FieldOf(es[i]).name != FieldOf(es[n]).name {
        NoClashPrefix(m, es, FieldNames(es), FieldNames(es[..n]));
        ProjectionEntry(m, es[..n], i);
      }
    }
  }

  lemma NoClashPrefix(m: LineageMap, es: seq<Expr>, names: seq<string>, some: seq<string>)
    requires es != [] && |names| == |es| && NoClash(m, es, names) && some == names[..|es| - 1]
    ensures NoClash(m, es[..|es| - 1], some)
  {
    hide ResolvedKeys;
  }

  lemma {:induction false} GroupedEntry(m: LineageMap, es: seq<Expr>, kind: Kind, i: nat)
    requires i < |es| && NoClash(m, es, SchemaNameList(es))
    ensures SchemaName(es[i]) in WalkGrouped(m, es, kind)
    ensures KeyLeaves(m, ResolvedKeys(m, es[i])) <= Leaves(WalkGrouped(m, es, kind)[SchemaName(es[i])])
  {
    hide KeyLeaves, Leaves, Gathered, SchemaName, Resolve;
    var n := |es| - 1;
    LeavesGathered(m, Refs(es[n]), (c: ColumnRef, u: Upstream) => kind);
    if i < n {
      assert SchemaNameList(es)[i] == SchemaName(es[i]) && SchemaNameList(es)[n] == SchemaName(es[n]);
      if SchemaName(es[i]) != SchemaName(es[n]) {
        NoClashPrefix(m, es, SchemaNameList(es), SchemaNameList(es[..n]));
        GroupedEntry(m, es[..n], kind, i);
      }
    }
  }

  lemma {:induction false} GroupedKeys(m: LineageMap, es: seq<Expr>, kind: Kind, k: string)
    ensures k in WalkGrouped(m, es, kind) <==> exists i :: 0 <= i < |es| && SchemaName(es[i]) == k
  {
    hide Gathered, SchemaName;
    if es != [] {
      var n := |es| - 1;
      GroupedKeys(m, es[..n], kind, k);
      if i :| 0 <= i < |es| && SchemaName(es[i]) == k {
        if i < n {
          assert SchemaName(es[..n][i]) == k;
        }
      }
      if k in WalkGrouped(m, es[..n], kind) {
        var i :| 0 <= i < n && SchemaName(es[..n][i]) == k;
        assert SchemaName(es[i]) == k;
      }
      if SchemaName(es[n]) == k {
        assert SchemaName(es[n]) == k;
      }
    }
  }

  lemma {:induction false} WindowsKeep(m: LineageMap, ws: seq<Expr>, n: nat)
    requires n <= |ws| && forall j :: 0 <= j < |ws| ==> SchemaName(ws[j]) !in m
    ensures forall k :: k in m ==> k in WalkWindows(m, ws[..n]) && WalkWindows(m, ws[..n])[k] == m[k]
  {
    hide SchemaName, Gathered, WindowKind;
    if n > 0 {
      WindowsKeep(m, ws, n - 1);
      assert ws[..n][..n - 1] == ws[..n - 1];
    }
  }

  lemma {:induction false} WindowEntry(m: LineageMap, ws: seq<Expr>, n: nat, j: nat)
    requires j < n <= |ws|
    requires forall i, k :: 0 <= i < k < |ws| ==> SchemaName(ws[i]) != SchemaName(ws[k])
    ensures
      var before := WalkWindows(m, ws[..j]);
      && SchemaName(ws[j]) in WalkWindows(m, ws[..n])
      && Leaves(WalkWindows(m, ws[..n])[SchemaName(ws[j])]) == KeyLeaves(before, ResolvedKeys(before, ws[j]))
  {
    hide SchemaName, Gathered, Resolve, Leaves, KeyLeaves, WindowKind;
    assert ws[..n][..n - 1] == ws[..n - 1];
    if j < n - 1 {
      WindowEntry(m, ws, n - 1, j);
      assert SchemaName(ws[j]) != SchemaName(ws[n - 1]);
    } else {
      var before, e := WalkWindows(m, ws[..j]), ws[j];
      LeavesGathered(before, Refs(e), (c: ColumnRef, u: Upstream) => WindowKind(e, c));
    }
  }

  // ---- Expressions ----

  /** A computed cell comes only from where the cells it reads come from. */
  lemma {:induction false} ExprFlow(eng: Engine, e: Expr, fs: seq<Field>, row: Row, s: set<Leaf>)
    requires ReadsWithin(Refs(e), fs, row, s)
    ensures EvalExpr(eng, e, fs, row).from <= s
    decreases e
  {
    match e
    case Column(q, n) =>
      assert (q, n) in Refs(e);
    case Literal(_) =>
    case Cast(x, to) =>
      ExprFlow(eng, x, fs, row, s);
      FromAll([EvalExpr(eng, x, fs, row)], s);
    case TryCast(x, to) =>
      ExprFlow(eng, x, fs, row, s);
      FromAll([EvalExpr(eng, x, fs, row)], s);
    case Alias(x, _) => ExprFlow(eng, x, fs, row, s);
    case Call(op, args) =>
      ExprsFlow(eng, args, fs, row, s);
      FromAll(EvalExprs(eng, args, fs, row), s);
    case Window(_, _, _, _) =>
  }

  ghost predicate ReadsWithin(refs: set<ColumnRef>, fs: seq<Field>, row: Row, s: set<Leaf>) {
    forall c <- refs :: var i := FindField(fs, c); i.Some? && i.value < |row| ==> row[i.value].from <= s
  }

  lemma {:induction false} ExprsFlow(eng: Engine, es: seq<Expr>, fs: seq<Field>, row: Row, s: set<Leaf>)
    requires ReadsWithin(AllRefs(es), fs, row, s)
    ensures forall cell <- EvalExprs(eng, es, fs, row) :: cell.from <= s
    decreases es
  {
    if es != [] {
      ExprFlow(eng, es[0], fs, row, s);
      ExprsFlow(eng, es[1..], fs, row, s);
    }
  }

  lemma {:induction false} FromAll(cells: seq<Cell>, s: set<Leaf>)
    requires forall cell <- cells :: cell.from <= s
    ensures From(cells) <= s
  {
    if cells != [] {
      FromAll(cells[1..], s);
    }
  }

  lemma {:induction false} CellsOverFlow(eng: Engine, es: seq<Expr>, fs: seq<Field>, rows: seq<Row>, s: set<Leaf>)
    requires forall row <- rows :: ReadsWithin(AllRefs(es), fs, row, s)
    ensures forall cell <- CellsOver(eng, es, fs, rows) :: cell.from <= s
  {
    if rows != [] {
      ExprsFlow(eng, es, fs, rows[0], s);
      CellsOverFlow(eng, es, fs, rows[1..], s);
    }
  }

  /** Resolved references into a covered row read within the entries of the resolved keys. */
  lemma ResolvedReads(m: LineageMap, refs: set<ColumnRef>, input: Plan, row: Row)
    requires Covered(input, row) && Resolves(m, refs, input)
    requires forall k :: k in Walk(input) ==> k in m && m[k] == Walk(input)[k]
    ensures ReadsWithin(refs, Fields(input), row, KeyLeaves(m, set c | c in refs :: Resolve(m, c)))
  {
    hide Resolve, Walk, KeyOf, Fields;
    var keys := set c | c in refs :: Resolve(m, c);
    forall c | c in refs
      ensures
        var i := FindField(Fields(input), c);
        i.Some? && i.value < |row| ==> row[i.value].from <= KeyLeaves(m, keys)
    {
      var i := FindField(Fields(input), c).value;
      assert row[i].from <= LeavesAt(input, i);
      assert Resolve(m, c) in keys;
      LeavesWithin(m, KeyOf(input, i), keys);
    }
  }

  lemma LeavesWithin(m: LineageMap, k: string, keys: set<string>)
    requires k in keys
    ensures k in m ==> Leaves(m[k]) <= KeyLeaves(m, keys)
  {
  }

  // ---- Nodes ----

  lemma ExprCovered(eng: Engine, e: Expr, input: Plan, row: Row)
    requires Covered(input, row) && Resolves(Walk(input), Refs(e), input)
    ensures EvalExpr(eng, e, Fields(input), row).from <= KeyLeaves(Walk(input), ResolvedKeys(Walk(input), e))
  {
    hide Walk, Resolve, KeyLeaves, Fields;
    var m := Walk(input);
    ResolvedReads(m, Refs(e), input, row);
    ExprFlow(eng, e, Fields(input), row, KeyLeaves(m, ResolvedKeys(m, e)));
  }

  lemma ProjectionCovered(eng: Engine, p: Plan, rows: seq<Row>)
    requires p.Projection? && WellNamed(p) && AllCovered(p.input, rows)
    ensures AllCovered(p, FilterMap(rows, ProjectFn(eng, p.exprs, Fields(p.input))))
  {
    var m, f := Walk(p.input), ProjectFn(eng, p.exprs, Fields(p.input));
    forall out: Row | out in FilterMap(rows, f)
      ensures Covered(p, out)
    {
      FilterMapMember(rows, f, out);
      hide FilterMap;
      var row :| row in rows && f(row) == Some(out);
      forall i | 0 <= i < |out|
        ensures out[i].from <= LeavesAt(p, i)
      {
        assert p.exprs[i] in p.exprs;
        ProjectedCell(eng, p, row, i);
      }
    }
  }

  lemma ProjectedCell(eng: Engine, p: Plan, row: Row, i: nat)
    requires p.Projection? && WellNamed(p) && Covered(p.input, row) && i < |p.exprs|
    ensures EvalExpr(eng, p.exprs[i], Fields(p.input), row).from <= LeavesAt(p, i)
  {
    var m := Walk(p.input);
    assert p.exprs[i] in p.exprs;
    assert Resolves(m, Refs(p.exprs[i]), p.input) && NoClash(m, p.exprs, FieldNames(p.exprs));
    assert KeyOf(p, i) == FieldOf(p.exprs[i]).name && Walk(p) == WalkProjection(m, p.exprs);
    hide WalkProjection, Walk, KeyLeaves, Fields, WellNamed, ResolvedKeys, FieldOf, NoClash, Resolves, Covered, KeyOf;
    ExprCovered(eng, p.exprs[i], p.input, row);
    ProjectionEntry(m, p.exprs, i);
  }

  lemma FilterCovered(eng: Engine, p: Plan, rows: seq<Row>)
    requires p.Filter? && AllCovered(p.input, rows)
    ensures AllCovered(p, FilterMap(rows, KeepFn(eng, p.test, Fields(p.input))))
  {
    var f := KeepFn(eng, p.test, Fields(p.input));
    forall out: Row | out in FilterMap(rows, f)
      ensures Covered(p, out)
    {
      FilterMapMember(rows, f, out);
      hide FilterMap, FilterRefs;
      forall i | 0 <= i < |out|
        ensures out[i].from <= LeavesAt(p, i)
      {
        FilterEntry(p, i);
      }
    }
  }

  lemma FilterEntry(p: Plan, i: nat)
    requires p.Filter? && i < |Fields(p)|
    ensures LeavesAt(p.input, i) <= LeavesAt(p, i)
  {
    hide FilterRefs;
  }

  // -- Join --

  lemma JoinSideLeaves(m: LineageMap, k: string, on: set<string>, filter: set<string>)
    ensures k in m ==> Leaves(m[k]) <= Leaves(JoinSide(m, k, on, filter))
  {
    if k in m {
      forall x | x in Leaves(m[k])
        ensures x in Leaves(JoinSide(m, k, on, filter))
      {
        var u :| u in m[k] && x == Leaf(u.qualifier, u.column);
        var kind := if k in on then JoinKey else if k in filter then FilterBy else JoinPassthrough;
        assert u.(kind := kind) in JoinSide(m, k, on, filter);
      }
    }
  }

  lemma JoinEntry(p: Plan, k: string)
    requires p.Join?
    ensures k in Walk(p.left) ==> k in Walk(p) && Leaves(Walk(p.left)[k]) <= Leaves(Walk(p)[k])
    ensures k in Walk(p.right) ==> k in Walk(p) && Leaves(Walk(p.right)[k]) <= Leaves(Walk(p)[k])
  {
    var on := OnNames(p.on);
    var filter := if p.filter.Some? then set c | c in Refs(p.filter.value) :: c.1 else {};
    assert Walk(p) == WalkJoin(Walk(p.left), Walk(p.right), p);
    hide OnNames, Walk, JoinSide;
    JoinSideLeaves(Walk(p.left), k, on, filter);
    JoinSideLeaves(Walk(p.right), k, on, filter);
  }

  predicate LeftKept(kind: JoinType) {
    kind !in {RightSemi, RightAnti}
  }

  predicate RightKept(kind: JoinType) {
    kind !in {LeftSemi, LeftAnti}
  }

  lemma JoinLeavesAt(p: Plan, i: nat)
    requires p.Join? && i < |Fields(p)|
    ensures LeftKept(p.kind) && i < |Fields(p.left)| ==> LeavesAt(p.left, i) <= LeavesAt(p, i)
    ensures p.kind in {RightSemi, RightAnti} ==> LeavesAt(p.right, i) <= LeavesAt(p, i)
    ensures LeftKept(p.kind) && RightKept(p.kind) && i >= |Fields(p.left)| ==>
              LeavesAt(p.right, i - |Fields(p.left)|) <= LeavesAt(p, i)
  {
    JoinEntry(p, KeyOf(p, i));
    hide Walk;
  }

  /** A joined row is a left row or nulls next to a right row or nulls. */
  lemma BothSidesCovered(p: Plan, l: Row, r: Row)
    requires p.Join? && LeftKept(p.kind) && RightKept(p.kind)
    requires Covered(p.left, l) || l == Nulls(|Fields(p.left)|)
    requires Covered(p.right, r) || r == Nulls(|Fields(p.right)|)
    ensures Covered(p, l + r)
  {
    forall i | 0 <= i < |l + r|
      ensures (l + r)[i].from <= LeavesAt(p, i)
    {
      JoinLeavesAt(p, i);
      hide LeavesAt;
    }
  }

  lemma OneSideCovered(p: Plan, row: Row)
    requires p.Join?
    requires if p.kind in {RightSemi, RightAnti} then Covered(p.right, row) else !RightKept(p.kind) && Covered(p.left, row)
    ensures Covered(p, row)
  {
    forall i | 0 <= i < |row|
      ensures row[i].from <= LeavesAt(p, i)
    {
      JoinLeavesAt(p, i);
      hide LeavesAt;
    }
  }

  lemma {:induction false} PairsCovered(eng: Engine, p: Plan, ls: seq<Row>, rs: seq<Row>, pad: bool)
    requires p.Join? && LeftKept(p.kind) && RightKept(p.kind) && AllCovered(p.left, ls) && AllCovered(p.right, rs)
    ensures AllCovered(p, Pairs(eng, p, ls, rs, pad))
  {
    if ls != [] {
      PairsCovered(eng, p, ls[1..], rs, pad);
      var f := PairFn(eng, p, ls[0]);
      var matched := FilterMap(rs, f);
      forall row | row in matched
        ensures Covered(p, row)
      {
        FilterMapMember(rs, f, row);
        hide FilterMap, Joins, Covered;
        var r :| r in rs && f(r) == Some(row);
        assert ls[0] in ls;
        BothSidesCovered(p, ls[0], r);
      }
      hide FilterMap, Covered;
      assert ls[0] in ls;
      BothSidesCovered(p, ls[0], Nulls(|Fields(p.right)|));
    }
  }

  lemma UnmatchedCovered(eng: Engine, p: Plan, ls: seq<Row>, rs: seq<Row>)
    requires p.Join? && LeftKept(p.kind) && RightKept(p.kind) && AllCovered(p.right, rs)
    ensures AllCovered(p, FilterMap(rs, UnmatchedRightFn(eng, p, ls)))
  {
    var f := UnmatchedRightFn(eng, p, ls);
    forall row | row in FilterMap(rs, f)
      ensures Covered(p, row)
    {
      FilterMapMember(rs, f, row);
      hide FilterMap, HasLeft, Covered;
      var r :| r in rs && f(r) == Some(row);
      BothSidesCovered(p, Nulls(|Fields(p.left)|), r);
    }
  }

  lemma JoinCovered(eng: Engine, p: Plan, ls: seq<Row>, rs: seq<Row>)
    requires p.Join? && AllCovered(p.left, ls) && AllCovered(p.right, rs)
    ensures AllCovered(p, JoinRows(eng, p, ls, rs))
  {
    if LeftKept(p.kind) && RightKept(p.kind) {
      hide Pairs, FilterMap, Covered;
      PairsCovered(eng, p, ls, rs, false);
      PairsCovered(eng, p, ls, rs, true);
      UnmatchedCovered(eng, p, ls, rs);
    } else {
      forall row | row in JoinRows(eng, p, ls, rs)
        ensures Covered(p, row)
      {
        SemiMember(eng, p, ls, rs, row);
        hide JoinRows, Covered;
        OneSideCovered(p, row);
      }
    }
  }

  lemma SemiMember(eng: Engine, p: Plan, ls: seq<Row>, rs: seq<Row>, row: Row)
    requires p.Join? && !(LeftKept(p.kind) && RightKept(p.kind)) && row in JoinRows(eng, p, ls, rs)
    ensures if p.kind in {RightSemi, RightAnti} then row in rs else row in ls
  {
    FilterMapMember(ls, LeftOnlyFn(eng, p, rs, p.kind == LeftSemi), row);
    FilterMapMember(rs, RightOnlyFn(eng, p, ls, p.kind == RightSemi), row);
    hide FilterMap, HasLeft, HasRight;
  }

  // -- Aggregate and window --

  lemma {:induction false} InputRefs(e: Expr)
    ensures AllRefs(Inputs(e)) <= Refs(e)
  {
    match e
    case Alias(x, _) => InputRefs(x);
    case Call(_, _) =>
    case Window(_, args, p, o) =>
      AllRefsConcat(args, p);
      AllRefsConcat(args + p, o);
    case _ =>
      assert AllRefs([e]) == Refs(e) + AllRefs([e][1..]);
  }

  lemma {:induction false} AllRefsConcat(a: seq<Expr>, b: seq<Expr>)
    ensures AllRefs(a + b) == AllRefs(a) + AllRefs(b)
  {
    if a == [] {
      assert a + b == b;
    } else {
      AllRefsConcat(a[1..], b);
      assert (a + b)[1..] == a[1..] + b;
    }
  }

  /** Cells computed over covered rows from the inputs of one expression stay within its entry. */
  lemma OverCovered(eng: Engine, m: LineageMap, e: Expr, es: seq<Expr>, input: Plan, rows: seq<Row>)
    requires AllCovered(input, rows) && Resolves(m, Refs(e), input) && AllRefs(es) <= Refs(e)
    requires forall k :: k in Walk(input) ==> k in m && m[k] == Walk(input)[k]
    ensures From(CellsOver(eng, es, Fields(input), rows)) <= KeyLeaves(m, ResolvedKeys(m, e))
  {
    hide Walk, Resolve, KeyLeaves, Fields, KeyOf, From;
    var s := KeyLeaves(m, ResolvedKeys(m, e));
    forall row | row in rows
      ensures ReadsWithin(AllRefs(es), Fields(input), row, s)
    {
      ResolvedReads(m, Refs(e), input, row);
    }
    CellsOverFlow(eng, es, Fields(input), rows, s);
    FromAll(CellsOver(eng, es, Fields(input), rows), s);
  }

  lemma AggregateFacts(p: Plan, i: nat)
    requires p.Aggregate? && WellNamed(p) && i < |p.group + p.aggr|
    ensures
      var m, es := Walk(p.input), p.group + p.aggr;
      && i < |Fields(p)| == |es| && KeyOf(p, i) == SchemaName(es[i]) && NoClash(m, es, SchemaNameList(es))
      && Walk(p) == WalkGrouped(m, p.group, GroupBy) + WalkGrouped(m, p.aggr, AggregateInput)
      && Resolves(m, Refs(es[i]), p.input)
  {
    var es := p.group + p.aggr;
    assert es[i] in es;
    hide WalkGrouped, SchemaName, ResolvedKeys, Refs, NoClash, Resolves;
  }

  lemma AggregateEntry(p: Plan, i: nat)
    requires p.Aggregate? && WellNamed(p) && i < |p.group + p.aggr|
    ensures |Fields(p)| == |p.group + p.aggr|
    ensures KeyLeaves(Walk(p.input), ResolvedKeys(Walk(p.input), (p.group + p.aggr)[i])) <= LeavesAt(p, i)
  {
    hide Walk, WalkGrouped, SchemaName, KeyLeaves, ResolvedKeys, KeyOf, Leaves, WellNamed, NoClash, Fields;
    AggregateFacts(p, i);
    var m, es := Walk(p.input), p.group + p.aggr;
    var g, a := WalkGrouped(m, p.group, GroupBy), WalkGrouped(m, p.aggr, AggregateInput);
    var k := SchemaName(es[i]);
    SplitNoClash(m, p.group, p.aggr);
    GroupedKeys(m, p.aggr, AggregateInput, k);
    if i >= |p.group| {
      assert SchemaName(p.aggr[i - |p.group|]) == k;
    }
    if k in a {
      var j :| 0 <= j < |p.aggr| && SchemaName(p.aggr[j]) == k;
      GroupedEntry(m, p.aggr, AggregateInput, j);
      SameKeyedRefs(m, es, i, |p.group| + j);
    } else {
      GroupedEntry(m, p.group, GroupBy, i);
    }
  }

  lemma SameKeyedRefs(m: LineageMap, es: seq<Expr>, i: nat, j: nat)
    requires i < |es| && j < |es| && NoClash(m, es, SchemaNameList(es)) && SchemaName(es[i]) == SchemaName(es[j])
    ensures ResolvedKeys(m, es[i]) == ResolvedKeys(m, es[j])
  {
    hide ResolvedKeys, SchemaName;
    assert SchemaNameList(es)[i] == SchemaNameList(es)[j];
  }

  lemma SplitNoClash(m: LineageMap, g: seq<Expr>, a: seq<Expr>)
    requires NoClash(m, g + a, SchemaNameList(g + a))
    ensures NoClash(m, g, SchemaNameList(g)) && NoClash(m, a, SchemaNameList(a))
  {
    hide ResolvedKeys, SchemaName;
    var es := g + a;
    forall i, j | 0 <= i < j < |g| && SchemaNameList(g)[i] == SchemaNameList(g)[j]
      ensures ResolvedKeys(m, g[i]) == ResolvedKeys(m, g[j])
    {
      assert es[i] == g[i] && es[j] == g[j];
      SameKeyedRefs(m, es, i, j);
    }
    forall i, j | 0 <= i < j < |a| && SchemaNameList(a)[i] == SchemaNameList(a)[j]
      ensures ResolvedKeys(m, a[i]) == ResolvedKeys(m, a[j])
    {
      assert es[|g| + i] == a[i] && es[|g| + j] == a[j];
      SameKeyedRefs(m, es, |g| + i, |g| + j);
    }
  }

  lemma AggregateWidth(p: Plan)
    requires p.Aggregate?
    ensures |Fields(p)| == |p.group + p.aggr|
  {
  }

  lemma OneExprRefs(e: Expr)
    ensures AllRefs([e]) <= Refs(e)
  {
    assert AllRefs([e]) == Refs(e) + AllRefs([e][1..]);
  }

  lemma GroupRowCovered(eng: Engine, p: Plan, members: seq<Row>)
    requires p.Aggregate? && WellNamed(p) && AllCovered(p.input, members)
    ensures Covered(p, GroupRow(eng, p, members))
  {
    hide Walk, CellsOver, KeyLeaves, ResolvedKeys, LeavesAt, WellNamed, AllRefs, Refs, Fields, From, Inputs, AllCovered;
    var row := GroupRow(eng, p, members);
    AggregateWidth(p);
    forall i | 0 <= i < |row|
      ensures row[i].from <= LeavesAt(p, i)
    {
      AggregateFacts(p, i);
      AggregateEntry(p, i);
      var e := (p.group + p.aggr)[i];
      InputRefs(e);
      OneExprRefs(e);
      OverCovered(eng, Walk(p.input), e, if i < |p.group| then [e] else Inputs(e), p.input, members);
    }
  }

  lemma AggregateCovered(eng: Engine, p: Plan, rows: seq<Row>)
    requires p.Aggregate? && WellNamed(p) && AllCovered(p.input, rows)
    ensures AllCovered(p, AggregateRows(eng, p, rows))
  {
    hide WellNamed, GroupRow, FilterMap, Covered, GroupKeys, KeyValues, Fields;
    if p.group == [] {
      GroupRowCovered(eng, p, rows);
    } else {
      forall out: Row | out in AggregateRows(eng, p, rows)
        ensures Covered(p, out)
      {
        var keys := GroupKeys(eng, p.group, Fields(p.input), rows);
        var i :| 0 <= i < |keys| && out == GroupRow(eng, p, FilterMap(rows, MemberFn(eng, p.group, Fields(p.input), keys[i])));
        MembersCovered(eng, p.group, p.input, rows, keys[i]);
        GroupRowCovered(eng, p, FilterMap(rows, MemberFn(eng, p.group, Fields(p.input), keys[i])));
      }
    }
  }

  lemma MembersCovered(eng: Engine, es: seq<Expr>, input: Plan, rows: seq<Row>, key: seq<Value>)
    requires AllCovered(input, rows)
    ensures AllCovered(input, FilterMap(rows, MemberFn(eng, es, Fields(input), key)))
  {
    var f := MemberFn(eng, es, Fields(input), key);
    forall row | row in FilterMap(rows, f)
      ensures Covered(input, row)
    {
      FilterMapMember(rows, f, row);
      hide FilterMap, Covered, KeyValues;
    }
  }

  lemma WindowKeyAt(p: Plan, i: nat)
    requires p.WindowNode? && i < |Fields(p)|
    ensures |Fields(p)| == |Fields(p.input)| + |p.windows|
    ensures KeyOf(p, i) == if i < |Fields(p.input)| then KeyOf(p.input, i) else SchemaName(p.windows[i - |Fields(p.input)|])
    ensures Walk(p) == WalkWindows(Walk(p.input), p.windows[..|p.windows|])
  {
    hide SchemaName, WalkWindows;
    assert p.windows[..|p.windows|] == p.windows;
  }

  lemma WindowsApart(p: Plan)
    requires p.WindowNode? && WellNamed(p)
    ensures forall j :: 0 <= j < |p.windows| ==> SchemaName(p.windows[j]) !in Walk(p.input)
    ensures forall i, j :: 0 <= i < j < |p.windows| ==> SchemaName(p.windows[i]) != SchemaName(p.windows[j])
  {
    hide Walk, WalkWindows, SchemaName, Resolves;
  }

  lemma WindowLeavesAt(p: Plan, i: nat)
    requires p.WindowNode? && WellNamed(p) && i < |Fields(p.input)| + |p.windows|
    ensures i < |Fields(p)| == |Fields(p.input)| + |p.windows|
    ensures i < |Fields(p.input)| ==> LeavesAt(p.input, i) <= LeavesAt(p, i)
    ensures i >= |Fields(p.input)| ==>
              var j := i - |Fields(p.input)|;
              var before := WalkWindows(Walk(p.input), p.windows[..j]);
              KeyLeaves(before, ResolvedKeys(before, p.windows[j])) <= LeavesAt(p, i)
  {
    hide Walk, KeyOf, SchemaName, WalkWindows, Fields, Resolves, KeyLeaves, ResolvedKeys, WellNamed;
    var m, n := Walk(p.input), |p.windows|;
    WindowWidth(p);
    WindowKeyAt(p, i);
    WindowsApart(p);
    if i < |Fields(p.input)| {
      WindowsKeep(m, p.windows, n);
    } else {
      WindowEntry(m, p.windows, n, i - |Fields(p.input)|);
    }
  }

  lemma WindowNames(p: Plan, j: nat)
    requires p.WindowNode? && WellNamed(p) && j < |p.windows|
    ensures Resolves(WalkWindows(Walk(p.input), p.windows[..j]), Refs(p.windows[j]), p.input)
    ensures forall i :: 0 <= i < |p.windows| ==> SchemaName(p.windows[i]) !in Walk(p.input)
  {
    hide Walk, WalkWindows, SchemaName, Resolves;
  }

  lemma WindowCellCovered(eng: Engine, p: Plan, rows: seq<Row>, row: Row, j: nat)
    requires p.WindowNode? && WellNamed(p) && AllCovered(p.input, rows) && row in rows && j < |p.windows|
    ensures WindowCell(eng, p.windows[j], Fields(p.input), rows, row).from <= LeavesAt(p, |Fields(p.input)| + j)
  {
    hide Walk, WellNamed, WalkWindows, SchemaName, Resolves, LeavesAt, Fields, Covered, FilterMap, CellsOver, From, AllRefs,
      Refs, Inputs, KeyLeaves, ResolvedKeys, KeyValues, PartitionOf, MemberFn, ValuesOf, OpName;
    var m, e, fs := Walk(p.input), p.windows[j], Fields(p.input);
    var before := WalkWindows(m, p.windows[..j]);
    WindowLeavesAt(p, |fs| + j);
    InputRefs(e);
    WindowNames(p, j);
    WindowsKeep(m, p.windows, j);
    var key := KeyValues(eng, PartitionOf(e), fs, row);
    MembersCovered(eng, PartitionOf(e), p.input, rows, key);
    var members := [row] + FilterMap(rows, MemberFn(eng, PartitionOf(e), fs, key));
    OverCovered(eng, before, e, Inputs(e), p.input, members);
  }

  lemma WindowRowCovered(eng: Engine, p: Plan, rows: seq<Row>, row: Row)
    requires p.WindowNode? && WellNamed(p) && AllCovered(p.input, rows) && row in rows
    ensures Covered(p, WindowRowFn(eng, p, rows)(row).value)
  {
    hide Walk, WellNamed, WalkWindows, SchemaName, LeavesAt, Fields, KeyLeaves, ResolvedKeys, WindowCell;
    var out, n := WindowRowFn(eng, p, rows)(row).value, |Fields(p.input)|;
    assert |out| == n + |p.windows|;
    forall i | 0 <= i < |out|
      ensures i < |Fields(p)| && out[i].from <= LeavesAt(p, i)
    {
      WindowLeavesAt(p, i);
      if i >= n {
        WindowCellCovered(eng, p, rows, row, i - n);
      }
    }
    WindowWidth(p);
  }

  lemma WindowWidth(p: Plan)
    requires p.WindowNode?
    ensures |Fields(p)| == |Fields(p.input)| + |p.windows|
  {
  }

  lemma WindowCovered(eng: Engine, p: Plan, rows: seq<Row>)
    requires p.WindowNode? && WellNamed(p) && AllCovered(p.input, rows)
    ensures AllCovered(p, FilterMap(rows, WindowRowFn(eng, p, rows)))
  {
    hide FilterMap, WindowRowFn, WellNamed, Covered, Fields;
    var f := WindowRowFn(eng, p, rows);
    forall out: Row | out in FilterMap(rows, f)
      ensures Covered(p, out)
    {
      FilterMapMember(rows, f, out);
      var row :| row in rows && f(row) == Some(out);
      WindowRowCovered(eng, p, rows, row);
    }
  }

  // -- Union --

  lemma {:induction false} MergeEntry(m: LineageMap, child: LineageMap, names: seq<Field>, childFields: seq<Field>, k: string)
    ensures
      var out := MergeInput(m, child, names, childFields);
      && (k in m ==> k in out && m[k] <= out[k])
      && (forall i :: 0 <= i < |names| && i < |childFields| && names[i].name == k && childFields[i].name in child ==>
            k in out && child[childFields[i].name] <= out[k])
  {
    if names != [] {
      MergeEntry(m, child, names[..|names| - 1], childFields, k);
    }
  }

  lemma {:induction false} UnionEntry(ps: seq<Plan>, names: seq<Field>, j: nat, i: nat)
    requires j < |ps| && i < |names| && |Fields(ps[j])| == |names|
    ensures
      var key := Fields(ps[j])[i].name;
      key in Walk(ps[j]) ==>
        names[i].name in WalkAll(ps, names) && Walk(ps[j])[key] <= WalkAll(ps, names)[names[i].name]
    decreases |ps|
  {
    hide Walk, Fields;
    var n := |ps| - 1;
    MergeEntry(WalkAll(ps[..n], names), Walk(ps[n]), names, Fields(ps[n]), names[i].name);
    if j < n {
      UnionEntry(ps[..n], names, j, i);
    }
    hide MergeInput;
  }

  lemma UnionLeavesAt(p: Plan, j: nat, i: nat)
    requires p.Union? && WellNamed(p) && j < |p.inputs| && i < |Fields(p)|
    ensures |Fields(p.inputs[j])| == |Fields(p)| && LeavesAt(p.inputs[j], i) <= LeavesAt(p, i)
  {
    UnionEntry(p.inputs, Fields(p), j, i);
    assert KeyOf(p.inputs[j], i) == Fields(p.inputs[j])[i].name && KeyOf(p, i) == Fields(p)[i].name;
    assert Walk(p) == WalkAll(p.inputs, Fields(p));
    hide Walk, WalkAll, WellNamed, Fields, KeyOf;
  }

  lemma UnionRowCovered(p: Plan, j: nat, row: Row)
    requires p.Union? && WellNamed(p) && j < |p.inputs| && Covered(p.inputs[j], row)
    ensures Covered(p, row)
  {
    assert |Fields(p.inputs[j])| == |Fields(p)|;
    forall i | 0 <= i < |row|
      ensures row[i].from <= LeavesAt(p, i)
    {
      hide LeavesAt;
      UnionLeavesAt(p, j, i);
    }
  }

  // -- Order and duplicates: rows only move or disappear --

  lemma {:induction false} InsertSortedMember(eng: Engine, es: seq<Expr>, fs: seq<Field>, sorted: seq<Row>, row: Row, x: Row)
    ensures x in InsertSorted(eng, es, fs, sorted, row) <==> x == row || x in sorted
  {
    if sorted != [] {
      InsertSortedMember(eng, es, fs, sorted[1..], row, x);
      assert sorted == [sorted[0]] + sorted[1..];
    }
  }

  lemma {:induction false} SortedMember(eng: Engine, es: seq<Expr>, fs: seq<Field>, rows: seq<Row>, x: Row)
    ensures x in Sorted(eng, es, fs, rows) <==> x in rows
  {
    if rows != [] {
      var n := |rows| - 1;
      SortedMember(eng, es, fs, rows[..n], x);
      InsertSortedMember(eng, es, fs, Sorted(eng, es, fs, rows[..n]), rows[n], x);
      assert rows == rows[..n] + [rows[n]];
    }
  }

  lemma {:induction false} DeduplicatedMember(rows: seq<Row>, x: Row)
    ensures x in Deduplicated(rows) ==> x in rows
  {
    if rows != [] {
      DeduplicatedMember(rows[..|rows| - 1], x);
    }
  }

  // ---- The theorem ----

  /** Every base column a value flows from into an output cell is in the walker's list for that
      column: over the whole algebra, for every database and every choice of scalar, aggregate and
      window functions. */
  lemma {:induction false} ProvenanceSound(eng: Engine, p: Plan, db: Database)
    requires WellNamed(p)
    ensures AllCovered(p, Eval(eng, p, db))
    decreases p
  {
    hide Covered, WellNamed;
    match p {
      case TableScan(_, _) => ScanCovered(eng, p, db);
      case Values(_, _) => ValuesCovered(eng, p, db);
      case Union(_) =>
        forall j | 0 <= j < |p.inputs|
          ensures AllCovered(p.inputs[j], Eval(eng, p.inputs[j], db))
        {
          UnionParts(p, j);
          ProvenanceSound(eng, p.inputs[j], db);
        }
        UnionCovered(eng, p, p.inputs, db);
      case Join(l, r, _, _, _) =>
        ChildWellNamed(p);
        ProvenanceSound(eng, l, db);
        ProvenanceSound(eng, r, db);
        JoinCovered(eng, p, Eval(eng, l, db), Eval(eng, r, db));
      case _ =>
        ChildWellNamed(p);
        ProvenanceSound(eng, p.input, db);
        OneInputCovered(eng, p, db);
    }
  }

  ghost predicate Wide(rows: seq<Row>, n: nat) {
    forall row <- rows :: |row| == n
  }

  lemma RowsWide(eng: Engine, p: Plan, db: Database)
    requires WellNamed(p)
    ensures Wide(Eval(eng, p, db), |Fields(p)|)
  {
    ProvenanceSound(eng, p, db);
    hide Eval, Fields, LeavesAt, WellNamed;
  }

  lemma UnionParts(p: Plan, j: nat)
    requires p.Union? && WellNamed(p) && j < |p.inputs|
    ensures WellNamed(p.inputs[j])
  {
  }

  predicate OneInput(p: Plan) {
    !p.TableScan? && !p.Values? && !p.Union? && !p.Join?
  }

  lemma ChildWellNamed(p: Plan)
    requires WellNamed(p)
    ensures OneInput(p) ==> WellNamed(p.input)
    ensures p.Join? ==> WellNamed(p.left) && WellNamed(p.right)
  {
  }

  lemma ScanCovered(eng: Engine, p: Plan, db: Database)
    requires p.TableScan?
    ensures AllCovered(p, Eval(eng, p, db))
  {
    forall i | 0 <= i < |p.columns|
      ensures Leaf(Some(p.table), p.columns[i]) in LeavesAt(p, i)
    {
      assert Upstream(Some(p.table), p.columns[i], Direct) in Walk(p)[p.columns[i]];
    }
  }

  lemma ValuesCovered(eng: Engine, p: Plan, db: Database)
    requires p.Values?
    ensures AllCovered(p, Eval(eng, p, db))
  {
  }

  lemma UnionCovered(eng: Engine, p: Plan, ps: seq<Plan>, db: Database)
    requires p.Union? && WellNamed(p)
    requires forall q <- ps :: q in p.inputs
    requires forall j :: 0 <= j < |p.inputs| ==> AllCovered(p.inputs[j], Eval(eng, p.inputs[j], db))
    ensures AllCovered(p, EvalAll(eng, ps, db))
    decreases |ps|
  {
    if ps != [] {
      UnionCovered(eng, p, ps[1..], db);
      hide Covered, WellNamed, Eval;
      assert ps[0] in p.inputs;
      var j :| 0 <= j < |p.inputs| && p.inputs[j] == ps[0];
      forall row | row in Eval(eng, ps[0], db)
        ensures Covered(p, row)
      {
        UnionRowCovered(p, j, row);
      }
    }
  }

  lemma SameColumnsCovered(p: Plan, row: Row)
    requires (p.SubqueryAlias? || p.Distinct? || p.Sort? || p.Limit?) && Covered(p.input, row)
    ensures Covered(p, row)
  {
    assert |Fields(p)| == |Fields(p.input)|;
    forall i | 0 <= i < |row|
      ensures LeavesAt(p, i) == LeavesAt(p.input, i)
    {
    }
  }

  lemma OneInputCovered(eng: Engine, p: Plan, db: Database)
    requires OneInput(p) && WellNamed(p) && AllCovered(p.input, Eval(eng, p.input, db))
    ensures AllCovered(p, Eval(eng, p, db))
  {
    var rows := Eval(eng, p.input, db);
    hide Covered, WellNamed;
    if p.Projection? {
      ProjectionCovered(eng, p, rows);
    } else if p.Filter? {
      FilterCovered(eng, p, rows);
    } else if p.Aggregate? {
      AggregateCovered(eng, p, rows);
    } else if p.WindowNode? {
      WindowCovered(eng, p, rows);
    } else {
      forall row | row in Eval(eng, p, db)
        ensures Covered(p, row)
      {
        RowsOnlyMove(eng, p, db, row);
        SameColumnsCovered(p, row);
      }
    }
  }

  lemma RowsOnlyMove(eng: Engine, p: Plan, db: Database, row: Row)
    requires (p.SubqueryAlias? || p.Distinct? || p.Sort? || p.Limit?) && row in Eval(eng, p, db)
    ensures row in Eval(eng, p.input, db)
  {
    var rows := Eval(eng, p.input, db);
    if p.Sort? {
      SortedMember(eng, p.keys, Fields(p.input), rows, row);
    } else if p.Distinct? {
      DeduplicatedMember(rows, row);
    }
  }
}

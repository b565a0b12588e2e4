/** What the relationship kind `Direct` promises: the value is a copy, not something computed. */
module LineageKinds {
  import opened Lists
  import opened Lineage
  import opened LineageSoundness
  import opened LineageListing

  function Entry(p: Plan, i: nat): set<Upstream>
    requires i < |Fields(p)|
  {
    var k := KeyOf(p, i);
    if k in Walk(p) then Walk(p)[k] else {}
  }

  /** Apart from columns that only filter rows, everything listed is direct. */
  predicate DirectOnly(us: set<Upstream>) {
    forall u <- us :: u.kind == Direct || u.kind == FilterBy
  }

  /** The cell is a constant, or holds the value of one base column in some stored row. */
  ghost predicate Copied(db: Database, cell: Cell) {
    cell.from == {} || exists t: string, c: string, r: map<string, Value> ::
      cell.from == {Leaf(Some(t), c)} && r in TableRows(db, t) && cell.value == Read(r, c)
  }

  function FilteredNames(p: Plan): set<string>
    requires p.Join?
  {
    if p.filter.Some? then set c | c in Refs(p.filter.value) :: c.1 else {}
  }

  predicate DirectAt(m: LineageMap, k: string) {
    k in m ==> DirectOnly(m[k])
  }

  /** The residual filter of a join names join keys and direct columns only. The walker marks what it names
      like a row filter's columns, whatever they were before. */
  predicate MarksDirect(p: Plan)
    requires p.Join?
  {
    forall k <- FilteredNames(p) :: k !in OnNames(p.on) ==> DirectAt(Walk(p.left), k) && DirectAt(Walk(p.right), k)
  }

  /** No later expression has the name of expression j. */
  predicate IsLast(es: seq<Expr>, j: nat)
    requires j < |es|
  {
    forall k :: j < k < |es| ==> FieldOf(es[k]).name != FieldOf(es[j]).name
  }

  /** A direct expression does not take over the name of a computed one: the last of a name is recorded. */
  predicate KeepsComputed(es: seq<Expr>) {
    forall i, j :: 0 <= i < j < |es| && FieldOf(es[i]).name == FieldOf(es[j]).name && IsLast(es, j) ==>
      ClassifyExpr(es[j]) == Direct ==> ClassifyExpr(es[i]) == Direct
  }

  /** Nothing computed is hidden behind a direct entry, at any node. */
  predicate Clear(p: Plan)
    decreases p
  {
    match p
    case TableScan(_, _) => true
    case Values(_, _) => true
    case Projection(es, input) => Clear(input) && KeepsComputed(es)
    case Filter(_, input) => Clear(input)
    case Join(l, r, _, _, _) => Clear(l) && Clear(r) && MarksDirect(p)
    case Aggregate(_, _, input) => Clear(input)
    case WindowNode(_, input) => Clear(input)
    case Union(inputs) => forall q <- inputs :: Clear(q)
    case SubqueryAlias(_, input) => Clear(input)
    case Distinct(input) => Clear(input)
    case Sort(_, input) => Clear(input)
    case Limit(_, _, input) => Clear(input)
  }

  // ---- Nothing listed, nothing read ----

  lemma NothingRead(eng: Engine, p: Plan, db: Database, i: nat, row: Row)
    requires WellNamed(p) && i < |Fields(p)| && row in Eval(eng, p, db) && Entry(p, i) == {}
    ensures i < |row| && row[i].from == {}
  {
    ProvenanceSound(eng, p, db);
    assert Covered(p, row);
    assert Leaves({}) == {};
    hide Eval, Walk, KeyOf, Fields, WellNamed;
  }

  /** No entry of this kind is direct. */
  predicate NeverDirect(us: set<Upstream>) {
    forall u <- us :: u.kind != Direct && u.kind != FilterBy
  }

  lemma DirectAndNever(us: set<Upstream>)
    requires DirectOnly(us) && NeverDirect(us)
    ensures us == {}
  {
  }

  lemma GatheredNever(m: LineageMap, refs: set<ColumnRef>, kind: (ColumnRef, Upstream) -> Kind)
    requires forall c: ColumnRef, u: Upstream :: kind(c, u) != Direct && kind(c, u) != FilterBy
    ensures NeverDirect(Gathered(m, refs, kind))
  {
    hide Resolve;
  }

  lemma {:induction false} GroupedNever(m: LineageMap, es: seq<Expr>, kind: Kind)
    requires kind != Direct && kind != FilterBy
    ensures forall k :: k in WalkGrouped(m, es, kind) ==> NeverDirect(WalkGrouped(m, es, kind)[k])
  {
    hide Gathered, SchemaName, NeverDirect;
    if es != [] {
      GroupedNever(m, es[..|es| - 1], kind);
      GatheredNever(m, Refs(es[|es| - 1]), (c: ColumnRef, u: Upstream) => kind);
    }
  }

  lemma {:induction false} WindowsNever(m: LineageMap, es: seq<Expr>, k: string)
    ensures k in WalkWindows(m, es) && k !in m ==> NeverDirect(WalkWindows(m, es)[k])
  {
    hide Gathered, SchemaName, NeverDirect, WindowKind;
    if es != [] {
      var e, before := es[|es| - 1], WalkWindows(m, es[..|es| - 1]);
      WindowsNever(m, es[..|es| - 1], k);
      WindowKinds(e);
      GatheredNever(before, Refs(e), (c: ColumnRef, u: Upstream) => WindowKind(e, c));
    }
  }

  lemma WindowKinds(e: Expr)
    ensures forall c: ColumnRef :: WindowKind(e, c) != Direct && WindowKind(e, c) != FilterBy
  {
  }

  // ---- Join ----

  /** A direct entry of the join comes from direct entries. */
  ghost predicate DirectBelow(p: Plan)
    requires p.Join?
  {
    forall k :: k in Walk(p) && DirectOnly(Walk(p)[k]) ==> DirectAt(Walk(p.left), k) && DirectAt(Walk(p.right), k)
  }

  lemma SideKinds(m: LineageMap, k: string, on: set<string>, filter: set<string>)
    ensures k in m && (k in on || k !in filter) && DirectOnly(JoinSide(m, k, on, filter)) ==> m[k] == {}
    ensures k in filter && k !in on ==> DirectOnly(JoinSide(m, k, on, filter))
  {
    if k in m && m[k] != {} && (k in on || k !in filter) {
      var u :| u in m[k];
      assert u.(kind := if k in on then JoinKey else JoinPassthrough) in JoinSide(m, k, on, filter);
    }
  }

  lemma JoinWalk(p: Plan, k: string)
    requires p.Join?
    ensures k in Walk(p) <==> k in Walk(p.left) || k in Walk(p.right)
    ensures k in Walk(p) ==>
              Walk(p)[k] == JoinSide(Walk(p.left), k, OnNames(p.on), FilteredNames(p)) + JoinSide(Walk(p.right), k, OnNames(p.on), FilteredNames(p))
  {
    assert Walk(p) == WalkJoin(Walk(p.left), Walk(p.right), p);
    hide OnNames, Walk, JoinSide;
  }

  /** The residual filter naming nothing computed is exactly what it takes. */
  lemma MarksDirectIff(p: Plan)
    requires p.Join?
    ensures MarksDirect(p) <==> DirectBelow(p)
  {
    hide OnNames, Walk, JoinSide, FilteredNames;
    var l, r, on, filter := Walk(p.left), Walk(p.right), OnNames(p.on), FilteredNames(p);
    forall k: string
      ensures k in filter && k !in on && k in Walk(p) ==> DirectOnly(Walk(p)[k])
      ensures k in Walk(p) && DirectOnly(Walk(p)[k]) && (k in on || k !in filter) ==> DirectAt(l, k) && DirectAt(r, k)
      ensures k !in Walk(p) ==> DirectAt(l, k) && DirectAt(r, k)
    {
      JoinWalk(p, k);
      SideKinds(l, k, on, filter);
      SideKinds(r, k, on, filter);
    }
  }

  lemma {:induction false} PairFrom(eng: Engine, p: Plan, ls: seq<Row>, rs: seq<Row>, pad: bool, row: Row) returns (l: Row, r: Row)
    requires p.Join? && row in Pairs(eng, p, ls, rs, pad)
    ensures row == l + r && l in ls && (r in rs || r == Nulls(|Fields(p.right)|))
  {
    hide Joins, Fields;
    var f := PairFn(eng, p, ls[0]);
    if row in Pairs(eng, p, ls[1..], rs, pad) {
      l, r := PairFrom(eng, p, ls[1..], rs, pad, row);
    } else if row in FilterMap(rs, f) {
      FilterMapMember(rs, f, row);
      l := ls[0];
      r :| r in rs && f(r) == Some(row);
    } else {
      l, r := ls[0], Nulls(|Fields(p.right)|);
    }
  }

  lemma JoinRowParts(eng: Engine, p: Plan, ls: seq<Row>, rs: seq<Row>, row: Row)
    requires p.Join? && LeftKept(p.kind) && RightKept(p.kind) && row in JoinRows(eng, p, ls, rs)
    ensures row in Pairs(eng, p, ls, rs, false) || row in Pairs(eng, p, ls, rs, true) || row in FilterMap(rs, UnmatchedRightFn(eng, p, ls))
  {
    hide Pairs, FilterMap;
  }

  lemma UnmatchedFrom(eng: Engine, p: Plan, ls: seq<Row>, rs: seq<Row>, row: Row) returns (r: Row)
    requires p.Join? && row in FilterMap(rs, UnmatchedRightFn(eng, p, ls))
    ensures r in rs && row == Nulls(|Fields(p.left)|) + r
  {
    hide HasLeft, Fields, Nulls;
    var f := UnmatchedRightFn(eng, p, ls);
    FilterMapMember(rs, f, row);
    r :| r in rs && f(r) == Some(row);
  }

  /** A joined row is a left row or nulls next to a right row or nulls. */
  lemma JoinedFrom(eng: Engine, p: Plan, ls: seq<Row>, rs: seq<Row>, row: Row) returns (l: Row, r: Row)
    requires p.Join? && LeftKept(p.kind) && RightKept(p.kind) && row in JoinRows(eng, p, ls, rs)
    ensures row == l + r && (l in ls || l == Nulls(|Fields(p.left)|)) && (r in rs || r == Nulls(|Fields(p.right)|))
  {
    hide *;
    JoinRowParts(eng, p, ls, rs, row);
    if row in FilterMap(rs, UnmatchedRightFn(eng, p, ls)) {
      l := Nulls(|Fields(p.left)|);
      r := UnmatchedFrom(eng, p, ls, rs, row);
    } else {
      l, r := PairFrom(eng, p, ls, rs, row !in Pairs(eng, p, ls, rs, false), row);
    }
  }

  lemma SideEntry(p: Plan, side: Plan, i: nat, j: nat)
    requires p.Join? && MarksDirect(p) && side in {p.left, p.right} && WellNamed(side)
    requires i < |Fields(p)| && j < |Fields(side)| && KeyOf(p, i) == KeyOf(side, j) && DirectOnly(Entry(p, i))
    ensures DirectOnly(Entry(side, j))
  {
    hide Walk, KeyOf, Fields, WellNamed, MarksDirect, OnNames, FilteredNames;
    MarksDirectIff(p);
    EveryColumnListed(side, j);
    JoinWalk(p, KeyOf(p, i));
  }

  // ---- Projection ----

  /** Two direct expressions over the same listed keys have the same entry. */
  lemma DirectAlike(m: LineageMap, d: Expr, e: Expr)
    requires ClassifyExpr(d) == Direct && ClassifyExpr(e) == Direct && ResolvedKeys(m, d) == ResolvedKeys(m, e)
    requires ResolvedKeys(m, d) <= m.Keys
    ensures ProjectedRefs(m, d) == ProjectedRefs(m, e)
  {
    DirectIncluded(m, d, e);
    DirectIncluded(m, e, d);
  }

  lemma DirectIncluded(m: LineageMap, d: Expr, e: Expr)
    requires ClassifyExpr(d) == Direct && ClassifyExpr(e) == Direct && ResolvedKeys(m, d) <= ResolvedKeys(m, e) <= m.Keys
    ensures ProjectedRefs(m, d) <= ProjectedRefs(m, e)
  {
    hide Resolve;
    forall u | u in ProjectedRefs(m, d)
      ensures u in ProjectedRefs(m, e)
    {
      forall c | c in Refs(d)
        ensures Resolve(m, c) in m
      {
        assert Resolve(m, c) in ResolvedKeys(m, d);
      }
      var c, v :| c in Refs(d) && Resolve(m, c) in m && v in m[Resolve(m, c)] && u == v.(kind := v.kind);
      assert u == v;
      assert Resolve(m, c) in ResolvedKeys(m, d);
      assert Resolve(m, c) in ResolvedKeys(m, e);
      var b :| b in Refs(e) && Resolve(m, b) == Resolve(m, c);
      assert u.(kind := u.kind) in Gathered(m, Refs(e), (c: ColumnRef, u: Upstream) => u.kind);
    }
  }

  function Recorded(m: LineageMap, es: seq<Expr>, i: nat): set<Upstream>
    requires i < |es|
  {
    var k := FieldOf(es[i]).name;
    if k in WalkProjection(m, es) then WalkProjection(m, es)[k] else {}
  }

  lemma {:induction false} LastOfName(es: seq<Expr>, i: nat) returns (j: nat)
    requires i < |es|
    ensures i <= j < |es| && FieldOf(es[j]).name == FieldOf(es[i]).name && IsLast(es, j)
    decreases |es| - i
  {
    hide FieldOf;
    if IsLast(es, i) {
      j := i;
    } else {
      var k :| i < k < |es| && FieldOf(es[k]).name == FieldOf(es[i]).name;
      j := LastOfName(es, k);
    }
  }

  lemma {:induction false} LastRecorded(m: LineageMap, es: seq<Expr>, j: nat)
    requires j < |es| && IsLast(es, j)
    ensures FieldOf(es[j]).name in WalkProjection(m, es) && WalkProjection(m, es)[FieldOf(es[j]).name] == ProjectedRefs(m, es[j])
  {
    hide ProjectedRefs, FieldOf;
    if j < |es| - 1 {
      LastRecorded(m, es[..|es| - 1], j);
    }
  }

  /** What is recorded under the name of expression i: its own references, or computed ones. */
  lemma ProjectionRecord(m: LineageMap, es: seq<Expr>, i: nat)
    requires i < |es| && NoClash(m, es, FieldNames(es)) && KeepsComputed(es)
    requires ResolvedKeys(m, es[i]) <= m.Keys
    ensures Recorded(m, es, i) == ProjectedRefs(m, es[i]) || NeverDirect(Recorded(m, es, i))
    ensures ClassifyExpr(es[i]) != Direct ==> NeverDirect(Recorded(m, es, i))
  {
    hide ProjectedRefs, FieldOf, ResolvedKeys, ClassifyExpr, NeverDirect, WalkProjection, IsLast;
    var j := LastOfName(es, i);
    LastRecorded(m, es, j);
    if ClassifyExpr(es[j]) != Direct {
      ComputedNever(m, es[j]);
    } else if i < j {
      assert FieldNames(es)[i] == FieldNames(es)[j];
      DirectAlike(m, es[i], es[j]);
    }
  }

  lemma DirectListed(e: Expr)
    requires ClassifyExpr(e) == Direct
    ensures !NeverDirect(ProjectedRefs(map[], e))
  {
    var eng := Engine((op: string, vs: seq<Value>) => Null, (a: seq<Value>, b: seq<Value>) => false);
    var c := DirectIsColumn(eng, e, [], []);
    hide Refs, ClassifyExpr;
    assert c in Refs(e);
    assert Upstream(c.0, c.1, Direct) in ProjectedRefs(map[], e);
  }

  /** A projection keeps computed columns out of the direct ones, whatever its input, exactly when no direct
      expression takes over a computed one's name. */
  lemma KeepsComputedIff(es: seq<Expr>)
    ensures KeepsComputed(es) <==>
      forall m: LineageMap, i :: 0 <= i < |es| && ClassifyExpr(es[i]) != Direct ==> NeverDirect(Recorded(m, es, i))
  {
    hide ProjectedRefs, FieldOf, ClassifyExpr, NeverDirect, WalkProjection, IsLast;
    if KeepsComputed(es) {
      forall m: LineageMap, i | 0 <= i < |es| && ClassifyExpr(es[i]) != Direct
        ensures NeverDirect(Recorded(m, es, i))
      {
        var j := LastOfName(es, i);
        LastRecorded(m, es, j);
        ComputedNever(m, es[j]);
      }
    } else {
      var i, j :| 0 <= i < j < |es| && FieldOf(es[i]).name == FieldOf(es[j]).name && IsLast(es, j)
        && ClassifyExpr(es[j]) == Direct && ClassifyExpr(es[i]) != Direct;
      LastRecorded(map[], es, j);
      DirectListed(es[j]);
      assert !NeverDirect(Recorded(map[], es, i));
    }
  }

  /** A direct expression is one column under any number of aliases. */
  lemma {:induction false} DirectIsColumn(eng: Engine, e: Expr, fs: seq<Field>, row: Row) returns (c: ColumnRef)
    requires ClassifyExpr(e) == Direct
    ensures Refs(e) == {c} && EvalExpr(eng, e, fs, row) == EvalExpr(eng, Column(c.0, c.1), fs, row)
  {
    match e
    case Column(q, n) => c := (q, n);
    case Alias(x, _) => c := DirectIsColumn(eng, x, fs, row);
  }

  lemma KeptEntry(m: LineageMap, e: Expr, c: ColumnRef)
    requires ClassifyExpr(e) == Direct && Refs(e) == {c} && Resolve(m, c) in m
    ensures DirectOnly(ProjectedRefs(m, e)) ==> DirectOnly(m[Resolve(m, c)])
  {
    hide Resolve;
    forall u | u in m[Resolve(m, c)]
      ensures u in ProjectedRefs(m, e)
    {
      assert u.(kind := u.kind) == u;
      assert u in Gathered(m, Refs(e), (c: ColumnRef, u: Upstream) => u.kind);
    }
  }

  lemma {:induction false} ExprKinds(e: Expr)
    ensures ClassifyExpr(e) != FilterBy
  {
    if e.Alias? {
      ExprKinds(e.inner);
    }
  }

  lemma ComputedNever(m: LineageMap, e: Expr)
    requires ClassifyExpr(e) != Direct
    ensures NeverDirect(ProjectedRefs(m, e))
  {
    hide Resolve;
    ExprKinds(e);
    var k := ClassifyExpr(e);
    GatheredNever(m, Refs(e), (c: ColumnRef, u: Upstream) => if k == Direct then u.kind else k);
  }

  lemma ProjectionFacts(p: Plan, i: nat)
    requires p.Projection? && WellNamed(p) && Clear(p) && i < |Fields(p)|
    ensures i < |p.exprs|
    ensures WellNamed(p.input) && Clear(p.input) && Resolves(Walk(p.input), Refs(p.exprs[i]), p.input)
    ensures Entry(p, i) == ProjectedRefs(Walk(p.input), p.exprs[i]) || NeverDirect(Entry(p, i))
    ensures ClassifyExpr(p.exprs[i]) != Direct ==> NeverDirect(Entry(p, i))
  {
    assert p.exprs[i] in p.exprs;
    assert KeyOf(p, i) == FieldOf(p.exprs[i]).name && Walk(p) == WalkProjection(Walk(p.input), p.exprs);
    hide Walk, WalkProjection, ProjectedRefs, NoClash, FieldOf, Refs, KeepsComputed, KeyOf, NeverDirect, ClassifyExpr, Resolve;
    forall k | k in ResolvedKeys(Walk(p.input), p.exprs[i])
      ensures k in Walk(p.input)
    {
      var c :| c in Refs(p.exprs[i]) && Resolve(Walk(p.input), c) == k;
      EveryColumnListed(p.input, FindField(Fields(p.input), c).value);
    }
    ProjectionRecord(Walk(p.input), p.exprs, i);
  }

  lemma ProjectedFrom(eng: Engine, p: Plan, db: Database, out: Row) returns (row: Row)
    requires p.Projection? && out in Eval(eng, p, db)
    ensures row in Eval(eng, p.input, db) && out == EvalExprs(eng, p.exprs, Fields(p.input), row)
  {
    var f := ProjectFn(eng, p.exprs, Fields(p.input));
    FilterMapMember(Eval(eng, p.input, db), f, out);
    hide FilterMap, EvalExprs;
    row :| row in Eval(eng, p.input, db) && f(row) == Some(out);
  }

  /** Where a direct expression reads. */
  lemma ReadPosition(p: Plan, i: nat, c: ColumnRef) returns (j: nat)
    requires p.Projection? && WellNamed(p) && Clear(p) && i < |Fields(p)| && DirectOnly(Entry(p, i)) && !NeverDirect(Entry(p, i))
    requires i < |p.exprs| && Refs(p.exprs[i]) == {c} && ClassifyExpr(p.exprs[i]) == Direct
    ensures FindField(Fields(p.input), c) == Some(j) && j < |Fields(p.input)| && DirectOnly(Entry(p.input, j))
  {
    ProjectionFacts(p, i);
    hide Walk, Fields, WellNamed, Clear, ProjectedRefs, KeyOf, Refs, ClassifyExpr;
    var m := Walk(p.input);
    assert c in Refs(p.exprs[i]);
    j := FindField(Fields(p.input), c).value;
    EveryColumnListed(p.input, j);
    KeptEntry(m, p.exprs[i], c);
  }

  // ---- The theorem ----

  /** The nodes that hand rows of one input on, with the columns in the same places. */
  predicate PassesRows(p: Plan) {
    p.Filter? || p.SubqueryAlias? || p.Distinct? || p.Sort? || p.Limit?
  }

  lemma PassedRow(eng: Engine, p: Plan, db: Database, i: nat, row: Row)
    requires PassesRows(p) && WellNamed(p) && Clear(p) && i < |Fields(p)| && row in Eval(eng, p, db)
    ensures row in Eval(eng, p.input, db) && WellNamed(p.input) && Clear(p.input) && i < |Fields(p.input)|
    ensures DirectOnly(Entry(p, i)) ==> DirectOnly(Entry(p.input, i))
  {
    if p.Filter? {
      FilterMapMember(Eval(eng, p.input, db), KeepFn(eng, p.test, Fields(p.input)), row);
      hide FilterMap, FilterRefs, Holds;
    } else {
      RowsOnlyMove(eng, p, db, row);
    }
  }

  lemma GroupedColumn(p: Plan, i: nat)
    requires p.Aggregate? && i < |Fields(p)| && DirectOnly(Entry(p, i))
    ensures Entry(p, i) == {}
  {
    var m := Walk(p.input);
    GroupedNever(m, p.group, GroupBy);
    GroupedNever(m, p.aggr, AggregateInput);
    assert Walk(p) == WalkGrouped(m, p.group, GroupBy) + WalkGrouped(m, p.aggr, AggregateInput);
    hide Walk, WalkGrouped, KeyOf;
    DirectAndNever(Entry(p, i));
  }

  lemma WindowColumn(p: Plan, i: nat)
    requires p.WindowNode? && WellNamed(p) && Clear(p) && i < |Fields(p)| && DirectOnly(Entry(p, i))
    ensures WellNamed(p.input) && Clear(p.input) && |Fields(p)| == |Fields(p.input)| + |p.windows|
    ensures i >= |Fields(p.input)| ==> Entry(p, i) == {}
    ensures i < |Fields(p.input)| ==> DirectOnly(Entry(p.input, i))
  {
    var m, n := Walk(p.input), |p.windows|;
    WindowKeyAt(p, i);
    assert p.windows[..n] == p.windows;
    if i < |Fields(p.input)| {
      EveryColumnListed(p.input, i);
      WindowsApart(p);
      hide Walk, KeyOf, WalkWindows, Fields, SchemaName, WellNamed;
      WindowsKeep(m, p.windows, n);
    } else {
      WindowNames(p, i - |Fields(p.input)|);
      hide Walk, KeyOf, WalkWindows, SchemaName;
      WindowsNever(m, p.windows, KeyOf(p, i));
      if KeyOf(p, i) in Walk(p) {
        DirectAndNever(Entry(p, i));
      }
    }
  }

  lemma WindowRow(eng: Engine, p: Plan, db: Database, out: Row) returns (row: Row)
    requires p.WindowNode? && out in Eval(eng, p, db)
    ensures row in Eval(eng, p.input, db) && row <= out
  {
    var rows := Eval(eng, p.input, db);
    var f := WindowRowFn(eng, p, rows);
    FilterMapMember(rows, f, out);
    hide FilterMap, WindowCell;
    row :| row in rows && f(row) == Some(out);
  }

  lemma {:induction false} UnionRow(eng: Engine, ps: seq<Plan>, db: Database, row: Row) returns (j: nat)
    requires row in EvalAll(eng, ps, db)
    ensures j < |ps| && row in Eval(eng, ps[j], db)
    decreases |ps|
  {
    hide Eval;
    if row in Eval(eng, ps[0], db) {
      j := 0;
    } else {
      var k := UnionRow(eng, ps[1..], db, row);
      j := k + 1;
    }
  }

  lemma UnionColumn(p: Plan, j: nat, i: nat)
    requires p.Union? && WellNamed(p) && Clear(p) && j < |p.inputs| && i < |Fields(p)| && DirectOnly(Entry(p, i))
    ensures WellNamed(p.inputs[j]) && Clear(p.inputs[j]) && i < |Fields(p.inputs[j])| && DirectOnly(Entry(p.inputs[j], i))
  {
    UnionParts(p, j);
    assert p.inputs[j] in p.inputs;
    UnionEntry(p.inputs, Fields(p), j, i);
    assert KeyOf(p.inputs[j], i) == Fields(p.inputs[j])[i].name && KeyOf(p, i) == Fields(p)[i].name;
    assert Walk(p) == WalkAll(p.inputs, Fields(p));
    hide Walk, WalkAll, WellNamed, Fields, KeyOf, Clear;
  }

  lemma ScanCopied(eng: Engine, p: Plan, db: Database, i: nat, row: Row)
    requires p.TableScan? && i < |Fields(p)| && row in Eval(eng, p, db)
    ensures i < |row| && Copied(db, row[i])
  {
    var rows := TableRows(db, p.table);
    var k :| 0 <= k < |rows| && row == ScanRow(p.table, p.columns, rows[k]);
    assert rows[k] in rows && row[i].from == {Leaf(Some(p.table), p.columns[i])};
  }

  lemma ValuesCopied(eng: Engine, p: Plan, db: Database, i: nat, row: Row)
    requires p.Values? && i < |Fields(p)| && row in Eval(eng, p, db)
    ensures i < |row| && Copied(db, row[i])
  {
  }

  /** A column listed as direct only holds copies, as long as nothing computed is hidden behind a direct
      entry: whatever the scalar functions, casts and aggregates do, each of its cells is a constant or the
      stored value of one base column. */
  lemma {:induction false} DirectMeansCopied(eng: Engine, p: Plan, db: Database, i: nat, row: Row)
    requires WellNamed(p) && Clear(p) && i < |Fields(p)| && DirectOnly(Entry(p, i)) && row in Eval(eng, p, db)
    ensures i < |row| && Copied(db, row[i])
    decreases p
  {
    hide Entry, WellNamed, Clear, DirectOnly, Fields, Eval, Walk, Copied, EvalExpr, EvalExprs;
    if p.TableScan? {
      ScanCopied(eng, p, db, i, row);
    } else if p.Values? {
      ValuesCopied(eng, p, db, i, row);
    } else if p.Projection? {
      ProjectedCopied(eng, p, db, i, row);
    } else if p.Union? {
      EvalUnion(eng, p, db);
      var j := UnionRow(eng, p.inputs, db, row);
      UnionColumn(p, j, i);
      DirectMeansCopied(eng, p.inputs[j], db, i, row);
    } else if p.WindowNode? {
      var input := WindowRow(eng, p, db, row);
      WindowColumn(p, i);
      if i < |Fields(p.input)| {
        DirectMeansCopied(eng, p.input, db, i, input);
      } else {
        NothingRead(eng, p, db, i, row);
        ConstantCopied(db, row[i]);
      }
    } else if p.Join? {
      JoinCopied(eng, p, db, i, row);
    } else if p.Aggregate? {
      GroupedColumn(p, i);
      NothingRead(eng, p, db, i, row);
      ConstantCopied(db, row[i]);
    } else {
      PassedRow(eng, p, db, i, row);
      DirectMeansCopied(eng, p.input, db, i, row);
    }
  }

  lemma ClearJoin(p: Plan)
    requires p.Join? && WellNamed(p) && Clear(p)
    ensures WellNamed(p.left) && WellNamed(p.right) && Clear(p.left) && Clear(p.right) && MarksDirect(p)
  {
    hide MarksDirect;
  }

  /** Cell i of a joined row is a cell of one side, or a padding null. */
  lemma {:induction false} JoinCopied(eng: Engine, p: Plan, db: Database, i: nat, row: Row)
    requires p.Join? && WellNamed(p) && Clear(p) && i < |Fields(p)| && DirectOnly(Entry(p, i)) && row in Eval(eng, p, db)
    ensures i < |row| && Copied(db, row[i])
    decreases p, 1
  {
    var ls, rs := Eval(eng, p.left, db), Eval(eng, p.right, db);
    assert row in JoinRows(eng, p, ls, rs);
    hide Entry, WellNamed, Clear, DirectOnly, Fields, Eval, Walk, Copied, JoinRows, MarksDirect, KeyOf;
    ClearJoin(p);
    if LeftKept(p.kind) && RightKept(p.kind) {
      var l, r := JoinedFrom(eng, p, ls, rs, row);
      BothCopied(eng, p, db, i, l, r);
    } else {
      JoinFields(p);
      JoinKeyOf(p, i);
      SemiMember(eng, p, ls, rs, row);
      if p.kind in {RightSemi, RightAnti} {
        SideEntry(p, p.right, i, i);
        DirectMeansCopied(eng, p.right, db, i, row);
      } else {
        SideEntry(p, p.left, i, i);
        DirectMeansCopied(eng, p.left, db, i, row);
      }
    }
  }

  lemma {:induction false} BothCopied(eng: Engine, p: Plan, db: Database, i: nat, l: Row, r: Row)
    requires p.Join? && LeftKept(p.kind) && RightKept(p.kind) && WellNamed(p) && Clear(p)
    requires i < |Fields(p)| && DirectOnly(Entry(p, i))
    requires l in Eval(eng, p.left, db) || l == Nulls(|Fields(p.left)|)
    requires r in Eval(eng, p.right, db) || r == Nulls(|Fields(p.right)|)
    ensures i < |l + r| && Copied(db, (l + r)[i])
    decreases p, 0
  {
    hide Entry, WellNamed, Clear, DirectOnly, Fields, Eval, Walk, Copied, MarksDirect, KeyOf, Nulls;
    ClearJoin(p);
    JoinFields(p);
    JoinKeyOf(p, i);
    SideWidth(eng, p.left, db, l);
    SideWidth(eng, p.right, db, r);
    if i < |l| {
      if l in Eval(eng, p.left, db) {
        SideEntry(p, p.left, i, i);
        DirectMeansCopied(eng, p.left, db, i, l);
      }
    } else if r in Eval(eng, p.right, db) {
      SideEntry(p, p.right, i, i - |l|);
      DirectMeansCopied(eng, p.right, db, i - |l|, r);
    }
  }

  lemma SideWidth(eng: Engine, side: Plan, db: Database, row: Row)
    requires WellNamed(side) && (row in Eval(eng, side, db) || row == Nulls(|Fields(side)|))
    ensures |row| == |Fields(side)|
    ensures row !in Eval(eng, side, db) ==> forall i :: 0 <= i < |row| ==> Copied(db, row[i])
  {
    hide Eval, Fields, WellNamed;
    RowsWide(eng, side, db);
    ConstantCopied(db, NULL_CELL);
  }

  lemma JoinFields(p: Plan)
    requires p.Join?
    ensures Fields(p) == if LeftKept(p.kind) && RightKept(p.kind) then Fields(p.left) + Fields(p.right)
                         else if LeftKept(p.kind) then Fields(p.left) else Fields(p.right)
  {
  }

  lemma ConstantCopied(db: Database, cell: Cell)
    requires cell.from == {}
    ensures Copied(db, cell)
  {
  }

  lemma EvalUnion(eng: Engine, p: Plan, db: Database)
    requires p.Union?
    ensures Eval(eng, p, db) == EvalAll(eng, p.inputs, db)
  {
    hide EvalAll;
  }

  lemma {:induction false} ProjectedCopied(eng: Engine, p: Plan, db: Database, i: nat, out: Row)
    requires p.Projection? && WellNamed(p) && Clear(p) && i < |Fields(p)| && DirectOnly(Entry(p, i)) && out in Eval(eng, p, db)
    ensures i < |out| && Copied(db, out[i])
    decreases p, 0
  {
    hide Entry, WellNamed, Clear, DirectOnly, NeverDirect, Fields, Eval, Walk, Copied, EvalExprs, Resolves, ProjectedRefs, ClassifyExpr;
    ProjectionFacts(p, i);
    var row := ProjectedFrom(eng, p, db, out);
    var e := p.exprs[i];
    assert out[i] == EvalExpr(eng, e, Fields(p.input), row);
    if !NeverDirect(Entry(p, i)) {
      var c := DirectIsColumn(eng, e, Fields(p.input), row);
      var j := ReadPosition(p, i, c);
      DirectMeansCopied(eng, p.input, db, j, row);
    } else {
      DirectAndNever(Entry(p, i));
      NothingRead(eng, p, db, i, out);
      ConstantCopied(db, out[i]);
    }
  }
}

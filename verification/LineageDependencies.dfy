/** Dependencies read off a plan by positions, and the walker's lists against them. */
module LineageDependencies {
  import opened Lists
  import opened Lineage
  import opened LineageSoundness
  import opened LineageListing
  import opened LineageKinds
  import opened LineagePrecision

  // ---- Dependencies by position ----

  /** The base columns behind the input columns an expression means. */
  ghost function Reads(input: Plan, e: Expr): set<Leaf>
    decreases input, 1
  {
    set c, x | c in Refs(e) && FindField(Fields(input), c).Some? && x in Deps(input, FindField(Fields(input), c).value) :: x
  }

  /** The base columns output column i is computed from, or its rows are filtered by. */
  ghost function Deps(p: Plan, i: nat): set<Leaf>
    requires i < |Fields(p)|
    decreases p, 0
  {
    match p
    case TableScan(t, cols) => {Leaf(Some(t), cols[i])}
    case Values(_, _) => {}
    case Projection(es, input) => Reads(input, es[i])
    case Filter(e, input) => Deps(input, i) + Reads(input, e)
    case Join(l, r, _, _, kind) =>
      if kind in {RightSemi, RightAnti} then Deps(r, i)
      else if i < |Fields(l)| then Deps(l, i)
      else Deps(r, i - |Fields(l)|)
    case Aggregate(g, a, input) => Reads(input, if i < |g| then g[i] else a[i - |g|])
    case WindowNode(ws, input) => if i < |Fields(input)| then Deps(input, i) else Reads(input, ws[i - |Fields(input)|])
    case Union(inputs) => set q, x | q in inputs && i < |Fields(q)| && x in Deps(q, i) :: x
    case SubqueryAlias(_, input) => Deps(input, i)
    case Distinct(input) => Deps(input, i)
    case Sort(_, input) => Deps(input, i)
    case Limit(_, _, input) => Deps(input, i)
  }

  /** No join has a name on both sides, and no union gives two columns one name. */
  predicate Apart(p: Plan)
    decreases p
  {
    match p
    case TableScan(_, _) => true
    case Values(_, _) => true
    case Projection(_, input) => Apart(input)
    case Filter(_, input) => Apart(input)
    case Join(l, r, _, _, _) => Apart(l) && Apart(r) && Keys(l) !! Keys(r)
    case Aggregate(_, _, input) => Apart(input)
    case WindowNode(_, input) => Apart(input)
    case Union(inputs) =>
      (forall q <- inputs :: Apart(q)) && forall i, j :: 0 <= i < j < |Fields(p)| ==> Fields(p)[i].name != Fields(p)[j].name
    case SubqueryAlias(_, input) => Apart(input)
    case Distinct(input) => Apart(input)
    case Sort(_, input) => Apart(input)
    case Limit(_, _, input) => Apart(input)
  }

  /** Every dependency is listed, and on plans with names apart nothing else is. */
  ghost predicate Precise(p: Plan, i: nat)
    requires i < |Fields(p)|
  {
    Deps(p, i) <= LeavesAt(p, i) && (Apart(p) ==> LeavesAt(p, i) == Deps(p, i))
  }

  ghost predicate AllPrecise(p: Plan) {
    forall i :: 0 <= i < |Fields(p)| ==> Precise(p, i)
  }

  /** The leaves behind the keys an expression resolves to are those it reads. */
  lemma ReadsResolved(m: LineageMap, e: Expr, input: Plan)
    requires WellNamed(input) && Resolves(m, Refs(e), input) && AllPrecise(input)
    requires forall i :: 0 <= i < |Fields(input)| ==> KeyOf(input, i) in m && Leaves(m[KeyOf(input, i)]) == LeavesAt(input, i)
    ensures Reads(input, e) <= KeyLeaves(m, ResolvedKeys(m, e))
    ensures Apart(input) ==> KeyLeaves(m, ResolvedKeys(m, e)) == Reads(input, e)
  {
    hide Walk, WellNamed, KeyOf, Fields, Resolve, Refs, Deps, LeavesAt, Apart, Leaves, KeyLeaves;
    forall x | x in Reads(input, e)
      ensures x in KeyLeaves(m, ResolvedKeys(m, e))
    {
      var c :| c in Refs(e) && FindField(Fields(input), c).Some? && x in Deps(input, FindField(Fields(input), c).value);
      var i := FindField(Fields(input), c).value;
      assert Precise(input, i);
      KeyLeafIn(m, KeyOf(input, i), ResolvedKeys(m, e), x);
    }
    if Apart(input) {
      forall x | x in KeyLeaves(m, ResolvedKeys(m, e))
        ensures x in Reads(input, e)
      {
        var k := LeafKeyOf(m, ResolvedKeys(m, e), x);
        var c :| c in Refs(e) && Resolve(m, c) == k;
        assert Precise(input, FindField(Fields(input), c).value);
      }
    }
  }

  lemma KeyLeafIn(m: LineageMap, k: string, keys: set<string>, x: Leaf)
    requires k in keys && k in m && x in Leaves(m[k])
    ensures x in KeyLeaves(m, keys)
  {
  }

  lemma LeafKeyOf(m: LineageMap, keys: set<string>, x: Leaf) returns (k: string)
    requires x in KeyLeaves(m, keys)
    ensures k in keys && k in m && x in Leaves(m[k])
  {
    var l, u :| l in keys && l in m && u in m[l] && x == Leaf(u.qualifier, u.column);
    k := l;
  }

  lemma InputEntries(input: Plan)
    requires WellNamed(input)
    ensures forall i :: 0 <= i < |Fields(input)| ==>
              KeyOf(input, i) in Walk(input) && Leaves(Walk(input)[KeyOf(input, i)]) == LeavesAt(input, i)
  {
    hide Walk, KeyOf, Fields, WellNamed, Leaves;
    forall i | 0 <= i < |Fields(input)|
      ensures KeyOf(input, i) in Walk(input)
    {
      EveryColumnListed(input, i);
    }
  }

  lemma ProjectedLeavesExact(m: LineageMap, e: Expr)
    requires AllFound(m, Refs(e))
    ensures Leaves(ProjectedRefs(m, e)) == KeyLeaves(m, ResolvedKeys(m, e))
  {
    var k := ClassifyExpr(e);
    var f := (c: ColumnRef, u: Upstream) => if k == Direct then u.kind else k;
    assert (set c | c in Refs(e) && Resolve(m, c) !in m :: Upstream(c.0, c.1, k)) == {};
    assert ProjectedRefs(m, e) == Gathered(m, Refs(e), f);
    hide Gathered, Resolve, KeyLeaves, Leaves, ProjectedRefs, Refs;
    LeavesGathered(m, Refs(e), f);
  }

  lemma ProjectionParts(p: Plan, i: nat)
    requires p.Projection? && WellNamed(p) && i < |p.exprs|
    ensures |Fields(p)| == |p.exprs| && KeyOf(p, i) == FieldOf(p.exprs[i]).name
    ensures WellNamed(p.input) && Resolves(Walk(p.input), Refs(p.exprs[i]), p.input)
    ensures Walk(p) == WalkProjection(Walk(p.input), p.exprs) && NoClash(Walk(p.input), p.exprs, FieldNames(p.exprs))
  {
    assert p.exprs[i] in p.exprs;
    hide WalkProjection, NoClash, FieldOf, Resolves;
  }

  lemma ProjectionLeaves(p: Plan, i: nat)
    requires p.Projection? && WellNamed(p) && i < |p.exprs|
    ensures |Fields(p)| == |p.exprs|
    ensures WellNamed(p.input) && Resolves(Walk(p.input), Refs(p.exprs[i]), p.input)
    ensures LeavesAt(p, i) == KeyLeaves(Walk(p.input), ResolvedKeys(Walk(p.input), p.exprs[i]))
  {
    hide Walk, WalkProjection, WellNamed, FieldOf, ProjectedRefs, Resolves, KeyOf, Fields, KeyLeaves, Leaves, ResolvedKeys, IsLast, Refs;
    var m, es := Walk(p.input), p.exprs;
    ProjectionParts(p, i);
    var j := LastOfName(es, i);
    ProjectionParts(p, j);
    LastRecorded(m, es, j);
    ResolvedFound(m, Refs(es[j]), p.input);
    ProjectedLeavesExact(m, es[j]);
    assert FieldNames(es)[i] == FieldNames(es)[j];
  }

  lemma FilterLeaves(p: Plan, i: nat)
    requires p.Filter? && WellNamed(p) && i < |Fields(p)|
    ensures Fields(p) == Fields(p.input) && WellNamed(p.input) && Resolves(Walk(p.input), Refs(p.test), p.input)
    ensures LeavesAt(p, i) == LeavesAt(p.input, i) + KeyLeaves(Walk(p.input), ResolvedKeys(Walk(p.input), p.test))
  {
    var m := Walk(p.input);
    EveryColumnListed(p.input, i);
    assert KeyOf(p, i) == KeyOf(p.input, i) && Walk(p) == WalkFilter(m, p.test);
    hide Walk, Gathered, KeyOf, Leaves, KeyLeaves, WellNamed, Resolves;
    FilterFacts(p, "");
    LeavesGathered(m, Refs(p.test), (c: ColumnRef, u: Upstream) => FilterBy);
    UnionOfLeaves(m[KeyOf(p.input, i)], FilterRefs(m, p.test));
  }

  lemma SideLeaves(m: LineageMap, k: string, on: set<string>, filter: set<string>)
    ensures Leaves(JoinSide(m, k, on, filter)) == if k in m then Leaves(m[k]) else {}
  {
    JoinSideLeaves(m, k, on, filter);
  }

  lemma JoinLeaves(p: Plan, k: string)
    requires p.Join? && k in Walk(p)
    ensures Leaves(Walk(p)[k]) ==
      (if k in Walk(p.left) then Leaves(Walk(p.left)[k]) else {}) + (if k in Walk(p.right) then Leaves(Walk(p.right)[k]) else {})
  {
    hide Walk, Leaves, JoinSide, OnNames, FilteredNames;
    JoinWalk(p, k);
    var on, filter := OnNames(p.on), FilteredNames(p);
    SideLeaves(Walk(p.left), k, on, filter);
    SideLeaves(Walk(p.right), k, on, filter);
    UnionOfLeaves(JoinSide(Walk(p.left), k, on, filter), JoinSide(Walk(p.right), k, on, filter));
  }

  /** What a join lists for column i: the two sides' lists of its key. */
  lemma JoinLeavesOf(p: Plan, i: nat)
    requires p.Join? && WellNamed(p) && i < |Fields(p)|
    ensures
      var k := KeyOf(p, i);
      LeavesAt(p, i) ==
        (if k in Walk(p.left) then Leaves(Walk(p.left)[k]) else {}) + (if k in Walk(p.right) then Leaves(Walk(p.right)[k]) else {})
  {
    hide Walk, WellNamed, KeyOf, Fields, Leaves;
    EveryColumnListed(p, i);
    JoinLeaves(p, KeyOf(p, i));
  }

  lemma SideKeys(p: Plan)
    requires p.Join? && WellNamed(p)
    ensures WellNamed(p.left) && WellNamed(p.right)
    ensures Walk(p.left).Keys == Keys(p.left) && Walk(p.right).Keys == Keys(p.right)
  {
    ChildWellNamed(p);
    hide Walk, WellNamed, Keys, Listed;
    WalkIsListed(p.left);
    WalkIsListed(p.right);
  }

  lemma JoinPrecise(p: Plan, i: nat)
    requires p.Join? && WellNamed(p) && i < |Fields(p)| && AllPrecise(p.left) && AllPrecise(p.right)
    ensures Precise(p, i)
  {
    hide Walk, WellNamed, KeyOf, Fields, Leaves, Deps, Apart, Keys, Listed, LeavesAt;
    JoinLeavesOf(p, i);
    SideKeys(p);
    InputEntries(p.left);
    InputEntries(p.right);
    JoinKeyOf(p, i);
    DepsOfJoin(p, i);
    ApartJoin(p);
    if LeftKept(p.kind) && i < |Fields(p.left)| {
      assert Precise(p.left, i);
    } else {
      var j := if LeftKept(p.kind) then i - |Fields(p.left)| else i;
      assert Precise(p.right, j);
    }
  }

  lemma ApartJoin(p: Plan)
    requires p.Join?
    ensures Apart(p) ==> Apart(p.left) && Apart(p.right) && Keys(p.left) !! Keys(p.right)
  {
    hide Keys;
  }

  lemma DepsOfJoin(p: Plan, i: nat)
    requires p.Join? && i < |Fields(p)|
    ensures
      if LeftKept(p.kind) && i < |Fields(p.left)| then Deps(p, i) == Deps(p.left, i)
      else
        var j := if LeftKept(p.kind) then i - |Fields(p.left)| else i;
        j < |Fields(p.right)| && Deps(p, i) == Deps(p.right, j)
  {
  }

  lemma AggregateLeaves(p: Plan, i: nat)
    requires p.Aggregate? && WellNamed(p) && i < |p.group + p.aggr|
    ensures |Fields(p)| == |p.group + p.aggr|
    ensures WellNamed(p.input) && Resolves(Walk(p.input), Refs((p.group + p.aggr)[i]), p.input)
    ensures LeavesAt(p, i) == KeyLeaves(Walk(p.input), ResolvedKeys(Walk(p.input), (p.group + p.aggr)[i]))
  {
    var m, es := Walk(p.input), p.group + p.aggr;
    AggregateFacts(p, i);
    hide Walk, WalkGrouped, WellNamed, SchemaName, Resolves, KeyOf, Fields, KeyLeaves, Leaves, ResolvedKeys, IsLastNamed, Refs, Gathered, NoClash;
    ChildWellNamed(p);
    var j := LastOfSchemaName(es, i);
    LastInBoth(m, p.group, p.aggr, j);
    LeavesGathered(m, Refs(es[j]), (c: ColumnRef, u: Upstream) => if j < |p.group| then GroupBy else AggregateInput);
    SameKeyedRefs(m, es, i, j);
  }

  lemma OldColumnPrecise(p: Plan, i: nat)
    requires p.WindowNode? && WellNamed(p) && i < |Fields(p.input)| && AllPrecise(p.input)
    ensures i < |Fields(p)| && Precise(p, i)
  {
    hide Walk, WellNamed, KeyOf, Fields, Leaves, Deps, Apart, SchemaName, WalkWindows, Reads, Resolves;
    WindowFacts(p);
    WindowWidth(p);
    WindowKeyAt(p, i);
    DepsOfWindow(p, i);
    ChildWellNamed(p);
    InputEntries(p.input);
    WindowsApart(p);
    WindowsKeep(Walk(p.input), p.windows, |p.windows|);
    assert Precise(p.input, i);
  }

  lemma NewColumnPrecise(p: Plan, j: nat)
    requires p.WindowNode? && WellNamed(p) && j < |p.windows| && AllPrecise(p.input)
    ensures |Fields(p.input)| + j < |Fields(p)| && Precise(p, |Fields(p.input)| + j)
  {
    hide Walk, WellNamed, KeyOf, Fields, Leaves, Deps, Apart, SchemaName, WalkWindows, Reads, KeyLeaves, ResolvedKeys, Resolves;
    var m, i := Walk(p.input), |Fields(p.input)| + j;
    WindowFacts(p);
    WindowWidth(p);
    WindowKeyAt(p, i);
    DepsOfWindow(p, i);
    ChildWellNamed(p);
    InputEntries(p.input);
    WindowsApart(p);
    WindowsKeep(m, p.windows, j);
    WindowEntry(m, p.windows, |p.windows|, j);
    WindowNames(p, j);
    ReadsResolved(WalkWindows(m, p.windows[..j]), p.windows[j], p.input);
  }

  lemma WindowPrecise(p: Plan, i: nat)
    requires p.WindowNode? && WellNamed(p) && i < |Fields(p)| && AllPrecise(p.input)
    ensures Precise(p, i)
  {
    hide Walk, WellNamed, KeyOf, Fields, AllPrecise, Precise;
    WindowWidth(p);
    if i < |Fields(p.input)| {
      OldColumnPrecise(p, i);
    } else {
      NewColumnPrecise(p, i - |Fields(p.input)|);
    }
  }

  lemma DepsOfWindow(p: Plan, i: nat)
    requires p.WindowNode? && i < |Fields(p)|
    ensures |Fields(p)| == |Fields(p.input)| + |p.windows| && (Apart(p) <==> Apart(p.input))
    ensures Deps(p, i) == if i < |Fields(p.input)| then Deps(p.input, i) else Reads(p.input, p.windows[i - |Fields(p.input)|])
  {
    hide Reads;
  }

  lemma UnionPrecise(p: Plan, i: nat)
    requires p.Union? && WellNamed(p) && i < |Fields(p)| && forall q <- p.inputs :: AllPrecise(q)
    ensures Precise(p, i)
  {
    WalkIsListed(p);
    EveryColumnListed(p, i);
    var k := Fields(p)[i].name;
    assert KeyOf(p, i) == k;
    forall q | q in p.inputs
      ensures WellNamed(q) && |Fields(q)| == |Fields(p)| && (Apart(p) ==> Apart(q))
    {
      UnionInput(p, q);
    }
    assert Apart(p) ==> forall n :: 0 <= n < |Fields(p)| && Fields(p)[n].name == k ==> n == i;
    hide Walk, WellNamed, KeyOf, Fields, Deps, Apart, Listed, Keys;
    forall x | x in Deps(p, i)
      ensures x in LeavesAt(p, i)
    {
      UnionDeps(p, i, x);
      var q :| q in p.inputs && i < |Fields(q)| && x in Deps(q, i);
      UnionPosition(p, q, i, k, x);
    }
    if Apart(p) {
      forall x | x in LeavesAt(p, i)
        ensures x in Deps(p, i)
      {
        var u :| u in Listed(p, k) && x == Leaf(u.qualifier, u.column);
        UnionListedIs(p, k, u);
        var q, n :| q in p.inputs && InputHas(q, Fields(p), n, k, u);
        InputLeaf(q, n, u);
        assert Precise(q, n);
        UnionDeps(p, i, x);
      }
    }
  }

  lemma InputLeaf(q: Plan, n: nat, u: Upstream)
    requires WellNamed(q) && n < |Fields(q)| && u in Listed(q, KeyOf(q, n))
    ensures Leaf(u.qualifier, u.column) in LeavesAt(q, n)
  {
    hide Walk, WellNamed, KeyOf, Fields, Listed, Keys;
    WalkIsListed(q);
    EveryColumnListed(q, n);
  }

  lemma UnionPosition(p: Plan, q: Plan, i: nat, k: string, x: Leaf)
    requires p.Union? && WellNamed(p) && q in p.inputs && i < |Fields(q)| == |Fields(p)| && AllPrecise(q) && WellNamed(q)
    requires k == Fields(p)[i].name == KeyOf(p, i) && k in Walk(p) && Walk(p)[k] == Listed(p, k) && x in Deps(q, i)
    ensures x in LeavesAt(p, i)
  {
    hide Walk, WellNamed, KeyOf, Fields, Listed, Keys, Deps, Apart;
    assert Precise(q, i);
    WalkIsListed(q);
    EveryColumnListed(q, i);
    var u :| u in Listed(q, KeyOf(q, i)) && x == Leaf(u.qualifier, u.column);
    assert InputHas(q, Fields(p), i, k, u);
    UnionListedIs(p, k, u);
  }

  lemma UnionDeps(p: Plan, i: nat, x: Leaf)
    requires p.Union? && i < |Fields(p)|
    ensures x in Deps(p, i) <==> exists q :: q in p.inputs && i < |Fields(q)| && x in Deps(q, i)
  {
    hide Fields;
  }

  lemma LeafPrecise(p: Plan, i: nat)
    requires (p.TableScan? || p.Values?) && i < |Fields(p)|
    ensures Precise(p, i)
  {
    if p.TableScan? {
      assert Walk(p)[p.columns[i]] == {Upstream(Some(p.table), p.columns[i], Direct)};
    } else {
      assert Leaves({}) == {};
    }
  }

  lemma SamePrecise(p: Plan, i: nat)
    requires (p.SubqueryAlias? || p.Distinct? || p.Sort? || p.Limit?) && i < |Fields(p)| && AllPrecise(p.input)
    ensures Precise(p, i)
  {
    assert i < |Fields(p.input)|;
    assert Precise(p.input, i);
  }

  lemma ExprPrecise(p: Plan, i: nat, e: Expr)
    requires WellNamed(p) && OneInput(p) && i < |Fields(p)| && AllPrecise(p.input) && WellNamed(p.input)
    requires Resolves(Walk(p.input), Refs(e), p.input) && (Apart(p) <==> Apart(p.input))
    requires LeavesAt(p, i) == KeyLeaves(Walk(p.input), ResolvedKeys(Walk(p.input), e)) && Deps(p, i) == Reads(p.input, e)
    ensures Precise(p, i)
  {
    hide Walk, WellNamed, KeyOf, Fields, Leaves, Deps, Apart, Reads, KeyLeaves, ResolvedKeys, Resolves, LeavesAt;
    InputEntries(p.input);
    ReadsResolved(Walk(p.input), e, p.input);
  }

  lemma FilterPrecise(p: Plan, i: nat)
    requires p.Filter? && WellNamed(p) && i < |Fields(p)| && AllPrecise(p.input)
    ensures Precise(p, i)
  {
    FilterLeaves(p, i);
    assert Deps(p, i) == Deps(p.input, i) + Reads(p.input, p.test) && (Apart(p) <==> Apart(p.input));
    hide Walk, WellNamed, KeyOf, Fields, Leaves, Deps, Apart, Reads, KeyLeaves, ResolvedKeys, Resolves, LeavesAt;
    InputEntries(p.input);
    assert Precise(p.input, i);
    ReadsResolved(Walk(p.input), p.test, p.input);
  }

  /** What column i of a well-named plan depends on, by positions, is listed for it; and when no join merges
      equal names and no union repeats one, nothing else is. */
  lemma {:induction false} ListedIsDependedOn(p: Plan, i: nat)
    requires WellNamed(p) && i < |Fields(p)|
    ensures Deps(p, i) <= LeavesAt(p, i)
    ensures Apart(p) ==> LeavesAt(p, i) == Deps(p, i)
    decreases p, 0
  {
    hide WellNamed, Fields, Deps, Apart, LeavesAt, Reads;
    if p.TableScan? || p.Values? {
      LeafPrecise(p, i);
    } else if p.Join? {
      ChildWellNamed(p);
      InputPrecise(p.left);
      InputPrecise(p.right);
      JoinPrecise(p, i);
    } else if p.Union? {
      forall q | q in p.inputs
        ensures AllPrecise(q)
      {
        UnionInput(p, q);
        InputPrecise(q);
      }
      UnionPrecise(p, i);
    } else {
      ChildWellNamed(p);
      InputPrecise(p.input);
      NodePrecise(p, i);
    }
  }

  lemma NodePrecise(p: Plan, i: nat)
    requires OneInput(p) && WellNamed(p) && i < |Fields(p)| && AllPrecise(p.input)
    ensures Precise(p, i)
  {
    hide WellNamed, Reads, Resolves, KeyLeaves, ResolvedKeys, SchemaName, Walk, KeyOf, AllPrecise, Precise;
    match p {
      case Projection(es, _) =>
        ProjectionLeaves(p, i);
        ExprPrecise(p, i, es[i]);
      case Filter(_, _) => FilterPrecise(p, i);
      case Aggregate(g, a, _) =>
        AggregateLeaves(p, i);
        ExprPrecise(p, i, (g + a)[i]);
      case WindowNode(_, _) => WindowPrecise(p, i);
      case _ => SamePrecise(p, i);
    }
  }

  lemma {:induction false} InputPrecise(p: Plan)
    requires WellNamed(p)
    ensures AllPrecise(p)
    decreases p, 1
  {
    hide WellNamed, Fields, Deps, Apart, LeavesAt;
    forall i | 0 <= i < |Fields(p)|
      ensures Precise(p, i)
    {
      ListedIsDependedOn(p, i);
    }
  }

  /** `SELECT * FROM t JOIN u` with a column c in both: each c lists both tables' columns. */
  lemma JoinMergesNames(t: string, u: string, c: string)
    requires t != u
    ensures
      var p := Join(TableScan(t, [c]), TableScan(u, [c]), [], None, Inner);
      && WellNamed(p) && Fields(p) == [Field(Some(t), c), Field(Some(u), c)] && !Apart(p)
      && Deps(p, 0) == {Leaf(Some(t), c)} && Deps(p, 1) == {Leaf(Some(u), c)}
      && LeavesAt(p, 0) == LeavesAt(p, 1) == {Leaf(Some(t), c), Leaf(Some(u), c)}
  {
    var l, r := TableScan(t, [c]), TableScan(u, [c]);
    var p := Join(l, r, [], None, Inner);
    assert c in Keys(l) && c in Keys(r);
    assert Walk(l)[c] == {Upstream(Some(t), c, Direct)} && Walk(r)[c] == {Upstream(Some(u), c, Direct)};
    assert KeyOf(p, 0) == c && KeyOf(p, 1) == c;
    JoinWalk(p, c);
    hide Walk, KeyOf;
    JoinLeaves(p, c);
  }
}

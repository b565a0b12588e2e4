/** What the walker lists: an entry for every output column, and only columns of scanned tables. */
module LineageListing {
  import opened Lists
  import opened Lineage
  import opened LineageSoundness

  /** The base columns a plan scans. */
  function ScanLeaves(p: Plan): set<Leaf>
    decreases p
  {
    match p
    case TableScan(t, cols) => set c | c in cols :: Leaf(Some(t), c)
    case Values(_, _) => {}
    case Join(l, r, _, _, _) => ScanLeaves(l) + ScanLeaves(r)
    case Union(inputs) => AllScanLeaves(inputs)
    case Projection(_, input) => ScanLeaves(input)
    case Filter(_, input) => ScanLeaves(input)
    case Aggregate(_, _, input) => ScanLeaves(input)
    case WindowNode(_, input) => ScanLeaves(input)
    case SubqueryAlias(_, input) => ScanLeaves(input)
    case Distinct(input) => ScanLeaves(input)
    case Sort(_, input) => ScanLeaves(input)
    case Limit(_, _, input) => ScanLeaves(input)
  }

  function AllScanLeaves(ps: seq<Plan>): set<Leaf>
    decreases ps
  {
    if ps == [] then {} else AllScanLeaves(ps[..|ps| - 1]) + ScanLeaves(ps[|ps| - 1])
  }

  // ---- Every output column has an entry ----

  lemma {:induction false} UnionNames(ps: seq<Plan>, names: seq<Field>, i: nat)
    requires i < |names|
    ensures names[i].name in WalkAll(ps, names)
    decreases |ps|
  {
    if ps == [] {
      assert names[i] in names;
    } else {
      var n := |ps| - 1;
      UnionNames(ps[..n], names, i);
      hide Walk, Fields, MergeInput;
      MergeEntry(WalkAll(ps[..n], names), Walk(ps[n]), names, Fields(ps[n]), names[i].name);
    }
  }

  lemma AggregateKey(p: Plan, i: nat)
    requires p.Aggregate? && i < |Fields(p)|
    ensures KeyOf(p, i) in Walk(p)
  {
    var m, k := Walk(p.input), KeyOf(p, i);
    GroupedKeys(m, p.group, GroupBy, k);
    GroupedKeys(m, p.aggr, AggregateInput, k);
    assert Walk(p) == WalkGrouped(m, p.group, GroupBy) + WalkGrouped(m, p.aggr, AggregateInput);
    assert if i < |p.group| then k == SchemaName(p.group[i]) else k == SchemaName(p.aggr[i - |p.group|]);
    hide Walk, WalkGrouped, SchemaName, KeyOf;
  }

  lemma WindowKey(p: Plan, i: nat)
    requires p.WindowNode? && WellNamed(p) && i < |Fields(p)|
    requires i < |Fields(p.input)| ==> KeyOf(p.input, i) in Walk(p.input)
    ensures KeyOf(p, i) in Walk(p)
  {
    hide Walk, KeyOf, WellNamed, SchemaName, WalkWindows, Fields, KeyLeaves, Leaves, ResolvedKeys, Resolves;
    var m, n := Walk(p.input), |p.windows|;
    WindowKeyAt(p, i);
    WindowsApart(p);
    if i < |Fields(p.input)| {
      WindowsKeep(m, p.windows, n);
    } else {
      WindowEntry(m, p.windows, n, i - |Fields(p.input)|);
    }
  }

  lemma ProjectionKey(p: Plan, i: nat)
    requires p.Projection? && WellNamed(p) && i < |Fields(p)|
    ensures KeyOf(p, i) in Walk(p)
  {
    hide FieldOf, WalkProjection, Walk, Resolves, NoClash;
    ProjectionEntry(Walk(p.input), p.exprs, i);
    ProjectionWalk(p, i);
  }

  lemma ProjectionWalk(p: Plan, i: nat)
    requires p.Projection? && i < |Fields(p)|
    ensures KeyOf(p, i) == FieldOf(p.exprs[i]).name && Walk(p) == WalkProjection(Walk(p.input), p.exprs)
  {
    hide WalkProjection, FieldOf;
  }

  lemma JoinKeyOf(p: Plan, i: nat)
    requires p.Join? && i < |Fields(p)|
    ensures
      if LeftKept(p.kind) && i < |Fields(p.left)| then KeyOf(p, i) == KeyOf(p.left, i)
      else
        var j := if LeftKept(p.kind) then i - |Fields(p.left)| else i;
        j < |Fields(p.right)| && KeyOf(p, i) == KeyOf(p.right, j)
  {
  }

  lemma LeafKey(p: Plan, i: nat)
    requires (p.TableScan? || p.Values?) && i < |Fields(p)|
    ensures KeyOf(p, i) in Walk(p)
  {
    assert Fields(p)[i] in Fields(p);
  }

  /** The walker records every output column of the plan, under the column's key. */
  lemma {:induction false} EveryColumnListed(p: Plan, i: nat)
    requires WellNamed(p) && i < |Fields(p)|
    ensures KeyOf(p, i) in Walk(p)
    decreases p
  {
    hide WalkJoin, WalkProjection, WalkGrouped, WalkWindows, FilterRefs, Resolves, NoClash, SchemaName, EmptyMap;
    match p {
      case TableScan(_, _) => LeafKey(p, i);
      case Values(_, _) => LeafKey(p, i);
      case Projection(_, _) => ProjectionKey(p, i);
      case Filter(_, input) => EveryColumnListed(input, i);
      case Join(l, r, _, _, kind) =>
        JoinEntry(p, KeyOf(p, i));
        JoinKeyOf(p, i);
        if LeftKept(kind) && i < |Fields(l)| {
          EveryColumnListed(l, i);
        } else {
          EveryColumnListed(r, if LeftKept(kind) then i - |Fields(l)| else i);
        }
      case Aggregate(_, _, _) => AggregateKey(p, i);
      case WindowNode(_, input) =>
        if i < |Fields(input)| {
          EveryColumnListed(input, i);
        }
        WindowKey(p, i);
      case Union(inputs) => UnionNames(inputs, Fields(p), i);
      case SubqueryAlias(_, input) => EveryColumnListed(input, i);
      case Distinct(input) => EveryColumnListed(input, i);
      case Sort(_, input) => EveryColumnListed(input, i);
      case Limit(_, _, input) => EveryColumnListed(input, i);
    }
  }

  /** So a column whose key is its name is found under its name. */
  lemma ListedUnderItsName(p: Plan, i: nat)
    requires WellNamed(p) && i < |Fields(p)| && KeyOf(p, i) == Fields(p)[i].name
    ensures Fields(p)[i].name in Walk(p)
  {
    hide KeyOf, Walk, Fields, WellNamed;
    EveryColumnListed(p, i);
  }

  // ---- Every listed column is scanned ----

  ghost predicate Within(m: LineageMap, s: set<Leaf>) {
    forall k :: k in m ==> Leaves(m[k]) <= s
  }

  lemma KeyLeavesWithin(m: LineageMap, keys: set<string>, s: set<Leaf>)
    requires Within(m, s)
    ensures KeyLeaves(m, keys) <= s
  {
    forall x | x in KeyLeaves(m, keys)
      ensures x in s
    {
      var k, u :| k in keys && k in m && u in m[k] && x == Leaf(u.qualifier, u.column);
      assert x in Leaves(m[k]);
    }
  }

  lemma GatheredWithin(m: LineageMap, refs: set<ColumnRef>, kind: (ColumnRef, Upstream) -> Kind, s: set<Leaf>)
    requires Within(m, s)
    ensures Leaves(Gathered(m, refs, kind)) <= s
  {
    hide Leaves, Gathered, Within;
    LeavesGathered(m, refs, kind);
    KeyLeavesWithin(m, set c | c in refs :: Resolve(m, c), s);
  }

  /** Every reference finds an entry, so no reference is kept as it stands. */
  predicate AllFound(m: LineageMap, refs: set<ColumnRef>) {
    forall c <- refs :: Resolve(m, c) in m
  }

  lemma ResolvedFound(m: LineageMap, refs: set<ColumnRef>, input: Plan)
    requires WellNamed(input) && m == Walk(input) && Resolves(m, refs, input)
    ensures AllFound(m, refs)
  {
    hide Walk, Fields, KeyOf, WellNamed, Resolve;
    forall c | c in refs
      ensures Resolve(m, c) in m
    {
      EveryColumnListed(input, FindField(Fields(input), c).value);
    }
  }

  lemma {:induction false} ProjectionWithin(m: LineageMap, es: seq<Expr>, s: set<Leaf>)
    requires Within(m, s) && forall e <- es :: AllFound(m, Refs(e))
    ensures Within(WalkProjection(m, es), s)
  {
    hide Leaves, Resolve;
    if es != [] {
      var e := es[|es| - 1];
      ProjectionWithin(m, es[..|es| - 1], s);
      var k := ClassifyExpr(e);
      var kind := (c: ColumnRef, u: Upstream) => if k == Direct then u.kind else k;
      GatheredWithin(m, Refs(e), kind, s);
      assert e in es;
      assert ProjectedRefs(m, e) == Gathered(m, Refs(e), kind);
    }
  }

  lemma UnionOfLeaves(a: set<Upstream>, b: set<Upstream>)
    ensures Leaves(a + b) == Leaves(a) + Leaves(b)
  {
  }

  lemma FilterWithin(m: LineageMap, e: Expr, s: set<Leaf>)
    requires Within(m, s)
    ensures Within(WalkFilter(m, e), s)
  {
    hide Leaves, Gathered;
    GatheredWithin(m, Refs(e), (c: ColumnRef, u: Upstream) => FilterBy, s);
    forall k | k in m
      ensures Leaves(WalkFilter(m, e)[k]) <= s
    {
      UnionOfLeaves(m[k], FilterRefs(m, e));
    }
  }

  lemma JoinSideWithin(m: LineageMap, k: string, on: set<string>, filter: set<string>, s: set<Leaf>)
    requires Within(m, s)
    ensures Leaves(JoinSide(m, k, on, filter)) <= s
  {
    forall x | x in Leaves(JoinSide(m, k, on, filter))
      ensures x in s
    {
      var v :| v in JoinSide(m, k, on, filter) && x == Leaf(v.qualifier, v.column);
      assert x in Leaves(m[k]);
    }
  }

  lemma JoinWithin(l: LineageMap, r: LineageMap, p: Plan, s: set<Leaf>)
    requires p.Join? && Within(l, s) && Within(r, s)
    ensures Within(WalkJoin(l, r, p), s)
  {
    hide Leaves, JoinSide, OnNames;
    var on := OnNames(p.on);
    var filter := if p.filter.Some? then set c | c in Refs(p.filter.value) :: c.1 else {};
    forall k | k in l.Keys + r.Keys
      ensures Leaves(WalkJoin(l, r, p)[k]) <= s
    {
      JoinSideWithin(l, k, on, filter, s);
      JoinSideWithin(r, k, on, filter, s);
      UnionOfLeaves(JoinSide(l, k, on, filter), JoinSide(r, k, on, filter));
    }
  }

  lemma {:induction false} GroupedWithin(m: LineageMap, es: seq<Expr>, kind: Kind, s: set<Leaf>)
    requires Within(m, s)
    ensures Within(WalkGrouped(m, es, kind), s)
  {
    hide Leaves, Gathered, SchemaName;
    if es != [] {
      GroupedWithin(m, es[..|es| - 1], kind, s);
      GatheredWithin(m, Refs(es[|es| - 1]), (c: ColumnRef, u: Upstream) => kind, s);
    }
  }

  lemma {:induction false} WindowsWithin(m: LineageMap, es: seq<Expr>, s: set<Leaf>)
    requires Within(m, s)
    ensures Within(WalkWindows(m, es), s)
  {
    hide Leaves, Gathered, SchemaName, WindowKind;
    if es != [] {
      var e, before := es[|es| - 1], WalkWindows(m, es[..|es| - 1]);
      WindowsWithin(m, es[..|es| - 1], s);
      GatheredWithin(before, Refs(e), (c: ColumnRef, u: Upstream) => WindowKind(e, c), s);
    }
  }

  lemma {:induction false} MergeWithin(m: LineageMap, child: LineageMap, names: seq<Field>, childFields: seq<Field>, s: set<Leaf>)
    requires Within(m, s) && Within(child, s)
    ensures Within(MergeInput(m, child, names, childFields), s)
  {
    hide Leaves;
    if names != [] {
      var n := |names| - 1;
      MergeWithin(m, child, names[..n], childFields, s);
      var before, out := MergeInput(m, child, names[..n], childFields), names[n].name;
      if n < |childFields| && childFields[n].name in child {
        UnionOfLeaves(if out in before then before[out] else {}, child[childFields[n].name]);
        assert Leaves({}) <= s by { NothingListed(); }
      }
    }
  }

  lemma NothingListed()
    ensures Leaves({}) == {}
  {
  }

  lemma Widen(m: LineageMap, s: set<Leaf>, t: set<Leaf>)
    requires Within(m, s) && s <= t
    ensures Within(m, t)
  {
  }

  lemma {:induction false} UnionScanned(ps: seq<Plan>, names: seq<Field>)
    requires forall p <- ps :: WellNamed(p)
    ensures Within(WalkAll(ps, names), AllScanLeaves(ps))
    decreases ps
  {
    if ps == [] {
      NothingListed();
    } else {
      var init, last := ps[..|ps| - 1], ps[|ps| - 1];
      UnionScanned(init, names);
      ListedLeavesAreScanned(last);
      hide Walk, WalkAll, Within, ScanLeaves, Fields;
      Widen(WalkAll(init, names), AllScanLeaves(init), AllScanLeaves(ps));
      Widen(Walk(last), ScanLeaves(last), AllScanLeaves(ps));
      MergeWithin(WalkAll(init, names), Walk(last), names, Fields(last), AllScanLeaves(ps));
      WalkAllSnoc(ps, names);
    }
  }

  lemma WalkAllSnoc(ps: seq<Plan>, names: seq<Field>)
    requires ps != []
    ensures WalkAll(ps, names) ==
      MergeInput(WalkAll(ps[..|ps| - 1], names), Walk(ps[|ps| - 1]), names, Fields(ps[|ps| - 1]))
  {
    hide Walk, MergeInput, Fields;
  }

  lemma ProjectionScanned(p: Plan)
    requires p.Projection? && WellNamed(p) && Within(Walk(p.input), ScanLeaves(p.input))
    ensures Within(Walk(p), ScanLeaves(p))
  {
    var m := Walk(p.input);
    assert Walk(p) == WalkProjection(m, p.exprs);
    hide Walk, WalkProjection, Within, Resolves, NoClash, AllFound, Refs;
    forall e | e in p.exprs
      ensures AllFound(m, Refs(e))
    {
      ResolvedFound(m, Refs(e), p.input);
    }
    ProjectionWithin(m, p.exprs, ScanLeaves(p.input));
  }

  lemma {:induction false} ListedLeavesAreScanned(p: Plan)
    requires WellNamed(p)
    ensures Within(Walk(p), ScanLeaves(p))
    decreases p
  {
    hide Within, Resolves, NoClash, SchemaName;
    match p {
      case TableScan(_, _) => ScanScanned(p);
      case Values(_, _) => ScanScanned(p);
      case Projection(_, input) =>
        ListedLeavesAreScanned(input);
        ProjectionScanned(p);
      case Filter(e, input) =>
        ListedLeavesAreScanned(input);
        FilterWithin(Walk(input), e, ScanLeaves(input));
      case Join(l, r, _, _, _) =>
        ListedLeavesAreScanned(l);
        ListedLeavesAreScanned(r);
        Widen(Walk(l), ScanLeaves(l), ScanLeaves(p));
        Widen(Walk(r), ScanLeaves(r), ScanLeaves(p));
        JoinWithin(Walk(l), Walk(r), p, ScanLeaves(p));
      case Aggregate(g, a, input) =>
        ListedLeavesAreScanned(input);
        GroupedWithin(Walk(input), g, GroupBy, ScanLeaves(input));
        GroupedWithin(Walk(input), a, AggregateInput, ScanLeaves(input));
        MergedWithin(WalkGrouped(Walk(input), g, GroupBy), WalkGrouped(Walk(input), a, AggregateInput), ScanLeaves(input));
      case WindowNode(ws, input) =>
        ListedLeavesAreScanned(input);
        WindowsWithin(Walk(input), ws, ScanLeaves(input));
      case Union(inputs) =>
        forall q | q in inputs
          ensures WellNamed(q)
        {
          var j :| 0 <= j < |inputs| && inputs[j] == q;
          UnionParts(p, j);
        }
        UnionScanned(inputs, Fields(p));
      case SubqueryAlias(_, input) => ListedLeavesAreScanned(input);
      case Distinct(input) => ListedLeavesAreScanned(input);
      case Sort(_, input) => ListedLeavesAreScanned(input);
      case Limit(_, _, input) => ListedLeavesAreScanned(input);
    }
  }

  lemma ScanScanned(p: Plan)
    requires p.TableScan? || p.Values?
    ensures Within(Walk(p), ScanLeaves(p))
  {
  }

  lemma MergedWithin(a: LineageMap, b: LineageMap, s: set<Leaf>)
    requires Within(a, s) && Within(b, s)
    ensures Within(a + b, s)
  {
  }
}

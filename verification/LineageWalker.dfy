/** The walker as it runs: maps filled by insertion, one expression, key or column at a time. */
module LineageWalker {
  import opened Lists
  import opened Lineage

  /** Follow each reference through the input's map and collect what it finds. */
  method CollectUpstreams(m: LineageMap, refs: set<ColumnRef>, kind: (ColumnRef, Upstream) -> Kind)
    returns (us: set<Upstream>)
    ensures us == Gathered(m, refs, kind)
  {
    hide Resolve;
    us := {};
    var todo := refs;
    while todo != {}
      invariant todo <= refs && us == Gathered(m, refs - todo, kind)
      decreases todo
    {
      var c :| c in todo;
      var key := Resolve(m, c);
      ghost var before, done := us, refs - todo;
      if key in m {
        us := us + (set u | u in m[key] :: u.(kind := kind(c, u)));
      }
      todo := todo - {c};
      GatheredMore(m, done, c, kind);
      assert refs - todo == done + {c};
    }
    assert refs - todo == refs;
  }

  lemma GatheredMore(m: LineageMap, refs: set<ColumnRef>, c: ColumnRef, kind: (ColumnRef, Upstream) -> Kind)
    ensures Gathered(m, refs + {c}, kind) ==
      Gathered(m, refs, kind) + (if Resolve(m, c) in m then set u | u in m[Resolve(m, c)] :: u.(kind := kind(c, u)) else {})
  {
    hide Resolve;
  }

  /** References with no entry in the input's map stand for themselves. */
  method CollectMissing(m: LineageMap, refs: set<ColumnRef>, kind: Kind) returns (us: set<Upstream>)
    ensures us == set c | c in refs && Resolve(m, c) !in m :: Upstream(c.0, c.1, kind)
  {
    hide Resolve;
    us := {};
    var todo := refs;
    while todo != {}
      invariant todo <= refs
      invariant us == set c | c in refs - todo && Resolve(m, c) !in m :: Upstream(c.0, c.1, kind)
      decreases todo
    {
      var c :| c in todo;
      if Resolve(m, c) !in m {
        us := us + {Upstream(c.0, c.1, kind)};
      }
      todo := todo - {c};
    }
  }

  method ProjectionLoop(m: LineageMap, es: seq<Expr>) returns (out: LineageMap)
    ensures out == WalkProjection(m, es)
  {
    hide Gathered, Resolve, FieldOf;
    out := map[];
    for i := 0 to |es|
      invariant out == WalkProjection(m, es[..i])
    {
      var e := es[i];
      var k := ClassifyExpr(e);
      var us := CollectUpstreams(m, Refs(e), (c: ColumnRef, u: Upstream) => if k == Direct then u.kind else k);
      var missing := CollectMissing(m, Refs(e), k);
      out := out[FieldOf(e).name := us + missing];
      assert es[..i + 1][..i] == es[..i];
    }
    assert es[..|es|] == es;
  }

  method FilterLoop(m: LineageMap, e: Expr) returns (out: LineageMap)
    ensures out == WalkFilter(m, e)
  {
    hide Gathered;
    var tested := CollectUpstreams(m, Refs(e), (c: ColumnRef, u: Upstream) => FilterBy);
    out := m;
    var todo := m.Keys;
    while todo != {}
      invariant todo <= m.Keys && out.Keys == m.Keys
      invariant forall k :: k in m ==> out[k] == if k in todo then m[k] else m[k] + tested
      decreases todo
    {
      var k :| k in todo;
      out := out[k := out[k] + tested];
      todo := todo - {k};
    }
  }

  /** One side of a join: each of its columns is reclassified and appended to the entry of its name. */
  method JoinSideLoop(side: LineageMap, on: set<string>, filter: set<string>, before: LineageMap)
    returns (out: LineageMap)
    ensures out.Keys == before.Keys + side.Keys
    ensures forall k :: k in out ==> out[k] == (if k in before then before[k] else {}) + JoinSide(side, k, on, filter)
  {
    hide JoinSide;
    JoinSideAbsent(side, on, filter);
    out := before;
    var todo := side.Keys;
    while todo != {}
      invariant todo <= side.Keys && out.Keys == before.Keys + (side.Keys - todo)
      invariant forall k :: k in out ==>
                  out[k] == (if k in before then before[k] else {}) + (if k in todo then {} else JoinSide(side, k, on, filter))
      decreases todo
    {
      var k :| k in todo;
      var reclassified := JoinSide(side, k, on, filter);
      out := out[k := (if k in out then out[k] else {}) + reclassified];
      todo := todo - {k};
    }
  }

  method JoinKeyNames(on: seq<(Expr, Expr)>) returns (names: set<string>)
    ensures names == OnNames(on)
  {
    names := {};
    var i := |on|;
    while i > 0
      invariant 0 <= i <= |on| && names == OnNames(on[i..])
    {
      i := i - 1;
      names := (set c | c in Refs(on[i].0) + Refs(on[i].1) :: c.1) + names;
      assert on[i..][1..] == on[i + 1..];
    }
  }

  lemma BothSides(l: LineageMap, r: LineageMap, lefts: LineageMap, m: LineageMap, p: Plan, on: set<string>, filter: set<string>)
    requires p.Join? && on == OnNames(p.on)
    requires filter == if p.filter.Some? then set c | c in Refs(p.filter.value) :: c.1 else {}
    requires lefts.Keys == l.Keys && m.Keys == lefts.Keys + r.Keys
    requires forall k :: k in lefts ==> lefts[k] == JoinSide(l, k, on, filter)
    requires forall k :: k in m ==> m[k] == (if k in lefts then lefts[k] else {}) + JoinSide(r, k, on, filter)
    ensures m == WalkJoin(l, r, p)
  {
    hide OnNames, JoinSide, Refs;
    var joined := WalkJoin(l, r, p);
    assert joined.Keys == l.Keys + r.Keys;
    forall k | k in m
      ensures m[k] == joined[k]
    {
      JoinSideAbsent(l, on, filter);
      assert joined[k] == JoinSide(l, k, on, filter) + JoinSide(r, k, on, filter);
    }
  }

  method JoinLoop(l: LineageMap, r: LineageMap, p: Plan) returns (m: LineageMap)
    requires p.Join?
    ensures m == WalkJoin(l, r, p)
  {
    hide OnNames, JoinSide, WalkJoin, Refs;
    var on := JoinKeyNames(p.on);
    var filter := if p.filter.Some? then set c | c in Refs(p.filter.value) :: c.1 else {};
    var lefts := JoinSideLoop(l, on, filter, map[]);
    m := JoinSideLoop(r, on, filter, lefts);
    BothSides(l, r, lefts, m, p, on, filter);
  }

  lemma JoinSideAbsent(m: LineageMap, on: set<string>, filter: set<string>)
    ensures forall k :: k !in m ==> JoinSide(m, k, on, filter) == {}
  {
  }

  method GroupedLoop(m: LineageMap, es: seq<Expr>, kind: Kind) returns (out: LineageMap)
    ensures out == WalkGrouped(m, es, kind)
  {
    hide Gathered, SchemaName;
    out := map[];
    for i := 0 to |es|
      invariant out == WalkGrouped(m, es[..i], kind)
    {
      var us := CollectUpstreams(m, Refs(es[i]), (c: ColumnRef, u: Upstream) => kind);
      out := out[SchemaName(es[i]) := us];
      assert es[..i + 1][..i] == es[..i];
    }
    assert es[..|es|] == es;
  }

  method WindowLoop(m: LineageMap, es: seq<Expr>) returns (out: LineageMap)
    ensures out == WalkWindows(m, es)
  {
    hide Gathered, SchemaName, WindowKind;
    out := m;
    for i := 0 to |es|
      invariant out == WalkWindows(m, es[..i])
    {
      var e := es[i];
      var us := CollectUpstreams(out, Refs(e), (c: ColumnRef, u: Upstream) => WindowKind(e, c));
      out := out[SchemaName(e) := us];
      assert es[..i + 1][..i] == es[..i];
    }
    assert es[..|es|] == es;
  }

  /** One input of a union: its columns are appended, by position, under the output names. */
  method MergeLoop(m: LineageMap, child: LineageMap, names: seq<Field>, childFields: seq<Field>) returns (out: LineageMap)
    ensures out == MergeInput(m, child, names, childFields)
  {
    out := m;
    for i := 0 to |names|
      invariant out == MergeInput(m, child, names[..i], childFields)
    {
      var name := names[i].name;
      if i < |childFields| && childFields[i].name in child {
        out := out[name := (if name in out then out[name] else {}) + child[childFields[i].name]];
      }
      assert names[..i + 1][..i] == names[..i];
    }
    assert names[..|names|] == names;
  }

  method NamesLoop(names: seq<Field>) returns (m: LineageMap)
    ensures m == EmptyMap(names)
  {
    m := map[];
    for i := 0 to |names|
      invariant m == EmptyMap(names[..i])
    {
      m := m[names[i].name := {}];
      assert names[..i + 1] == names[..i] + [names[i]];
      NamesSnoc(names[..i], names[i]);
    }
    assert names[..|names|] == names;
  }

  lemma NamesSnoc(names: seq<Field>, f: Field)
    ensures NameSet(names + [f]) == NameSet(names) + {f.name}
  {
    assert forall g :: g in names + [f] <==> g in names || g == f;
    assert f in names + [f];
    forall g | g in names
      ensures g.name in NameSet(names + [f])
    {
      assert g in names + [f];
    }
  }

  method ScanLoop(table: string, columns: seq<string>) returns (m: LineageMap)
    ensures m == map c | c in columns :: {Upstream(Some(table), c, Direct)}
  {
    m := map[];
    for i := 0 to |columns|
      invariant m == map c | c in columns[..i] :: {Upstream(Some(table), c, Direct)}
    {
      m := m[columns[i] := {Upstream(Some(table), columns[i], Direct)}];
    }
  }

  /** The whole walk computes the map the soundness theorems are about. */
  method WalkPlan(p: Plan) returns (m: LineageMap)
    ensures m == Walk(p)
    decreases p
  {
    hide WalkProjection, WalkFilter, WalkJoin, WalkGrouped, WalkWindows, EmptyMap, Fields;
    match p
    case TableScan(t, cols) => m := ScanLoop(t, cols);
    case Values(_, _) => m := NamesLoop(Fields(p));
    case Projection(es, input) =>
      var child := WalkPlan(input);
      m := ProjectionLoop(child, es);
    case Filter(e, input) =>
      var child := WalkPlan(input);
      m := FilterLoop(child, e);
    case Join(l, r, _, _, _) =>
      var left := WalkPlan(l);
      var right := WalkPlan(r);
      m := JoinLoop(left, right, p);
    case Aggregate(g, a, input) =>
      var child := WalkPlan(input);
      var groups := GroupedLoop(child, g, GroupBy);
      var aggregates := GroupedLoop(child, a, AggregateInput);
      m := groups + aggregates;
    case WindowNode(ws, input) =>
      var child := WalkPlan(input);
      m := WindowLoop(child, ws);
    case Union(inputs) =>
      var names := Fields(p);
      m := NamesLoop(names);
      for i := 0 to |inputs|
        invariant m == WalkAll(inputs[..i], names)
      {
        var child := WalkPlan(inputs[i]);
        m := MergeLoop(m, child, names, Fields(inputs[i]));
        WalkAllNext(inputs, i, names);
      }
      assert inputs[..|inputs|] == inputs;
    case SubqueryAlias(_, input) => m := WalkPlan(input);
    case Distinct(input) => m := WalkPlan(input);
    case Sort(_, input) => m := WalkPlan(input);
    case Limit(_, _, input) => m := WalkPlan(input);
  }

  lemma WalkAllNext(ps: seq<Plan>, i: nat, names: seq<Field>)
    requires i < |ps|
    ensures WalkAll(ps[..i + 1], names) == MergeInput(WalkAll(ps[..i], names), Walk(ps[i]), names, Fields(ps[i]))
  {
    hide Walk, MergeInput, Fields;
    assert ps[..i + 1][..i] == ps[..i];
  }
}

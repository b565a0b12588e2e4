/** What the walker lists and nothing more. The reference reads the plan by positions: a reference means the
    input column FindField gives, whatever the walker's maps resolve it to. */
module LineagePrecision {
  import opened Lists
  import opened Lineage
  import opened LineageSoundness
  import opened LineageListing
  import opened LineageKinds

  // ---- The reference ----

  /** The names a plan records something under: those of its columns, and of a dropped join side. */
  function Keys(p: Plan): set<string>
    decreases p
  {
    match p
    case TableScan(_, cols) => set c | c in cols
    case Values(names, _) => set n | n in names
    case Projection(es, _) => set e | e in es :: FieldOf(e).name
    case Filter(_, input) => Keys(input)
    case Join(l, r, _, _, _) => Keys(l) + Keys(r)
    case Aggregate(g, a, _) => (set e | e in g :: SchemaName(e)) + (set e | e in a :: SchemaName(e))
    case WindowNode(ws, input) => Keys(input) + set e | e in ws :: SchemaName(e)
    case Union(_) => set f | f in Fields(p) :: f.name
    case SubqueryAlias(_, input) => Keys(input)
    case Distinct(input) => Keys(input)
    case Sort(_, input) => Keys(input)
    case Limit(_, _, input) => Keys(input)
  }

  /** A copied column keeps its kind, a cast column becomes cast, any other derived. */
  function ThroughExpr(e: Expr, kind: Kind): Kind {
    match Unalias(e)
    case Column(_, _) => kind
    case Cast(_, _) => CastOf
    case TryCast(_, _) => CastOf
    case _ => Derived
  }

  predicate Names(refs: set<ColumnRef>, name: string) {
    exists c <- refs :: c.1 == name
  }

  /** The role of a column of this name in a window expression. */
  function WindowRole(e: Expr, name: string): Kind {
    match Unalias(e)
    case Window(_, _, partition, order) =>
      if Names(AllRefs(partition), name) then WindowPartition
      else if Names(AllRefs(order), name) then WindowOrder
      else WindowInput
    case _ => WindowInput
  }

  /** The role of a column of this name in a join: in its equalities, in its residual filter, or in neither. */
  function JoinRole(p: Plan, name: string): Kind
    requires p.Join?
  {
    if exists o <- p.on :: Names(Refs(o.0), name) || Names(Refs(o.1), name) then JoinKey
    else if p.filter.Some? && Names(Refs(p.filter.value), name) then FilterBy
    else JoinPassthrough
  }

  /** No later expression of a list has the schema name of expression j. */
  predicate IsLastNamed(es: seq<Expr>, j: nat)
    requires j < |es|
  {
    forall k :: j < k < |es| ==> SchemaName(es[k]) != SchemaName(es[j])
  }

  /** What lies behind the columns the references mean, each with a new kind. */
  ghost function Behind(input: Plan, refs: set<ColumnRef>, kind: (ColumnRef, Upstream) -> Kind): set<Upstream>
    decreases input, 1
  {
    set c, u | c in refs && FindField(Fields(input), c).Some? && u in Listed(input, KeyOf(input, FindField(Fields(input), c).value))
      :: u.(kind := kind(c, u))
  }

  ghost function BehindExpr(input: Plan, e: Expr): set<Upstream>
    decreases input, 2
  {
    Behind(input, Refs(e), (c: ColumnRef, u: Upstream) => ThroughExpr(e, u.kind))
  }

  ghost function BehindWindow(input: Plan, e: Expr): set<Upstream>
    decreases input, 2
  {
    Behind(input, Refs(e), (c: ColumnRef, u: Upstream) => WindowRole(e, c.1))
  }

  ghost function BehindAs(input: Plan, e: Expr, kind: Kind): set<Upstream>
    decreases input, 2
  {
    Behind(input, Refs(e), (c: ColumnRef, u: Upstream) => kind)
  }

  /** The first `groups` expressions group, the others aggregate. */
  ghost function BehindGrouped(input: Plan, es: seq<Expr>, groups: nat, i: nat): set<Upstream>
    requires i < |es|
    decreases input, 3
  {
    BehindAs(input, es[i], if i < groups then GroupBy else AggregateInput)
  }

  /** What an input has at the positions a union gives this name. */
  ghost function ListedFrom(q: Plan, names: seq<Field>, k: string): set<Upstream>
    decreases q, 1
  {
    set n, u | 0 <= n < |names| && n < |Fields(q)| && names[n].name == k && u in Listed(q, KeyOf(q, n)) :: u
  }

  ghost function Marked(us: set<Upstream>, kind: Kind): set<Upstream> {
    set u | u in us :: u.(kind := kind)
  }

  /** What is listed under a name: the base columns behind it, each with the part it plays. */
  ghost function Listed(p: Plan, k: string): set<Upstream>
    decreases p, 0
  {
    match p
    case TableScan(t, cols) => if k in cols then {Upstream(Some(t), k, Direct)} else {}
    case Values(_, _) => {}
    case Projection(es, input) =>
      set i, u | 0 <= i < |es| && FieldOf(es[i]).name == k && IsLast(es, i) && u in BehindExpr(input, es[i]) :: u
    case Filter(e, input) => if k in Keys(input) then Listed(input, k) + BehindAs(input, e, FilterBy) else {}
    case Join(l, r, _, _, _) => Marked(Listed(l, k) + Listed(r, k), JoinRole(p, k))
    case Aggregate(g, a, input) =>
      var es := g + a;
      set i, u | 0 <= i < |es| && SchemaName(es[i]) == k && IsLastNamed(es, i) && u in BehindGrouped(input, es, |g|, i) :: u
    case WindowNode(ws, input) =>
      Listed(input, k) + set i, u | 0 <= i < |ws| && SchemaName(ws[i]) == k && u in BehindWindow(input, ws[i]) :: u
    case Union(inputs) => set q, u | q in inputs && u in ListedFrom(q, Fields(p), k) :: u
    case SubqueryAlias(_, input) => Listed(input, k)
    case Distinct(input) => Listed(input, k)
    case Sort(_, input) => Listed(input, k)
    case Limit(_, _, input) => Listed(input, k)
  }

  /** A map that holds exactly the reference. */
  ghost predicate IsListing(m: LineageMap, p: Plan) {
    m.Keys == Keys(p) && forall k :: k in m ==> m[k] == Listed(p, k)
  }

  // ---- References ----

  /** What the walker gathers through its map is what lies behind the columns meant. */
  lemma GatheredIsBehind(m: LineageMap, refs: set<ColumnRef>, input: Plan, kind: (ColumnRef, Upstream) -> Kind)
    requires WellNamed(input) && Resolves(m, refs, input)
    requires forall k :: k in Keys(input) ==> k in m && m[k] == Listed(input, k)
    requires Walk(input).Keys == Keys(input)
    ensures Gathered(m, refs, kind) == Behind(input, refs, kind)
    ensures AllFound(m, refs)
  {
    hide Walk, WellNamed, Listed, Keys, KeyOf, Fields, Resolve;
    forall c | c in refs
      ensures FindField(Fields(input), c).Some?
      ensures
        var k := KeyOf(input, FindField(Fields(input), c).value);
        Resolve(m, c) == k && k in m && m[k] == Listed(input, k)
    {
      EveryColumnListed(input, FindField(Fields(input), c).value);
    }
  }

  lemma {:induction false} BareKind(e: Expr)
    ensures ClassifyExpr(e) == ThroughExpr(e, Direct)
    ensures ClassifyExpr(e) == Direct <==> Unalias(e).Column?
  {
    if e.Alias? {
      BareKind(e.inner);
    }
  }

  lemma ProjectedIsBehind(m: LineageMap, e: Expr, input: Plan)
    requires WellNamed(input) && Resolves(m, Refs(e), input) && m == Walk(input) && IsListing(m, input)
    ensures ProjectedRefs(m, e) == BehindExpr(input, e)
  {
    var k := ClassifyExpr(e);
    var f := (c: ColumnRef, u: Upstream) => if k == Direct then u.kind else k;
    var g := (c: ColumnRef, u: Upstream) => ThroughExpr(e, u.kind);
    BareKind(e);
    forall c: ColumnRef, u: Upstream
      ensures f(c, u) == g(c, u)
    {
      BareKind(e);
    }
    hide Walk, WellNamed, Listed, Keys, KeyOf, Fields, Resolve, Refs, ClassifyExpr, ThroughExpr, Resolves;
    GatheredIsBehind(m, Refs(e), input, f);
    assert (set c | c in Refs(e) && Resolve(m, c) !in m :: Upstream(c.0, c.1, k)) == {};
    SameKinds(input, Refs(e), f, g);
  }

  lemma SameKinds(input: Plan, refs: set<ColumnRef>, f: (ColumnRef, Upstream) -> Kind, g: (ColumnRef, Upstream) -> Kind)
    requires forall c: ColumnRef, u: Upstream :: f(c, u) == g(c, u)
    ensures Behind(input, refs, f) == Behind(input, refs, g)
  {
    hide Listed, KeyOf, Fields;
  }

  // ---- Nothing outside the names ----

  lemma {:induction false} ListedOnlyKeys(p: Plan, k: string)
    requires k !in Keys(p)
    ensures Listed(p, k) == {}
    decreases p
  {
    hide BehindExpr, BehindWindow, BehindAs, BehindGrouped, SchemaName, FieldOf, JoinRole;
    match p {
      case Join(l, r, _, _, _) =>
        ListedOnlyKeys(l, k);
        ListedOnlyKeys(r, k);
      case WindowNode(_, input) => ListedOnlyKeys(input, k);
      case SubqueryAlias(_, input) => ListedOnlyKeys(input, k);
      case Distinct(input) => ListedOnlyKeys(input, k);
      case Sort(_, input) => ListedOnlyKeys(input, k);
      case Limit(_, _, input) => ListedOnlyKeys(input, k);
      case Aggregate(g, a, _) => assert forall i :: 0 <= i < |g + a| ==> (g + a)[i] in g || (g + a)[i] in a;
      case _ =>
    }
  }

  // ---- One node at a time ----

  lemma {:induction false} ProjectionNamesOnly(m: LineageMap, es: seq<Expr>)
    ensures WalkProjection(m, es).Keys == set e | e in es :: FieldOf(e).name
  {
    hide ProjectedRefs, FieldOf;
    if es != [] {
      var n := |es| - 1;
      ProjectionNamesOnly(m, es[..n]);
      assert es == es[..n] + [es[n]];
    }
  }

  lemma ProjectionListing(p: Plan)
    requires p.Projection? && WellNamed(p) && IsListing(Walk(p.input), p.input)
    ensures IsListing(Walk(p), p)
  {
    var m, es, input := Walk(p.input), p.exprs, p.input;
    assert Walk(p) == WalkProjection(m, es);
    assert WellNamed(input) && forall e <- es :: Resolves(m, Refs(e), input);
    assert Keys(p) == set e | e in es :: FieldOf(e).name;
    hide Walk, WalkProjection, WellNamed, FieldOf, ProjectedRefs, BehindExpr, Keys, Resolves, NoClash, IsLast, IsListing;
    ProjectionNamesOnly(m, es);
    forall k | k in WalkProjection(m, es)
      ensures WalkProjection(m, es)[k] == Listed(p, k)
    {
      var e :| e in es && FieldOf(e).name == k;
      var i :| 0 <= i < |es| && es[i] == e;
      var j := LastOfName(es, i);
      LastRecorded(m, es, j);
      ProjectedIsBehind(m, es[j], input);
      OnlyLast(es, k, j);
      assert Listed(p, k) == BehindExpr(input, es[j]);
    }
    IsListingOf(WalkProjection(m, es), p);
  }

  lemma IsListingOf(m: LineageMap, p: Plan)
    requires m.Keys == Keys(p) && forall k :: k in m ==> m[k] == Listed(p, k)
    ensures IsListing(m, p)
  {
    hide Keys, Listed;
  }

  lemma OnlyLast(es: seq<Expr>, k: string, j: nat)
    requires j < |es| && FieldOf(es[j]).name == k && IsLast(es, j)
    ensures forall i :: 0 <= i < |es| && FieldOf(es[i]).name == k && IsLast(es, i) ==> i == j
  {
    hide FieldOf;
    forall i | 0 <= i < |es| && FieldOf(es[i]).name == k && IsLast(es, i)
      ensures i == j
    {
      assert !(i < j) && !(j < i);
    }
  }

  lemma FilterFacts(p: Plan, k: string)
    requires p.Filter? && WellNamed(p)
    ensures Walk(p) == WalkFilter(Walk(p.input), p.test)
    ensures WellNamed(p.input) && Resolves(Walk(p.input), Refs(p.test), p.input) && Keys(p) == Keys(p.input)
    ensures k in Keys(p.input) ==> Listed(p, k) == Listed(p.input, k) + BehindAs(p.input, p.test, FilterBy)
  {
    hide WalkFilter, Resolves, BehindAs;
  }

  lemma FilterListing(p: Plan)
    requires p.Filter? && WellNamed(p) && IsListing(Walk(p.input), p.input)
    ensures IsListing(Walk(p), p)
  {
    hide Walk, WellNamed, Keys, Resolves, Listed, Behind, BehindAs, Gathered, Refs;
    FilterFacts(p, "");
    GatheredIsBehind(Walk(p.input), Refs(p.test), p.input, (c: ColumnRef, u: Upstream) => FilterBy);
    BehindIs(p.input, p.test, FilterBy);
    forall k | k in Walk(p)
      ensures Walk(p)[k] == Listed(p, k)
    {
      FilterFacts(p, k);
    }
  }

  lemma BehindIs(input: Plan, e: Expr, kind: Kind)
    ensures Behind(input, Refs(e), (c: ColumnRef, u: Upstream) => kind) == BehindAs(input, e, kind)
  {
    SameKinds(input, Refs(e), (c: ColumnRef, u: Upstream) => kind, (c: ColumnRef, u: Upstream) => kind);
    hide Behind, Refs;
  }

  lemma {:induction false} OnNamesMember(on: seq<(Expr, Expr)>, k: string)
    ensures k in OnNames(on) <==> exists o <- on :: Names(Refs(o.0), k) || Names(Refs(o.1), k)
  {
    hide Refs;
    if on != [] {
      OnNamesMember(on[1..], k);
      assert on == [on[0]] + on[1..];
    }
  }

  lemma FilteredMember(p: Plan, k: string)
    requires p.Join?
    ensures k in FilteredNames(p) <==> p.filter.Some? && Names(Refs(p.filter.value), k)
  {
    hide Refs;
  }

  lemma JoinEntryListed(p: Plan, k: string)
    requires p.Join? && IsListing(Walk(p.left), p.left) && IsListing(Walk(p.right), p.right)
    ensures k in Walk(p) <==> k in Keys(p.left) + Keys(p.right)
    ensures k in Walk(p) ==> Walk(p)[k] == Listed(p, k)
  {
    hide Walk, Listed, Keys, OnNames, FilteredNames, Names, Refs;
    var l, r := Walk(p.left), Walk(p.right);
    JoinWalk(p, k);
    OnNamesMember(p.on, k);
    FilteredMember(p, k);
    JoinListedIs(p, k);
    if k !in l {
      ListedOnlyKeys(p.left, k);
    }
    if k !in r {
      ListedOnlyKeys(p.right, k);
    }
  }

  lemma JoinListing(p: Plan)
    requires p.Join? && IsListing(Walk(p.left), p.left) && IsListing(Walk(p.right), p.right)
    ensures IsListing(Walk(p), p)
  {
    assert Keys(p) == Keys(p.left) + Keys(p.right);
    hide Walk, Listed, Keys, IsListing;
    forall k: string
      ensures k in Walk(p) <==> k in Keys(p)
      ensures k in Walk(p) ==> Walk(p)[k] == Listed(p, k)
    {
      JoinEntryListed(p, k);
    }
    assert Walk(p).Keys == Keys(p);
    IsListingOf(Walk(p), p);
  }

  lemma JoinListedIs(p: Plan, k: string)
    requires p.Join?
    ensures Listed(p, k) == Marked(Listed(p.left, k) + Listed(p.right, k), JoinRole(p, k))
  {
    hide Marked, JoinRole;
  }

  // -- Aggregate --

  lemma {:induction false} GroupedNames(m: LineageMap, es: seq<Expr>, kind: Kind)
    ensures WalkGrouped(m, es, kind).Keys == set e | e in es :: SchemaName(e)
  {
    hide Gathered, SchemaName;
    if es != [] {
      var n := |es| - 1;
      GroupedNames(m, es[..n], kind);
      assert es == es[..n] + [es[n]];
      var names := set e | e in es :: SchemaName(e);
      assert names == (set e | e in es[..n] :: SchemaName(e)) + {SchemaName(es[n])};
    }
  }

  lemma {:induction false} LastGrouped(m: LineageMap, es: seq<Expr>, kind: Kind, j: nat)
    requires j < |es| && IsLastNamed(es, j)
    ensures SchemaName(es[j]) in WalkGrouped(m, es, kind)
    ensures WalkGrouped(m, es, kind)[SchemaName(es[j])] == Gathered(m, Refs(es[j]), (c: ColumnRef, u: Upstream) => kind)
  {
    hide Gathered, SchemaName;
    if j < |es| - 1 {
      LastGrouped(m, es[..|es| - 1], kind, j);
    }
  }

  lemma {:induction false} LastOfSchemaName(es: seq<Expr>, i: nat) returns (j: nat)
    requires i < |es|
    ensures i <= j < |es| && SchemaName(es[j]) == SchemaName(es[i]) && IsLastNamed(es, j)
    decreases |es| - i
  {
    hide SchemaName;
    if IsLastNamed(es, i) {
      j := i;
    } else {
      var k :| i < k < |es| && SchemaName(es[k]) == SchemaName(es[i]);
      j := LastOfSchemaName(es, k);
    }
  }

  lemma OnlyLastNamed(es: seq<Expr>, k: string, j: nat)
    requires j < |es| && SchemaName(es[j]) == k && IsLastNamed(es, j)
    ensures forall i :: 0 <= i < |es| && SchemaName(es[i]) == k && IsLastNamed(es, i) ==> i == j
  {
    hide SchemaName;
    forall i | 0 <= i < |es| && SchemaName(es[i]) == k && IsLastNamed(es, i)
      ensures i == j
    {
      assert !(i < j) && !(j < i);
    }
  }

  /** The last expression of a name in both lists decides: aggregates come after the groups. */
  lemma LastInBoth(m: LineageMap, g: seq<Expr>, a: seq<Expr>, j: nat)
    requires j < |g + a| && IsLastNamed(g + a, j)
    ensures
      var es, both := g + a, WalkGrouped(m, g, GroupBy) + WalkGrouped(m, a, AggregateInput);
      && SchemaName(es[j]) in both
      && both[SchemaName(es[j])] ==
           Gathered(m, Refs(es[j]), (c: ColumnRef, u: Upstream) => if j < |g| then GroupBy else AggregateInput)
  {
    hide Gathered, SchemaName, WalkGrouped;
    var es := g + a;
    GroupedNames(m, a, AggregateInput);
    if j < |g| {
      assert forall k :: j < k < |g| ==> es[k] == g[k];
      assert IsLastNamed(g, j);
      LastGrouped(m, g, GroupBy, j);
      forall e | e in a
        ensures SchemaName(e) != SchemaName(es[j])
      {
        var i :| 0 <= i < |a| && a[i] == e;
        assert es[|g| + i] == e;
      }
    } else {
      assert forall k :: 0 <= k < |a| ==> es[|g| + k] == a[k];
      assert IsLastNamed(a, j - |g|);
      LastGrouped(m, a, AggregateInput, j - |g|);
    }
    GatheredAlike(m, Refs(es[j]), (c: ColumnRef, u: Upstream) => if j < |g| then GroupBy else AggregateInput,
                  if j < |g| then GroupBy else AggregateInput);
  }

  lemma GatheredAlike(m: LineageMap, refs: set<ColumnRef>, f: (ColumnRef, Upstream) -> Kind, kind: Kind)
    requires forall c: ColumnRef, u: Upstream :: f(c, u) == kind
    ensures Gathered(m, refs, f) == Gathered(m, refs, (c: ColumnRef, u: Upstream) => kind)
  {
    hide Resolve;
  }

  lemma BehindAlike(input: Plan, e: Expr, f: (ColumnRef, Upstream) -> Kind, kind: Kind)
    requires forall c: ColumnRef, u: Upstream :: f(c, u) == kind
    ensures Behind(input, Refs(e), f) == BehindAs(input, e, kind)
  {
    SameKinds(input, Refs(e), f, (c: ColumnRef, u: Upstream) => kind);
    BehindIs(input, e, kind);
    hide Behind, Refs;
  }

  lemma AggregateEntryListed(p: Plan, i: nat)
    requires p.Aggregate? && WellNamed(p) && IsListing(Walk(p.input), p.input) && i < |p.group + p.aggr|
    ensures
      var k := SchemaName((p.group + p.aggr)[i]);
      k in Walk(p) && Walk(p)[k] == Listed(p, k)
  {
    var m, g, a, input := Walk(p.input), p.group, p.aggr, p.input;
    var es, k := g + a, SchemaName((g + a)[i]);
    assert Walk(p) == WalkGrouped(m, g, GroupBy) + WalkGrouped(m, a, AggregateInput);
    hide Walk, WalkGrouped, SchemaName, BehindGrouped, Resolves, IsLastNamed, IsListing;
    var j := LastOfSchemaName(es, i);
    AggregateFacts(p, j);
    hide WellNamed;
    LastInBoth(m, g, a, j);
    ChildWellNamed(p);
    GroupedIsBehind(m, es, |g|, j, input);
    OnlyLastNamed(es, k, j);
    assert Listed(p, k) == BehindGrouped(input, es, |g|, j);
  }

  lemma AggregateListing(p: Plan)
    requires p.Aggregate? && WellNamed(p) && IsListing(Walk(p.input), p.input)
    ensures IsListing(Walk(p), p)
  {
    var m, es := Walk(p.input), p.group + p.aggr;
    assert Walk(p) == WalkGrouped(m, p.group, GroupBy) + WalkGrouped(m, p.aggr, AggregateInput);
    GroupedNames(m, p.group, GroupBy);
    GroupedNames(m, p.aggr, AggregateInput);
    assert Walk(p).Keys == Keys(p);
    hide Walk, WalkGrouped, WellNamed, SchemaName, Keys, Listed, IsListing;
    forall k | k in Walk(p)
      ensures Walk(p)[k] == Listed(p, k)
    {
      var e :| (e in p.group || e in p.aggr) && SchemaName(e) == k;
      assert e in es;
      var i :| 0 <= i < |es| && es[i] == e;
      AggregateEntryListed(p, i);
    }
    IsListingOf(Walk(p), p);
  }

  lemma GroupedIsBehind(m: LineageMap, es: seq<Expr>, groups: nat, j: nat, input: Plan)
    requires j < |es| && WellNamed(input) && m == Walk(input) && IsListing(m, input) && Resolves(m, Refs(es[j]), input)
    ensures Gathered(m, Refs(es[j]), (c: ColumnRef, u: Upstream) => if j < groups then GroupBy else AggregateInput)
         == BehindGrouped(input, es, groups, j)
  {
    hide Walk, WellNamed, Listed, Keys, Resolves, Gathered, Behind, Refs;
    var f := (c: ColumnRef, u: Upstream) => if j < groups then GroupBy else AggregateInput;
    GatheredIsBehind(m, Refs(es[j]), input, f);
    BehindAlike(input, es[j], f, if j < groups then GroupBy else AggregateInput);
  }

  // -- Window --

  lemma WindowRoles(e: Expr, c: ColumnRef)
    ensures WindowKind(e, c) == WindowRole(e, c.1)
  {
    hide AllRefs;
  }

  lemma {:induction false} WindowsNames(m: LineageMap, ws: seq<Expr>)
    ensures WalkWindows(m, ws).Keys == m.Keys + set e | e in ws :: SchemaName(e)
  {
    hide Gathered, SchemaName, WindowKind;
    if ws != [] {
      var n := |ws| - 1;
      WindowsNames(m, ws[..n]);
      assert ws == ws[..n] + [ws[n]];
      var names := set e | e in ws :: SchemaName(e);
      assert names == (set e | e in ws[..n] :: SchemaName(e)) + {SchemaName(ws[n])};
    }
  }

  lemma {:induction false} WindowRecorded(m: LineageMap, ws: seq<Expr>, n: nat, j: nat)
    requires j < n <= |ws|
    requires forall i, k :: 0 <= i < k < |ws| ==> SchemaName(ws[i]) != SchemaName(ws[k])
    ensures SchemaName(ws[j]) in WalkWindows(m, ws[..n])
    ensures WalkWindows(m, ws[..n])[SchemaName(ws[j])] ==
            Gathered(WalkWindows(m, ws[..j]), Refs(ws[j]), (c: ColumnRef, u: Upstream) => WindowKind(ws[j], c))
  {
    hide SchemaName, Gathered, WindowKind;
    assert ws[..n][..n - 1] == ws[..n - 1];
    if j < n - 1 {
      WindowRecorded(m, ws, n - 1, j);
      assert SchemaName(ws[j]) != SchemaName(ws[n - 1]);
    }
  }

  /** A window expression, resolved against the map grown so far, reads the input's columns. */
  lemma WindowIsBehind(p: Plan, j: nat)
    requires p.WindowNode? && WellNamed(p) && IsListing(Walk(p.input), p.input) && j < |p.windows|
    ensures
      var e := p.windows[j];
      Gathered(WalkWindows(Walk(p.input), p.windows[..j]), Refs(e), (c: ColumnRef, u: Upstream) => WindowKind(e, c))
        == BehindWindow(p.input, e)
  {
    var m, ws, input, e := Walk(p.input), p.windows, p.input, p.windows[j];
    var before := WalkWindows(m, ws[..j]);
    var f := (c: ColumnRef, u: Upstream) => WindowKind(e, c);
    var g := (c: ColumnRef, u: Upstream) => WindowRole(e, c.1);
    forall c: ColumnRef, u: Upstream
      ensures f(c, u) == g(c, u)
    {
      WindowRoles(e, c);
    }
    hide Walk, WellNamed, Listed, Keys, Resolves, Gathered, Behind, Refs, SchemaName, WalkWindows, WindowKind, WindowRole;
    ChildWellNamed(p);
    WindowsApart(p);
    WindowsKeep(m, ws, j);
    WindowNames(p, j);
    GatheredIsBehind(before, Refs(e), input, f);
    SameKinds(input, Refs(e), f, g);
  }

  lemma WindowListedIs(p: Plan, k: string)
    requires p.WindowNode? && forall i, j :: 0 <= i < j < |p.windows| ==> SchemaName(p.windows[i]) != SchemaName(p.windows[j])
    ensures (forall e <- p.windows :: SchemaName(e) != k) ==> Listed(p, k) == Listed(p.input, k)
    ensures forall j :: 0 <= j < |p.windows| && SchemaName(p.windows[j]) == k ==>
              Listed(p, k) == Listed(p.input, k) + BehindWindow(p.input, p.windows[j])
  {
    hide SchemaName, BehindWindow;
    forall j | 0 <= j < |p.windows| && SchemaName(p.windows[j]) == k
      ensures Listed(p, k) == Listed(p.input, k) + BehindWindow(p.input, p.windows[j])
    {
      assert forall i :: 0 <= i < |p.windows| && SchemaName(p.windows[i]) == k ==> i == j;
    }
  }

  lemma WindowFacts(p: Plan)
    requires p.WindowNode?
    ensures Walk(p) == WalkWindows(Walk(p.input), p.windows[..|p.windows|]) && p.windows[..|p.windows|] == p.windows
  {
    hide WalkWindows;
    assert p.windows[..|p.windows|] == p.windows;
  }

  lemma OldEntryListed(p: Plan, k: string)
    requires p.WindowNode? && WellNamed(p) && IsListing(Walk(p.input), p.input) && k in Walk(p.input)
    ensures k in Walk(p) && Walk(p)[k] == Listed(p, k)
  {
    hide Walk, WellNamed, SchemaName, WalkWindows, Listed, IsListing;
    WindowFacts(p);
    WindowsApart(p);
    WindowListedIs(p, k);
    WindowsKeep(Walk(p.input), p.windows, |p.windows|);
    InListing(Walk(p.input), p.input, k);
  }

  lemma NewEntryListed(p: Plan, j: nat)
    requires p.WindowNode? && WellNamed(p) && IsListing(Walk(p.input), p.input) && j < |p.windows|
    ensures
      var k := SchemaName(p.windows[j]);
      k in Walk(p) && Walk(p)[k] == Listed(p, k)
  {
    hide Walk, WellNamed, SchemaName, WalkWindows, WindowKind, BehindWindow, Listed, IsListing, Gathered;
    var k := SchemaName(p.windows[j]);
    WindowFacts(p);
    WindowsApart(p);
    WindowListedIs(p, k);
    WindowRecorded(Walk(p.input), p.windows, |p.windows|, j);
    WindowIsBehind(p, j);
    NotInListing(Walk(p.input), p.input, k);
  }

  lemma WindowEntryListed(p: Plan, k: string)
    requires p.WindowNode? && WellNamed(p) && IsListing(Walk(p.input), p.input) && k in Walk(p)
    ensures Walk(p)[k] == Listed(p, k)
  {
    hide Walk, WellNamed, SchemaName, WalkWindows, Listed, IsListing;
    WindowFacts(p);
    WindowsNames(Walk(p.input), p.windows);
    if k in Walk(p.input) {
      OldEntryListed(p, k);
    } else {
      var e :| e in p.windows && SchemaName(e) == k;
      var j :| 0 <= j < |p.windows| && p.windows[j] == e;
      NewEntryListed(p, j);
    }
  }

  lemma InListing(m: LineageMap, p: Plan, k: string)
    requires IsListing(m, p) && k in m
    ensures m[k] == Listed(p, k)
  {
    hide Keys, Listed;
  }

  lemma NotInListing(m: LineageMap, p: Plan, k: string)
    requires IsListing(m, p) && k !in m
    ensures Listed(p, k) == {}
  {
    hide Keys, Listed;
    ListedOnlyKeys(p, k);
  }

  lemma WindowListing(p: Plan)
    requires p.WindowNode? && WellNamed(p) && IsListing(Walk(p.input), p.input)
    ensures IsListing(Walk(p), p)
  {
    assert Walk(p) == WalkWindows(Walk(p.input), p.windows);
    WindowsNames(Walk(p.input), p.windows);
    assert Walk(p).Keys == Keys(p);
    hide Walk, WellNamed, Keys, Listed, SchemaName, WalkWindows, IsListing;
    forall k | k in Walk(p)
      ensures Walk(p)[k] == Listed(p, k)
    {
      WindowEntryListed(p, k);
    }
    IsListingOf(Walk(p), p);
  }

  // -- Union --

  lemma {:induction false} MergedNames(m: LineageMap, child: LineageMap, names: seq<Field>, childFields: seq<Field>)
    requires forall f <- names :: f.name in m
    ensures MergeInput(m, child, names, childFields).Keys == m.Keys
  {
    if names != [] {
      var n := |names| - 1;
      assert names[n] in names;
      MergedNames(m, child, names[..n], childFields);
    }
  }

  lemma {:induction false} MergedMember(m: LineageMap, child: LineageMap, names: seq<Field>, childFields: seq<Field>, k: string, u: Upstream)
    ensures
      var out := MergeInput(m, child, names, childFields);
      (k in out && u in out[k]) <==>
        || (k in m && u in m[k])
        || (exists n :: 0 <= n < |names| && n < |childFields| && names[n].name == k && childFields[n].name in child && u in child[childFields[n].name])
  {
    if names != [] {
      var n := |names| - 1;
      MergedMember(m, child, names[..n], childFields, k, u);
      assert names == names[..n] + [names[n]];
    }
  }

  lemma {:induction false} WalkAllNames(ps: seq<Plan>, names: seq<Field>)
    ensures WalkAll(ps, names).Keys == NameSet(names)
    decreases |ps|
  {
    if ps != [] {
      var n := |ps| - 1;
      WalkAllNames(ps[..n], names);
      hide Walk, Fields;
      MergedNames(WalkAll(ps[..n], names), Walk(ps[n]), names, Fields(ps[n]));
    }
  }

  /** Upstream u comes from position n of this input. */
  ghost predicate FromPosition(q: Plan, names: seq<Field>, n: nat, k: string, u: Upstream) {
    n < |names| && n < |Fields(q)| && names[n].name == k && Fields(q)[n].name in Walk(q) && u in Walk(q)[Fields(q)[n].name]
  }

  lemma MergedPosition(m: LineageMap, q: Plan, names: seq<Field>, k: string, u: Upstream)
    ensures
      var out := MergeInput(m, Walk(q), names, Fields(q));
      (k in out && u in out[k]) <==> (k in m && u in m[k]) || exists n :: FromPosition(q, names, n, k, u)
  {
    hide Walk, Fields, MergeInput;
    MergedMember(m, Walk(q), names, Fields(q), k, u);
    if n :| 0 <= n < |names| && n < |Fields(q)| && names[n].name == k && Fields(q)[n].name in Walk(q) && u in Walk(q)[Fields(q)[n].name] {
      assert FromPosition(q, names, n, k, u);
    }
  }

  lemma {:induction false} WalkAllMember(ps: seq<Plan>, names: seq<Field>, k: string, u: Upstream)
    ensures (k in WalkAll(ps, names) && u in WalkAll(ps, names)[k]) <==>
      exists q, n :: q in ps && FromPosition(q, names, n, k, u)
    decreases |ps|
  {
    if ps == [] {
      assert WalkAll(ps, names) == EmptyMap(names);
    } else {
      var i := |ps| - 1;
      hide Walk, Fields, MergeInput, FromPosition;
      WalkAllMember(ps[..i], names, k, u);
      assert ps == ps[..i] + [ps[i]];
      WalkAllSnoc(ps, names);
      MergedPosition(WalkAll(ps[..i], names), ps[i], names, k, u);
      hide WalkAll;
      if q, n :| q in ps && FromPosition(q, names, n, k, u) {
        assert q in ps[..i] || q == ps[i];
      }
    }
  }

  lemma UnionInput(p: Plan, q: Plan)
    requires p.Union? && WellNamed(p) && q in p.inputs
    ensures WellNamed(q) && |Fields(q)| == |Fields(p)|
    ensures forall n :: 0 <= n < |Fields(q)| ==> KeyOf(q, n) == Fields(q)[n].name
  {
    var j :| 0 <= j < |p.inputs| && p.inputs[j] == q;
  }

  lemma UnionNamesAre(p: Plan)
    requires p.Union?
    ensures Walk(p) == WalkAll(p.inputs, Fields(p)) && Walk(p).Keys == Keys(p)
  {
    WalkAllNames(p.inputs, Fields(p));
    hide WalkAll;
  }

  lemma UnionListing(p: Plan)
    requires p.Union? && WellNamed(p) && forall q <- p.inputs :: IsListing(Walk(q), q)
    ensures IsListing(Walk(p), p)
  {
    hide Walk, WalkAll, WellNamed, Keys, Listed, IsListing, Fields, FromPosition;
    UnionNamesAre(p);
    forall k | k in Walk(p)
      ensures Walk(p)[k] == Listed(p, k)
    {
      forall u
        ensures u in Walk(p)[k] <==> u in Listed(p, k)
      {
        WalkAllMember(p.inputs, Fields(p), k, u);
        UnionMember(p, k, u);
      }
    }
    IsListingOf(Walk(p), p);
  }

  lemma UnionMember(p: Plan, k: string, u: Upstream)
    requires p.Union? && WellNamed(p) && forall q <- p.inputs :: IsListing(Walk(q), q)
    ensures u in Listed(p, k) <==> exists q, n :: q in p.inputs && FromPosition(q, Fields(p), n, k, u)
  {
    UnionListedIs(p, k, u);
    hide Walk, WellNamed, Keys, KeyOf, Fields, Listed, IsListing;
    if q, n :| q in p.inputs && FromPosition(q, Fields(p), n, k, u) {
      PositionListed(p, q, n);
      assert InputHas(q, Fields(p), n, k, u);
    }
    if q, n :| q in p.inputs && InputHas(q, Fields(p), n, k, u) {
      PositionListed(p, q, n);
      assert FromPosition(q, Fields(p), n, k, u);
    }
  }

  ghost predicate InputHas(q: Plan, names: seq<Field>, n: nat, k: string, u: Upstream) {
    n < |names| && n < |Fields(q)| && names[n].name == k && u in Listed(q, KeyOf(q, n))
  }

  lemma FromMember(q: Plan, names: seq<Field>, k: string, u: Upstream)
    ensures u in ListedFrom(q, names, k) <==> exists n :: InputHas(q, names, n, k, u)
  {
    hide KeyOf, Fields, Listed;
    if u in ListedFrom(q, names, k) {
      var n :| 0 <= n < |names| && n < |Fields(q)| && names[n].name == k && u in Listed(q, KeyOf(q, n));
      assert InputHas(q, names, n, k, u);
    }
  }

  lemma UnionListedIs(p: Plan, k: string, u: Upstream)
    requires p.Union?
    ensures u in Listed(p, k) <==> exists q, n :: q in p.inputs && InputHas(q, Fields(p), n, k, u)
  {
    hide KeyOf, Fields, ListedFrom, InputHas;
    assert u in Listed(p, k) <==> exists q :: q in p.inputs && u in ListedFrom(q, Fields(p), k);
    forall q | q in p.inputs
      ensures u in ListedFrom(q, Fields(p), k) <==> exists n :: InputHas(q, Fields(p), n, k, u)
    {
      FromMember(q, Fields(p), k, u);
    }
  }

  lemma PositionListed(p: Plan, q: Plan, n: nat)
    requires p.Union? && WellNamed(p) && q in p.inputs && n < |Fields(q)| && IsListing(Walk(q), q)
    ensures Fields(q)[n].name in Walk(q) && Walk(q)[Fields(q)[n].name] == Listed(q, KeyOf(q, n))
  {
    hide Walk, WellNamed, Keys, KeyOf, Fields, Listed;
    UnionInput(p, q);
    EveryColumnListed(q, n);
  }

  // ---- The walk is the reference ----

  lemma LeafListing(p: Plan)
    requires p.TableScan? || p.Values?
    ensures IsListing(Walk(p), p)
  {
    if p.Values? {
      assert Walk(p).Keys == Keys(p) by {
        forall n
          ensures n in Walk(p) <==> n in p.names
        {
          if n in p.names {
            var i :| 0 <= i < |p.names| && p.names[i] == n;
            assert Fields(p)[i] in Fields(p);
          }
        }
      }
    }
  }

  lemma SameListing(p: Plan)
    requires (p.SubqueryAlias? || p.Distinct? || p.Sort? || p.Limit?) && IsListing(Walk(p.input), p.input)
    ensures IsListing(Walk(p), p)
  {
  }

  /** For every well-named plan the walker records exactly the reference: under each name the base columns
      behind it, with their kinds, nothing missing and nothing added. */
  lemma {:induction false} WalkIsListed(p: Plan)
    requires WellNamed(p)
    ensures IsListing(Walk(p), p)
    decreases p
  {
    hide IsListing, Walk;
    match p {
      case TableScan(_, _) => LeafListing(p);
      case Values(_, _) => LeafListing(p);
      case Join(l, r, _, _, _) =>
        ChildWellNamed(p);
        WalkIsListed(l);
        WalkIsListed(r);
        JoinListing(p);
      case Union(inputs) =>
        forall q | q in inputs
          ensures IsListing(Walk(q), q)
        {
          UnionInput(p, q);
          WalkIsListed(q);
        }
        UnionListing(p);
      case Projection(_, input) =>
        ChildWellNamed(p);
        WalkIsListed(input);
        ProjectionListing(p);
      case Filter(_, input) =>
        ChildWellNamed(p);
        WalkIsListed(input);
        FilterListing(p);
      case Aggregate(_, _, input) =>
        ChildWellNamed(p);
        WalkIsListed(input);
        AggregateListing(p);
      case WindowNode(_, input) =>
        ChildWellNamed(p);
        WalkIsListed(input);
        WindowListing(p);
      case _ =>
        ChildWellNamed(p);
        WalkIsListed(p.input);
        SameListing(p);
    }
  }
}

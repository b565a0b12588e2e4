/** Query plans, their meaning over tables whose cells remember where they came from, and the
    column-lineage walker. */
module Lineage {
  import opened Lists

  datatype Value = Null | Bool(b: bool) | Int(n: int) | Str(s: string)

  datatype Expr =
    | Column(qualifier: Option<string>, name: string)
    | Literal(value: Value)
    | Cast(inner: Expr, to: string)
    | TryCast(inner: Expr, to: string)
    | Alias(inner: Expr, name: string)
    | Call(op: string, args: seq<Expr>)
    | Window(op: string, args: seq<Expr>, partitionBy: seq<Expr>, orderBy: seq<Expr>)

  datatype Field = Field(qualifier: Option<string>, name: string)

  datatype JoinType = Inner | Left | Right | Full | LeftSemi | RightSemi | LeftAnti | RightAnti

  datatype Plan =
    | TableScan(table: string, columns: seq<string>)
    | Values(names: seq<string>, rows: seq<seq<Value>>)
    | Projection(exprs: seq<Expr>, input: Plan)
    | Filter(test: Expr, input: Plan)
    | Join(left: Plan, right: Plan, on: seq<(Expr, Expr)>, filter: Option<Expr>, kind: JoinType)
    | Aggregate(group: seq<Expr>, aggr: seq<Expr>, input: Plan)
    | WindowNode(windows: seq<Expr>, input: Plan)
    | Union(inputs: seq<Plan>)
    | SubqueryAlias(alias: string, input: Plan)
    | Distinct(input: Plan)
    | Sort(keys: seq<Expr>, input: Plan)
    | Limit(skip: nat, fetch: nat, input: Plan)

  // ---- Names ----

  type ColumnRef = (Option<string>, string)

  function Refs(e: Expr): set<ColumnRef> {
    match e
    case Column(q, n) => {(q, n)}
    case Literal(_) => {}
    case Cast(x, _) => Refs(x)
    case TryCast(x, _) => Refs(x)
    case Alias(x, _) => Refs(x)
    case Call(_, args) => AllRefs(args)
    case Window(_, args, p, o) => AllRefs(args) + AllRefs(p) + AllRefs(o)
  }

  function AllRefs(es: seq<Expr>): set<ColumnRef> {
    if es == [] then {} else Refs(es[0]) + AllRefs(es[1..])
  }

  /** The engine's schema name: qualified for a qualified column, the alias for an alias. */
  function SchemaName(e: Expr): string {
    match e
    case Column(q, n) => if q.Some? then q.value + "." + n else n
    case Literal(v) => "literal"
    case Cast(x, _) => SchemaName(x)
    case TryCast(x, _) => SchemaName(x)
    case Alias(_, n) => n
    case Call(op, args) => op + "(" + SchemaNames(args) + ")"
    case Window(op, args, p, o) =>
      op + "(" + SchemaNames(args) + ") PARTITION BY [" + SchemaNames(p) + "] ORDER BY [" + SchemaNames(o) + "]"
  }

  function SchemaNames(es: seq<Expr>): string {
    if es == [] then "" else SchemaName(es[0]) + "," + SchemaNames(es[1..])
  }

  /** The output field of an expression: a bare column keeps its qualifier apart. */
  function FieldOf(e: Expr): Field {
    match e
    case Column(q, n) => Field(q, n)
    case _ => Field(None, SchemaName(e))
  }

  function FieldsOf(es: seq<Expr>): seq<Field> {
    seq(|es|, i requires 0 <= i < |es| => FieldOf(es[i]))
  }

  function Fields(p: Plan): seq<Field> {
    match p
    case TableScan(t, cols) => seq(|cols|, i requires 0 <= i < |cols| => Field(Some(t), cols[i]))
    case Values(names, _) => seq(|names|, i requires 0 <= i < |names| => Field(None, names[i]))
    case Projection(es, _) => FieldsOf(es)
    case Filter(_, input) => Fields(input)
    case Join(l, r, _, _, kind) =>
      if kind in {LeftSemi, LeftAnti} then Fields(l)
      else if kind in {RightSemi, RightAnti} then Fields(r)
      else Fields(l) + Fields(r)
    case Aggregate(g, a, _) => FieldsOf(g) + FieldsOf(a)
    case WindowNode(ws, input) => Fields(input) + FieldsOf(ws)
    case Union(inputs) => if inputs == [] then [] else Unqualified(Fields(inputs[0]))
    case SubqueryAlias(a, input) => Requalified(a, Fields(input))
    case Distinct(input) => Fields(input)
    case Sort(_, input) => Fields(input)
    case Limit(_, _, input) => Fields(input)
  }

  function Unqualified(fs: seq<Field>): seq<Field> {
    seq(|fs|, i requires 0 <= i < |fs| => Field(None, fs[i].name))
  }

  function Requalified(alias: string, fs: seq<Field>): seq<Field> {
    seq(|fs|, i requires 0 <= i < |fs| => Field(Some(alias), fs[i].name))
  }

  /** The input column a reference means: the first whose name, and qualifier if given, agree. */
  function FindField(fs: seq<Field>, c: ColumnRef): (r: Option<nat>)
    ensures r.Some? ==> r.value < |fs| && fs[r.value].name == c.1 && (c.0.Some? ==> fs[r.value].qualifier == c.0)
  {
    if fs == [] then None
    else if fs[0].name == c.1 && (c.0.Some? ==> fs[0].qualifier == c.0) then Some(0)
    else
      var rest := FindField(fs[1..], c);
      if rest.Some? then Some(rest.value + 1) else None
  }

  // ---- Meaning ----

  /** A base-table column; also what a lineage list names. */
  datatype Leaf = Leaf(table: Option<string>, column: string)

  /** A value together with the base-table columns it was computed from. */
  datatype Cell = Cell(value: Value, from: set<Leaf>)

  type Row = seq<Cell>

  /** Base tables; a missing column reads as null. */
  type Database = map<string, seq<map<string, Value>>>

  /** The parts of the engine that are not modelled: scalar, aggregate and window functions, casts,
      and the sort order. */
  datatype Engine = Engine(call: (string, seq<Value>) -> Value, less: (seq<Value>, seq<Value>) -> bool)

  function TableRows(db: Database, table: string): seq<map<string, Value>> {
    if table in db then db[table] else []
  }

  function Read(row: map<string, Value>, column: string): Value {
    if column in row then row[column] else Null
  }

  const NULL_CELL := Cell(Null, {})

  function Nulls(n: nat): Row {
    seq(n, i => NULL_CELL)
  }

  function From(cells: seq<Cell>): set<Leaf> {
    if cells == [] then {} else cells[0].from + From(cells[1..])
  }

  function ValuesOf(cells: seq<Cell>): seq<Value> {
    seq(|cells|, i requires 0 <= i < |cells| => cells[i].value)
  }

  function Apply(eng: Engine, op: string, cells: seq<Cell>): Cell {
    Cell(eng.call(op, ValuesOf(cells)), From(cells))
  }

  function EvalExpr(eng: Engine, e: Expr, fs: seq<Field>, row: Row): Cell {
    match e
    case Column(q, n) =>
      var i := FindField(fs, (q, n));
      if i.Some? && i.value < |row| then row[i.value] else NULL_CELL
    case Literal(v) => Cell(v, {})
    case Cast(x, to) => Apply(eng, "cast " + to, [EvalExpr(eng, x, fs, row)])
    case TryCast(x, to) => Apply(eng, "try_cast " + to, [EvalExpr(eng, x, fs, row)])
    case Alias(x, _) => EvalExpr(eng, x, fs, row)
    case Call(op, args) => Apply(eng, op, EvalExprs(eng, args, fs, row))
    case Window(_, _, _, _) => NULL_CELL
  }

  function EvalExprs(eng: Engine, es: seq<Expr>, fs: seq<Field>, row: Row): (cells: seq<Cell>)
    ensures |cells| == |es|
    ensures forall i :: 0 <= i < |es| ==> cells[i] == EvalExpr(eng, es[i], fs, row)
  {
    if es == [] then [] else [EvalExpr(eng, es[0], fs, row)] + EvalExprs(eng, es[1..], fs, row)
  }

  /** The cells of several expressions over several rows. */
  function CellsOver(eng: Engine, es: seq<Expr>, fs: seq<Field>, rows: seq<Row>): seq<Cell> {
    if rows == [] then [] else EvalExprs(eng, es, fs, rows[0]) + CellsOver(eng, es, fs, rows[1..])
  }

  function KeyValues(eng: Engine, es: seq<Expr>, fs: seq<Field>, row: Row): seq<Value> {
    ValuesOf(EvalExprs(eng, es, fs, row))
  }

  predicate Holds(eng: Engine, e: Expr, fs: seq<Field>, row: Row) {
    EvalExpr(eng, e, fs, row).value == Bool(true)
  }

  function ProjectFn(eng: Engine, es: seq<Expr>, fs: seq<Field>): Row -> Option<Row> {
    (row: Row) => Some(EvalExprs(eng, es, fs, row))
  }

  function KeepFn(eng: Engine, e: Expr, fs: seq<Field>): Row -> Option<Row> {
    (row: Row) => if Holds(eng, e, fs, row) then Some(row) else None
  }

  // -- Join --

  predicate Joins(eng: Engine, p: Plan, l: Row, r: Row)
    requires p.Join?
  {
    && (forall o <- p.on ::
          var x, y := EvalExpr(eng, o.0, Fields(p.left), l).value, EvalExpr(eng, o.1, Fields(p.right), r).value;
          x == y && x != Null)
    && (p.filter.Some? ==> Holds(eng, p.filter.value, Fields(p.left) + Fields(p.right), l + r))
  }

  function PairFn(eng: Engine, p: Plan, l: Row): Row -> Option<Row>
    requires p.Join?
  {
    (r: Row) => if Joins(eng, p, l, r) then Some(l + r) else None
  }

  function Pairs(eng: Engine, p: Plan, ls: seq<Row>, rs: seq<Row>, pad: bool): seq<Row>
    requires p.Join?
  {
    if ls == [] then []
    else
      var matched := FilterMap(rs, PairFn(eng, p, ls[0]));
      (if matched == [] && pad then [ls[0] + Nulls(|Fields(p.right)|)] else matched) + Pairs(eng, p, ls[1..], rs, pad)
  }

  predicate HasLeft(eng: Engine, p: Plan, ls: seq<Row>, r: Row)
    requires p.Join?
  {
    exists l <- ls :: Joins(eng, p, l, r)
  }

  predicate HasRight(eng: Engine, p: Plan, l: Row, rs: seq<Row>)
    requires p.Join?
  {
    exists r <- rs :: Joins(eng, p, l, r)
  }

  function LeftOnlyFn(eng: Engine, p: Plan, rs: seq<Row>, wanted: bool): Row -> Option<Row>
    requires p.Join?
  {
    (l: Row) => if HasRight(eng, p, l, rs) == wanted then Some(l) else None
  }

  function RightOnlyFn(eng: Engine, p: Plan, ls: seq<Row>, wanted: bool): Row -> Option<Row>
    requires p.Join?
  {
    (r: Row) => if HasLeft(eng, p, ls, r) == wanted then Some(r) else None
  }

  function UnmatchedRightFn(eng: Engine, p: Plan, ls: seq<Row>): Row -> Option<Row>
    requires p.Join?
  {
    (r: Row) => if HasLeft(eng, p, ls, r) then None else Some(Nulls(|Fields(p.left)|) + r)
  }

  function JoinRows(eng: Engine, p: Plan, ls: seq<Row>, rs: seq<Row>): seq<Row>
    requires p.Join?
  {
    match p.kind
    case Inner => Pairs(eng, p, ls, rs, false)
    case Left => Pairs(eng, p, ls, rs, true)
    case Right => Pairs(eng, p, ls, rs, false) + FilterMap(rs, UnmatchedRightFn(eng, p, ls))
    case Full => Pairs(eng, p, ls, rs, true) + FilterMap(rs, UnmatchedRightFn(eng, p, ls))
    case LeftSemi => FilterMap(ls, LeftOnlyFn(eng, p, rs, true))
    case LeftAnti => FilterMap(ls, LeftOnlyFn(eng, p, rs, false))
    case RightSemi => FilterMap(rs, RightOnlyFn(eng, p, ls, true))
    case RightAnti => FilterMap(rs, RightOnlyFn(eng, p, ls, false))
  }

  // -- Aggregate and window --

  function MemberFn(eng: Engine, es: seq<Expr>, fs: seq<Field>, key: seq<Value>): Row -> Option<Row> {
    (row: Row) => if KeyValues(eng, es, fs, row) == key then Some(row) else None
  }

  /** Each group key once, in order of first appearance. */
  function GroupKeys(eng: Engine, es: seq<Expr>, fs: seq<Field>, rows: seq<Row>): seq<seq<Value>> {
    if rows == [] then []
    else
      var before := GroupKeys(eng, es, fs, rows[..|rows| - 1]);
      var key := KeyValues(eng, es, fs, rows[|rows| - 1]);
      if key in before then before else before + [key]
  }

  function Unalias(e: Expr): Expr {
    match e
    case Alias(x, _) => Unalias(x)
    case _ => e
  }

  /** What an aggregate or window function reads, and its name. */
  function Inputs(e: Expr): seq<Expr> {
    match Unalias(e)
    case Call(_, args) => args
    case Window(_, args, p, o) => args + p + o
    case x => [x]
  }

  function OpName(e: Expr): string {
    match Unalias(e)
    case Call(op, _) => op
    case Window(op, _, _, _) => op
    case _ => "first"
  }

  /** One aggregate over the rows of a group: computed from its inputs in all of them. */
  function AggregateCell(eng: Engine, e: Expr, fs: seq<Field>, members: seq<Row>): Cell {
    Apply(eng, OpName(e), CellsOver(eng, Inputs(e), fs, members))
  }

  /** A group key: the common value, coming from the key expression in every row of the group. */
  function GroupCell(eng: Engine, e: Expr, fs: seq<Field>, members: seq<Row>): Cell {
    var cells := CellsOver(eng, [e], fs, members);
    Cell(if cells == [] then Null else cells[0].value, From(cells))
  }

  function GroupRow(eng: Engine, p: Plan, members: seq<Row>): Row
    requires p.Aggregate?
  {
    var fs := Fields(p.input);
    seq(|p.group|, i requires 0 <= i < |p.group| => GroupCell(eng, p.group[i], fs, members))
    + seq(|p.aggr|, i requires 0 <= i < |p.aggr| => AggregateCell(eng, p.aggr[i], fs, members))
  }

  function AggregateRows(eng: Engine, p: Plan, rows: seq<Row>): seq<Row>
    requires p.Aggregate?
  {
    if p.group == [] then [GroupRow(eng, p, rows)]
    else
      var keys := GroupKeys(eng, p.group, Fields(p.input), rows);
      seq(|keys|, i requires 0 <= i < |keys| =>
        GroupRow(eng, p, FilterMap(rows, MemberFn(eng, p.group, Fields(p.input), keys[i]))))
  }

  function PartitionOf(e: Expr): seq<Expr> {
    match Unalias(e)
    case Window(_, _, p, _) => p
    case _ => []
  }

  /** A window value: computed from everything the function names in the row and its partition. */
  function WindowCell(eng: Engine, e: Expr, fs: seq<Field>, rows: seq<Row>, row: Row): Cell {
    var key := KeyValues(eng, PartitionOf(e), fs, row);
    Apply(eng, OpName(e), CellsOver(eng, Inputs(e), fs, [row] + FilterMap(rows, MemberFn(eng, PartitionOf(e), fs, key))))
  }

  function WindowRowFn(eng: Engine, p: Plan, rows: seq<Row>): Row -> Option<Row>
    requires p.WindowNode?
  {
    (row: Row) =>
      Some(row + seq(|p.windows|, i requires 0 <= i < |p.windows| => WindowCell(eng, p.windows[i], Fields(p.input), rows, row)))
  }

  // -- Order and duplicates --

  function InsertSorted(eng: Engine, es: seq<Expr>, fs: seq<Field>, sorted: seq<Row>, row: Row): seq<Row> {
    if sorted == [] then [row]
    else if eng.less(KeyValues(eng, es, fs, row), KeyValues(eng, es, fs, sorted[0])) then [row] + sorted
    else [sorted[0]] + InsertSorted(eng, es, fs, sorted[1..], row)
  }

  function Sorted(eng: Engine, es: seq<Expr>, fs: seq<Field>, rows: seq<Row>): seq<Row> {
    if rows == [] then [] else InsertSorted(eng, es, fs, Sorted(eng, es, fs, rows[..|rows| - 1]), rows[|rows| - 1])
  }

  function Deduplicated(rows: seq<Row>): seq<Row> {
    if rows == [] then []
    else
      var before, last := Deduplicated(rows[..|rows| - 1]), rows[|rows| - 1];
      if exists r <- before :: ValuesOf(r) == ValuesOf(last) then before else before + [last]
  }

  function Slice(rows: seq<Row>, skip: nat, fetch: nat): seq<Row> {
    if |rows| <= skip then []
    else if skip + fetch <= |rows| then rows[skip..skip + fetch]
    else rows[skip..]
  }

  function ScanRow(table: string, columns: seq<string>, row: map<string, Value>): Row {
    seq(|columns|, i requires 0 <= i < |columns| => Cell(Read(row, columns[i]), {Leaf(Some(table), columns[i])}))
  }

  function Eval(eng: Engine, p: Plan, db: Database): seq<Row>
    decreases p
  {
    match p
    case TableScan(t, cols) =>
      var rows := TableRows(db, t);
      seq(|rows|, i requires 0 <= i < |rows| => ScanRow(t, cols, rows[i]))
    case Values(names, rows) =>
      seq(|rows|, i requires 0 <= i < |rows| =>
        seq(|names|, j requires 0 <= j < |names| => Cell(if j < |rows[i]| then rows[i][j] else Null, {})))
    case Projection(es, input) => FilterMap(Eval(eng, input, db), ProjectFn(eng, es, Fields(input)))
    case Filter(e, input) => FilterMap(Eval(eng, input, db), KeepFn(eng, e, Fields(input)))
    case Join(l, r, _, _, _) => JoinRows(eng, p, Eval(eng, l, db), Eval(eng, r, db))
    case Aggregate(_, _, input) => AggregateRows(eng, p, Eval(eng, input, db))
    case WindowNode(_, input) => var rows := Eval(eng, input, db); FilterMap(rows, WindowRowFn(eng, p, rows))
    case Union(inputs) => EvalAll(eng, inputs, db)
    case SubqueryAlias(_, input) => Eval(eng, input, db)
    case Distinct(input) => Deduplicated(Eval(eng, input, db))
    case Sort(keys, input) => Sorted(eng, keys, Fields(input), Eval(eng, input, db))
    case Limit(skip, fetch, input) => Slice(Eval(eng, input, db), skip, fetch)
  }

  function EvalAll(eng: Engine, ps: seq<Plan>, db: Database): seq<Row>
    decreases ps
  {
    if ps == [] then [] else Eval(eng, ps[0], db) + EvalAll(eng, ps[1..], db)
  }

  // ---- The walker ----

  datatype Kind =
    | Direct | CastOf | Derived | FilterBy | JoinKey | JoinPassthrough | GroupBy | AggregateInput
    | WindowPartition | WindowOrder | WindowInput

  /** One upstream reference of an output column. */
  datatype Upstream = Upstream(qualifier: Option<string>, column: string, kind: Kind)

  type LineageMap = map<string, set<Upstream>>

  function ClassifyExpr(e: Expr): Kind {
    match e
    case Column(_, _) => Direct
    case Cast(_, _) => CastOf
    case TryCast(_, _) => CastOf
    case Alias(x, _) => ClassifyExpr(x)
    case _ => Derived
  }

  /** The map key a reference resolves to: its bare name first, then its qualified name. */
  function Resolve(m: LineageMap, c: ColumnRef): string {
    if c.1 in m then c.1
    else if c.0.Some? && c.0.value + "." + c.1 in m then c.0.value + "." + c.1
    else c.1
  }

  /** The upstreams behind the references of an expression, each with kind `kind(reference, upstream)`. */
  function Gathered(m: LineageMap, refs: set<ColumnRef>, kind: (ColumnRef, Upstream) -> Kind): set<Upstream> {
    set c, u | c in refs && Resolve(m, c) in m && u in m[Resolve(m, c)] :: u.(kind := kind(c, u))
  }

  function ProjectedRefs(m: LineageMap, e: Expr): set<Upstream> {
    var k := ClassifyExpr(e);
    Gathered(m, Refs(e), (c: ColumnRef, u: Upstream) => if k == Direct then u.kind else k)
    + (set c | c in Refs(e) && Resolve(m, c) !in m :: Upstream(c.0, c.1, k))
  }

  function WalkProjection(m: LineageMap, es: seq<Expr>): LineageMap {
    if es == [] then map[]
    else
      var e := es[|es| - 1];
      WalkProjection(m, es[..|es| - 1])[FieldOf(e).name := ProjectedRefs(m, e)]
  }

  function FilterRefs(m: LineageMap, e: Expr): set<Upstream> {
    Gathered(m, Refs(e), (c: ColumnRef, u: Upstream) => FilterBy)
  }

  function WalkFilter(m: LineageMap, e: Expr): LineageMap {
    map k | k in m :: m[k] + FilterRefs(m, e)
  }

  function OnNames(on: seq<(Expr, Expr)>): set<string> {
    if on == [] then {}
    else (set c | c in Refs(on[0].0) + Refs(on[0].1) :: c.1) + OnNames(on[1..])
  }

  function JoinSide(m: LineageMap, k: string, on: set<string>, filter: set<string>): set<Upstream> {
    if k !in m then {}
    else set u | u in m[k] :: u.(kind := if k in on then JoinKey else if k in filter then FilterBy else JoinPassthrough)
  }

  function WalkJoin(l: LineageMap, r: LineageMap, p: Plan): LineageMap
    requires p.Join?
  {
    var on := OnNames(p.on);
    var filter := if p.filter.Some? then set c | c in Refs(p.filter.value) :: c.1 else {};
    map k | k in l.Keys + r.Keys :: JoinSide(l, k, on, filter) + JoinSide(r, k, on, filter)
  }

  function WalkGrouped(m: LineageMap, es: seq<Expr>, kind: Kind): LineageMap {
    if es == [] then map[]
    else
      var e := es[|es| - 1];
      WalkGrouped(m, es[..|es| - 1], kind)[SchemaName(e) := Gathered(m, Refs(e), (c: ColumnRef, u: Upstream) => kind)]
  }

  function NamesIn(es: seq<Expr>): set<string> {
    set c | c in AllRefs(es) :: c.1
  }

  function WindowKind(e: Expr, c: ColumnRef): Kind {
    match Unalias(e)
    case Window(_, _, p, o) =>
      if c.1 in NamesIn(p) then WindowPartition else if c.1 in NamesIn(o) then WindowOrder else WindowInput
    case _ => WindowInput
  }

  /** Window expressions are added to the map they are resolved against. */
  function WalkWindows(m: LineageMap, es: seq<Expr>): LineageMap {
    if es == [] then m
    else
      var e := es[|es| - 1];
      var before := WalkWindows(m, es[..|es| - 1]);
      before[SchemaName(e) := Gathered(before, Refs(e), (c: ColumnRef, u: Upstream) => WindowKind(e, c))]
  }

  /** Columns of one union input, merged by position under the output names. */
  function MergeInput(m: LineageMap, child: LineageMap, names: seq<Field>, childFields: seq<Field>): LineageMap {
    if names == [] then m
    else
      var n := |names| - 1;
      var before := MergeInput(m, child, names[..n], childFields);
      var out := names[n].name;
      if n < |childFields| && childFields[n].name in child
      then before[out := (if out in before then before[out] else {}) + child[childFields[n].name]]
      else before
  }

  function NameSet(names: seq<Field>): set<string> {
    set f | f in names :: f.name
  }

  function EmptyMap(names: seq<Field>): LineageMap {
    map k | k in NameSet(names) :: {}
  }

  function Walk(p: Plan): LineageMap
    decreases p
  {
    match p
    case TableScan(t, cols) => map c | c in cols :: {Upstream(Some(t), c, Direct)}
    case Values(_, _) => EmptyMap(Fields(p))
    case Projection(es, input) => WalkProjection(Walk(input), es)
    case Filter(e, input) => WalkFilter(Walk(input), e)
    case Join(l, r, _, _, _) => WalkJoin(Walk(l), Walk(r), p)
    case Aggregate(g, a, input) => WalkGrouped(Walk(input), g, GroupBy) + WalkGrouped(Walk(input), a, AggregateInput)
    case WindowNode(ws, input) => WalkWindows(Walk(input), ws)
    case Union(inputs) => WalkAll(inputs, Fields(p))
    case SubqueryAlias(_, input) => Walk(input)
    case Distinct(input) => Walk(input)
    case Sort(_, input) => Walk(input)
    case Limit(_, _, input) => Walk(input)
  }

  function WalkAll(ps: seq<Plan>, names: seq<Field>): LineageMap
    decreases ps
  {
    if ps == [] then EmptyMap(names)
    else MergeInput(WalkAll(ps[..|ps| - 1], names), Walk(ps[|ps| - 1]), names, Fields(ps[|ps| - 1]))
  }

  // ---- Which key holds which column, and when names are unambiguous ----

  /** The key under which the walker records output column i. */
  function KeyOf(p: Plan, i: nat): string
    requires i < |Fields(p)|
    decreases p
  {
    match p
    case TableScan(_, cols) => cols[i]
    case Values(names, _) => names[i]
    case Projection(_, _) => Fields(p)[i].name
    case Filter(_, input) => KeyOf(input, i)
    case Join(l, r, _, _, kind) =>
      if kind in {RightSemi, RightAnti} then KeyOf(r, i)
      else if i < |Fields(l)| then KeyOf(l, i)
      else KeyOf(r, i - |Fields(l)|)
    case Aggregate(g, a, _) => if i < |g| then SchemaName(g[i]) else SchemaName(a[i - |g|])
    case WindowNode(ws, input) => if i < |Fields(input)| then KeyOf(input, i) else SchemaName(ws[i - |Fields(input)|])
    case Union(_) => Fields(p)[i].name
    case SubqueryAlias(_, input) => KeyOf(input, i)
    case Distinct(input) => KeyOf(input, i)
    case Sort(_, input) => KeyOf(input, i)
    case Limit(_, _, input) => KeyOf(input, i)
  }

  /** Every reference of `e` means an input column, and `m` resolves it to that column's key. */
  predicate Resolves(m: LineageMap, refs: set<ColumnRef>, input: Plan) {
    forall c <- refs ::
      var i := FindField(Fields(input), c);
      i.Some? && Resolve(m, c) == KeyOf(input, i.value)
  }

  function ResolvedKeys(m: LineageMap, e: Expr): set<string> {
    set c | c in Refs(e) :: Resolve(m, c)
  }

  /** Expressions recorded under one key read the same entries, so overwriting loses nothing. */
  predicate NoClash(m: LineageMap, es: seq<Expr>, names: seq<string>)
    requires |names| == |es|
  {
    forall i, j :: 0 <= i < j < |es| && names[i] == names[j] ==> ResolvedKeys(m, es[i]) == ResolvedKeys(m, es[j])
  }

  function FieldNames(es: seq<Expr>): seq<string> {
    seq(|es|, i requires 0 <= i < |es| => FieldOf(es[i]).name)
  }

  function SchemaNameList(es: seq<Expr>): seq<string> {
    seq(|es|, i requires 0 <= i < |es| => SchemaName(es[i]))
  }

  /** Names are unambiguous throughout the plan. Everything here can be read off the plan. */
  predicate WellNamed(p: Plan)
    decreases p
  {
    match p
    case TableScan(_, _) => true
    case Values(_, _) => true
    case Projection(es, input) =>
      WellNamed(input) && (forall e <- es :: Resolves(Walk(input), Refs(e), input)) && NoClash(Walk(input), es, FieldNames(es))
    case Filter(e, input) => WellNamed(input) && Resolves(Walk(input), Refs(e), input)
    case Join(l, r, _, _, _) => WellNamed(l) && WellNamed(r)
    case Aggregate(g, a, input) =>
      && WellNamed(input)
      && (forall e <- g + a :: Resolves(Walk(input), Refs(e), input))
      && NoClash(Walk(input), g + a, SchemaNameList(g + a))
    case WindowNode(ws, input) =>
      && WellNamed(input)
      && (forall j :: 0 <= j < |ws| ==>
            SchemaName(ws[j]) !in Walk(input) && Resolves(WalkWindows(Walk(input), ws[..j]), Refs(ws[j]), input))
      && (forall i, j :: 0 <= i < j < |ws| ==> SchemaName(ws[i]) != SchemaName(ws[j]))
    case Union(inputs) =>
      forall k :: 0 <= k < |inputs| ==>
        && WellNamed(inputs[k])
        && |Fields(inputs[k])| == |Fields(p)|
        && forall i :: 0 <= i < |Fields(p)| ==> KeyOf(inputs[k], i) == Fields(inputs[k])[i].name
    case SubqueryAlias(_, input) => WellNamed(input)
    case Distinct(input) => WellNamed(input)
    case Sort(_, input) => WellNamed(input)
    case Limit(_, _, input) => WellNamed(input)
  }
}

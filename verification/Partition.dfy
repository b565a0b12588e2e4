/** Hive-style partition names, and grouping a stream of batches by partition value. */
module Partition {
  import opened Lists

  // ---- Directory names ----

  function EncodedChar(c: char): string {
    match c
    case '%' => "%25"
    case '/' => "%2F"
    case '=' => "%3D"
    case _ => [c]
  }

  function Encoded(value: string): string {
    if value == [] then [] else Encoded(value[..|value| - 1]) + EncodedChar(value[|value| - 1])
  }

  /** The three escapes undone; anything else after a percent sign is not an encoded value. */
  function Decoded(s: string): Option<string> {
    if s == [] then Some([])
    else if s[0] != '%' then
      var rest := Decoded(s[1..]);
      if rest.Some? then Some([s[0]] + rest.value) else None
    else if |s| < 3 || s[1..3] !in {"25", "2F", "3D"} then None
    else
      var rest := Decoded(s[3..]);
      var c := if s[1..3] == "25" then '%' else if s[1..3] == "2F" then '/' else '=';
      if rest.Some? then Some([c] + rest.value) else None
  }

  method HiveEncode(value: string) returns (out: string)
    ensures out == Encoded(value)
    ensures Decoded(out) == Some(value)
    ensures '/' !in out && '=' !in out
  {
    out := "";
    for i := 0 to |value|
      invariant out == Encoded(value[..i])
    {
      match value[i] {
        case '%' => out := out + "%25";
        case '/' => out := out + "%2F";
        case '=' => out := out + "%3D";
        case c => out := out + [c];
      }
      assert value[..i + 1][..i] == value[..i];
    }
    assert value[..|value|] == value;
    DecodeEncoded(value);
    EncodedSafe(value);
  }

  lemma {:induction false} EncodedSafe(value: string)
    ensures '/' !in Encoded(value) && '=' !in Encoded(value)
  {
    if value != [] {
      EncodedSafe(value[..|value| - 1]);
    }
  }

  lemma DecodeChar(c: char, rest: string)
    requires Decoded(rest).Some?
    ensures Decoded(EncodedChar(c) + rest) == Some([c] + Decoded(rest).value)
  {
    var s := EncodedChar(c) + rest;
    if c in {'%', '/', '='} {
      assert s[3..] == rest;
      assert s[1..3] == EncodedChar(c)[1..3];
    } else {
      assert s[1..] == rest;
    }
  }

  lemma EncodedLast(value: string)
    requires value != []
    ensures Encoded(value) == Encoded(value[..|value| - 1]) + EncodedChar(value[|value| - 1])
  {
    hide EncodedChar;
  }

  lemma {:induction false} DecodeAppended(value: string, rest: string)
    requires Decoded(rest).Some?
    ensures Decoded(Encoded(value) + rest) == Some(value + Decoded(rest).value)
    decreases |value|
  {
    hide EncodedChar, Decoded, Encoded;
    if value == [] {
      NothingEncoded();
      assert "" + rest == rest && value + Decoded(rest).value == Decoded(rest).value;
    } else {
      var init, c := value[..|value| - 1], value[|value| - 1];
      EncodedLast(value);
      DecodeChar(c, rest);
      DecodeAppended(init, EncodedChar(c) + rest);
      assert Encoded(init) + EncodedChar(c) + rest == Encoded(init) + (EncodedChar(c) + rest);
      assert value + Decoded(rest).value == init + ([c] + Decoded(rest).value);
    }
  }

  lemma NothingEncoded()
    ensures Encoded("") == ""
  {
  }

  lemma DecodeEncoded(value: string)
    ensures Decoded(Encoded(value)) == Some(value)
  {
    DecodeAppended(value, "");
    assert Encoded(value) + "" == Encoded(value);
    assert value + "" == value;
  }

  function PartitionDir(column: string, value: string): string {
    column + "=" + Encoded(value)
  }

  function StagingDir(column: string, value: string): string {
    ".staging-" + column + "=" + Encoded(value)
  }

  /** The three characters are escaped, any other stands for itself. */
  lemma EncodedSnoc(value: string, c: char)
    ensures Encoded(value + [c]) ==
      Encoded(value) + if c == '%' then "%25" else if c == '/' then "%2F" else if c == '=' then "%3D" else [c]
  {
    assert (value + [c])[..|value|] == value;
  }

  /** What the names look like. */
  lemma DirectoryNames(value: string)
    ensures PartitionDir("dt", value) == "dt=" + Encoded(value) && StagingDir("dt", value) == ".staging-dt=" + Encoded(value)
  {
    hide Encoded;
    assert "dt" + "=" == "dt=" && ".staging-" + "dt" + "=" == ".staging-dt=";
  }

  /** The value a directory name stands for. */
  function DirValue(column: string, name: string): Option<string> {
    if column + "=" <= name then Decoded(name[|column| + 1..]) else None
  }

  lemma DirValueOf(column: string, value: string)
    ensures DirValue(column, PartitionDir(column, value)) == Some(value)
  {
    DecodeEncoded(value);
    hide Decoded, Encoded;
    assert PartitionDir(column, value)[|column| + 1..] == Encoded(value);
  }

  lemma SplitAtLastEquals(a: string, x: string, b: string, y: string)
    requires '=' !in x && '=' !in y && a + "=" + x == b + "=" + y
    ensures a == b && x == y
  {
    var s := a + "=" + x;
    assert s[|a|] == '=' && s[|b|] == '=';
    assert forall i :: |a| < i < |s| ==> s[i] == x[i - |a| - 1];
    assert forall i :: |b| < i < |s| ==> s[i] == y[i - |b| - 1];
    assert |a| == |b|;
    assert a == s[..|a|] && b == s[..|b|];
    assert x == s[|a| + 1..] && y == s[|b| + 1..];
  }

  /** Different values never share a directory, and no staging directory is a partition directory. */
  lemma NamesApart(column: string, v: string, w: string)
    ensures PartitionDir(column, v) == PartitionDir(column, w) <==> v == w
    ensures StagingDir(column, v) == StagingDir(column, w) <==> v == w
    ensures StagingDir(column, v) != PartitionDir(column, w)
  {
    EncodedSafe(v);
    EncodedSafe(w);
    DecodeEncoded(v);
    DecodeEncoded(w);
    hide Decoded, Encoded;
    if PartitionDir(column, v) == PartitionDir(column, w) {
      SplitAtLastEquals(column, Encoded(v), column, Encoded(w));
    }
    if StagingDir(column, v) == StagingDir(column, w) {
      SplitAtLastEquals(".staging-" + column, Encoded(v), ".staging-" + column, Encoded(w));
    }
    if StagingDir(column, v) == PartitionDir(column, w) {
      SplitAtLastEquals(".staging-" + column, Encoded(v), column, Encoded(w));
    }
  }

  // ---- Batches ----

  /** A row of a batch, one cell for each column; None is a null. */
  type Cells = seq<Option<string>>

  datatype RawBatch = RawBatch(columns: seq<string>, rows: seq<Cells>)

  predicate Rectangular(b: RawBatch) {
    forall r <- b.rows :: |r| == |b.columns|
  }

  type Batch = b: RawBatch | Rectangular(b) witness RawBatch([], [])

  /** The columns other than the partition column. */
  type Record = seq<Option<string>>

  /** A row split at a column: `part` is the formatted partition value, absent when null. */
  datatype Row = Row(part: Option<string>, record: Record)

  /** OutOfBounds is a panic of the original, the others are its errors. */
  datatype Fault = ColumnNotFound | ColumnMissing | OutOfBounds | NullValues(count: nat)

  datatype Outcome<+T> = Ok(value: T) | Err(fault: Fault)

  type Groups = map<string, seq<seq<Record>>>

  /** The first column of a name. */
  function IndexOf(columns: seq<string>, name: string): (i: Option<nat>)
    ensures i.Some? ==> i.value < |columns| && columns[i.value] == name && name !in columns[..i.value]
    ensures i.None? <==> name !in columns
  {
    if columns == [] then None
    else
      var n := |columns| - 1;
      var before := IndexOf(columns[..n], name);
      assert columns == columns[..n] + [columns[n]];
      if before.Some? then before else if columns[n] == name then Some(n) else None
  }

  function CellAt(cells: Cells, i: nat): Option<string> {
    if i < |cells| then cells[i] else None
  }

  /** The first `width` cells without the one at `idx`. */
  function Without(cells: Cells, idx: nat, width: nat): Record {
    if idx < width <= |cells| then cells[..idx] + cells[idx + 1..width] else []
  }

  /** A row read by position: the partition column at `idx`, the others wherever a first batch of `width`
      columns has them. */
  function RowOf(cells: Cells, idx: nat, width: nat): Row {
    Row(CellAt(cells, idx), Without(cells, idx, width))
  }

  function RowsOf(rows: seq<Cells>, idx: nat, width: nat): seq<Row> {
    seq(|rows|, i requires 0 <= i < |rows| => RowOf(rows[i], idx, width))
  }

  function RowsIn(batches: seq<Batch>, idx: nat, width: nat): seq<Row> {
    if batches == [] then []
    else
      var n := |batches| - 1;
      RowsIn(batches[..n], idx, width) + RowsOf(batches[n].rows, idx, width)
  }

  /** All rows, read at the positions of the first batch's columns. */
  function AllRows(column: string, batches: seq<Batch>): seq<Row> {
    if batches == [] || column !in batches[0].columns then []
    else RowsIn(batches, IndexOf(batches[0].columns, column).value, |batches[0].columns|)
  }

  function NullAtFn(idx: nat): Cells -> Option<Cells> {
    (cells: Cells) => if CellAt(cells, idx).None? then Some(cells) else None
  }

  function OfFn(value: string): Row -> Option<Record> {
    (r: Row) => if r.part == Some(value) then Some(r.record) else None
  }

  /** What is wrong with a batch: its own columns are only asked whether the name occurs. */
  function FaultOf(b: Batch, column: string, idx: nat, width: nat): Option<Fault> {
    if column !in b.columns then Some(ColumnMissing)
    else if |b.columns| <= idx then Some(OutOfBounds)
    else
      var nulls := |FilterMap(b.rows, NullAtFn(idx))|;
      if nulls > 0 then Some(NullValues(nulls))
      else if b.rows != [] && |b.columns| < width then Some(OutOfBounds)
      else None
  }

  function FaultIn(batches: seq<Batch>, column: string, idx: nat, width: nat): Option<Fault> {
    if batches == [] then None
    else
      var before := FaultIn(batches[..|batches| - 1], column, idx, width);
      if before.Some? then before else FaultOf(batches[|batches| - 1], column, idx, width)
  }

  function FirstFault(column: string, batches: seq<Batch>): Option<Fault> {
    if batches == [] then None
    else if column !in batches[0].columns then Some(ColumnNotFound)
    else FaultIn(batches, column, IndexOf(batches[0].columns, column).value, |batches[0].columns|)
  }

  // ---- Grouping ----

  /** The positions holding a value, in order. */
  function Positions(rows: seq<Row>, value: string): (ps: seq<nat>)
    ensures forall i :: 0 <= i < |ps| ==> ps[i] < |rows|
  {
    if rows == [] then []
    else
      var n := |rows| - 1;
      Positions(rows[..n], value) + if rows[n].part == Some(value) then [n] else []
  }

  function Picked(rows: seq<Row>, ps: seq<nat>): seq<Record>
    requires forall i :: 0 <= i < |ps| ==> ps[i] < |rows|
  {
    seq(|ps|, i requires 0 <= i < |ps| => rows[ps[i]].record)
  }

  lemma {:induction false} PickedAreOf(rows: seq<Row>, value: string)
    ensures Picked(rows, Positions(rows, value)) == FilterMap(rows, OfFn(value))
  {
    if rows != [] {
      var n := |rows| - 1;
      PickedAreOf(rows[..n], value);
      var before := Positions(rows[..n], value);
      assert Picked(rows, before) == Picked(rows[..n], before);
      assert rows[n].part == Some(value) ==> Picked(rows, before + [n]) == Picked(rows, before) + [rows[n].record];
    }
  }

  predicate NoNulls(rows: seq<Row>) {
    forall r <- rows :: r.part.Some?
  }

  lemma NullsCounted(rows: seq<Cells>, idx: nat, width: nat)
    ensures |FilterMap(rows, NullAtFn(idx))| == 0 <==> NoNulls(RowsOf(rows, idx, width))
    ensures |FilterMap(rows, NullAtFn(idx))| == 0 <==> forall r <- rows :: CellAt(r, idx).Some?
  {
    var f, split := NullAtFn(idx), RowsOf(rows, idx, width);
    if forall r <- rows :: CellAt(r, idx).Some? {
      FilterMapNone(rows, f);
      hide FilterMap, CellAt, Without;
      assert forall i :: 0 <= i < |rows| ==> rows[i] in rows;
    } else {
      var r :| r in rows && CellAt(r, idx).None?;
      FilterMapMember(rows, f, r);
      hide FilterMap, CellAt, Without;
      var i :| 0 <= i < |rows| && rows[i] == r;
      assert split[i] in split && split[i].part.None?;
    }
  }

  lemma PositionsNext(rows: seq<Row>, i: nat)
    requires i < |rows|
    ensures forall v: string ::
              Positions(rows[..i + 1], v) == if rows[i].part == Some(v) then Positions(rows[..i], v) + [i] else Positions(rows[..i], v)
  {
    assert rows[..i + 1][..i] == rows[..i];
  }

  /** The bucket of a value, empty when it has none. */
  function Bucket(buckets: map<string, seq<nat>>, v: string): seq<nat> {
    if v in buckets then buckets[v] else []
  }

  /** The buckets hold the positions of every value. */
  ghost predicate Bucketed(rows: seq<Row>, buckets: map<string, seq<nat>>) {
    forall v: string :: Positions(rows, v) == Bucket(buckets, v)
  }

  method BucketRows(rows: seq<Cells>, idx: nat, ghost width: nat) returns (buckets: map<string, seq<nat>>)
    requires forall r <- rows :: idx < |r|
    requires NoNulls(RowsOf(rows, idx, width))
    ensures forall v :: v in buckets ==> buckets[v] != []
    ensures Bucketed(RowsOf(rows, idx, width), buckets)
  {
    hide Positions, Without, Bucketed;
    ghost var split := RowsOf(rows, idx, width);
    buckets := map[];
    NoPositions();
    for i := 0 to |rows|
      invariant forall v :: v in buckets ==> buckets[v] != []
      invariant Bucketed(split[..i], buckets)
    {
      assert rows[i] in rows && split[i] in split && split[i].part == rows[i][idx];
      var value := rows[i][idx].value;
      BucketNext(split, i, buckets, value);
      buckets := buckets[value := Bucket(buckets, value) + [i]];
    }
    assert split[..|rows|] == split;
  }

  lemma NoPositions()
    ensures Bucketed([], map[])
  {
  }

  lemma BucketNext(rows: seq<Row>, i: nat, buckets: map<string, seq<nat>>, value: string)
    requires i < |rows| && rows[i].part == Some(value)
    requires Bucketed(rows[..i], buckets)
    ensures Bucketed(rows[..i + 1], buckets[value := Bucket(buckets, value) + [i]])
  {
    hide Positions;
    PositionsNext(rows, i);
    var more := buckets[value := Bucket(buckets, value) + [i]];
    forall v: string
      ensures Positions(rows[..i + 1], v) == Bucket(more, v)
    {
      assert Positions(rows[..i], v) == Bucket(buckets, v);
    }
  }

  /** The positions before `width` other than one, in order. */
  function Projected(idx: nat, width: nat): (ps: seq<nat>)
    ensures forall p <- ps :: p < width
  {
    if width == 0 then []
    else
      Projected(idx, width - 1) + if width - 1 == idx then [] else [width - 1]
  }

  method ProjectedIndices(idx: nat, width: nat) returns (ps: seq<nat>)
    ensures ps == Projected(idx, width)
  {
    ps := [];
    for i := 0 to width
      invariant ps == Projected(idx, i)
    {
      if i != idx {
        ps := ps + [i];
      }
    }
  }

  function PickedCells(cells: Cells, ps: seq<nat>): Record {
    seq(|ps|, j requires 0 <= j < |ps| => CellAt(cells, ps[j]))
  }

  /** Picking those positions takes one cell out and keeps the others, once and in order. */
  lemma {:induction false} ProjectedPicks(cells: Cells, idx: nat, width: nat)
    requires width <= |cells|
    ensures PickedCells(cells, Projected(idx, width)) == if idx < width then cells[..idx] + cells[idx + 1..width] else cells[..width]
  {
    if width > 0 {
      var n := width - 1;
      ProjectedPicks(cells, idx, n);
      var before := Projected(idx, n);
      if n != idx {
        assert PickedCells(cells, before + [n]) == PickedCells(cells, before) + [cells[n]];
      }
    }
  }

  method TakeRows(rows: seq<Cells>, ps: seq<nat>, idx: nat, width: nat) returns (taken: seq<Record>)
    requires forall i :: 0 <= i < |ps| ==> ps[i] < |rows|
    requires idx < width && forall r <- rows :: width <= |r|
    ensures taken == Picked(RowsOf(rows, idx, width), ps)
  {
    hide Projected, Without;
    var projected := ProjectedIndices(idx, width);
    taken := [];
    for i := 0 to |ps|
      invariant taken == Picked(RowsOf(rows, idx, width), ps)[..i]
    {
      var record: Record := [];
      assert rows[ps[i]] in rows;
      for j := 0 to |projected|
        invariant record == PickedCells(rows[ps[i]], projected)[..j]
      {
        assert projected[j] in projected;
        record := record + [rows[ps[i]][projected[j]]];
      }
      assert record == PickedCells(rows[ps[i]], projected);
      TakenRecord(rows[ps[i]], idx, width);
      taken := taken + [record];
    }
  }

  lemma TakenRecord(cells: Cells, idx: nat, width: nat)
    requires idx < width <= |cells|
    ensures PickedCells(cells, Projected(idx, width)) == RowOf(cells, idx, width).record
  {
    ProjectedPicks(cells, idx, width);
  }

  /** The groups of some rows: every value that occurs, with its records in order, none of them empty. */
  ghost predicate GroupsOf(groups: Groups, rows: seq<Row>) {
    && (forall v :: v in groups ==> groups[v] != [] && forall b <- groups[v] :: b != [])
    && (forall v: string :: FilterMap(rows, OfFn(v)) == if v in groups then Flatten(groups[v]) else [])
  }

  /** The sub-batches already grouped under a value. */
  function Group(groups: Groups, v: string): seq<seq<Record>> {
    if v in groups then groups[v] else []
  }

  /** One batch's buckets appended to the groups. */
  ghost predicate Appended(groups: Groups, rows: seq<Row>, added: set<string>, out: Groups) {
    && out.Keys == groups.Keys + added
    && forall v :: v in out ==>
         out[v] == if v in added then Group(groups, v) + [FilterMap(rows, OfFn(v))] else Group(groups, v)
  }

  function ValuesIn(rows: seq<Row>): set<string> {
    set r | r in rows && r.part.Some? :: r.part.value
  }

  /** Groups with one more batch: its records of a value, if any, make one more sub-batch of that value. */
  function Grown(groups: Groups, rows: seq<Row>): Groups {
    map v | v in groups.Keys + ValuesIn(rows) ::
      if v in ValuesIn(rows) then Group(groups, v) + [FilterMap(rows, OfFn(v))] else Group(groups, v)
  }

  function GroupsIn(batches: seq<Batch>, idx: nat, width: nat): Groups {
    if batches == [] then map[]
    else
      var n := |batches| - 1;
      Grown(GroupsIn(batches[..n], idx, width), RowsOf(batches[n].rows, idx, width))
  }

  /** The groups of a whole input. */
  function GroupsFor(column: string, batches: seq<Batch>): Groups {
    if batches == [] || column !in batches[0].columns then map[]
    else GroupsIn(batches, IndexOf(batches[0].columns, column).value, |batches[0].columns|)
  }

  lemma ValueOccurs(rows: seq<Row>, v: string)
    ensures v in ValuesIn(rows) <==> FilterMap(rows, OfFn(v)) != []
  {
    if r :| r in rows && r.part == Some(v) {
      FilterMapMember(rows, OfFn(v), r.record);
      hide FilterMap;
      assert OfFn(v)(r) == Some(r.record);
      assert r.record in FilterMap(rows, OfFn(v));
    } else {
      FilterMapNone(rows, OfFn(v));
    }
  }

  lemma BucketKeys(rows: seq<Row>, buckets: map<string, seq<nat>>)
    requires Bucketed(rows, buckets) && forall v :: v in buckets ==> buckets[v] != []
    ensures buckets.Keys == ValuesIn(rows)
  {
    hide FilterMap, Positions, ValuesIn;
    forall v: string
      ensures v in buckets.Keys <==> v in ValuesIn(rows)
    {
      assert Positions(rows, v) == Bucket(buckets, v);
      PickedAreOf(rows, v);
      ValueOccurs(rows, v);
    }
  }

  lemma AppendedIsGrown(groups: Groups, rows: seq<Row>, buckets: map<string, seq<nat>>, out: Groups)
    requires Appended(groups, rows, buckets.Keys, out)
    requires Bucketed(rows, buckets) && forall v :: v in buckets ==> buckets[v] != []
    ensures out == Grown(groups, rows)
  {
    BucketKeys(rows, buckets);
    hide FilterMap, ValuesIn;
  }

  method AppendBuckets(groups: Groups, rows: seq<Cells>, buckets: map<string, seq<nat>>, idx: nat, width: nat) returns (out: Groups)
    requires idx < width && forall r <- rows :: width <= |r|
    requires Bucketed(RowsOf(rows, idx, width), buckets)
    ensures Appended(groups, RowsOf(rows, idx, width), buckets.Keys, out)
  {
    hide FilterMap, Appended, Positions, Without;
    ghost var split := RowsOf(rows, idx, width);
    out := groups;
    var todo := buckets.Keys;
    NothingAppended(groups, split);
    while todo != {}
      invariant todo <= buckets.Keys && Appended(groups, split, buckets.Keys - todo, out)
      decreases todo
    {
      var v :| v in todo;
      assert buckets[v] == Positions(split, v);
      var sub := TakeRows(rows, buckets[v], idx, width);
      PickedAreOf(split, v);
      OneAppended(groups, split, buckets.Keys - todo, out, v, sub);
      out := out[v := Group(out, v) + [sub]];
      assert buckets.Keys - (todo - {v}) == buckets.Keys - todo + {v};
      todo := todo - {v};
    }
    assert buckets.Keys - todo == buckets.Keys;
  }

  lemma NothingAppended(groups: Groups, rows: seq<Row>)
    ensures forall keys: set<string> :: keys == {} ==> Appended(groups, rows, keys, groups)
  {
    assert groups.Keys + {} == groups.Keys;
  }

  lemma OneAppended(groups: Groups, rows: seq<Row>, added: set<string>, out: Groups, v: string, sub: seq<Record>)
    requires Appended(groups, rows, added, out) && v !in added && sub == FilterMap(rows, OfFn(v))
    ensures Appended(groups, rows, added + {v}, out[v := Group(out, v) + [sub]])
  {
    hide FilterMap;
    assert Group(out, v) == Group(groups, v);
  }

  lemma FlattenOne<T>(batches: seq<seq<T>>, last: seq<T>)
    ensures Flatten(batches + [last]) == Flatten(batches) + last
  {
    assert (batches + [last])[..|batches|] == batches;
  }

  lemma GroupsGrow(groups: Groups, before: seq<Row>, rows: seq<Row>)
    requires GroupsOf(groups, before)
    ensures GroupsOf(Grown(groups, rows), before + rows)
  {
    hide FilterMap, Flatten, ValuesIn;
    var out := Grown(groups, rows);
    forall v: string
      ensures FilterMap(before + rows, OfFn(v)) == if v in out then Flatten(out[v]) else []
      ensures v in out ==> out[v] != [] && forall b <- out[v] :: b != []
    {
      FilterMapConcat(before, rows, OfFn(v));
      ValueOccurs(rows, v);
      GrownGroup(Group(groups, v), FilterMap(rows, OfFn(v)));
      NoBatches<Record>();
    }
  }

  lemma GrownGroup(batches: seq<seq<Record>>, last: seq<Record>)
    ensures Flatten(batches + [last]) == Flatten(batches) + last
    ensures last == [] ==> Flatten(batches) == Flatten(batches) + last
  {
    FlattenOne(batches, last);
  }

  lemma NoBatches<T>()
    ensures Flatten<T>([]) == []
  {
  }

  lemma {:induction false} GroupsInOf(batches: seq<Batch>, idx: nat, width: nat)
    ensures GroupsOf(GroupsIn(batches, idx, width), RowsIn(batches, idx, width))
  {
    hide GroupsOf, Grown, RowOf;
    if batches == [] {
      NoRowsNoGroups();
    } else {
      var n := |batches| - 1;
      GroupsInOf(batches[..n], idx, width);
      GroupsGrow(GroupsIn(batches[..n], idx, width), RowsIn(batches[..n], idx, width), RowsOf(batches[n].rows, idx, width));
    }
  }

  lemma {:induction false} NoNullsIn(batches: seq<Batch>, column: string, idx: nat, width: nat)
    requires FaultIn(batches, column, idx, width).None?
    ensures NoNulls(RowsIn(batches, idx, width))
  {
    hide FilterMap, RowOf;
    if batches != [] {
      var n := |batches| - 1;
      NoNullsIn(batches[..n], column, idx, width);
      NullsCounted(batches[n].rows, idx, width);
    }
  }

  /** The groups of an accepted input hold its rows. */
  lemma GroupsForOf(column: string, batches: seq<Batch>)
    requires FirstFault(column, batches).None?
    ensures GroupsOf(GroupsFor(column, batches), AllRows(column, batches)) && NoNulls(AllRows(column, batches))
  {
    hide GroupsOf, IndexOf, RowsIn, FaultIn, GroupsIn;
    if batches == [] {
      NoRowsNoGroups();
    } else {
      var idx, width := IndexOf(batches[0].columns, column).value, |batches[0].columns|;
      GroupsInOf(batches, idx, width);
      NoNullsIn(batches, column, idx, width);
    }
  }

  /** Every row, read at the first batch's positions, lands in the group of its value, once, in
      batch-then-row order, one sub-batch for each batch; the first batch with a fault stops the write. */
  method PartitionBatches(column: string, batches: seq<Batch>) returns (r: Outcome<Groups>)
    ensures r.Err? <==> FirstFault(column, batches).Some?
    ensures r.Err? ==> FirstFault(column, batches) == Some(r.fault)
    ensures r.Ok? ==> r.value == GroupsFor(column, batches)
    ensures r.Ok? ==> NoNulls(AllRows(column, batches)) && GroupsOf(r.value, AllRows(column, batches))
  {
    hide GroupsOf, NoNulls, FilterMap, IndexOf, RowOf, Grown;
    var groups: Groups := map[];
    GroupsWhenAccepted(column, batches);
    if batches == [] {
      return Ok(groups);
    }
    var at := IndexOf(batches[0].columns, column);
    if at.None? {
      return Err(ColumnNotFound);
    }
    var idx, width := at.value, |batches[0].columns|;
    for i := 0 to |batches|
      invariant FaultIn(batches[..i], column, idx, width).None?
      invariant groups == GroupsIn(batches[..i], idx, width)
    {
      var b := batches[i];
      ghost var split := RowsOf(b.rows, idx, width);
      assert batches[..i + 1][..i] == batches[..i];
      assert FaultIn(batches[..i + 1], column, idx, width) == FaultOf(b, column, idx, width);
      FaultStays(batches, i + 1, column, idx, width);
      if IndexOf(b.columns, column).None? {
        return Err(ColumnMissing);
      }
      if |b.columns| <= idx {
        return Err(OutOfBounds);
      }
      var nulls := |FilterMap(b.rows, NullAtFn(idx))|;
      if nulls > 0 {
        return Err(NullValues(nulls));
      }
      NullsCounted(b.rows, idx, width);
      var buckets := BucketRows(b.rows, idx, width);
      if b.rows != [] && |b.columns| < width {
        return Err(OutOfBounds);
      }
      var grown := AppendBuckets(groups, b.rows, buckets, idx, width);
      AppendedIsGrown(groups, split, buckets, grown);
      groups := grown;
    }
    assert batches[..|batches|] == batches;
    return Ok(groups);
  }

  lemma GroupsWhenAccepted(column: string, batches: seq<Batch>)
    ensures FirstFault(column, batches).None? ==>
              GroupsOf(GroupsFor(column, batches), AllRows(column, batches)) && NoNulls(AllRows(column, batches))
  {
    hide GroupsOf, NoNulls;
    if FirstFault(column, batches).None? {
      GroupsForOf(column, batches);
    }
  }

  lemma NoRowsNoGroups()
    ensures GroupsOf(map[], [])
  {
  }

  /** A fault found in a prefix is the fault of the whole. */
  lemma {:induction false} FaultStays(batches: seq<Batch>, n: nat, column: string, idx: nat, width: nat)
    requires n <= |batches|
    ensures FaultIn(batches[..n], column, idx, width).Some? ==>
              FaultIn(batches, column, idx, width) == FaultIn(batches[..n], column, idx, width)
    decreases |batches| - n
  {
    hide FaultOf;
    if n < |batches| {
      FaultStays(batches, n + 1, column, idx, width);
      assert batches[..n + 1][..n] == batches[..n];
    } else {
      assert batches[..n] == batches;
    }
  }

  lemma {:induction false} NoFaultIff(batches: seq<Batch>, column: string, idx: nat, width: nat)
    ensures FaultIn(batches, column, idx, width).None? <==> forall b <- batches :: FaultOf(b, column, idx, width).None?
  {
    hide FaultOf;
    if batches != [] {
      var n := |batches| - 1;
      NoFaultIff(batches[..n], column, idx, width);
      assert batches == batches[..n] + [batches[n]];
    }
  }

  // ---- Positions against names ----

  /** What the batch's own columns call the cell. */
  function Named(columns: seq<string>, cells: Cells, name: string): Option<string> {
    var at := IndexOf(columns, name);
    if at.Some? then CellAt(cells, at.value) else None
  }

  /** A row read by name: each column of the first batch is looked up in the row's own batch. */
  function NamedCells(first: seq<string>, columns: seq<string>, cells: Cells): Cells {
    seq(|first|, p requires 0 <= p < |first| => Named(columns, cells, first[p]))
  }

  ghost predicate HasSchemas(batches: seq<Batch>, schemas: seq<seq<string>>) {
    |batches| == |schemas| && forall i :: 0 <= i < |batches| ==> batches[i].columns == schemas[i]
  }

  /** In every row, position p of the first batch's columns holds the column of that name. */
  ghost predicate ReadRight(batches: seq<Batch>, p: nat)
    requires batches != [] && p < |batches[0].columns|
  {
    forall b <- batches, cells <- b.rows :: CellAt(cells, p) == Named(b.columns, cells, batches[0].columns[p])
  }

  /** Whatever the data, as long as the write is not refused. */
  ghost predicate AlwaysRight(column: string, schemas: seq<seq<string>>, p: nat)
    requires schemas != [] && p < |schemas[0]|
  {
    forall batches: seq<Batch> :: HasSchemas(batches, schemas) && FirstFault(column, batches).None? ==> ReadRight(batches, p)
  }

  /** Some batch stops the write by its columns alone. */
  predicate SomeRefused(column: string, schemas: seq<seq<string>>)
    requires schemas != []
  {
    var at := IndexOf(schemas[0], column);
    at.None? || exists s <- schemas :: column !in s || |s| <= at.value
  }

  /** Every batch that can hold rows has the column at the first batch's index of it. A batch with fewer
      columns than the first is refused as soon as it holds a row. */
  predicate SamePlace(schemas: seq<seq<string>>, p: nat)
    requires schemas != [] && p < |schemas[0]|
  {
    forall s <- schemas :: |s| < |schemas[0]| || IndexOf(s, schemas[0][p]) == Some(p)
  }

  lemma RefusedFaults(column: string, schemas: seq<seq<string>>, batches: seq<Batch>)
    requires schemas != [] && SomeRefused(column, schemas) && HasSchemas(batches, schemas)
    ensures FirstFault(column, batches).Some?
  {
    hide IndexOf, FilterMap;
    var at := IndexOf(schemas[0], column);
    if at.Some? {
      var s :| s in schemas && (column !in s || |s| <= at.value);
      var i :| 0 <= i < |schemas| && schemas[i] == s;
      NoFaultIff(batches, column, at.value, |schemas[0]|);
      assert batches[i] in batches && FaultOf(batches[i], column, at.value, |schemas[0]|).Some?;
    }
  }

  /** One row, told apart at position p. */
  function Marked(width: nat, p: nat): Cells {
    seq(width, i => if i == p then Some("a") else Some("b"))
  }

  function OneRow(schemas: seq<seq<string>>, k: nat, p: nat): (batches: seq<Batch>)
    requires k < |schemas|
  {
    seq(|schemas|, i requires 0 <= i < |schemas| => RawBatch(schemas[i], if i == k then [Marked(|schemas[i]|, p)] else []))
  }

  lemma OneRowAccepted(column: string, schemas: seq<seq<string>>, k: nat, p: nat)
    requires k < |schemas| && !SomeRefused(column, schemas) && |schemas[k]| >= |schemas[0]|
    ensures HasSchemas(OneRow(schemas, k, p), schemas) && FirstFault(column, OneRow(schemas, k, p)).None?
  {
    hide IndexOf, FilterMap;
    var batches := OneRow(schemas, k, p);
    var idx, width := IndexOf(schemas[0], column).value, |schemas[0]|;
    forall b | b in batches
      ensures FaultOf(b, column, idx, width).None?
    {
      var i :| 0 <= i < |batches| && batches[i] == b;
      assert schemas[i] in schemas;
      NullsCounted(b.rows, idx, width);
    }
    NoFaultIff(batches, column, idx, width);
  }

  /** Position p is read right of all data with the given columns exactly when every batch has its name
      there first, or the columns alone stop the write: the code takes positions from the first batch and
      asks later batches only whether they have the partition column. */
  lemma AlwaysRightIff(column: string, schemas: seq<seq<string>>, p: nat)
    requires schemas != [] && p < |schemas[0]|
    ensures AlwaysRight(column, schemas, p) <==> SomeRefused(column, schemas) || SamePlace(schemas, p)
  {
    hide IndexOf, FilterMap, FirstFault, SomeRefused;
    if SomeRefused(column, schemas) {
      forall batches: seq<Batch> | HasSchemas(batches, schemas)
        ensures FirstFault(column, batches).Some?
      {
        RefusedFaults(column, schemas, batches);
      }
    } else if SamePlace(schemas, p) {
      forall batches: seq<Batch> | HasSchemas(batches, schemas) && FirstFault(column, batches).None?
        ensures ReadRight(batches, p)
      {
        SamePlaceReads(column, schemas, batches, p);
      }
    } else {
      var s :| s in schemas && |s| >= |schemas[0]| && IndexOf(s, schemas[0][p]) != Some(p);
      var k :| 0 <= k < |schemas| && schemas[k] == s;
      var batches := OneRow(schemas, k, p);
      OneRowAccepted(column, schemas, k, p);
      MarkedShows(s, schemas[0][p], p);
      assert batches[k] in batches && Marked(|s|, p) in batches[k].rows;
      assert !ReadRight(batches, p);
    }
  }

  lemma MarkedShows(columns: seq<string>, name: string, p: nat)
    requires p < |columns| && IndexOf(columns, name) != Some(p)
    ensures CellAt(Marked(|columns|, p), p) != Named(columns, Marked(|columns|, p), name)
  {
    hide IndexOf;
  }

  lemma SamePlaceReads(column: string, schemas: seq<seq<string>>, batches: seq<Batch>, p: nat)
    requires schemas != [] && p < |schemas[0]| && SamePlace(schemas, p)
    requires HasSchemas(batches, schemas) && FirstFault(column, batches).None?
    ensures ReadRight(batches, p)
  {
    hide IndexOf, FilterMap;
    var idx, width := IndexOf(schemas[0], column).value, |schemas[0]|;
    NoFaultIff(batches, column, idx, width);
    forall b, cells | b in batches && cells in b.rows
      ensures CellAt(cells, p) == Named(b.columns, cells, batches[0].columns[p])
    {
      assert FaultOf(b, column, idx, width).None?;
      var i :| 0 <= i < |batches| && batches[i] == b;
      assert schemas[i] in schemas;
    }
  }

  /** Rows are grouped by the partition column of their own batch. */
  ghost predicate GroupedByColumn(column: string, batches: seq<Batch>)
    requires batches != [] && column in batches[0].columns
  {
    forall b <- batches, cells <- b.rows ::
      RowOf(cells, IndexOf(batches[0].columns, column).value, |batches[0].columns|).part == Named(b.columns, cells, column)
  }

  /** Of all data with some columns, the grouping is by the partition column exactly when every batch has
      that column at the first batch's index. */
  lemma GroupedByColumnIff(column: string, schemas: seq<seq<string>>)
    requires schemas != [] && column in schemas[0]
    ensures
      var idx := IndexOf(schemas[0], column).value;
      (forall batches: seq<Batch> :: HasSchemas(batches, schemas) && FirstFault(column, batches).None? ==> GroupedByColumn(column, batches))
      <==> SomeRefused(column, schemas) || SamePlace(schemas, idx)
  {
    hide IndexOf, FirstFault, SomeRefused, SamePlace, Named, CellAt, Without;
    var idx := IndexOf(schemas[0], column).value;
    AlwaysRightIff(column, schemas, idx);
    forall batches: seq<Batch> | HasSchemas(batches, schemas)
      ensures GroupedByColumn(column, batches) <==> ReadRight(batches, idx)
    {
      assert batches[0].columns[idx] == column;
      forall b, cells | b in batches && cells in b.rows
        ensures RowOf(cells, idx, |batches[0].columns|).part == CellAt(cells, idx)
      {
      }
    }
  }

  /** The first `width` cells of every row. */
  function CutRows(rows: seq<Cells>, width: nat): seq<Cells> {
    seq(|rows|, i requires 0 <= i < |rows| => if width <= |rows[i]| then rows[i][..width] else rows[i])
  }

  /** All rows of the input, cut to the first batch's width. */
  function InputCells(batches: seq<Batch>, width: nat): seq<Cells> {
    if batches == [] then []
    else
      var n := |batches| - 1;
      InputCells(batches[..n], width) + CutRows(batches[n].rows, width)
  }

  function NamedRows(first: seq<string>, b: Batch): seq<Cells> {
    seq(|b.rows|, i requires 0 <= i < |b.rows| => NamedCells(first, b.columns, b.rows[i]))
  }

  /** All rows, each read through the columns of its own batch. */
  function AllNamed(first: seq<string>, batches: seq<Batch>): seq<Cells> {
    if batches == [] then []
    else
      var n := |batches| - 1;
      AllNamed(first, batches[..n]) + NamedRows(first, batches[n])
  }

  lemma BatchIsNamed(b: Batch, first: seq<string>)
    requires forall cells <- b.rows :: |first| <= |cells|
    requires forall cells <- b.rows, p | 0 <= p < |first| :: CellAt(cells, p) == Named(b.columns, cells, first[p])
    ensures CutRows(b.rows, |first|) == NamedRows(first, b)
  {
    hide Named;
    forall i | 0 <= i < |b.rows|
      ensures CutRows(b.rows, |first|)[i] == NamedRows(first, b)[i]
    {
      var cells := b.rows[i];
      assert cells in b.rows;
      forall p | 0 <= p < |first|
        ensures cells[..|first|][p] == NamedCells(first, b.columns, cells)[p]
      {
        assert CellAt(cells, p) == Named(b.columns, cells, first[p]);
      }
    }
  }

  lemma {:induction false} CellsAreNamed(batches: seq<Batch>, first: seq<string>)
    requires forall b <- batches, cells <- b.rows :: |first| <= |cells|
    requires forall b <- batches, cells <- b.rows, p | 0 <= p < |first| :: CellAt(cells, p) == Named(b.columns, cells, first[p])
    ensures InputCells(batches, |first|) == AllNamed(first, batches)
  {
    hide Named, CellAt, CutRows, NamedRows;
    if batches != [] {
      var n := |batches| - 1;
      assert batches[n] in batches;
      CellsAreNamed(batches[..n], first);
      BatchIsNamed(batches[n], first);
    }
  }

  lemma WideEnough(column: string, batches: seq<Batch>)
    requires batches != [] && FirstFault(column, batches).None?
    ensures column in batches[0].columns
    ensures forall b <- batches, cells <- b.rows :: |batches[0].columns| <= |cells|
  {
    hide FilterMap, IndexOf;
    var idx, width := IndexOf(batches[0].columns, column).value, |batches[0].columns|;
    NoFaultIff(batches, column, idx, width);
    forall b, cells | b in batches && cells in b.rows
      ensures width <= |cells|
    {
      assert FaultOf(b, column, idx, width).None?;
    }
  }

  /** When every batch has the first batch's columns in front, and no name twice among them, the rows
      by position are the rows by name. */
  lemma InputIsNamed(column: string, batches: seq<Batch>, schemas: seq<seq<string>>)
    requires schemas != [] && HasSchemas(batches, schemas) && FirstFault(column, batches).None?
    requires forall p :: 0 <= p < |schemas[0]| ==> SamePlace(schemas, p)
    ensures InputCells(batches, |schemas[0]|) == AllNamed(schemas[0], batches)
  {
    hide IndexOf, SamePlace, Named, CellAt, FaultIn;
    WideEnough(column, batches);
    forall b, cells, p | b in batches && cells in b.rows && 0 <= p < |schemas[0]|
      ensures CellAt(cells, p) == Named(b.columns, cells, schemas[0][p])
    {
      SamePlaceReads(column, schemas, batches, p);
      assert ReadRight(batches, p);
    }
    CellsAreNamed(batches, schemas[0]);
  }

  // ---- What is refused ----

  /** Nothing is wrong with a batch that has the column, reaches the first batch's index of it, holds no null
      there, and has at least the first batch's columns if it has rows. */
  predicate Acceptable(b: Batch, column: string, idx: nat, width: nat) {
    && column in b.columns && idx < |b.columns| && (forall r <- b.rows :: CellAt(r, idx) != None)
    && (b.rows != [] ==> width <= |b.columns|)
  }

  lemma AcceptableIff(b: Batch, column: string, idx: nat, width: nat)
    ensures FaultOf(b, column, idx, width) == None <==> Acceptable(b, column, idx, width)
  {
    NullsCounted(b.rows, idx, width);
    hide FilterMap, CellAt;
  }

  /** The fault is that of the first batch with one, and says what is wrong with it. */
  ghost predicate FaultSays(f: Fault, column: string, batches: seq<Batch>, i: nat, idx: nat, width: nat)
    requires i < |batches|
  {
    && (forall j :: 0 <= j < i ==> Acceptable(batches[j], column, idx, width))
    && match f
       case ColumnNotFound => false
       case ColumnMissing => column !in batches[i].columns
       case OutOfBounds => column in batches[i].columns && (|batches[i].columns| <= idx || |batches[i].columns| < width)
       case NullValues(n) =>
         && column in batches[i].columns && idx < |batches[i].columns|
         && n == |FilterMap(batches[i].rows, NullAtFn(idx))| > 0
  }

  lemma FaultOfSays(column: string, batches: seq<Batch>, i: nat, idx: nat, width: nat)
    requires i < |batches| && FaultOf(batches[i], column, idx, width).Some?
    requires forall j :: 0 <= j < i ==> Acceptable(batches[j], column, idx, width)
    ensures FaultSays(FaultOf(batches[i], column, idx, width).value, column, batches, i, idx, width)
  {
    hide FilterMap, CellAt, Acceptable;
  }

  lemma {:induction false} FaultInSays(column: string, batches: seq<Batch>, idx: nat, width: nat) returns (i: nat)
    requires FaultIn(batches, column, idx, width).Some?
    ensures i < |batches| && FaultSays(FaultIn(batches, column, idx, width).value, column, batches, i, idx, width)
  {
    hide FaultOf, Acceptable, FilterMap, CellAt;
    var n := |batches| - 1;
    if FaultIn(batches[..n], column, idx, width).Some? {
      i := FaultInSays(column, batches[..n], idx, width);
    } else {
      i := n;
      NoFaultIff(batches[..n], column, idx, width);
      forall j | 0 <= j < n
        ensures Acceptable(batches[j], column, idx, width)
      {
        assert batches[..n][j] in batches[..n];
        AcceptableIff(batches[j], column, idx, width);
      }
      FaultOfSays(column, batches, n, idx, width);
    }
  }

  /** What the first batch lacks is worded apart; otherwise the first unacceptable batch decides, and without
      one nothing is refused. */
  lemma FaultMeans(column: string, batches: seq<Batch>)
    ensures FirstFault(column, batches) == Some(ColumnNotFound) <==> batches != [] && column !in batches[0].columns
    ensures batches != [] && column in batches[0].columns ==>
              var idx, width := IndexOf(batches[0].columns, column).value, |batches[0].columns|;
              var fault := FirstFault(column, batches);
              && (fault == None <==> forall b <- batches :: Acceptable(b, column, idx, width))
              && (fault.Some? ==> exists i :: 0 <= i < |batches| && FaultSays(fault.value, column, batches, i, idx, width))
  {
    hide FilterMap, IndexOf, FaultOf, Acceptable;
    if batches != [] && column in batches[0].columns {
      var idx, width := IndexOf(batches[0].columns, column).value, |batches[0].columns|;
      NoFaultIff(batches, column, idx, width);
      forall b | b in batches
        ensures FaultOf(b, column, idx, width) == None <==> Acceptable(b, column, idx, width)
      {
        AcceptableIff(b, column, idx, width);
      }
      if FaultIn(batches, column, idx, width).Some? {
        var i := FaultInSays(column, batches, idx, width);
      }
    }
  }

  // ---- Putting the partition column back ----

  function WithValueFn(value: string): Record -> Option<Row> {
    (r: Record) => Some(Row(Some(value), r))
  }

  /** What reading the partitions of some values, one after the other, returns. */
  function ReadPartitions(groups: Groups, values: seq<string>): seq<Row>
    requires forall v <- values :: v in groups
  {
    if values == [] then []
    else
      var n := |values| - 1;
      ReadPartitions(groups, values[..n]) + FilterMap(Flatten(groups[values[n]]), WithValueFn(values[n]))
  }

  /** The value put back in its place. */
  function RejoinFn(idx: nat): Row -> Option<Cells> {
    (r: Row) => if idx <= |r.record| then Some(r.record[..idx] + [r.part] + r.record[idx..]) else None
  }

  lemma RejoinRow(cells: Cells, idx: nat, width: nat)
    requires idx < width <= |cells|
    ensures RejoinFn(idx)(RowOf(cells, idx, width)) == Some(cells[..width])
  {
    var record := cells[..idx] + cells[idx + 1..width];
    assert record[..idx] == cells[..idx] && record[idx..] == cells[idx + 1..width];
    assert cells[..idx] + [cells[idx]] + cells[idx + 1..width] == cells[..width];
  }

  lemma {:induction false} RejoinBatch(rows: seq<Cells>, idx: nat, width: nat)
    requires idx < width && forall r <- rows :: width <= |r|
    ensures FilterMap(RowsOf(rows, idx, width), RejoinFn(idx)) == CutRows(rows, width)
  {
    hide FilterMap, RowOf, RejoinFn;
    if rows == [] {
      FilterMapEmpty(RejoinFn(idx));
    } else {
      var n := |rows| - 1;
      RejoinBatch(rows[..n], idx, width);
      assert rows[n] in rows;
      RejoinRow(rows[n], idx, width);
      FilterMapSnoc(RowsOf(rows[..n], idx, width), RowOf(rows[n], idx, width), RejoinFn(idx));
      assert RowsOf(rows, idx, width) == RowsOf(rows[..n], idx, width) + [RowOf(rows[n], idx, width)];
      assert CutRows(rows, width) == CutRows(rows[..n], width) + [rows[n][..width]];
    }
  }

  /** Splitting a row and putting the value back gives the cells. */
  lemma {:induction false} RejoinAll(batches: seq<Batch>, idx: nat, width: nat)
    requires idx < width && forall b <- batches, cells <- b.rows :: width <= |cells|
    ensures FilterMap(RowsIn(batches, idx, width), RejoinFn(idx)) == InputCells(batches, width)
  {
    hide FilterMap, RejoinFn, CutRows, RowsOf;
    if batches == [] {
      FilterMapEmpty(RejoinFn(idx));
    } else {
      var n := |batches| - 1;
      assert batches[n] in batches;
      RejoinAll(batches[..n], idx, width);
      RejoinBatch(batches[n].rows, idx, width);
      FilterMapConcat(RowsIn(batches[..n], idx, width), RowsOf(batches[n].rows, idx, width), RejoinFn(idx));
    }
  }

  function AmongFn(values: seq<string>): Row -> Option<Row> {
    (r: Row) => if r.part.Some? && r.part.value in values then Some(r) else None
  }

  predicate Distinct(values: seq<string>) {
    forall i, j :: 0 <= i < j < |values| ==> values[i] != values[j]
  }

  lemma {:induction false} ReadSome(groups: Groups, rows: seq<Row>, values: seq<string>)
    requires GroupsOf(groups, rows) && Distinct(values) && forall v <- values :: v in groups
    ensures multiset(ReadPartitions(groups, values)) == multiset(FilterMap(rows, AmongFn(values)))
  {
    hide FilterMap, Flatten;
    if values == [] {
      FilterMapNone(rows, AmongFn(values));
    } else {
      var n := |values| - 1;
      var init, v := values[..n], values[n];
      ReadSome(groups, rows, init);
      FilterMapCompose(rows, OfFn(v), WithValueFn(v), AmongFn([v]));
      FilterMapSplit(rows, AmongFn(init), AmongFn([v]), AmongFn(values));
      assert multiset(ReadPartitions(groups, values)) ==
        multiset(ReadPartitions(groups, init)) + multiset(FilterMap(Flatten(groups[v]), WithValueFn(v)));
    }
  }

  /** Reading every partition back, in any order, returns exactly the rows that were written. */
  lemma ReadBack(groups: Groups, rows: seq<Row>, values: seq<string>)
    requires GroupsOf(groups, rows) && NoNulls(rows) && Distinct(values)
    requires forall v :: v in values <==> v in groups
    ensures multiset(ReadPartitions(groups, values)) == multiset(rows)
  {
    ReadSome(groups, rows, values);
    forall r | r in rows
      ensures r.part.value in values
    {
      FilterMapMember(rows, OfFn(r.part.value), r.record);
      assert OfFn(r.part.value)(r) == Some(r.record);
      hide FilterMap;
    }
    hide FilterMap, GroupsOf;
    FilterMapAll(rows, AmongFn(values));
  }
}

/** Overwriting the partitions a batch of rows falls into, and what survives a crash at any write. */
module PartitionOverwrite {
  import opened Lists
  import opened Partition
  import opened PartitionSwap

  // ---- One partition more ----

  lemma NotTouchedYet(column: string, done: set<string>, v: string)
    requires v !in done
    ensures !Touched(column, done, PartitionDir(column, v)) && !Touched(column, done, StagingDir(column, v))
  {
    forall w | w in done
      ensures PartitionDir(column, v) != PartitionDir(column, w) && StagingDir(column, v) != PartitionDir(column, w)
      ensures StagingDir(column, v) != StagingDir(column, w) && PartitionDir(column, v) != StagingDir(column, w)
    {
      NamesApart(column, v, w);
      NamesApart(column, w, v);
    }
  }

  lemma OthersSame(u: Tree, t: Tree, column: string, v: string, w: string)
    requires v != w && SameExcept(u, t, {PartitionDir(column, v), StagingDir(column, v)})
    ensures SameAt(u, t, PartitionDir(column, w)) && SameAt(u, t, StagingDir(column, w))
  {
    NamesApart(column, v, w);
    NamesApart(column, w, v);
  }

  lemma TouchedMore(column: string, few: set<string>, many: set<string>, d: string)
    requires few <= many
    ensures Touched(column, few, d) ==> Touched(column, many, d)
  {
    hide PartitionDir, StagingDir;
    if Touched(column, few, d) {
      var w :| w in few && (d == PartitionDir(column, w) || d == StagingDir(column, w));
      assert w in many;
    }
  }

  lemma UntouchedStep(s: Tree, u: Tree, t: Tree, column: string, done: set<string>, v: string)
    requires Untouched(s, u, column, done) && SameExcept(u, t, {PartitionDir(column, v), StagingDir(column, v)})
    ensures Untouched(s, t, column, done + {v})
  {
    hide PartitionDir, StagingDir;
    forall d | !Touched(column, done + {v}, d)
      ensures SameAt(s, t, d)
    {
      assert v in done + {v};
      TouchedMore(column, done, done + {v}, d);
      assert SameAt(s, u, d) && SameAt(u, t, d);
    }
  }

  lemma UntouchedMore(s: Tree, t: Tree, column: string, few: set<string>, many: set<string>)
    requires Untouched(s, t, column, few) && few <= many
    ensures Untouched(s, t, column, many)
  {
    hide PartitionDir, StagingDir, SameAt;
    forall d | !Touched(column, many, d)
      ensures !Touched(column, few, d)
    {
      TouchedMore(column, few, many, d);
    }
  }

  lemma StepReplaced(s: Tree, u: Tree, t: Tree, column: string, groups: Groups, done: set<string>, v: string)
    requires Replaced(s, u, column, groups, done) && v in groups && v !in done
    requires SameExcept(u, t, {PartitionDir(column, v), StagingDir(column, v)})
    requires ReplacedAt(t, PartitionDir(column, v), StagingDir(column, v), NewFiles(groups[v]))
    ensures Replaced(s, t, column, groups, done + {v})
  {
    hide PartitionDir, StagingDir, NewFiles, Untouched, SameExcept;
    UntouchedStep(s, u, t, column, done, v);
    forall w | w in done
      ensures ReplacedAt(t, PartitionDir(column, w), StagingDir(column, w), NewFiles(groups[w]))
    {
      OthersSame(u, t, column, v, w);
    }
  }

  lemma StepSafe(s: Tree, u: Tree, t: Tree, column: string, groups: Groups, done: set<string>, v: string)
    requires Replaced(s, u, column, groups, done) && v in groups && v !in done
    requires Swapping(u, t, PartitionDir(column, v), StagingDir(column, v), NewFiles(groups[v]))
    ensures CrashSafe(s, t, column, groups)
  {
    hide PartitionDir, StagingDir, NewFiles, PartOf, Touched;
    UntouchedStep(s, u, t, column, done, v);
    UntouchedMore(s, t, column, done + {v}, groups.Keys);
    forall w | w in groups
      ensures PartitionSafe(s, t, PartitionDir(column, w), StagingDir(column, w), NewFiles(groups[w]))
    {
      if w != v {
        OthersSame(u, t, column, v, w);
      }
      if w !in done {
        NotTouchedYet(column, done, w);
        assert SameAt(s, u, PartitionDir(column, w));
      }
    }
  }

  lemma StepsSafe(s: Tree, u: Tree, trees: seq<Tree>, more: seq<Tree>, column: string, groups: Groups, done: set<string>, v: string)
    requires Replaced(s, u, column, groups, done) && v in groups && v !in done && AllCrashSafe(s, trees, column, groups)
    requires AllSwapping(u, more, PartitionDir(column, v), StagingDir(column, v), NewFiles(groups[v]))
    ensures AllCrashSafe(s, trees + more, column, groups)
  {
    hide PartitionDir, StagingDir, NewFiles, Swapping, CrashSafe, Replaced;
    forall t | t in more
      ensures CrashSafe(s, t, column, groups)
    {
      StepSafe(s, u, t, column, groups, done, v);
    }
  }

  // ---- Removals that stop half way ----

  ghost predicate ManyFiles(s: Tree, dir: string) {
    dir in s && |s[dir]| > 1
  }

  ghost predicate HalfWay(s: Tree, trees: seq<Tree>, column: string, values: set<string>) {
    forall v <- values :: ManyFiles(s, PartitionDir(column, v)) ==> SomeHalfRemoved(s, trees, PartitionDir(column, v))
  }

  lemma HalfWayStep(s: Tree, u: Tree, trees: seq<Tree>, more: seq<Tree>, column: string, done: set<string>, v: string)
    requires HalfWay(s, trees, column, done) && SameAt(s, u, PartitionDir(column, v))
    requires ManyFiles(u, PartitionDir(column, v)) ==> SomeHalfRemoved(u, more, PartitionDir(column, v))
    ensures HalfWay(s, trees + more, column, done + {v})
  {
    hide PartitionDir, PartOf;
    forall w | w in done + {v} && ManyFiles(s, PartitionDir(column, w))
      ensures SomeHalfRemoved(s, trees + more, PartitionDir(column, w))
    {
      var d := PartitionDir(column, w);
      if w in done {
        assert SomeHalfRemoved(s, trees, d);
        var t :| t in trees && HalfRemoved(s, t, d);
        assert t in trees + more;
      } else {
        assert SomeHalfRemoved(u, more, d);
        var t :| t in more && HalfRemoved(u, t, d);
        assert t in trees + more && HalfRemoved(s, t, d);
      }
    }
  }

  // ---- The write ----

  lemma Nothing(s: Tree, column: string, groups: Groups)
    ensures Replaced(s, s, column, groups, {}) && AllCrashSafe(s, [], column, groups) && HalfWay(s, [], column, {})
  {
    hide Touched, PartitionDir, StagingDir;
  }

  lemma StillSame(s: Tree, u: Tree, t: Tree, column: string, groups: Groups, done: set<string>, v: string)
    requires Replaced(s, u, column, groups, done) && v !in done
    ensures SameAt(s, u, PartitionDir(column, v))
    ensures SameAt(u, t, PartitionDir(column, v)) ==> SameAt(s, t, PartitionDir(column, v))
  {
    NotTouchedYet(column, done, v);
    hide Touched, PartitionDir, StagingDir;
  }

  predicate AllIn(values: seq<string>, groups: Groups) {
    forall v <- values :: v in groups
  }

  function RowCount(groups: Groups, values: seq<string>): nat
    requires AllIn(values, groups)
  {
    |ReadPartitions(groups, values)|
  }

  /** The values written so far, in the order they were taken. */
  ghost predicate Taken(values: seq<string>, groups: Groups, done: set<string>) {
    AllIn(values, groups) && Distinct(values) && forall v :: v in values <==> v in done
  }

  lemma TakenMore(values: seq<string>, groups: Groups, done: set<string>, v: string)
    requires Taken(values, groups, done) && v in groups && v !in done
    ensures Taken(values + [v], groups, done + {v})
    ensures RowCount(groups, values + [v]) == RowCount(groups, values) + |Flatten(groups[v])|
  {
    var more := values + [v];
    assert forall w :: w in more <==> w in values || w == v;
    assert more[..|values|] == values;
    assert forall r <- Flatten(groups[v]) :: WithValueFn(v)(r).Some?;
    SameLength(Flatten(groups[v]), WithValueFn(v));
  }

  lemma {:induction false} SameLength<A, B>(s: seq<A>, f: A -> Option<B>)
    requires forall x <- s :: f(x).Some?
    ensures |FilterMap(s, f)| == |s|
  {
    if s != [] {
      assert s[|s| - 1] in s;
      SameLength(s[..|s| - 1], f);
    }
  }

  /** The loop over partitions. Whatever prefix of its writes reached the disk, the tree is crash-safe;
      when it finishes, every partition of the input is replaced and nothing else has changed. */
  method WriteGroups(disk: Disk, column: string, groups: Groups, failing: set<string>)
    returns (failed: Option<string>, rows: nat, ghost trees: seq<Tree>, ghost values: seq<string>)
    modifies disk
    ensures disk.history == old(disk.history) + trees
    ensures AllCrashSafe(old(disk.tree), trees, column, groups)
    ensures failed.None? ==> Replaced(old(disk.tree), disk.tree, column, groups, groups.Keys)
    ensures failed.None? ==> HalfWay(old(disk.tree), trees, column, groups.Keys)
    ensures failed.None? ==> Taken(values, groups, groups.Keys) && rows == RowCount(groups, values)
    ensures failed.Some? ==>
              && failed.value in groups && failed.value in failing
              && SameAt(old(disk.tree), disk.tree, PartitionDir(column, failed.value))
              && StagingDir(column, failed.value) !in disk.tree
    ensures failed.None? <==> groups.Keys !! failing
  {
    hide Replaced, AllCrashSafe, AllSwapping, HalfWay, SameExcept, NewFiles, Taken, ReplacedAt, SomeHalfRemoved, SameAt,
      PartitionDir, StagingDir, RowCount, Flatten;
    ghost var s := disk.tree;
    var todo := groups.Keys;
    failed, rows, trees, values := None, 0, [], [];
    Nothing(s, column, groups);
    NoneTaken(groups);
    while todo != {}
      invariant todo <= groups.Keys && disk.history == old(disk.history) + trees
      invariant Replaced(s, disk.tree, column, groups, groups.Keys - todo) && AllCrashSafe(s, trees, column, groups)
      invariant HalfWay(s, trees, column, groups.Keys - todo)
      invariant Taken(values, groups, groups.Keys - todo) && AllIn(values, groups) && rows == RowCount(groups, values)
      invariant (groups.Keys - todo) !! failing
      decreases todo
    {
      var v :| v in todo;
      NamesApart(column, v, v);
      ghost var u, done := disk.tree, groups.Keys - todo;
      ghost var more;
      var ok;
      ok, more := disk.ReplacePartition(PartitionDir(column, v), StagingDir(column, v), groups[v], v in failing);
      StepsSafe(s, u, trees, more, column, groups, done, v);
      StillSame(s, u, disk.tree, column, groups, done, v);
      if !ok {
        return Some(v), 0, trees + more, [];
      }
      StepReplaced(s, u, disk.tree, column, groups, done, v);
      HalfWayStep(s, u, trees, more, column, done, v);
      TakenMore(values, groups, done, v);
      rows, trees, values := rows + |Flatten(groups[v])|, trees + more, values + [v];
      assert groups.Keys - (todo - {v}) == done + {v};
      todo := todo - {v};
    }
    assert groups.Keys - todo == groups.Keys;
  }

  lemma NoneTaken(groups: Groups)
    ensures Taken([], groups, {}) && AllIn([], groups) && RowCount(groups, []) == 0
    ensures groups.Keys - groups.Keys == {}
  {
  }

  /** A partition is untouched, or its complete new content is on disk, staged or in place. */
  predicate OldOrNewWhole(s: Tree, t: Tree, column: string, groups: Groups, v: string)
    requires v in groups
  {
    var dir, staging, files := PartitionDir(column, v), StagingDir(column, v), NewFiles(groups[v]);
    SameAt(s, t, dir) || (staging in t && t[staging] == files) || (dir in t && t[dir] == files)
  }

  /** At no recorded moment is neither the old nor the new content of a partition whole. */
  ghost predicate NothingLost(s: Tree, trees: seq<Tree>, column: string, groups: Groups) {
    forall t <- trees, v | v in groups :: OldOrNewWhole(s, t, column, groups, v)
  }

  lemma CrashSafeLosesNothing(s: Tree, trees: seq<Tree>, column: string, groups: Groups)
    requires AllCrashSafe(s, trees, column, groups)
    ensures NothingLost(s, trees, column, groups)
  {
    hide PartitionDir, StagingDir, NewFiles, Untouched;
    forall t, v | t in trees && v in groups
      ensures OldOrNewWhole(s, t, column, groups, v)
    {
      assert CrashSafe(s, t, column, groups);
    }
  }

  /** The whole operation. A fault in the data or a plain file at the root changes nothing; no rows
      change nothing either. */
  method InsertOverwrite(disk: Disk, column: string, batches: seq<Batch>, rootIsFile: bool, failing: set<string>)
    returns (r: Result, ghost groups: Groups, ghost trees: seq<Tree>)
    modifies disk
    ensures disk.history == old(disk.history) + trees
    ensures r.Refused? <==> FirstFault(column, batches).Some?
    ensures r.Refused? ==> FirstFault(column, batches) == Some(r.fault)
    ensures r.Refused? || r.RootIsFile? ==> disk.tree == old(disk.tree) && trees == []
    ensures !r.Refused? ==> groups == GroupsFor(column, batches)
    ensures !r.Refused? ==> GroupsOf(groups, AllRows(column, batches)) && NoNulls(AllRows(column, batches))
    ensures AllRows(column, batches) == [] && !r.Refused? ==> r == Done(0) && disk.tree == old(disk.tree) && trees == []
    ensures AllCrashSafe(old(disk.tree), trees, column, groups) && NothingLost(old(disk.tree), trees, column, groups)
    ensures r.Done? ==> Replaced(old(disk.tree), disk.tree, column, groups, groups.Keys) && r.rows == |AllRows(column, batches)|
    ensures r.Done? ==> HalfWay(old(disk.tree), trees, column, groups.Keys)
    ensures r.WriteFailed? ==>
              && r.value in groups && r.value in failing
              && SameAt(old(disk.tree), disk.tree, PartitionDir(column, r.value))
              && StagingDir(column, r.value) !in disk.tree
  {
    hide Replaced, AllCrashSafe, NothingLost, HalfWay, SameAt, PartitionDir, StagingDir, FirstFault, AllRows, GroupsFor, GroupsOf, NoNulls;
    trees, groups := [], map[];
    var none: Groups := map[];
    Nothing(disk.tree, column, none);
    CrashSafeLosesNothing(disk.tree, [], column, none);
    assert none.Keys == {};
    NoBatchesNoRows(column);
    if batches == [] {
      return Done(0), groups, trees;
    }
    var grouped := PartitionBatches(column, batches);
    if grouped.Err? {
      return Refused(grouped.fault), groups, trees;
    }
    groups := grouped.value;
    EmptyGroups(groups, AllRows(column, batches));
    Nothing(disk.tree, column, groups);
    CrashSafeLosesNothing(disk.tree, [], column, groups);
    if grouped.value == map[] {
      assert groups.Keys == {};
      return Done(0), groups, trees;
    }
    if rootIsFile {
      return RootIsFile, groups, trees;
    }
    ghost var values;
    var failed, rows;
    failed, rows, trees, values := WriteGroups(disk, column, grouped.value, failing);
    CrashSafeLosesNothing(old(disk.tree), trees, column, groups);
    if failed.Some? {
      return WriteFailed(failed.value), groups, trees;
    }
    AllRowsCounted(groups, AllRows(column, batches), values);
    return Done(rows), groups, trees;
  }

  lemma NoBatchesNoRows(column: string)
    ensures FirstFault(column, []) == None && AllRows(column, []) == [] && NoNulls([]) && GroupsOf(map[], [])
    ensures GroupsFor(column, []) == map[]
  {
    NoRowsNoGroups();
  }

  lemma EmptyGroups(groups: Groups, rows: seq<Row>)
    requires GroupsOf(groups, rows) && NoNulls(rows)
    ensures groups == map[] <==> rows == []
  {
    if rows != [] {
      assert rows[0] in rows;
      FilterMapMember(rows, OfFn(rows[0].part.value), rows[0].record);
      hide FilterMap;
      assert OfFn(rows[0].part.value)(rows[0]) == Some(rows[0].record);
      assert rows[0].part.value in groups;
    } else {
      GroupHasRows(groups, rows);
      assert groups.Keys == {};
    }
  }

  lemma GroupHasRows(groups: Groups, rows: seq<Row>)
    requires GroupsOf(groups, rows)
    ensures forall v :: v in groups ==> FilterMap(rows, OfFn(v)) != []
  {
    forall v | v in groups
      ensures FilterMap(rows, OfFn(v)) != []
    {
      FlattenNotEmpty(groups[v]);
      hide FilterMap, Flatten;
    }
  }

  lemma FlattenNotEmpty(batches: seq<seq<Record>>)
    requires batches != [] && forall b <- batches :: b != []
    ensures Flatten(batches) != []
  {
    assert batches[|batches| - 1] in batches;
  }

  lemma AllRowsCounted(groups: Groups, rows: seq<Row>, values: seq<string>)
    requires GroupsOf(groups, rows) && NoNulls(rows) && Taken(values, groups, groups.Keys)
    ensures RowCount(groups, values) == |rows|
  {
    hide GroupsOf, NoNulls, ReadPartitions;
    ReadBack(groups, rows, values);
    var read := ReadPartitions(groups, values);
    assert |multiset(read)| == |read| && |multiset(rows)| == |rows|;
  }

  // ---- What a crash costs ----

  /** Old content whole, nothing, or new content whole. */
  predicate OldOrNothingOrNew(s: Tree, t: Tree, dir: string, files: Files) {
    SameAt(s, t, dir) || dir !in t || t[dir] == map[] || t[dir] == files
  }

  lemma FewParts(some: Files, all: Files)
    requires PartOf(some, all) && |all| <= 1
    ensures some == map[] || some == all
  {
    if some != map[] {
      var f :| f in some;
      assert {f} <= some.Keys && {f} <= all.Keys;
      assert |all.Keys - {f}| == |all.Keys| - 1 && |all| == |all.Keys|;
      assert all.Keys == {f} && some.Keys == {f};
    }
  }

  /** No old directory of two files holds the very file being written: taking the other file out of it
      first would look like the new content. */
  ghost predicate ContentChanges(s: Tree, column: string, groups: Groups) {
    forall v :: v in groups && PartitionDir(column, v) in s && |s[PartitionDir(column, v)]| == 2 ==>
      !HoldsData(s[PartitionDir(column, v)], groups[v])
  }

  predicate HoldsData(files: Files, batches: seq<seq<Record>>) {
    DATA in files && files[DATA] == Whole(batches)
  }

  lemma HalfRemovedShows(s: Tree, t: Tree, dir: string, batches: seq<seq<Record>>)
    requires HalfRemoved(s, t, dir) && (|s[dir]| == 2 ==> !HoldsData(s[dir], batches))
    ensures !OldOrNothingOrNew(s, t, dir, NewFiles(batches))
  {
    assert HoldsData(NewFiles(batches), batches);
    assert NewFiles(batches).Keys == {DATA} && |NewFiles(batches)| == |NewFiles(batches).Keys|;
    assert |s[dir]| == 2 ==> !HoldsData(t[dir], batches);
    assert t[dir].Keys != {} && |t[dir]| == |t[dir].Keys|;
  }

  /** Over a whole write, every crash point shows each partition wholly old, gone or wholly new exactly
      when no partition directory held two or more files: directories are removed file by file. */
  lemma WhollyOldOrNewIff(s: Tree, trees: seq<Tree>, column: string, groups: Groups)
    requires AllCrashSafe(s, trees, column, groups) && HalfWay(s, trees, column, groups.Keys)
    requires ContentChanges(s, column, groups)
    ensures
      (forall t <- trees, v | v in groups :: OldOrNothingOrNew(s, t, PartitionDir(column, v), NewFiles(groups[v])))
      <==> (forall v :: v in groups ==> !ManyFiles(s, PartitionDir(column, v)))
  {
    hide PartitionDir, StagingDir, Untouched;
    if v :| v in groups && ManyFiles(s, PartitionDir(column, v)) {
      var dir := PartitionDir(column, v);
      assert SomeHalfRemoved(s, trees, dir);
      var t :| t in trees && HalfRemoved(s, t, dir);
      HalfRemovedShows(s, t, dir, groups[v]);
    } else {
      forall t, v | t in trees && v in groups
        ensures OldOrNothingOrNew(s, t, PartitionDir(column, v), NewFiles(groups[v]))
      {
        var dir := PartitionDir(column, v);
        assert CrashSafe(s, t, column, groups) && !ManyFiles(s, dir);
        if dir in s && dir in t && PartOf(t[dir], s[dir]) {
          FewParts(t[dir], s[dir]);
        }
      }
    }
  }

  /** What this operation writes always has that shape. */
  lemma WrittenPartitionsAreSingleFiles(s: Tree, t: Tree, column: string, groups: Groups, v: string)
    requires Replaced(s, t, column, groups, groups.Keys) && v in groups
    ensures !ManyFiles(t, PartitionDir(column, v))
  {
    hide PartitionDir, StagingDir, Untouched;
    assert NewFiles(groups[v]).Keys == {DATA};
    assert |NewFiles(groups[v])| == |NewFiles(groups[v]).Keys|;
  }

  /** So a partition this operation wrote is replaced whole by the next write of it. */
  lemma RewriteIsWhole(s: Tree, t: Tree, column: string, groups: Groups, trees: seq<Tree>, later: Groups)
    requires Replaced(s, t, column, groups, groups.Keys) && later.Keys <= groups.Keys
    requires AllCrashSafe(t, trees, column, later) && HalfWay(t, trees, column, later.Keys)
    ensures forall u <- trees, v | v in later :: OldOrNothingOrNew(t, u, PartitionDir(column, v), NewFiles(later[v]))
  {
    hide Replaced, AllCrashSafe, HalfWay, PartitionDir, OldOrNothingOrNew, NewFiles;
    forall v | v in later
      ensures !ManyFiles(t, PartitionDir(column, v))
    {
      WrittenPartitionsAreSingleFiles(s, t, column, groups, v);
    }
    WhollyOldOrNewIff(t, trees, column, later);
  }

  /** Writing the same batches again from any crash point ends in the state the uninterrupted write would
      have reached. */
  lemma RerunConverges(s: Tree, crashed: Tree, column: string, batches: seq<Batch>, direct: Tree, rerun: Tree)
    requires CrashSafe(s, crashed, column, GroupsFor(column, batches))
    requires Replaced(s, direct, column, GroupsFor(column, batches), GroupsFor(column, batches).Keys)
    requires Replaced(crashed, rerun, column, GroupsFor(column, batches), GroupsFor(column, batches).Keys)
    ensures rerun == direct
  {
    var groups := GroupsFor(column, batches);
    hide GroupsFor;
    hide PartitionDir, StagingDir, NewFiles, PartitionSafe;
    forall d: string
      ensures SameAt(direct, rerun, d)
    {
      if Touched(column, groups.Keys, d) {
        var v :| v in groups.Keys && (d == PartitionDir(column, v) || d == StagingDir(column, v));
        assert ReplacedAt(direct, PartitionDir(column, v), StagingDir(column, v), NewFiles(groups[v]));
        assert ReplacedAt(rerun, PartitionDir(column, v), StagingDir(column, v), NewFiles(groups[v]));
      } else {
        assert SameAt(s, crashed, d) && SameAt(s, direct, d) && SameAt(crashed, rerun, d);
      }
    }
    SameEverywhere(direct, rerun);
  }

  lemma SameEverywhere(s: Tree, t: Tree)
    requires forall d: string :: SameAt(s, t, d)
    ensures s == t
  {
    forall d: string
      ensures d in s <==> d in t
      ensures d in s ==> s[d] == t[d]
    {
      assert SameAt(s, t, d);
    }
    assert s.Keys == t.Keys;
  }

  // ---- Reading the dataset back ----

  /** The rows of one directory, the partition column decoded from its name. */
  function ReadDir(column: string, name: string, files: Files): seq<Row> {
    var v := DirValue(column, name);
    if v.Some? && DATA in files && files[DATA].Whole?
    then FilterMap(Flatten(files[DATA].batches), WithValueFn(v.value))
    else []
  }

  function ReadTree(column: string, t: Tree, names: seq<string>): seq<Row>
    requires forall d <- names :: d in t
  {
    if names == [] then []
    else
      var n := |names| - 1;
      ReadTree(column, t, names[..n]) + ReadDir(column, names[n], t[names[n]])
  }

  ghost predicate NamesOf(column: string, names: seq<string>, values: seq<string>) {
    |names| == |values| && forall i :: 0 <= i < |names| ==> names[i] == PartitionDir(column, values[i])
  }

  ghost predicate AllReplaced(t: Tree, column: string, groups: Groups) {
    forall v :: v in groups ==> ReplacedAt(t, PartitionDir(column, v), StagingDir(column, v), NewFiles(groups[v]))
  }

  lemma NamedDir(column: string, t: Tree, groups: Groups, names: seq<string>, values: seq<string>, i: nat)
    requires NamesOf(column, names, values) && AllIn(values, groups) && AllReplaced(t, column, groups) && i < |names|
    ensures names[i] in t && values[i] in groups && names[i] == PartitionDir(column, values[i])
    ensures t[names[i]] == NewFiles(groups[values[i]])
  {
    hide PartitionDir, StagingDir, NewFiles;
    assert values[i] in values;
  }

  lemma NamesShorter(column: string, groups: Groups, names: seq<string>, values: seq<string>, n: nat)
    requires NamesOf(column, names, values) && AllIn(values, groups) && n <= |names|
    ensures NamesOf(column, names[..n], values[..n]) && AllIn(values[..n], groups)
  {
    hide PartitionDir;
  }

  lemma {:induction false} ReadTreeIsPartitions(column: string, t: Tree, groups: Groups, names: seq<string>, values: seq<string>)
    requires NamesOf(column, names, values) && AllIn(values, groups) && AllReplaced(t, column, groups)
    ensures forall d <- names :: d in t
    ensures ReadTree(column, t, names) == ReadPartitions(groups, values)
  {
    hide PartitionDir, ReadDir, FilterMap, Flatten, NewFiles, NamesOf, AllReplaced;
    assert |names| == |values| by { NamesLength(column, names, values); }
    forall i | 0 <= i < |names|
      ensures names[i] in t
    {
      NamedDir(column, t, groups, names, values, i);
    }
    if names != [] {
      var n := |names| - 1;
      NamesShorter(column, groups, names, values, n);
      ReadTreeIsPartitions(column, t, groups, names[..n], values[..n]);
      NamedDir(column, t, groups, names, values, n);
      ReadDirIsPartition(column, groups[values[n]], values[n]);
    }
  }

  lemma NamesLength(column: string, names: seq<string>, values: seq<string>)
    requires NamesOf(column, names, values)
    ensures |names| == |values|
  {
  }

  lemma ReadDirIsPartition(column: string, batches: seq<seq<Record>>, v: string)
    ensures ReadDir(column, PartitionDir(column, v), NewFiles(batches)) == FilterMap(Flatten(batches), WithValueFn(v))
  {
    hide PartitionDir, DirValue, FilterMap, Flatten;
    DirValueOf(column, v);
  }

  function ValuesOf(column: string, names: seq<string>): seq<string> {
    seq(|names|, i requires 0 <= i < |names| => var v := DirValue(column, names[i]); if v.Some? then v.value else "")
  }

  lemma OnlyPartitions(column: string, groups: Groups, t: Tree, d: string) returns (v: string)
    requires Replaced(map[], t, column, groups, groups.Keys) && d in t
    ensures v in groups && d == PartitionDir(column, v) && DirValue(column, d) == Some(v)
  {
    hide PartitionDir, StagingDir, NewFiles, DirValue;
    var empty: Tree := map[];
    assert !SameAt(empty, t, d);
    assert Touched(column, groups.Keys, d);
    v :| v in groups.Keys && (d == PartitionDir(column, v) || d == StagingDir(column, v));
    assert ReplacedAt(t, PartitionDir(column, v), StagingDir(column, v), NewFiles(groups[v]));
    DirValueOf(column, v);
  }

  /** Writing into an empty root and reading every directory back, in any order, gives every row once, under
      its own value. */
  lemma DatasetRows(column: string, groups: Groups, rows: seq<Row>, t: Tree, names: seq<string>)
    requires GroupsOf(groups, rows) && NoNulls(rows) && Replaced(map[], t, column, groups, groups.Keys)
    requires Distinct(names) && forall d :: d in names <==> d in t
    ensures multiset(ReadTree(column, t, names)) == multiset(rows)
  {
    hide GroupsOf, NoNulls, PartitionDir, StagingDir, DirValue, ReadTree, ReadPartitions, NewFiles;
    var values := ValuesOf(column, names);
    forall i | 0 <= i < |names|
      ensures values[i] in groups && names[i] == PartitionDir(column, values[i])
    {
      assert names[i] in names;
      var v := OnlyPartitions(column, groups, t, names[i]);
    }
    forall i, j | 0 <= i < j < |names|
      ensures values[i] != values[j]
    {
      assert names[i] != names[j];
    }
    forall v | v in groups
      ensures v in values
    {
      var d := PartitionDir(column, v);
      assert ReplacedAt(t, d, StagingDir(column, v), NewFiles(groups[v]));
      assert d in names;
      var i :| 0 <= i < |names| && names[i] == d;
      DirValueOf(column, v);
      assert values[i] == v;
    }
    ReadTreeIsPartitions(column, t, groups, names, values);
    ReadBack(groups, rows, values);
  }

  /** The rows of the given directories, the decoded value put back in its place. */
  function ReadCells(column: string, t: Tree, names: seq<string>, idx: nat): seq<Cells>
    requires forall d <- names :: d in t
  {
    FilterMap(ReadTree(column, t, names), RejoinFn(idx))
  }

  /** Writing into an empty root and reading every directory back, in any order, gives the cells of the input
      rows, each once: nothing of a row is lost, repeated or moved. */
  lemma DatasetRoundTrip(column: string, batches: seq<Batch>, t: Tree, names: seq<string>)
    requires batches != [] && FirstFault(column, batches).None?
    requires Replaced(map[], t, column, GroupsFor(column, batches), GroupsFor(column, batches).Keys)
    requires Distinct(names) && forall d :: d in names <==> d in t
    ensures column in batches[0].columns
    ensures multiset(ReadCells(column, t, names, IndexOf(batches[0].columns, column).value))
         == multiset(InputCells(batches, |batches[0].columns|))
  {
    hide GroupsOf, GroupsFor, NoNulls, Replaced, ReadTree, InputCells, RowsIn, FirstFault, RejoinFn, FilterMap, IndexOf;
    WideEnough(column, batches);
    GroupsForOf(column, batches);
    DatasetRows(column, GroupsFor(column, batches), AllRows(column, batches), t, names);
    var idx, width := IndexOf(batches[0].columns, column).value, |batches[0].columns|;
    FilterMapPermuted(ReadTree(column, t, names), AllRows(column, batches), RejoinFn(idx));
    RejoinAll(batches, idx, width);
  }

  /** With the first batch's columns at the front of every batch, those are the rows by column name. */
  lemma DatasetByName(column: string, batches: seq<Batch>, schemas: seq<seq<string>>, t: Tree, names: seq<string>)
    requires schemas != [] && HasSchemas(batches, schemas) && FirstFault(column, batches).None?
    requires forall p :: 0 <= p < |schemas[0]| ==> SamePlace(schemas, p)
    requires Replaced(map[], t, column, GroupsFor(column, batches), GroupsFor(column, batches).Keys)
    requires Distinct(names) && forall d :: d in names <==> d in t
    ensures column in schemas[0]
    ensures multiset(ReadCells(column, t, names, IndexOf(schemas[0], column).value)) == multiset(AllNamed(schemas[0], batches))
  {
    hide GroupsOf, GroupsFor, NoNulls, Replaced, AllRows, ReadCells, InputCells, AllNamed, FirstFault, SamePlace, IndexOf;
    DatasetRoundTrip(column, batches, t, names);
    InputIsNamed(column, batches, schemas);
  }
}

/** Replacing partition directories on a local disk: every write the disk sees is recorded, so a crash
    is any prefix of the recorded history. */
module PartitionSwap {
  import opened Lists
  import opened Partition

  /** A file is complete, or was still being written. */
  datatype Content = Whole(batches: seq<seq<Record>>) | Torn

  /** The files of one directory by relative path, and the directories under the root. */
  type Files = map<string, Content>
  type Tree = map<string, Files>

  datatype Result = Done(rows: nat) | Refused(fault: Fault) | RootIsFile | WriteFailed(value: string)

  const DATA := "data.parquet"

  function NewFiles(batches: seq<seq<Record>>): Files {
    map[DATA := Whole(batches)]
  }

  // ---- Comparing trees ----

  predicate SameAt(s: Tree, t: Tree, dir: string) {
    (dir in t <==> dir in s) && (dir in t ==> t[dir] == s[dir])
  }

  ghost predicate SameExcept(s: Tree, t: Tree, dirs: set<string>) {
    forall d :: d !in dirs ==> SameAt(s, t, d)
  }

  predicate PartOf(some: Files, all: Files) {
    some.Keys <= all.Keys && forall f <- some :: some[f] == all[f]
  }

  /** A directory that lost its first file and kept the others, of which there are some. */
  predicate HalfRemoved(s: Tree, t: Tree, dir: string) {
    dir in s && dir in t && PartOf(t[dir], s[dir]) && t[dir] != map[] && t[dir] != s[dir] && |t[dir]| + 1 == |s[dir]|
  }

  ghost predicate Removing(s: Tree, t: Tree, dir: string) {
    dir in s && SameExcept(s, t, {dir}) && (dir in t ==> PartOf(t[dir], s[dir]))
  }

  /** What a crash may leave of one partition: untouched; partly or wholly removed, with the complete
      replacement staged; or replaced. */
  predicate PartitionSafe(s: Tree, t: Tree, dir: string, staging: string, files: Files) {
    || SameAt(s, t, dir)
    || (staging in t && t[staging] == files && dir in s && (dir in t ==> PartOf(t[dir], s[dir])))
    || (dir in t && t[dir] == files && staging !in t)
  }

  ghost predicate Swapping(s: Tree, t: Tree, dir: string, staging: string, files: Files) {
    SameExcept(s, t, {dir, staging}) && PartitionSafe(s, t, dir, staging, files)
  }

  ghost predicate Touched(column: string, values: set<string>, d: string) {
    exists v <- values :: d == PartitionDir(column, v) || d == StagingDir(column, v)
  }

  ghost predicate Untouched(s: Tree, t: Tree, column: string, values: set<string>) {
    forall d :: !Touched(column, values, d) ==> SameAt(s, t, d)
  }

  /** What a crash may leave of the whole tree. */
  ghost predicate CrashSafe(s: Tree, t: Tree, column: string, groups: Groups) {
    && Untouched(s, t, column, groups.Keys)
    && forall v :: v in groups ==> PartitionSafe(s, t, PartitionDir(column, v), StagingDir(column, v), NewFiles(groups[v]))
  }

  predicate ReplacedAt(t: Tree, dir: string, staging: string, files: Files) {
    dir in t && t[dir] == files && staging !in t
  }

  /** The partitions of the given values are replaced, and nothing else differs. */
  ghost predicate Replaced(s: Tree, t: Tree, column: string, groups: Groups, values: set<string>) {
    && values <= groups.Keys && Untouched(s, t, column, values)
    && forall v :: v in values ==> ReplacedAt(t, PartitionDir(column, v), StagingDir(column, v), NewFiles(groups[v]))
  }

  ghost predicate AllSwapping(s: Tree, trees: seq<Tree>, dir: string, staging: string, files: Files) {
    forall t <- trees :: Swapping(s, t, dir, staging, files)
  }

  ghost predicate AllRemoving(s: Tree, trees: seq<Tree>, dir: string) {
    forall t <- trees :: Removing(s, t, dir)
  }

  ghost predicate AllCrashSafe(s: Tree, trees: seq<Tree>, column: string, groups: Groups) {
    forall t <- trees :: CrashSafe(s, t, column, groups)
  }

  ghost predicate SomeHalfRemoved(s: Tree, trees: seq<Tree>, dir: string) {
    exists t <- trees :: HalfRemoved(s, t, dir)
  }

  // ---- The disk ----

  class Disk {
    var tree: Tree
    ghost var history: seq<Tree>

    constructor (tree: Tree)
      ensures this.tree == tree && history == []
    {
      this.tree := tree;
      history := [];
    }

    method RemoveFile(dir: string, file: string)
      requires dir in tree && file in tree[dir]
      modifies this
      ensures tree == old(tree)[dir := old(tree)[dir] - {file}] && history == old(history) + [tree]
    {
      tree := tree[dir := tree[dir] - {file}];
      history := history + [tree];
    }

    method RemoveEmptyDir(dir: string)
      requires dir in tree && tree[dir] == map[]
      modifies this
      ensures tree == old(tree) - {dir} && history == old(history) + [tree]
    {
      tree := tree - {dir};
      history := history + [tree];
    }

    method MakeDir(dir: string)
      requires dir !in tree
      modifies this
      ensures tree == old(tree)[dir := map[]] && history == old(history) + [tree]
    {
      tree := tree[dir := map[]];
      history := history + [tree];
    }

    method PutFile(dir: string, file: string, content: Content)
      requires dir in tree
      modifies this
      ensures tree == old(tree)[dir := old(tree)[dir][file := content]] && history == old(history) + [tree]
    {
      tree := tree[dir := tree[dir][file := content]];
      history := history + [tree];
    }

    /** Atomic, as long as the destination is gone. */
    method Rename(from: string, to: string)
      requires from in tree && to !in tree && from != to
      modifies this
      ensures tree == (old(tree) - {from})[to := old(tree)[from]] && history == old(history) + [tree]
    {
      tree := (tree - {from})[to := tree[from]];
      history := history + [tree];
    }

    /** Not atomic: the files go one at a time, in any order, and then the directory. */
    method RemoveDirAll(dir: string) returns (ghost trees: seq<Tree>)
      requires dir in tree
      modifies this
      ensures tree == old(tree) - {dir} && history == old(history) + trees
      ensures AllRemoving(old(tree), trees, dir)
      ensures |old(tree)[dir]| > 1 ==> SomeHalfRemoved(old(tree), trees, dir)
    {
      hide Removing, AllRemoving, HalfRemoved, SomeHalfRemoved;
      ghost var s := tree;
      trees := [];
      NothingRemoved(s, dir);
      while tree[dir] != map[]
        invariant dir in tree && Removing(s, tree, dir) && AllRemoving(s, trees, dir)
        invariant history == old(history) + trees
        invariant tree[dir] == s[dir] || |s[dir]| <= 1 || SomeHalfRemoved(s, trees, dir)
        decreases |tree[dir]|
      {
        var file :| file in tree[dir];
        ghost var before := tree;
        RemoveFile(dir, file);
        FileRemoved(s, before, trees, dir, file);
        FewerFiles(before[dir], file);
        trees := trees + [tree];
      }
      ghost var before := tree;
      RemoveEmptyDir(dir);
      DirRemoved(s, before, trees, dir);
      trees := trees + [tree];
    }

    /** Creates the file before its content is complete; a failure leaves it torn. */
    method WriteParquet(dir: string, batches: seq<seq<Record>>, fails: bool) returns (ok: bool, ghost trees: seq<Tree>)
      requires dir in tree && tree[dir] == map[]
      modifies this
      ensures ok == !fails && history == old(history) + trees
      ensures dir in tree && SameExcept(old(tree), tree, {dir}) && AllSameExcept(old(tree), trees, {dir})
      ensures ok ==> tree[dir] == NewFiles(batches)
    {
      PutFile(dir, DATA, Torn);
      trees := [tree];
      if fails {
        return false, trees;
      }
      PutFile(dir, DATA, Whole(batches));
      trees := trees + [tree];
      return true, trees;
    }

    /** Remove what is staged, if anything: a crashed run's leftovers or a failed write's torn file. */
    method DropStaging(staging: string) returns (ghost trees: seq<Tree>)
      modifies this
      ensures history == old(history) + trees && staging !in tree
      ensures SameExcept(old(tree), tree, {staging}) && AllSameExcept(old(tree), trees, {staging})
    {
      trees := [];
      if staging in tree {
        hide SameExcept, AllSameExcept, AllRemoving, Removing, SomeHalfRemoved;
        ghost var s := tree;
        trees := RemoveDirAll(staging);
        SameExceptStart(s, {staging});
        RemovedSame(s, s, tree, trees, staging);
      }
    }

    /** Write the new files next to the live directory. */
    method StageFiles(staging: string, batches: seq<seq<Record>>, fails: bool) returns (ok: bool, ghost trees: seq<Tree>)
      modifies this
      ensures ok == !fails && history == old(history) + trees
      ensures SameExcept(old(tree), tree, {staging}) && AllSameExcept(old(tree), trees, {staging})
      ensures if ok then staging in tree && tree[staging] == NewFiles(batches) else staging !in tree
    {
      hide SameExcept, AllSameExcept, NewFiles;
      ghost var s := tree;
      trees := DropStaging(staging);
      MadeSame(s, tree, trees, staging);
      MakeDir(staging);
      ghost var made, before := tree, trees + [tree];
      ghost var more;
      ok, more := WriteParquet(staging, batches, fails);
      WrittenSame(s, made, tree, before, more, staging);
      trees := before + more;
      if !ok {
        ghost var torn := tree;
        more := DropStaging(staging);
        WrittenSame(s, torn, tree, trees, more, staging);
        trees := trees + more;
      }
    }

    /** Remove the old directory, then rename the staged one into its place. */
    method SwapIn(ghost s: Tree, dir: string, staging: string, ghost files: Files) returns (ghost trees: seq<Tree>)
      requires dir != staging && SameExcept(s, tree, {staging}) && staging in tree && tree[staging] == files
      modifies this
      ensures history == old(history) + trees && AllSwapping(s, trees, dir, staging, files)
      ensures SameExcept(s, tree, {dir, staging}) && ReplacedAt(tree, dir, staging, files)
      ensures dir in s && |s[dir]| > 1 ==> SomeHalfRemoved(s, trees, dir)
    {
      hide AllRemoving, AllSwapping, SomeHalfRemoved;
      ghost var staged := tree;
      assert SameAt(s, staged, dir);
      trees := [];
      NoneSwapping(s, dir, staging, files);
      if dir in tree {
        trees := RemoveDirAll(dir);
        RemovalSwaps(s, staged, trees, dir, staging, files);
      }
      RenamedSame(s, staged, dir, staging);
      Rename(staging, dir);
      RenameSwaps(s, tree, trees, dir, staging, files);
      trees := trees + [tree];
    }

    method ReplacePartition(dir: string, staging: string, batches: seq<seq<Record>>, fails: bool)
      returns (ok: bool, ghost trees: seq<Tree>)
      requires dir != staging
      modifies this
      ensures ok == !fails && history == old(history) + trees
      ensures AllSwapping(old(tree), trees, dir, staging, NewFiles(batches))
      ensures SameExcept(old(tree), tree, {dir, staging})
      ensures if ok then ReplacedAt(tree, dir, staging, NewFiles(batches)) else SameAt(old(tree), tree, dir) && staging !in tree
      ensures ok && dir in old(tree) && |old(tree)[dir]| > 1 ==> SomeHalfRemoved(old(tree), trees, dir)
    {
      hide NewFiles, AllSwapping, SomeHalfRemoved, AllSameExcept;
      ghost var s, files, more := tree, NewFiles(batches), [];
      ok, trees := StageFiles(staging, batches, fails);
      StagingSwaps(s, tree, trees, dir, staging, files);
      if ok {
        more := SwapIn(s, dir, staging, files);
        SwapsJoined(s, trees, more, dir, staging, files);
        trees := trees + more;
      }
    }
  }

  // ---- One write at a time ----

  lemma NothingRemoved(s: Tree, dir: string)
    requires dir in s
    ensures Removing(s, s, dir) && AllRemoving(s, [], dir)
  {
  }

  lemma FewerFiles(files: Files, file: string)
    requires file in files
    ensures |files - {file}| < |files|
  {
    assert (files - {file}).Keys == files.Keys - {file};
    assert |files| == |files.Keys| && |files - {file}| == |(files - {file}).Keys|;
  }

  lemma FileRemoved(s: Tree, before: Tree, trees: seq<Tree>, dir: string, file: string)
    requires dir in before && file in before[dir] && Removing(s, before, dir) && AllRemoving(s, trees, dir)
    requires before[dir] == s[dir] || |s[dir]| <= 1 || SomeHalfRemoved(s, trees, dir)
    ensures
      var t := before[dir := before[dir] - {file}];
      && Removing(s, t, dir) && AllRemoving(s, trees + [t], dir)
      && (|s[dir]| <= 1 || SomeHalfRemoved(s, trees + [t], dir))
  {
    var t := before[dir := before[dir] - {file}];
    if |s[dir]| > 1 {
      if SomeHalfRemoved(s, trees, dir) {
        var u :| u in trees && HalfRemoved(s, u, dir);
        assert u in trees + [t];
      } else {
        FewerFiles(s[dir], file);
        assert file !in t[dir] && |t[dir]| == |s[dir]| - 1;
        assert HalfRemoved(s, t, dir);
        assert t in trees + [t];
      }
    }
  }

  lemma DirRemoved(s: Tree, before: Tree, trees: seq<Tree>, dir: string)
    requires Removing(s, before, dir) && AllRemoving(s, trees, dir)
    ensures before - {dir} == s - {dir} && AllRemoving(s, trees + [before - {dir}], dir)
    ensures SomeHalfRemoved(s, trees, dir) ==> SomeHalfRemoved(s, trees + [before - {dir}], dir)
    ensures dir in before && before[dir] == s[dir] && before[dir] == map[] ==> |s[dir]| == 0
  {
    var t := before - {dir};
    assert forall d :: d != dir ==> SameAt(s, before, d);
    assert Removing(s, t, dir);
    if SomeHalfRemoved(s, trees, dir) {
      var u :| u in trees && HalfRemoved(s, u, dir);
      assert u in trees + [t];
    }
  }

  ghost predicate AllSameExcept(s: Tree, trees: seq<Tree>, dirs: set<string>) {
    forall t <- trees :: SameExcept(s, t, dirs)
  }

  lemma SameExceptStart(s: Tree, dirs: set<string>)
    ensures SameExcept(s, s, dirs) && AllSameExcept(s, [], dirs)
  {
  }

  lemma AllSameJoined(s: Tree, a: seq<Tree>, b: seq<Tree>, dirs: set<string>)
    requires AllSameExcept(s, a, dirs) && AllSameExcept(s, b, dirs)
    ensures AllSameExcept(s, a + b, dirs)
  {
    hide SameExcept;
  }

  lemma RemovedSame(s: Tree, u: Tree, t: Tree, trees: seq<Tree>, staging: string)
    requires SameExcept(s, u, {staging}) && AllRemoving(u, trees, staging) && t == u - {staging}
    ensures SameExcept(s, t, {staging}) && AllSameExcept(s, trees, {staging})
    ensures [] + trees == trees
  {
  }

  lemma MadeSame(s: Tree, u: Tree, trees: seq<Tree>, staging: string)
    requires SameExcept(s, u, {staging}) && AllSameExcept(s, trees, {staging})
    ensures
      var t := u[staging := map[]];
      SameExcept(s, t, {staging}) && AllSameExcept(s, trees + [t], {staging})
  {
    var t := u[staging := map[]];
    assert SameExcept(s, t, {staging});
    AllSameJoined(s, trees, [t], {staging});
  }

  lemma WrittenSame(s: Tree, u: Tree, t: Tree, trees: seq<Tree>, more: seq<Tree>, staging: string)
    requires SameExcept(s, u, {staging}) && SameExcept(u, t, {staging})
    requires AllSameExcept(s, trees, {staging}) && AllSameExcept(u, more, {staging})
    ensures SameExcept(s, t, {staging}) && AllSameExcept(s, trees + more, {staging})
  {
    forall x | x in more
      ensures SameExcept(s, x, {staging})
    {
      assert SameExcept(u, x, {staging});
    }
    AllSameJoined(s, trees, more, {staging});
  }

  lemma NoneSwapping(s: Tree, dir: string, staging: string, files: Files)
    ensures AllSwapping(s, [], dir, staging, files)
  {
  }

  lemma RemovalSwaps(s: Tree, u: Tree, trees: seq<Tree>, dir: string, staging: string, files: Files)
    requires dir != staging && SameExcept(s, u, {staging}) && staging in u && u[staging] == files && dir in u
    requires AllRemoving(u, trees, dir)
    ensures AllSwapping(s, trees, dir, staging, files)
    ensures dir in s && s[dir] == u[dir]
    ensures SomeHalfRemoved(u, trees, dir) ==> SomeHalfRemoved(s, trees, dir)
  {
    assert SameAt(s, u, dir);
    forall t | t in trees
      ensures Swapping(s, t, dir, staging, files)
    {
      assert Removing(u, t, dir);
      assert SameAt(u, t, staging);
      forall d | d !in {dir, staging}
        ensures SameAt(s, t, d)
      {
        assert SameAt(s, u, d) && SameAt(u, t, d);
      }
    }
    if SomeHalfRemoved(u, trees, dir) {
      var t :| t in trees && HalfRemoved(u, t, dir);
      assert HalfRemoved(s, t, dir);
    }
  }

  lemma RenamedSame(s: Tree, staged: Tree, dir: string, staging: string)
    requires dir != staging && SameExcept(s, staged, {staging}) && staging in staged
    ensures SameExcept(s, (staged - {dir} - {staging})[dir := staged[staging]], {dir, staging})
    ensures dir !in staged ==> staged - {dir} == staged
  {
    var t := (staged - {dir} - {staging})[dir := staged[staging]];
    forall d | d !in {dir, staging}
      ensures SameAt(s, t, d)
    {
      assert SameAt(s, staged, d);
    }
  }

  lemma RenameSwaps(s: Tree, t: Tree, trees: seq<Tree>, dir: string, staging: string, files: Files)
    requires AllSwapping(s, trees, dir, staging, files) && SameExcept(s, t, {dir, staging}) && ReplacedAt(t, dir, staging, files)
    ensures AllSwapping(s, trees + [t], dir, staging, files)
    ensures SomeHalfRemoved(s, trees, dir) ==> SomeHalfRemoved(s, trees + [t], dir)
  {
    assert Swapping(s, t, dir, staging, files);
    hide Swapping, HalfRemoved;
    if SomeHalfRemoved(s, trees, dir) {
      var u :| u in trees && HalfRemoved(s, u, dir);
      assert u in trees + [t];
    }
  }

  lemma StagingSwaps(s: Tree, t: Tree, trees: seq<Tree>, dir: string, staging: string, files: Files)
    requires dir != staging && AllSameExcept(s, trees, {staging}) && SameExcept(s, t, {staging})
    ensures AllSwapping(s, trees, dir, staging, files)
    ensures SameExcept(s, t, {dir, staging}) && SameAt(s, t, dir)
  {
    forall u | u in trees
      ensures Swapping(s, u, dir, staging, files)
    {
      assert SameExcept(s, u, {staging});
      assert SameAt(s, u, dir);
    }
  }

  lemma SwapsJoined(s: Tree, a: seq<Tree>, b: seq<Tree>, dir: string, staging: string, files: Files)
    requires AllSwapping(s, a, dir, staging, files) && AllSwapping(s, b, dir, staging, files)
    ensures AllSwapping(s, a + b, dir, staging, files)
    ensures SomeHalfRemoved(s, b, dir) ==> SomeHalfRemoved(s, a + b, dir)
  {
    hide Swapping, HalfRemoved;
    if SomeHalfRemoved(s, b, dir) {
      var u :| u in b && HalfRemoved(s, u, dir);
      assert u in a + b;
    }
  }
}

/** What a first import of a tree adds to the counters. */
module FirstImport {
  import opened Wrappers
  import opened Paths
  import opened Index
  import opened Decide
  import opened Walk
  import opened WalkProps

  /** The non-ignored files of the tree. */
  ghost function FileCount(env: Env, src: string, n: Node): nat
    decreases n
  {
    if env.ignored(src) then 0
    else
      match n
      case File(_, _, _) => 1
      case Dir(_, _, _, cs) => FileCountAll(env, src, cs)
      case Vanished(_) => 0
  }

  ghost function FileCountAll(env: Env, dir: string, cs: seq<Node>): nat
    decreases cs
  {
    if cs == [] then 0
    else FileCount(env, SlashJoin(dir, cs[0].name), cs[0]) + FileCountAll(env, dir, cs[1..])
  }

  /** The bytes of the non-ignored files of the tree. */
  ghost function ByteCount(env: Env, src: string, n: Node): nat
    decreases n
  {
    if env.ignored(src) then 0
    else
      match n
      case File(_, size, _) => size
      case Dir(_, _, _, cs) => ByteCountAll(env, src, cs)
      case Vanished(_) => 0
  }

  ghost function ByteCountAll(env: Env, dir: string, cs: seq<Node>): nat
    decreases cs
  {
    if cs == [] then 0
    else ByteCount(env, SlashJoin(dir, cs[0].name), cs[0]) + ByteCountAll(env, dir, cs[1..])
  }

  /** None of the tree's vault names is in the index yet. */
  ghost predicate Fresh(index: map<string, Record>, names: set<string>)
  {
    forall k :: k in names ==> k !in index
  }

  /**
   A successful walk of a tree none of whose names the index knows creates
   every file once: `fileCount` grows by the number of files and `totalSize`
   by the sum of their sizes.
   */
  lemma {:induction false} FirstImportCounts(s: State, env: Env, copyOk: string -> bool, src: string, rel: string, isRoot: bool, n: Node)
    decreases n
    requires Distinct(env, src, rel, isRoot, n)
    requires Fresh(s.index, Dests(env, src, rel, isRoot, n))
    requires Consume(s, env, copyOk, src, rel, isRoot, n).err.None?
    ensures var r := Consume(s, env, copyOk, src, rel, isRoot, n).state;
      r.fileCount == s.fileCount + FileCount(env, src, n) && r.totalSize == Plus(s.totalSize, ByteCount(env, src, n))
  {
    if !env.ignored(src) {
      match n
      case File(_, _, _) =>
        assert DestOf(env, rel, isRoot, n) in Dests(env, src, rel, isRoot, n);
      case Dir(_, mtime, _, cs) =>
        var dest := DestOf(env, rel, isRoot, n);
        var s1 := EnterDir(s, dest, mtime);
        assert Fresh(s1.index, DestsAll(env, src, rel, cs));
        FirstImportAllCounts(s1, env, copyOk, src, rel, cs);
      case Vanished(_) =>
    } else {
      assert s.totalSize == Plus(s.totalSize, 0) by { if s.totalSize.Bytes? { } }
    }
  }

  lemma {:induction false} FirstImportAllCounts(s: State, env: Env, copyOk: string -> bool, dir: string, rel: string, cs: seq<Node>)
    decreases cs
    requires DistinctAll(env, dir, rel, cs)
    requires Fresh(s.index, DestsAll(env, dir, rel, cs))
    requires ConsumeAll(s, env, copyOk, dir, rel, cs).err.None?
    ensures var r := ConsumeAll(s, env, copyOk, dir, rel, cs).state;
      r.fileCount == s.fileCount + FileCountAll(env, dir, cs) && r.totalSize == Plus(s.totalSize, ByteCountAll(env, dir, cs))
  {
    if cs == [] {
      assert s.totalSize == Plus(s.totalSize, 0) by { if s.totalSize.Bytes? { } }
    } else {
      var c := cs[0];
      var src, crel := SlashJoin(dir, c.name), SlashJoin(rel, c.name);
      FirstImportCounts(s, env, copyOk, src, crel, false, c);
      ConsumeFrame(s, env, copyOk, src, crel, false, c);
      var r0 := Consume(s, env, copyOk, src, crel, false, c);
      forall k | k in DestsAll(env, dir, rel, cs[1..])
        ensures k !in r0.state.index
      {
        assert Lookup(r0.state.index, k) == Lookup(s.index, k);
      }
      FirstImportAllCounts(r0.state, env, copyOk, dir, rel, cs[1..]);
    }
  }
}

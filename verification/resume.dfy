/**
 Resume: folding the vault's listing into the index and counters before the
 first decision, and the top-level import that runs seeding, then the walk.
 */
module Resume {
  import opened Wrappers
  import opened Index
  import opened Decide
  import opened Walk
  import opened WalkProps
  import opened FirstImport

  /** One entry of `vault.list({live: false})`. */
  datatype Listed = Listed(name: string, isDirectory: bool, length: Option<nat>, mtime: int)

  /** The listing stream: the entries it delivered, and whether it ended in an error. */
  datatype Listing = Listing(entries: seq<Listed>, failed: bool)

  /**
   The 'data' handler: the entry becomes the index record for its name,
   replacing any earlier one; a non-directory entry counts as a file and adds
   its length to the byte total.
   */
  function SeedOne(s: State, e: Listed): State
  {
    var s1 := s.(index := s.index[e.name := Record(e.length, e.mtime)]);
    if e.isDirectory then s1
    else s1.(fileCount := s.fileCount + 1, totalSize := AddLength(s.totalSize, e.length))
  }

  /** The listing folded into the state, in stream order. */
  function Seed(s: State, es: seq<Listed>): (r: State)
    decreases |es|
    ensures r.log == s.log
    ensures s.fileCount <= r.fileCount
    ensures s.index.Keys <= r.index.Keys
  {
    if es == [] then s else Seed(SeedOne(s, es[0]), es[1..])
  }

  /** The non-directory entries of a listing, by position. */
  ghost function FilePositions(es: seq<Listed>): set<int>
  {
    set i | 0 <= i < |es| && !es[i].isDirectory
  }

  /** The bytes of the non-directory entries of a listing. */
  function ListedBytes(es: seq<Listed>): int
  {
    if es == [] then 0
    else
      var last := es[|es| - 1];
      ListedBytes(es[..|es| - 1]) + (if !last.isDirectory && last.length.Some? then last.length.value else 0)
  }

  /**
   The top-level invocation. With `resume`, the listing is folded in first
   and the walk starts only when it ended; a listing error goes to the
   callback and no walk happens. Without `resume`, the walk starts from an
   empty index.
   */
  function Import(env: Env, copyOk: string -> bool, target: string, root: Node, resume: bool, vault: Listing): (r: Step)
    ensures resume && vault.failed ==> r.err == Some(ListingFailed) && r.state.log == []
    ensures resume && vault.failed ==> r == Step(Seed(Initial, vault.entries), Some(ListingFailed))
    ensures resume ==> Seed(Initial, vault.entries).fileCount <= r.state.fileCount
    ensures resume ==> Seed(Initial, vault.entries).index.Keys <= r.state.index.Keys
  {
    if !resume then WalkTarget(Initial, env, copyOk, target, root)
    else
      var seeded := Seed(Initial, vault.entries);
      if vault.failed then Step(seeded, Some(ListingFailed))
      else WalkTarget(seeded, env, copyOk, target, root)
  }

  // ---------------------------------------------------------------------------
  // Seeding

  /** Seeding two listings in turn is seeding their concatenation. */
  lemma {:induction false} SeedAppend(s: State, a: seq<Listed>, b: seq<Listed>)
    decreases |a|
    ensures Seed(s, a + b) == Seed(Seed(s, a), b)
  {
    if a != [] {
      assert (a + b)[1..] == a[1..] + b;
      SeedAppend(SeedOne(s, a[0]), a[1..], b);
    } else {
      assert a + b == b;
    }
  }

  lemma SeedSnoc(s: State, es: seq<Listed>, e: Listed)
    ensures Seed(s, es + [e]) == SeedOne(Seed(s, es), e)
  {
    SeedAppend(s, es, [e]);
  }

  /** A name the listing never mentions keeps its record (or its absence). */
  lemma {:induction false} SeedLeavesUnlisted(s: State, es: seq<Listed>, name: string)
    decreases |es|
    requires forall j :: 0 <= j < |es| ==> es[j].name != name
    ensures Lookup(Seed(s, es).index, name) == Lookup(s.index, name)
  {
    if es != [] {
      SeedLeavesUnlisted(SeedOne(s, es[0]), es[1..], name);
    }
  }

  /** The last listed entry for a name is the one its index record comes from. */
  lemma SeedLastWins(s: State, es: seq<Listed>, i: int)
    requires 0 <= i < |es|
    requires forall j :: i < j < |es| ==> es[j].name != es[i].name
    ensures Lookup(Seed(s, es).index, es[i].name) == Some(Record(es[i].length, es[i].mtime))
  {
    assert es == es[..i] + [es[i]] + es[i + 1..];
    SeedAppend(s, es[..i] + [es[i]], es[i + 1..]);
    SeedSnoc(s, es[..i], es[i]);
    SeedLeavesUnlisted(Seed(s, es[..i] + [es[i]]), es[i + 1..], es[i].name);
  }

  /** Every non-directory entry of the listing carries a length. */
  ghost predicate AllLengths(es: seq<Listed>)
  {
    forall i :: 0 <= i < |es| && !es[i].isDirectory ==> es[i].length.Some?
  }

  lemma FilePositionsSnoc(init: seq<Listed>, last: Listed)
    ensures FilePositions(init + [last]) == FilePositions(init) + (if last.isDirectory then {} else {|init|})
  {
    var es := init + [last];
    forall i | 0 <= i < |init|
      ensures es[i] == init[i]
    {
    }
  }

  /** Every non-directory entry counts once as a file, repeated names included. */
  lemma {:induction false} SeedCounts(s: State, es: seq<Listed>)
    decreases |es|
    ensures Seed(s, es).fileCount == s.fileCount + |FilePositions(es)|
  {
    if es == [] {
      assert FilePositions(es) == {};
    } else {
      var init, last := es[..|es| - 1], es[|es| - 1];
      assert es == init + [last];
      SeedCounts(s, init);
      SeedSnoc(s, init, last);
      FilePositionsSnoc(init, last);
    }
  }

  /**
   The byte total grows by the lengths of the non-directory entries, and
   becomes NaN once one of them has no length.
   */
  lemma {:induction false} SeedTotal(s: State, es: seq<Listed>)
    decreases |es|
    ensures AllLengths(es) ==> Seed(s, es).totalSize == Plus(s.totalSize, ListedBytes(es))
    ensures !AllLengths(es) ==> Seed(s, es).totalSize == NaN
  {
    if es == [] {
      assert s.totalSize == Plus(s.totalSize, 0) by { if s.totalSize.Bytes? { } }
    } else {
      var init, last := es[..|es| - 1], es[|es| - 1];
      assert es == init + [last];
      SeedTotal(s, init);
      SeedSnoc(s, init, last);
      if AllLengths(es) {
        assert AllLengths(init) by {
          forall i | 0 <= i < |init| && !init[i].isDirectory
            ensures init[i].length.Some?
          {
            assert init[i] == es[i];
          }
        }
      } else if AllLengths(init) {
        assert !last.isDirectory && last.length.None? by {
          var i :| 0 <= i < |es| && !es[i].isDirectory && es[i].length.None?;
          if i < |init| {
            assert init[i] == es[i];
          }
        }
      }
    }
  }

  // ---------------------------------------------------------------------------
  // The vault listing an import leaves behind

  /** The vault entry a logged write creates; notifications create none. */
  function ListedOf(e: Event): seq<Listed>
  {
    match e
    case Marker(name, mtime) => [Listed(name, true, None, mtime)]
    case Written(name, length, mtime) => [Listed(name, false, Some(length), mtime)]
    case _ => []
  }

  /** What `vault.list` reports after the logged writes, in append order. */
  function ListingOf(log: seq<Event>): seq<Listed>
  {
    if log == [] then [] else ListedOf(log[0]) + ListingOf(log[1..])
  }

  lemma {:induction false} ListingOfAppend(a: seq<Event>, b: seq<Event>)
    ensures ListingOf(a + b) == ListingOf(a) + ListingOf(b)
  {
    if a != [] {
      assert (a + b)[1..] == a[1..] + b;
      ListingOfAppend(a[1..], b);
    } else {
      assert a + b == b;
    }
  }

  /** Seeding from the vault's listing of this state's writes rebuilds its index and counters. */
  ghost predicate Coherent(s: State)
  {
    var t := Seed(Initial, ListingOf(s.log));
    t.index == s.index && t.fileCount == s.fileCount && t.totalSize == s.totalSize
  }

  lemma CoherentAfter(s: State, events: seq<Event>, t: State)
    requires Coherent(s)
    requires t.log == s.log + events
    requires Seed(Seed(Initial, ListingOf(s.log)), ListingOf(events)) == t.(log := [])
    ensures Coherent(t)
  {
    ListingOfAppend(s.log, events);
    SeedAppend(Initial, ListingOf(s.log), ListingOf(events));
  }

  /**
   A first import keeps the vault and the state coherent: every directory
   gets a marker and every file a completed write, in the order the index and
   counters took them in.
   */
  lemma {:induction false} FreshWalkCoherent(s: State, env: Env, copyOk: string -> bool, src: string, rel: string, isRoot: bool, n: Node)
    decreases n
    requires Coherent(s)
    requires Distinct(env, src, rel, isRoot, n)
    requires Fresh(s.index, Dests(env, src, rel, isRoot, n))
    requires Consume(s, env, copyOk, src, rel, isRoot, n).err.None?
    ensures Coherent(Consume(s, env, copyOk, src, rel, isRoot, n).state)
  {
    if !env.ignored(src) {
      var dest := DestOf(env, rel, isRoot, n);
      match n
      case File(_, size, mtime) =>
        assert dest in Dests(env, src, rel, isRoot, n);
        var r := Consume(s, env, copyOk, src, rel, isRoot, n);
        var e := Listed(dest, false, Some(size), mtime);
        var written := [Written(dest, size, mtime), Imported(src, Created)];
        assert written[1..] == [Imported(src, Created)];
        assert ListingOf(written[1..]) == [];
        assert ListingOf(written) == [e];
        CoherentAfter(s, [Written(dest, size, mtime), Imported(src, Created)], r.state);
      case Dir(_, mtime, _, cs) =>
        var s1 := EnterDir(s, dest, mtime);
        var e := Listed(dest, true, None, mtime);
        assert ListingOf([Marker(dest, mtime)]) == [e];
        CoherentAfter(s, [Marker(dest, mtime)], s1);
        assert Fresh(s1.index, DestsAll(env, src, rel, cs));
        FreshWalkAllCoherent(s1, env, copyOk, src, rel, cs);
      case Vanished(_) =>
    }
  }

  lemma {:induction false} FreshWalkAllCoherent(s: State, env: Env, copyOk: string -> bool, dir: string, rel: string, cs: seq<Node>)
    decreases cs
    requires Coherent(s)
    requires DistinctAll(env, dir, rel, cs)
    requires Fresh(s.index, DestsAll(env, dir, rel, cs))
    requires ConsumeAll(s, env, copyOk, dir, rel, cs).err.None?
    ensures Coherent(ConsumeAll(s, env, copyOk, dir, rel, cs).state)
  {
    if cs != [] {
      var c := cs[0];
      var src, crel := Paths.SlashJoin(dir, c.name), Paths.SlashJoin(rel, c.name);
      FreshWalkCoherent(s, env, copyOk, src, crel, false, c);
      ConsumeFrame(s, env, copyOk, src, crel, false, c);
      var r0 := Consume(s, env, copyOk, src, crel, false, c);
      forall k | k in DestsAll(env, dir, rel, cs[1..])
        ensures k !in r0.state.index
      {
        assert Lookup(r0.state.index, k) == Lookup(s.index, k);
      }
      FreshWalkAllCoherent(r0.state, env, copyOk, dir, rel, cs[1..]);
    }
  }

  /**
   Resume round trip: import a tree into an empty vault, then import the same
   tree again with `resume` from the vault's listing. The second run reports
   no error, transfers nothing and appends no marker, only announces skipped
   files, and ends with the first run's index and counters.
   */
  lemma ResumeRoundTrip(env: Env, copyOk: string -> bool, again: string -> bool, target: string, root: Node)
    requires Distinct(env, target, "", true, root)
    requires Import(env, copyOk, target, root, false, Listing([], false)).err.None?
    ensures var first := Import(env, copyOk, target, root, false, Listing([], false)).state;
      var second := Import(env, again, target, root, true, Listing(ListingOf(first.log), false));
      && second.err.None?
      && second.state.index == first.index
      && second.state.fileCount == first.fileCount
      && second.state.totalSize == first.totalSize
      && SkipsOnly([], second.state.log)
  {
    assert Coherent(Initial);
    FreshWalkCoherent(Initial, env, copyOk, target, "", true, root);
    WalkSyncs(Initial, env, copyOk, target, "", true, root);
    var first := Import(env, copyOk, target, root, false, Listing([], false)).state;
    var seeded := Seed(Initial, ListingOf(first.log));
    assert seeded == first.(log := []);
    SyncedWalkSkips(seeded, env, again, target, "", true, root);
  }
}

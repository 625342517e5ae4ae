/**
 Properties of the tree walk: which index entries a walk can touch, what a
 successful walk leaves in the index, why a second walk over an unchanged tree
 only skips, what the counters grow by on a first import, and that ignored
 paths are never announced.
 */
module WalkProps {
  import opened Wrappers
  import opened Paths
  import opened Index
  import opened Decide
  import opened Walk

  /** The vault names a walk of `n` may write: those of its non-ignored nodes. */
  ghost function Dests(env: Env, src: string, rel: string, isRoot: bool, n: Node): set<string>
    decreases n
  {
    if env.ignored(src) then {}
    else
      match n
      case Vanished(_) => {}
      case File(_, _, _) => {DestOf(env, rel, isRoot, n)}
      case Dir(_, _, _, cs) => {DestOf(env, rel, isRoot, n)} + DestsAll(env, src, rel, cs)
  }

  ghost function DestsAll(env: Env, dir: string, rel: string, cs: seq<Node>): set<string>
    decreases cs
  {
    if cs == [] then {}
    else Dests(env, SlashJoin(dir, cs[0].name), SlashJoin(rel, cs[0].name), false, cs[0])
         + DestsAll(env, dir, rel, cs[1..])
  }

  /** No two non-ignored nodes of the tree share a vault name. */
  ghost predicate Distinct(env: Env, src: string, rel: string, isRoot: bool, n: Node)
    decreases n
  {
    env.ignored(src) ||
    match n
    case Dir(_, _, _, cs) => DestOf(env, rel, isRoot, n) !in DestsAll(env, src, rel, cs) && DistinctAll(env, src, rel, cs)
    case _ => true
  }

  ghost predicate DistinctAll(env: Env, dir: string, rel: string, cs: seq<Node>)
    decreases cs
  {
    cs == [] ||
    (var c := cs[0];
     && Distinct(env, SlashJoin(dir, c.name), SlashJoin(rel, c.name), false, c)
     && Dests(env, SlashJoin(dir, c.name), SlashJoin(rel, c.name), false, c) !! DestsAll(env, dir, rel, cs[1..])
     && DistinctAll(env, dir, rel, cs[1..]))
  }

  /**
   The index already describes every non-ignored node of the tree: each file
   by its exact length and mtime, each directory by its mtime, and every
   directory can be listed.
   */
  ghost predicate Synced(index: map<string, Record>, env: Env, src: string, rel: string, isRoot: bool, n: Node)
    decreases n
  {
    env.ignored(src) ||
    match n
    case Vanished(_) => false
    case File(_, size, mtime) => Lookup(index, DestOf(env, rel, isRoot, n)) == Some(FileRecord(size, mtime))
    case Dir(_, mtime, readable, cs) =>
      var dest := DestOf(env, rel, isRoot, n);
      && readable
      && dest in index && index[dest].mtime == mtime
      && SyncedAll(index, env, src, rel, cs)
  }

  ghost predicate SyncedAll(index: map<string, Record>, env: Env, dir: string, rel: string, cs: seq<Node>)
    decreases cs
  {
    cs == [] ||
    (&& Synced(index, env, SlashJoin(dir, cs[0].name), SlashJoin(rel, cs[0].name), false, cs[0])
     && SyncedAll(index, env, dir, rel, cs[1..]))
  }

  ghost predicate AgreeOutside(a: map<string, Record>, b: map<string, Record>, names: set<string>)
  {
    forall k :: k !in names ==> Lookup(a, k) == Lookup(b, k)
  }

  ghost predicate AgreeOn(a: map<string, Record>, b: map<string, Record>, names: set<string>)
  {
    forall k :: k in names ==> Lookup(a, k) == Lookup(b, k)
  }

  /** Notifications appended after `prefix` never name an ignored path. */
  ghost predicate NotifiesOnlyKept(env: Env, prefix: seq<Event>, log: seq<Event>)
  {
    forall i :: |prefix| <= i < |log| && (log[i].Imported? || log[i].Skipped?) ==> !env.ignored(log[i].path)
  }

  /** Vault writes appended after `prefix` only name members of `names`. */
  ghost predicate WritesWithin(names: set<string>, prefix: seq<Event>, log: seq<Event>)
  {
    forall i :: |prefix| <= i < |log| && (log[i].Marker? || log[i].Written?) ==> log[i].name in names
  }

  // ---------------------------------------------------------------------------
  // Footprint

  /** A walk of `n` changes the index only at the vault names of `n`'s non-ignored nodes. */
  lemma {:induction false} ConsumeFrame(s: State, env: Env, copyOk: string -> bool, src: string, rel: string, isRoot: bool, n: Node)
    decreases n
    ensures AgreeOutside(Consume(s, env, copyOk, src, rel, isRoot, n).state.index, s.index, Dests(env, src, rel, isRoot, n))
  {
    if !env.ignored(src) && n.Dir? && n.readable {
      var s1 := EnterDir(s, DestOf(env, rel, isRoot, n), n.mtime);
      ConsumeAllFrame(s1, env, copyOk, src, rel, n.children);
    }
  }

  lemma {:induction false} ConsumeAllFrame(s: State, env: Env, copyOk: string -> bool, dir: string, rel: string, cs: seq<Node>)
    decreases cs
    ensures AgreeOutside(ConsumeAll(s, env, copyOk, dir, rel, cs).state.index, s.index, DestsAll(env, dir, rel, cs))
  {
    if cs != [] {
      var c := cs[0];
      var src, crel := SlashJoin(dir, c.name), SlashJoin(rel, c.name);
      ConsumeFrame(s, env, copyOk, src, crel, false, c);
      var r0 := Consume(s, env, copyOk, src, crel, false, c);
      if r0.err.None? {
        ConsumeAllFrame(r0.state, env, copyOk, dir, rel, cs[1..]);
      }
    }
  }

  /**
   The vault writes of a walk of `n` name only `n`'s non-ignored nodes, and
   its notifications only non-ignored source paths.
   */
  lemma {:induction false} ConsumeWrites(s: State, env: Env, copyOk: string -> bool, src: string, rel: string, isRoot: bool, n: Node)
    decreases n
    ensures var r := Consume(s, env, copyOk, src, rel, isRoot, n);
      && WritesWithin(Dests(env, src, rel, isRoot, n), s.log, r.state.log)
      && NotifiesOnlyKept(env, s.log, r.state.log)
  {
    if !env.ignored(src) && n.Dir? && n.readable {
      var s1 := EnterDir(s, DestOf(env, rel, isRoot, n), n.mtime);
      ConsumeAllWrites(s1, env, copyOk, src, rel, n.children);
    }
  }

  lemma {:induction false} ConsumeAllWrites(s: State, env: Env, copyOk: string -> bool, dir: string, rel: string, cs: seq<Node>)
    decreases cs
    ensures var r := ConsumeAll(s, env, copyOk, dir, rel, cs);
      && WritesWithin(DestsAll(env, dir, rel, cs), s.log, r.state.log)
      && NotifiesOnlyKept(env, s.log, r.state.log)
  {
    if cs != [] {
      var c := cs[0];
      var src, crel := SlashJoin(dir, c.name), SlashJoin(rel, c.name);
      ConsumeWrites(s, env, copyOk, src, crel, false, c);
      var r0 := Consume(s, env, copyOk, src, crel, false, c);
      if r0.err.None? {
        ConsumeAllWrites(r0.state, env, copyOk, dir, rel, cs[1..]);
      }
    }
  }

  /**
   `run-series` semantics: a listing is walked as its first part and then its
   rest, in order, and once the first part has failed the rest is never
   visited and its error is the one reported.
   */
  lemma {:induction false} SeriesComposes(s: State, env: Env, copyOk: string -> bool, dir: string, rel: string, a: seq<Node>, b: seq<Node>)
    decreases a
    ensures var ra := ConsumeAll(s, env, copyOk, dir, rel, a);
      ConsumeAll(s, env, copyOk, dir, rel, a + b) ==
        if ra.err.Some? then ra else ConsumeAll(ra.state, env, copyOk, dir, rel, b)
  {
    if a == [] {
      assert a + b == b;
    } else {
      assert (a + b)[0] == a[0] && (a + b)[1..] == a[1..] + b;
      var c := a[0];
      var r0 := Consume(s, env, copyOk, SlashJoin(dir, c.name), SlashJoin(rel, c.name), false, c);
      if r0.err.None? {
        SeriesComposes(r0.state, env, copyOk, dir, rel, a[1..], b);
      }
    }
  }

  /** An ignored target: no stat, no notification, no counter or index change. */
  lemma IgnoredTargetIsInert(s: State, env: Env, copyOk: string -> bool, target: string, root: Node)
    requires env.ignored(target)
    ensures WalkTarget(s, env, copyOk, target, root) == Step(s, None)
  {
  }

  // ---------------------------------------------------------------------------
  // A successful walk leaves the index synced

  lemma {:induction false} SyncedStable(a: map<string, Record>, b: map<string, Record>, env: Env, src: string, rel: string, isRoot: bool, n: Node)
    decreases n
    requires Synced(a, env, src, rel, isRoot, n)
    requires AgreeOn(a, b, Dests(env, src, rel, isRoot, n))
    ensures Synced(b, env, src, rel, isRoot, n)
  {
    if !env.ignored(src) && n.Dir? {
      var dest := DestOf(env, rel, isRoot, n);
      assert Lookup(a, dest) == Lookup(b, dest);
      SyncedAllStable(a, b, env, src, rel, n.children);
    }
  }

  lemma {:induction false} SyncedAllStable(a: map<string, Record>, b: map<string, Record>, env: Env, dir: string, rel: string, cs: seq<Node>)
    decreases cs
    requires SyncedAll(a, env, dir, rel, cs)
    requires AgreeOn(a, b, DestsAll(env, dir, rel, cs))
    ensures SyncedAll(b, env, dir, rel, cs)
  {
    if cs != [] {
      SyncedStable(a, b, env, SlashJoin(dir, cs[0].name), SlashJoin(rel, cs[0].name), false, cs[0]);
      SyncedAllStable(a, b, env, dir, rel, cs[1..]);
    }
  }

  /** After a walk that reports no error, the index describes every non-ignored node of the tree. */
  lemma {:induction false} WalkSyncs(s: State, env: Env, copyOk: string -> bool, src: string, rel: string, isRoot: bool, n: Node)
    decreases n
    requires Distinct(env, src, rel, isRoot, n)
    requires Consume(s, env, copyOk, src, rel, isRoot, n).err.None?
    ensures Synced(Consume(s, env, copyOk, src, rel, isRoot, n).state.index, env, src, rel, isRoot, n)
  {
    if !env.ignored(src) && n.Dir? {
      var dest := DestOf(env, rel, isRoot, n);
      var s1 := EnterDir(s, dest, n.mtime);
      WalkAllSyncs(s1, env, copyOk, src, rel, n.children);
      ConsumeAllFrame(s1, env, copyOk, src, rel, n.children);
      var r := ConsumeAll(s1, env, copyOk, src, rel, n.children);
      assert Lookup(r.state.index, dest) == Lookup(s1.index, dest);
    }
  }

  lemma {:induction false} WalkAllSyncs(s: State, env: Env, copyOk: string -> bool, dir: string, rel: string, cs: seq<Node>)
    decreases cs
    requires DistinctAll(env, dir, rel, cs)
    requires ConsumeAll(s, env, copyOk, dir, rel, cs).err.None?
    ensures SyncedAll(ConsumeAll(s, env, copyOk, dir, rel, cs).state.index, env, dir, rel, cs)
  {
    if cs != [] {
      var c := cs[0];
      var src, crel := SlashJoin(dir, c.name), SlashJoin(rel, c.name);
      var r0 := Consume(s, env, copyOk, src, crel, false, c);
      WalkSyncs(s, env, copyOk, src, crel, false, c);
      WalkAllSyncs(r0.state, env, copyOk, dir, rel, cs[1..]);
      ConsumeAllFrame(r0.state, env, copyOk, dir, rel, cs[1..]);
      var r := ConsumeAll(r0.state, env, copyOk, dir, rel, cs[1..]);
      SyncedStable(r0.state.index, r.state.index, env, src, crel, false, c);
    }
  }

  // ---------------------------------------------------------------------------
  // A synced tree is only skipped

  lemma SkipsOnlyTrans(a: seq<Event>, b: seq<Event>, c: seq<Event>)
    requires SkipsOnly(a, b) && SkipsOnly(b, c)
    ensures SkipsOnly(a, c)
  {
    forall i | |a| <= i < |c|
      ensures c[i].Skipped?
    {
      if i < |b| {
        assert c[i] == c[..|b|][i] == b[i];
      }
    }
  }

  /**
   Walking a tree the index already describes reports no error, transfers
   nothing, appends no directory marker, keeps index and counters, and only
   announces skipped files, whatever the copy outcomes would have been.
   */
  lemma {:induction false} SyncedWalkSkips(s: State, env: Env, copyOk: string -> bool, src: string, rel: string, isRoot: bool, n: Node)
    decreases n
    requires Synced(s.index, env, src, rel, isRoot, n)
    ensures var r := Consume(s, env, copyOk, src, rel, isRoot, n);
      r.err.None? && r.state.(log := s.log) == s && SkipsOnly(s.log, r.state.log)
  {
    if !env.ignored(src) && n.Dir? {
      var s1 := EnterDir(s, DestOf(env, rel, isRoot, n), n.mtime);
      assert s1 == s;
      SyncedAllSkips(s, env, copyOk, src, rel, n.children);
    }
  }

  lemma {:induction false} SyncedAllSkips(s: State, env: Env, copyOk: string -> bool, dir: string, rel: string, cs: seq<Node>)
    decreases cs
    requires SyncedAll(s.index, env, dir, rel, cs)
    ensures var r := ConsumeAll(s, env, copyOk, dir, rel, cs);
      r.err.None? && r.state.(log := s.log) == s && SkipsOnly(s.log, r.state.log)
  {
    if cs != [] {
      var c := cs[0];
      var src, crel := SlashJoin(dir, c.name), SlashJoin(rel, c.name);
      SyncedWalkSkips(s, env, copyOk, src, crel, false, c);
      var r0 := Consume(s, env, copyOk, src, crel, false, c);
      assert r0.state.index == s.index;
      SyncedAllSkips(r0.state, env, copyOk, dir, rel, cs[1..]);
      var r := ConsumeAll(r0.state, env, copyOk, dir, rel, cs[1..]);
      SkipsOnlyTrans(s.log, r0.state.log, r.state.log);
    }
  }

  /**
   Idempotence: after a successful import, importing the unchanged tree again
   in the same run only skips: no error, no transfer, no marker, the same
   index and counters.
   */
  lemma WalkTwiceOnlySkips(s: State, env: Env, copyOk: string -> bool, again: string -> bool, target: string, root: Node)
    requires Distinct(env, target, "", true, root)
    requires WalkTarget(s, env, copyOk, target, root).err.None?
    ensures var t := WalkTarget(s, env, copyOk, target, root).state;
      var u := WalkTarget(t, env, again, target, root);
      u.err.None? && u.state.(log := t.log) == t && SkipsOnly(t.log, u.state.log)
  {
    WalkSyncs(s, env, copyOk, target, "", true, root);
    var t := WalkTarget(s, env, copyOk, target, root).state;
    SyncedWalkSkips(t, env, again, target, "", true, root);
  }
}


/**
 The concrete runs the repository's tests pin down, on a fixture directory
 `c` holding `d.txt` (4 bytes) and `e.txt` (5 bytes).
 */
module Scenarios {
  import opened Wrappers
  import opened Index
  import opened Decide
  import opened Paths
  import opened Walk
  import opened Resume

  const Target := "/fixture/a/b/c"
  const D := File("d.txt", 4, 1000)
  const E := File("e.txt", 5, 2000)
  const Fixture := Dir("c", 500, true, [D, E])

  /** No ignore option. */
  predicate NeverIgnored(path: string) { false }

  /** Every copy succeeds. */
  predicate CopyAll(path: string) { true }

  const Plain := Env("", NeverIgnored)
  const Based := Env("foo/bar", NeverIgnored)

  /** The series over two children, unfolded. */
  lemma TwoChildren(s: State, env: Env, copyOk: string -> bool, dir: string, rel: string, a: Node, b: Node)
    ensures var ra := Consume(s, env, copyOk, SlashJoin(dir, a.name), SlashJoin(rel, a.name), false, a);
      var rb := Consume(ra.state, env, copyOk, SlashJoin(dir, b.name), SlashJoin(rel, b.name), false, b);
      ConsumeAll(s, env, copyOk, dir, rel, [a, b]) == if ra.err.Some? then ra else rb
  {
    var ra := Consume(s, env, copyOk, SlashJoin(dir, a.name), SlashJoin(rel, a.name), false, a);
    var rb := Consume(ra.state, env, copyOk, SlashJoin(dir, b.name), SlashJoin(rel, b.name), false, b);
    assert [a, b][1..] == [b] && [b][1..] == [];
    assert ConsumeAll(rb.state, env, copyOk, dir, rel, []) == Step(rb.state, None);
  }

  lemma ListingOfCons(x: Event, rest: seq<Event>)
    ensures ListingOf([x] + rest) == ListedOf(x) + ListingOf(rest)
  {
    assert ([x] + rest)[1..] == rest;
  }

  /** The listing left by a directory marker and two file writes, each followed by its notification. */
  lemma ThreeWrites(m: Event, d: Event, di: Event, e: Event, ei: Event)
    requires m.Marker? && d.Written? && e.Written? && di.Imported? && ei.Imported?
    ensures ListingOf([m, d, di, e, ei]) == ListedOf(m) + ListedOf(d) + ListedOf(e)
  {
    var l1 := ListingOf([ei]);
    assert l1 == [] by { ListingOfCons(ei, []); assert [ei] + [] == [ei]; }
    var l2 := ListingOf([e, ei]);
    assert l2 == ListedOf(e) by { ListingOfCons(e, [ei]); assert [e] + [ei] == [e, ei]; }
    var l3 := ListingOf([di, e, ei]);
    assert l3 == ListedOf(e) by { ListingOfCons(di, [e, ei]); assert [di] + [e, ei] == [di, e, ei]; }
    var l4 := ListingOf([d, di, e, ei]);
    assert l4 == ListedOf(d) + ListedOf(e) by { ListingOfCons(d, [di, e, ei]); assert [d] + [di, e, ei] == [d, di, e, ei]; }
    ListingOfCons(m, [d, di, e, ei]);
    assert [m] + [d, di, e, ei] == [m, d, di, e, ei];
  }

  /** A known file whose record differs, copied successfully: updated. */
  lemma UpdatedStep(s: State, env: Env, src: string, rel: string, f: Node)
    requires f.File? && !env.ignored(src)
    requires var dest := DestOf(env, rel, false, f); dest in s.index && s.index[dest] != FileRecord(f.size, f.mtime)
    ensures var dest := DestOf(env, rel, false, f);
      Consume(s, env, CopyAll, src, rel, false, f) ==
        Step(State(s.index[dest := Record(Some(f.size), f.mtime)], s.fileCount, Rebase(s.totalSize, s.index[dest].length, f.size),
                   s.log + [Written(dest, f.size, f.mtime), Imported(src, Updated)]), None)
  {
  }

  /** A known file whose record matches: skipped. */
  lemma SkippedStep(s: State, env: Env, src: string, rel: string, f: Node)
    requires f.File? && !env.ignored(src)
    requires Lookup(s.index, DestOf(env, rel, false, f)) == Some(FileRecord(f.size, f.mtime))
    ensures Consume(s, env, CopyAll, src, rel, false, f) == Step(s.(log := s.log + [Skipped(src)]), None)
  {
  }

  /** A file the index does not know, copied successfully: created. */
  lemma CreatedStep(s: State, env: Env, src: string, rel: string, f: Node)
    requires f.File? && !env.ignored(src) && CopyAll(src)
    requires DestOf(env, rel, false, f) !in s.index
    ensures var dest := DestOf(env, rel, false, f);
      Consume(s, env, CopyAll, src, rel, false, f) ==
        Step(State(s.index[dest := Record(Some(f.size), f.mtime)], s.fileCount + 1, Plus(s.totalSize, f.size),
                   s.log + [Written(dest, f.size, f.mtime), Imported(src, Created)]), None)
  {
  }

  /** The fixture root is a readable directory: it records itself, then walks `d.txt` and `e.txt`. */
  lemma RootStep(s: State, env: Env)
    requires env == Env(env.basePath, NeverIgnored)
    ensures Consume(s, env, CopyAll, Target, "", true, Fixture) == ConsumeAll(EnterDir(s, JoinDest(env.basePath, ""), 500), env, CopyAll, Target, "", [D, E])
  {
    assert !env.ignored(Target);
    assert Fixture.Dir? && Fixture.readable && Fixture.children == [D, E] && Fixture.mtime == 500;
  }

  /** The fixture's first import into an empty vault, with no base path or with "foo/bar". */
  lemma FirstRun(env: Env, root: string, dn: string, en: string)
    requires env == Env(env.basePath, NeverIgnored) && (env.basePath == "" || env.basePath == "foo/bar")
    requires root == JoinDest(env.basePath, "") && dn == JoinDest(env.basePath, "d.txt") && en == JoinDest(env.basePath, "e.txt")
    ensures Import(env, CopyAll, Target, Fixture, false, Listing([], false)) ==
        Step(State(map[root := Record(None, 500)][dn := Record(Some(4), 1000)][en := Record(Some(5), 2000)], 2, Bytes(9),
                   [Marker(root, 500), Written(dn, 4, 1000), Imported(Target + "/d.txt", Created),
                    Written(en, 5, 2000), Imported(Target + "/e.txt", Created)]),
             None)
  {
    assert root != dn && root != en && dn != en by {
      if env.basePath == "" {
        assert root == "" && dn == "d.txt" && en == "e.txt";
      } else {
        assert root == "foo/bar" && dn == "foo/bar/d.txt" && en == "foo/bar/e.txt";
        assert dn[8] != en[8];
      }
    }
    var s1 := EnterDir(Initial, root, 500);
    assert s1 == State(map[root := Record(None, 500)], 0, Bytes(0), [Marker(root, 500)]);
    assert SlashJoin(Target, "d.txt") == Target + "/d.txt" && SlashJoin("", "d.txt") == "d.txt";
    assert SlashJoin(Target, "e.txt") == Target + "/e.txt" && SlashJoin("", "e.txt") == "e.txt";
    assert DestOf(env, "d.txt", false, D) == dn && DestOf(env, "e.txt", false, E) == en;
    CreatedStep(s1, env, Target + "/d.txt", "d.txt", D);
    var rd := Consume(s1, env, CopyAll, Target + "/d.txt", "d.txt", false, D);
    CreatedStep(rd.state, env, Target + "/e.txt", "e.txt", E);
    var re := Consume(rd.state, env, CopyAll, Target + "/e.txt", "e.txt", false, E);
    TwoChildren(s1, env, CopyAll, Target, "", D, E);
    RootStep(Initial, env);
    assert Import(env, CopyAll, Target, Fixture, false, Listing([], false)) == re;
  }

  /** Importing the directory: a root entry "" and the two files; 2 files, 9 bytes. */
  lemma ImportDirectory()
    ensures var r := Import(Plain, CopyAll, Target, Fixture, false, Listing([], false));
      && r.err.None?
      && r.state.fileCount == 2 && r.state.totalSize == Bytes(9)
      && ListingOf(r.state.log) == [Listed("", true, None, 500), Listed("d.txt", false, Some(4), 1000), Listed("e.txt", false, Some(5), 2000)]
  {
    FirstRun(Plain, "", "d.txt", "e.txt");
    ThreeWrites(Marker("", 500), Written("d.txt", 4, 1000), Imported(Target + "/d.txt", Created),
                Written("e.txt", 5, 2000), Imported(Target + "/e.txt", Created));
  }

  /** With `basePath` "foo/bar" the root is "foo/bar" and the files lie under it. */
  lemma ImportDirectoryWithBasePath()
    ensures var r := Import(Based, CopyAll, Target, Fixture, false, Listing([], false));
      && r.err.None?
      && r.state.fileCount == 2 && r.state.totalSize == Bytes(9)
      && ListingOf(r.state.log) == [Listed("foo/bar", true, None, 500), Listed("foo/bar/d.txt", false, Some(4), 1000),
                                    Listed("foo/bar/e.txt", false, Some(5), 2000)]
  {
    FirstRun(Based, "foo/bar", "foo/bar/d.txt", "foo/bar/e.txt");
    ThreeWrites(Marker("foo/bar", 500), Written("foo/bar/d.txt", 4, 1000), Imported(Target + "/d.txt", Created),
                Written("foo/bar/e.txt", 5, 2000), Imported(Target + "/e.txt", Created));
  }

  /** Importing the file itself: it is named by its base name under the base path; 1 file, 4 bytes. */
  lemma ImportFile(env: Env, name: string)
    requires env == Env(env.basePath, NeverIgnored) && (env.basePath == "" || env.basePath == "foo/bar")
    requires name == (if env.basePath == "" then "d.txt" else "foo/bar/d.txt")
    ensures var r := Import(env, CopyAll, Target + "/d.txt", D, false, Listing([], false));
      && r.err.None?
      && r.state.fileCount == 1 && r.state.totalSize == Bytes(4)
      && ListingOf(r.state.log) == [Listed(name, false, Some(4), 1000)]
  {
    var src := Target + "/d.txt";
    assert DestOf(env, "", true, D) == name;
    var r := Consume(Initial, env, CopyAll, src, "", true, D);
    assert r == ConsumeFile(Initial, true, src, name, 4, 1000);
    var log := [Written(name, 4, 1000), Imported(src, Created)];
    assert r.state.log == log;
    ListingOfCons(log[1], []);
    ListingOfCons(log[0], [log[1]]);
    assert [log[1]] + [] == [log[1]] && [log[0]] + [log[1]] == log;
  }

  lemma SeedCons(s: State, e: Listed, rest: seq<Listed>)
    ensures Seed(s, [e] + rest) == Seed(SeedOne(s, e), rest)
  {
    assert ([e] + rest)[1..] == rest;
  }

  /**
   Resume after `d.txt` was overwritten in the vault with 6 bytes: the listing
   holds `d.txt` twice, so seeding counts 3 files and 15 bytes; the file on
   disk (4 bytes) is then an update, giving 3 files and 13 bytes, and `e.txt`
   is skipped.
   */
  lemma ResumeAfterVaultOverwrite()
    ensures var first := Import(Plain, CopyAll, Target, Fixture, false, Listing([], false));
      var listing := ListingOf(first.state.log) + [Listed("d.txt", false, Some(6), 3000)];
      var second := Import(Plain, CopyAll, Target, Fixture, true, Listing(listing, false));
      && second.err.None?
      && second.state.fileCount == 3 && second.state.totalSize == Bytes(13)
      && second.state.log == [Written("d.txt", 4, 1000), Imported(Target + "/d.txt", Updated), Skipped(Target + "/e.txt")]
  {
    ImportDirectory();
    var r, dd, ee, d6 := Listed("", true, None, 500), Listed("d.txt", false, Some(4), 1000),
                         Listed("e.txt", false, Some(5), 2000), Listed("d.txt", false, Some(6), 3000);
    var listing := [r, dd, ee] + [d6];
    assert listing == [r] + ([dd] + ([ee] + ([d6] + [])));
    SeedCons(Initial, r, [dd] + ([ee] + ([d6] + [])));
    var s1 := SeedOne(Initial, r);
    SeedCons(s1, dd, [ee] + ([d6] + []));
    var s2 := SeedOne(s1, dd);
    SeedCons(s2, ee, [d6] + []);
    var s3 := SeedOne(s2, ee);
    SeedCons(s3, d6, []);
    var seeded := SeedOne(s3, d6);
    assert Seed(Initial, listing) == seeded;
    assert seeded.fileCount == 3 && seeded.totalSize == Bytes(15) && seeded.log == [];
    assert seeded.index == map["" := Record(None, 500), "d.txt" := Record(Some(6), 3000), "e.txt" := Record(Some(5), 2000)];
    SecondRun(seeded, Record(Some(6), 3000), 4, 1000);
  }

  /**
   A resumed walk of the fixture whose root and `e.txt` records match and
   whose `d.txt` record differs from (4 bytes, `dMtime`): one update, one skip.
   */
  lemma SecondRun(seeded: State, dRecord: Record, dSize: nat, dMtime: int)
    requires seeded.log == []
    requires seeded.index == map["" := Record(None, 500), "d.txt" := dRecord, "e.txt" := Record(Some(5), 2000)]
    requires dRecord != FileRecord(dSize, dMtime)
    ensures var touched := Dir("c", 500, true, [File("d.txt", dSize, dMtime), E]);
      WalkTarget(seeded, Plain, CopyAll, Target, touched) ==
        Step(State(seeded.index["d.txt" := FileRecord(dSize, dMtime)], seeded.fileCount,
                   Rebase(seeded.totalSize, dRecord.length, dSize),
                   [Written("d.txt", dSize, dMtime), Imported(Target + "/d.txt", Updated), Skipped(Target + "/e.txt")]),
             None)
  {
    var d := File("d.txt", dSize, dMtime);
    var touched := Dir("c", 500, true, [d, E]);
    assert !Plain.ignored(Target);
    assert touched.Dir? && touched.readable && touched.children == [d, E] && touched.mtime == 500;
    assert Consume(seeded, Plain, CopyAll, Target, "", true, touched) ==
           ConsumeAll(EnterDir(seeded, JoinDest("", ""), 500), Plain, CopyAll, Target, "", [d, E]);
    assert EnterDir(seeded, "", 500) == seeded;
    assert SlashJoin(Target, "d.txt") == Target + "/d.txt" && SlashJoin("", "d.txt") == "d.txt";
    assert SlashJoin(Target, "e.txt") == Target + "/e.txt" && SlashJoin("", "e.txt") == "e.txt";
    assert DestOf(Plain, "d.txt", false, d) == "d.txt" && DestOf(Plain, "e.txt", false, E) == "e.txt";
    UpdatedStep(seeded, Plain, Target + "/d.txt", "d.txt", d);
    var rd := Consume(seeded, Plain, CopyAll, Target + "/d.txt", "d.txt", false, d);
    SkippedStep(rd.state, Plain, Target + "/e.txt", "e.txt", E);
    TwoChildren(seeded, Plain, CopyAll, Target, "", d, E);
  }

  /**
   Resume after `d.txt` was rewritten on disk with the same length: the mtime
   alone makes it an update, and the counters stay at 2 files and 9 bytes.
   */
  lemma ResumeAfterTouch()
    ensures var first := Import(Plain, CopyAll, Target, Fixture, false, Listing([], false));
      var touched := Dir("c", 500, true, [File("d.txt", 4, 4000), E]);
      var second := Import(Plain, CopyAll, Target, touched, true, Listing(ListingOf(first.state.log), false));
      && second.err.None?
      && second.state.fileCount == 2 && second.state.totalSize == Bytes(9)
      && second.state.log == [Written("d.txt", 4, 4000), Imported(Target + "/d.txt", Updated), Skipped(Target + "/e.txt")]
  {
    ImportDirectory();
    var r, dd, ee := Listed("", true, None, 500), Listed("d.txt", false, Some(4), 1000), Listed("e.txt", false, Some(5), 2000);
    var listing := [r, dd, ee];
    assert listing == [r] + ([dd] + ([ee] + []));
    SeedCons(Initial, r, [dd] + ([ee] + []));
    var s1 := SeedOne(Initial, r);
    SeedCons(s1, dd, [ee] + []);
    var s2 := SeedOne(s1, dd);
    SeedCons(s2, ee, []);
    var seeded := SeedOne(s2, ee);
    assert Seed(Initial, listing) == seeded;
    assert seeded.fileCount == 2 && seeded.totalSize == Bytes(9) && seeded.log == [];
    assert seeded.index == map["" := Record(None, 500), "d.txt" := Record(Some(4), 1000), "e.txt" := Record(Some(5), 2000)];
    SecondRun(seeded, Record(Some(4), 1000), 4, 4000);
  }
}

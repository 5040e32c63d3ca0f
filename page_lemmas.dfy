/**
 * What the page's step sequences guarantee: `addVersion` only adds what is
 * missing (apart from rewriting the config file), is idempotent, and leaves
 * a version that `setVersion` can activate; `build` leaves its staging
 * directories in place and `_endBuild` removes them and writes the manifest.
 */
module PageLemmas {
  import opened Wrappers
  import opened Json
  import opened FileSystem
  import opened PageVersion
  import opened PageLifecycle

  /** Every node of `before` is in `after`, unchanged. */
  ghost predicate Grows(before: Nodes, after: Nodes) {
    forall p :: p in before ==> p in after && after[p] == before[p]
  }

  /** Every node of `before` other than the one at `except` is in `after`, unchanged. */
  ghost predicate GrowsExcept(before: Nodes, after: Nodes, except: Path) {
    forall p :: p in before && p != except ==> p in after && after[p] == before[p]
  }

  /**
   * Creating directories if absent, all attempted: nothing present changes,
   * only directories in `ps` appear, the only failure is a file-system one,
   * and success means every path in `ps` exists.
   */
  lemma {:induction false} EnsureAllEffect(nodes: Nodes, ps: seq<Path>)
    ensures var s := AttemptAll(nodes, EnsureDir, ps);
      && Grows(nodes, s.nodes)
      && (forall p :: p in s.nodes && p !in nodes ==> p in ps && s.nodes[p] == Directory)
      && (s.outcome.Ok? || (s.outcome.Fail? && s.outcome.error.IOFailure?))
      && (s.outcome.Ok? ==> forall p :: p in ps ==> p in s.nodes)
    decreases |ps|
  {
    if ps != [] {
      var init := ps[..|ps| - 1];
      EnsureAllEffect(nodes, init);
      forall p | p in init ensures p in ps {
        var i :| 0 <= i < |init| && init[i] == p;
        assert ps[i] == p;
      }
    }
  }

  /** When every path already exists, creating them if absent is a no-op. */
  lemma {:induction false} EnsureAllPresent(nodes: Nodes, ps: seq<Path>)
    requires forall p :: p in ps ==> p in nodes
    ensures AttemptAll(nodes, EnsureDir, ps) == Step(Ok, nodes)
    decreases |ps|
  {
    if ps != [] {
      var init := ps[..|ps| - 1];
      forall p | p in init ensures p in nodes {
        var i :| 0 <= i < |init| && init[i] == p;
        assert ps[i] == p;
      }
      EnsureAllPresent(nodes, init);
      assert ps[|ps| - 1] in ps;
    }
  }

  /** The paths `addVersion` may create: the version directory, its subdirectories, its config and launchers. */
  ghost predicate ScaffoldPath(rootDir: Path, version: string, p: Path) {
    var vdir := Join(rootDir, version);
    p == vdir || p in SubDirs(vdir) || p == ConfigFile(rootDir, version)
    || p == ShFile(rootDir, version) || p == BatFile(rootDir, version)
  }

  /** The outcomes the scaffolding steps of `addVersion` can end with. */
  predicate ScaffoldOutcome(o: Outcome) {
    o.Ok? || o == Fail(JsonFormatError) || (o.Fail? && o.error.IOFailure?)
  }

  lemma LaunchersOutcomes(nodes: Nodes, config: Config, name: string, rootDir: Path, version: string)
    ensures var o := LaunchersStep(nodes, config, name, rootDir, version).outcome;
      o.Ok? || (o.Fail? && o.error.IOFailure?)
  {
  }

  lemma ConfigOutcomes(nodes: Nodes, config: Config, name: string, rootDir: Path, version: string)
    ensures ScaffoldOutcome(ConfigAndLaunchers(nodes, config, name, rootDir, version).outcome)
  {
    var s3 := WriteConfigStep(nodes, ConfigFile(rootDir, version), config);
    LaunchersOutcomes(s3.nodes, s3.config, name, rootDir, version);
  }

  lemma ScaffoldOutcomes(nodes: Nodes, config: Config, name: string, rootDir: Path, version: string)
    ensures ScaffoldOutcome(ScaffoldSpec(nodes, config, name, rootDir, version).outcome)
  {
    var vdir := Join(rootDir, version);
    var s1 := EnsureDirStep(nodes, vdir);
    if s1.outcome.Ok? {
      var s2 := AttemptAll(s1.nodes, EnsureDir, SubDirs(vdir));
      EnsureAllEffect(s1.nodes, SubDirs(vdir));
      ConfigOutcomes(s2.nodes, config, name, rootDir, version);
    }
  }

  /**
   * A version that is empty exits with code 3, one that is not of the form
   * `^(\d+\.)+\d+$` is refused; neither touches the file system or the page.
   * An accepted version sets `versionDir` and ends with success, a JSON
   * format error or a file-system error.
   */
  lemma AddVersionValidation(nodes: Nodes, config: Config, versionDir: Option<Path>,
                             name: string, rootDir: Path, version: string)
    ensures var st := AddVersionSpec(nodes, config, versionDir, name, rootDir, version);
      && (version == "" ==> st == VersionState(Exit(3), nodes, config, versionDir))
      && (version != "" && !VersionGroup(version) ==> st == VersionState(Fail(VersionIllegal), nodes, config, versionDir))
      && (VersionGroup(version) ==>
            st.versionDir == Some(Join(rootDir, version)) && ScaffoldOutcome(st.outcome))
  {
    AcceptedIsVersionGroup(version);
    if AcceptedVersion(version) {
      ScaffoldOutcomes(nodes, config, name, rootDir, version);
    }
  }

  /** Children of one directory with different non-empty names are different paths, and not the directory. */
  lemma DistinctChildren(dir: Path, a: string, b: string)
    requires a != "" && b != "" && a != b
    ensures Join(dir, a) != Join(dir, b)
    ensures Join(dir, a) != dir && |Join(dir, a)| == |dir| + 1 && Join(dir, a)[..|dir|] == dir
  {
    assert Join(dir, a)[|dir|] == a;
    assert Join(dir, b)[|dir|] == b;
  }

  /** The files and directories of a version are pairwise distinct. */
  lemma ScaffoldPathsDistinct(rootDir: Path, version: string)
    requires version != ""
    ensures var vdir := Join(rootDir, version);
      var json := ConfigFile(rootDir, version);
      var sh := ShFile(rootDir, version);
      var bat := BatFile(rootDir, version);
      && json != sh && json != bat && sh != bat
      && vdir != json && vdir != sh && vdir != bat
      && json !in SubDirs(vdir) && sh !in SubDirs(vdir) && bat !in SubDirs(vdir)
      && vdir !in SubDirs(vdir)
      && json[..|json| - 1] == vdir
  {
    var vdir := Join(rootDir, version);
    DistinctChildren(vdir, JSON_NAME, BUILD_SH);
    DistinctChildren(vdir, JSON_NAME, BUILD_BAT);
    DistinctChildren(vdir, BUILD_SH, BUILD_BAT);
    DistinctChildren(vdir, JSON_NAME, "core");
    DistinctChildren(vdir, JSON_NAME, "mods");
    DistinctChildren(vdir, JSON_NAME, "test");
    DistinctChildren(vdir, BUILD_SH, "core");
    DistinctChildren(vdir, BUILD_SH, "mods");
    DistinctChildren(vdir, BUILD_SH, "test");
    DistinctChildren(vdir, BUILD_BAT, "core");
    DistinctChildren(vdir, BUILD_BAT, "mods");
    DistinctChildren(vdir, BUILD_BAT, "test");
    DistinctChildren(vdir, "core", "mods");
  }

  /** The new paths are among the config file and the two launchers. */
  ghost predicate AddsOnlyFiles(before: Nodes, after: Nodes, rootDir: Path, version: string) {
    forall p :: p in after && p !in before ==>
      p == ConfigFile(rootDir, version) || p == ShFile(rootDir, version) || p == BatFile(rootDir, version)
  }

  /**
   * The config file holds `config`, its directory is a directory, and both
   * launchers exist, each holding its template where none existed in `before`.
   */
  ghost predicate FilesWritten(before: Nodes, after: Nodes, config: Config, name: string, rootDir: Path, version: string) {
    var json := ConfigFile(rootDir, version);
    var sh := ShFile(rootDir, version);
    var bat := BatFile(rootDir, version);
    && json in after && after[json] == File(Document(config)) && ParentIsDirectory(after, json)
    && sh in after && (sh !in before ==> after[sh] == File(Text(ShLauncher(name, version))))
    && bat in after && (bat !in before ==> after[bat] == File(Text(BatLauncher(name, version))))
  }

  /** A launcher step changes nothing present and can add only its own file. */
  lemma LauncherKeeps(nodes: Nodes, p: Path, script: string)
    ensures var s := WriteLauncherStep(nodes, p, script);
      Grows(nodes, s.nodes) && forall q :: q in s.nodes && q !in nodes ==> q == p
  {
  }

  /** The last three steps of `addVersion` change only the config file, and add only files. */
  lemma LaunchersKeep(nodes: Nodes, config: Config, name: string, rootDir: Path, version: string)
    requires version != ""
    ensures var s := LaunchersStep(nodes, config, name, rootDir, version);
      GrowsExcept(nodes, s.nodes, ConfigFile(rootDir, version)) && AddsOnlyFiles(nodes, s.nodes, rootDir, version)
  {
    var json := ConfigFile(rootDir, version);
    var s := LaunchersStep(nodes, config, name, rootDir, version);
    var s4 := WriteStep(nodes, json, Document(config));
    if s4.outcome.Ok? {
      var s5 := WriteLauncherStep(s4.nodes, ShFile(rootDir, version), ShLauncher(name, version));
      LauncherKeeps(s4.nodes, ShFile(rootDir, version), ShLauncher(name, version));
      if s5.outcome.Ok? {
        assert s == WriteLauncherStep(s5.nodes, BatFile(rootDir, version), BatLauncher(name, version));
        LauncherKeeps(s5.nodes, BatFile(rootDir, version), BatLauncher(name, version));
      } else {
        assert s == s5;
      }
    } else {
      assert s == s4;
    }
  }

  /** On success the last three steps of `addVersion` have written the config file and the launchers. */
  lemma LaunchersWrite(nodes: Nodes, config: Config, name: string, rootDir: Path, version: string)
    requires version != ""
    ensures var s := LaunchersStep(nodes, config, name, rootDir, version);
      s.outcome.Ok? ==> FilesWritten(nodes, s.nodes, config, name, rootDir, version)
  {
    ScaffoldPathsDistinct(rootDir, version);
  }

  /** The config step and what follows change only the config file, and add only files. */
  lemma ConfigKeep(nodes: Nodes, config: Config, name: string, rootDir: Path, version: string)
    requires version != ""
    ensures var s := ConfigAndLaunchers(nodes, config, name, rootDir, version);
      GrowsExcept(nodes, s.nodes, ConfigFile(rootDir, version)) && AddsOnlyFiles(nodes, s.nodes, rootDir, version)
  {
    ScaffoldPathsDistinct(rootDir, version);
    var s3 := WriteConfigStep(nodes, ConfigFile(rootDir, version), config);
    LaunchersKeep(s3.nodes, s3.config, name, rootDir, version);
  }

  /** Which config the config step leaves in the page. */
  lemma ConfigChoice(nodes: Nodes, config: Config, name: string, rootDir: Path, version: string)
    ensures var s := ConfigAndLaunchers(nodes, config, name, rootDir, version);
      var json := ConfigFile(rootDir, version);
      && (json !in nodes ==> s.config == config)
      && (JsonAt(nodes, json).Parsed? ==> s.config == JsonAt(nodes, json).value)
      && (json in nodes && JsonAt(nodes, json).Unparsable? ==> s == ConfigStep(Fail(JsonFormatError), nodes, config))
  {
  }

  /** On success the config step and what follows have written the config file and the launchers. */
  lemma ConfigWrite(nodes: Nodes, config: Config, name: string, rootDir: Path, version: string)
    requires version != ""
    ensures var s := ConfigAndLaunchers(nodes, config, name, rootDir, version);
      s.outcome.Ok? ==> FilesWritten(nodes, s.nodes, s.config, name, rootDir, version)
  {
    ScaffoldPathsDistinct(rootDir, version);
    var s3 := WriteConfigStep(nodes, ConfigFile(rootDir, version), config);
    LaunchersWrite(s3.nodes, s3.config, name, rootDir, version);
  }

  /** What a version directory looks like after a successful scaffold. */
  ghost predicate Scaffolded(nodes: Nodes, config: Config, rootDir: Path, version: string) {
    var vdir := Join(rootDir, version);
    var json := ConfigFile(rootDir, version);
    && vdir in nodes && (forall d :: d in SubDirs(vdir) ==> d in nodes)
    && json in nodes && nodes[json] == File(Document(config)) && ParentIsDirectory(nodes, json)
    && ShFile(rootDir, version) in nodes && BatFile(rootDir, version) in nodes
  }

  /** The directory steps of `addVersion`: nothing present changes, and only directories of the scaffold appear. */
  lemma DirsKeep(nodes: Nodes, rootDir: Path, version: string)
    ensures var vdir := Join(rootDir, version);
      var s1 := EnsureDirStep(nodes, vdir);
      var s2 := AttemptAll(s1.nodes, EnsureDir, SubDirs(vdir));
      && Grows(nodes, s1.nodes) && Grows(nodes, s2.nodes)
      && (forall p :: p in s2.nodes && p !in nodes ==> (p == vdir || p in SubDirs(vdir)) && s2.nodes[p] == Directory)
      && (s1.outcome.Ok? || s1.outcome.Fail?) && (s2.outcome.Ok? || s2.outcome.Fail?)
      && (s1.outcome.Ok? ==> vdir in s1.nodes)
      && (s1.outcome.Ok? && s2.outcome.Ok? ==> forall d :: d in SubDirs(vdir) ==> d in s2.nodes)
  {
    var vdir := Join(rootDir, version);
    var s1 := EnsureDirStep(nodes, vdir);
    EnsureAllEffect(s1.nodes, SubDirs(vdir));
  }

  /** The scaffolding changes only the config file, and adds only paths of the scaffold. */
  lemma ScaffoldKeep(nodes: Nodes, config: Config, name: string, rootDir: Path, version: string)
    requires version != ""
    ensures var s := ScaffoldSpec(nodes, config, name, rootDir, version);
      && GrowsExcept(nodes, s.nodes, ConfigFile(rootDir, version))
      && (forall p :: p in s.nodes && p !in nodes ==> ScaffoldPath(rootDir, version, p))
  {
    var vdir := Join(rootDir, version);
    var json := ConfigFile(rootDir, version);
    var s1 := EnsureDirStep(nodes, vdir);
    var s2 := AttemptAll(s1.nodes, EnsureDir, SubDirs(vdir));
    var s := ScaffoldSpec(nodes, config, name, rootDir, version);
    DirsKeep(nodes, rootDir, version);
    if s1.outcome.Ok? && s2.outcome.Ok? {
      assert s == ConfigAndLaunchers(s2.nodes, config, name, rootDir, version);
      ConfigKeep(s2.nodes, config, name, rootDir, version);
      forall p | p in nodes && p != json ensures p in s.nodes && s.nodes[p] == nodes[p] {
        assert p in s2.nodes && s2.nodes[p] == nodes[p];
      }
      forall p | p in s.nodes && p !in nodes ensures ScaffoldPath(rootDir, version, p) {
        if p in s2.nodes {
          assert p == vdir || p in SubDirs(vdir);
        }
      }
    } else if s1.outcome.Ok? {
      assert s.nodes == s2.nodes;
    } else {
      assert s.nodes == s1.nodes;
    }
  }

  /** Which config the scaffolding leaves in the page, and what an unparsable config file prevents. */
  lemma ScaffoldConfig(nodes: Nodes, config: Config, name: string, rootDir: Path, version: string)
    requires version != ""
    ensures var s := ScaffoldSpec(nodes, config, name, rootDir, version);
      var json := ConfigFile(rootDir, version);
      && (json !in nodes ==> s.config == config)
      && (s.outcome.Ok? && JsonAt(nodes, json).Parsed? ==> s.config == JsonAt(nodes, json).value)
      && (json in nodes && JsonAt(nodes, json).Unparsable? ==>
            && s.outcome.Fail? && s.config == config && Grows(nodes, s.nodes)
            && forall p :: p in s.nodes && p !in nodes ==> s.nodes[p] == Directory)
  {
    ScaffoldPathsDistinct(rootDir, version);
    var vdir := Join(rootDir, version);
    var json := ConfigFile(rootDir, version);
    var s1 := EnsureDirStep(nodes, vdir);
    var s2 := AttemptAll(s1.nodes, EnsureDir, SubDirs(vdir));
    DirsKeep(nodes, rootDir, version);
    if s1.outcome.Ok? && s2.outcome.Ok? {
      assert json in nodes ==> JsonAt(s2.nodes, json) == JsonAt(nodes, json);
      assert json !in nodes ==> json !in s2.nodes;
      ConfigChoice(s2.nodes, config, name, rootDir, version);
    }
  }

  /** A successful scaffold leaves every part of the version in place. */
  lemma ScaffoldCreates(nodes: Nodes, config: Config, name: string, rootDir: Path, version: string)
    requires version != ""
    ensures var s := ScaffoldSpec(nodes, config, name, rootDir, version);
      s.outcome.Ok? ==>
        && Scaffolded(s.nodes, s.config, rootDir, version)
        && FilesWritten(nodes, s.nodes, s.config, name, rootDir, version)
        && Join(rootDir, version) in s.nodes && s.nodes[Join(rootDir, version)] == Directory
  {
    ScaffoldPathsDistinct(rootDir, version);
    var vdir := Join(rootDir, version);
    var s1 := EnsureDirStep(nodes, vdir);
    var s2 := AttemptAll(s1.nodes, EnsureDir, SubDirs(vdir));
    DirsKeep(nodes, rootDir, version);
    if s1.outcome.Ok? && s2.outcome.Ok? {
      ConfigWrite(s2.nodes, config, name, rootDir, version);
      ConfigKeep(s2.nodes, config, name, rootDir, version);
      var s := ConfigAndLaunchers(s2.nodes, config, name, rootDir, version);
      if s.outcome.Ok? {
        assert forall d :: d in SubDirs(vdir) ==> d in s.nodes;
        var sh := ShFile(rootDir, version);
        var bat := BatFile(rootDir, version);
        assert sh !in nodes ==> sh !in s2.nodes;
        assert bat !in nodes ==> bat !in s2.nodes;
      }
    }
  }

  /**
   * Create-if-absent: `addVersion` changes no existing node except the
   * config file, and everything it adds is part of the version's scaffold.
   */
  lemma AddVersionKeepsExisting(nodes: Nodes, config: Config, versionDir: Option<Path>,
                                name: string, rootDir: Path, version: string)
    ensures var st := AddVersionSpec(nodes, config, versionDir, name, rootDir, version);
      && GrowsExcept(nodes, st.nodes, ConfigFile(rootDir, version))
      && (forall p :: p in st.nodes && p !in nodes ==> ScaffoldPath(rootDir, version, p))
  {
    if AcceptedVersion(version) {
      ScaffoldKeep(nodes, config, name, rootDir, version);
    }
  }

  /**
   * A successful `addVersion` leaves the version directory with its three
   * subdirectories, the config file holding the page's new config, and both
   * launchers, each with its template wherever none existed before. The
   * version can then be activated: its directory exists and its config
   * file parses to that config.
   */
  lemma AddVersionCreates(nodes: Nodes, config: Config, versionDir: Option<Path>,
                          name: string, rootDir: Path, version: string)
    ensures var st := AddVersionSpec(nodes, config, versionDir, name, rootDir, version);
      var vdir := Join(rootDir, version);
      st.outcome.Ok? ==>
        && vdir in st.nodes && st.nodes[vdir] == Directory
        && (forall d :: d in SubDirs(vdir) ==> d in st.nodes)
        && JsonAt(st.nodes, ConfigFile(rootDir, version)) == Parsed(st.config)
        && FilesWritten(nodes, st.nodes, st.config, name, rootDir, version)
  {
    if AcceptedVersion(version) {
      ScaffoldCreates(nodes, config, name, rootDir, version);
    }
  }

  /**
   * The config file in `addVersion`: when absent it is written from the
   * in-memory config; when it parses, the page's config becomes exactly the
   * parsed content and the file keeps it; when it does not parse, the run
   * fails, the config is untouched and nothing but directories has been
   * created.
   */
  lemma AddVersionConfig(nodes: Nodes, config: Config, versionDir: Option<Path>,
                         name: string, rootDir: Path, version: string)
    requires AcceptedVersion(version)
    ensures var st := AddVersionSpec(nodes, config, versionDir, name, rootDir, version);
      var json := ConfigFile(rootDir, version);
      && (json !in nodes ==> st.config == config)
      && (json !in nodes && st.outcome.Ok? ==> json in st.nodes && st.nodes[json] == File(Document(config)))
      && (st.outcome.Ok? && JsonAt(nodes, json).Parsed? ==>
            st.config == JsonAt(nodes, json).value && json in st.nodes && st.nodes[json] == nodes[json])
      && (json in nodes && JsonAt(nodes, json).Unparsable? ==>
            && st.outcome.Fail? && st.config == config
            && (forall p :: p in st.nodes && p !in nodes ==> st.nodes[p] == Directory)
            && Grows(nodes, st.nodes))
  {
    ScaffoldConfig(nodes, config, name, rootDir, version);
    ScaffoldCreates(nodes, config, name, rootDir, version);
  }

  /** The last three steps of `addVersion` change nothing once the files exist and the config is current. */
  lemma LaunchersNoop(nodes: Nodes, config: Config, name: string, rootDir: Path, version: string)
    requires version != ""
    requires var json := ConfigFile(rootDir, version);
      && json in nodes && nodes[json] == File(Document(config)) && ParentIsDirectory(nodes, json)
      && ShFile(rootDir, version) in nodes && BatFile(rootDir, version) in nodes
    ensures LaunchersStep(nodes, config, name, rootDir, version) == Step(Ok, nodes)
  {
    var json := ConfigFile(rootDir, version);
    assert nodes[json := File(Document(config))] == nodes;
  }

  /** The config step and what follows change nothing once the files exist and the config file parses to `config`. */
  lemma ConfigNoop(nodes: Nodes, config: Config, name: string, rootDir: Path, version: string)
    requires version != ""
    requires var json := ConfigFile(rootDir, version);
      && json in nodes && nodes[json] == File(Document(config)) && ParentIsDirectory(nodes, json)
      && ShFile(rootDir, version) in nodes && BatFile(rootDir, version) in nodes
    ensures ConfigAndLaunchers(nodes, config, name, rootDir, version) == ConfigStep(Ok, nodes, config)
  {
    var json := ConfigFile(rootDir, version);
    assert nodes[json := File(Document(config))] == nodes;
    assert WriteConfigStep(nodes, json, config) == ConfigStep(Ok, nodes, config);
    LaunchersNoop(nodes, config, name, rootDir, version);
  }

  lemma ScaffoldNoop(nodes: Nodes, config: Config, name: string, rootDir: Path, version: string)
    requires version != ""
    requires Scaffolded(nodes, config, rootDir, version)
    ensures ScaffoldSpec(nodes, config, name, rootDir, version) == ConfigStep(Ok, nodes, config)
  {
    var vdir := Join(rootDir, version);
    assert EnsureDirStep(nodes, vdir) == Step(Ok, nodes);
    EnsureAllPresent(nodes, SubDirs(vdir));
    ConfigNoop(nodes, config, name, rootDir, version);
  }

  /** Running `addVersion` again on what a successful run left behind changes nothing. */
  lemma AddVersionIdempotent(nodes: Nodes, config: Config, versionDir: Option<Path>,
                             name: string, rootDir: Path, version: string)
    requires AddVersionSpec(nodes, config, versionDir, name, rootDir, version).outcome.Ok?
    ensures var st := AddVersionSpec(nodes, config, versionDir, name, rootDir, version);
      AddVersionSpec(st.nodes, st.config, st.versionDir, name, rootDir, version) == st
  {
    var s := ScaffoldSpec(nodes, config, name, rootDir, version);
    ScaffoldCreates(nodes, config, name, rootDir, version);
    ScaffoldNoop(s.nodes, s.config, name, rootDir, version);
  }

  // ---------------------------------------------------------------------
  // build
  // ---------------------------------------------------------------------

  /** Neither path lies beneath the other. */
  ghost predicate Disjoint(a: Path, b: Path) {
    !Within(a, b) && !Within(b, a)
  }

  /** Nothing beneath one of two disjoint paths lies beneath the other. */
  lemma DisjointBeneath(a: Path, b: Path, x: Path)
    requires Disjoint(a, b) && Within(a, x)
    ensures !Within(b, x)
  {
  }

  /**
   * Two children of one directory with different names are disjoint; so
   * the staging directories of a page are disjoint from each other, and from
   * any version or timestamp directory not named like one of them.
   */
  lemma SiblingsDisjoint(dir: Path, a: string, b: string)
    requires a != "" && b != "" && a != b
    ensures Disjoint(Join(dir, a), Join(dir, b))
  {
    DistinctChildren(dir, a, b);
    DistinctChildren(dir, b, a);
  }

  /** Nothing lies beneath `p` unless `p` itself exists, as on every real file system. */
  ghost predicate Rooted(nodes: Nodes, p: Path) {
    p in nodes || forall q :: q in nodes ==> !Within(p, q)
  }

  /** `p` is a directory with nothing beneath it. */
  ghost predicate EmptyDir(nodes: Nodes, p: Path) {
    p in nodes && nodes[p] == Directory && forall q :: q in nodes && Within(p, q) ==> q == p
  }

  /** Two paths that both lie above `c` lie one above the other. */
  lemma Comparable(a: Path, b: Path, c: Path)
    requires Within(a, c) && Within(b, c)
    ensures Within(a, b) || Within(b, a)
  {
    if |a| <= |b| {
      assert b[..|a|] == c[..|a|];
    } else {
      assert a[..|b|] == c[..|b|];
    }
  }

  /**
   * `_makeTempDir`: on success the path is an empty directory, so nothing of
   * an earlier tree there survives; nothing outside it has changed, and no
   * path other than it appears.
   */
  lemma FreshDirEffect(nodes: Nodes, p: Path)
    ensures var s := FreshDirStep(nodes, p);
      && (s.outcome.Ok? ==> p in s.nodes && s.nodes[p] == Directory)
      && (s.outcome.Ok? && Rooted(nodes, p) ==> EmptyDir(s.nodes, p))
      && (forall q :: q in nodes && !Within(p, q) ==> q in s.nodes && s.nodes[q] == nodes[q])
      && (forall q :: q in s.nodes && q !in nodes ==> q == p)
  {
  }

  /**
   * Recreating both staging directories: on success both are directories,
   * and both are empty; nothing outside them has changed, and no other path
   * appears.
   */
  lemma StagingEffect(nodes: Nodes, srcDir: Path, destDir: Path)
    requires Disjoint(srcDir, destDir)
    ensures var s := AttemptAll(nodes, FreshDir, [srcDir, destDir]);
      && (s.outcome.Ok? ==>
            srcDir in s.nodes && s.nodes[srcDir] == Directory && destDir in s.nodes && s.nodes[destDir] == Directory)
      && (s.outcome.Ok? && Rooted(nodes, srcDir) && Rooted(nodes, destDir) ==>
            EmptyDir(s.nodes, srcDir) && EmptyDir(s.nodes, destDir))
      && (forall q :: q in nodes && !Within(srcDir, q) && !Within(destDir, q) ==> q in s.nodes && s.nodes[q] == nodes[q])
      && (forall q :: q in s.nodes && q !in nodes ==> q == srcDir || q == destDir)
  {
    assert [srcDir, destDir][..1] == [srcDir];
    assert [srcDir][..0] == [];
    var a := FreshDirStep(nodes, srcDir);
    assert AttemptAll(nodes, FreshDir, [srcDir]) == Step(a.outcome, a.nodes);
    FreshDirEffect(nodes, srcDir);
    FreshDirEffect(a.nodes, destDir);
    var t := FreshDirStep(a.nodes, destDir);
    if Rooted(nodes, destDir) {
      assert Rooted(a.nodes, destDir);
    }
    if a.outcome.Ok? && t.outcome.Ok? && Rooted(nodes, srcDir) {
      forall q | q in t.nodes && Within(srcDir, q) ensures q == srcDir {
        if q == destDir {
          assert false;
        }
      }
    }
  }

  /**
   * `_startBuild`: on success both staging directories exist, the source
   * staging directory holds a copy of everything beneath the version
   * directory, and the timestamp directory and its `core` child exist.
   */
  lemma StartBuildStages(nodes: Nodes, srcDir: Path, destDir: Path, versionDir: Path, timestampDir: Path)
    requires Disjoint(srcDir, destDir) && Disjoint(versionDir, srcDir) && Disjoint(versionDir, destDir)
    ensures var s := StartBuildSpec(nodes, srcDir, destDir, versionDir, timestampDir);
      s.outcome.Ok? ==>
        && srcDir in s.nodes && destDir in s.nodes && s.nodes[destDir] == Directory
        && timestampDir in s.nodes && Join(timestampDir, "core") in s.nodes
        && forall q :: q in nodes && Within(versionDir, q) && q != versionDir ==>
             var c := srcDir + q[|versionDir|..];
             c in s.nodes && s.nodes[c] == nodes[q]
  {
    var s1 := AttemptAll(nodes, FreshDir, [srcDir, destDir]);
    if s1.outcome.Ok? {
      StagingEffect(nodes, srcDir, destDir);
      forall q | q in nodes && Within(versionDir, q)
        ensures q in s1.nodes && s1.nodes[q] == nodes[q]
      {
        DisjointBeneath(versionDir, srcDir, q);
        DisjointBeneath(versionDir, destDir, q);
      }
      var copied := CopiedTree(s1.nodes, versionDir, srcDir);
      assert !Within(srcDir, destDir);
      assert srcDir in copied && destDir in copied && copied[destDir] == Directory;
      var ts := [timestampDir, Join(timestampDir, "core")];
      assert StartBuildSpec(nodes, srcDir, destDir, versionDir, timestampDir) == EnsureInSeries(copied, ts);
      EnsureSeriesEffect(copied, ts);
      assert timestampDir in ts && Join(timestampDir, "core") in ts;
    }
  }

  /**
   * Copying the version's tree into a freshly emptied source staging
   * directory: beneath it there is then only copies of nodes beneath the
   * version directory, and the destination staging directory stays empty.
   */
  lemma CopyIntoEmpty(nodes: Nodes, staged: Nodes, srcDir: Path, destDir: Path, versionDir: Path)
    requires Disjoint(srcDir, destDir) && Disjoint(versionDir, srcDir) && Disjoint(versionDir, destDir)
    requires EmptyDir(staged, srcDir) && EmptyDir(staged, destDir)
    requires forall q :: q in staged && q !in nodes ==> q == srcDir || q == destDir
    ensures var copied := CopiedTree(staged, versionDir, srcDir);
      && (forall c :: c in copied && Within(destDir, c) ==> c == destDir)
      && (forall c :: c in copied && Within(srcDir, c) && c != srcDir ==>
            exists q :: q in nodes && Within(versionDir, q) && q != versionDir && c == srcDir + q[|versionDir|..])
  {
    var copied := CopiedTree(staged, versionDir, srcDir);
    forall c | c in copied && Within(destDir, c) ensures c == destDir {
      if c !in staged {
        var q :| q in staged && Within(versionDir, q) && q != versionDir && c == srcDir + q[|versionDir|..];
        assert Within(srcDir, c) by { assert c[..|srcDir|] == srcDir; }
        Comparable(srcDir, destDir, c);
      }
    }
    forall c | c in copied && Within(srcDir, c) && c != srcDir
      ensures exists q :: q in nodes && Within(versionDir, q) && q != versionDir && c == srcDir + q[|versionDir|..]
    {
      assert c !in staged;
      var q :| q in staged && Within(versionDir, q) && q != versionDir && c == srcDir + q[|versionDir|..];
    }
  }

  /** Creating the timestamp directories adds nothing within a directory apart from the timestamp directory. */
  lemma SeriesApart(nodes: Nodes, timestampDir: Path, dir: Path)
    requires Disjoint(timestampDir, dir)
    ensures var s := EnsureInSeries(nodes, [timestampDir, Join(timestampDir, "core")]);
      forall c :: c in s.nodes && Within(dir, c) ==> c in nodes
  {
    var ts := [timestampDir, Join(timestampDir, "core")];
    EnsureSeriesEffect(nodes, ts);
    assert Within(timestampDir, Join(timestampDir, "core")) by {
      assert Join(timestampDir, "core")[..|timestampDir|] == timestampDir;
    }
    DisjointBeneath(timestampDir, dir, timestampDir);
    DisjointBeneath(timestampDir, dir, Join(timestampDir, "core"));
  }

  /**
   * `_startBuild` never reuses a staging directory: with the timestamp
   * directory apart from both staging directories, a successful start
   * leaves the destination staging directory empty, and everything beneath
   * the source staging directory is a copy of a node beneath the version
   * directory, so nothing of an earlier build is left in either.
   */
  lemma StartBuildFresh(nodes: Nodes, srcDir: Path, destDir: Path, versionDir: Path, timestampDir: Path)
    requires Disjoint(srcDir, destDir) && Disjoint(versionDir, srcDir) && Disjoint(versionDir, destDir)
    requires Disjoint(timestampDir, srcDir) && Disjoint(timestampDir, destDir)
    ensures var s := StartBuildSpec(nodes, srcDir, destDir, versionDir, timestampDir);
      s.outcome.Ok? && Rooted(nodes, srcDir) && Rooted(nodes, destDir) ==>
        && (forall c :: c in s.nodes && Within(destDir, c) ==> c == destDir)
        && (forall c :: c in s.nodes && Within(srcDir, c) && c != srcDir ==>
              exists q :: q in nodes && Within(versionDir, q) && q != versionDir && c == srcDir + q[|versionDir|..])
  {
    var s1 := AttemptAll(nodes, FreshDir, [srcDir, destDir]);
    if s1.outcome.Ok? && Rooted(nodes, srcDir) && Rooted(nodes, destDir) {
      StagingEffect(nodes, srcDir, destDir);
      CopyIntoEmpty(nodes, s1.nodes, srcDir, destDir, versionDir);
      var copied := CopiedTree(s1.nodes, versionDir, srcDir);
      assert StartBuildSpec(nodes, srcDir, destDir, versionDir, timestampDir)
          == EnsureInSeries(copied, [timestampDir, Join(timestampDir, "core")]);
      SeriesApart(copied, timestampDir, srcDir);
      SeriesApart(copied, timestampDir, destDir);
    }
  }

  /**
   * Creating directories if absent, in series: nothing present changes, and
   * success means every path exists.
   */
  lemma {:induction false} EnsureSeriesEffect(nodes: Nodes, ps: seq<Path>)
    ensures var s := EnsureInSeries(nodes, ps);
      && Grows(nodes, s.nodes)
      && (forall p :: p in s.nodes && p !in nodes ==> p in ps)
      && (s.outcome.Ok? ==> forall p :: p in ps ==> p in s.nodes)
    decreases |ps|
  {
    if ps != [] {
      var init := ps[..|ps| - 1];
      EnsureSeriesEffect(nodes, init);
      forall p | p in init ensures p in ps {
        var i :| 0 <= i < |init| && init[i] == p;
        assert ps[i] == p;
      }
    }
  }

  /**
   * `_endBuild`: afterwards nothing is left in either staging directory and
   * no node outside the staging and timestamp directories has changed; on
   * success the manifest is in the timestamp directory, and everything
   * strictly beneath the destination staging directory was published to the
   * corresponding place beneath the timestamp directory.
   */
  lemma EndBuildCleans(nodes: Nodes, srcDir: Path, destDir: Path, timestampDir: Path, manifest: Config)
    requires Disjoint(timestampDir, srcDir) && Disjoint(timestampDir, destDir)
    ensures var s := EndBuildSpec(nodes, srcDir, destDir, timestampDir, manifest);
      var manifestFile := Join(timestampDir, BUILD_JSON_NAME);
      && (forall p :: p in s.nodes ==> !Within(srcDir, p) && !Within(destDir, p))
      && (forall p :: p in nodes && !Within(srcDir, p) && !Within(destDir, p) && !Within(timestampDir, p) ==>
            p in s.nodes && s.nodes[p] == nodes[p])
      && (s.outcome.Ok? ==> s.nodes[manifestFile] == File(Document(manifest)))
      && (s.outcome.Ok? ==> forall q :: q in nodes && Within(destDir, q) && q != destDir ==>
            var t := timestampDir + q[|destDir|..];
            t != manifestFile ==> t in s.nodes && s.nodes[t] == nodes[q])
  {
    var manifestFile := Join(timestampDir, BUILD_JSON_NAME);
    assert Within(timestampDir, manifestFile) by {
      assert manifestFile[..|timestampDir|] == timestampDir;
    }
    DisjointBeneath(timestampDir, srcDir, manifestFile);
    DisjointBeneath(timestampDir, destDir, manifestFile);
    var published := CopiedTree(nodes, destDir, timestampDir);
    forall q | q in nodes && Within(destDir, q) && q != destDir
      ensures !Within(srcDir, timestampDir + q[|destDir|..]) && !Within(destDir, timestampDir + q[|destDir|..])
    {
      var t := timestampDir + q[|destDir|..];
      assert t[..|timestampDir|] == timestampDir;
      DisjointBeneath(timestampDir, srcDir, t);
      DisjointBeneath(timestampDir, destDir, t);
    }
  }

  /**
   * `build` after its preconditions: a staging failure runs no plugin; a
   * plugin failure stops at that plugin and leaves both staging
   * directories in place; when every plugin succeeds, both staging trees
   * are gone and, on success, the manifest is in the timestamp directory.
   */
  lemma BuildStagesEffect(nodes: Nodes, srcDir: Path, destDir: Path, versionDir: Path, timestampDir: Path,
                          results: seq<StepResult>, manifest: Config)
    requires Disjoint(srcDir, destDir) && Disjoint(versionDir, srcDir) && Disjoint(versionDir, destDir)
    requires Disjoint(timestampDir, srcDir) && Disjoint(timestampDir, destDir)
    ensures var b := BuildStagesSpec(nodes, srcDir, destDir, versionDir, timestampDir, results, manifest);
      var start := StartBuildSpec(nodes, srcDir, destDir, versionDir, timestampDir);
      var k := FirstFailure(results);
      && (!start.outcome.Ok? ==> b.outcome == start.outcome && b.invoked == 0)
      && (start.outcome.Ok? && k < |results| ==>
            && b.outcome == Fail(PluginFailed(results[k].reason)) && b.invoked == k + 1
            && srcDir in b.nodes && destDir in b.nodes)
      && (start.outcome.Ok? && k == |results| ==>
            && b.invoked == |results|
            && (forall p :: p in b.nodes ==> !Within(srcDir, p) && !Within(destDir, p))
            && (b.outcome.Ok? ==> var m := Join(timestampDir, BUILD_JSON_NAME);
                                  m in b.nodes && b.nodes[m] == File(Document(manifest))))
  {
    var start := StartBuildSpec(nodes, srcDir, destDir, versionDir, timestampDir);
    if start.outcome.Ok? {
      StartBuildStages(nodes, srcDir, destDir, versionDir, timestampDir);
      if FirstFailure(results) == |results| {
        EndBuildCleans(start.nodes, srcDir, destDir, timestampDir, manifest);
      }
    }
  }
}

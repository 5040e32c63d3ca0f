/**
 * The `Page` of the build tool: one project bound to a root directory, with
 * numbered versions beneath it. `addVersion` scaffolds a version,
 * `setVersion` activates one (merging its configuration and registering the
 * plugin pipeline), and `build` stages the version's sources, runs the
 * plugins one after another and publishes the result with a manifest.
 *
 * Each sequence of file-system steps is specified by a pure function from
 * the nodes before to the outcome and the nodes after; the class methods are
 * proved to produce exactly that, and the lemmas at the end state what the
 * sequences guarantee.
 */
module PageLifecycle {
  import opened Wrappers
  import opened Json
  import opened FileSystem
  import opened PageVersion

  const TEMP_SOURCE_NAME := "page_src_temp"
  const DEST_DIR_NAME := "page_build_temp"
  const JSON_NAME := "fb.page.json"
  const BUILD_SH := "fb-build.sh"
  const BUILD_BAT := "fb-build.bat"
  const BUILD_JSON_NAME := "build.json"
  const DIRS: seq<string> := ["core", "mods", "test"]
  const DEFAULT_CHARSET := "utf8"

  /** The configuration a new page starts with. */
  function DefaultConfig(): Config {
    map["inputCharset" := JString(DEFAULT_CHARSET), "outputCharset" := JString(DEFAULT_CHARSET)]
  }

  // ---------------------------------------------------------------------
  // Plugins
  // ---------------------------------------------------------------------

  /** The six plugins a page registers; their transforms are not modelled. */
  datatype PluginKind = ModuleCompiler | CssCombo | LessCss | ConcatFiles | UglifyJs | CssMin

  /** A registered plugin: which one, and the options its factory was given. */
  datatype Plugin = Plugin(kind: PluginKind, options: Config)

  /** What `use` is handed: a function (a plugin) or anything else. */
  datatype Candidate = Callable(plugin: Plugin) | NotCallable

  /** What one plugin reports to its callback when it runs. */
  datatype StepResult = Succeeded | Failed(reason: string)

  function CoreBase(): Config {
    map["base" := JString("core")]
  }

  /** The pipeline `_loadPlugins` registers, in order. */
  function StandardPlugins(): seq<Plugin> {
    [ Plugin(ModuleCompiler, CoreBase()),
      Plugin(CssCombo, CoreBase()),
      Plugin(LessCss, CoreBase()),
      Plugin(ConcatFiles, map[]),
      Plugin(UglifyJs, CoreBase()),
      Plugin(CssMin, CoreBase()) ]
  }

  /** The position of the first failing plugin, or `|results|` when none fails. */
  function FirstFailure(results: seq<StepResult>): (k: nat)
    ensures k <= |results|
    ensures forall i :: 0 <= i < k ==> results[i].Succeeded?
    ensures k < |results| ==> results[k].Failed?
  {
    if results == [] || results[0].Failed? then 0 else 1 + FirstFailure(results[1..])
  }

  // ---------------------------------------------------------------------
  // Directory steps
  // ---------------------------------------------------------------------

  /** Two directory steps: create-if-absent, and `_makeTempDir` (remove, then create). */
  datatype DirOp = EnsureDir | FreshDir

  /** `_makeTempDir(p)`: an existing tree at `p` is removed, then `p` is created. */
  function FreshDirStep(nodes: Nodes, p: Path): Step {
    MkdirStep(if p in nodes then RemovedTree(nodes, p) else nodes, p)
  }

  /** `path.exists(p)` then `fs.mkdir(p)` only when it is absent. */
  function EnsureDirStep(nodes: Nodes, p: Path): Step {
    if p in nodes then Step(Ok, nodes) else MkdirStep(nodes, p)
  }

  function DirStep(nodes: Nodes, op: DirOp, p: Path): Step {
    match op
    case EnsureDir => EnsureDirStep(nodes, p)
    case FreshDir => FreshDirStep(nodes, p)
  }

  /**
   * `async.forEach` over directories: every step is attempted, and the
   * outcome is the first error in list order.
   */
  function AttemptAll(nodes: Nodes, op: DirOp, ps: seq<Path>): Step
    decreases |ps|
  {
    if ps == [] then Step(Ok, nodes)
    else
      var s := AttemptAll(nodes, op, ps[..|ps| - 1]);
      var t := DirStep(s.nodes, op, ps[|ps| - 1]);
      Step(Then(s.outcome, t.outcome), t.nodes)
  }

  /** `async.forEachSeries` over directories to create if absent: the first error stops the rest. */
  function EnsureInSeries(nodes: Nodes, ps: seq<Path>): Step
    decreases |ps|
  {
    if ps == [] then Step(Ok, nodes)
    else
      var s := EnsureInSeries(nodes, ps[..|ps| - 1]);
      if s.outcome.Ok? then EnsureDirStep(s.nodes, ps[|ps| - 1]) else s
  }

  /** The fixed subdirectories of a version directory. */
  function SubDirs(versionDir: Path): seq<Path> {
    [Join(versionDir, DIRS[0]), Join(versionDir, DIRS[1]), Join(versionDir, DIRS[2])]
  }

  // ---------------------------------------------------------------------
  // addVersion
  // ---------------------------------------------------------------------

  datatype ConfigStep = ConfigStep(outcome: Outcome, nodes: Nodes, config: Config)

  /**
   * The config step of `addVersion`: an absent file is written from the
   * in-memory config; an existing one is parsed and rewritten. The merge
   * `_.defaults(pagejson, self.confg)` names a field that does not exist, so
   * its second argument is `undefined` and the merge is the parsed content.
   */
  function WriteConfigStep(nodes: Nodes, jsonFile: Path, config: Config): ConfigStep {
    if jsonFile !in nodes then
      var w := WriteStep(nodes, jsonFile, Document(config));
      ConfigStep(w.outcome, w.nodes, config)
    else
      match JsonAt(nodes, jsonFile)
      case Unparsable => ConfigStep(Fail(JsonFormatError), nodes, config)
      case Parsed(pageJson) =>
        var merged := Defaults(pageJson, None);
        var w := WriteStep(nodes, jsonFile, Document(merged));
        ConfigStep(w.outcome, w.nodes, merged)
  }

  /** A launcher script is written only when nothing exists at its path. */
  function WriteLauncherStep(nodes: Nodes, p: Path, script: string): Step {
    if p in nodes then Step(Ok, nodes) else WriteStep(nodes, p, Text(script))
  }

  /** The page fields and nodes `addVersion` leaves behind, with its outcome. */
  datatype VersionState = VersionState(outcome: Outcome, nodes: Nodes, config: Config, versionDir: Option<Path>)

  function ConfigFile(rootDir: Path, version: string): Path {
    Join(Join(rootDir, version), JSON_NAME)
  }

  function ShFile(rootDir: Path, version: string): Path {
    Join(Join(rootDir, version), BUILD_SH)
  }

  function BatFile(rootDir: Path, version: string): Path {
    Join(Join(rootDir, version), BUILD_BAT)
  }

  /**
   * The last three steps of `addVersion`: write the config file (again), then
   * each launcher script where none exists yet.
   */
  function LaunchersStep(nodes: Nodes, config: Config, name: string, rootDir: Path, version: string): Step {
    var s4 := WriteStep(nodes, ConfigFile(rootDir, version), Document(config));
    if !s4.outcome.Ok? then s4 else
    var s5 := WriteLauncherStep(s4.nodes, ShFile(rootDir, version), ShLauncher(name, version));
    if !s5.outcome.Ok? then s5 else
    WriteLauncherStep(s5.nodes, BatFile(rootDir, version), BatLauncher(name, version))
  }

  /** The steps of `addVersion` from the config file on, once its directories exist. */
  function ConfigAndLaunchers(nodes: Nodes, config: Config, name: string, rootDir: Path, version: string): ConfigStep {
    var s3 := WriteConfigStep(nodes, ConfigFile(rootDir, version), config);
    if !s3.outcome.Ok? then s3 else
    var rest := LaunchersStep(s3.nodes, s3.config, name, rootDir, version);
    ConfigStep(rest.outcome, rest.nodes, s3.config)
  }

  /** The `async.series` of `addVersion` for an accepted version, stopping at the first error. */
  function ScaffoldSpec(nodes: Nodes, config: Config, name: string, rootDir: Path, version: string): ConfigStep {
    var vdir := Join(rootDir, version);
    var s1 := EnsureDirStep(nodes, vdir);
    if !s1.outcome.Ok? then ConfigStep(s1.outcome, s1.nodes, config) else
    var s2 := AttemptAll(s1.nodes, EnsureDir, SubDirs(vdir));
    if !s2.outcome.Ok? then ConfigStep(s2.outcome, s2.nodes, config) else
    ConfigAndLaunchers(s2.nodes, config, name, rootDir, version)
  }

  /** `addVersion`: validation, then the scaffolding steps. */
  function AddVersionSpec(nodes: Nodes, config: Config, versionDir: Option<Path>,
                          name: string, rootDir: Path, version: string): VersionState
  {
    if version == "" then VersionState(Exit(3), nodes, config, versionDir)
    else if !AcceptedVersion(version) then VersionState(Fail(VersionIllegal), nodes, config, versionDir)
    else
      var s := ScaffoldSpec(nodes, config, name, rootDir, version);
      VersionState(s.outcome, s.nodes, s.config, Some(Join(rootDir, version)))
  }

  // ---------------------------------------------------------------------
  // setVersion
  // ---------------------------------------------------------------------

  /** `self.config.inputCharset || self.charset`: the configured value when truthy, else the fallback. */
  function EffectiveCharset(config: Config, key: string, fallback: string): (r: Json)
    ensures Truthy(Lookup(config, key)) ==> r == Lookup(config, key)
    ensures !Truthy(Lookup(config, key)) ==> r == JString(fallback)
    ensures fallback != "" ==> Truthy(r)
  {
    var v := Lookup(config, key);
    if Truthy(v) then v else JString(fallback)
  }

  // ---------------------------------------------------------------------
  // build
  // ---------------------------------------------------------------------

  /**
   * `_startBuild`: recreate both staging directories (all attempted), copy
   * the version's tree into the source staging directory, then create the
   * timestamp directory and its `core` child in series.
   */
  function StartBuildSpec(nodes: Nodes, srcDir: Path, destDir: Path, versionDir: Path, timestampDir: Path): Step {
    var s1 := AttemptAll(nodes, FreshDir, [srcDir, destDir]);
    if !s1.outcome.Ok? then s1 else
    var copied := CopiedTree(s1.nodes, versionDir, srcDir);
    EnsureInSeries(copied, [timestampDir, Join(timestampDir, "core")])
  }

  /** The manifest `_endBuild` writes; the two times are supplied by the caller's clock. */
  function Manifest(version: string, buildTime: string, usedTime: nat): Config {
    map["build_version" := JString(version),
        "build_time" := JString(buildTime),
        "build_used_time" := JNum(usedTime)]
  }

  /**
   * `_endBuild`: publish the destination staging tree into the timestamp
   * directory, remove both staging trees, then write the manifest, whose
   * write decides the outcome.
   */
  function EndBuildSpec(nodes: Nodes, srcDir: Path, destDir: Path, timestampDir: Path, manifest: Config): Step {
    var published := CopiedTree(nodes, destDir, timestampDir);
    var cleaned := RemovedTree(RemovedTree(published, srcDir), destDir);
    WriteStep(cleaned, Join(timestampDir, BUILD_JSON_NAME), Document(manifest))
  }

  /** What the three stages of `build` return: the outcome, how many plugins ran, the nodes after. */
  datatype BuildRun = BuildRun(outcome: Outcome, invoked: nat, nodes: Nodes)

  /**
   * The `async.series` of `build`: stage; then the plugins, the first
   * failing one (given by `results`) ending the run; then, only after all
   * of them succeeded, publish and clean up.
   */
  function BuildStagesSpec(nodes: Nodes, srcDir: Path, destDir: Path, versionDir: Path, timestampDir: Path,
                           results: seq<StepResult>, manifest: Config): BuildRun
  {
    var start := StartBuildSpec(nodes, srcDir, destDir, versionDir, timestampDir);
    var k := FirstFailure(results);
    if !start.outcome.Ok? then BuildRun(start.outcome, 0, start.nodes)
    else if k < |results| then BuildRun(Fail(PluginFailed(results[k].reason)), k + 1, start.nodes)
    else
      var end := EndBuildSpec(start.nodes, srcDir, destDir, timestampDir, manifest);
      BuildRun(end.outcome, |results|, end.nodes)
  }

  // ---------------------------------------------------------------------
  // The Page class
  // ---------------------------------------------------------------------

  class Page {
    const name: string
    const rootDir: Path
    const srcDir: Path
    const destDir: Path
    const charset: string
    var config: Config
    var plugins: seq<Plugin>
    var version: string                // "" until setVersion
    var nameVersion: string            // name@version, assigned with version
    var versionDir: Option<Path>
    var inputCharset: Option<Json>
    var outputCharset: Option<Json>
    var timestamp: string              // "" until build
    var timestampDir: Option<Path>

    ghost predicate Valid()
      reads this
    {
      && srcDir == Join(rootDir, TEMP_SOURCE_NAME)
      && destDir == Join(rootDir, DEST_DIR_NAME)
      && charset == DEFAULT_CHARSET
      && (version != "" ==> versionDir.Some?)
    }

    constructor (name: string, rootDir: Path)
      ensures Valid()
      ensures this.name == name && this.rootDir == rootDir
      ensures config == DefaultConfig() && plugins == []
      ensures version == "" && nameVersion == "" && versionDir == None
      ensures inputCharset == None && outputCharset == None
      ensures timestamp == "" && timestampDir == None
    {
      this.name := name;
      this.rootDir := rootDir;
      config := DefaultConfig();
      plugins := [];
      srcDir := Join(rootDir, TEMP_SOURCE_NAME);
      destDir := Join(rootDir, DEST_DIR_NAME);
      charset := DEFAULT_CHARSET;
      version := "";
      nameVersion := "";
      versionDir := None;
      inputCharset := None;
      outputCharset := None;
      timestamp := "";
      timestampDir := None;
    }

    /** `addVersion(version)`: scaffold the version directory, its config file and launchers. */
    method AddVersion(version: string, disk: Disk) returns (r: Outcome)
      requires Valid()
      modifies this`versionDir, this`config, disk
      ensures Valid()
      ensures VersionState(r, disk.nodes, config, versionDir)
           == AddVersionSpec(old(disk.nodes), old(config), old(versionDir), name, rootDir, version)
    {
      if version == "" {
        return Exit(3);
      }
      if !AcceptedVersion(version) {
        return Fail(VersionIllegal);
      }
      var vdir := Join(rootDir, version);
      versionDir := Some(vdir);
      var jsonFile := ConfigFile(rootDir, version);
      r := Ok;
      if !disk.Exists(vdir) {
        r := disk.Mkdir(vdir);
        if !r.Ok? {
          return;
        }
      }
      r := ForEachDir(EnsureDir, SubDirs(vdir), disk);
      if !r.Ok? {
        return;
      }
      r := WriteConfig(jsonFile, disk);
      if !r.Ok? {
        return;
      }
      r := disk.WriteFile(jsonFile, Document(config));
      if !r.Ok? {
        return;
      }
      r := WriteLauncher(ShFile(rootDir, version), ShLauncher(name, version), disk);
      if !r.Ok? {
        return;
      }
      r := WriteLauncher(BatFile(rootDir, version), BatLauncher(name, version), disk);
    }

    /** The third step of `addVersion`: write, or read and rewrite, `fb.page.json`. */
    method WriteConfig(jsonFile: Path, disk: Disk) returns (r: Outcome)
      modifies this`config, disk
      ensures ConfigStep(r, disk.nodes, config) == WriteConfigStep(old(disk.nodes), jsonFile, old(config))
    {
      if !disk.Exists(jsonFile) {
        r := disk.WriteFile(jsonFile, Document(config));
        return;
      }
      match disk.ReadJson(jsonFile)
      case Unparsable =>
        r := Fail(JsonFormatError);
      case Parsed(pageJson) =>
        config := Defaults(pageJson, None);
        r := disk.WriteFile(jsonFile, Document(config));
    }

    /** A launcher step of `addVersion`: skipped when the file exists. */
    method WriteLauncher(p: Path, script: string, disk: Disk) returns (r: Outcome)
      modifies disk
      ensures Step(r, disk.nodes) == WriteLauncherStep(old(disk.nodes), p, script)
    {
      if disk.Exists(p) {
        return Ok;
      }
      r := disk.WriteFile(p, Text(script));
    }

    /** `_initDirs` (with `EnsureDir`) and the staging half of `_startBuild` (with `FreshDir`). */
    method ForEachDir(op: DirOp, ps: seq<Path>, disk: Disk) returns (r: Outcome)
      modifies disk
      ensures Step(r, disk.nodes) == AttemptAll(old(disk.nodes), op, ps)
    {
      r := Ok;
      var i := 0;
      while i < |ps|
        invariant 0 <= i <= |ps|
        invariant Step(r, disk.nodes) == AttemptAll(old(disk.nodes), op, ps[..i])
      {
        var s := DirectoryStep(op, ps[i], disk);
        assert ps[..i + 1][..i] == ps[..i];
        r := Then(r, s);
        i := i + 1;
      }
      assert ps[..i] == ps;
    }

    /** One directory step, as `DirStep` describes it. */
    method DirectoryStep(op: DirOp, p: Path, disk: Disk) returns (r: Outcome)
      modifies disk
      ensures Step(r, disk.nodes) == DirStep(old(disk.nodes), op, p)
    {
      match op
      case EnsureDir =>
        r := Ok;
        if !disk.Exists(p) {
          r := disk.Mkdir(p);
        }
      case FreshDir =>
        r := MakeTempDir(p, disk);
    }

    /** `_makeTempDir(p)`. */
    method MakeTempDir(p: Path, disk: Disk) returns (r: Outcome)
      modifies disk
      ensures Step(r, disk.nodes) == FreshDirStep(old(disk.nodes), p)
    {
      if disk.Exists(p) {
        disk.RemoveTree(p);
      }
      r := disk.Mkdir(p);
    }

    /** The timestamp-directory half of `_startBuild`: `async.forEachSeries`, stopping at the first error. */
    method EnsureDirsInSeries(ps: seq<Path>, disk: Disk) returns (r: Outcome)
      modifies disk
      ensures Step(r, disk.nodes) == EnsureInSeries(old(disk.nodes), ps)
    {
      r := Ok;
      var i := 0;
      while i < |ps|
        invariant 0 <= i <= |ps|
        invariant Step(r, disk.nodes) == EnsureInSeries(old(disk.nodes), ps[..i])
        invariant r.Ok?
      {
        assert ps[..i + 1][..i] == ps[..i];
        r := DirectoryStep(EnsureDir, ps[i], disk);
        i := i + 1;
        if !r.Ok? {
          if i < |ps| {
            EnsureInSeriesStops(old(disk.nodes), ps, i);
          }
          return;
        }
      }
      assert ps[..i] == ps;
    }

    /** `setVersion(version)`: `version` is assigned before the directory is checked. */
    method SetVersion(version: string, disk: Disk) returns (r: Outcome)
      requires Valid()
      modifies this`version, this`nameVersion, this`versionDir, this`config
      modifies this`inputCharset, this`outputCharset, this`plugins
      ensures Valid()
      ensures this.version == version && nameVersion == name + "@" + version
      ensures versionDir == Some(Join(rootDir, version))
      ensures Join(rootDir, version) !in disk.nodes ==>
        && r == Fail(VersionNotExist(name + "@" + version))
        && config == old(config) && plugins == old(plugins)
        && inputCharset == old(inputCharset) && outputCharset == old(outputCharset)
      ensures Join(rootDir, version) in disk.nodes && JsonAt(disk.nodes, ConfigFile(rootDir, version)).Unparsable? ==>
        && r == Fail(ReadFailed(ConfigFile(rootDir, version)))
        && config == old(config) && plugins == old(plugins)
        && inputCharset == old(inputCharset) && outputCharset == old(outputCharset)
      ensures Join(rootDir, version) in disk.nodes && JsonAt(disk.nodes, ConfigFile(rootDir, version)).Parsed? ==>
        && r == Ok
        && config == Extend(old(config), JsonAt(disk.nodes, ConfigFile(rootDir, version)).value)
        && inputCharset == Some(EffectiveCharset(config, "inputCharset", DEFAULT_CHARSET))
        && outputCharset == Some(EffectiveCharset(config, "outputCharset", DEFAULT_CHARSET))
        && plugins == old(plugins) + StandardPlugins()
    {
      this.version := version;
      nameVersion := name + "@" + version;
      versionDir := Some(Join(rootDir, version));
      if !disk.Exists(versionDir.value) {
        return Fail(VersionNotExist(name + "@" + version));
      }
      var jsonFile := ConfigFile(rootDir, version);
      match disk.ReadJson(jsonFile)
      case Unparsable =>
        r := Fail(ReadFailed(jsonFile));
      case Parsed(json) =>
        config := Extend(config, json);
        inputCharset := Some(EffectiveCharset(config, "inputCharset", charset));
        outputCharset := Some(EffectiveCharset(config, "outputCharset", charset));
        r := LoadPlugins();
    }

    /** `_loadPlugins`: registers the six plugins through `use`, after whatever is already registered. */
    method LoadPlugins() returns (r: Outcome)
      modifies this`plugins
      ensures plugins == old(plugins) + StandardPlugins()
      ensures r == Ok
    {
      Use(Callable(Plugin(ModuleCompiler, CoreBase())));
      Use(Callable(Plugin(CssCombo, CoreBase())));
      Use(Callable(Plugin(LessCss, CoreBase())));
      Use(Callable(Plugin(ConcatFiles, map[])));
      Use(Callable(Plugin(UglifyJs, CoreBase())));
      Use(Callable(Plugin(CssMin, CoreBase())));
      r := Ok;
    }

    /** `use(plugin)`: a non-function is ignored; a function is appended at the end. */
    method Use(candidate: Candidate)
      modifies this`plugins
      ensures plugins == old(plugins) + (if candidate.Callable? then [candidate.plugin] else [])
    {
      if !candidate.Callable? {
        return;
      }
      plugins := plugins + [candidate.plugin];
    }

    /**
     * `_build`: the plugins run one at a time in list order; `results[i]` is
     * what plugin `i` reports. The first failure stops the run and is the
     * outcome; `invoked` counts the plugins that were called.
     */
    method RunPlugins(results: seq<StepResult>) returns (r: Outcome, invoked: nat)
      requires |results| == |plugins|
      ensures var k := FirstFailure(results);
        if k < |results| then r == Fail(PluginFailed(results[k].reason)) && invoked == k + 1
        else r == Ok && invoked == |plugins|
    {
      invoked := 0;
      while invoked < |plugins|
        invariant invoked <= |plugins|
        invariant forall i :: 0 <= i < invoked ==> results[i].Succeeded?
      {
        var outcome := results[invoked];
        if outcome.Failed? {
          FirstFailureAt(results, invoked);
          return Fail(PluginFailed(outcome.reason)), invoked + 1;
        }
        invoked := invoked + 1;
      }
      FirstFailureAt(results, invoked);
      r := Ok;
    }

    /**
     * `build(timestamp)`: refuses without an activated version or a
     * timestamp; otherwise stages, runs the plugins and, only when they all
     * succeed, publishes and cleans up.
     */
    method Build(timestamp: string, disk: Disk, results: seq<StepResult>, buildTime: string, usedTime: nat)
      returns (r: Outcome, invoked: nat)
      requires Valid() && |results| == |plugins|
      modifies this`timestamp, this`timestampDir, disk
      ensures Valid()
      ensures this.version == "" ==>
        && r == Fail(VersionNotSet) && invoked == 0 && disk.nodes == old(disk.nodes)
        && this.timestamp == old(this.timestamp) && timestampDir == old(timestampDir)
      ensures this.version != "" && timestamp == "" ==>
        && r == Fail(TimestampMissing) && invoked == 0 && disk.nodes == old(disk.nodes)
        && this.timestamp == old(this.timestamp) && timestampDir == old(timestampDir)
      ensures this.version != "" && timestamp != "" ==>
        && this.timestamp == timestamp
        && timestampDir == Some(Join(rootDir, timestamp))
        && BuildRun(r, invoked, disk.nodes)
           == BuildStagesSpec(old(disk.nodes), srcDir, destDir, versionDir.value, Join(rootDir, timestamp),
                              results, Manifest(this.version, buildTime, usedTime))
    {
      invoked := 0;
      if this.version == "" {
        return Fail(VersionNotSet), 0;
      }
      if timestamp == "" {
        return Fail(TimestampMissing), 0;
      }
      this.timestamp := timestamp;
      timestampDir := Some(Join(rootDir, timestamp));
      r, invoked := RunStages(disk, results, buildTime, usedTime);
    }

    /** The `async.series` of `build`: stage, run the plugins, then publish. */
    method RunStages(disk: Disk, results: seq<StepResult>, buildTime: string, usedTime: nat)
      returns (r: Outcome, invoked: nat)
      requires Valid() && versionDir.Some? && timestampDir.Some? && |results| == |plugins|
      modifies disk
      ensures BuildRun(r, invoked, disk.nodes)
           == BuildStagesSpec(old(disk.nodes), srcDir, destDir, versionDir.value, timestampDir.value,
                              results, Manifest(version, buildTime, usedTime))
    {
      invoked := 0;
      r := StartBuild(disk);
      if !r.Ok? {
        return;
      }
      r, invoked := RunPlugins(results);
      if !r.Ok? {
        return;
      }
      r := EndBuild(disk, buildTime, usedTime);
    }

    /** `_startBuild`. */
    method StartBuild(disk: Disk) returns (r: Outcome)
      requires Valid() && versionDir.Some? && timestampDir.Some?
      modifies disk
      ensures Step(r, disk.nodes) == StartBuildSpec(old(disk.nodes), srcDir, destDir, versionDir.value, timestampDir.value)
    {
      r := ForEachDir(FreshDir, [srcDir, destDir], disk);
      if !r.Ok? {
        return;
      }
      disk.CopyTree(versionDir.value, srcDir);
      r := EnsureDirsInSeries([timestampDir.value, Join(timestampDir.value, "core")], disk);
    }

    /** `_endBuild`. */
    method EndBuild(disk: Disk, buildTime: string, usedTime: nat) returns (r: Outcome)
      requires timestampDir.Some?
      modifies disk
      ensures Step(r, disk.nodes)
           == EndBuildSpec(old(disk.nodes), srcDir, destDir, timestampDir.value, Manifest(version, buildTime, usedTime))
    {
      disk.CopyTree(destDir, timestampDir.value);
      disk.RemoveTree(srcDir);
      disk.RemoveTree(destDir);
      r := disk.WriteFile(Join(timestampDir.value, BUILD_JSON_NAME), Document(Manifest(version, buildTime, usedTime)));
    }
  }

  // ---------------------------------------------------------------------
  // Lemmas used by the methods
  // ---------------------------------------------------------------------

  /** Once a step of `EnsureInSeries` fails, the later ones change nothing. */
  lemma {:induction false} EnsureInSeriesStops(nodes: Nodes, ps: seq<Path>, i: nat)
    requires 0 < i <= |ps|
    requires !EnsureInSeries(nodes, ps[..i]).outcome.Ok?
    ensures EnsureInSeries(nodes, ps) == EnsureInSeries(nodes, ps[..i])
    decreases |ps| - i
  {
    if i < |ps| {
      assert ps[..i + 1][..i] == ps[..i];
      EnsureInSeriesStops(nodes, ps, i + 1);
    } else {
      assert ps[..i] == ps;
    }
  }

  /** A failure (or the end) preceded only by successes is where `FirstFailure` stops. */
  lemma {:induction false} FirstFailureAt(results: seq<StepResult>, j: nat)
    requires j <= |results|
    requires forall i :: 0 <= i < j ==> results[i].Succeeded?
    requires j < |results| ==> results[j].Failed?
    ensures FirstFailure(results) == j
    decreases j
  {
    if j > 0 {
      assert results[0].Succeeded?;
      forall i | 0 <= i < j - 1 ensures results[1..][i].Succeeded? {
        assert results[1..][i] == results[i + 1];
      }
      FirstFailureAt(results[1..], j - 1);
    }
  }
}

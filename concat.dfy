/**
 * The concat plugin: `config.concat` maps output names to lists of input
 * files; each entry with a name and at least one non-blank file name becomes
 * one job, and each job writes the contents of its inputs, in order, each
 * followed by the line end that `config.fileFormat` selects.
 */
module Concat {
  import opened Wrappers
  import opened Json
  import opened FileSystem
  import opened PageLifecycle

  // ---------------------------------------------------------------------
  // Line ends
  // ---------------------------------------------------------------------

  /** The `lineEnds` table. */
  const LineEnds: map<string, string> := map["dos" := "\r\n", "unix" := "\n", "mac" := "\r"]

  /**
   * `lineEnds[config.fileFormat || 'unix']`: `None` stands for `undefined`,
   * the lookup of a format the table does not have.
   */
  function LineEndFor(config: Config): (r: Option<string>)
    ensures !Truthy(Lookup(config, "fileFormat")) ==> r == Some("\n")
    ensures r.None? <==> Truthy(Lookup(config, "fileFormat"))
                         && !(Lookup(config, "fileFormat").JString? && Lookup(config, "fileFormat").s in LineEnds)
  {
    var format := Lookup(config, "fileFormat");
    var name := if Truthy(format) then format else JString("unix");
    if name.JString? && name.s in LineEnds then Some(LineEnds[name.s]) else None
  }

  /** `job.lineEnd || '\n'`. */
  function Separator(lineEnd: Option<string>): string {
    if lineEnd.None? || lineEnd.value == "" then "\n" else lineEnd.value
  }

  // ---------------------------------------------------------------------
  // Job derivation
  // ---------------------------------------------------------------------

  /** `.length` of a JSON value, `undefined` (JNull) where it has none. */
  function LengthOf(j: Json): Json {
    match j
    case JString(s) => JNum(|s|)
    case JArray(items) => JNum(|items|)
    case JObject(entries) => LengthEntry(entries)
    case _ => JNull
  }

  function LengthEntry(entries: seq<(string, Json)>): Json {
    if entries == [] then JNull
    else if entries[0].0 == "length" then entries[0].1
    else LengthEntry(entries[1..])
  }

  /**
   * The early exit of the plugin: `!config.concat || !config.concat.length === 0`.
   * The second test compares a boolean with a number and never holds, so
   * only a falsy `concat` exits early.
   */
  function ShortCircuits(config: Config): (r: bool)
    ensures r <==> !Truthy(Lookup(config, "concat"))
  {
    var concat := Lookup(config, "concat");
    !Truthy(concat) || JBool(!Truthy(LengthOf(concat))) == JNum(0)
  }

  /** What `String.prototype.trim` removes: white space and line terminators. */
  predicate IsJsWhitespace(c: char) {
    c == '\t' || c == '\n' || c == '\U{B}' || c == '\U{C}' || c == '\r' || c == ' '
    || c == '\U{A0}' || c == '\U{1680}' || c == '\U{180E}' || ('\U{2000}' <= c <= '\U{200A}')
    || c == '\U{2028}' || c == '\U{2029}' || c == '\U{202F}' || c == '\U{205F}'
    || c == '\U{3000}' || c == '\U{FEFF}'
  }

  function TrimStart(s: string): string {
    if s != [] && IsJsWhitespace(s[0]) then TrimStart(s[1..]) else s
  }

  function TrimEnd(s: string): string {
    if s != [] && IsJsWhitespace(s[|s| - 1]) then TrimEnd(s[..|s| - 1]) else s
  }

  function Trim(s: string): string {
    TrimEnd(TrimStart(s))
  }

  predicate IsBlank(s: string) {
    forall i :: 0 <= i < |s| ==> IsJsWhitespace(s[i])
  }

  /** The filter of the plugin: a string whose trimmed form is not empty. */
  predicate IsFileEntry(j: Json) {
    j.JString? && |Trim(j.s)| > 0
  }

  /** `list.filter(...).map(file => path.resolve(page.srcDir, file))`. */
  function KeptFiles(items: seq<Json>, srcDir: Path): seq<Path> {
    if items == [] then []
    else (if IsFileEntry(items[0]) then [Join(srcDir, items[0].s)] else []) + KeptFiles(items[1..], srcDir)
  }

  /** One `doConcat` job. */
  datatype Job = Job(output: Path, files: seq<Path>, lineEnd: Option<string>)

  /**
   * The body of the `_.each` callback for one entry: no job for an empty
   * name, a list that is not an array, or a list with no file left after
   * filtering.
   */
  function JobFor(entry: (string, Json), srcDir: Path, destDir: Path, lineEnd: Option<string>): Option<Job> {
    var (to, list) := entry;
    if to == "" || !list.JArray? then None
    else
      var files := KeptFiles(list.items, srcDir);
      if files == [] then None else Some(Job(Join(destDir, to), files, lineEnd))
  }

  /** The jobs of a list of entries, in entry order. */
  function JobsFrom(entries: seq<(string, Json)>, srcDir: Path, destDir: Path, lineEnd: Option<string>): seq<Job> {
    if entries == [] then []
    else
      var j := JobFor(entries[0], srcDir, destDir, lineEnd);
      (if j.Some? then [j.value] else []) + JobsFrom(entries[1..], srcDir, destDir, lineEnd)
  }

  /**
   * All jobs the plugin starts for a page's config and staging directories:
   * `_.each` visits the entries of an object-valued `concat` in order.
   */
  function PluginJobs(config: Config, srcDir: Path, destDir: Path): seq<Job> {
    var concat := Lookup(config, "concat");
    if ShortCircuits(config) || !concat.JObject? then []
    else JobsFrom(concat.entries, srcDir, destDir, LineEndFor(config))
  }

  // ---------------------------------------------------------------------
  // Concatenation
  // ---------------------------------------------------------------------

  /** The expected output of a job: each content followed by the separator, in order. */
  function ConcatOutput(contents: seq<string>, sep: string): string {
    if contents == [] then "" else contents[0] + sep + ConcatOutput(contents[1..], sep)
  }

  predicate Readable(nodes: Nodes, p: Path) {
    TextAt(nodes, p).Some?
  }

  /** The position of the first input that is not a readable text file, or `|files|`. */
  function FirstUnreadable(nodes: Nodes, files: seq<Path>): (k: nat)
    ensures k <= |files|
    ensures forall i :: 0 <= i < k ==> Readable(nodes, files[i])
    ensures k < |files| ==> !Readable(nodes, files[k])
  {
    if files == [] || !Readable(nodes, files[0]) then 0 else 1 + FirstUnreadable(nodes, files[1..])
  }

  /** The contents of the readable inputs before the first unreadable one. */
  function TextsOf(nodes: Nodes, files: seq<Path>): (ts: seq<string>)
    ensures |ts| == FirstUnreadable(nodes, files)
    ensures forall i :: 0 <= i < |ts| ==> TextAt(nodes, files[i]) == Some(ts[i])
  {
    if files == [] || !Readable(nodes, files[0]) then []
    else [TextAt(nodes, files[0]).value] + TextsOf(nodes, files[1..])
  }

  /** What a job's output is to hold: its readable inputs' contents, each followed by its separator. */
  function JobText(nodes: Nodes, job: Job): string {
    ConcatOutput(TextsOf(nodes, job.files), Separator(job.lineEnd))
  }

  /**
   * The series over the inputs of `doConcat`: each file is read from the
   * current state and piped to the output stream, then the separator is
   * written; an unreadable input ends the series.
   */
  function ConcatSteps(nodes: Nodes, output: Path, files: seq<Path>, sep: string): Step
    decreases |files|
  {
    if files == [] then Step(Ok, nodes)
    else match TextAt(nodes, files[0])
      case None => Step(Fail(Unreadable(files[0])), nodes)
      case Some(t) =>
        var a := AppendStep(nodes, output, t);
        if !a.outcome.Ok? then a else
        var b := AppendStep(a.nodes, output, sep);
        if !b.outcome.Ok? then b else
        ConcatSteps(b.nodes, output, files[1..], sep)
  }

  /**
   * `doConcat(job)`: a job without files is skipped; otherwise the output
   * stream starts at offset 0, replacing the file, and the series runs.
   */
  function ConcatJobStep(nodes: Nodes, job: Job): Step {
    if job.files == [] then Step(Ok, nodes)
    else
      var truncated := WriteStep(nodes, job.output, Text(""));
      if !truncated.outcome.Ok? then truncated
      else ConcatSteps(truncated.nodes, job.output, job.files, Separator(job.lineEnd))
  }

  /** `async.forEach(jobs, doConcat, next)`: every job runs; the first error in job order is reported. */
  function RunJobs(nodes: Nodes, jobs: seq<Job>): Step
    decreases |jobs|
  {
    if jobs == [] then Step(Ok, nodes)
    else
      var s := RunJobs(nodes, jobs[..|jobs| - 1]);
      var t := ConcatJobStep(s.nodes, jobs[|jobs| - 1]);
      Step(Then(s.outcome, t.outcome), t.nodes)
  }

  // ---------------------------------------------------------------------
  // Methods
  // ---------------------------------------------------------------------

  /** The `_.each` loop that pushes one job per entry that yields one. */
  method DeriveJobs(entries: seq<(string, Json)>, srcDir: Path, destDir: Path, lineEnd: Option<string>)
    returns (jobs: seq<Job>)
    ensures jobs == JobsFrom(entries, srcDir, destDir, lineEnd)
  {
    jobs := [];
    var i := 0;
    while i < |entries|
      invariant 0 <= i <= |entries|
      invariant jobs == JobsFrom(entries[..i], srcDir, destDir, lineEnd)
    {
      var job := JobFor(entries[i], srcDir, destDir, lineEnd);
      if job.Some? {
        jobs := jobs + [job.value];
      }
      JobsFromAppend(entries[..i], [entries[i]], srcDir, destDir, lineEnd);
      assert entries[..i + 1] == entries[..i] + [entries[i]];
      i := i + 1;
    }
    assert entries[..i] == entries;
  }

  /** `doConcat(job)`, writing into the output file in place. */
  method DoConcat(job: Job, disk: Disk) returns (r: Outcome)
    modifies disk
    ensures Step(r, disk.nodes) == ConcatJobStep(old(disk.nodes), job)
    ensures job.files != [] && job.output !in job.files && CanWrite(old(disk.nodes), job.output) ==>
      var k := FirstUnreadable(old(disk.nodes), job.files);
      && disk.nodes == old(disk.nodes)[job.output := File(Text(ConcatOutput(TextsOf(old(disk.nodes), job.files), Separator(job.lineEnd))))]
      && r == (if k == |job.files| then Ok else Fail(Unreadable(job.files[k])))
  {
    var sep := Separator(job.lineEnd);
    if |job.files| == 0 {
      return Ok;
    }
    ghost var before := disk.nodes;
    r := disk.WriteFile(job.output, Text(""));
    if !r.Ok? {
      return;
    }
    ghost var truncated := disk.nodes;
    var i := 0;
    while i < |job.files|
      invariant 0 <= i <= |job.files|
      invariant ConcatSteps(disk.nodes, job.output, job.files[i..], sep) == ConcatSteps(truncated, job.output, job.files, sep)
    {
      var data := disk.ReadText(job.files[i]);
      if data.None? {
        r := Fail(Unreadable(job.files[i]));
        ConcatMeaning(before, truncated, job);
        return;
      }
      var a := disk.Append(job.output, data.value);
      if !a.Ok? {
        r := a;
        ConcatMeaning(before, truncated, job);
        return;
      }
      var b := disk.Append(job.output, sep);
      if !b.Ok? {
        r := b;
        ConcatMeaning(before, truncated, job);
        return;
      }
      assert job.files[i..][1..] == job.files[i + 1..];
      i := i + 1;
    }
    r := Ok;
    ConcatMeaning(before, truncated, job);
  }

  /** The plugin entry: derive the jobs from `page.config`, then run each. */
  method RunPlugin(page: Page, disk: Disk) returns (r: Outcome)
    modifies disk
    ensures Step(r, disk.nodes) == RunJobs(old(disk.nodes), PluginJobs(page.config, page.srcDir, page.destDir))
    ensures !Truthy(Lookup(page.config, "concat")) ==> r == Ok && disk.nodes == old(disk.nodes)
    ensures var jobs := PluginJobs(page.config, page.srcDir, page.destDir);
      page.Valid() && DistinctOutputs(jobs) && r.Ok? ==>
        forall i :: 0 <= i < |jobs| ==>
          jobs[i].output in disk.nodes && disk.nodes[jobs[i].output] == File(Text(JobText(old(disk.nodes), jobs[i])))
  {
    var config := page.config;
    var lineEnd := LineEndFor(config);
    if ShortCircuits(config) {
      return Ok;
    }
    var concat := Lookup(config, "concat");
    if !concat.JObject? {
      return Ok;
    }
    var jobs := DeriveJobs(concat.entries, page.srcDir, page.destDir, lineEnd);
    r := Ok;
    var i := 0;
    while i < |jobs|
      invariant 0 <= i <= |jobs|
      invariant Step(r, disk.nodes) == RunJobs(old(disk.nodes), jobs[..i])
    {
      RunJobsNext(old(disk.nodes), jobs, i);
      var o := DoConcat(jobs[i], disk);
      r := Then(r, o);
      i := i + 1;
    }
    assert jobs[..i] == jobs;
    if page.Valid() && DistinctOutputs(jobs) {
      PluginJobsWellFormed(page);
      RunJobsOutputs(old(disk.nodes), jobs);
    }
  }

  // ---------------------------------------------------------------------
  // Lemmas
  // ---------------------------------------------------------------------

  /** Running one more job continues from the state the earlier jobs left. */
  lemma RunJobsNext(nodes: Nodes, jobs: seq<Job>, i: nat)
    requires i < |jobs|
    ensures var s := RunJobs(nodes, jobs[..i]);
      var t := ConcatJobStep(s.nodes, jobs[i]);
      RunJobs(nodes, jobs[..i + 1]) == Step(Then(s.outcome, t.outcome), t.nodes)
  {
    assert jobs[..i + 1][..i] == jobs[..i];
  }

  /** Job derivation distributes over concatenation of entry lists, so jobs keep entry order. */
  lemma {:induction false} JobsFromAppend(a: seq<(string, Json)>, b: seq<(string, Json)>,
                                          srcDir: Path, destDir: Path, lineEnd: Option<string>)
    ensures JobsFrom(a + b, srcDir, destDir, lineEnd) == JobsFrom(a, srcDir, destDir, lineEnd) + JobsFrom(b, srcDir, destDir, lineEnd)
    decreases |a|
  {
    if a != [] {
      var j := JobFor(a[0], srcDir, destDir, lineEnd);
      var h := if j.Some? then [j.value] else [];
      assert (a + b)[0] == a[0] && (a + b)[1..] == a[1..] + b;
      assert JobsFrom(a + b, srcDir, destDir, lineEnd) == h + JobsFrom(a[1..] + b, srcDir, destDir, lineEnd);
      JobsFromAppend(a[1..], b, srcDir, destDir, lineEnd);
    } else {
      assert a + b == b;
    }
  }

  /** One input of the series: its text and then the separator are appended to the output. */
  lemma ConcatStepsHead(nodes: Nodes, output: Path, files: seq<Path>, sep: string, prefix: string)
    requires files != [] && Readable(nodes, files[0])
    requires output in nodes && nodes[output] == File(Text(prefix))
    ensures ConcatSteps(nodes, output, files, sep)
         == ConcatSteps(nodes[output := File(Text(prefix + TextAt(nodes, files[0]).value + sep))], output, files[1..], sep)
  {
    var t := TextAt(nodes, files[0]).value;
    var a := nodes[output := File(Text(prefix + t))];
    assert AppendStep(nodes, output, t) == Step(Ok, a);
    assert a[output := File(Text(prefix + t + sep))] == nodes[output := File(Text(prefix + t + sep))];
  }

  /** The expected output of a non-empty list: the first content, the separator, then the rest. */
  lemma ConcatOutputCons(t: string, rest: seq<string>, sep: string)
    ensures ConcatOutput([t] + rest, sep) == t + sep + ConcatOutput(rest, sep)
  {
    assert ([t] + rest)[1..] == rest;
  }

  /** With the output not among the inputs, the series fails exactly at the first unreadable input. */
  lemma {:induction false} ConcatStepsOutcome(nodes: Nodes, output: Path, files: seq<Path>, sep: string, prefix: string)
    requires output !in files
    requires output in nodes && nodes[output] == File(Text(prefix))
    ensures var k := FirstUnreadable(nodes, files);
      ConcatSteps(nodes, output, files, sep).outcome == if k == |files| then Ok else Fail(Unreadable(files[k]))
    decreases |files|
  {
    if files != [] && Readable(nodes, files[0]) {
      var p2 := prefix + TextAt(nodes, files[0]).value + sep;
      var b := nodes[output := File(Text(p2))];
      ConcatStepsHead(nodes, output, files, sep, prefix);
      forall f | f in files[1..] ensures TextAt(b, f) == TextAt(nodes, f) {
        assert f in files;
      }
      TextsFrame(b, nodes, files[1..]);
      ConcatStepsOutcome(b, output, files[1..], sep, p2);
      assert FirstUnreadable(nodes, files) == 1 + FirstUnreadable(nodes, files[1..]);
    }
  }

  /**
   * With the output holding `prefix` and not among the inputs, the series
   * leaves it holding `prefix` followed by the expected output of the
   * readable inputs, and changes nothing else.
   */
  lemma {:induction false} ConcatStepsNodes(nodes: Nodes, output: Path, files: seq<Path>, sep: string, prefix: string)
    requires output !in files
    requires output in nodes && nodes[output] == File(Text(prefix))
    ensures ConcatSteps(nodes, output, files, sep).nodes
         == nodes[output := File(Text(prefix + ConcatOutput(TextsOf(nodes, files), sep)))]
    decreases |files|
  {
    if files == [] || !Readable(nodes, files[0]) {
      assert prefix + ConcatOutput(TextsOf(nodes, files), sep) == prefix;
      assert nodes[output := File(Text(prefix))] == nodes;
    } else {
      var t := TextAt(nodes, files[0]).value;
      var p2 := prefix + t + sep;
      var b := nodes[output := File(Text(p2))];
      ConcatStepsHead(nodes, output, files, sep, prefix);
      forall f | f in files[1..] ensures TextAt(b, f) == TextAt(nodes, f) {
        assert f in files;
      }
      TextsFrame(b, nodes, files[1..]);
      ConcatStepsNodes(b, output, files[1..], sep, p2);
      var rest := TextsOf(nodes, files[1..]);
      assert TextsOf(nodes, files) == [t] + rest;
      PrefixStep(prefix, t, sep, rest);
      OverwriteTwice(nodes, output, File(Text(p2)), File(Text(p2 + ConcatOutput(rest, sep))));
    }
  }

  /** Appending one content and the separator to `prefix` advances the expected output by one input. */
  lemma PrefixStep(prefix: string, t: string, sep: string, rest: seq<string>)
    ensures prefix + t + sep + ConcatOutput(rest, sep) == prefix + ConcatOutput([t] + rest, sep)
  {
    ConcatOutputCons(t, rest, sep);
  }

  /** A later write to the same path hides an earlier one. */
  lemma OverwriteTwice(nodes: Nodes, p: Path, first: Node, second: Node)
    ensures nodes[p := first][p := second] == nodes[p := second]
  {
  }

  /** Reading the same text at every input gives the same texts. */
  lemma {:induction false} TextsFrame(n1: Nodes, n2: Nodes, files: seq<Path>)
    requires forall f :: f in files ==> TextAt(n1, f) == TextAt(n2, f)
    ensures TextsOf(n1, files) == TextsOf(n2, files)
    ensures FirstUnreadable(n1, files) == FirstUnreadable(n2, files)
    decreases |files|
  {
    if files != [] {
      assert files[0] in files;
      forall f | f in files[1..] ensures TextAt(n1, f) == TextAt(n2, f) {
        assert f in files;
      }
      TextsFrame(n1, n2, files[1..]);
    }
  }

  /** What `DoConcat`'s series leaves once the output has been truncated. */
  lemma ConcatMeaning(before: Nodes, truncated: Nodes, job: Job)
    requires job.files != [] && CanWrite(before, job.output)
    requires truncated == before[job.output := File(Text(""))]
    ensures job.output !in job.files ==>
      var k := FirstUnreadable(before, job.files);
      ConcatSteps(truncated, job.output, job.files, Separator(job.lineEnd))
        == Step(if k == |job.files| then Ok else Fail(Unreadable(job.files[k])),
                before[job.output := File(Text(ConcatOutput(TextsOf(before, job.files), Separator(job.lineEnd))))])
  {
    if job.output !in job.files {
      var sep := Separator(job.lineEnd);
      forall f | f in job.files ensures TextAt(truncated, f) == TextAt(before, f) {
      }
      TextsFrame(truncated, before, job.files);
      ConcatStepsOutcome(truncated, job.output, job.files, sep, "");
      ConcatStepsNodes(truncated, job.output, job.files, sep, "");
      var out := ConcatOutput(TextsOf(before, job.files), sep);
      assert "" + out == out;
      OverwriteTwice(before, job.output, File(Text("")), File(Text(out)));
    }
  }

  /**
   * A job's result, on its own terms: a job whose output is not one of its
   * inputs either fails to open its output, leaving everything as it was,
   * or replaces the output with the expected concatenation of the readable
   * inputs before the first unreadable one, and fails exactly when there
   * is an unreadable one.
   */
  lemma ConcatJobOutput(nodes: Nodes, job: Job)
    requires job.files != [] && job.output !in job.files
    ensures var s := ConcatJobStep(nodes, job);
      var k := FirstUnreadable(nodes, job.files);
      && (!CanWrite(nodes, job.output) ==> s == Step(Fail(IOFailure(job.output)), nodes))
      && (CanWrite(nodes, job.output) ==>
            && s.nodes == nodes[job.output := File(Text(ConcatOutput(TextsOf(nodes, job.files), Separator(job.lineEnd))))]
            && s.outcome == (if k == |job.files| then Ok else Fail(Unreadable(job.files[k]))))
  {
    if CanWrite(nodes, job.output) {
      ConcatMeaning(nodes, nodes[job.output := File(Text(""))], job);
    }
  }

  /** The separator: `"\r\n"` for `dos`, `"\r"` for `mac`, and `"\n"` for `unix`, an absent format or one the table lacks. */
  lemma SeparatorSelection(config: Config)
    ensures var format := Lookup(config, "fileFormat");
      Separator(LineEndFor(config))
        == if format == JString("dos") then "\r\n" else if format == JString("mac") then "\r" else "\n"
  {
  }

  /** The worked example: `"A"` and `"B"` with the `unix` format give `"A\nB\n"`. */
  lemma ConcatExample()
    ensures ConcatOutput(["A", "B"], Separator(LineEndFor(map["fileFormat" := JString("unix")]))) == "A\nB\n"
    ensures ConcatOutput(["A", "B"], Separator(LineEndFor(map["fileFormat" := JString("dos")]))) == "A\r\nB\r\n"
  {
    ConcatOutputCons("A", ["B"], "\n");
    ConcatOutputCons("B", [], "\n");
    ConcatOutputCons("A", ["B"], "\r\n");
    ConcatOutputCons("B", [], "\r\n");
  }

  /** The expected output of a list of contents followed by one more: the separator follows the last file too. */
  lemma {:induction false} ConcatOutputSnoc(contents: seq<string>, t: string, sep: string)
    ensures ConcatOutput(contents + [t], sep) == ConcatOutput(contents, sep) + t + sep
    decreases |contents|
  {
    if contents == [] {
      assert [] + [t] == [t];
      ConcatOutputCons(t, [], sep);
    } else {
      assert (contents + [t])[1..] == contents[1..] + [t];
      ConcatOutputSnoc(contents[1..], t, sep);
    }
  }

  /** Removing leading white space leaves a blank string exactly when the string was blank. */
  lemma {:induction false} TrimStartBlank(s: string)
    ensures IsBlank(TrimStart(s)) <==> IsBlank(s)
    decreases |s|
  {
    if s != [] && IsJsWhitespace(s[0]) {
      TrimStartBlank(s[1..]);
      assert IsBlank(s) <==> IsBlank(s[1..]) by {
        if IsBlank(s[1..]) {
          forall i | 0 <= i < |s| ensures IsJsWhitespace(s[i]) {
            if i > 0 { assert s[i] == s[1..][i - 1]; }
          }
        }
      }
    }
  }

  /** Removing trailing white space leaves an empty string exactly when the string was blank. */
  lemma {:induction false} TrimEndEmpty(s: string)
    ensures |TrimEnd(s)| == 0 <==> IsBlank(s)
    decreases |s|
  {
    if s != [] && IsJsWhitespace(s[|s| - 1]) {
      TrimEndEmpty(s[..|s| - 1]);
      assert IsBlank(s) <==> IsBlank(s[..|s| - 1]) by {
        if IsBlank(s[..|s| - 1]) {
          forall i | 0 <= i < |s| ensures IsJsWhitespace(s[i]) {
            if i < |s| - 1 { assert s[i] == s[..|s| - 1][i]; }
          }
        }
      }
    }
  }

  /** `file.trim().length > 0` holds exactly for a string with a character that is not white space. */
  lemma TrimEmptyIffBlank(s: string)
    ensures |Trim(s)| == 0 <==> IsBlank(s)
  {
    TrimStartBlank(s);
    TrimEndEmpty(TrimStart(s));
  }

  /** The filter keeps list order: filtering a concatenation is concatenating the filtered parts. */
  lemma {:induction false} KeptFilesAppend(a: seq<Json>, b: seq<Json>, srcDir: Path)
    ensures KeptFiles(a + b, srcDir) == KeptFiles(a, srcDir) + KeptFiles(b, srcDir)
    decreases |a|
  {
    if a == [] {
      assert a + b == b;
    } else {
      var h := if IsFileEntry(a[0]) then [Join(srcDir, a[0].s)] else [];
      assert (a + b)[0] == a[0] && (a + b)[1..] == a[1..] + b;
      assert KeptFiles(a + b, srcDir) == h + KeptFiles(a[1..] + b, srcDir);
      KeptFilesAppend(a[1..], b, srcDir);
    }
  }

  /**
   * The kept files are exactly the non-blank string entries, each resolved
   * against `srcDir`.
   */
  lemma {:induction false} KeptFilesMembers(items: seq<Json>, srcDir: Path, p: Path)
    ensures p in KeptFiles(items, srcDir) <==>
      exists i :: 0 <= i < |items| && items[i].JString? && !IsBlank(items[i].s) && p == Join(srcDir, items[i].s)
    decreases |items|
  {
    if items != [] {
      KeptFilesMembers(items[1..], srcDir, p);
      TrimEmptyIffBlank(if items[0].JString? then items[0].s else "");
      if exists i :: 0 < i < |items| && items[i].JString? && !IsBlank(items[i].s) && p == Join(srcDir, items[i].s) {
        var i :| 0 < i < |items| && items[i].JString? && !IsBlank(items[i].s) && p == Join(srcDir, items[i].s);
        assert items[1..][i - 1] == items[i];
      }
      if exists i :: 0 <= i < |items[1..]| && items[1..][i].JString? && !IsBlank(items[1..][i].s) && p == Join(srcDir, items[1..][i].s) {
        var i :| 0 <= i < |items[1..]| && items[1..][i].JString? && !IsBlank(items[1..][i].s) && p == Join(srcDir, items[1..][i].s);
        assert items[i + 1] == items[1..][i];
      }
    }
  }

  /** A job per entry exactly when the entry has a name, an array list and a non-blank string in it. */
  lemma JobForWhen(entry: (string, Json), srcDir: Path, destDir: Path, lineEnd: Option<string>)
    ensures JobFor(entry, srcDir, destDir, lineEnd).Some? <==>
      && entry.0 != ""
      && entry.1.JArray?
      && exists i :: 0 <= i < |entry.1.items| && entry.1.items[i].JString? && !IsBlank(entry.1.items[i].s)
  {
    if entry.0 != "" && entry.1.JArray? {
      var items := entry.1.items;
      var kept := KeptFiles(items, srcDir);
      if kept != [] {
        KeptFilesMembers(items, srcDir, kept[0]);
      }
      if exists i :: 0 <= i < |items| && items[i].JString? && !IsBlank(items[i].s) {
        var i :| 0 <= i < |items| && items[i].JString? && !IsBlank(items[i].s);
        KeptFilesMembers(items, srcDir, Join(srcDir, items[i].s));
      }
    }
  }

  /** A job is well formed for a page: it has files, its output lies in `destDir` and its inputs in `srcDir`. */
  ghost predicate WellFormedJob(job: Job, srcDir: Path, destDir: Path, lineEnd: Option<string>) {
    && job.files != []
    && |job.output| == |destDir| + 1 && job.output[..|destDir|] == destDir
    && (forall f :: f in job.files ==> |f| == |srcDir| + 1 && f[..|srcDir|] == srcDir)
    && job.lineEnd == lineEnd
  }

  /** Every file kept by the filter is one component beneath `srcDir`. */
  lemma {:induction false} KeptFilesBeneath(items: seq<Json>, srcDir: Path)
    ensures forall f :: f in KeptFiles(items, srcDir) ==> |f| == |srcDir| + 1 && f[..|srcDir|] == srcDir
    decreases |items|
  {
    if items != [] {
      KeptFilesBeneath(items[1..], srcDir);
      if IsFileEntry(items[0]) {
        assert items[0].s != "";
        assert Join(srcDir, items[0].s)[..|srcDir|] == srcDir;
      }
    }
  }

  /**
   * Every job the plugin derives is well formed, so the guard of `doConcat`
   * on a missing target or file list is never taken from the plugin entry.
   */
  lemma {:induction false} DerivedJobsWellFormed(entries: seq<(string, Json)>, srcDir: Path, destDir: Path, lineEnd: Option<string>)
    ensures forall j :: j in JobsFrom(entries, srcDir, destDir, lineEnd) ==> WellFormedJob(j, srcDir, destDir, lineEnd)
    decreases |entries|
  {
    if entries != [] {
      DerivedJobsWellFormed(entries[1..], srcDir, destDir, lineEnd);
      var e := entries[0];
      if e.0 != "" && e.1.JArray? {
        KeptFilesBeneath(e.1.items, srcDir);
        assert Join(destDir, e.0)[..|destDir|] == destDir;
      }
    }
  }

  /** The jobs of a page's plugin run: well formed, and none writes an input of itself or of another job. */
  lemma PluginJobsWellFormed(page: Page)
    requires page.Valid()
    ensures forall j :: j in PluginJobs(page.config, page.srcDir, page.destDir) ==>
      && WellFormedJob(j, page.srcDir, page.destDir, LineEndFor(page.config))
      && j.output !in j.files
    ensures var jobs := PluginJobs(page.config, page.srcDir, page.destDir);
      forall i, k :: 0 <= i < |jobs| && 0 <= k < |jobs| ==> jobs[i].output !in jobs[k].files
  {
    var jobs := PluginJobs(page.config, page.srcDir, page.destDir);
    if !ShortCircuits(page.config) {
      var concat := Lookup(page.config, "concat");
      if concat.JObject? {
        DerivedJobsWellFormed(concat.entries, page.srcDir, page.destDir, LineEndFor(page.config));
      }
    }
    forall i, k | 0 <= i < |jobs| && 0 <= k < |jobs| ensures jobs[i].output !in jobs[k].files {
      assert jobs[i] in jobs && jobs[k] in jobs;
      var root := page.rootDir;
      assert page.srcDir[|root|] != page.destDir[|root|];
    }
  }

  /** The two node maps agree at `p`: both lack it, or both hold the same node there. */
  ghost predicate SameAt(n1: Nodes, n2: Nodes, p: Path) {
    (p in n1 <==> p in n2) && (p in n1 ==> n1[p] == n2[p])
  }

  lemma {:induction false} ConcatStepsFrame(nodes: Nodes, output: Path, files: seq<Path>, sep: string)
    ensures forall p :: p != output ==> SameAt(ConcatSteps(nodes, output, files, sep).nodes, nodes, p)
    decreases |files|
  {
    if files != [] && TextAt(nodes, files[0]).Some? {
      var t := TextAt(nodes, files[0]).value;
      var a := AppendStep(nodes, output, t);
      if a.outcome.Ok? {
        var b := AppendStep(a.nodes, output, sep);
        if b.outcome.Ok? {
          assert ConcatSteps(nodes, output, files, sep) == ConcatSteps(b.nodes, output, files[1..], sep);
          ConcatStepsFrame(b.nodes, output, files[1..], sep);
          forall p | p != output ensures SameAt(ConcatSteps(nodes, output, files, sep).nodes, nodes, p) {
            assert SameAt(ConcatSteps(b.nodes, output, files[1..], sep).nodes, b.nodes, p);
            assert SameAt(b.nodes, nodes, p);
          }
        }
      }
    }
  }

  /** One job changes no path other than its output. */
  lemma ConcatJobFrame(nodes: Nodes, job: Job)
    ensures forall p :: p != job.output ==> SameAt(ConcatJobStep(nodes, job).nodes, nodes, p)
  {
    if job.files != [] {
      var w := WriteStep(nodes, job.output, Text(""));
      if w.outcome.Ok? {
        ConcatStepsFrame(w.nodes, job.output, job.files, Separator(job.lineEnd));
        forall p | p != job.output ensures SameAt(ConcatJobStep(nodes, job).nodes, nodes, p) {
          assert SameAt(ConcatSteps(w.nodes, job.output, job.files, Separator(job.lineEnd)).nodes, w.nodes, p);
        }
      }
    }
  }

  /** The outputs of a list of jobs. */
  function Outputs(jobs: seq<Job>): (r: set<Path>)
    ensures forall i :: 0 <= i < |jobs| ==> jobs[i].output in r
    ensures forall p :: p in r ==> exists i :: 0 <= i < |jobs| && jobs[i].output == p
    decreases |jobs|
  {
    if jobs == [] then {}
    else
      var init := jobs[..|jobs| - 1];
      assert forall i :: 0 <= i < |init| ==> init[i] == jobs[i];
      Outputs(init) + {jobs[|jobs| - 1].output}
  }

  /** A concat run changes no path other than the outputs of its jobs. */
  lemma {:induction false} RunJobsFrame(nodes: Nodes, jobs: seq<Job>)
    ensures forall p :: p !in Outputs(jobs) ==> SameAt(RunJobs(nodes, jobs).nodes, nodes, p)
    decreases |jobs|
  {
    if jobs != [] {
      var init := jobs[..|jobs| - 1];
      var last := jobs[|jobs| - 1];
      RunJobsFrame(nodes, init);
      var s := RunJobs(nodes, init);
      ConcatJobFrame(s.nodes, last);
      forall p | p !in Outputs(jobs) ensures SameAt(RunJobs(nodes, jobs).nodes, nodes, p) {
        assert SameAt(ConcatJobStep(s.nodes, last).nodes, s.nodes, p);
        assert SameAt(s.nodes, nodes, p);
      }
    }
  }

  /** Without a truthy `concat`, the plugin runs no job. */
  lemma NoConcatNoJobs(config: Config, srcDir: Path, destDir: Path)
    ensures !Truthy(Lookup(config, "concat")) ==> PluginJobs(config, srcDir, destDir) == []
    ensures !Lookup(config, "concat").JObject? ==> PluginJobs(config, srcDir, destDir) == []
  {
  }

  /** No two jobs write the same output. */
  ghost predicate DistinctOutputs(jobs: seq<Job>) {
    forall i, k :: 0 <= i < k < |jobs| ==> jobs[i].output != jobs[k].output
  }

  /**
   * Jobs that cannot interfere: each has inputs, no two share an output,
   * and no job reads what any job writes.
   */
  ghost predicate IndependentJobs(jobs: seq<Job>) {
    && DistinctOutputs(jobs)
    && (forall i :: 0 <= i < |jobs| ==> jobs[i].files != [])
    && (forall i, k :: 0 <= i < |jobs| && 0 <= k < |jobs| ==> jobs[i].output !in jobs[k].files)
  }

  /** A run of jobs leaves the texts of inputs that none of them writes as they were. */
  lemma InputsUntouched(nodes: Nodes, jobs: seq<Job>, files: seq<Path>)
    requires forall i :: 0 <= i < |jobs| ==> jobs[i].output !in files
    ensures TextsOf(RunJobs(nodes, jobs).nodes, files) == TextsOf(nodes, files)
  {
    var s := RunJobs(nodes, jobs);
    RunJobsFrame(nodes, jobs);
    forall f | f in files ensures TextAt(s.nodes, f) == TextAt(nodes, f) {
      assert SameAt(s.nodes, nodes, f);
    }
    TextsFrame(s.nodes, nodes, files);
  }

  /**
   * A successful run of independent jobs leaves each output holding the
   * expected concatenation of its inputs as they were before the run, so
   * running the jobs one after another is the same as running each alone.
   */
  lemma {:induction false} RunJobsOutputs(nodes: Nodes, jobs: seq<Job>)
    requires IndependentJobs(jobs)
    ensures var s := RunJobs(nodes, jobs);
      s.outcome.Ok? ==>
        forall i :: 0 <= i < |jobs| ==>
          jobs[i].output in s.nodes && s.nodes[jobs[i].output] == File(Text(JobText(nodes, jobs[i])))
    decreases |jobs|
  {
    if jobs != [] {
      var init := jobs[..|jobs| - 1];
      var last := jobs[|jobs| - 1];
      var s := RunJobs(nodes, init);
      var t := ConcatJobStep(s.nodes, last);
      assert RunJobs(nodes, jobs) == Step(Then(s.outcome, t.outcome), t.nodes);
      if s.outcome.Ok? && t.outcome.Ok? {
        assert forall i :: 0 <= i < |init| ==> init[i] == jobs[i];
        RunJobsOutputs(nodes, init);
        InputsUntouched(nodes, init, last.files);
        ConcatJobOutput(s.nodes, last);
        forall i | 0 <= i < |jobs|
          ensures jobs[i].output in t.nodes && t.nodes[jobs[i].output] == File(Text(JobText(nodes, jobs[i])))
        {
          if i < |init| {
            assert init[i] == jobs[i];
          }
        }
      }
    }
  }
}

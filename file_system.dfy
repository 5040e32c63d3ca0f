/**
 * The file system the page works on, abstracted to a map from paths to
 * nodes, the outcome values that callbacks receive, and the primitive
 * operations of Node's `fs` module and of the page's file utilities
 * (`writeJSON`, `readJSON`, `rmTreeSync`, the charset-converting copies),
 * each given as a pure step function and as a method of the `Disk` class
 * that applies it.
 */
module FileSystem {
  import opened Wrappers
  import opened Json

  /** An abstract path: the names of its components, from the file-system root. */
  type Path = seq<string>

  /**
   * `path.resolve(dir, name)` for a plain name. Node resolves an empty name
   * to `dir` itself; any other name becomes one more component.
   */
  function Join(dir: Path, name: string): Path {
    if name == "" then dir else dir + [name]
  }

  /** `p` is `root` or lies beneath it. */
  predicate Within(root: Path, p: Path) {
    |root| <= |p| && p[..|root|] == root
  }

  /**
   * What a file holds: bytes that are not a JSON object, or a JSON object
   * (what `writeJSON` writes and `readJSON` parses back).
   */
  datatype Content = Text(text: string) | Document(doc: Config)

  datatype Node = Directory | File(content: Content)

  type Nodes = map<Path, Node>

  /** The errors the page and the concat plugin hand to their callbacks. */
  datatype Error =
    | VersionIllegal                    // addVersion: malformed version string
    | JsonFormatError                   // addVersion: existing fb.page.json does not parse
    | VersionNotExist(nameVersion: string) // setVersion: no directory for the version
    | ReadFailed(path: Path)            // setVersion: readJSON failed on the version's config
    | VersionNotSet                     // build before setVersion
    | TimestampMissing                  // build without a timestamp
    | PluginFailed(reason: string)      // the error a plugin passed to its callback
    | IOFailure(path: Path)             // mkdir or a file write failed at this path
    | Unreadable(path: Path)            // a concat input that is not a readable text file

  /**
   * What a callback receives: `null` (Ok), an error, or, for the one place
   * that calls `process.exit`, the exit code.
   */
  datatype Outcome = Ok | Fail(error: Error) | Exit(code: nat)

  /** Sequencing of two outcomes: the first failure wins. */
  function Then(first: Outcome, next: Outcome): Outcome {
    if first.Ok? then next else first
  }

  /** The outcome of one file-system step and the nodes after it. */
  datatype Step = Step(outcome: Outcome, nodes: Nodes)

  /** `readJSON` yields either the parsed object or an error. */
  datatype JsonRead = Parsed(value: Config) | Unparsable

  predicate ParentIsDirectory(nodes: Nodes, p: Path) {
    |p| > 0 && p[..|p| - 1] in nodes && nodes[p[..|p| - 1]] == Directory
  }

  /** `fs.mkdir(p)`: fails when `p` exists or its parent is not a directory. */
  function MkdirStep(nodes: Nodes, p: Path): Step {
    if p !in nodes && ParentIsDirectory(nodes, p) then Step(Ok, nodes[p := Directory])
    else Step(Fail(IOFailure(p)), nodes)
  }

  /** A file may be (re)written where its parent is a directory and it is not itself one. */
  predicate CanWrite(nodes: Nodes, p: Path) {
    ParentIsDirectory(nodes, p) && (p !in nodes || nodes[p].File?)
  }

  /** `fs.writeFile(p, c)` and `writeJSON(p, c)`: replaces the whole file. */
  function WriteStep(nodes: Nodes, p: Path, c: Content): Step {
    if CanWrite(nodes, p) then Step(Ok, nodes[p := File(c)])
    else Step(Fail(IOFailure(p)), nodes)
  }

  /** A write on an open stream: `s` is added at the end of the text file `p`. */
  function AppendStep(nodes: Nodes, p: Path, s: string): Step {
    if p in nodes && nodes[p].File? && nodes[p].content.Text? then
      Step(Ok, nodes[p := File(Text(nodes[p].content.text + s))])
    else Step(Fail(IOFailure(p)), nodes)
  }

  /** `readJSON(p)`: only a file holding a JSON object parses. */
  function JsonAt(nodes: Nodes, p: Path): JsonRead {
    if p in nodes && nodes[p].File? && nodes[p].content.Document? then Parsed(nodes[p].content.doc)
    else Unparsable
  }

  /** The bytes of a text file, if `p` is one. */
  function TextAt(nodes: Nodes, p: Path): Option<string> {
    if p in nodes && nodes[p].File? && nodes[p].content.Text? then Some(nodes[p].content.text)
    else None
  }

  /** `rmTreeSync(root)`: `root` and everything beneath it are gone. */
  function RemovedTree(nodes: Nodes, root: Path): (r: Nodes)
    ensures forall q :: q in r <==> q in nodes && !Within(root, q)
    ensures forall q :: q in r ==> r[q] == nodes[q]
  {
    map q | q in nodes && !Within(root, q) :: nodes[q]
  }

  /** Two paths beneath `from` that land on the same place beneath `to` are the same path. */
  lemma RelocateInjective(from: Path, to: Path, q1: Path, q2: Path)
    requires Within(from, q1) && Within(from, q2)
    requires to + q1[|from|..] == to + q2[|from|..]
    ensures q1 == q2
  {
    assert q1[|from|..] == (to + q1[|from|..])[|to|..];
    assert q2[|from|..] == (to + q2[|from|..])[|to|..];
    assert q1 == q1[..|from|] + q1[|from|..];
    assert q2 == q2[..|from|] + q2[|from|..];
  }

  /** Relocating a path strictly beneath `from` gives one strictly beneath `to`. */
  lemma RelocateBeneath(from: Path, to: Path, q: Path)
    requires Within(from, q) && q != from
    ensures Within(to, to + q[|from|..]) && to + q[|from|..] != to
  {
    assert (to + q[|from|..])[..|to|] == to;
  }

  /** The nodes strictly beneath `from`, moved to the corresponding places beneath `to`. */
  function Relocated(nodes: Nodes, from: Path, to: Path): (m: Nodes)
    ensures forall q :: q in nodes && Within(from, q) && q != from ==>
              to + q[|from|..] in m && m[to + q[|from|..]] == nodes[q]
    ensures forall k :: k in m ==> Within(to, k) && k != to
    ensures forall k :: k in m ==> exists q :: q in nodes && Within(from, q) && q != from && k == to + q[|from|..]
  {
    assert forall q1, q2 | Within(from, q1) && Within(from, q2) && to + q1[|from|..] == to + q2[|from|..] :: q1 == q2 by {
      forall q1, q2 | Within(from, q1) && Within(from, q2) && to + q1[|from|..] == to + q2[|from|..]
        ensures q1 == q2
      {
        RelocateInjective(from, to, q1, q2);
      }
    }
    var m := map q | q in nodes && Within(from, q) && q != from :: to + q[|from|..] := nodes[q];
    forall q | q in nodes && Within(from, q) && q != from
      ensures to + q[|from|..] in m && m[to + q[|from|..]] == nodes[q]
    {
      var k := to + q[|from|..];
      assert k in m;
      var q' :| q' in nodes && Within(from, q') && q' != from && k == to + q'[|from|..];
      RelocateInjective(from, to, q, q');
    }
    forall k | k in m ensures Within(to, k) && k != to {
      var q :| q in nodes && Within(from, q) && q != from && k == to + q[|from|..];
      RelocateBeneath(from, to, q);
    }
    m
  }

  /**
   * The charset-converting copy of the tree under `from` into `to`, with the
   * conversion itself left out: every node strictly beneath `from` appears at
   * the corresponding place beneath `to`, replacing what was there.
   */
  function CopiedTree(nodes: Nodes, from: Path, to: Path): (r: Nodes)
    ensures forall q :: q in nodes && !(Within(to, q) && q != to) ==> q in r && r[q] == nodes[q]
    ensures forall q :: q in nodes && Within(from, q) && q != from ==>
              to + q[|from|..] in r && r[to + q[|from|..]] == nodes[q]
    ensures forall q :: q in r && !(Within(to, q) && q != to) ==> q in nodes
    ensures forall c :: c in r && c !in nodes ==>
              exists q :: q in nodes && Within(from, q) && q != from && c == to + q[|from|..]
  {
    nodes + Relocated(nodes, from, to)
  }

  /** The file system, updated in place by the operations below. */
  class Disk {
    var nodes: Nodes

    constructor (initial: Nodes)
      ensures nodes == initial
    {
      nodes := initial;
    }

    /** `path.exists(p)`: true for a file or a directory. */
    function Exists(p: Path): bool
      reads this
    {
      p in nodes
    }

    /** `readJSON(p)`. */
    function ReadJson(p: Path): JsonRead
      reads this
    {
      JsonAt(nodes, p)
    }

    /** `fs.readFile(p)` on a text file. */
    function ReadText(p: Path): Option<string>
      reads this
    {
      TextAt(nodes, p)
    }

    method Mkdir(p: Path) returns (r: Outcome)
      modifies this
      ensures Step(r, nodes) == MkdirStep(old(nodes), p)
    {
      var s := MkdirStep(nodes, p);
      r, nodes := s.outcome, s.nodes;
    }

    method WriteFile(p: Path, c: Content) returns (r: Outcome)
      modifies this
      ensures Step(r, nodes) == WriteStep(old(nodes), p, c)
    {
      var s := WriteStep(nodes, p, c);
      r, nodes := s.outcome, s.nodes;
    }

    method Append(p: Path, s: string) returns (r: Outcome)
      modifies this
      ensures Step(r, nodes) == AppendStep(old(nodes), p, s)
    {
      var st := AppendStep(nodes, p, s);
      r, nodes := st.outcome, st.nodes;
    }

    method RemoveTree(root: Path)
      modifies this
      ensures nodes == RemovedTree(old(nodes), root)
    {
      nodes := RemovedTree(nodes, root);
    }

    method CopyTree(from: Path, to: Path)
      modifies this
      ensures nodes == CopiedTree(old(nodes), from, to)
    {
      nodes := CopiedTree(nodes, from, to);
    }
  }
}

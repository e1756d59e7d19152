/** The build driver (src/project/manager.rs): from the ketchfile text and
    the files under `./src/` to the compile and link commands `build_project`
    issues, one after the other, stopping at the first failure.

    Launching a command is outside the model: `outcomes[k]` says what became
    of the k-th command issued (it could not be started, or it exited with or
    without success). The recursive directory walk is outside the model too:
    its result is the parameter `tree`. */
module Manager {
  import opened Errors
  import opened Strings
  import opened Config
  import opened Syntax
  import opened ProjectModel

  datatype Command = Command(program: string, args: seq<string>)

  datatype Outcome = LaunchError | Exited(success: bool)

  /** The commands issued, in order, and what `build_project` returns. */
  datatype Trace = Trace(issued: seq<Command>, result: Result<()>)

  /** The directory the walk starts from; every path it yields starts with it. */
  const SourceRoot: string := "./src/"

  /** `parse_file` followed by `Project::from_config`. */
  function LoadProject(ketchfile: string): Result<Project> {
    var vals :- ParseConfig(ketchfile);
    ProjectOf(vals)
  }

  /** The object file for source `f`: `build/`, then `f` without its first
      six characters, every `/` turned into `_` and then every `.c` into `.o`. */
  function ObjectPath(f: string): string
    requires |f| >= 6
  {
    "build/" + ReplaceAll(ReplaceAll(f[6..], "/", "_"), ".c", ".o")
  }

  /** The object path lies directly in `build/`, is as long as the source
      path, and ends in `.o` when the source ends in `.c`. */
  lemma {:induction false} ObjectPathShape(f: string)
    requires StartsWith(f, SourceRoot)
    ensures StartsWith(ObjectPath(f), "build/")
    ensures '/' !in ObjectPath(f)[6..]
    ensures |ObjectPath(f)| == |f|
    ensures EndsWith(f, ".c") ==> EndsWith(ObjectPath(f), ".o")
  {
    var rel := f[6..];
    var flat := ReplaceAll(rel, "/", "_");
    ReplaceAllRemoves(rel, '/', "_");
    ReplaceAllAvoids(flat, ".c", ".o", '/');
    ReplaceAllLength(rel, "/", "_");
    ReplaceAllLength(flat, ".c", ".o");
    assert ObjectPath(f)[6..] == ReplaceAll(flat, ".c", ".o");
    if EndsWith(f, ".c") {
      assert f[5] == '/';
      assert |f| >= 8;
      assert rel[|rel| - 2..] == f[|f| - 2..];
      ReplaceCharPointwise(rel, '/', '_');
      assert flat[|flat| - 2..] == ".c";
      ReplaceSuffix(flat);
      var o := ReplaceAll(flat, ".c", ".o");
      assert ("build/" + o)[|"build/" + o| - 2..] == o[|o| - 2..];
    }
  }

  /** Two sources in different directories can share an object file. */
  lemma {:induction false} ObjectPathCollision()
    ensures ObjectPath("./src/a/b.c") == ObjectPath("./src/a_b.c") == "build/a_b.o"
  {
    NestedObjectPath();
    FlatObjectPath();
  }

  lemma {:induction false} NestedObjectPath()
    ensures ObjectPath("./src/a/b.c") == "build/a_b.o"
  {
    assert "./src/a/b.c"[6..] == "a/b.c";
    SlashName();
    FlatName();
  }

  lemma {:induction false} FlatObjectPath()
    ensures ObjectPath("./src/a_b.c") == "build/a_b.o"
  {
    assert "./src/a_b.c"[6..] == "a_b.c";
    NoSlash();
    FlatName();
  }

  lemma {:induction false} SlashName()
    ensures ReplaceAll("a/b.c", "/", "_") == "a_b.c"
  {
    ReplaceCharPointwise("a/b.c", '/', '_');
    var r := ReplaceAll("a/b.c", "/", "_");
    assert r[0] == 'a' && r[1] == '_' && r[2] == 'b' && r[3] == '.' && r[4] == 'c';
  }

  lemma {:induction false} NoSlash()
    ensures ReplaceAll("a_b.c", "/", "_") == "a_b.c"
  {
    ReplaceCharPointwise("a_b.c", '/', '_');
    var r := ReplaceAll("a_b.c", "/", "_");
    assert r[0] == 'a' && r[1] == '_' && r[2] == 'b' && r[3] == '.' && r[4] == 'c';
  }

  lemma {:induction false} FlatName()
    ensures ReplaceAll("a_b.c", ".c", ".o") == "a_b.o"
  {
    assert ReplaceAll("a_b.c", ".c", ".o") == "a_b.o";
  }

  /** The files the loop compiles: those of the walk whose name ends in `.c`,
      in walk order. */
  function CSources(tree: seq<string>): (files: seq<string>)
    ensures forall f :: f in files <==> f in tree && EndsWith(f, ".c")
    ensures forall i :: 0 <= i < |files| ==> files[i] in tree && EndsWith(files[i], ".c")
    ensures |files| <= |tree|
    decreases |tree|
  {
    if |tree| == 0 then []
    else
      var rest := CSources(tree[1..]);
      assert forall f :: f in tree <==> f == tree[0] || f in tree[1..];
      if EndsWith(tree[0], ".c") then [tree[0]] + rest else rest
  }

  /** A single path is kept exactly when it names a `.c` file. */
  lemma {:induction false} CSourcesSingle(f: string)
    ensures CSources([f]) == if EndsWith(f, ".c") then [f] else []
  {
    assert [f][1..] == [];
  }

  /** The filter keeps walk order and multiplicity: filtering two stretches
      of the walk is filtering each in turn. */
  lemma {:induction false} CSourcesAppend(a: seq<string>, b: seq<string>)
    ensures CSources(a + b) == CSources(a) + CSources(b)
    decreases |a|
  {
    if |a| == 0 {
      assert a + b == b;
    } else {
      CSourcesAppend(a[1..], b);
      assert (a + b)[1..] == a[1..] + b;
      assert (a + b)[0] == a[0];
    }
  }

  /** The arguments of the compile command for `f`: a fresh copy of the
      project's flags, `-fpic` for a shared library, the standard, then the
      source and the object. */
  function CompileArgs(p: Project, f: string): seq<string>
    requires |f| >= 6
  {
    p.flags + (if p.ptype == Shared then ["-fpic"] else [])
    + ["-std=" + RenderStandard(p.standard), "-c", f, "-o", ObjectPath(f)]
  }

  /** The compile arguments begin with the project's flags, contain `-fpic`
      after them exactly for a shared library, and end with the standard,
      `-c f -o` and the object path. */
  lemma {:induction false} CompileArgsShape(p: Project, f: string)
    requires |f| >= 6
    ensures var a := CompileArgs(p, f);
      && a[..|p.flags|] == p.flags
      && ("-fpic" in a[|p.flags|..] <==> p.ptype == Shared)
      && |a| >= 5
      && a[|a| - 5..] == ["-std=" + RenderStandard(p.standard), "-c", f, "-o", ObjectPath(f)]
  {
    var a := CompileArgs(p, f);
    var mid := if p.ptype == Shared then ["-fpic"] else [];
    var tail := ["-std=" + RenderStandard(p.standard), "-c", f, "-o", ObjectPath(f)];
    assert a == p.flags + (mid + tail);
    assert a[|p.flags|..] == mid + tail;
    assert "-fpic" != tail[0] by {
      assert "-fpic"[1] != ("-std=" + RenderStandard(p.standard))[1];
    }
    assert "-fpic" != tail[4] by {
      assert "-fpic"[0] != ObjectPath(f)[0];
    }
    assert "-fpic" !in tail by {
      assert "-fpic" != tail[1] && "-fpic" != tail[3];
    }
    assert a[|a| - 5..] == tail;
  }

  function CompileCommand(p: Project, f: string): Command
    requires |f| >= 6
  {
    Command(p.compiler, CompileArgs(p, f))
  }

  /** The program that links: `ar` for a static library, otherwise the
      project's compiler. */
  function LinkProgram(p: Project): string {
    if p.ptype == Static then "ar" else p.compiler
  }

  /** The file the link produces. */
  function Artifact(p: Project): string {
    match p.ptype
    case Binary => p.name
    case Static => "lib" + p.name + ".a"
    case Shared => "lib" + p.name + ".so"
  }

  /** The link arguments for the objects `objs`. */
  function LinkArgs(p: Project, objs: seq<string>): seq<string> {
    match p.ptype
    case Binary => objs + ["-o", p.name]
    case Static => ["rcs"] + objs + ["lib" + p.name + ".a"]
    case Shared => objs + ["-shared", "-o", "lib" + p.name + ".so"]
  }

  /** The link arguments hold every object, in order, right after `rcs` for
      an archive and first otherwise, and end with the artifact. */
  lemma {:induction false} LinkArgsShape(p: Project, objs: seq<string>)
    ensures var a := LinkArgs(p, objs);
      var at := if p.ptype == Static then 1 else 0;
      && at + |objs| < |a|
      && a[at..at + |objs|] == objs
      && a[|a| - 1] == Artifact(p)
      && (p.ptype == Static ==> a[0] == "rcs" && |a| == |objs| + 2)
      && (p.ptype == Binary ==> a[|objs|] == "-o" && |a| == |objs| + 2)
      && (p.ptype == Shared ==> a[|objs|..|objs| + 2] == ["-shared", "-o"] && |a| == |objs| + 3)
  {
    var a := LinkArgs(p, objs);
    match p.ptype
    case Binary =>
      assert a[0..|objs|] == objs;
    case Static =>
      assert a[1..1 + |objs|] == objs;
    case Shared =>
      assert a[0..|objs|] == objs;
      assert a[|objs|..|objs| + 2] == ["-shared", "-o"];
  }

  /** The object path of each file, in file order. */
  function Objects(files: seq<string>): (objs: seq<string>)
    requires forall i :: 0 <= i < |files| ==> |files[i]| >= 6
    ensures |objs| == |files| && forall i :: 0 <= i < |files| ==> objs[i] == ObjectPath(files[i])
  {
    seq(|files|, i requires 0 <= i < |files| && |files[i]| >= 6 => ObjectPath(files[i]))
  }

  function LinkCommand(p: Project, objs: seq<string>): Command {
    Command(LinkProgram(p), LinkArgs(p, objs))
  }

  /** Every command `build_project` would issue if all succeeded: one
      compile per file in order, then the link of all their objects. */
  function Plan(p: Project, files: seq<string>): (plan: seq<Command>)
    requires forall i :: 0 <= i < |files| ==> |files[i]| >= 6
    ensures |plan| == |files| + 1
    ensures forall i :: 0 <= i < |files| ==> plan[i] == CompileCommand(p, files[i])
    ensures plan[|files|] == LinkCommand(p, Objects(files))
  {
    seq(|files|, i requires 0 <= i < |files| && |files[i]| >= 6 => CompileCommand(p, files[i]))
    + [LinkCommand(p, Objects(files))]
  }

  /** The error a failed command makes `build_project` return. */
  function Failure(c: Command, o: Outcome): Error {
    if o.LaunchError? then LaunchFailed(c.program, c.args) else CommandFailed
  }

  /** The index of the first of the first `n` outcomes that is not a
      successful exit, or `n` when there is none. */
  function FirstFailure(outcomes: seq<Outcome>, n: nat): (k: nat)
    requires n <= |outcomes|
    ensures k <= n
    ensures forall j :: 0 <= j < k ==> outcomes[j] == Exited(true)
    ensures k < n ==> outcomes[k] != Exited(true)
    decreases n
  {
    if n == 0 then 0
    else
      var k := FirstFailure(outcomes, n - 1);
      if k < n - 1 then k
      else if outcomes[n - 1] == Exited(true) then n
      else n - 1
  }

  /** Issuing the commands of `plan` one by one, stopping at the first that
      cannot be launched or does not succeed. */
  function Run(plan: seq<Command>, outcomes: seq<Outcome>): (t: Trace)
    requires |plan| <= |outcomes|
    ensures var k := FirstFailure(outcomes, |plan|);
      if k == |plan| then t == Trace(plan, Ok(()))
      else t == Trace(plan[..k + 1], Err(Failure(plan[k], outcomes[k])))
    decreases |plan|
  {
    if |plan| == 0 then Trace([], Ok(()))
    else if outcomes[0] != Exited(true) then Trace([plan[0]], Err(Failure(plan[0], outcomes[0])))
    else
      var rest := Run(plan[1..], outcomes[1..]);
      FirstFailureShift(outcomes, |plan|);
      var k := FirstFailure(outcomes[1..], |plan| - 1);
      assert k < |plan| - 1 ==> [plan[0]] + plan[1..][..k + 1] == plan[..k + 2];
      assert [plan[0]] + plan[1..] == plan;
      Trace([plan[0]] + rest.issued, rest.result)
  }

  lemma {:induction false} FirstFailureShift(outcomes: seq<Outcome>, n: nat)
    requires 0 < n <= |outcomes| && outcomes[0] == Exited(true)
    ensures FirstFailure(outcomes, n) == FirstFailure(outcomes[1..], n - 1) + 1
  {
    var k := FirstFailure(outcomes, n);
    var k' := FirstFailure(outcomes[1..], n - 1);
    assert forall j :: 1 <= j < n ==> outcomes[j] == outcomes[1..][j - 1];
  }

  /** The whole build: load the project, then run the plan for the `.c`
      files of the walk. */
  function Build(ketchfile: string, tree: seq<string>, outcomes: seq<Outcome>): Trace
    requires forall f :: f in tree ==> StartsWith(f, SourceRoot)
    requires |outcomes| > |tree|
  {
    match LoadProject(ketchfile)
    case Err(e) => Trace([], Err(e))
    case Ok(p) =>
      var files := CSources(tree);
      CSourcesRooted(tree);
      Run(Plan(p, files), outcomes)
  }

  /** Every file kept is long enough to drop the `./src/` prefix from. */
  lemma {:induction false} CSourcesRooted(tree: seq<string>)
    requires forall f :: f in tree ==> StartsWith(f, SourceRoot)
    ensures forall i :: 0 <= i < |CSources(tree)| ==> StartsWith(CSources(tree)[i], SourceRoot)
    ensures forall i :: 0 <= i < |CSources(tree)| ==> |CSources(tree)[i]| >= 6
  {
  }

  /** The compile arguments in the order `build_project` pushes them. */
  lemma {:induction false} CompileArgsBuilt(p: Project, f: string)
    requires |f| >= 6
    ensures CompileArgs(p, f)
      == p.flags + (if p.ptype == Shared then ["-fpic"] else []) + ["-std=" + RenderStandard(p.standard)]
         + ["-c", f, "-o"] + [ObjectPath(f)]
  {
  }

  lemma {:induction false} PrefixStep<T>(s: seq<T>, i: nat)
    requires i < |s|
    ensures s[..i + 1] == s[..i] + [s[i]]
  {
  }

  /** `build_project`: loads the project, keeps the `.c` files of the walk
      and compiles and links them. */
  method BuildProject(ketchfile: string, tree: seq<string>, outcomes: seq<Outcome>)
      returns (r: Result<()>, issued: seq<Command>)
    requires forall f :: f in tree ==> StartsWith(f, SourceRoot)
    requires |outcomes| > |tree|
    ensures Trace(issued, r) == Build(ketchfile, tree, outcomes)
  {
    var vals := ParseString(ketchfile);
    if vals.Err? {
      return Err(vals.error), [];
    }
    var project := FromConfig(vals.value);
    if project.Err? {
      return Err(project.error), [];
    }
    var files := CSources(tree);
    r, issued := CompileAndLink(project.value, files, outcomes);
  }

  /** One turn of the compile loop of `build_project`: the flags are cloned,
      `-fpic` is added for a shared library, then the standard, the source
      and the object path it is compiled to. */
  method CompileStep(p: Project, file: string) returns (command: Command, built: string)
    requires |file| >= 6
    ensures command == CompileCommand(p, file) && built == ObjectPath(file)
  {
    var flags := p.flags;
    if p.ptype == Shared {
      flags := flags + ["-fpic"];
    }
    flags := flags + ["-std=" + RenderStandard(p.standard)];
    flags := flags + ["-c", file, "-o"];
    built := ObjectPath(file);
    flags := flags + [built];
    command := Command(p.compiler, flags);
    CompileArgsBuilt(p, file);
  }

  /** The link command `build_project` issues after every compile: `ar`
      for a static library, the compiler otherwise. */
  method LinkStep(p: Project, objs: seq<string>) returns (link: Command)
    ensures link == LinkCommand(p, objs)
  {
    var program := if p.ptype == Static then "ar" else p.compiler;
    var args := objs;
    match p.ptype {
      case Binary =>
        args := args + ["-o", p.name];
      case Static =>
        args := ["rcs"];
        args := args + objs;
        args := args + ["lib" + p.name + ".a"];
      case Shared =>
        args := args + ["-shared", "-o", "lib" + p.name + ".so"];
    }
    link := Command(program, args);
  }

  /** The body of `build_project` once the project is loaded: the compile
      loop clones the flags for each file and appends the object path to
      `objs` before launching; the first failed launch or unsuccessful exit
      ends the build; the link runs last. */
  method CompileAndLink(p: Project, files: seq<string>, outcomes: seq<Outcome>)
      returns (r: Result<()>, issued: seq<Command>)
    requires forall i :: 0 <= i < |files| ==> |files[i]| >= 6
    requires |outcomes| > |files|
    ensures Trace(issued, r) == Run(Plan(p, files), outcomes)
    ensures r.Ok? <==> forall i :: 0 <= i <= |files| ==> outcomes[i] == Exited(true)
    ensures 0 < |issued| <= |files| + 1
  {
    issued := [];
    ghost var plan := Plan(p, files);
    var objs: seq<string> := [];
    for i := 0 to |files|
      invariant objs == Objects(files[..i])
      invariant issued == plan[..i]
      invariant FirstFailure(outcomes, i) == i
    {
      var command, built := CompileStep(p, files[i]);
      objs := objs + [built];
      assert command == plan[i];
      issued := issued + [command];
      PrefixStep(plan, i);
      if outcomes[i] != Exited(true) {
        assert FirstFailure(outcomes, |plan|) == i;
        RunOutcome(plan, outcomes);
        return Err(Failure(command, outcomes[i])), issued;
      }
      PrefixStep(files, i);
    }
    assert files[..|files|] == files;
    var link := LinkStep(p, objs);
    assert link == plan[|files|];
    issued := issued + [link];
    PrefixStep(plan, |files|);
    assert plan[..|plan|] == plan;
    if outcomes[|files|] != Exited(true) {
      assert FirstFailure(outcomes, |plan|) == |files|;
      RunOutcome(plan, outcomes);
      return Err(Failure(link, outcomes[|files|])), issued;
    }
    assert FirstFailure(outcomes, |plan|) == |plan|;
    RunOutcome(plan, outcomes);
    return Ok(()), issued;
  }

  /** The build succeeds exactly when the project loads and every compile
      and the link exit successfully; a failure to load issues nothing; a
      failed command ends the build right after it, so a failed compile
      leaves the rest of the files and the link unissued. */
  lemma {:induction false} BuildOutcome(ketchfile: string, tree: seq<string>, outcomes: seq<Outcome>)
    requires forall f :: f in tree ==> StartsWith(f, SourceRoot)
    requires |outcomes| > |tree|
    ensures var t := Build(ketchfile, tree, outcomes);
      && (LoadProject(ketchfile).Err? ==> t == Trace([], Err(LoadProject(ketchfile).error)))
      && (t.result.Ok? <==>
            LoadProject(ketchfile).Ok? && forall i :: 0 <= i <= |CSources(tree)| ==> outcomes[i] == Exited(true))
    ensures var t := Build(ketchfile, tree, outcomes);
      LoadProject(ketchfile).Ok? ==>
        var p := LoadProject(ketchfile).value;
        var files := CSources(tree);
        && |files| < |outcomes|
        && (forall i :: 0 <= i < |files| ==> |files[i]| >= 6)
        && (t.result.Ok? ==> t.issued == Plan(p, files))
        && (t.result.Err? ==>
              exists k :: 0 <= k <= |files| && t.issued == Plan(p, files)[..k + 1]
                && outcomes[k] != Exited(true)
                && (forall j :: 0 <= j < k ==> outcomes[j] == Exited(true))
                && t.result.error == Failure(Plan(p, files)[k], outcomes[k]))
  {
    if LoadProject(ketchfile).Ok? {
      var p := LoadProject(ketchfile).value;
      var files := CSources(tree);
      CSourcesRooted(tree);
      RunOutcome(Plan(p, files), outcomes);
    }
  }

  /** Running a plan succeeds exactly when every command of it exits
      successfully; otherwise it stops right after the first that does not. */
  lemma {:induction false} RunOutcome(plan: seq<Command>, outcomes: seq<Outcome>)
    requires |plan| <= |outcomes|
    ensures var t := Run(plan, outcomes);
      && (t.result.Ok? <==> forall i :: 0 <= i < |plan| ==> outcomes[i] == Exited(true))
      && (t.result.Ok? ==> t.issued == plan)
      && (t.result.Err? ==>
            exists k :: 0 <= k < |plan| && t.issued == plan[..k + 1]
              && outcomes[k] != Exited(true)
              && (forall j :: 0 <= j < k ==> outcomes[j] == Exited(true))
              && t.result.error == Failure(plan[k], outcomes[k]))
  {
    var k := FirstFailure(outcomes, |plan|);
    if k < |plan| {
      assert outcomes[k] != Exited(true);
    }
  }

  /** A compile that fails at file `k` issues exactly the compiles of the
      first `k + 1` files and no link. */
  lemma {:induction false} CompileFailureStops(ketchfile: string, tree: seq<string>, outcomes: seq<Outcome>, k: nat)
    requires forall f :: f in tree ==> StartsWith(f, SourceRoot)
    requires |outcomes| > |tree|
    requires LoadProject(ketchfile).Ok?
    requires k < |CSources(tree)|
    requires outcomes[k] != Exited(true) && forall j :: 0 <= j < k ==> outcomes[j] == Exited(true)
    ensures var t := Build(ketchfile, tree, outcomes);
      var p := LoadProject(ketchfile).value;
      var files := CSources(tree);
      && |t.issued| == k + 1
      && (forall j :: 0 <= j <= k ==> |files[j]| >= 6 && t.issued[j] == CompileCommand(p, files[j]))
      && t.result == Err(Failure(CompileCommand(p, files[k]), outcomes[k]))
  {
    var p := LoadProject(ketchfile).value;
    var files := CSources(tree);
    var plan := Plan(p, files);
    assert FirstFailure(outcomes, |plan|) == k;
  }

  /** Each compile names its source and its own `.o` object, and the link
      command lists those objects in file order. */
  lemma {:induction false} CompiledSources(p: Project, files: seq<string>)
    requires forall i :: 0 <= i < |files| ==> StartsWith(files[i], SourceRoot) && EndsWith(files[i], ".c")
    ensures forall i :: 0 <= i < |files| ==> |files[i]| >= 6
    ensures forall i :: 0 <= i < |files| ==>
      var c := Plan(p, files)[i];
      c.program == p.compiler && c.args[|c.args| - 3] == files[i]
      && c.args[|c.args| - 1] == ObjectPath(files[i]) && EndsWith(ObjectPath(files[i]), ".o")
    ensures Plan(p, files)[|files|].program == LinkProgram(p)
    ensures var at := if p.ptype == Static then 1 else 0;
      Plan(p, files)[|files|].args[at..at + |files|] == Objects(files)
  {
    forall i | 0 <= i < |files|
      ensures var c := Plan(p, files)[i];
        c.program == p.compiler && c.args[|c.args| - 3] == files[i]
        && c.args[|c.args| - 1] == ObjectPath(files[i]) && EndsWith(ObjectPath(files[i]), ".o")
    {
      CompileArgsShape(p, files[i]);
      ObjectPathShape(files[i]);
    }
    LinkArgsShape(p, Objects(files));
  }

  /** The ketchfile `create_project` writes for a new project `name`. */
  function KetchfileText(name: string): string {
    "(name " + name + ")" + "\n" + ("(version 0.1.0)" + "\n")
  }

  /** The two forms a new project's ketchfile holds. */
  function NewProjectForms(name: string): seq<ConfigValue> {
    [Pair("name", Single(name)), Pair("version", Single("0.1.0"))]
  }

  /** The text of a pair whose body is one identifier. */
  lemma {:induction false} ShowSingle(key: string, x: string)
    ensures Show(Pair(key, Single(x))) == "(" + key + " " + x + ")"
  {
    assert ShowBody([Ident(x)]) == " " + x + ShowBody([]);
  }

  lemma {:induction false} ShowNameForm(name: string)
    ensures Show(Pair("name", Single(name))) == "(name " + name + ")"
  {
    ShowSingle("name", name);
  }

  lemma {:induction false} ShowVersionForm()
    ensures Show(Pair("version", Single("0.1.0"))) == "(version 0.1.0)"
  {
    ShowSingle("version", "0.1.0");
  }

  /** The ketchfile of a new project is the serialization of its two forms. */
  lemma {:induction false} KetchfileSerializes(name: string)
    ensures KetchfileText(name) == Serialize(NewProjectForms(name))
  {
    var vals := NewProjectForms(name);
    var first := "(name " + name + ")";
    var second := "(version 0.1.0)";
    ShowNameForm(name);
    ShowVersionForm();
    assert Serialize(vals) == first + "\n" + (second + "\n") by {
      assert vals[1..] == [vals[1]];
      assert Serialize([vals[1]]) == second + "\n" + "";
    }
  }

  /** Both forms of a new project's ketchfile are top-level forms. */
  lemma {:induction false} NewProjectFormsTop(name: string)
    requires IsAtom(name)
    ensures forall i :: 0 <= i < |NewProjectForms(name)| ==> Top(NewProjectForms(name)[i])
  {
    var vals := NewProjectForms(name);
    assert Top(vals[0]) by {
      assert Nested(Ident(name));
    }
    assert Top(vals[1]) by {
      assert IsAtom("0.1.0");
      assert Nested(Ident("0.1.0"));
    }
  }

  /** A new project's ketchfile loads as version 0.1.0 with every default,
      for any name that is a single identifier. */
  lemma {:induction false} NewProjectLoads(name: string)
    requires IsAtom(name)
    ensures LoadProject(KetchfileText(name))
         == Ok(Project(name, "0.1.0", DefaultStandard, DefaultCompiler, DefaultFlags, DefaultPType))
  {
    KetchfileSerializes(name);
    NewProjectFormsTop(name);
    RoundTrip(NewProjectForms(name));
    DefaultsWhenAbsent(name, "0.1.0");
  }
}

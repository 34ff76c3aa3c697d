/** The `generate <service>` command of the first generation (generate.go):
    look the service up into the package variables, collect the template
    files, and render each one. For an existing controller only the
    README.md template and the OWNERS files are refreshed; otherwise every
    template is printed (dry run) or written below the output directory. */
module Generate {
  import opened Common
  import opened GoStrings
  import opened Files
  import opened Flags
  import opened Materialize
  import opened ApiUtil

  /** The variables the templates see. */
  datatype TemplateVars = TemplateVars(
    serviceId: string,
    servicePackageName: string,
    serviceAbbreviation: string,
    serviceFullName: string,
    serviceResources: seq<string>,
    awsSdkGoVersion: string,
    runtimeVersion: string)

  /** The template variables after the lookup; the resource list is the
      package's crdNames. */
  function TemplateVarsOf(g: Globals, svcAlias: string, opts: Options): TemplateVars {
    TemplateVars(g.svcID, svcAlias, g.svcAbbreviation, g.svcFullName, g.crdNames, opts.awsSdkGoVersion, opts.runtimeVersion)
  }

  const ReadmeTemplate := "README.md.tpl"
  const OwnersMarker := "OWNERS"

  /** The files an existing controller gets refreshed: the README.md
      template, and every template whose path mentions OWNERS. */
  predicate AllowListed(file: string) {
    HasSuffix(file, ReadmeTemplate) || Contains(file, OwnersMarker)
  }

  /** writeFiles' destination for template `file`. */
  function Destination(opts: Options, cd: string, file: string): Path {
    Join([opts.outputPath, DestName(TemplateDir(cd), file)])
  }

  /** What the loop does with one template. Parsing and executing come
      first, so a broken template stops the command even when it would not
      have been refreshed. A dry run prints under the template's own path. */
  function ActionFor(engine: Engine<TemplateVars>, vars: TemplateVars, opts: Options, cd: string, file: string): Action {
    match Render(engine, file, vars)
    case Err(e) => Abort(e)
    case Ok(out) =>
      if opts.existingController then
        var updateFile := AllowListed(file);
        if opts.dryRun && updateFile then Print(file, TrimSpace(out))
        else if updateFile then Write(Destination(opts, cd, file), out)
        else Skip
      else if opts.dryRun then Print(file, TrimSpace(out))
      else Write(Destination(opts, cd, file), out)
  }

  function ActionsFor(engine: Engine<TemplateVars>, vars: TemplateVars, opts: Options, cd: string, files: seq<string>)
    : (acts: seq<Action>)
    ensures |acts| == |files|
    ensures forall k :: 0 <= k < |files| ==> acts[k] == ActionFor(engine, vars, opts, cd, files[k])
  {
    seq(|files|, k requires 0 <= k < |files| => ActionFor(engine, vars, opts, cd, files[k]))
  }

  /** Everything generateTemplates needs besides the package variables,
      the file system and the options: the working directory, the checkout
      ensureSDKRepo returned, the SDK calls, the pluralizer's singular test,
      the entries the template walk visits, and the template engine. */
  datatype Env = Env(
    cd: string,
    sdkDir: string,
    repo: SdkRepo,
    isSingular: string -> bool,
    walk: seq<WalkEntry>,
    engine: Engine<TemplateVars>)

  function Plan(env: Env, opts: Options, vars: TemplateVars): seq<Action> {
    ActionsFor(env.engine, vars, opts, env.cd, NonDirectories(env.walk))
  }

  /** generateTemplates from the argument check on: the package variables
      and the run it leaves behind. */
  function GenerateSpec(g: Globals, t: Tree, args: seq<string>, env: Env, opts: Options): (Globals, RunResult) {
    if |args| != 1 then (g, RunResult(t, [], Some(Usage)))
    else
      var svcAlias := ToLower(args[0]);
      var (g1, err) := ServiceResourcesSpec(g, env.repo, env.sdkDir, svcAlias, opts, env.isSingular);
      if err.Some? then (g1, RunResult(t, [], err))
      else (g1, Run(t, Plan(env, opts, TemplateVarsOf(g1, svcAlias, opts))))
  }

  /** writeFiles: make sure the destination's directory exists, then write. */
  method WriteFiles(fs: FileSystem, file: string, cd: string, opts: Options, buf: string) returns (err: Option<Error>)
    modifies fs
    ensures Effect(fs.nodes, err) == WriteOut(old(fs.nodes), Destination(opts, cd, file), buf)
  {
    var trimFile := TrimPrefix(file, TemplateDir(cd));
    trimFile := TrimSuffix(trimFile, TemplateSuffix);
    var filePath := Join([opts.outputPath, trimFile]);
    var outDir := Parent(filePath);
    var _, dirErr := EnsureDir(fs, outDir);
    if dirErr.Some? {
      return dirErr;
    }
    err := fs.WriteFile(filePath, buf);
  }

  /** One pass of generateTemplates' template loop. */
  method RenderTemplate(fs: FileSystem, engine: Engine<TemplateVars>, tplVars: TemplateVars, opts: Options,
                        cd: string, file: string) returns (shown: seq<Printed>, err: Option<Error>)
    modifies fs
    ensures RunResult(fs.nodes, shown, err) == Run(old(fs.nodes), [ActionFor(engine, tplVars, opts, cd, file)])
    ensures err.Some? ==> shown == []
  {
    ghost var act := ActionFor(engine, tplVars, opts, cd, file);
    RunOne(fs.nodes, act);
    shown, err := [], None;
    var parseErr := engine.parseError(file);
    if parseErr.Some? {
      return [], Some(ParseFailed(file, parseErr.value));
    }
    var executed := engine.execute(file, tplVars);
    if executed.ExecFailed? {
      return [], Some(ExecuteFailed(file, executed.reason));
    }
    var buf := executed.output;
    if opts.existingController {
      var updateFile := HasSuffix(file, ReadmeTemplate) || Contains(file, OwnersMarker);
      if opts.dryRun && updateFile {
        return [Printed(file, TrimSpace(buf))], None;
      }
      if updateFile {
        err := WriteFiles(fs, file, cd, opts, buf);
      }
    } else {
      if opts.dryRun {
        return [Printed(file, TrimSpace(buf))], None;
      }
      err := WriteFiles(fs, file, cd, opts, buf);
    }
  }

  /** The template loop of generateTemplates: collect the templates the
      walk visited and handle each in turn, stopping at the first error. */
  method RenderTemplates(fs: FileSystem, env: Env, opts: Options, tplVars: TemplateVars)
    returns (printed: seq<Printed>, err: Option<Error>)
    modifies fs
    ensures RunResult(fs.nodes, printed, err) == Run(old(fs.nodes), Plan(env, opts, tplVars))
  {
    printed, err := [], None;
    var filePaths := CollectTemplates(env.walk);
    ghost var acts := Plan(env, opts, tplVars);
    assert acts[0..] == acts;
    for i := 0 to |filePaths|
      invariant Run(old(fs.nodes), acts) == Prepend(printed, Run(fs.nodes, acts[i..]))
    {
      ghost var before := fs.nodes;
      var shown, stepErr := RenderTemplate(fs, env.engine, tplVars, opts, env.cd, filePaths[i]);
      RunAdvance(old(fs.nodes), acts, i, printed, before, RunResult(fs.nodes, shown, stepErr));
      if stepErr.Some? {
        return printed, stepErr;
      }
      printed := printed + shown;
    }
    assert acts[|filePaths|..] == [] && printed + [] == printed;
  }

  /** generateTemplates, without the working-directory and SDK-checkout
      steps, whose results are part of `env`. */
  method GenerateTemplates(pkg: PackageVars, fs: FileSystem, args: seq<string>, env: Env, opts: Options)
    returns (printed: seq<Printed>, err: Option<Error>)
    modifies pkg, fs
    ensures (pkg.Value(), RunResult(fs.nodes, printed, err)) == GenerateSpec(old(pkg.Value()), old(fs.nodes), args, env, opts)
  {
    printed, err := [], None;
    if |args| != 1 {
      return printed, Some(Usage);
    }
    var svcAlias := ToLower(args[0]);
    err := GetServiceResources(pkg, env.repo, env.sdkDir, svcAlias, opts, env.isSingular);
    if err.Some? {
      return printed, err;
    }
    var tplVars := TemplateVars(pkg.svcID, svcAlias, pkg.svcAbbreviation, pkg.svcFullName, pkg.crdNames,
                                opts.awsSdkGoVersion, opts.runtimeVersion);
    printed, err := RenderTemplates(fs, env, opts, tplVars);
  }

  /** Without exactly one argument nothing is looked up or written. */
  lemma UsageChangesNothing(g: Globals, t: Tree, args: seq<string>, env: Env, opts: Options)
    requires |args| != 1
    ensures GenerateSpec(g, t, args, env, opts) == (g, RunResult(t, [], Some(Usage)))
  {
  }

  /** A dry run creates and changes nothing on disk, in either mode. */
  lemma DryRunWritesNothing(g: Globals, t: Tree, args: seq<string>, env: Env, opts: Options)
    requires opts.dryRun
    ensures GenerateSpec(g, t, args, env, opts).1.tree == t
  {
    if |args| == 1 {
      var svcAlias := ToLower(args[0]);
      var (g1, err) := ServiceResourcesSpec(g, env.repo, env.sdkDir, svcAlias, opts, env.isSingular);
      if err.None? {
        RunWithoutWrites(t, Plan(env, opts, TemplateVarsOf(g1, svcAlias, opts)));
      }
    }
  }

  /** `p` is the destination of some template that may be written in this
      mode, or a directory above one. */
  ghost predicate UnderWritable(env: Env, opts: Options, p: Path) {
    var files := NonDirectories(env.walk);
    exists k :: 0 <= k < |files| && (opts.existingController ==> AllowListed(files[k]))
                && p <= Destination(opts, env.cd, files[k])
  }

  /** A prefix of a write's destination is under a writable template. */
  lemma WriteIsWritable(env: Env, opts: Options, vars: TemplateVars, k: int, p: Path)
    requires 0 <= k < |Plan(env, opts, vars)| && Plan(env, opts, vars)[k].Write?
    requires p <= Plan(env, opts, vars)[k].dest
    ensures UnderWritable(env, opts, p)
  {
    var files := NonDirectories(env.walk);
    assert Plan(env, opts, vars)[k] == ActionFor(env.engine, vars, opts, env.cd, files[k]);
  }

  /** The footprint of the template loop, once the variables are known. */
  lemma PlanTouchesOnlyWritable(t: Tree, env: Env, opts: Options, vars: TemplateVars)
    ensures var f := Run(t, Plan(env, opts, vars)).tree;
      && (forall p :: p in t ==> p in f)
      && (forall p :: p in t && t[p].Directory? ==> f[p] == Directory)
      && (forall p :: p in t && t[p].File? ==> f[p].File?)
      && forall p :: p in f && (p !in t || f[p] != t[p]) ==> UnderWritable(env, opts, p)
  {
    var acts := Plan(env, opts, vars);
    RunFootprint(t, acts);
    var f := Run(t, acts).tree;
    forall p | p in f && (p !in t || f[p] != t[p]) ensures UnderWritable(env, opts, p) {
      assert UnderSomeWrite(acts, p);
      var k :| 0 <= k < |acts| && acts[k].Write? && p <= acts[k].dest;
      WriteIsWritable(env, opts, vars, k, p);
    }
  }

  /** Only destinations are touched, and for an existing controller only
      those of the README.md and OWNERS templates (and the directories
      above them); directories stay directories and files stay files. */
  lemma TouchesOnlyWritable(g: Globals, t: Tree, args: seq<string>, env: Env, opts: Options)
    ensures var f := GenerateSpec(g, t, args, env, opts).1.tree;
      && (forall p :: p in t ==> p in f)
      && (forall p :: p in t && t[p].Directory? ==> f[p] == Directory)
      && (forall p :: p in t && t[p].File? ==> f[p].File?)
      && forall p :: p in f && (p !in t || f[p] != t[p]) ==> UnderWritable(env, opts, p)
  {
    if |args| == 1 {
      var svcAlias := ToLower(args[0]);
      var (g1, err) := ServiceResourcesSpec(g, env.repo, env.sdkDir, svcAlias, opts, env.isSingular);
      if err.None? {
        PlanTouchesOnlyWritable(t, env, opts, TemplateVarsOf(g1, svcAlias, opts));
      }
    }
  }

  /** A run that writes and succeeds leaves the rendering of every template
      it may write (all of them for a new controller, the README.md and
      OWNERS ones for an existing controller) at its destination, the last
      one when two share a destination. */
  lemma WritesEveryWritableTemplate(g: Globals, t: Tree, args: seq<string>, env: Env, opts: Options, k: nat)
    requires !opts.dryRun && GenerateSpec(g, t, args, env, opts).1.err == None
    requires k < |NonDirectories(env.walk)|
    requires opts.existingController ==> AllowListed(NonDirectories(env.walk)[k])
    ensures var (g1, r) := GenerateSpec(g, t, args, env, opts);
      var files := NonDirectories(env.walk);
      var dest := Destination(opts, env.cd, files[k]);
      var rendered := Render(env.engine, files[k], TemplateVarsOf(g1, ToLower(args[0]), opts));
      && |args| == 1 && rendered.Ok?
      && dest in r.tree && r.tree[dest].File? && Parent(dest) in r.tree && r.tree[Parent(dest)] == Directory
      && ((forall j :: k < j < |files| && (opts.existingController ==> AllowListed(files[j]))
             ==> Destination(opts, env.cd, files[j]) != dest)
          ==> r.tree[dest] == File(rendered.value))
  {
    var svcAlias := ToLower(args[0]);
    var (g1, _) := ServiceResourcesSpec(g, env.repo, env.sdkDir, svcAlias, opts, env.isSingular);
    var acts := Plan(env, opts, TemplateVarsOf(g1, svcAlias, opts));
    RunMaterializes(t, acts);
    assert acts[k].Write?;
  }

  /** What a dry run prints: each template that is shown in this mode,
      under its own path, with its trimmed rendering. */
  function DryRunListing(engine: Engine<TemplateVars>, vars: TemplateVars, opts: Options, files: seq<string>): seq<Printed> {
    if files == [] then []
    else
      var shown :=
        match Render(engine, files[0], vars)
        case Ok(out) => if !opts.existingController || AllowListed(files[0]) then [Printed(files[0], TrimSpace(out))] else []
        case Err(_) => [];
      shown + DryRunListing(engine, vars, opts, files[1..])
  }

  lemma {:induction false} PrintsAreListing(engine: Engine<TemplateVars>, vars: TemplateVars, opts: Options, cd: string,
                                            files: seq<string>)
    requires opts.dryRun
    ensures Prints(ActionsFor(engine, vars, opts, cd, files)) == DryRunListing(engine, vars, opts, files)
    decreases |files|
  {
    if files != [] {
      var acts := ActionsFor(engine, vars, opts, cd, files);
      assert acts[1..] == ActionsFor(engine, vars, opts, cd, files[1..]);
      PrintsAreListing(engine, vars, opts, cd, files[1..]);
    }
  }

  /** Every entry of the listing is a template shown in this mode (any
      template for a new controller, a README.md or OWNERS template for an
      existing controller), with its trimmed rendering. */
  lemma {:induction false} DryRunListingSound(engine: Engine<TemplateVars>, vars: TemplateVars, opts: Options,
                                              files: seq<string>)
    ensures forall e :: e in DryRunListing(engine, vars, opts, files) ==>
      && e.name in files
      && (opts.existingController ==> AllowListed(e.name))
      && Render(engine, e.name, vars).Ok?
      && e.body == TrimSpace(Render(engine, e.name, vars).value)
    decreases |files|
  {
    if files != [] {
      DryRunListingSound(engine, vars, opts, files[1..]);
    }
  }

  /** When every template renders, each template shown in this mode is in
      the listing with its trimmed rendering. */
  lemma {:induction false} DryRunListingComplete(engine: Engine<TemplateVars>, vars: TemplateVars, opts: Options,
                                                 files: seq<string>)
    requires forall k :: 0 <= k < |files| ==> Render(engine, files[k], vars).Ok?
    ensures forall p :: p in files && (!opts.existingController || AllowListed(p)) ==>
      Printed(p, TrimSpace(Render(engine, p, vars).value)) in DryRunListing(engine, vars, opts, files)
    decreases |files|
  {
    if files != [] {
      var rest := files[1..];
      assert forall k :: 0 <= k < |rest| ==> rest[k] == files[k + 1];
      DryRunListingComplete(engine, vars, opts, rest);
      assert forall p :: p in files ==> p == files[0] || p in rest;
    }
  }

  /** For a new controller the listing has one entry per template. */
  lemma {:induction false} DryRunListingLength(engine: Engine<TemplateVars>, vars: TemplateVars, opts: Options,
                                               files: seq<string>)
    requires !opts.existingController
    requires forall k :: 0 <= k < |files| ==> Render(engine, files[k], vars).Ok?
    ensures |DryRunListing(engine, vars, opts, files)| == |files|
    decreases |files|
  {
    if files != [] {
      var rest := files[1..];
      assert forall k :: 0 <= k < |rest| ==> rest[k] == files[k + 1];
      DryRunListingLength(engine, vars, opts, rest);
    }
  }

  /** A dry run that succeeds renders every template and prints the
      listing. */
  lemma DryRunPrintsListing(g: Globals, t: Tree, args: seq<string>, env: Env, opts: Options)
    requires opts.dryRun && GenerateSpec(g, t, args, env, opts).1.err == None
    ensures var (g1, r) := GenerateSpec(g, t, args, env, opts);
      var vars := TemplateVarsOf(g1, ToLower(args[0]), opts);
      var files := NonDirectories(env.walk);
      && (forall k :: 0 <= k < |files| ==> Render(env.engine, files[k], vars).Ok?)
      && r.printed == DryRunListing(env.engine, vars, opts, files)
  {
    var svcAlias := ToLower(args[0]);
    var (g1, _) := ServiceResourcesSpec(g, env.repo, env.sdkDir, svcAlias, opts, env.isSingular);
    var vars := TemplateVarsOf(g1, svcAlias, opts);
    var files := NonDirectories(env.walk);
    var acts := Plan(env, opts, vars);
    RunMaterializes(t, acts);
    forall k | 0 <= k < |files| ensures Render(env.engine, files[k], vars).Ok? {
      assert !acts[k].Abort?;
    }
    RunPrints(t, acts);
    PrintsAreListing(env.engine, vars, opts, env.cd, files);
  }

  /** In a dry run where every template renders, the loop only prints or
      skips. */
  lemma DryRunPlanSucceeds(t: Tree, env: Env, opts: Options, vars: TemplateVars)
    requires opts.dryRun
    requires forall k :: 0 <= k < |NonDirectories(env.walk)| ==> Render(env.engine, NonDirectories(env.walk)[k], vars).Ok?
    ensures Run(t, Plan(env, opts, vars)).err == None
  {
    var acts := Plan(env, opts, vars);
    forall k | 0 <= k < |acts| ensures !acts[k].Abort? && !acts[k].Write? {
      assert acts[k] == ActionFor(env.engine, vars, opts, env.cd, NonDirectories(env.walk)[k]);
    }
    RunOnlyPrintsSucceeds(t, acts);
  }

  /** A template that does not render makes the loop fail. */
  lemma PlanFailsAt(t: Tree, env: Env, opts: Options, vars: TemplateVars, k: nat)
    requires k < |NonDirectories(env.walk)| && Render(env.engine, NonDirectories(env.walk)[k], vars).Err?
    ensures Run(t, Plan(env, opts, vars)).err.Some?
  {
    AbortStops(t, Plan(env, opts, vars), k);
  }

  /** A dry run with one argument succeeds exactly when the service
      lookup succeeds and every template parses and executes, including
      those an existing controller would not show. */
  lemma DryRunSucceedsIff(g: Globals, t: Tree, args: seq<string>, env: Env, opts: Options)
    requires opts.dryRun && |args| == 1
    ensures GenerateSpec(g, t, args, env, opts).1.err == None <==>
      var (g1, err) := ServiceResourcesSpec(g, env.repo, env.sdkDir, ToLower(args[0]), opts, env.isSingular);
      && err == None
      && forall k :: 0 <= k < |NonDirectories(env.walk)| ==>
           Render(env.engine, NonDirectories(env.walk)[k], TemplateVarsOf(g1, ToLower(args[0]), opts)).Ok?
  {
    var svcAlias := ToLower(args[0]);
    var (g1, err) := ServiceResourcesSpec(g, env.repo, env.sdkDir, svcAlias, opts, env.isSingular);
    if err == None {
      var vars := TemplateVarsOf(g1, svcAlias, opts);
      var files := NonDirectories(env.walk);
      if forall k :: 0 <= k < |files| ==> Render(env.engine, files[k], vars).Ok? {
        DryRunPlanSucceeds(t, env, opts, vars);
      } else {
        var k :| 0 <= k < |files| && Render(env.engine, files[k], vars).Err?;
        PlanFailsAt(t, env, opts, vars, k);
      }
    }
  }

  /** The first template that fails to parse or execute ends the command
      with its error, whether or not it would have been refreshed: the
      templates before it have been handled, none after it is. */
  lemma StopsAtFirstRenderError(g: Globals, t: Tree, args: seq<string>, env: Env, opts: Options, k: nat)
    requires |args| == 1
    requires ServiceResourcesSpec(g, env.repo, env.sdkDir, ToLower(args[0]), opts, env.isSingular).1 == None
    requires k < |NonDirectories(env.walk)|
    requires var g1 := ServiceResourcesSpec(g, env.repo, env.sdkDir, ToLower(args[0]), opts, env.isSingular).0;
      Render(env.engine, NonDirectories(env.walk)[k], TemplateVarsOf(g1, ToLower(args[0]), opts)).Err?
    ensures var g1 := ServiceResourcesSpec(g, env.repo, env.sdkDir, ToLower(args[0]), opts, env.isSingular).0;
      var vars := TemplateVarsOf(g1, ToLower(args[0]), opts);
      var acts := Plan(env, opts, vars);
      var before := Run(t, acts[..k]);
      var failure := Render(env.engine, NonDirectories(env.walk)[k], vars).error;
      GenerateSpec(g, t, args, env, opts).1 == if before.err.Some? then before else before.(err := Some(failure))
  {
    var svcAlias := ToLower(args[0]);
    var g1 := ServiceResourcesSpec(g, env.repo, env.sdkDir, svcAlias, opts, env.isSingular).0;
    AbortStops(t, Plan(env, opts, TemplateVarsOf(g1, svcAlias, opts)), k);
  }

  /** Running the command again, in a fresh process (the same starting
      package variables), on what a successful run produced, changes
      nothing on disk and prints the same. */
  lemma RegenerateIsIdempotent(g: Globals, t: Tree, args: seq<string>, env: Env, opts: Options)
    requires GenerateSpec(g, t, args, env, opts).1.err == None
    ensures var r := GenerateSpec(g, t, args, env, opts).1;
      GenerateSpec(g, r.tree, args, env, opts).1 == r
  {
    var svcAlias := ToLower(args[0]);
    var (g1, _) := ServiceResourcesSpec(g, env.repo, env.sdkDir, svcAlias, opts, env.isSingular);
    RunIdempotent(t, Plan(env, opts, TemplateVarsOf(g1, svcAlias, opts)));
  }
}

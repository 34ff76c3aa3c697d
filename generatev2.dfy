/** The `generate` command of the second generation (generatev2.go): look
    up the service, collect the template files, and render each one, either
    to standard output (dry run) or to the same relative path below the
    output directory. */
module GenerateV2 {
  import opened Common
  import opened GoStrings
  import opened Files
  import opened Flags
  import opened Materialize
  import opened ApiUtilV2

  /** The variables the templates see. The outer ServiceModelName is the
      raw model-name option and hides the lower-cased one of the metadata. */
  datatype TemplateVars = TemplateVars(
    meta: Option<MetaVars>,
    awsSdkGoVersion: string,
    runtimeVersion: string,
    serviceModelName: string)

  function TemplateVarsOf(meta: Option<MetaVars>, opts: Options): TemplateVars {
    TemplateVars(meta, opts.awsSdkGoVersion, opts.runtimeVersion, opts.modelName)
  }

  /** Where the rendering of the template at `tplPath` goes. */
  function Destination(opts: Options, tplDir: string, tplPath: string): Path {
    Join([opts.outputPath, DestName(tplDir, tplPath)])
  }

  /** What the loop does with one template: stop at a parse or execution
      error, print in a dry run, write otherwise. */
  function ActionFor(engine: Engine<TemplateVars>, vars: TemplateVars, opts: Options, tplDir: string, tplPath: string): Action {
    match Render(engine, tplPath, vars)
    case Err(e) => Abort(e)
    case Ok(out) =>
      if opts.dryRun then Print(DestName(tplDir, tplPath), TrimSpace(out))
      else Write(Destination(opts, tplDir, tplPath), out)
  }

  function ActionsFor(engine: Engine<TemplateVars>, vars: TemplateVars, opts: Options, tplDir: string, paths: seq<string>)
    : (acts: seq<Action>)
    ensures |acts| == |paths|
    ensures forall k :: 0 <= k < |paths| ==> acts[k] == ActionFor(engine, vars, opts, tplDir, paths[k])
  {
    seq(|paths|, k requires 0 <= k < |paths| => ActionFor(engine, vars, opts, tplDir, paths[k]))
  }

  /** Everything generateController needs besides the file system and the
      options: the working directory, the SDK checkout, the pluralizer's
      singular test, the entries the template walk visits, and the
      template engine. */
  datatype Env = Env(
    cd: string,
    sdk: Sdk,
    isSingular: string -> bool,
    walk: seq<WalkEntry>,
    engine: Engine<TemplateVars>)

  /** The template actions once the service metadata is known. */
  function Plan(env: Env, opts: Options, meta: Option<MetaVars>): seq<Action> {
    ActionsFor(env.engine, TemplateVarsOf(meta, opts), opts, TemplateDir(env.cd), NonDirectories(env.walk))
  }

  /** generateController from the service lookup on. */
  function GenerateSpec(t: Tree, env: Env, opts: Options): RunResult {
    match ServiceResourcesSpec(env.sdk, opts, env.isSingular)
    case Err(e) => RunResult(t, [], Some(e))
    case Ok(meta) => Run(t, Plan(env, opts, meta))
  }

  /** One pass of generateController's template loop: parse and execute
      the template, then print it (dry run) or make sure the destination's
      directory exists and write the file. */
  method RenderTemplate(fs: FileSystem, engine: Engine<TemplateVars>, tplVars: TemplateVars, opts: Options,
                        tplDir: string, tplPath: string) returns (shown: seq<Printed>, err: Option<Error>)
    modifies fs
    ensures RunResult(fs.nodes, shown, err) == Run(old(fs.nodes), [ActionFor(engine, tplVars, opts, tplDir, tplPath)])
    ensures err.Some? ==> shown == []
  {
    ghost var t := fs.nodes;
    ghost var act := ActionFor(engine, tplVars, opts, tplDir, tplPath);
    RunOne(t, act);
    shown, err := [], None;
    var parseErr := engine.parseError(tplPath);
    if parseErr.Some? {
      return [], Some(ParseFailed(tplPath, parseErr.value));
    }
    var executed := engine.execute(tplPath, tplVars);
    if executed.ExecFailed? {
      return [], Some(ExecuteFailed(tplPath, executed.reason));
    }
    var buf := executed.output;
    assert Render(engine, tplPath, tplVars) == Ok(buf);
    var file := TrimPrefix(tplPath, tplDir);
    file := TrimSuffix(file, TemplateSuffix);
    if opts.dryRun {
      return [Printed(file, TrimSpace(buf))], None;
    }
    var outPath := Join([opts.outputPath, file]);
    assert act == Write(outPath, buf);
    var outDir := Parent(outPath);
    var _, dirErr := EnsureDir(fs, outDir);
    if dirErr.Some? {
      return [], dirErr;
    }
    err := fs.WriteFile(outPath, buf);
  }

  /** The template loop of generateController: collect the templates the
      walk visited and handle each in turn, stopping at the first error. */
  method RenderTemplates(fs: FileSystem, env: Env, opts: Options, meta: Option<MetaVars>)
    returns (printed: seq<Printed>, err: Option<Error>)
    modifies fs
    ensures RunResult(fs.nodes, printed, err) == Run(old(fs.nodes), Plan(env, opts, meta))
  {
    printed, err := [], None;
    var tplDir := TemplateDir(env.cd);
    var tplVars := TemplateVarsOf(meta, opts);
    var tplPaths := CollectTemplates(env.walk);
    ghost var acts := Plan(env, opts, meta);
    assert acts[0..] == acts;
    for i := 0 to |tplPaths|
      invariant Run(old(fs.nodes), acts) == Prepend(printed, Run(fs.nodes, acts[i..]))
    {
      ghost var before := fs.nodes;
      var shown, stepErr := RenderTemplate(fs, env.engine, tplVars, opts, tplDir, tplPaths[i]);
      RunAdvance(old(fs.nodes), acts, i, printed, before, RunResult(fs.nodes, shown, stepErr));
      if stepErr.Some? {
        return printed, stepErr;
      }
      printed := printed + shown;
    }
    assert acts[|tplPaths|..] == [] && printed + [] == printed;
  }

  /** generateController, without the home-directory, SDK-checkout and
      working-directory steps, whose results are part of `env`. */
  method GenerateController(fs: FileSystem, env: Env, opts: Options) returns (printed: seq<Printed>, err: Option<Error>)
    modifies fs
    ensures RunResult(fs.nodes, printed, err) == GenerateSpec(old(fs.nodes), env, opts)
  {
    var svcVars := GetServiceResources(env.sdk, opts, env.isSingular);
    if svcVars.Err? {
      return [], Some(svcVars.error);
    }
    printed, err := RenderTemplates(fs, env, opts, svcVars.value);
  }

  /** A dry run creates and changes nothing on disk. */
  lemma DryRunWritesNothing(t: Tree, env: Env, opts: Options)
    requires opts.dryRun
    ensures GenerateSpec(t, env, opts).tree == t
  {
    var meta := ServiceResourcesSpec(env.sdk, opts, env.isSingular);
    if meta.Ok? {
      RunWithoutWrites(t, Plan(env, opts, meta.value));
    }
  }

  /** A dry run that succeeds prints every template, in walk order, under
      its destination name, with the rendering trimmed of white space. */
  lemma DryRunPrintsEveryTemplate(t: Tree, env: Env, opts: Options)
    requires opts.dryRun && GenerateSpec(t, env, opts).err == None
    ensures var r := GenerateSpec(t, env, opts);
      var meta := ServiceResourcesSpec(env.sdk, opts, env.isSingular);
      var paths := NonDirectories(env.walk);
      && meta.Ok?
      && |r.printed| == |paths|
      && forall k :: 0 <= k < |paths| ==>
           var rendered := Render(env.engine, paths[k], TemplateVarsOf(meta.value, opts));
           rendered.Ok? && r.printed[k] == Printed(DestName(TemplateDir(env.cd), paths[k]), TrimSpace(rendered.value))
  {
    var meta := ServiceResourcesSpec(env.sdk, opts, env.isSingular);
    var acts := Plan(env, opts, meta.value);
    RunMaterializes(t, acts);
    RunPrints(t, acts);
    PrintsAll(acts);
  }

  /** In a dry run where every template renders, the loop only prints. */
  lemma DryRunPlanSucceeds(t: Tree, env: Env, opts: Options, meta: Option<MetaVars>)
    requires opts.dryRun
    requires forall k :: 0 <= k < |NonDirectories(env.walk)| ==>
      Render(env.engine, NonDirectories(env.walk)[k], TemplateVarsOf(meta, opts)).Ok?
    ensures Run(t, Plan(env, opts, meta)).err == None
  {
    var acts := Plan(env, opts, meta);
    forall k | 0 <= k < |acts| ensures !acts[k].Abort? && !acts[k].Write? {
      assert acts[k] == ActionFor(env.engine, TemplateVarsOf(meta, opts), opts, TemplateDir(env.cd), NonDirectories(env.walk)[k]);
    }
    RunOnlyPrintsSucceeds(t, acts);
  }

  /** A template that does not render makes the loop fail. */
  lemma PlanFailsAt(t: Tree, env: Env, opts: Options, meta: Option<MetaVars>, k: nat)
    requires k < |NonDirectories(env.walk)|
    requires Render(env.engine, NonDirectories(env.walk)[k], TemplateVarsOf(meta, opts)).Err?
    ensures Run(t, Plan(env, opts, meta)).err.Some?
  {
    AbortStops(t, Plan(env, opts, meta), k);
  }

  /** A dry run succeeds exactly when the service lookup succeeds and
      every template parses and executes. */
  lemma DryRunSucceedsIff(t: Tree, env: Env, opts: Options)
    requires opts.dryRun
    ensures GenerateSpec(t, env, opts).err == None <==>
      var meta := ServiceResourcesSpec(env.sdk, opts, env.isSingular);
      && meta.Ok?
      && forall k :: 0 <= k < |NonDirectories(env.walk)| ==>
           Render(env.engine, NonDirectories(env.walk)[k], TemplateVarsOf(meta.value, opts)).Ok?
  {
    var meta := ServiceResourcesSpec(env.sdk, opts, env.isSingular);
    if meta.Ok? {
      var paths := NonDirectories(env.walk);
      if forall k :: 0 <= k < |paths| ==> Render(env.engine, paths[k], TemplateVarsOf(meta.value, opts)).Ok? {
        DryRunPlanSucceeds(t, env, opts, meta.value);
      } else {
        var k :| 0 <= k < |paths| && Render(env.engine, paths[k], TemplateVarsOf(meta.value, opts)).Err?;
        PlanFailsAt(t, env, opts, meta.value, k);
      }
    }
  }

  /** A run that succeeds leaves every template's rendering at its
      destination (the last one when two templates share a destination),
      below a directory. */
  lemma WritesEveryTemplate(t: Tree, env: Env, opts: Options, k: nat)
    requires !opts.dryRun && GenerateSpec(t, env, opts).err == None
    requires k < |NonDirectories(env.walk)|
    ensures var f := GenerateSpec(t, env, opts).tree;
      var meta := ServiceResourcesSpec(env.sdk, opts, env.isSingular);
      var paths := NonDirectories(env.walk);
      var dest := Destination(opts, TemplateDir(env.cd), paths[k]);
      var rendered := Render(env.engine, paths[k], TemplateVarsOf(meta.value, opts));
      && meta.Ok? && rendered.Ok?
      && dest in f && f[dest].File? && Parent(dest) in f && f[Parent(dest)] == Directory
      && ((forall j :: k < j < |paths| ==> Destination(opts, TemplateDir(env.cd), paths[j]) != dest)
            ==> f[dest] == File(rendered.value))
  {
    var meta := ServiceResourcesSpec(env.sdk, opts, env.isSingular);
    var acts := Plan(env, opts, meta.value);
    RunMaterializes(t, acts);
    assert acts[k].Write?;
  }

  /** `p` is the destination of some template, or a directory above one. */
  ghost predicate UnderDestination(env: Env, opts: Options, p: Path) {
    exists k :: 0 <= k < |NonDirectories(env.walk)| && p <= Destination(opts, TemplateDir(env.cd), NonDirectories(env.walk)[k])
  }

  /** Only the output tree is touched: every path a run adds or changes is
      a template's destination or a directory above one, directories stay
      directories and files stay files. */
  lemma TouchesOnlyDestinations(t: Tree, env: Env, opts: Options)
    ensures var f := GenerateSpec(t, env, opts).tree;
      && (forall p :: p in t ==> p in f)
      && (forall p :: p in t && t[p].Directory? ==> f[p] == Directory)
      && (forall p :: p in t && t[p].File? ==> f[p].File?)
      && forall p :: p in f && (p !in t || f[p] != t[p]) ==> UnderDestination(env, opts, p)
  {
    var meta := ServiceResourcesSpec(env.sdk, opts, env.isSingular);
    if meta.Ok? {
      var acts := Plan(env, opts, meta.value);
      var paths := NonDirectories(env.walk);
      var tplDir := TemplateDir(env.cd);
      RunFootprint(t, acts);
      var f := Run(t, acts).tree;
      forall p | p in f && (p !in t || f[p] != t[p]) ensures UnderDestination(env, opts, p) {
        assert UnderSomeWrite(acts, p);
        var k :| 0 <= k < |acts| && acts[k].Write? && p <= acts[k].dest;
        assert acts[k].dest == Destination(opts, tplDir, paths[k]);
      }
    }
  }

  /** The first template that fails to parse or execute ends the command
      with its error: the templates before it have been handled, none after
      it is. */
  lemma StopsAtFirstRenderError(t: Tree, env: Env, opts: Options, k: nat)
    requires ServiceResourcesSpec(env.sdk, opts, env.isSingular).Ok?
    requires k < |NonDirectories(env.walk)|
    requires Render(env.engine, NonDirectories(env.walk)[k],
               TemplateVarsOf(ServiceResourcesSpec(env.sdk, opts, env.isSingular).value, opts)).Err?
    ensures var meta := ServiceResourcesSpec(env.sdk, opts, env.isSingular).value;
      var paths := NonDirectories(env.walk);
      var acts := Plan(env, opts, meta);
      var before := Run(t, acts[..k]);
      var failure := Render(env.engine, paths[k], TemplateVarsOf(meta, opts)).error;
      GenerateSpec(t, env, opts) == if before.err.Some? then before else before.(err := Some(failure))
  {
    var meta := ServiceResourcesSpec(env.sdk, opts, env.isSingular).value;
    AbortStops(t, Plan(env, opts, meta), k);
  }

  /** A failed service lookup ends the command before any template. */
  lemma LookupFailureWritesNothing(t: Tree, env: Env, opts: Options)
    requires ServiceResourcesSpec(env.sdk, opts, env.isSingular).Err?
    ensures GenerateSpec(t, env, opts) == RunResult(t, [], Some(ServiceApiNotFound))
  {
  }

  /** Generating again into what a successful run produced changes nothing
      and prints the same. */
  lemma RegenerateIsIdempotent(t: Tree, env: Env, opts: Options)
    requires GenerateSpec(t, env, opts).err == None
    ensures GenerateSpec(GenerateSpec(t, env, opts).tree, env, opts) == GenerateSpec(t, env, opts)
  {
    var meta := ServiceResourcesSpec(env.sdk, opts, env.isSingular);
    if meta.Ok? {
      RunIdempotent(t, Plan(env, opts, meta.value));
    }
  }
}

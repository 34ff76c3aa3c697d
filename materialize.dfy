/** What both generations do with a template tree: collect the files the
    walk visits, render each against the template variables, and either
    print the result (dry run) or write it below the output path. The render
    loop of each generation is specified by the sequence of Actions it takes
    per template and by `Run`, which plays those actions on a file tree. */
module Materialize {
  import opened Common
  import opened GoStrings
  import opened Files

  /** One entry as filepath.Walk visits it. */
  datatype WalkEntry = WalkEntry(path: string, isDir: bool)

  /** The paths the walk callback collects: the non-directories, in walk order. */
  function NonDirectories(walk: seq<WalkEntry>): seq<string> {
    if walk == [] then []
    else (if walk[0].isDir then [] else [walk[0].path]) + NonDirectories(walk[1..])
  }

  /** A path is collected exactly when the walk visited it as a non-directory. */
  lemma {:induction false} NonDirectoriesMembers(walk: seq<WalkEntry>, p: string)
    ensures p in NonDirectories(walk) <==> exists k :: 0 <= k < |walk| && !walk[k].isDir && walk[k].path == p
  {
    if walk != [] {
      NonDirectoriesMembers(walk[1..], p);
      if exists k :: 0 <= k < |walk| && !walk[k].isDir && walk[k].path == p {
        var k :| 0 <= k < |walk| && !walk[k].isDir && walk[k].path == p;
        if k > 0 {
          assert walk[1..][k - 1] == walk[k];
        }
      }
    }
  }

  /** One step of the walk callback: entry i is appended unless it is a
      directory. */
  lemma NonDirectoriesStep(acc: seq<string>, walk: seq<WalkEntry>, i: nat)
    requires i < |walk|
    ensures acc + NonDirectories(walk[i..])
         == (acc + (if walk[i].isDir then [] else [walk[i].path])) + NonDirectories(walk[i + 1..])
  {
    assert walk[i..][0] == walk[i] && walk[i..][1..] == walk[i + 1..];
    var c := if walk[i].isDir then [] else [walk[i].path];
    var later := NonDirectories(walk[i + 1..]);
    assert acc + (c + later) == (acc + c) + later;
  }

  /** The walk callback of both generations: append every non-directory. */
  method CollectTemplates(walk: seq<WalkEntry>) returns (paths: seq<string>)
    ensures paths == NonDirectories(walk)
  {
    paths := [];
    assert walk[0..] == walk && [] + NonDirectories(walk) == NonDirectories(walk);
    for i := 0 to |walk|
      invariant NonDirectories(walk) == paths + NonDirectories(walk[i..])
    {
      NonDirectoriesStep(paths, walk, i);
      if !walk[i].isDir {
        paths := paths + [walk[i].path];
      } else {
        assert paths + [] == paths;
      }
    }
    assert walk[|walk|..] == [] && paths + [] == paths;
  }

  /** filepath.Join(cd, "template") as text, for the clean absolute `cd`
      that os.Getwd returns. */
  function TemplateDir(cd: string): string {
    if cd == "" then "template"
    else if cd[|cd| - 1] == '/' then cd + "template"
    else cd + "/template"
  }

  const TemplateSuffix := ".tpl"

  /** The file name a template renders to: its path without the template
      directory in front and without one ".tpl" at the end. */
  function DestName(tplDir: string, tplPath: string): string {
    TrimSuffix(TrimPrefix(tplPath, tplDir), TemplateSuffix)
  }

  /** Putting the template directory and the suffix back around the name
      gives the template path again; a prefix or suffix that is not there
      is left alone. */
  lemma DestNameRestores(tplDir: string, tplPath: string)
    ensures var name := DestName(tplDir, tplPath);
      var rel := TrimPrefix(tplPath, tplDir);
      (HasPrefix(tplPath, tplDir) ==> tplDir + rel == tplPath)
      && (HasSuffix(rel, TemplateSuffix) ==> name + TemplateSuffix == rel)
      && (!HasSuffix(rel, TemplateSuffix) ==> name == rel)
      && (HasPrefix(tplPath, tplDir) && HasSuffix(rel, TemplateSuffix) ==> tplDir + name + TemplateSuffix == tplPath)
  {
    var name := DestName(tplDir, tplPath);
    var rel := TrimPrefix(tplPath, tplDir);
    if HasPrefix(tplPath, tplDir) && HasSuffix(rel, TemplateSuffix) {
      assert tplDir + name + TemplateSuffix == tplDir + (name + TemplateSuffix);
    }
  }

  /** What text/template's Execute produced for one template. */
  datatype Execution = Executed(output: string) | ExecFailed(reason: string)

  /** text/template, kept abstract: whether a template file fails to parse
      (and why), and what executing it against variables `V` gives. */
  datatype Engine<!V> = Engine(parseError: string -> Option<string>, execute: (string, V) -> Execution)

  /** ParseFiles, then Execute into a buffer. */
  function Render<V>(engine: Engine<V>, file: string, vars: V): (r: Result<string>)
    ensures r.Err? <==> engine.parseError(file).Some? || engine.execute(file, vars).ExecFailed?
  {
    match engine.parseError(file)
    case Some(reason) => Err(ParseFailed(file, reason))
    case None =>
      match engine.execute(file, vars)
      case ExecFailed(reason) => Err(ExecuteFailed(file, reason))
      case Executed(out) => Ok(out)
  }

  /** A file shown on standard output in a dry run: the header names it,
      the body is the trimmed rendering. */
  datatype Printed = Printed(name: string, body: string)

  /** What the render loop does with one template. */
  datatype Action =
    | Print(name: string, body: string)
    | Write(dest: Path, content: string)
    | Skip
    | Abort(error: Error)

  /** What a run of the loop leaves behind: the file tree, what it printed,
      and the error it returned, if any. */
  datatype RunResult = RunResult(tree: Tree, printed: seq<Printed>, err: Option<Error>)

  datatype Effect = Effect(tree: Tree, err: Option<Error>)

  /** ensureDir on the parent, then WriteFile. Only the destination and
      new directories above it can change. */
  function WriteOut(t: Tree, dest: Path, content: string): (e: Effect)
    ensures forall p :: p in t ==> p in e.tree
    ensures forall p :: p in t && p != dest ==> e.tree[p] == t[p]
    ensures forall p :: p in t && t[p].Directory? ==> e.tree[p] == Directory
    ensures dest in t && t[dest].File? ==> e.tree[dest].File?
    ensures forall p :: p in e.tree && p !in t ==> p <= dest
    ensures e.err == None ==> dest in e.tree && e.tree[dest] == File(content)
    ensures e.err == None ==> Parent(dest) in e.tree && e.tree[Parent(dest)] == Directory
  {
    var dir := Parent(dest);
    assert dir <= dest;
    match EnsureDirSpec(t, dir).result
    case Err(err) => Effect(t, Some(err))
    case Ok(t1) =>
      assert forall p :: p in t1 && p !in t ==> p <= dir;
      match WriteFileSpec(t1, dest, content)
      case Err(err) => Effect(t1, Some(err))
      case Ok(t2) => Effect(t2, None)
  }

  function Prepend(ps: seq<Printed>, r: RunResult): RunResult {
    r.(printed := ps + r.printed)
  }

  /** The render loop: act on each template in turn; the first error ends
      the run and leaves whatever was written before it. */
  function Run(t: Tree, acts: seq<Action>): RunResult
    decreases |acts|
  {
    if acts == [] then RunResult(t, [], None)
    else
      match acts[0]
      case Abort(e) => RunResult(t, [], Some(e))
      case Skip => Run(t, acts[1..])
      case Print(n, b) => Prepend([Printed(n, b)], Run(t, acts[1..]))
      case Write(d, c) =>
        var e := WriteOut(t, d, c);
        if e.err.Some? then RunResult(e.tree, [], e.err) else Run(e.tree, acts[1..])
  }

  /** No action of `acts` writes to `p`. */
  ghost predicate NotWritten(acts: seq<Action>, p: Path) {
    forall k :: 0 <= k < |acts| && acts[k].Write? ==> acts[k].dest != p
  }

  /** `p` is a destination of some write of `acts`, or a directory above one. */
  ghost predicate UnderSomeWrite(acts: seq<Action>, p: Path) {
    exists k :: 0 <= k < |acts| && acts[k].Write? && p <= acts[k].dest
  }

  /** The printed output of a run without error: every Print action, in order. */
  function Prints(acts: seq<Action>): seq<Printed> {
    if acts == [] then []
    else (if acts[0].Print? then [Printed(acts[0].name, acts[0].body)] else []) + Prints(acts[1..])
  }

  /** `f` only adds to `t` by the writes of `acts`: existing paths stay,
      directories stay directories, files stay files, a path no action
      writes keeps its node, and every path that is new or changed is a
      destination or lies above one. */
  ghost predicate Grows(t: Tree, f: Tree, acts: seq<Action>) {
    && (forall p :: p in t ==> p in f)
    && (forall p :: p in t && t[p].Directory? ==> f[p] == Directory)
    && (forall p :: p in t && t[p].File? ==> f[p].File?)
    && (forall p :: p in t && NotWritten(acts, p) ==> f[p] == t[p])
    && (forall p :: p in f && (p !in t || f[p] != t[p]) ==> UnderSomeWrite(acts, p))
  }

  /** Growth by the later actions is growth by all of them. */
  lemma GrowsByTail(t: Tree, f: Tree, acts: seq<Action>)
    requires acts != [] && !acts[0].Write? && Grows(t, f, acts[1..])
    ensures Grows(t, f, acts)
  {
    var rest := acts[1..];
    forall p | NotWritten(acts, p) ensures NotWritten(rest, p) {
      forall k | 0 <= k < |rest| && rest[k].Write? ensures rest[k].dest != p {
        assert rest[k] == acts[k + 1];
      }
    }
    forall p | UnderSomeWrite(rest, p) ensures UnderSomeWrite(acts, p) {
      var k :| 0 <= k < |rest| && rest[k].Write? && p <= rest[k].dest;
      assert acts[k + 1] == rest[k];
    }
  }

  /** A first write followed by growth by the later actions is growth by
      all of them. */
  lemma GrowsAfterWrite(t: Tree, m: Tree, f: Tree, acts: seq<Action>)
    requires acts != [] && acts[0].Write? && m == WriteOut(t, acts[0].dest, acts[0].content).tree
    requires Grows(m, f, acts[1..])
    ensures Grows(t, f, acts)
  {
    var rest := acts[1..];
    var d := acts[0].dest;
    forall p | NotWritten(acts, p) ensures NotWritten(rest, p) && p != d {
      assert acts[0].dest != p;
      forall k | 0 <= k < |rest| && rest[k].Write? ensures rest[k].dest != p {
        assert rest[k] == acts[k + 1];
      }
    }
    forall p | UnderSomeWrite(rest, p) ensures UnderSomeWrite(acts, p) {
      var k :| 0 <= k < |rest| && rest[k].Write? && p <= rest[k].dest;
      assert acts[k + 1] == rest[k];
    }
    forall p | p in m && (p !in t || m[p] != t[p]) ensures UnderSomeWrite(acts, p) {
      assert p <= d;
    }
  }

  /** A run only adds: existing paths stay, directories stay directories,
      files stay files, a path no action writes keeps its node, and every
      path that is new or changed is a destination or lies above one. */
  lemma {:induction false} RunFootprint(t: Tree, acts: seq<Action>)
    ensures var f := Run(t, acts).tree;
      && (forall p :: p in t ==> p in f)
      && (forall p :: p in t && t[p].Directory? ==> f[p] == Directory)
      && (forall p :: p in t && t[p].File? ==> f[p].File?)
      && (forall p :: p in t && NotWritten(acts, p) ==> f[p] == t[p])
      && (forall p :: p in f && (p !in t || f[p] != t[p]) ==> UnderSomeWrite(acts, p))
    decreases |acts|
  {
    if acts != [] {
      var rest := acts[1..];
      var f := Run(t, acts).tree;
      match acts[0]
      case Abort(_) =>
      case Skip =>
        RunFootprint(t, rest);
        GrowsByTail(t, f, acts);
      case Print(_, _) =>
        RunFootprint(t, rest);
        GrowsByTail(t, f, acts);
      case Write(d, c) =>
        var e := WriteOut(t, d, c);
        if e.err == None {
          RunFootprint(e.tree, rest);
          GrowsAfterWrite(t, e.tree, f, acts);
        } else {
          GrowsAfterWrite(t, e.tree, f, acts);
        }
    }
  }

  /** Actions that write nothing leave the tree as it was: a dry run never
      creates or changes a file system entry. */
  lemma {:induction false} RunWithoutWrites(t: Tree, acts: seq<Action>)
    requires forall k :: 0 <= k < |acts| ==> !acts[k].Write?
    ensures Run(t, acts).tree == t
    decreases |acts|
  {
    if acts != [] {
      assert forall k :: 0 <= k < |acts[1..]| ==> acts[1..][k] == acts[k + 1];
      RunWithoutWrites(t, acts[1..]);
    }
  }

  /** Actions that neither abort nor write always succeed: the tree is
      left as it was and every Print action is shown, in order. */
  lemma {:induction false} RunOnlyPrintsSucceeds(t: Tree, acts: seq<Action>)
    requires forall k :: 0 <= k < |acts| ==> !acts[k].Abort? && !acts[k].Write?
    ensures Run(t, acts) == RunResult(t, Prints(acts), None)
    decreases |acts|
  {
    if acts != [] {
      assert forall k :: 0 <= k < |acts[1..]| ==> acts[1..][k] == acts[k + 1];
      RunOnlyPrintsSucceeds(t, acts[1..]);
    }
  }

  /** A run that ends without error printed every Print action, in order. */
  lemma {:induction false} RunPrints(t: Tree, acts: seq<Action>)
    requires Run(t, acts).err == None
    ensures Run(t, acts).printed == Prints(acts)
    decreases |acts|
  {
    if acts != [] {
      match acts[0]
      case Abort(_) =>
      case Skip => RunPrints(t, acts[1..]);
      case Print(_, _) => RunPrints(t, acts[1..]);
      case Write(d, c) => RunPrints(WriteOut(t, d, c).tree, acts[1..]);
    }
  }

  /** When every action prints, the printed output lists them all, in order. */
  lemma {:induction false} PrintsAll(acts: seq<Action>)
    requires forall k :: 0 <= k < |acts| ==> acts[k].Print?
    ensures |Prints(acts)| == |acts|
    ensures forall k :: 0 <= k < |acts| ==> Prints(acts)[k] == Printed(acts[k].name, acts[k].body)
    decreases |acts|
  {
    if acts != [] {
      assert forall k :: 0 <= k < |acts[1..]| ==> acts[1..][k] == acts[k + 1];
      PrintsAll(acts[1..]);
    }
  }

  /** Running `a + b` is running `a`, then, if that ended without error,
      running `b` on what `a` left. */
  lemma {:induction false} RunConcat(t: Tree, a: seq<Action>, b: seq<Action>)
    ensures Run(t, a + b) ==
      var r := Run(t, a);
      if r.err.Some? then r else Prepend(r.printed, Run(r.tree, b))
    decreases |a|
  {
    if a == [] {
      assert a + b == b;
    } else {
      assert (a + b)[0] == a[0] && (a + b)[1..] == a[1..] + b;
      match a[0]
      case Abort(_) =>
      case Skip => RunConcat(t, a[1..], b);
      case Print(n, p) => RunConcat(t, a[1..], b);
      case Write(d, c) => RunConcat(WriteOut(t, d, c).tree, a[1..], b);
    }
  }

  /** A run of one action. */
  lemma RunOne(t: Tree, act: Action)
    ensures act.Abort? ==> Run(t, [act]) == RunResult(t, [], Some(act.error))
    ensures act.Skip? ==> Run(t, [act]) == RunResult(t, [], None)
    ensures act.Print? ==> Run(t, [act]) == RunResult(t, [Printed(act.name, act.body)], None)
    ensures act.Write? ==> Run(t, [act]) == RunResult(WriteOut(t, act.dest, act.content).tree, [],
                                                      WriteOut(t, act.dest, act.content).err)
  {
    assert [act][1..] == [];
  }

  /** One step of a loop that runs `acts` in order: if the run of the
      whole is what has been printed so far followed by the run from
      position i on, then after action i it is either finished with
      action i's error or what has been printed, now including action i's
      output, followed by the run from position i + 1 on. */
  lemma RunAdvance(t0: Tree, acts: seq<Action>, i: nat, printed: seq<Printed>, t: Tree, step: RunResult)
    requires i < |acts|
    requires Run(t0, acts) == Prepend(printed, Run(t, acts[i..]))
    requires step == Run(t, [acts[i]])
    ensures step.err.Some? ==> step.printed == [] && Run(t0, acts) == RunResult(step.tree, printed, step.err)
    ensures step.err.None? ==> Run(t0, acts) == Prepend(printed + step.printed, Run(step.tree, acts[i + 1..]))
  {
    var xs := acts[i..];
    assert xs[0] == acts[i] && xs[1..] == acts[i + 1..];
    RunOne(t, acts[i]);
    if step.err.None? {
      var rest := Run(step.tree, acts[i + 1..]);
      assert Run(t, xs) == Prepend(step.printed, rest);
      assert printed + (step.printed + rest.printed) == printed + step.printed + rest.printed;
    } else {
      assert printed + [] == printed;
    }
  }

  /** An Abort at position k ends the run there: the actions before it have
      had their effect, the ones after it have none, and the run returns
      the first error met. */
  lemma AbortStops(t: Tree, acts: seq<Action>, k: nat)
    requires k < |acts| && acts[k].Abort?
    ensures Run(t, acts) ==
      var r := Run(t, acts[..k]);
      if r.err.Some? then r else RunResult(r.tree, r.printed, Some(acts[k].error))
  {
    assert acts == acts[..k] + acts[k..];
    RunConcat(t, acts[..k], acts[k..]);
    assert acts[k..][0] == acts[k];
  }

  /** Write k is the last write to its destination. */
  ghost predicate LastWriteAt(acts: seq<Action>, k: int)
    requires 0 <= k < |acts| && acts[k].Write?
  {
    forall j :: k < j < |acts| && acts[j].Write? ==> acts[j].dest != acts[k].dest
  }

  /** What a successful run leaves in `f`: every destination's parent is a
      directory, every destination is a file, and it holds what the last
      write to it wrote. */
  ghost predicate Materialized(f: Tree, acts: seq<Action>) {
    forall k :: 0 <= k < |acts| && acts[k].Write? ==>
      && Parent(acts[k].dest) in f && f[Parent(acts[k].dest)] == Directory
      && acts[k].dest in f && f[acts[k].dest].File?
      && (LastWriteAt(acts, k) ==> f[acts[k].dest] == File(acts[k].content))
  }

  /** What the first write leaves holds, when it is materialized, after
      the later actions: its directory stays a directory, its destination
      a file, and if no later action writes there, its content. */
  lemma FirstWriteSurvives(t: Tree, d: Path, c: string, rest: seq<Action>)
    requires WriteOut(t, d, c).err == None
    ensures var f := Run(WriteOut(t, d, c).tree, rest).tree;
      && Parent(d) in f && f[Parent(d)] == Directory
      && d in f && f[d].File?
      && (NotWritten(rest, d) ==> f[d] == File(c))
  {
    RunFootprint(WriteOut(t, d, c).tree, rest);
  }

  /** The last write to a destination is followed by no write to it. */
  lemma LastWriteFirst(acts: seq<Action>)
    requires acts != [] && acts[0].Write? && LastWriteAt(acts, 0)
    ensures NotWritten(acts[1..], acts[0].dest)
  {
    forall j | 0 <= j < |acts[1..]| && acts[1..][j].Write? ensures acts[1..][j].dest != acts[0].dest {
      assert acts[1..][j] == acts[j + 1];
    }
  }

  /** Materialized writes extend by a first write that is in place. */
  lemma MaterializedCons(f: Tree, acts: seq<Action>)
    requires acts != [] && Materialized(f, acts[1..])
    requires acts[0].Write? ==>
      && Parent(acts[0].dest) in f && f[Parent(acts[0].dest)] == Directory
      && acts[0].dest in f && f[acts[0].dest].File?
      && (LastWriteAt(acts, 0) ==> f[acts[0].dest] == File(acts[0].content))
    ensures Materialized(f, acts)
  {
    var rest := acts[1..];
    forall k | 1 <= k < |acts| && acts[k].Write?
      ensures && Parent(acts[k].dest) in f && f[Parent(acts[k].dest)] == Directory
              && acts[k].dest in f && f[acts[k].dest].File?
              && (LastWriteAt(acts, k) ==> f[acts[k].dest] == File(acts[k].content))
    {
      assert acts[k] == rest[k - 1];
      assert LastWriteAt(acts, k) ==> LastWriteAt(rest, k - 1) by {
        if LastWriteAt(acts, k) {
          forall j | k - 1 < j < |rest| && rest[j].Write? ensures rest[j].dest != rest[k - 1].dest {
            assert rest[j] == acts[j + 1];
          }
        }
      }
    }
  }

  /** A run that ends without error met no Abort and materialized every write. */
  lemma {:induction false} RunMaterializes(t: Tree, acts: seq<Action>)
    requires Run(t, acts).err == None
    ensures forall k :: 0 <= k < |acts| ==> !acts[k].Abort?
    ensures Materialized(Run(t, acts).tree, acts)
    decreases |acts|
  {
    if acts != [] {
      var rest := acts[1..];
      var t1 := if acts[0].Write? then WriteOut(t, acts[0].dest, acts[0].content).tree else t;
      assert !acts[0].Abort?;
      assert Run(t, acts) == Prepend(Run(t, [acts[0]]).printed, Run(t1, rest)) by {
        RunOne(t, acts[0]);
        RunConcat(t, [acts[0]], rest);
        assert [acts[0]] + rest == acts;
      }
      RunMaterializes(t1, rest);
      assert forall k :: 1 <= k < |acts| ==> acts[k] == rest[k - 1];
      if acts[0].Write? {
        FirstWriteSurvives(t, acts[0].dest, acts[0].content, rest);
        if LastWriteAt(acts, 0) {
          LastWriteFirst(acts);
        }
      }
      MaterializedCons(Run(t, acts).tree, acts);
    }
  }

  /** No write of `acts` from position `i` on goes to `p`. */
  ghost predicate NotWrittenFrom(acts: seq<Action>, i: nat, p: Path) {
    forall j :: i <= j < |acts| && acts[j].Write? ==> acts[j].dest != p
  }

  /** Replaying `acts[i..]` on a tree shaped like `f` that already agrees
      with `f` everywhere those actions do not write gives `f` again. */
  lemma {:induction false} Converge(f: Tree, acts: seq<Action>, i: nat, s: Tree)
    requires i <= |acts|
    requires forall k :: 0 <= k < |acts| ==> !acts[k].Abort?
    requires Materialized(f, acts)
    requires s.Keys == f.Keys
    requires forall p :: p in s ==> (s[p].Directory? <==> f[p].Directory?)
    requires forall p :: p in s && NotWrittenFrom(acts, i, p) ==> s[p] == f[p]
    ensures Run(s, acts[i..]).tree == f && Run(s, acts[i..]).err == None
    decreases |acts| - i
  {
    if i == |acts| {
      assert acts[i..] == [];
      assert forall p :: p in s ==> NotWrittenFrom(acts, i, p);
      assert s == f;
    } else {
      assert acts[i..][0] == acts[i] && acts[i..][1..] == acts[i + 1..];
      match acts[i]
      case Skip => Converge(f, acts, i + 1, s);
      case Print(_, _) => Converge(f, acts, i + 1, s);
      case Write(d, c) =>
        var dir := Parent(d);
        assert dir in s && s[dir].Directory?;
        assert d in s && !s[d].Directory?;
        assert d != [];
        assert EnsureDirSpec(s, dir).result == Ok(s);
        var s' := s[d := File(c)];
        assert WriteOut(s, d, c) == Effect(s', None);
        forall p | p in s' && NotWrittenFrom(acts, i + 1, p) ensures s'[p] == f[p] {
          if p == d {
            assert LastWriteAt(acts, i);
          } else {
            assert NotWrittenFrom(acts, i, p);
          }
        }
        Converge(f, acts, i + 1, s');
    }
  }

  /** Running the same actions a second time, on what a successful first run
      left, changes nothing, prints the same and succeeds again. */
  lemma RunIdempotent(t: Tree, acts: seq<Action>)
    requires Run(t, acts).err == None
    ensures Run(Run(t, acts).tree, acts) == Run(t, acts)
  {
    var f := Run(t, acts).tree;
    RunMaterializes(t, acts);
    assert acts[0..] == acts;
    Converge(f, acts, 0, f);
    RunPrints(t, acts);
    RunPrints(f, acts);
  }
}

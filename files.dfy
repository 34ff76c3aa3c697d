/** The file system the tool writes into, as a map from cleaned paths to
    nodes, with the three OS calls the tool makes on it (Stat, MkdirAll,
    WriteFile) and the tool's own `ensureDir`. */
module Files {
  import opened Common
  import opened GoStrings

  datatype Node = Directory | File(content: string)

  type Tree = map<Path, Node>

  /** The element a piece of path text contributes: none for "" and ".". */
  function Element(e: string): Path {
    if e == "" || e == "." then [] else [e]
  }

  /** The elements of path text `s` as filepath.Clean keeps them: split at
      '/', without empty and "." elements. */
  function Components(s: string): Path
    decreases |s|
  {
    var i := IndexOf(s, '/');
    if i < 0 then Element(s) else Element(s[..i]) + Components(s[i + 1..])
  }

  /** filepath.Join: the cleaned concatenation of all `parts`. */
  function Join(parts: seq<string>): Path {
    if parts == [] then [] else Components(parts[0]) + Join(parts[1..])
  }

  /** Cutting a concatenation inside its first part. */
  lemma TakeOfConcat(x: string, y: string, k: int)
    requires 0 <= k <= |x|
    ensures (x + y)[..k] == x[..k]
  {
  }

  lemma DropOfConcat(x: string, y: string, k: int)
    requires 0 <= k <= |x|
    ensures (x + y)[k..] == x[k..] + y
  {
  }

  /** When the first '/' of `s` is at `k`, cleaning `s` keeps the element
      before it, then the elements after it. */
  lemma ComponentsAtFirstSlash(s: string, k: int)
    requires 0 <= k < |s| && s[k] == '/' && '/' !in s[..k]
    ensures Components(s) == Element(s[..k]) + Components(s[k + 1..])
  {
    IndexOfAt(s, '/', k);
  }

  /** With no '/' in `a`, cleaning `a + "/" + b` gives the element `a`
      names, then the elements of `b`. */
  lemma SlashAfterElement(a: string, b: string)
    requires '/' !in a
    ensures Components(a + "/" + b) == Element(a) + Components(b)
    ensures Components(a) == Element(a)
  {
    var s := a + "/" + b;
    assert s[..|a|] == a && s[|a| + 1..] == b;
    ComponentsAtFirstSlash(s, |a|);
  }

  /** With the first '/' of `a` at `i`, that '/' is also the first one of
      `a + "/" + b`. */
  lemma SlashInsideElement(a: string, b: string, i: int)
    requires 0 <= i < |a| && a[i] == '/' && '/' !in a[..i]
    ensures Components(a + "/" + b) == Element(a[..i]) + Components(a[i + 1..] + "/" + b)
  {
    TakeOfConcat(a, "/", i);
    TakeOfConcat(a + "/", b, i);
    DropOfConcat(a, "/", i + 1);
    DropOfConcat(a + "/", b, i + 1);
    ComponentsAtFirstSlash(a + "/" + b, i);
  }

  /** The inductive step: if the property holds for the rest of `a` after
      its first '/', it holds for `a`. */
  lemma SlashInsideStep(a: string, b: string, i: int)
    requires 0 <= i < |a| && a[i] == '/' && '/' !in a[..i]
    requires Components(a[i + 1..] + "/" + b) == Components(a[i + 1..]) + Components(b)
    ensures Components(a + "/" + b) == Components(a) + Components(b)
  {
    SlashInsideElement(a, b, i);
    ComponentsAtFirstSlash(a, i);
    Regroup(Components(a + "/" + b), Element(a[..i]), Components(a[i + 1..] + "/" + b),
            Components(a[i + 1..]), Components(b), Components(a));
  }

  /** Cleaning `a + "/" + b` keeps the elements of `a`, then those of `b`. */
  lemma {:induction false} ComponentsAroundSlash(a: string, b: string)
    ensures Components(a + "/" + b) == Components(a) + Components(b)
    decreases |a|
  {
    var i := IndexOf(a, '/');
    if i < 0 {
      SlashAfterElement(a, b);
    } else {
      ComponentsAroundSlash(a[i + 1..], b);
      SlashInsideStep(a, b, i);
    }
  }

  /** Joining two parts is cleaning the text `a + "/" + b`, which is what
      filepath.Join does. */
  lemma JoinIsCleanOfSlashJoin(a: string, b: string)
    ensures Join([a, b]) == Components(a + "/" + b)
  {
    assert [a, b][1..] == [b] && [b][1..] == [];
    assert Join([b]) == Components(b) + Join([]);
    ComponentsAroundSlash(a, b);
  }

  /** filepath.Dir of a cleaned path. */
  function Parent(p: Path): Path {
    if p == [] then [] else p[..|p| - 1]
  }

  /** os.MkdirAll: nothing to do at a directory, an error at a file,
      otherwise the parent first and then `p` itself. */
  function MkdirAllSpec(t: Tree, p: Path): (r: Result<Tree>)
    ensures r.Ok? ==> p in r.value && r.value[p] == Directory
    ensures r.Ok? ==> forall q :: q in t ==> q in r.value && r.value[q] == t[q]
    ensures r.Ok? ==> forall q :: q in r.value && q !in t ==> r.value[q] == Directory && q <= p
    ensures r.Err? ==> r.error.NotADirectory? && r.error.path <= p
    decreases |p|
  {
    if p in t then
      if t[p].Directory? then Ok(t) else Err(NotADirectory(p))
    else if p == [] then
      Ok(t[p := Directory])
    else
      match MkdirAllSpec(t, Parent(p))
      case Err(e) => Err(e)
      case Ok(t') => Ok(t'[p := Directory])
  }

  /** The nearest existing path on the way from `p` up to the root is `p[..k]`. */
  ghost predicate NearestExisting(t: Tree, p: Path, k: int) {
    0 <= k <= |p| && p[..k] in t && forall m :: k < m <= |p| ==> p[..m] !in t
  }

  /** MkdirAll fails exactly when the nearest existing path on the way up
      from `p` is a file. */
  lemma {:induction false} MkdirAllFailsIff(t: Tree, p: Path, k: int)
    requires NearestExisting(t, p, k)
    ensures MkdirAllSpec(t, p).Err? <==> t[p[..k]].File?
    decreases |p|
  {
    if p !in t {
      assert k < |p| by { assert p[..|p|] == p; }
      var q := Parent(p);
      assert p != [];
      forall m | k < m <= |q| ensures q[..m] !in t {
        assert q[..m] == p[..m];
      }
      assert q[..k] == p[..k];
      MkdirAllFailsIff(t, q, k);
    } else {
      assert p[..|p|] == p;
    }
  }

  /** The outcome of `ensureDir`: whether the directory was already there,
      and the new tree or the error. */
  datatype Ensured = Ensured(existed: bool, result: Result<Tree>)

  /** ensureDir: create a missing directory, reject a file, accept an
      existing directory. */
  function EnsureDirSpec(t: Tree, fp: Path): (r: Ensured)
    ensures r.existed <==> fp in t && t[fp].Directory?
    ensures r.result.Ok? ==> fp in r.result.value && r.result.value[fp] == Directory
    ensures r.existed ==> r.result == Ok(t)
    ensures fp in t && t[fp].File? ==> r.result == Err(NotADirectory(fp))
    ensures r.result.Ok? ==> forall q :: q in t ==> q in r.result.value && r.result.value[q] == t[q]
    ensures r.result.Ok? ==> forall q :: q in r.result.value && q !in t ==> r.result.value[q] == Directory && q <= fp
  {
    if fp !in t then Ensured(false, MkdirAllSpec(t, fp))
    else if t[fp].File? then Ensured(false, Err(NotADirectory(fp)))
    else Ensured(true, Ok(t))
  }

  /** Once ensureDir has succeeded, a second call finds the directory and
      changes nothing. */
  lemma EnsureDirSettles(t: Tree, fp: Path)
    requires EnsureDirSpec(t, fp).result.Ok?
    ensures var t' := EnsureDirSpec(t, fp).result.value;
      EnsureDirSpec(t', fp) == Ensured(true, Ok(t'))
  {
  }

  /** os.WriteFile: create or truncate the file `p` below an existing
      directory; a directory cannot be written. */
  function WriteFileSpec(t: Tree, p: Path, content: string): (r: Result<Tree>)
    ensures r.Ok? <==> p != [] && !(p in t && t[p].Directory?) && Parent(p) in t && t[Parent(p)].Directory?
    ensures r.Ok? ==> r.value == t[p := File(content)]
  {
    if p == [] || (p in t && t[p].Directory?) then Err(IsADirectory(p))
    else if Parent(p) !in t || !t[Parent(p)].Directory? then Err(NoSuchDirectory(Parent(p)))
    else Ok(t[p := File(content)])
  }

  /** The file system, updated in place by the calls below. */
  class FileSystem {
    var nodes: Tree

    constructor (initial: Tree)
      ensures nodes == initial
    {
      nodes := initial;
    }

    /** os.Stat, without permissions or symbolic links. */
    method Stat(p: Path) returns (n: Option<Node>)
      ensures p in nodes ==> n == Some(nodes[p])
      ensures p !in nodes ==> n == None
    {
      n := if p in nodes then Some(nodes[p]) else None;
    }

    method MkdirAll(p: Path) returns (err: Option<Error>)
      modifies this
      ensures var r := MkdirAllSpec(old(nodes), p);
        if r.Ok? then nodes == r.value && err == None
        else nodes == old(nodes) && err == Some(r.error)
      decreases |p|
    {
      var st := Stat(p);
      if st.Some? {
        if st.value.Directory? {
          return None;
        }
        return Some(NotADirectory(p));
      }
      if p != [] {
        err := MkdirAll(Parent(p));
        if err.Some? {
          return;
        }
      }
      nodes := nodes[p := Directory];
      err := None;
    }

    method WriteFile(p: Path, content: string) returns (err: Option<Error>)
      modifies this
      ensures var r := WriteFileSpec(old(nodes), p, content);
        if r.Ok? then nodes == r.value && err == None
        else nodes == old(nodes) && err == Some(r.error)
    {
      if p == [] || (p in nodes && nodes[p].Directory?) {
        return Some(IsADirectory(p));
      }
      if Parent(p) !in nodes || !nodes[Parent(p)].Directory? {
        return Some(NoSuchDirectory(Parent(p)));
      }
      nodes := nodes[p := File(content)];
      err := None;
    }
  }

  /** ensureDir: makes sure `fp` is a directory and says whether it already
      was one. */
  method EnsureDir(fs: FileSystem, fp: Path) returns (existed: bool, err: Option<Error>)
    modifies fs
    ensures var r := EnsureDirSpec(old(fs.nodes), fp);
      existed == r.existed
      && (r.result.Ok? ==> fs.nodes == r.result.value && err == None)
      && (r.result.Err? ==> fs.nodes == old(fs.nodes) && err == Some(r.result.error))
  {
    var st := fs.Stat(fp);
    if st.None? {
      err := fs.MkdirAll(fp);
      return false, err;
    }
    if !st.value.Directory? {
      return false, Some(NotADirectory(fp));
    }
    return true, None;
  }
}

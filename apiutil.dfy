/** The service lookup of the first generation (apiutil.go): walk the
    aws-sdk-go model tree for api-2.json files, pick the first whose
    "serviceId" line names the service, load it, and record its metadata
    and resource names in the package variables. */
module ApiUtil {
  import opened Common
  import opened GoStrings
  import opened Files
  import opened Naming
  import opened Flags

  /** What filepath.Walk visited, in walk order, and the error that stopped
      it, if any. */
  datatype Walked = Walked(visited: seq<string>, err: Option<Error>)

  /** The aws-sdk-go checkout, seen through the calls the lookup makes on
      it: filepath.Walk, os.Open with a line scanner (the lines of a file),
      and the model loader's Load. */
  datatype SdkRepo = SdkRepo(
    walk: Path -> Walked,
    open: string -> Result<seq<string>>,
    load: string -> Result<seq<Api>>)

  const ModelFileMarker := "api-2.json"
  const ServiceIdMarker := "serviceId"

  /** The walk callback's filter: every visited path containing "api-2.json". */
  function Candidates(visited: seq<string>): seq<string> {
    if visited == [] then []
    else (if Contains(visited[0], ModelFileMarker) then [visited[0]] else []) + Candidates(visited[1..])
  }

  /** A path is a candidate exactly when the walk visited it and it mentions
      "api-2.json"; candidates keep walk order. */
  lemma {:induction false} CandidatesMembers(visited: seq<string>, p: string)
    ensures p in Candidates(visited) <==> p in visited && Contains(p, ModelFileMarker)
  {
    if visited != [] {
      CandidatesMembers(visited[1..], p);
      assert visited == [visited[0]] + visited[1..];
    }
  }

  /** The walk callback, appending as it goes. */
  method CollectCandidates(visited: seq<string>) returns (filePaths: seq<string>)
    ensures filePaths == Candidates(visited)
  {
    filePaths := [];
    for i := 0 to |visited|
      invariant Candidates(visited) == filePaths + Candidates(visited[i..])
    {
      assert visited[i..][0] == visited[i] && visited[i..][1..] == visited[i + 1..];
      if Contains(visited[i], ModelFileMarker) {
        filePaths := filePaths + [visited[i]];
      }
    }
    assert visited[|visited|..] == [];
  }

  /** The characters the serviceId regular expression removes. */
  const Dropped: set<char> := {',', '"', ' ', '\t'}

  /** The service identifier a "serviceId" line carries: its second
      ':'-separated field without quotes, commas and blanks, lower-cased. */
  function Normalize(field: string): string {
    ToLower(RemoveAll(field, Dropped))
  }

  /** An identifier a normalized field can equal: no character the
      normalization removes and no upper-case ASCII letter. */
  predicate Matchable(ident: string) {
    forall k :: 0 <= k < |ident| ==> ident[k] !in Dropped && !('A' <= ident[k] <= 'Z')
  }

  lemma NormalizeIsMatchable(field: string)
    ensures Matchable(Normalize(field))
  {
    var kept := RemoveAll(field, Dropped);
    forall k | 0 <= k < |kept| ensures LowerChar(kept[k]) !in Dropped && !('A' <= LowerChar(kept[k]) <= 'Z') {
    }
  }

  /** How scanning one file's lines ends. */
  datatype LineScan = NoMatch | Match | PanicAt(line: string)

  /** Line `line` names the service `ident`. */
  ghost predicate Hit(line: string, ident: string) {
    Contains(line, ServiceIdMarker) && SecondField(line).Some? && Normalize(SecondField(line).value) == ident
  }

  /** Line `line` mentions serviceId without a ':', so the split has no
      second field and the index panics. */
  ghost predicate Crash(line: string) {
    Contains(line, ServiceIdMarker) && SecondField(line).None?
  }

  /** The scanner loop: the first serviceId line that crashes or names the
      service ends the scan. */
  function ScanLines(lines: seq<string>, ident: string): LineScan {
    if lines == [] then NoMatch
    else if Contains(lines[0], ServiceIdMarker) then
      match SecondField(lines[0])
      case None => PanicAt(lines[0])
      case Some(field) => if Normalize(field) == ident then Match else ScanLines(lines[1..], ident)
    else ScanLines(lines[1..], ident)
  }

  /** No line before `j` stops the scan. */
  ghost predicate ClearBefore(lines: seq<string>, ident: string, j: int) {
    forall m :: 0 <= m < j && m < |lines| ==> !Hit(lines[m], ident) && !Crash(lines[m])
  }

  /** A first line that neither names the service nor crashes only moves
      every clear prefix one line on. */
  lemma ClearShift(lines: seq<string>, ident: string)
    requires lines != [] && !Hit(lines[0], ident) && !Crash(lines[0])
    ensures ScanLines(lines, ident) == ScanLines(lines[1..], ident)
    ensures forall j :: 0 <= j <= |lines[1..]| ==>
      (ClearBefore(lines[1..], ident, j) <==> ClearBefore(lines, ident, j + 1))
  {
    assert forall m :: 0 < m < |lines| ==> lines[m] == lines[1..][m - 1];
  }

  /** A first line that names the service or crashes leaves only the empty
      prefix clear. */
  lemma ClearOnlyEmpty(lines: seq<string>, ident: string)
    requires lines != [] && (Hit(lines[0], ident) || Crash(lines[0]))
    ensures ClearBefore(lines, ident, 0)
    ensures forall j :: 0 < j <= |lines| ==> !ClearBefore(lines, ident, j)
  {
  }

  /** The scan finds the service exactly when some line names it and no
      earlier line names it or crashes. */
  lemma {:induction false} ScanMatchIff(lines: seq<string>, ident: string)
    ensures ScanLines(lines, ident) == Match <==>
      exists j :: 0 <= j < |lines| && Hit(lines[j], ident) && ClearBefore(lines, ident, j)
    decreases |lines|
  {
    if lines != [] {
      var rest := lines[1..];
      if Hit(lines[0], ident) || Crash(lines[0]) {
        ClearOnlyEmpty(lines, ident);
      } else {
        ScanMatchIff(rest, ident);
        ClearShift(lines, ident);
        if exists j :: 0 <= j < |lines| && Hit(lines[j], ident) && ClearBefore(lines, ident, j) {
          var j :| 0 <= j < |lines| && Hit(lines[j], ident) && ClearBefore(lines, ident, j);
          assert j > 0 && Hit(rest[j - 1], ident);
        }
        if exists j :: 0 <= j < |rest| && Hit(rest[j], ident) && ClearBefore(rest, ident, j) {
          var j :| 0 <= j < |rest| && Hit(rest[j], ident) && ClearBefore(rest, ident, j);
          assert Hit(lines[j + 1], ident) && ClearBefore(lines, ident, j + 1);
        }
      }
    }
  }

  /** The scan panics exactly at the first serviceId line without a ':',
      when that line comes before any line naming the service. */
  lemma {:induction false} ScanPanicIff(lines: seq<string>, ident: string)
    ensures ScanLines(lines, ident).PanicAt? <==>
      exists j :: 0 <= j < |lines| && Crash(lines[j]) && ClearBefore(lines, ident, j)
                  && ScanLines(lines, ident) == PanicAt(lines[j])
    decreases |lines|
  {
    if lines != [] {
      var rest := lines[1..];
      if Hit(lines[0], ident) || Crash(lines[0]) {
        ClearOnlyEmpty(lines, ident);
      } else {
        ScanPanicIff(rest, ident);
        ClearShift(lines, ident);
        if exists j :: 0 <= j < |lines| && Crash(lines[j]) && ClearBefore(lines, ident, j)
                       && ScanLines(lines, ident) == PanicAt(lines[j]) {
          var j :| 0 <= j < |lines| && Crash(lines[j]) && ClearBefore(lines, ident, j)
                   && ScanLines(lines, ident) == PanicAt(lines[j]);
          assert j > 0 && Crash(rest[j - 1]) && lines[j] == rest[j - 1];
        }
        if exists j :: 0 <= j < |rest| && Crash(rest[j]) && ClearBefore(rest, ident, j)
                       && ScanLines(rest, ident) == PanicAt(rest[j]) {
          var j :| 0 <= j < |rest| && Crash(rest[j]) && ClearBefore(rest, ident, j)
                   && ScanLines(rest, ident) == PanicAt(rest[j]);
          assert lines[j + 1] == rest[j] && ClearBefore(lines, ident, j + 1);
        }
      }
    }
  }

  /** The scan finds nothing exactly when no line names the service or
      crashes. */
  lemma {:induction false} ScanNoMatchIff(lines: seq<string>, ident: string)
    ensures ScanLines(lines, ident) == NoMatch <==> ClearBefore(lines, ident, |lines|)
    decreases |lines|
  {
    if lines != [] {
      if Hit(lines[0], ident) || Crash(lines[0]) {
        ClearOnlyEmpty(lines, ident);
      } else {
        ScanNoMatchIff(lines[1..], ident);
        ClearShift(lines, ident);
      }
    }
  }

  /** The second field of `    "serviceId":"S3",` is `"S3",`. */
  lemma ExampleField(line: string)
    requires line == "    \"serviceId\":\"S3\","
    ensures Contains(line, ServiceIdMarker)
    ensures SecondField(line) == Some("\"S3\",")
  {
    assert Contains(line, ServiceIdMarker) by {
      assert line[5..14] == ServiceIdMarker;
      assert OccursAt(line, ServiceIdMarker, 5);
      ContainsIff(line, ServiceIdMarker);
    }
    assert IndexOf(line, ':') == 15 by {
      IndexOfAt(line, ':', 15);
    }
    assert IndexOf(line[16..], ':') == -1 by {
      assert line[16..] == "\"S3\",";
    }
    assert line[16..] == "\"S3\",";
  }

  /** Quotes, commas and blanks around a field's text go, and the text is
      lower-cased. */
  lemma NormalizeStrips(front: string, text: string, back: string)
    requires forall k :: 0 <= k < |front| ==> front[k] in Dropped
    requires forall k :: 0 <= k < |text| ==> text[k] !in Dropped
    requires forall k :: 0 <= k < |back| ==> back[k] in Dropped
    ensures Normalize(front + text + back) == ToLower(text)
  {
    RemoveAllConcat(front + text, back, Dropped);
    RemoveAllConcat(front, text, Dropped);
    RemoveAllKeepsClean(text, Dropped);
    RemoveAllDropsAll(front, Dropped);
    RemoveAllDropsAll(back, Dropped);
    assert RemoveAll(front + text + back, Dropped) == text;
  }

  /** `"S3",` normalizes to "s3". */
  lemma ExampleNormalize(field: string)
    requires field == "\"S3\","
    ensures Normalize(field) == "s3"
  {
    var quote, s3, tail := ['"'], ['S', '3'], ['"', ','];
    assert Normalize(quote + s3 + tail) == ToLower(s3) by {
      NormalizeStrips(quote, s3, tail);
    }
    assert ToLower(s3) == "s3" by {
      assert LowerChar('S') == 's';
    }
    assert field == quote + s3 + tail;
  }

  /** A model file whose second line is `    "serviceId":"S3",` names the
      service "s3": the quotes, the comma and the blanks go, and the rest
      is lower-cased. */
  lemma ServiceIdLineExample()
    ensures ScanLines(["{", "    \"serviceId\":\"S3\","], "s3") == Match
  {
    var line := "    \"serviceId\":\"S3\",";
    assert !Contains("{", ServiceIdMarker) by {
      assert !HasPrefix("{", ServiceIdMarker) && !HasPrefix("", ServiceIdMarker);
      assert "{"[1..] == "";
    }
    ExampleField(line);
    ExampleNormalize("\"S3\",");
    assert ["{", line][1..] == [line];
  }

  /** The candidate loop: open each file in turn and scan it. An open
      error ends the lookup with that error and no path; a match ends it
      with the file; after the last file the walk's own error, if any, is
      returned. A line that panics is reported as Panic. */
  function ScanFiles(open: string -> Result<seq<string>>, files: seq<string>, ident: string, walkErr: Option<Error>)
    : (string, Option<Error>)
  {
    if files == [] then ("", walkErr)
    else
      match open(files[0])
      case Err(e) => ("", Some(e))
      case Ok(lines) =>
        match ScanLines(lines, ident)
        case PanicAt(line) => ("", Some(Panic(line)))
        case Match => (files[0], None)
        case NoMatch => ScanFiles(open, files[1..], ident, walkErr)
  }

  /** models/apis below the checkout. */
  function ApisPath(sdkDir: string): Path {
    Join([sdkDir, "models", "apis"])
  }

  /** modelAPIPath */
  function ModelApiPathSpec(repo: SdkRepo, sdkDir: string, ident: string): (string, Option<Error>) {
    var walked := repo.walk(ApisPath(sdkDir));
    ScanFiles(repo.open, Candidates(walked.visited), ident, walked.err)
  }

  /** Candidate k opened and named no service before the lookup ended. */
  ghost predicate Passed(open: string -> Result<seq<string>>, files: seq<string>, ident: string, k: int)
    requires 0 <= k < |files|
  {
    open(files[k]).Ok? && ScanLines(open(files[k]).value, ident) == NoMatch
  }

  /** A path is returned only when it is a candidate whose lines name the
      service and every candidate before it opened and named no service. */
  lemma {:induction false} ScanFilesFirstMatch(open: string -> Result<seq<string>>, files: seq<string>, ident: string,
                                               walkErr: Option<Error>)
    requires ScanFiles(open, files, ident, walkErr).0 != ""
    ensures var p := ScanFiles(open, files, ident, walkErr).0;
      exists k :: 0 <= k < |files| && files[k] == p
        && open(files[k]).Ok? && ScanLines(open(files[k]).value, ident) == Match
        && (forall j :: 0 <= j < k ==> Passed(open, files, ident, j))
    ensures ScanFiles(open, files, ident, walkErr).1 == None
    decreases |files|
  {
    var rest := files[1..];
    if open(files[0]).Ok? && ScanLines(open(files[0]).value, ident) == NoMatch {
      ScanFilesFirstMatch(open, rest, ident, walkErr);
      var p := ScanFiles(open, files, ident, walkErr).0;
      var k :| 0 <= k < |rest| && rest[k] == p
        && open(rest[k]).Ok? && ScanLines(open(rest[k]).value, ident) == Match
        && (forall j :: 0 <= j < k ==> Passed(open, rest, ident, j));
      forall j | 0 <= j < k + 1 ensures Passed(open, files, ident, j) {
        if j > 0 {
          assert files[j] == rest[j - 1] && Passed(open, rest, ident, j - 1);
        }
      }
      assert files[k + 1] == rest[k];
    }
  }

  /** Conversely, a candidate whose lines name the service, after
      candidates that all opened and named no service, is the one returned,
      and the lookup reports no error. */
  lemma {:induction false} ScanFilesFindsMatch(open: string -> Result<seq<string>>, files: seq<string>, ident: string,
                                               walkErr: Option<Error>, k: int)
    requires 0 <= k < |files|
    requires open(files[k]).Ok? && ScanLines(open(files[k]).value, ident) == Match
    requires forall j :: 0 <= j < k ==> Passed(open, files, ident, j)
    ensures ScanFiles(open, files, ident, walkErr) == (files[k], None)
    decreases k
  {
    if k > 0 {
      assert Passed(open, files, ident, 0);
      var rest := files[1..];
      forall j | 0 <= j < k - 1 ensures Passed(open, rest, ident, j) {
        assert rest[j] == files[j + 1] && Passed(open, files, ident, j + 1);
      }
      ScanFilesFindsMatch(open, rest, ident, walkErr, k - 1);
    }
  }

  /** A path is found only for an identifier a normalized field can equal:
      an identifier with an upper-case letter (such as a model name given
      in upper case, which is compared as given) never matches. */
  lemma {:induction false} UnmatchableFindsNothing(open: string -> Result<seq<string>>, files: seq<string>, ident: string,
                                                   walkErr: Option<Error>)
    requires !Matchable(ident)
    ensures ScanFiles(open, files, ident, walkErr).0 == ""
    decreases |files|
  {
    if files != [] && open(files[0]).Ok? {
      var lines := open(files[0]).value;
      if ScanLines(lines, ident) == Match {
        ScanMatchIff(lines, ident);
        var j :| 0 <= j < |lines| && Hit(lines[j], ident) && ClearBefore(lines, ident, j);
        NormalizeIsMatchable(SecondField(lines[j]).value);
        assert false;
      }
      UnmatchableFindsNothing(open, files[1..], ident, walkErr);
    }
  }

  /** modelAPIPath: collect the candidates, then scan them line by line. */
  method ModelApiPath(repo: SdkRepo, sdkDir: string, svcIdentifier: string) returns (outPath: string, err: Option<Error>)
    ensures (outPath, err) == ModelApiPathSpec(repo, sdkDir, svcIdentifier)
  {
    var walked := repo.walk(ApisPath(sdkDir));
    var filePaths := CollectCandidates(walked.visited);
    outPath := "";
    assert filePaths[0..] == filePaths;
    for i := 0 to |filePaths|
      invariant outPath == ""
      invariant ModelApiPathSpec(repo, sdkDir, svcIdentifier) == ScanFiles(repo.open, filePaths[i..], svcIdentifier, walked.err)
    {
      var filePath := filePaths[i];
      assert filePaths[i..][0] == filePath && filePaths[i..][1..] == filePaths[i + 1..];
      var openFile := repo.open(filePath);
      if openFile.Err? {
        return outPath, Some(openFile.error);
      }
      var lines := openFile.value;
      assert lines[0..] == lines;
      for j := 0 to |lines|
        invariant ScanLines(lines, svcIdentifier) == ScanLines(lines[j..], svcIdentifier)
      {
        var text := lines[j];
        assert lines[j..][0] == text && lines[j..][1..] == lines[j + 1..];
        if Contains(text, ServiceIdMarker) {
          var field := SecondField(text);
          if field.None? {
            return outPath, Some(Panic(text));
          }
          var getServiceId := RemoveAll(field.value, Dropped);
          getServiceId := ToLower(getServiceId);
          if getServiceId == svcIdentifier {
            outPath := filePath;
            return outPath, None;
          }
        }
      }
      assert lines[|lines|..] == [];
    }
    assert filePaths[|filePaths|..] == [];
    return outPath, walked.err;
  }

  /** The package variables the lookup fills in. */
  datatype Globals = Globals(
    svcFile: string,
    svcID: string,
    svcAbbreviation: string,
    svcFullName: string,
    crdNames: seq<string>)

  /** modelAPI: load the model file; the metadata of the last API iterated
      replaces the recorded one, and the resource names of that API are
      appended to the recorded names. A load error changes nothing. */
  function ModelApiSpec(g: Globals, load: string -> Result<seq<Api>>, filePath: string, isSingular: string -> bool)
    : (Globals, Option<Error>)
  {
    match load(filePath)
    case Err(e) => (g, Some(e))
    case Ok(apis) =>
      if apis == [] then (g, None)
      else
        var api := apis[|apis| - 1];
        (g.(svcID := api.metadata.serviceId,
            svcAbbreviation := api.metadata.serviceAbbreviation,
            svcFullName := api.metadata.serviceFullName,
            crdNames := g.crdNames + CrdNames(api.operationNames, isSingular)), None)
  }

  /** modelAPI never forgets a name: what was recorded stays in front, and
      exactly the resource names of the last loaded API are added, each
      from a qualifying "Create" operation of that API (not "CreateBatch",
      singular); a load error or an empty load adds nothing; the service
      file is left alone. */
  lemma ModelApiOnlyAppends(g: Globals, load: string -> Result<seq<Api>>, filePath: string, isSingular: string -> bool)
    ensures var (g', _) := ModelApiSpec(g, load, filePath, isSingular);
      && g'.svcFile == g.svcFile
      && g.crdNames <= g'.crdNames
      && (load(filePath).Err? || load(filePath).value == [] ==> g'.crdNames == g.crdNames)
      && (load(filePath).Ok? && load(filePath).value != [] ==>
            var api := load(filePath).value[|load(filePath).value| - 1];
            && g'.crdNames == g.crdNames + CrdNames(api.operationNames, isSingular)
            && forall n :: n in g'.crdNames[|g.crdNames|..] ==>
                 isSingular(n) && Qualifies(CreatePrefix + n, isSingular) && CreatePrefix + n in api.operationNames)
  {
    var (g', _) := ModelApiSpec(g, load, filePath, isSingular);
    if load(filePath).Ok? && load(filePath).value != [] {
      var apis := load(filePath).value;
      var api := apis[|apis| - 1];
      assert g'.crdNames[|g.crdNames|..] == CrdNames(api.operationNames, isSingular);
      forall n | n in g'.crdNames[|g.crdNames|..]
        ensures isSingular(n) && Qualifies(CreatePrefix + n, isSingular) && CreatePrefix + n in api.operationNames
      {
        CrdNamesSound(api.operationNames, isSingular, n);
      }
    }
  }

  /** crdNames is never reset: loading the same model twice in one process
      records its resource names twice. */
  lemma ModelApiRepeatsNames(g: Globals, load: string -> Result<seq<Api>>, filePath: string, isSingular: string -> bool)
    requires load(filePath).Ok? && load(filePath).value != []
    ensures var g1 := ModelApiSpec(g, load, filePath, isSingular).0;
      var g2 := ModelApiSpec(g1, load, filePath, isSingular).0;
      |g.crdNames| <= |g1.crdNames| && g2.crdNames == g1.crdNames + g1.crdNames[|g.crdNames|..]
  {
    var g1 := ModelApiSpec(g, load, filePath, isSingular).0;
    assert g1.crdNames[|g.crdNames|..] == CrdNames(load(filePath).value[|load(filePath).value| - 1].operationNames, isSingular);
  }

  /** The package variables, updated in place. */
  class PackageVars {
    var svcFile: string
    var svcID: string
    var svcAbbreviation: string
    var svcFullName: string
    var crdNames: seq<string>

    constructor (g: Globals)
      ensures Value() == g
    {
      svcFile, svcID, svcAbbreviation, svcFullName, crdNames := g.svcFile, g.svcID, g.svcAbbreviation, g.svcFullName, g.crdNames;
    }

    function Value(): Globals
      reads this
    {
      Globals(svcFile, svcID, svcAbbreviation, svcFullName, crdNames)
    }

    /** The resource-name loop of modelAPI, appending to crdNames. */
    method AppendCrdNames(opNames: seq<string>, isSingular: string -> bool)
      modifies this
      ensures Value() == old(Value()).(crdNames := old(crdNames) + CrdNames(opNames, isSingular))
    {
      assert opNames[0..] == opNames;
      for i := 0 to |opNames|
        invariant Value() == old(Value()).(crdNames := crdNames)
        invariant crdNames + CrdNames(opNames[i..], isSingular) == old(crdNames) + CrdNames(opNames, isSingular)
      {
        var opName := opNames[i];
        CrdNamesStep(crdNames, opNames, i, isSingular);
        if HasPrefix(opName, CreateBatchPrefix) {
          assert crdNames + Contribution(opName, isSingular) == crdNames;
          continue;
        }
        if HasPrefix(opName, CreatePrefix) {
          var resName := TrimPrefix(opName, CreatePrefix);
          if isSingular(resName) {
            crdNames := crdNames + [resName];
          } else {
            assert crdNames + Contribution(opName, isSingular) == crdNames;
          }
        } else {
          assert crdNames + Contribution(opName, isSingular) == crdNames;
        }
      }
      assert opNames[|opNames|..] == [] && crdNames + [] == crdNames;
    }

    /** modelAPI */
    method ModelApi(load: string -> Result<seq<Api>>, filePath: string, isSingular: string -> bool) returns (err: Option<Error>)
      modifies this
      ensures (Value(), err) == ModelApiSpec(old(Value()), load, filePath, isSingular)
    {
      var apis := load(filePath);
      if apis.Err? {
        return Some(apis.error);
      }
      var opNames: seq<string> := [];
      for k := 0 to |apis.value|
        invariant svcFile == old(svcFile) && crdNames == old(crdNames)
        invariant k == 0 ==> Value() == old(Value()) && opNames == []
        invariant k > 0 ==> var api := apis.value[k - 1];
          svcID == api.metadata.serviceId && svcAbbreviation == api.metadata.serviceAbbreviation
          && svcFullName == api.metadata.serviceFullName && opNames == api.operationNames
      {
        var api := apis.value[k];
        svcID := api.metadata.serviceId;
        svcAbbreviation := api.metadata.serviceAbbreviation;
        svcFullName := api.metadata.serviceFullName;
        opNames := api.operationNames;
      }
      AppendCrdNames(opNames, isSingular);
      if apis.value == [] {
        assert CrdNames([], isSingular) == [] && old(crdNames) + [] == old(crdNames);
      }
      return None;
    }
  }

  /** The identifier the lookup compares against: the model-name option as
      given when it is set, the lower-cased service alias otherwise. */
  function Identifier(svcAlias: string, opts: Options): string {
    if opts.modelName != "" then opts.modelName else svcAlias
  }

  /** getServiceResources from the model-path lookup on: the service file
      is recorded even when the lookup fails; an empty path is an error. */
  function ServiceResourcesSpec(g: Globals, repo: SdkRepo, sdkDir: string, svcAlias: string, opts: Options,
                                isSingular: string -> bool): (Globals, Option<Error>)
  {
    var (path, err) := ModelApiPathSpec(repo, sdkDir, Identifier(svcAlias, opts));
    var g1 := g.(svcFile := path);
    if err.Some? then (g1, err)
    else if path == "" then (g1, Some(ServiceFileNotFound))
    else ModelApiSpec(g1, repo.load, path, isSingular)
  }

  /** A lookup that succeeds has recorded a model file that the walk
      visited, that names the service on a "serviceId" line, and whose API
      metadata (when the loader returned any) is now recorded. */
  lemma ServiceResourcesFound(g: Globals, repo: SdkRepo, sdkDir: string, svcAlias: string, opts: Options,
                              isSingular: string -> bool)
    requires ServiceResourcesSpec(g, repo, sdkDir, svcAlias, opts, isSingular).1 == None
    ensures var (g', _) := ServiceResourcesSpec(g, repo, sdkDir, svcAlias, opts, isSingular);
      var walked := repo.walk(ApisPath(sdkDir));
      && g'.svcFile != ""
      && g'.svcFile in walked.visited && Contains(g'.svcFile, ModelFileMarker)
      && repo.open(g'.svcFile).Ok?
      && ScanLines(repo.open(g'.svcFile).value, Identifier(svcAlias, opts)) == Match
      && repo.load(g'.svcFile).Ok?
      && g.crdNames <= g'.crdNames
  {
    var walked := repo.walk(ApisPath(sdkDir));
    var files := Candidates(walked.visited);
    var ident := Identifier(svcAlias, opts);
    var (path, err) := ModelApiPathSpec(repo, sdkDir, ident);
    ScanFilesFirstMatch(repo.open, files, ident, walked.err);
    CandidatesMembers(walked.visited, path);
    ModelApiOnlyAppends(g.(svcFile := path), repo.load, path, isSingular);
  }

  /** Conversely, when the walk reaches a candidate whose lines name the
      service, after candidates that all opened and named no service, and
      that file loads, the lookup succeeds and records that file. */
  lemma ServiceResourcesFindsMatch(g: Globals, repo: SdkRepo, sdkDir: string, svcAlias: string, opts: Options,
                                   isSingular: string -> bool, k: int)
    requires var files := Candidates(repo.walk(ApisPath(sdkDir)).visited);
      && 0 <= k < |files|
      && repo.open(files[k]).Ok? && ScanLines(repo.open(files[k]).value, Identifier(svcAlias, opts)) == Match
      && (forall j :: 0 <= j < k ==> Passed(repo.open, files, Identifier(svcAlias, opts), j))
      && repo.load(files[k]).Ok?
    ensures var (g', err) := ServiceResourcesSpec(g, repo, sdkDir, svcAlias, opts, isSingular);
      err == None && g'.svcFile == Candidates(repo.walk(ApisPath(sdkDir)).visited)[k]
  {
    var walked := repo.walk(ApisPath(sdkDir));
    var files := Candidates(walked.visited);
    ScanFilesFindsMatch(repo.open, files, Identifier(svcAlias, opts), walked.err, k);
    CandidatesMembers(walked.visited, files[k]);
    assert !Contains("", ModelFileMarker);
  }

  /** An identifier no normalized field can equal ends the lookup with an
      error: the walk's own error, an open error, a panic, or "service file
      not found". */
  lemma UnmatchableIdentifierFails(g: Globals, repo: SdkRepo, sdkDir: string, svcAlias: string, opts: Options,
                                   isSingular: string -> bool)
    requires !Matchable(Identifier(svcAlias, opts))
    ensures var (g', err) := ServiceResourcesSpec(g, repo, sdkDir, svcAlias, opts, isSingular);
      err.Some? && g' == g.(svcFile := "")
  {
    var walked := repo.walk(ApisPath(sdkDir));
    UnmatchableFindsNothing(repo.open, Candidates(walked.visited), Identifier(svcAlias, opts), walked.err);
  }

  /** getServiceResources, on the package variables. */
  method GetServiceResources(pkg: PackageVars, repo: SdkRepo, sdkDir: string, svcAlias: string, opts: Options,
                             isSingular: string -> bool) returns (err: Option<Error>)
    modifies pkg
    ensures (pkg.Value(), err) == ServiceResourcesSpec(old(pkg.Value()), repo, sdkDir, svcAlias, opts, isSingular)
  {
    var path: string;
    if opts.modelName != "" {
      path, err := ModelApiPath(repo, sdkDir, opts.modelName);
    } else {
      path, err := ModelApiPath(repo, sdkDir, svcAlias);
    }
    pkg.svcFile := path;
    if err.Some? {
      return err;
    }
    if pkg.svcFile == "" {
      return Some(ServiceFileNotFound);
    }
    err := pkg.ModelApi(repo.load, pkg.svcFile, isSingular);
  }
}

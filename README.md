# ack-controller-bootstrap, modelled in Dafny

`controller-bootstrap generate` scaffolds an AWS Controllers for Kubernetes (ACK)
service-controller repository. It looks the service up in an aws-sdk-go checkout,
derives the service's resource names from its API operations, and renders every
template under `./template`. Each rendering is printed (dry run) or written to the
same relative path below the output directory. The repository holds two generations
of the command, and this project models both:

- **v1**: `apiutil.go` + `generate.go`. It scans every `api-2.json` for a
  `serviceId` line matching the service, keeps its results in package variables,
  and has an "existing controller" mode that only refreshes the README.md and
  OWNERS templates.
- **v2**: `apiutilv2.go` + `generatev2.go`. It picks the lexicographically
  smallest API version directory name of the service (the oldest, for the
  date-named directories aws-sdk-go uses) through an `AWSSDKHelper` that remembers that version,
  and takes the metadata of the first loaded API.

Modules:

| module | file | models |
|---|---|---|
| `Common`, `Flags` | `common.dfy` | errors, results, API metadata, paths as element sequences, the command-line options |
| `GoStrings` | `strings.dfy` | the `strings` functions the code calls: HasPrefix/HasSuffix, TrimPrefix/TrimSuffix, Contains, Split(…)[1], ToLower, TrimSpace, and the serviceId regexp |
| `Files` | `files.dfy` | the file system as a map from cleaned paths to nodes: `filepath.Join`/`Dir`, `os.Stat`, `os.MkdirAll`, `ioutil.WriteFile`, and `ensureDir`, which is identical in both generations |
| `Naming` | `naming.dfy` | the resource-name rule both generations share (`Create<Name>`, not `CreateBatch…`, `<Name>` singular) |
| `Materialize` | `materialize.dfy` | what both template loops share: the walk callback, the destination name, parse+execute, and `Run`, the semantics of one pass over the templates as a sequence of actions |
| `ApiUtilV2`, `GenerateV2` | `apiutilv2.dfy`, `generatev2.dfy` | v2 |
| `ApiUtil`, `Generate` | `apiutil.dfy`, `generate.dfy` | v1 |

Imperative code stays imperative:
- `AWSSDKHelper` is a class whose `apiVersion` field `FindModelPath` updates.
- The v1 package variables are the class `PackageVars`.
- The file system is the class `FileSystem`.
- Every loop of the source that accumulates or scans is a method with a loop.
  The one exception is v2's `for _, api := range apis` in `API()`
  (apiutilv2.go:86), which returns on its first pass. It is modelled as taking
  the first API (`apis.value[0]`), with no loop.

Each method is proved equal to a specification function (`ApiVersions`, `ScanFiles`,
`ModelApiSpec`, `Run` of the template actions, …), and the lemmas state what those
functions guarantee.

Inputs the code obtains from the environment become parameters:
- the working directory and the checkout path;
- what `filepath.Walk` visits;
- `ReadDir`/`Lstat`/`Open` results;
- the model loader;
- the pluralizer's `IsSingular`;
- `text/template`'s parse and execute (`Engine`).

Behaviours of the code that the model keeps as they are:
- Resource names are not de-duplicated.
- An operation named exactly `Create` passes the empty name to the pluralizer rather than being rejected.
- An empty output path is not rejected. `filepath.Join("", name)` gives `name`
  itself, an absolute path when `name` starts with `/`. The model has no
  absolute paths (see "## Left out"), so there an empty output path writes
  relative to the starting directory.
- The undefined `svcResources` at generate.go:65 is read as the package variable `crdNames`, which is the only list the package fills.
- v2's `templateVars` has its own `ServiceModelName` holding the raw `--model-name` option, and that field hides the lower-cased one in the embedded metadata (`TemplateVarsOf`).
- v1 compares the lower-cased serviceId with `--model-name` as given. A model name with an upper-case letter therefore never matches (`UnmatchableIdentifierFails`).
- In v1, a `serviceId` line without `:` makes `strings.Split(…)[1]` panic. It is modelled as the error `Panic(line)`, which ends the command like an error does.
- v2's `API()` discards `findModelPath`'s error and asks the loader for the empty path. A loader result with no API yields no metadata and no error (`ApiIgnoresLookupError`).

## Model

| member | source | states |
|---|---|---|
| GoStrings.TrimPrefix | cmd/controller-bootstrap/command/generatev2.go:105 | the prefix plus the result gives back the input when the prefix is there; otherwise the input is unchanged |
| GoStrings.TrimSuffix | cmd/controller-bootstrap/command/generatev2.go:106 | the result plus the suffix gives back the input when the suffix is there; otherwise the input is unchanged |
| GoStrings.ContainsIff | cmd/controller-bootstrap/command/apiutil.go:102 | `Contains(s, sub)` holds exactly when `sub` occurs in `s` at some index |
| GoStrings.IndexOf | cmd/controller-bootstrap/command/apiutil.go:117 | the result is the first index holding the character, or -1 exactly when it does not occur |
| GoStrings.IndexOfAt | cmd/controller-bootstrap/command/apiutil.go:117 | the first index of a character is the position that holds it with none before |
| GoStrings.SecondFieldIsBetweenColons | cmd/controller-bootstrap/command/apiutil.go:117 | `Split(line, ":")[1]` is absent exactly when the line has no ':'; otherwise it is the text between the first ':' and the next ':' or the end |
| GoStrings.RemoveAll | cmd/controller-bootstrap/command/apiutil.go:118-119 | no removed character is left and the result is no longer than the input; `RemoveAllCounts` and `RemoveAllConcat` state what is kept |
| GoStrings.RemoveAllCounts | cmd/controller-bootstrap/command/apiutil.go:118-119 | every character that is not removed occurs in the result as often as in the input |
| GoStrings.RemoveAllConcat | cmd/controller-bootstrap/command/apiutil.go:118-119 | removal works piece by piece, so the kept characters stay in their order |
| GoStrings.RemoveAllKeepsClean | cmd/controller-bootstrap/command/apiutil.go:118-119 | a string with nothing to remove is left as it is |
| GoStrings.RemoveAllDropsAll | cmd/controller-bootstrap/command/apiutil.go:118-119 | a string made only of removed characters leaves nothing |
| GoStrings.ToLower | cmd/controller-bootstrap/command/apiutil.go:119 | same length, every character lowered |
| GoStrings.TrimLeftSpace | cmd/controller-bootstrap/command/generatev2.go:110 | the result is a suffix of the input, everything cut off is white space, and the result does not start with white space |
| GoStrings.TrimRightSpace | cmd/controller-bootstrap/command/generatev2.go:110 | the result is a prefix of the input, everything cut off is white space, and the result does not end with white space |
| GoStrings.TrimSpace | cmd/controller-bootstrap/command/generatev2.go:110 | the result is a slice of the input with only white space around it, and it neither starts nor ends with white space |
| Files.Components | cmd/controller-bootstrap/command/generatev2.go:114 | definition: split at '/', without empty and "." elements; see `Files.ComponentsAroundSlash` |
| Files.Join | cmd/controller-bootstrap/command/generatev2.go:114 | definition: the cleaned concatenation of the parts; see `Files.JoinIsCleanOfSlashJoin` |
| Files.ComponentsAroundSlash | cmd/controller-bootstrap/command/generatev2.go:114 | the cleaned elements of `a + "/" + b` are those of `a` followed by those of `b` |
| Files.JoinIsCleanOfSlashJoin | cmd/controller-bootstrap/command/generatev2.go:114 | joining two path texts gives the cleaned elements of `a + "/" + b` |
| Files.Parent | cmd/controller-bootstrap/command/generatev2.go:115 | definition of `filepath.Dir` on cleaned paths: all elements but the last; see `Materialize.WriteOut` and `Materialize.RunMaterializes` |
| Files.MkdirAllSpec | cmd/controller-bootstrap/command/generatev2.go:132 | on success the path is a directory, every old entry is kept, and every new entry is a directory on the way to the path; on failure the error names a file on that way |
| Files.MkdirAllFailsIff | cmd/controller-bootstrap/command/generatev2.go:132 | MkdirAll fails exactly when the nearest existing path above the target is a file |
| Files.EnsureDirSpec | cmd/controller-bootstrap/command/generatev2.go:128-141 | reports "existed" exactly for an existing directory and then changes nothing; a file is an error; on success the path is a directory, old entries are kept, and new entries are directories above the path |
| Files.EnsureDirSettles | cmd/controller-bootstrap/command/generate.go:141-154 | once ensureDir has succeeded, calling it again finds the directory and changes nothing |
| Files.WriteFileSpec | cmd/controller-bootstrap/command/generatev2.go:119 | writing succeeds exactly when the target is not a directory and its parent is an existing directory, and then only the target changes, to the new content |
| Files.FileSystem.Stat | cmd/controller-bootstrap/command/generatev2.go:129 | returns the node at the path, or nothing when the path is absent |
| Files.FileSystem.MkdirAll | cmd/controller-bootstrap/command/generatev2.go:132 | the new file system and error are those of `MkdirAllSpec` |
| Files.FileSystem.WriteFile | cmd/controller-bootstrap/command/generatev2.go:119 | the new file system and error are those of `WriteFileSpec` |
| Files.EnsureDir | cmd/controller-bootstrap/command/generate.go:141-154 | the result and the new file system are those of `EnsureDirSpec` |
| Naming.Contribution | cmd/controller-bootstrap/command/apiutilv2.go:168-176 | tested in the code's order (batch, then create, then singular), an operation contributes its stripped name exactly when it qualifies |
| Naming.CrdNames | cmd/controller-bootstrap/command/apiutilv2.go:164-179 | there are never more names than operations |
| Naming.CrdNamesAppend | cmd/controller-bootstrap/command/apiutilv2.go:167 | the names of a concatenated catalog are the names of its parts, in order |
| Naming.CrdNamesStep | cmd/controller-bootstrap/command/apiutilv2.go:167-177 | the names from position i on are operation i's contribution followed by the later names |
| Naming.PositionsPick | cmd/controller-bootstrap/command/apiutilv2.go:171-175 | the k-th name is the stripped operation at the k-th picked position, and that operation qualifies |
| Naming.PositionsIncrease | cmd/controller-bootstrap/command/apiutilv2.go:167 | the picked positions increase strictly, so the names follow catalog order |
| Naming.PositionsComplete | cmd/controller-bootstrap/command/apiutilv2.go:167-177 | every qualifying operation's position is picked |
| Naming.CrdNamesSelect | cmd/controller-bootstrap/command/apiutilv2.go:164-179 | the names are exactly the stripped qualifying operations, in catalog order, with none left out |
| Naming.CrdNamesSound | cmd/controller-bootstrap/command/apiutilv2.go:171-175 | every name is singular and comes from an operation `"Create" + name` of the catalog |
| Naming.CrdNamesSkip | cmd/controller-bootstrap/command/apiutilv2.go:168-170 | a `CreateBatch…` operation or a non-`Create` operation contributes nothing wherever it stands |
| Naming.SkippedAlone | cmd/controller-bootstrap/command/apiutil.go:149-152 | a one-operation catalog with a batch or non-create operation has no names |
| Naming.CrdNamesExample | cmd/controller-bootstrap/command/apiutilv2.go:164-179 | a catalog with one singular create, one batch create, one plural create and one describe yields only the singular create's name |
| Materialize.NonDirectories | cmd/controller-bootstrap/command/generatev2.go:82-90 | definition; see `Materialize.NonDirectoriesMembers` |
| Materialize.NonDirectoriesMembers | cmd/controller-bootstrap/command/generatev2.go:82-90 | a path is collected exactly when the walk visited it as a non-directory |
| Materialize.CollectTemplates | cmd/controller-bootstrap/command/generatev2.go:82-90 | the walk callback's appends give the visited non-directories in walk order |
| Materialize.DestName | cmd/controller-bootstrap/command/generatev2.go:105-106 | definition; see `Materialize.DestNameRestores` |
| Materialize.DestNameRestores | cmd/controller-bootstrap/command/generatev2.go:105-106 | putting the template directory and ".tpl" back around the destination name gives the template path; a missing prefix or suffix is left alone |
| Materialize.Render | cmd/controller-bootstrap/command/generatev2.go:95-103 | rendering fails exactly when parsing or executing fails |
| Materialize.WriteOut | cmd/controller-bootstrap/command/generatev2.go:114-121 | only the destination and new directories above it change; directories and files keep their kind; on success the destination holds the content below a directory |
| Materialize.Run | cmd/controller-bootstrap/command/generatev2.go:94-122 | definition of one pass over the template actions; see `RunFootprint`, `RunMaterializes`, `AbortStops` and `RunIdempotent` |
| Materialize.RunFootprint | cmd/controller-bootstrap/command/generatev2.go:94-122 | a run keeps every path and each node's kind; a path no action writes keeps its node; every added or changed path is a destination or lies above one |
| Materialize.RunWithoutWrites | cmd/controller-bootstrap/command/generatev2.go:108-112 | actions without writes leave the file system as it was |
| Materialize.RunOnlyPrintsSucceeds | cmd/controller-bootstrap/command/generatev2.go:108-111 | actions that neither abort nor write always succeed, leave the tree as it was and print every Print action in order |
| Materialize.RunPrints | cmd/controller-bootstrap/command/generatev2.go:108-111 | a run that ends without error printed exactly the Print actions, in order |
| Materialize.PrintsAll | cmd/controller-bootstrap/command/generatev2.go:108-111 | when every action prints, the output lists each of them in order |
| Materialize.RunConcat | cmd/controller-bootstrap/command/generatev2.go:94-122 | running `a + b` runs `a`, then runs `b` on what `a` left, unless `a` failed |
| Materialize.AbortStops | cmd/controller-bootstrap/command/generatev2.go:95-103 | the first failing template ends the run with its error; earlier templates have had their effect and later ones have none |
| Materialize.RunMaterializes | cmd/controller-bootstrap/command/generatev2.go:114-121 | after a successful run, every destination is a file below a directory and holds what the last write to it wrote |
| Materialize.Converge | cmd/controller-bootstrap/command/generatev2.go:114-121 | replaying writes on a tree shaped like their result, and agreeing with it where they do not write, gives that result |
| Materialize.RunIdempotent | cmd/controller-bootstrap/command/generatev2.go:94-122 | running the same actions again on what a successful run left changes nothing and prints the same |
| ApiUtilV2.CheckedVersions | cmd/controller-bootstrap/command/apiutilv2.go:131-142 | definition; see `ApiUtilV2.CheckedVersionsIff` |
| ApiUtilV2.ApiVersions | cmd/controller-bootstrap/command/apiutilv2.go:124-147 | definition; see `ApiUtilV2.ApiVersionsIff` |
| ApiUtilV2.CheckedVersionsIff | cmd/controller-bootstrap/command/apiutilv2.go:131-142 | the Lstat check passes exactly when every entry is a directory, and then keeps all entries in order; otherwise it reports the first bad entry's Lstat error or a non-directory error |
| ApiUtilV2.ApiVersionsIff | cmd/controller-bootstrap/command/apiutilv2.go:124-147 | versions are found exactly when the service directory reads, is non-empty and holds only directories; they are then its entries, and an empty directory is "no valid version directories" |
| ApiUtilV2.LessEqTotal | cmd/controller-bootstrap/command/apiutilv2.go:119 | Go's string order is total |
| ApiUtilV2.LessEqTransitive | cmd/controller-bootstrap/command/apiutilv2.go:119 | Go's string order is transitive |
| ApiUtilV2.LessEqAntisymmetric | cmd/controller-bootstrap/command/apiutilv2.go:119 | Go's string order is antisymmetric |
| ApiUtilV2.Smallest | cmd/controller-bootstrap/command/apiutilv2.go:119-120 | the first version after sorting is a version no greater than any other |
| ApiUtilV2.SmallestUnique | cmd/controller-bootstrap/command/apiutilv2.go:119-120 | any version no greater than all others is that first version, whatever the listing order |
| ApiUtilV2.FirstVersion | cmd/controller-bootstrap/command/apiutilv2.go:114-121 | succeeds exactly when the versions are found, and returns the least of them |
| ApiUtilV2.FindModelPathSpec | cmd/controller-bootstrap/command/apiutilv2.go:95-110 | definition; see `FindModelPathReusesVersion` and `FindModelPathPicksLeast` |
| ApiUtilV2.FindModelPathReusesVersion | cmd/controller-bootstrap/command/apiutilv2.go:98-109 | a remembered version is used for any service name, without looking at the checkout |
| ApiUtilV2.FindModelPathPicksLeast | cmd/controller-bootstrap/command/apiutilv2.go:95-110 | with nothing remembered, the path is `…/<service>/<least version>/api-2.json` and that version is remembered; the lookup fails exactly when the versions are not found, and then nothing is remembered |
| ApiUtilV2.ServiceModelName | cmd/controller-bootstrap/command/apiutilv2.go:73-76 | definition; see `ApiUtilV2.ApiMetadataSound` |
| ApiUtilV2.ServiceMetaVars | cmd/controller-bootstrap/command/apiutilv2.go:151-160 | definition; see `ApiUtilV2.ApiMetadataSound` |
| ApiUtilV2.ApiSpec | cmd/controller-bootstrap/command/apiutilv2.go:72-92 | definition; see `ApiMetadataSound` and `ApiIgnoresLookupError` |
| ApiUtilV2.GetCrdNames | cmd/controller-bootstrap/command/apiutilv2.go:164-179 | the loop with `continue` returns `CrdNames` of the operation names |
| ApiUtilV2.ApiMetadataSound | cmd/controller-bootstrap/command/apiutilv2.go:72-92 | returned metadata comes from the first API loaded from the path findModelPath picks for the lower-cased model name or alias (the empty path when that lookup fails): its identity fields, the lower-cased alias and model name, and exactly that API's `CrdNames`, each from a `Create` + name operation of it that is not `CreateBatch…` and whose name is singular |
| ApiUtilV2.ApiIgnoresLookupError | cmd/controller-bootstrap/command/apiutilv2.go:77-91 | a failed path lookup is not reported: the loader's answer for the empty path decides, an empty answer gives no metadata and no error, and nothing is remembered |
| ApiUtilV2.AwsSdkHelper.constructor | cmd/controller-bootstrap/command/apiutilv2.go:61-68 | a new helper has no remembered version |
| ApiUtilV2.AwsSdkHelper.GetApiVersions | cmd/controller-bootstrap/command/apiutilv2.go:124-147 | the listing loop returns `ApiVersions` |
| ApiUtilV2.AwsSdkHelper.FirstApiVersion | cmd/controller-bootstrap/command/apiutilv2.go:114-121 | returns `FirstVersion` |
| ApiUtilV2.AwsSdkHelper.FindModelPath | cmd/controller-bootstrap/command/apiutilv2.go:95-110 | the path and the new remembered version are those of `FindModelPathSpec` |
| ApiUtilV2.AwsSdkHelper.Api | cmd/controller-bootstrap/command/apiutilv2.go:72-92 | the result and the new remembered version are those of `ApiSpec` |
| ApiUtilV2.ServiceResourcesSpec | cmd/controller-bootstrap/command/apiutilv2.go:51-58 | every failure of API() becomes "service API not found"; a success is passed on unchanged |
| ApiUtilV2.GetServiceResources | cmd/controller-bootstrap/command/apiutilv2.go:51-58 | a fresh helper's lookup returns `ServiceResourcesSpec` |
| GenerateV2.Destination | cmd/controller-bootstrap/command/generatev2.go:114 | definition; see `GenerateV2.WritesEveryTemplate` and `GenerateV2.TouchesOnlyDestinations` |
| GenerateV2.GenerateSpec | cmd/controller-bootstrap/command/generatev2.go:49-124 | definition; see the `GenerateV2` lemmas below |
| GenerateV2.RenderTemplate | cmd/controller-bootstrap/command/generatev2.go:95-121 | one pass of the loop has the effect, output and error of running that template's action |
| GenerateV2.RenderTemplates | cmd/controller-bootstrap/command/generatev2.go:81-123 | the loop has the effect, output and error of `Run` over the templates' actions |
| GenerateV2.GenerateController | cmd/controller-bootstrap/command/generatev2.go:49-124 | the command's effect, output and error are those of `GenerateSpec` |
| GenerateV2.DryRunWritesNothing | cmd/controller-bootstrap/command/generatev2.go:108-112 | a dry run changes nothing on disk |
| GenerateV2.DryRunPrintsEveryTemplate | cmd/controller-bootstrap/command/generatev2.go:108-111 | a successful dry run prints every template in walk order, under its destination name, with its trimmed rendering |
| GenerateV2.DryRunPlanSucceeds | cmd/controller-bootstrap/command/generatev2.go:108-111 | in a dry run where every template renders, the loop only prints and succeeds |
| GenerateV2.PlanFailsAt | cmd/controller-bootstrap/command/generatev2.go:95-103 | a template that does not parse or execute makes the loop fail |
| GenerateV2.DryRunSucceedsIff | cmd/controller-bootstrap/command/generatev2.go:69-112 | a dry run succeeds exactly when the service lookup succeeds and every template parses and executes |
| GenerateV2.WritesEveryTemplate | cmd/controller-bootstrap/command/generatev2.go:114-121 | after a successful run every template's destination is a file below a directory, holding the rendering of the last template with that destination |
| GenerateV2.TouchesOnlyDestinations | cmd/controller-bootstrap/command/generatev2.go:114-121 | only template destinations and directories above them are added or changed; kinds are kept |
| GenerateV2.StopsAtFirstRenderError | cmd/controller-bootstrap/command/generatev2.go:95-103 | the first template that fails to parse or execute ends the command with its error after the earlier templates and before any later one |
| GenerateV2.LookupFailureWritesNothing | cmd/controller-bootstrap/command/generatev2.go:69-72 | a failed service lookup ends the command with "service API not found" and no change |
| GenerateV2.RegenerateIsIdempotent | cmd/controller-bootstrap/command/generatev2.go:49-124 | generating again into what a successful run produced changes nothing and prints the same |
| ApiUtil.Candidates | cmd/controller-bootstrap/command/apiutil.go:98-106 | definition; see `ApiUtil.CandidatesMembers` |
| ApiUtil.CandidatesMembers | cmd/controller-bootstrap/command/apiutil.go:98-106 | a path is a candidate exactly when the walk visited it and it contains "api-2.json" |
| ApiUtil.CollectCandidates | cmd/controller-bootstrap/command/apiutil.go:98-106 | the walk callback's appends give `Candidates` in walk order |
| ApiUtil.Normalize | cmd/controller-bootstrap/command/apiutil.go:117-119 | definition; see `NormalizeIsMatchable` and `NormalizeStrips` |
| ApiUtil.NormalizeIsMatchable | cmd/controller-bootstrap/command/apiutil.go:118-119 | a normalized serviceId has no quote, comma or blank and no upper-case letter |
| ApiUtil.NormalizeStrips | cmd/controller-bootstrap/command/apiutil.go:118-119 | quotes, commas and blanks around the field's text go, and the text is lower-cased |
| ApiUtil.ScanLines | cmd/controller-bootstrap/command/apiutil.go:114-126 | definition; see `ScanMatchIff`, `ScanPanicIff` and `ScanNoMatchIff` |
| ApiUtil.ScanMatchIff | cmd/controller-bootstrap/command/apiutil.go:115-125 | a file matches exactly when some serviceId line names the service and no earlier line panics or matches |
| ApiUtil.ScanPanicIff | cmd/controller-bootstrap/command/apiutil.go:115-125 | the scan panics exactly at the first colon-less serviceId line that comes before any match |
| ApiUtil.ScanNoMatchIff | cmd/controller-bootstrap/command/apiutil.go:115-125 | the scan finds nothing exactly when no line names the service or panics |
| ApiUtil.ServiceIdLineExample | cmd/controller-bootstrap/command/apiutil.go:115-124 | a file whose second line is `    "serviceId":"S3",` matches the identifier "s3" |
| ApiUtil.ScanFiles | cmd/controller-bootstrap/command/apiutil.go:107-128 | definition; see `ScanFilesFirstMatch` and `ScanFilesFindsMatch` |
| ApiUtil.ScanFilesFirstMatch | cmd/controller-bootstrap/command/apiutil.go:107-127 | a path is returned, without error, only for the first candidate in walk order that matches; every earlier candidate opened and did not match |
| ApiUtil.ScanFilesFindsMatch | cmd/controller-bootstrap/command/apiutil.go:107-128 | a candidate whose lines name the service, after candidates that all opened and named no service, is the one returned, with no error |
| ApiUtil.UnmatchableFindsNothing | cmd/controller-bootstrap/command/apiutil.go:116-120 | an identifier with a removed character or an upper-case letter finds no path |
| ApiUtil.ModelApiPathSpec | cmd/controller-bootstrap/command/apiutil.go:95-128 | definition; see `ApiUtil.ModelApiPath` and the `ScanFiles` lemmas |
| ApiUtil.ModelApiPath | cmd/controller-bootstrap/command/apiutil.go:95-128 | the nested loops return `ModelApiPathSpec`: an open error gives no path, a panic is reported, and after the last candidate the walk's own error is returned |
| ApiUtil.ModelApiSpec | cmd/controller-bootstrap/command/apiutil.go:131-160 | definition; see `ModelApiOnlyAppends` and `ModelApiRepeatsNames` |
| ApiUtil.ModelApiOnlyAppends | cmd/controller-bootstrap/command/apiutil.go:131-160 | modelAPI keeps svcFile and the recorded names in front; a load error or an empty load adds nothing; otherwise exactly the last loaded API's `CrdNames` are appended, each from a `Create` + name operation of that API that is not `CreateBatch…` and whose name is singular |
| ApiUtil.ModelApiRepeatsNames | cmd/controller-bootstrap/command/apiutil.go:148-158 | crdNames is never reset, so loading the same model twice records its names twice |
| ApiUtil.PackageVars.constructor | cmd/controller-bootstrap/command/apiutil.go:33-39 | the package variables start from the given values |
| ApiUtil.PackageVars.AppendCrdNames | cmd/controller-bootstrap/command/apiutil.go:148-158 | the loop appends `CrdNames` of the operations to crdNames and changes nothing else |
| ApiUtil.PackageVars.ModelApi | cmd/controller-bootstrap/command/apiutil.go:131-160 | the new package variables and the error are those of `ModelApiSpec`: the last API's metadata, crdNames extended, and nothing changed on a load error |
| ApiUtil.Identifier | cmd/controller-bootstrap/command/apiutil.go:65-69 | definition; see `ApiUtil.UnmatchableIdentifierFails` |
| ApiUtil.ServiceResourcesSpec | cmd/controller-bootstrap/command/apiutil.go:65-81 | definition; see `ServiceResourcesFound` and `ServiceResourcesFindsMatch` |
| ApiUtil.ServiceResourcesFound | cmd/controller-bootstrap/command/apiutil.go:52-82 | a successful lookup recorded a non-empty svcFile that the walk visited, that contains "api-2.json", that opens, that names the service and that loads; the earlier names are kept |
| ApiUtil.ServiceResourcesFindsMatch | cmd/controller-bootstrap/command/apiutil.go:65-81 | when a candidate names the service after candidates that all opened and named none, and it loads, the lookup succeeds and records that file |
| ApiUtil.UnmatchableIdentifierFails | cmd/controller-bootstrap/command/apiutil.go:65-75 | an identifier no serviceId can normalize to (such as an upper-case model name) always ends in an error, with svcFile set to "" |
| ApiUtil.GetServiceResources | cmd/controller-bootstrap/command/apiutil.go:52-82 | the new package variables and the error are those of `ServiceResourcesSpec`: svcFile is recorded even on failure, and an empty path is "service file not found" |
| Generate.AllowListed | cmd/controller-bootstrap/command/generate.go:96 | definition; see `Generate.TouchesOnlyWritable` and `Generate.DryRunListingSound` |
| Generate.GenerateSpec | cmd/controller-bootstrap/command/generate.go:44-122 | definition; see the `Generate` lemmas below |
| Generate.WriteFiles | cmd/controller-bootstrap/command/generate.go:125-137 | the effect and error are those of ensureDir on the parent followed by WriteFile at the trimmed destination |
| Generate.RenderTemplate | cmd/controller-bootstrap/command/generate.go:85-119 | one pass of the loop has the effect, output and error of running that template's action |
| Generate.RenderTemplates | cmd/controller-bootstrap/command/generate.go:71-121 | the loop has the effect, output and error of `Run` over the templates' actions |
| Generate.GenerateTemplates | cmd/controller-bootstrap/command/generate.go:44-122 | the package variables, effect, output and error are those of `GenerateSpec` |
| Generate.UsageChangesNothing | cmd/controller-bootstrap/command/generate.go:45-47 | without exactly one argument the command fails with a usage error and changes nothing |
| Generate.DryRunWritesNothing | cmd/controller-bootstrap/command/generate.go:98-113 | a dry run changes nothing on disk, for new and existing controllers alike |
| Generate.TouchesOnlyWritable | cmd/controller-bootstrap/command/generate.go:94-119 | only destinations of templates written in this mode, and directories above them, change; for an existing controller these are only README.md and OWNERS templates |
| Generate.WritesEveryWritableTemplate | cmd/controller-bootstrap/command/generate.go:103-118 | after a successful run every template written in this mode has its rendering at its destination below a directory, the last one when destinations coincide |
| Generate.DryRunListing | cmd/controller-bootstrap/command/generate.go:98-113 | definition; see `DryRunListingSound` and `DryRunListingComplete` |
| Generate.PrintsAreListing | cmd/controller-bootstrap/command/generate.go:98-113 | in a dry run the printed actions are `DryRunListing` of the templates |
| Generate.DryRunListingSound | cmd/controller-bootstrap/command/generate.go:98-101 | every listed entry is a template shown in this mode (only README.md or OWNERS ones for an existing controller), under its own path, with its trimmed rendering |
| Generate.DryRunListingComplete | cmd/controller-bootstrap/command/generate.go:98-113 | when every template renders, each template shown in this mode is listed with its trimmed rendering |
| Generate.DryRunListingLength | cmd/controller-bootstrap/command/generate.go:110-113 | for a new controller the listing has one entry per template |
| Generate.DryRunPrintsListing | cmd/controller-bootstrap/command/generate.go:84-121 | a successful dry run rendered every template and printed exactly the listing |
| Generate.DryRunPlanSucceeds | cmd/controller-bootstrap/command/generate.go:94-113 | in a dry run where every template renders, the loop only prints or skips and succeeds |
| Generate.PlanFailsAt | cmd/controller-bootstrap/command/generate.go:85-92 | a template that does not parse or execute makes the loop fail |
| Generate.DryRunSucceedsIff | cmd/controller-bootstrap/command/generate.go:44-121 | a dry run with one argument succeeds exactly when the service lookup succeeds and every template, shown or not, parses and executes |
| Generate.StopsAtFirstRenderError | cmd/controller-bootstrap/command/generate.go:85-92 | the first template that fails to parse or execute ends the command with its error, even one an existing controller would not refresh |
| Generate.RegenerateIsIdempotent | cmd/controller-bootstrap/command/generate.go:44-122 | a new process with the same starting package variables, run on what a successful run produced, changes nothing and prints the same |

## Left out

- `ensureSDKRepo`, `CloneRepository` and `contextWithSigterm` are left out. These are git cloning, timeouts and signal handling; the checkout directory they produce is a parameter.
- `os.UserHomeDir`, `os.Getwd` and the `os.Exit(1)` on their failure are left out. Their results are parameters.
- The cobra command wiring in root.go is not part of this model. The parsed options are the `Options` value.
- The aws-sdk-go model loader, the pluralizer and `text/template` are outside this model. They are functions given to the model: the loader returns the APIs in map-iteration order, which Go leaves unspecified.
- `filepath.Walk` is an input: the entries it visits in walk order. The template walk's error is ignored, as both generate files do.
- The v1 line scanner's own errors (a line over 64 KiB ends the scan silently) and `defer openFile.Close()` are not modelled. A file is the sequence of its lines.
- Paths are cleaned element sequences. `..`, absolute versus relative paths and symbolic links are not modelled, and neither are file permissions (0666, `os.ModePerm`).
- `GoStrings.ToLower`: only ASCII letters are lowered; Unicode case mapping beyond ASCII is not modelled.
- Printed output is modelled as (header name, trimmed body) pairs. The exact `fmt` layout of the `=====` header line is not modelled.
- `Materialize.Render`: an execution error is modelled as producing no output. The bytes `Execute` had already written to the buffer are discarded either way.
- A panic in v1's serviceId split is modelled as the error `Panic(line)` rather than as a crash of the process. In both cases the command stops before any template is handled.

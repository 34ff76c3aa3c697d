/** The service lookup of the second generation (apiutilv2.go): find the
    lexicographically smallest API version directory of the service in the
    aws-sdk-go checkout, load the model file found there, and derive the
    service's template metadata from the first API the loader returns. */
module ApiUtilV2 {
  import opened Common
  import opened GoStrings
  import opened Files
  import opened Naming
  import opened Flags

  /** The aws-sdk-go checkout, seen through the calls the helper makes on it:
      ioutil.ReadDir (entry names), os.Lstat (whether the entry is a
      directory) and the model loader's Load (the APIs in a model file). */
  datatype Sdk = Sdk(
    sdkDir: string,
    readDir: Path -> Result<seq<string>>,
    lstat: Path -> Result<bool>,
    load: Path -> Result<seq<Api>>)

  /** The service metadata handed to the templates. */
  datatype MetaVars = MetaVars(
    serviceId: string,
    servicePackageName: string,
    serviceModelName: string,
    serviceAbbreviation: string,
    serviceFullName: string,
    crdNames: seq<string>)

  /** models/apis/<service> below the checkout. */
  function ApiPath(sdkDir: string, service: string): Path {
    Join([sdkDir, "models", "apis", service])
  }

  /** models/apis/<service>/<version> below the checkout. */
  function VersionPath(sdkDir: string, service: string, version: string): Path {
    Join([sdkDir, "models", "apis", service, version])
  }

  /** models/apis/<service>/<version>/api-2.json below the checkout. */
  function ModelPath(sdkDir: string, service: string, version: string): Path {
    Join([sdkDir, "models", "apis", service, version, "api-2.json"])
  }

  /** Entry `name` of the service directory is a version directory. */
  predicate GoodVersion(sdk: Sdk, service: string, name: string) {
    sdk.lstat(VersionPath(sdk.sdkDir, service, name)) == Ok(true)
  }

  /** The Lstat check on each entry, in directory order: an Lstat error or a
      non-directory ends the check with an error. */
  function CheckedVersions(sdk: Sdk, service: string, names: seq<string>): Result<seq<string>> {
    if names == [] then Ok([])
    else
      match sdk.lstat(VersionPath(sdk.sdkDir, service, names[0]))
      case Err(e) => Err(e)
      case Ok(isDir) =>
        if !isDir then Err(NotAVersionDirectory(names[0]))
        else
          match CheckedVersions(sdk, service, names[1..])
          case Err(e) => Err(e)
          case Ok(vs) => Ok([names[0]] + vs)
  }

  /** Entry k is the first entry that is not a version directory. */
  ghost predicate FirstBadEntry(sdk: Sdk, service: string, names: seq<string>, k: int) {
    0 <= k < |names| && !GoodVersion(sdk, service, names[k])
    && forall j :: 0 <= j < k ==> GoodVersion(sdk, service, names[j])
  }

  /** The error Lstat-checking entry `name` reports. */
  function LstatError(sdk: Sdk, service: string, name: string): Error {
    match sdk.lstat(VersionPath(sdk.sdkDir, service, name))
    case Err(e) => e
    case Ok(_) => NotAVersionDirectory(name)
  }

  /** The check passes exactly when every entry is a version directory, and
      then keeps them all in order; otherwise it reports the first entry
      that is not one, with Lstat's error or as a non-directory. */
  lemma {:induction false} CheckedVersionsIff(sdk: Sdk, service: string, names: seq<string>)
    ensures var r := CheckedVersions(sdk, service, names);
      && (r.Ok? <==> forall k :: 0 <= k < |names| ==> GoodVersion(sdk, service, names[k]))
      && (r.Ok? ==> r.value == names)
      && (r.Err? ==> exists k :: FirstBadEntry(sdk, service, names, k) && r.error == LstatError(sdk, service, names[k]))
    decreases |names|
  {
    if names != [] {
      var rest := names[1..];
      CheckedVersionsIff(sdk, service, rest);
      assert forall k :: 0 < k < |names| ==> names[k] == rest[k - 1];
      if GoodVersion(sdk, service, names[0]) && CheckedVersions(sdk, service, rest).Err? {
        var k :| FirstBadEntry(sdk, service, rest, k);
        assert FirstBadEntry(sdk, service, names, k + 1);
      } else if !GoodVersion(sdk, service, names[0]) {
        assert FirstBadEntry(sdk, service, names, 0);
      }
    }
  }

  /** What Ok(vs) becomes once the entries before it are put in front. */
  function WithFront(front: seq<string>, r: Result<seq<string>>): Result<seq<string>> {
    match r
    case Err(e) => Err(e)
    case Ok(vs) => Ok(front + vs)
  }

  lemma WithFrontTwice(a: seq<string>, b: seq<string>, r: Result<seq<string>>)
    ensures WithFront(a, WithFront(b, r)) == WithFront(a + b, r)
  {
    if r.Ok? {
      assert a + (b + r.value) == a + b + r.value;
    }
  }

  /** getAPIVersions: the version directories of the service, or an error. */
  function ApiVersions(sdk: Sdk, service: string): Result<seq<string>> {
    match sdk.readDir(ApiPath(sdk.sdkDir, service))
    case Err(e) => Err(e)
    case Ok(names) =>
      match CheckedVersions(sdk, service, names)
      case Err(e) => Err(e)
      case Ok(vs) => if vs == [] then Err(NoVersionDirectories) else Ok(vs)
  }

  /** The versions are found exactly when the service directory can be read,
      is not empty and holds only directories, and then they are its entries. */
  lemma ApiVersionsIff(sdk: Sdk, service: string)
    ensures var r := ApiVersions(sdk, service);
      var listing := sdk.readDir(ApiPath(sdk.sdkDir, service));
      && (r.Ok? <==> listing.Ok? && AllVersions(sdk, service, listing.value))
      && (r.Ok? ==> r.value == listing.value)
      && (listing.Ok? && listing.value == [] ==> r == Err(NoVersionDirectories))
  {
    var listing := sdk.readDir(ApiPath(sdk.sdkDir, service));
    if listing.Ok? {
      CheckedVersionsIff(sdk, service, listing.value);
    }
  }

  /** A non-empty listing of version directories only. */
  predicate AllVersions(sdk: Sdk, service: string, names: seq<string>) {
    names != [] && forall k :: 0 <= k < |names| ==> GoodVersion(sdk, service, names[k])
  }

  /** Go's string order: byte-wise, which for UTF-8 text is code point order. */
  predicate LessEq(a: string, b: string) {
    a == [] || (b != [] && (a[0] < b[0] || (a[0] == b[0] && LessEq(a[1..], b[1..]))))
  }

  lemma {:induction false} LessEqTotal(a: string, b: string)
    ensures LessEq(a, b) || LessEq(b, a)
  {
    if a != [] && b != [] && a[0] == b[0] {
      LessEqTotal(a[1..], b[1..]);
    }
  }

  lemma {:induction false} LessEqTransitive(a: string, b: string, c: string)
    requires LessEq(a, b) && LessEq(b, c)
    ensures LessEq(a, c)
  {
    if a != [] && a[0] == b[0] && b[0] == c[0] {
      LessEqTransitive(a[1..], b[1..], c[1..]);
    }
  }

  lemma {:induction false} LessEqAntisymmetric(a: string, b: string)
    requires LessEq(a, b) && LessEq(b, a)
    ensures a == b
  {
    if a != [] {
      LessEqAntisymmetric(a[1..], b[1..]);
      assert a == [a[0]] + a[1..] && b == [b[0]] + b[1..];
    }
  }

  /** versions[0] after sort.Strings: the least version. */
  function Smallest(vs: seq<string>): (m: string)
    requires vs != []
    ensures m in vs
    ensures forall v :: v in vs ==> LessEq(m, v)
  {
    LessEqTotal(vs[0], vs[0]);
    if |vs| == 1 then vs[0]
    else
      var m := Smallest(vs[1..]);
      assert forall v :: v in vs ==> v == vs[0] || v in vs[1..];
      LessEqTotal(vs[0], m);
      if LessEq(vs[0], m) then
        assert forall v :: v in vs[1..] ==> LessEq(vs[0], v) by {
          forall v | v in vs[1..] ensures LessEq(vs[0], v) {
            LessEqTransitive(vs[0], m, v);
          }
        }
        vs[0]
      else
        m
  }

  /** Whatever order the directory listing comes in, the least version is
      the one element that is no greater than all the others. */
  lemma SmallestUnique(vs: seq<string>, m: string)
    requires vs != [] && m in vs && forall v :: v in vs ==> LessEq(m, v)
    ensures Smallest(vs) == m
  {
    LessEqAntisymmetric(m, Smallest(vs));
  }

  /** firstAPIVersion: the least version directory of the service. */
  function FirstVersion(sdk: Sdk, service: string): (r: Result<string>)
    ensures r.Ok? <==> ApiVersions(sdk, service).Ok?
    ensures r.Ok? ==> r.value in ApiVersions(sdk, service).value
    ensures r.Ok? ==> forall v :: v in ApiVersions(sdk, service).value ==> LessEq(r.value, v)
  {
    match ApiVersions(sdk, service)
    case Err(e) => Err(e)
    case Ok(vs) => Ok(Smallest(vs))
  }

  /** findModelPath with the helper's remembered version `cached`: the model
      path found, or the error, and what the helper remembers afterwards. */
  function FindModelPathSpec(sdk: Sdk, cached: string, service: string): (Result<Path>, string) {
    if cached == "" then
      match FirstVersion(sdk, service)
      case Err(e) => (Err(e), cached)
      case Ok(v) => (Ok(ModelPath(sdk.sdkDir, service, v)), v)
    else
      (Ok(ModelPath(sdk.sdkDir, service, cached)), cached)
  }

  /** A remembered version is used as it is, for any service name and
      without looking at the checkout. */
  lemma FindModelPathReusesVersion(sdk: Sdk, sdk': Sdk, cached: string, service: string)
    requires cached != "" && sdk'.sdkDir == sdk.sdkDir
    ensures FindModelPathSpec(sdk, cached, service) == FindModelPathSpec(sdk', cached, service)
    ensures FindModelPathSpec(sdk, cached, service) == (Ok(ModelPath(sdk.sdkDir, service, cached)), cached)
  {
  }

  /** Without a remembered version, the path is the model file in the least
      version directory, which is remembered from then on; a failed lookup
      remembers nothing. */
  lemma FindModelPathPicksLeast(sdk: Sdk, service: string)
    ensures var (r, cache) := FindModelPathSpec(sdk, "", service);
      var listing := sdk.readDir(ApiPath(sdk.sdkDir, service));
      && (r.Ok? <==> listing.Ok? && AllVersions(sdk, service, listing.value))
      && (r.Ok? ==> cache in listing.value && r.value == ModelPath(sdk.sdkDir, service, cache))
      && (r.Ok? ==> forall v :: v in listing.value ==> LessEq(cache, v))
      && (r.Err? ==> cache == "")
  {
    ApiVersionsIff(sdk, service);
  }

  /** The service directory to look in: the lower-cased model name, or the
      lower-cased service alias when no model name was given. */
  function ServiceModelName(opts: Options): string {
    if opts.modelName == "" then ToLower(opts.serviceAlias) else ToLower(opts.modelName)
  }

  /** serviceMetaVars, given the resource names getCRDNames derived. */
  function ServiceMetaVars(api: Api, opts: Options, crdNames: seq<string>): MetaVars {
    MetaVars(
      api.metadata.serviceId,
      ToLower(opts.serviceAlias),
      ToLower(opts.modelName),
      api.metadata.serviceAbbreviation,
      api.metadata.serviceFullName,
      crdNames)
  }

  /** getCRDNames: loop over the operation names and keep the singular
      "Create" resources. */
  method GetCrdNames(api: Api, isSingular: string -> bool) returns (names: seq<string>)
    ensures names == CrdNames(api.operationNames, isSingular)
  {
    var ops := api.operationNames;
    names := [];
    assert ops[0..] == ops && [] + CrdNames(ops, isSingular) == CrdNames(ops, isSingular);
    for i := 0 to |ops|
      invariant names + CrdNames(ops[i..], isSingular) == CrdNames(ops, isSingular)
    {
      var opName := ops[i];
      CrdNamesStep(names, ops, i, isSingular);
      if HasPrefix(opName, CreateBatchPrefix) {
        assert names + Contribution(opName, isSingular) == names;
        continue;
      }
      if HasPrefix(opName, CreatePrefix) {
        var resName := TrimPrefix(opName, CreatePrefix);
        if isSingular(resName) {
          names := names + [resName];
        } else {
          assert names + Contribution(opName, isSingular) == names;
        }
      } else {
        assert names + Contribution(opName, isSingular) == names;
      }
    }
    assert ops[|ops|..] == [] && names + [] == names;
  }

  /** API(): the metadata of the first API loaded from the model path, with
      what the helper remembers afterwards. A failed path lookup is not
      reported: the loader is then asked for the empty path. A loader that
      returns no API gives no metadata and no error. */
  function ApiSpec(sdk: Sdk, cached: string, opts: Options, isSingular: string -> bool)
    : (Result<Option<MetaVars>>, string)
  {
    var (found, cache) := FindModelPathSpec(sdk, cached, ServiceModelName(opts));
    var modelPath := if found.Ok? then found.value else [];
    match sdk.load(modelPath)
    case Err(e) => (Err(e), cache)
    case Ok(apis) =>
      if apis == [] then (Ok(None), cache)
      else
        var api := apis[0];
        (Ok(Some(ServiceMetaVars(api, opts, CrdNames(api.operationNames, isSingular)))), cache)
  }

  /** The metadata comes from the first API loaded from the model file
      findModelPath picks for ServiceModelName (the empty path when that
      lookup fails): its identity fields, the lower-cased alias and model
      name, and exactly that API's resource names, each from a qualifying
      "Create" operation of it (not "CreateBatch", singular). */
  lemma ApiMetadataSound(sdk: Sdk, cached: string, opts: Options, isSingular: string -> bool)
    requires ApiSpec(sdk, cached, opts, isSingular).0.Ok?
    requires ApiSpec(sdk, cached, opts, isSingular).0.value.Some?
    ensures var m := ApiSpec(sdk, cached, opts, isSingular).0.value.value;
      var found := FindModelPathSpec(sdk, cached, ServiceModelName(opts)).0;
      var path := if found.Ok? then found.value else [];
      && sdk.load(path).Ok? && sdk.load(path).value != []
      && var api := sdk.load(path).value[0];
      && m.serviceId == api.metadata.serviceId
      && m.serviceAbbreviation == api.metadata.serviceAbbreviation
      && m.serviceFullName == api.metadata.serviceFullName
      && m.servicePackageName == ToLower(opts.serviceAlias)
      && m.serviceModelName == ToLower(opts.modelName)
      && m.crdNames == CrdNames(api.operationNames, isSingular)
      && forall n :: n in m.crdNames ==>
           isSingular(n) && Qualifies(CreatePrefix + n, isSingular) && CreatePrefix + n in api.operationNames
  {
    var (found, _) := FindModelPathSpec(sdk, cached, ServiceModelName(opts));
    var path := if found.Ok? then found.value else [];
    var api := sdk.load(path).value[0];
    var m := ApiSpec(sdk, cached, opts, isSingular).0.value.value;
    forall n | n in m.crdNames
      ensures isSingular(n) && Qualifies(CreatePrefix + n, isSingular) && CreatePrefix + n in api.operationNames
    {
      CrdNamesSound(api.operationNames, isSingular, n);
    }
  }

  /** A failed path lookup does not stop API(): the loader decides, on the
      empty path, and nothing is remembered. */
  lemma ApiIgnoresLookupError(sdk: Sdk, opts: Options, isSingular: string -> bool)
    requires FindModelPathSpec(sdk, "", ServiceModelName(opts)).0.Err?
    ensures ApiSpec(sdk, "", opts, isSingular).1 == ""
    ensures sdk.load([]).Err? ==> ApiSpec(sdk, "", opts, isSingular).0 == Err(sdk.load([]).error)
    ensures sdk.load([]) == Ok([]) ==> ApiSpec(sdk, "", opts, isSingular).0 == Ok(None)
  {
  }

  /** The SDK helper: the loader's view of the checkout and the API version
      it has settled on ("" until findModelPath first succeeds). */
  class AwsSdkHelper {
    const sdk: Sdk
    var apiVersion: string

    /** newAWSSDKHelper */
    constructor (sdk: Sdk)
      ensures this.sdk == sdk && apiVersion == ""
    {
      this.sdk := sdk;
      apiVersion := "";
    }

    /** getAPIVersions: list the service directory, check each entry with
        Lstat, and refuse an empty list. */
    method GetApiVersions(service: string) returns (r: Result<seq<string>>)
      ensures r == ApiVersions(sdk, service)
    {
      var listing := sdk.readDir(ApiPath(sdk.sdkDir, service));
      if listing.Err? {
        return Err(listing.error);
      }
      var names := listing.value;
      var versions: seq<string> := [];
      assert names[0..] == names;
      assert WithFront([], CheckedVersions(sdk, service, names)) == CheckedVersions(sdk, service, names) by {
        var c := CheckedVersions(sdk, service, names);
        if c.Ok? {
          assert [] + c.value == c.value;
        }
      }
      for i := 0 to |names|
        invariant versions == names[..i]
        invariant CheckedVersions(sdk, service, names) == WithFront(versions, CheckedVersions(sdk, service, names[i..]))
      {
        var version := names[i];
        assert names[i..][0] == version && names[i..][1..] == names[i + 1..];
        var fi := sdk.lstat(VersionPath(sdk.sdkDir, service, version));
        if fi.Err? {
          return Err(fi.error);
        }
        if !fi.value {
          return Err(NotAVersionDirectory(version));
        }
        WithFrontTwice(versions, [version], CheckedVersions(sdk, service, names[i + 1..]));
        versions := versions + [version];
        assert names[..i + 1] == names[..i] + [version];
      }
      assert names[|names|..] == [] && names[..|names|] == names;
      assert CheckedVersions(sdk, service, names[|names|..]) == Ok([]);
      assert versions + [] == versions;
      if |versions| == 0 {
        return Err(NoVersionDirectories);
      }
      return Ok(versions);
    }

    /** firstAPIVersion: sort the versions and take the first. */
    method FirstApiVersion(service: string) returns (r: Result<string>)
      ensures r == FirstVersion(sdk, service)
    {
      var versions := GetApiVersions(service);
      if versions.Err? {
        return Err(versions.error);
      }
      return Ok(Smallest(versions.value));
    }

    /** findModelPath: settle on a version once, then build the path. */
    method FindModelPath(service: string) returns (r: Result<Path>)
      modifies this
      ensures (r, apiVersion) == FindModelPathSpec(sdk, old(apiVersion), service)
    {
      if apiVersion == "" {
        var first := FirstApiVersion(service);
        if first.Err? {
          return Err(first.error);
        }
        apiVersion := first.value;
      }
      return Ok(ModelPath(sdk.sdkDir, service, apiVersion));
    }

    /** API(): look up the model path, load it, and take the first API. */
    method Api(opts: Options, isSingular: string -> bool) returns (r: Result<Option<MetaVars>>)
      modifies this
      ensures (r, apiVersion) == ApiSpec(sdk, old(apiVersion), opts, isSingular)
    {
      var serviceModelName := ToLower(opts.modelName);
      if opts.modelName == "" {
        serviceModelName := ToLower(opts.serviceAlias);
      }
      var found := FindModelPath(serviceModelName);
      var modelPath := if found.Ok? then found.value else [];
      var apis := sdk.load(modelPath);
      if apis.Err? {
        return Err(apis.error);
      }
      if apis.value != [] {
        var api := apis.value[0];
        var crdNames := GetCrdNames(api, isSingular);
        return Ok(Some(ServiceMetaVars(api, opts, crdNames)));
      }
      return Ok(None);
    }
  }

  /** getServiceResources: every failure of API() becomes the one
      "service API not found" error. */
  function ServiceResourcesSpec(sdk: Sdk, opts: Options, isSingular: string -> bool): (r: Result<Option<MetaVars>>)
    ensures r.Err? ==> r.error == ServiceApiNotFound
    ensures r.Ok? <==> ApiSpec(sdk, "", opts, isSingular).0.Ok?
    ensures r.Ok? ==> r.value == ApiSpec(sdk, "", opts, isSingular).0.value
  {
    match ApiSpec(sdk, "", opts, isSingular).0
    case Err(_) => Err(ServiceApiNotFound)
    case Ok(m) => Ok(m)
  }

  /** getServiceResources, with a fresh helper. */
  method GetServiceResources(sdk: Sdk, opts: Options, isSingular: string -> bool) returns (r: Result<Option<MetaVars>>)
    ensures r == ServiceResourcesSpec(sdk, opts, isSingular)
  {
    var h := new AwsSdkHelper(sdk);
    var svcVars := h.Api(opts, isSingular);
    if svcVars.Err? {
      return Err(ServiceApiNotFound);
    }
    return Ok(svcVars.value);
  }
}

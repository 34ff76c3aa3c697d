/** Values shared by both generations of the bootstrap tool: optional values,
    results, the error taxonomy, cleaned paths, and the shape of an API model
    as the aws-sdk-go loader hands it over. */
module Common {

  datatype Option<T> = None | Some(value: T)

  /** A cleaned file-system path, written as its sequence of elements
      (`out/apis/README.md` is `["out", "apis", "README.md"]`). The empty
      sequence is the directory the relative paths start from. */
  type Path = seq<string>

  /** Every error a run can end with. */
  datatype Error =
    | NotADirectory(path: Path)         // ensureDir, or MkdirAll through a file
    | IsADirectory(path: Path)          // WriteFile onto a directory
    | NoSuchDirectory(path: Path)       // WriteFile below a missing directory
    | ParseFailed(file: string, reason: string)
    | ExecuteFailed(file: string, reason: string)
    | Foreign(reason: string)           // passed through from ReadDir, Lstat, Open, Walk or the loader
    | NotAVersionDirectory(name: string)
    | NoVersionDirectories
    | ServiceApiNotFound                // v2 getServiceResources wraps every API() error into this
    | ServiceFileNotFound               // v1 getServiceResources: no api-2.json matched
    | Usage                             // v1 generateTemplates: not exactly one argument
    | Panic(line: string)               // v1 modelAPIPath indexes past a missing ':'

  datatype Result<T> = Ok(value: T) | Err(error: Error)

  /** `x == h + (r + c)` regrouped as `(h + r) + c`, over names for the
      parts so that the solver need not look inside them. */
  lemma Regroup<T>(x: seq<T>, h: seq<T>, y: seq<T>, r: seq<T>, c: seq<T>, z: seq<T>)
    requires x == h + y && y == r + c && z == h + r
    ensures x == z + c
  {
  }

  /** Service identity fields of a loaded API model (`api.Metadata`). */
  datatype Metadata = Metadata(serviceId: string, serviceAbbreviation: string, serviceFullName: string)

  /** One loaded API: its metadata and `api.OperationNames()` in catalog order. */
  datatype Api = Api(metadata: Metadata, operationNames: seq<string>)
}

/** The command-line options of root.go, already parsed. */
module Flags {

  datatype Options = Options(
    outputPath: string,          // optOutputPath
    awsSdkGoVersion: string,     // optAWSSDKGoVersion
    runtimeVersion: string,      // optRuntimeVersion
    modelName: string,           // optModelName
    dryRun: bool,                // optDryRun
    existingController: bool,    // optExistingController (generate.go only)
    serviceAlias: string         // optServiceAlias (generatev2.go's generation only)
  )
}

/**
 * The one entity every provider's discovery produces (the `Cluster` struct of
 * main.go), the errors the pipeline can end in, and the result type that
 * stands for Go's `(value, error)` pairs.
 */
module Clusters {

  /** Provider tags as written into `Cluster.Type`. */
  const Gke: string := "gke"
  const Eks: string := "eks"

  /** main.go's `Cluster`; `kind` is the struct's `Type` field. */
  datatype Cluster = Cluster(kind: string, location: string, region: string, name: string)

  /** What can end a run. The variants that stand for an error value coming
      from outside the program (the file system, a cloud SDK, a subprocess)
      record which call failed rather than the foreign error itself. */
  datatype Error =
    | ConfigRead                                 // os.ReadFile of the shared config file failed
    | Auth(profile: string)                      // config.LoadDefaultConfig failed for this profile
    | EksList(profile: string, region: string)   // eks ListClusters failed for this unit
    | ServiceInit                                // container.NewService failed
    | GkeList(project: string)                   // the GKE clusters List call failed for this project
    | Composite(errors: seq<Error>)              // a multierror.Group's aggregate of its tasks' errors
    | NotFound(key: string)                      // executor: the typed key is not in the catalog
    | NilCommand(kind: string)                   // executor: the Type matched no case, so no command was built
    | CommandFailed(argv: seq<string>)           // executor: the external command failed to start or exited non-zero

  datatype Option<T> = None | Some(value: T)

  /** Go's `(value, error)` pair: exactly one side is meaningful. */
  datatype Result<T> = Ok(value: T) | Err(error: Error)
}

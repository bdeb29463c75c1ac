# k8s-connect, modelled in Dafny

k8s-connect discovers managed Kubernetes clusters and lets an operator pick one to connect to.
It finds Amazon EKS clusters in every profile of the AWS shared config file, across 17 fixed regions.
It finds Google GKE clusters in every project of a comma-separated `--projects` list.
It merges both lists into one catalog and numbers each entry with a selection key `"<n>. <name>"`.
Then it runs a prompt in which a key is resolved to its cluster.
The matching `gcloud ... get-credentials` or `aws eks ... update-kubeconfig` command is run for that cluster.

This project models the deterministic rules under that pipeline and proves properties of them:

- `text.dfy` (module `Text`): the Go string operations the code relies on.
  These are `strings.TrimSpace` (with `unicode.IsSpace`), prefix/suffix trimming, `strings.Split` with its inverse `Join`, and `%d` with its inverse.
- `clusters.dfy` (module `Clusters`): the `Cluster` record, the errors a run can end in, and `Result`/`Option`.
- `fanout.dfy` (module `FanOut`): the all-or-nothing aggregation of a `multierror.Group`.
  Its tasks append their clusters to one slice under a mutex.
  It is modelled as a sequential fold (`Gather`) against a specification (`Combine`).
  A lemma shows that the order in which the tasks finish changes nothing but the order of the result.
- `aws.dfy` (module `Aws`): `readProfiles`, `clientOpts`, `createClients`, `readClusters`, `EKSClusters` and the region list.
- `gcp.dfy` (module `Gcp`): `GKEClusters`.
- `catalog.dfy` (module `Catalog`): the part of `main` that combines both discoveries and builds the catalog, plus `executor` and `exitChecker`.
  The globals `suggests`, `clusterMap` and `exit` are the fields of a `Session` class.

Every effect is an input value:

- the text of the shared config file, or `None` when it cannot be read;
- whether the AWS SDK resolves credentials for a list of load options;
- what EKS `ListClusters` answers for a client and a region;
- whether the GKE container service can be constructed;
- what the GKE `List` call answers for a parent path;
- whether the credential command succeeds when it is run.

`executor` returns the argument vector and a `Dispatch` outcome instead of spawning a process.
`log.Fatalf` becomes a `Fatal` outcome or an `Err` result.

Two things the code does not do:

- The comparator passed to `sort.Slice` (main.go:63-68) is true only for equal clusters, so no order is promised.
  `SortLess` states this, and `Start` promises only a permutation of the GKE clusters followed by the EKS clusters.
- Nothing deduplicates clusters: the catalog keeps every cluster the units report.
  Profiles collapse only because `createClients` keys its map by profile name.

## Model

| member | source | states |
|---|---|---|
| `Text.TrimSpace` | aws.go:73-74 | the result is the input without leading and trailing `unicode.IsSpace` characters; it neither starts nor ends with white space |
| `Text.TrimSpaceSlice` | aws.go:73 | what TrimSpace removes is white space only, and what it keeps is a contiguous slice of the input |
| `Text.TrimSpaceBlank` | gcp.go:14 | a string trims to `""` exactly when every character is white space |
| `Text.Split` | gcp.go:17 | `strings.Split` with a one-character separator gives one more piece than there are separators, even for `""`, and no piece contains the separator |
| `Text.JoinSplit` | gcp.go:17 | joining the pieces of Split with the separator gives back the input: nothing is trimmed or dropped |
| `Text.TrimPrefix` | aws.go:73 | `strings.TrimPrefix` removes the prefix exactly when the string starts with it, and otherwise returns the string |
| `Text.TrimSuffix` | aws.go:73 | `strings.TrimSuffix` removes the suffix exactly when the string ends with it, and otherwise returns the string |
| `Text.NatToString` | main.go:71 | `%d` of a natural number is a non-empty run of digits with no superfluous leading zero |
| `Text.ParseNatToString` | main.go:71 | reading the decimal rendering back yields the number |
| `FanOut.Combine` | aws.go:42-45 | the aggregate succeeds exactly when every unit succeeds; then it holds the sum of the units' counts of clusters; otherwise it is a non-empty composite error |
| `FanOut.Flatten` | aws.go:37 | the aggregated clusters number exactly the sum of the successful units' cluster counts |
| `FanOut.Spliced` | main.go:41-58 | adding a task's error to the aggregate contributes at least one error, so no failure is lost when composite errors are spliced in |
| `FanOut.Failures` | aws.go:42-43 | the collected errors are empty exactly when no unit failed |
| `FanOut.FailuresFlat` | main.go:59-60 | when every failing unit's contribution is flat, the aggregate error is flat |
| `FanOut.FlattenHoldsEachUnit` | aws.go:35-37 | every successful unit's clusters are in the aggregate, with multiplicity |
| `FanOut.FlattenFrom` | gcp.go:34-43 | every aggregated cluster comes from some successful unit |
| `FanOut.CombineIgnoresOrder` | aws.go:27-45 | if the units finish in any other order, the outcome is the same: the same success or failure, the same multiset of clusters and the same multiset of errors |
| `FanOut.Gather` | aws.go:24-45 | the mutex-guarded appending loop computes `Combine`: all clusters when no unit failed, else only the error |
| `Aws.ProfileOf` | aws.go:66-75 | a line yields a profile exactly when it is `[default]` or matches `^\[profile .*]$`; `[default]` yields `"default"` |
| `Aws.ProfileOfHeader` | aws.go:50-53 | `[profile x]` yields `x` with surrounding white space trimmed, e.g. `[profile  dev ]` gives `dev` |
| `Aws.ProfilesIn` | aws.go:66-77 | the profile list has at most one entry per line |
| `Aws.ProfilesInAppend` | aws.go:66-77 | lines contribute independently and in file order, so duplicate profile lines are kept |
| `Aws.ProfilesInOne` | aws.go:67-75 | a single line contributes its profile, or nothing |
| `Aws.ReadProfiles` | aws.go:61-78 | an unreadable file gives only the error; otherwise the result is the profiles of the file's `"\n"`-separated lines, in order |
| `Aws.ClientOptsReadBack` | aws.go:92-98 | `"default"` gets no option, so the SDK falls back to its ambient credential chain; every other name gets exactly one shared-config-profile option, which makes the SDK load exactly that profile |
| `Aws.ClientOptsInjective` | aws.go:92-98 | different profile names get different load options |
| `Aws.ClientsFor` | aws.go:81-85 | the client map has one key per distinct profile |
| `Aws.CreateClients` | aws.go:80-90 | it succeeds exactly when every profile's credentials load; the map is keyed by profile, so duplicates collapse; otherwise the error names the first failing profile |
| `Aws.ReadClusters` | aws.go:100-117 | an API error fails the unit; otherwise n names become n clusters in order, each with Type `"eks"`, Location the profile, Region the region and Name the name |
| `Aws.ProfileUnits` | aws.go:28 | each profile gets one unit per fixed region |
| `Aws.EksUnitsEnumerate` | aws.go:27-31 | the units are exactly one per (visited profile, region) pair, `|profiles| * 17` of them |
| `Aws.EksClustersTagged` | aws.go:108-115 | every EKS cluster found has Type `"eks"`, a visited profile as Location and one of the 17 regions as Region |
| `Aws.RunUnits` | aws.go:27-41 | every client is visited exactly once, in the map's unspecified order; the units are those of the visited order, 17 per client |
| `Aws.EKSClusters` | aws.go:15-46 | a config read or credential failure is returned as the error; otherwise each distinct profile is visited once and the result is the all-or-nothing aggregate of its (profile, region) units |
| `Gcp.ListParent` | gcp.go:29 | the listed parent is `projects/<project>/locations/-` |
| `Gcp.ListParentInjective` | gcp.go:29 | different projects are listed under different parent paths |
| `Gcp.GkeUnits` | gcp.go:26-28 | one unit per project |
| `Gcp.ListProjects` | gcp.go:26-28 | the launch loop starts one unit per project, in project order, each the project's list-clusters unit |
| `Gcp.ListProject` | gcp.go:28-44 | a failed call fails the unit; otherwise each record becomes a cluster in order, with Type `"gke"`, Location the project, Region the record's Zone and Name the record's Name |
| `Gcp.GkeClustersTagged` | gcp.go:36-43 | every GKE cluster found has Type `"gke"` and one of the listed projects as Location |
| `Gcp.GKEClusters` | gcp.go:13-51 | a blank project string gives no clusters, no error and no call; otherwise the projects are the comma split, untrimmed; a service failure is the error; otherwise the result is the all-or-nothing aggregate of one unit per project |
| `Catalog.KeyOrdinal` | main.go:71 | the digits in front of a key's `". "` give back its 1-based position |
| `Catalog.KeysDistinct` | main.go:70-72 | keys at different positions differ even when the cluster names are equal |
| `Catalog.IndexStep` | main.go:69-72 | inserting the next key never overwrites an entry; the map grows by one and maps each key to the cluster at its position |
| `Catalog.SuggestsStep` | main.go:73 | appending keeps one suggestion per cluster: its text is the key, its description `Type : Location : Region` |
| `Catalog.Session.constructor` | main.go:69-74 | the catalog loop gives `len(clusters)` suggestions in catalog order and a key map of exactly `len(clusters)` entries, each key mapping to the cluster at its position; `exit` starts false |
| `Catalog.Session.Resolves` | main.go:95 | a typed line resolves exactly when it is the key of some catalog position |
| `Catalog.CommandTarget` | main.go:100-107 | exactly GKE and EKS clusters get a command; the command carries the cluster's Location, Region and Name in the places the CLI reads them |
| `Catalog.Session.Execute` | main.go:91-117 | an empty line does nothing; an unknown key is fatal; otherwise the provider's argument vector runs; `exit` becomes true exactly on a successful run; after a successful connection the exit checker ends the prompt on every input, and an empty line leaves its answer unchanged for every input |
| `Catalog.DiscoverBoth` | main.go:37-62 | the combined input is present only if both discoveries succeeded, and it is the GKE clusters followed by the EKS clusters; otherwise the fatal error lists the failing providers' errors in order, a provider's composite error spliced in |
| `Catalog.DiscoverFlat` | main.go:37-60 | when each provider's error is flat, the fatal error is one flat list, no composite inside another |
| `Catalog.SortLess` | main.go:63-68 | the sort comparator holds exactly when the two clusters are equal |
| `Catalog.Start` | main.go:59-74 | either discovery's failure ends the run with no catalog; otherwise the session's catalog is a permutation of GKE followed by EKS, with that length |

## Left out

- Goroutines, `multierror.Group` and `sync.Mutex` (aws.go:25-41, gcp.go:24-46, main.go:37-58) are a sequential fold in launch order.
  `FanOut.CombineIgnoresOrder` covers every other completion order.
- `FanOut.Gather`: the composite error lists the errors in launch order; the real multierror lists them in completion order.
- `Aws.EKSClusters`, `Gcp.GKEClusters`: the result is stated for the launch order; the real cluster order depends on which goroutine takes the lock first.
- `Catalog.Start`: promises only a permutation. `sort.Slice` with this comparator produces some order the Go library decides; that order is not modelled.
- The Go map iteration order in `EKSClusters` is any order, chosen by `:|`. The ghost `visit` records it.
- Foreign calls are inputs: `config.LoadDefaultConfig`, `eks.ListClusters`, `container.NewService` and the GKE `List(...).Do()`.
  The foreign error values become the `Error` variants `Auth`, `EksList`, `ServiceInit` and `GkeList`, which name the failing call.
- `Aws.ReadClusters`: `ListClusters` returns one page and the code does not paginate; the model takes whatever names the call returns.
- `os.ReadFile` of the default shared config path (aws.go:62) is an input string; the file path is not modelled.
- Flag parsing of `--projects` (main.go:33-34) is not modelled; `GKEClusters` takes the string.
- go-prompt (`prompt.New`, `p.Run`) is not modelled. Neither is `completer` with `prompt.FilterFuzzy` (main.go:75-89): they are a UI and an unseen library.
- `exec.Command(...).Run()` and forwarding of the child's output (main.go:108-111) are not modelled. Only the argument vector and a success flag are.
- `Catalog.Session.Execute`: for a Type other than "gke" or "eks", Go dereferences a nil `*exec.Cmd` and panics. The model reports `Fatal(NilCommand(type))`.
- `log.Printf`/`log.Println` output is not modelled; `log.Fatalf` is an error outcome.
- `FanOut.Spliced`: `multierror.Append` adds nothing for an empty composite error; the model adds that error as it is. Neither fan-out ever produces an empty composite error.
- `Text.TrimSpace` works on code points. Go first decodes UTF-8 bytes, and invalid byte sequences are not modelled.
- Regular-expression generality: the two patterns are written as equality and prefix/suffix predicates.
  `.` excluding newline is kept.

/**
 * GKE discovery (gcp.go): the comma-separated project list is split as it
 * is, one list-clusters unit runs per project over all of its locations, and
 * the units are aggregated all-or-nothing. A blank project list skips GKE
 * discovery altogether.
 *
 * Every effect is an input: `serviceOk` (whether the container service could
 * be constructed) and `list` (what the List call answers for a parent path:
 * the cluster records, or None for an API error).
 */
module Gcp {
  import opened Text
  import opened Clusters
  import FanOut

  /** The two fields of a GKE API cluster record the program reads. */
  datatype ClusterRecord = ClusterRecord(name: string, zone: string)

  const ParentPrefix: string := "projects/"
  const ParentSuffix: string := "/locations/-"

  /** The parent path listed for a project: all locations of that project. */
  function ListParent(project: string): (path: string)
    ensures HasPrefix(path, ParentPrefix) && HasSuffix(path, ParentSuffix)
    ensures |path| == |ParentPrefix| + |project| + |ParentSuffix|
    ensures path[|ParentPrefix|..|path| - |ParentSuffix|] == project
  {
    ParentPrefix + project + ParentSuffix
  }

  /** The path names its project back: distinct projects are listed under distinct paths. */
  lemma {:induction false} ListParentInjective(p: string, q: string)
    requires ListParent(p) == ListParent(q)
    ensures p == q
  {
  }

  /** One project's unit: its records as GKE clusters, or the failed call. */
  function GkeUnit(project: string, list: string -> Option<seq<ClusterRecord>>): FanOut.Unit {
    match list(ListParent(project))
    case None => Err(GkeList(project))
    case Some(records) =>
      Ok(seq(|records|, i requires 0 <= i < |records| => Cluster(Gke, project, records[i].zone, records[i].name)))
  }

  /** The units of the projects, in project order. */
  function GkeUnits(projects: seq<string>, list: string -> Option<seq<ClusterRecord>>): (units: seq<FanOut.Unit>)
    ensures |units| == |projects|
  {
    seq(|projects|, i requires 0 <= i < |projects| => GkeUnit(projects[i], list))
  }

  /** The body of one project's task: lists the project's clusters across all
      its locations; each record becomes a GKE cluster of that project, with
      the record's zone as region and its name, in order. */
  method ListProject(project: string, list: string -> Option<seq<ClusterRecord>>) returns (unit: FanOut.Unit)
    ensures list(ListParent(project)).None? ==> unit == Err(GkeList(project))
    ensures list(ListParent(project)).Some? ==>
              var records := list(ListParent(project)).value;
              && unit.Ok? && |unit.value| == |records|
              && forall i :: 0 <= i < |records| ==>
                   unit.value[i] == Cluster(Gke, project, records[i].zone, records[i].name)
    ensures unit == GkeUnit(project, list)
  {
    var res := list(ListParent(project));
    if res.None? {
      return Err(GkeList(project));
    }
    var records := res.value;
    var clusters: seq<Cluster> := [];
    for i := 0 to |records|
      invariant |clusters| == i
      invariant forall k :: 0 <= k < i ==> clusters[k] == Cluster(Gke, project, records[k].zone, records[k].name)
    {
      clusters := clusters + [Cluster(Gke, project, records[i].zone, records[i].name)];
    }
    assert clusters == GkeUnit(project, list).value;
    unit := Ok(clusters);
  }

  /** GKEClusters: a blank project list yields no clusters and no error and
      makes no call; otherwise the projects are the comma-separated pieces, as
      they are (one more than there are commas, empty and padded ones kept), a
      service failure ends discovery, and the per-project units are
      aggregated all-or-nothing. */
  method GKEClusters(projectStr: string, serviceOk: bool, list: string -> Option<seq<ClusterRecord>>)
    returns (r: Result<seq<Cluster>>)
    ensures AllSpace(projectStr) ==> r == Ok([])
    ensures !AllSpace(projectStr) && !serviceOk ==> r == Err(ServiceInit)
    ensures !AllSpace(projectStr) && serviceOk ==>
              r == FanOut.Combine(GkeUnits(Split(projectStr, ','), list))
  {
    TrimSpaceBlank(projectStr);
    if TrimSpace(projectStr) == "" {
      return Ok([]);
    }
    var projects := Split(projectStr, ',');
    if !serviceOk {
      return Err(ServiceInit);
    }
    var units := ListProjects(projects, list);
    r := FanOut.Gather(units);
  }

  /** The loop that starts one task per project, in project order. */
  method ListProjects(projects: seq<string>, list: string -> Option<seq<ClusterRecord>>)
    returns (units: seq<FanOut.Unit>)
    ensures units == GkeUnits(projects, list)
  {
    units := [];
    for i := 0 to |projects|
      invariant |units| == i
      invariant forall k :: 0 <= k < i ==> units[k] == GkeUnit(projects[k], list)
    {
      var unit := ListProject(projects[i], list);
      units := units + [unit];
    }
  }

  /** Every GKE cluster found is tagged "gke" and belongs to one of the listed projects. */
  lemma {:induction false} GkeClustersTagged(projects: seq<string>, list: string -> Option<seq<ClusterRecord>>, c: Cluster)
    requires FanOut.Combine(GkeUnits(projects, list)).Ok?
    requires c in FanOut.Combine(GkeUnits(projects, list)).value
    ensures c.kind == Gke && c.location in projects
  {
    var units := GkeUnits(projects, list);
    FanOut.FlattenFrom(units, c);
    var i :| 0 <= i < |units| && units[i].Ok? && c in units[i].value;
    assert units[i] == GkeUnit(projects[i], list);
  }
}

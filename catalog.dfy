/**
 * The process-level part of main.go: both providers' discovery results are
 * combined all-or-nothing, the clusters are put in some order, every cluster
 * gets a selection key "<ordinal>. <name>", and the keys drive an interactive
 * session whose executor turns a chosen key into the provider's
 * credential-configuration command line.
 *
 * The program's globals `suggests`, `clusterMap` and `exit` are the fields of
 * a Session object. Running the command is an input (`run` says whether the
 * subprocess succeeded); the executor returns the argument vector instead of
 * spawning it, and a fatal log-and-exit becomes a Fatal outcome.
 */
module Catalog {
  import opened Text
  import opened Clusters
  import FanOut

  /** A prompt suggestion: the text to complete to and a description. */
  datatype Suggest = Suggest(text: string, description: string)

  /** What one call of the executor ends in. */
  datatype Dispatch =
    | Idle                       // empty input: nothing happens
    | Fatal(error: Error)        // the process would log the error and exit
    | Connected(argv: seq<string>)  // the command ran successfully; the session ends

  const ExitCommand: string := ".exit"
  const KeySeparator: string := ". "
  const DescriptionSeparator: string := " : "

  // ---------------------------------------------------------------------------
  // Selection keys

  /** The key of the cluster at 0-based position `i`: `fmt.Sprintf("%d. %s", i+1, c.Name)`. */
  function Key(i: nat, c: Cluster): string {
    NatToString(i + 1) + KeySeparator + c.name
  }

  /** The ordinal a key starts with: the value of its leading digits. */
  function Ordinal(key: string): int {
    ParseDecimal(LeadingDigits(key))
  }

  /** The digits in front of the first ". " of a key give back its 1-based position. */
  lemma {:induction false} KeyOrdinal(i: nat, c: Cluster)
    ensures Ordinal(Key(i, c)) == i + 1
  {
    var d := NatToString(i + 1);
    assert Key(i, c) == d + (KeySeparator + c.name);
    LeadingDigitsOf(d, KeySeparator + c.name);
    ParseNatToString(i + 1);
  }

  /** Keys of different positions differ, even when the names are the same. */
  lemma {:induction false} KeysDistinct(i: nat, j: nat, c: Cluster, d: Cluster)
    requires i != j
    ensures Key(i, c) != Key(j, d)
  {
    KeyOrdinal(i, c);
    KeyOrdinal(j, d);
  }

  /** The suggestion description: "<Type> : <Location> : <Region>". */
  function Describe(c: Cluster): string {
    c.kind + DescriptionSeparator + c.location + DescriptionSeparator + c.region
  }

  // ---------------------------------------------------------------------------
  // Commands

  /** The command line that configures credentials for a cluster, by provider;
      None for a Type that is neither "gke" nor "eks" (the program then has no
      command to run). */
  function Command(c: Cluster): Option<seq<string>> {
    if c.kind == Gke then
      Some(["gcloud", "container", "clusters", "get-credentials", c.name, "--project", c.location, "--region", c.region])
    else if c.kind == Eks then
      Some(["aws", "eks", "--profile", c.location, "--region", c.region, "update-kubeconfig", "--name", c.name])
    else None
  }

  /** Which cluster a command line configures, read back from its shape. */
  function Target(argv: seq<string>): Option<Cluster> {
    if |argv| == 9 && argv[..4] == ["gcloud", "container", "clusters", "get-credentials"]
       && argv[5] == "--project" && argv[7] == "--region" then
      Some(Cluster(Gke, argv[6], argv[8], argv[4]))
    else if |argv| == 9 && argv[..3] == ["aws", "eks", "--profile"] && argv[4] == "--region"
       && argv[6..8] == ["update-kubeconfig", "--name"] then
      Some(Cluster(Eks, argv[3], argv[5], argv[8]))
    else None
  }

  /** Exactly the GKE and EKS clusters have a command, and each command names
      its cluster's project or profile, region and name in the places the CLI
      reads them, so that nothing is dropped or swapped. */
  lemma {:induction false} CommandTarget(c: Cluster)
    ensures Command(c).Some? <==> c.kind == Gke || c.kind == Eks
    ensures Command(c).Some? ==> Target(Command(c).value) == Some(c)
  {
    if c.kind == Gke {
      var argv := Command(c).value;
      assert argv[..4] == ["gcloud", "container", "clusters", "get-credentials"];
    } else if c.kind == Eks {
      var argv := Command(c).value;
      assert argv[..3] == ["aws", "eks", "--profile"];
      assert argv[..4] != ["gcloud", "container", "clusters", "get-credentials"] by {
        assert argv[..4][0] == "aws";
      }
      assert argv[6..8] == ["update-kubeconfig", "--name"];
    }
  }

  // ---------------------------------------------------------------------------
  // Discovery at the process level

  /** The two top-level discovery tasks, GKE then EKS, combined like any other
      fan-out: a failure of either is a failure of both. */
  function Discover(gke: FanOut.Unit, eks: FanOut.Unit): FanOut.Unit {
    FanOut.Combine([gke, eks])
  }

  /** No catalog input unless both providers succeeded; then it is the GKE
      clusters followed by the EKS clusters. Otherwise the fatal error lists
      the failing providers' errors, a provider's composite error spliced in
      rather than nested. */
  lemma {:induction false} DiscoverBoth(gke: FanOut.Unit, eks: FanOut.Unit)
    ensures Discover(gke, eks).Ok? <==> gke.Ok? && eks.Ok?
    ensures Discover(gke, eks).Ok? ==> Discover(gke, eks).value == gke.value + eks.value
    ensures Discover(gke, eks).Err? ==>
              Discover(gke, eks).error.errors ==
                (if gke.Err? then FanOut.Spliced(gke.error) else []) + (if eks.Err? then FanOut.Spliced(eks.error) else [])
  {
    var units := [gke, eks];
    assert units[1..] == [eks];
    assert units[1..][1..] == [];
    if gke.Ok? && eks.Ok? {
      assert FanOut.Flatten(units) == gke.value + (eks.value + []);
    } else {
      var g: seq<Error> := if gke.Err? then FanOut.Spliced(gke.error) else [];
      var e: seq<Error> := if eks.Err? then FanOut.Spliced(eks.error) else [];
      assert FanOut.Failures(units) == g + (e + []);
    }
  }

  /** A provider that failed through its own fan-out reports a flat list of
      unit errors; the process-level fatal error is then flat as well: no
      composite error inside another. */
  lemma {:induction false} DiscoverFlat(gke: FanOut.Unit, eks: FanOut.Unit)
    requires gke.Err? ==> FanOut.Flat(FanOut.Spliced(gke.error))
    requires eks.Err? ==> FanOut.Flat(FanOut.Spliced(eks.error))
    ensures Discover(gke, eks).Err? ==> FanOut.Flat(Discover(gke, eks).error.errors)
  {
    var units := [gke, eks];
    forall i | 0 <= i < |units| && units[i].Err? ensures FanOut.Flat(FanOut.Spliced(units[i].error)) {
    }
    FanOut.FailuresFlat(units);
  }

  // ---------------------------------------------------------------------------
  // The session

  /** `list` holds one suggestion per cluster of `catalog`, in catalog order. */
  ghost predicate SuggestsFor(list: seq<Suggest>, catalog: seq<Cluster>) {
    && |list| == |catalog|
    && forall i :: 0 <= i < |catalog| ==> list[i] == Suggest(Key(i, catalog[i]), Describe(catalog[i]))
  }

  /** The keys handed out for `catalog`, in catalog order. */
  function KeysOf(catalog: seq<Cluster>): (keys: seq<string>)
    ensures |keys| == |catalog|
  {
    if catalog == [] then []
    else KeysOf(catalog[..|catalog| - 1]) + [Key(|catalog| - 1, catalog[|catalog| - 1])]
  }

  /** The key at each position of KeysOf is that position's key. */
  lemma {:induction false} KeysOfAt(catalog: seq<Cluster>)
    ensures forall i :: 0 <= i < |catalog| ==> KeysOf(catalog)[i] == Key(i, catalog[i])
  {
    if catalog != [] {
      var init := catalog[..|catalog| - 1];
      KeysOfAt(init);
      forall i | 0 <= i < |init| ensures KeysOf(catalog)[i] == Key(i, catalog[i]) {
        assert catalog[i] == init[i];
      }
    }
  }

  /** `index` maps each cluster's key to that cluster, and holds nothing else. */
  ghost predicate IndexFor(index: map<string, Cluster>, catalog: seq<Cluster>) {
    && |index| == |catalog|
    && (forall i :: 0 <= i < |catalog| ==> Key(i, catalog[i]) in index && index[Key(i, catalog[i])] == catalog[i])
    && (forall key :: key in index ==> key in KeysOf(catalog))
  }

  lemma {:induction false} SuggestsStep(list: seq<Suggest>, catalog: seq<Cluster>, c: Cluster)
    requires SuggestsFor(list, catalog)
    ensures SuggestsFor(list + [Suggest(Key(|catalog|, c), Describe(c))], catalog + [c])
  {
  }

  /** The next position's key is not in use yet. */
  lemma {:induction false} KeyFresh(index: map<string, Cluster>, catalog: seq<Cluster>, c: Cluster)
    requires IndexFor(index, catalog)
    ensures Key(|catalog|, c) !in index
  {
    var n := |catalog|;
    KeysOfAt(catalog);
    forall k | 0 <= k < n ensures KeysOf(catalog)[k] != Key(n, c) {
      KeysDistinct(k, n, catalog[k], c);
    }
  }

  /** After adding the next cluster, every position's key maps to its cluster. */
  lemma {:induction false} IndexStepLookup(index: map<string, Cluster>, catalog: seq<Cluster>, c: Cluster)
    requires forall i :: 0 <= i < |catalog| ==> Key(i, catalog[i]) in index && index[Key(i, catalog[i])] == catalog[i]
    ensures var next, grown := catalog + [c], index[Key(|catalog|, c) := c];
      forall i :: 0 <= i < |next| ==> Key(i, next[i]) in grown && grown[Key(i, next[i])] == next[i]
  {
    var n := |catalog|;
    var next, grown := catalog + [c], index[Key(n, c) := c];
    forall i | 0 <= i < |next|
      ensures Key(i, next[i]) in grown && grown[Key(i, next[i])] == next[i]
    {
      if i < n {
        assert next[i] == catalog[i];
        KeysDistinct(i, n, catalog[i], c);
      }
    }
  }

  /** After adding the next cluster, every key in the map is some position's key. */
  lemma {:induction false} IndexStepCover(index: map<string, Cluster>, catalog: seq<Cluster>, c: Cluster)
    requires forall key :: key in index ==> key in KeysOf(catalog)
    ensures var next, grown := catalog + [c], index[Key(|catalog|, c) := c];
      forall k :: k in grown ==> k in KeysOf(next)
  {
    var next := catalog + [c];
    assert next[..|next| - 1] == catalog;
    assert KeysOf(next) == KeysOf(catalog) + [Key(|catalog|, c)];
  }

  /** Adding the next cluster under its key keeps the index exact: the new key
      is not in use yet, so the map grows by one. */
  lemma {:induction false} IndexStep(index: map<string, Cluster>, catalog: seq<Cluster>, c: Cluster)
    requires IndexFor(index, catalog)
    ensures IndexFor(index[Key(|catalog|, c) := c], catalog + [c])
  {
    KeyFresh(index, catalog, c);
    IndexStepLookup(index, catalog, c);
    IndexStepCover(index, catalog, c);
  }

  class Session {
    var suggests: seq<Suggest>
    var clusterMap: map<string, Cluster>
    var exit: bool
    /** The clusters in the order the keys were given out. */
    ghost var catalog: seq<Cluster>

    /** The suggestion list and the key map both describe `catalog`, one entry
        per cluster and nothing else. */
    ghost predicate Valid()
      reads this
    {
      SuggestsFor(suggests, catalog) && IndexFor(clusterMap, catalog)
    }

    /** The catalog loop: each cluster, in order, gets its key, its map entry
        and its suggestion. */
    constructor (clusters: seq<Cluster>)
      ensures Valid() && catalog == clusters && !exit
    {
      var list: seq<Suggest> := [];
      var index: map<string, Cluster> := map[];
      ghost var done: seq<Cluster> := [];
      for i := 0 to |clusters|
        invariant done == clusters[..i]
        invariant SuggestsFor(list, done)
        invariant IndexFor(index, done)
      {
        var c := clusters[i];
        var key := Key(i, c);
        IndexStep(index, done, c);
        SuggestsStep(list, done, c);
        index := index[key := c];
        list := list + [Suggest(key, Describe(c))];
        done := done + [c];
      }
      assert done == clusters;
      suggests, clusterMap, exit := list, index, false;
      catalog := clusters;
    }

    /** The keys the map accepts are exactly the catalog's keys. */
    lemma {:induction false} Resolves(key: string)
      requires Valid()
      ensures key in clusterMap <==> exists i :: 0 <= i < |catalog| && key == Key(i, catalog[i])
    {
      KeysOfAt(catalog);
      if key in clusterMap {
        var i :| 0 <= i < |catalog| && KeysOf(catalog)[i] == key;
      }
    }

    /** executor: an empty line does nothing; a key not in the catalog is
        fatal; otherwise the cluster's command is run, and only a successful
        run ends the session. */
    method Execute(input: string, run: seq<string> -> bool) returns (d: Dispatch)
      requires Valid()
      modifies this`exit
      ensures Valid()
      ensures exit <==> old(exit) || d.Connected?
      ensures input == "" ==> d == Idle
      ensures input != "" && input !in clusterMap ==> d == Fatal(NotFound(input))
      ensures d.Connected? ==> forall x :: ExitChecker(x)
      ensures d.Idle? ==> forall x :: ExitChecker(x) == old(ExitChecker(x))
      ensures input != "" && input in clusterMap ==>
                var c := clusterMap[input];
                match Command(c)
                case None => d == Fatal(NilCommand(c.kind))
                case Some(argv) => d == if run(argv) then Connected(argv) else Fatal(CommandFailed(argv))
    {
      if input == "" {
        return Idle;
      }
      if input !in clusterMap {
        return Fatal(NotFound(input));
      }
      var cluster := clusterMap[input];
      var cmd := Command(cluster);
      if cmd.None? {
        return Fatal(NilCommand(cluster.kind));
      }
      if !run(cmd.value) {
        return Fatal(CommandFailed(cmd.value));
      }
      exit := true;
      d := Connected(cmd.value);
    }

    /** exitChecker: the session ends once a command has run, or on ".exit". */
    function ExitChecker(input: string): (r: bool)
      reads this
      ensures input == ExitCommand ==> r
      ensures exit ==> r
      ensures r && input != ExitCommand ==> exit
    {
      exit || input == ExitCommand
    }
  }

  /** The comparator main passes to sort.Slice: all four fields compare
      equal. It is therefore no strict order: it holds of every cluster and
      itself and of no two different clusters, so it ranks no cluster before
      another and the sort promises nothing about the resulting order. */
  function SortLess(a: Cluster, b: Cluster): (r: bool)
    ensures r <==> a == b
  {
    a.kind == b.kind && a.location == b.location && a.region == b.region && a.name == b.name
  }

  /** main: a failure of either discovery ends the run before any catalog is
      built; otherwise the GKE clusters followed by the EKS clusters are put in
      some order (sort.Slice with a comparator that is true only for equal
      clusters, so no particular order is promised) and the session is set up
      over them. */
  method Start(gke: FanOut.Unit, eks: FanOut.Unit) returns (r: Result<Session>)
    ensures r.Ok? <==> gke.Ok? && eks.Ok?
    ensures r.Err? ==> Discover(gke, eks) == Err(r.error)
    ensures r.Ok? ==> fresh(r.value) && r.value.Valid() && !r.value.exit
                      && multiset(r.value.catalog) == multiset(gke.value + eks.value)
                      && |r.value.catalog| == |gke.value| + |eks.value|
  {
    DiscoverBoth(gke, eks);
    var found := FanOut.Gather([gke, eks]);
    if found.Err? {
      return Err(found.error);
    }
    var clusters := found.value;
    // `clusters` itself witnesses the choice below.
    assert multiset(clusters) == multiset(clusters);
    var sorted :| multiset(sorted) == multiset(clusters);
    assert |sorted| == |multiset(sorted)| == |clusters|;
    var session := new Session(sorted);
    r := Ok(session);
  }
}

/**
 * EKS discovery (aws.go): the profile names are read from the shared config
 * file, one client is built per distinct profile, and one list-clusters unit
 * runs for every (profile, region) pair over a fixed list of regions; the
 * units are aggregated all-or-nothing.
 *
 * Every effect is an input: the config file's text (None when it cannot be
 * read), `load` (whether the SDK resolves credentials for a set of load
 * options) and `list` (what ListClusters answers for a client in a region:
 * the cluster names, or None for an API error).
 */
module Aws {
  import opened Text
  import opened Clusters
  import FanOut

  const ProfilePrefix: string := "[profile "
  const ProfileSuffix: string := "]"
  const DefaultLine: string := "[default]"
  const DefaultProfile: string := "default"

  /** The regions every profile is searched in. */
  const Regions: seq<string> := [
    "us-east-1", "us-east-2", "us-west-1", "us-west-2", "ap-south-1", "ap-northeast-3", "ap-northeast-2",
    "ap-southeast-1", "ap-southeast-2", "ap-northeast-1", "ca-central-1", "eu-central-1", "eu-west-1",
    "eu-west-2", "eu-west-3", "eu-north-1", "sa-east-1"
  ]

  // ---------------------------------------------------------------------------
  // readProfiles

  /** The regular expression `^\[default]$`. */
  predicate IsDefaultLine(l: string) {
    l == DefaultLine
  }

  /** The regular expression `^\[profile .*]$`: `.` matches anything but a newline. */
  predicate IsProfileLine(l: string) {
    HasPrefix(l, ProfilePrefix) && HasSuffix(l, ProfileSuffix) && '\n' !in l
  }

  /** What one line of the config file contributes to the profile list. */
  function ProfileOf(l: string): (r: Option<string>)
    ensures r.Some? <==> IsDefaultLine(l) || IsProfileLine(l)
    ensures IsDefaultLine(l) ==> r == Some(DefaultProfile)
  {
    if IsDefaultLine(l) then Some(DefaultProfile)
    else if IsProfileLine(l) then
      Some(TrimSpace(TrimSuffix(TrimPrefix(TrimSpace(l), ProfilePrefix), ProfileSuffix)))
    else None
  }

  /** A section header `[profile <x>]` names the profile `x` without its
      surrounding white space. */
  lemma {:induction false} ProfileOfHeader(x: string)
    requires '\n' !in x
    ensures ProfileOf(ProfilePrefix + x + ProfileSuffix) == Some(TrimSpace(x))
  {
    var l := ProfilePrefix + x + ProfileSuffix;
    assert l[1] == 'p';
    assert l[..|ProfilePrefix|] == ProfilePrefix;
    assert l[|l| - 1..] == ProfileSuffix;
    assert IsProfileLine(l);
    TrimSpaceKeeps(l);
    assert l == ProfilePrefix + (x + ProfileSuffix);
    assert TrimPrefix(l, ProfilePrefix) == x + ProfileSuffix;
  }

  /** The profiles named by a sequence of lines, in line order, duplicates kept. */
  function ProfilesIn(lines: seq<string>): (r: seq<string>)
    ensures |r| <= |lines|
    decreases |lines|
  {
    if lines == [] then []
    else
      var last := lines[|lines| - 1];
      ProfilesIn(lines[..|lines| - 1]) + (if ProfileOf(last).Some? then [ProfileOf(last).value] else [])
  }

  /** The lines contribute independently and in order. */
  lemma {:induction false} ProfilesInAppend(a: seq<string>, b: seq<string>)
    ensures ProfilesIn(a + b) == ProfilesIn(a) + ProfilesIn(b)
    decreases |b|
  {
    if b == [] {
      assert a + b == a;
    } else {
      assert (a + b)[..|a + b| - 1] == a + b[..|b| - 1];
      ProfilesInAppend(a, b[..|b| - 1]);
    }
  }

  /** A single line contributes its profile, or nothing. */
  lemma {:induction false} ProfilesInOne(l: string)
    ensures ProfilesIn([l]) == if ProfileOf(l).Some? then [ProfileOf(l).value] else []
  {
    assert [l][..0] == [];
  }

  /** readProfiles: an unreadable file is an error; otherwise the profiles
      named by the file's lines (split on "\n"), in order. */
  method ReadProfiles(config: Option<string>) returns (r: Result<seq<string>>)
    ensures config.None? <==> r == Err(ConfigRead)
    ensures config.Some? ==> r == Ok(ProfilesIn(Split(config.value, '\n')))
  {
    if config.None? {
      return Err(ConfigRead);
    }
    var lines := Split(config.value, '\n');
    var profiles: seq<string> := [];
    for i := 0 to |lines|
      invariant profiles == ProfilesIn(lines[..i])
    {
      var l := lines[i];
      assert lines[..i + 1][..i] == lines[..i];
      assert ProfilesIn(lines[..i + 1]) == profiles + (if ProfileOf(l).Some? then [ProfileOf(l).value] else []);
      if IsDefaultLine(l) {
        profiles := profiles + [DefaultProfile];
        continue;
      }
      if IsProfileLine(l) {
        var profile := TrimSuffix(TrimPrefix(TrimSpace(l), ProfilePrefix), ProfileSuffix);
        profiles := profiles + [TrimSpace(profile)];
      }
    }
    assert lines[..|lines|] == lines;
    r := Ok(profiles);
  }

  // ---------------------------------------------------------------------------
  // clientOpts and createClients

  /** A load option of the SDK's config loader. */
  datatype LoadOption = SharedConfigProfile(profile: string)

  /** An EKS client, known by the options its configuration was loaded with. */
  datatype Client = Client(options: seq<LoadOption>)

  /** clientOpts: the ambient credential chain for "default", an explicit
      shared-config profile for every other name; at most one option. */
  function ClientOpts(account: string): (r: seq<LoadOption>)
    ensures |r| <= 1
    ensures r == [] <==> account == DefaultProfile
  {
    if account != DefaultProfile then [SharedConfigProfile(account)] else []
  }

  /** Where the SDK's config loader takes credentials from: its ambient chain
      (environment variables, AWS_PROFILE, then the default profile), or the
      one shared-config profile an option names. */
  datatype Source = Ambient | Named(profile: string)

  /** The source the config loader uses for a list of options. */
  function LoadedFrom(opts: seq<LoadOption>): Source {
    if opts == [] then Ambient else Named(opts[0].profile)
  }

  /** The options clientOpts builds leave "default" to the ambient chain and
      make the SDK load exactly the named profile for every other name. */
  lemma {:induction false} ClientOptsReadBack(account: string)
    ensures account == DefaultProfile <==> LoadedFrom(ClientOpts(account)) == Ambient
    ensures account != DefaultProfile ==> LoadedFrom(ClientOpts(account)) == Named(account)
  {
    if account != DefaultProfile {
      assert ClientOpts(account)[0] == SharedConfigProfile(account);
    }
  }

  /** Distinct profiles are loaded with distinct options. */
  lemma {:induction false} ClientOptsInjective(a: string, b: string)
    requires ClientOpts(a) == ClientOpts(b)
    ensures a == b
  {
    ClientOptsReadBack(a);
    ClientOptsReadBack(b);
  }

  /** The client map createClients builds: one entry per distinct profile. */
  function ClientsFor(profiles: seq<string>): (m: map<string, Client>)
    ensures m.Keys == set p | p in profiles
  {
    map p | p in profiles :: Client(ClientOpts(p))
  }

  predicate AllLoad(profiles: seq<string>, load: seq<LoadOption> -> bool) {
    forall i :: 0 <= i < |profiles| ==> load(ClientOpts(profiles[i]))
  }

  /** createClients: loads a configuration per profile, in order, and stops at
      the first profile whose credentials cannot be resolved. */
  method CreateClients(profiles: seq<string>, load: seq<LoadOption> -> bool) returns (r: Result<map<string, Client>>)
    ensures r.Ok? <==> AllLoad(profiles, load)
    ensures r.Ok? ==> r.value == ClientsFor(profiles)
    ensures r.Err? ==> exists i :: 0 <= i < |profiles| && r.error == Auth(profiles[i])
                          && !load(ClientOpts(profiles[i])) && AllLoad(profiles[..i], load)
  {
    var clients: map<string, Client> := map[];
    for i := 0 to |profiles|
      invariant AllLoad(profiles[..i], load)
      invariant clients == ClientsFor(profiles[..i])
    {
      var p := profiles[i];
      if !load(ClientOpts(p)) {
        return Err(Auth(p));
      }
      assert profiles[..i + 1] == profiles[..i] + [p];
      clients := clients[p := Client(ClientOpts(p))];
    }
    assert profiles[..|profiles|] == profiles;
    r := Ok(clients);
  }

  // ---------------------------------------------------------------------------
  // readClusters

  /** The outcome of one (profile, region) unit. */
  function EksUnit(client: Client, profile: string, region: string,
                   list: (Client, string) -> Option<seq<string>>): FanOut.Unit
  {
    match list(client, region)
    case None => Err(EksList(profile, region))
    case Some(names) => Ok(seq(|names|, i requires 0 <= i < |names| => Cluster(Eks, profile, region, names[i])))
  }

  /** readClusters: n names become n EKS clusters of that profile and region,
      in the same order; an API error fails the unit. */
  method ReadClusters(client: Client, profile: string, region: string,
                      list: (Client, string) -> Option<seq<string>>) returns (r: Result<seq<Cluster>>)
    ensures list(client, region).None? ==> r == Err(EksList(profile, region))
    ensures list(client, region).Some? ==>
              r.Ok? && |r.value| == |list(client, region).value|
              && forall i :: 0 <= i < |r.value| ==> r.value[i] == Cluster(Eks, profile, region, list(client, region).value[i])
    ensures r == EksUnit(client, profile, region, list)
  {
    var res := list(client, region);
    if res.None? {
      return Err(EksList(profile, region));
    }
    var clusters: seq<Cluster> := [];
    for i := 0 to |res.value|
      invariant |clusters| == i
      invariant forall k :: 0 <= k < i ==> clusters[k] == Cluster(Eks, profile, region, res.value[k])
    {
      clusters := clusters + [Cluster(Eks, profile, region, res.value[i])];
    }
    assert clusters == EksUnit(client, profile, region, list).value;
    r := Ok(clusters);
  }

  // ---------------------------------------------------------------------------
  // EKSClusters

  /** The units of one profile, one per region, in region order. */
  function ProfileUnits(client: Client, profile: string,
                        list: (Client, string) -> Option<seq<string>>): (r: seq<FanOut.Unit>)
    ensures |r| == |Regions|
  {
    seq(|Regions|, j requires 0 <= j < |Regions| => EksUnit(client, profile, Regions[j], list))
  }

  /** The units of the profiles in the order they were visited. */
  function EksUnits(clients: map<string, Client>, visit: seq<string>,
                    list: (Client, string) -> Option<seq<string>>): seq<FanOut.Unit>
    requires forall i :: 0 <= i < |visit| ==> visit[i] in clients
    decreases |visit|
  {
    if visit == [] then []
    else
      var p := visit[|visit| - 1];
      EksUnits(clients, visit[..|visit| - 1], list) + ProfileUnits(clients[p], p, list)
  }

  /** Position j of row i of a table with rows of width w lies before row n, for i < n. */
  lemma {:induction false} RowBelow(i: nat, j: nat, n: nat, w: nat)
    requires i < n && j < w
    ensures i * w + j < n * w
  {
    assert (i + 1) * w <= n * w;
  }

  /** One unit per (visited profile, region) pair: the unit at position
      i * |Regions| + j lists region j with the i-th visited profile's client. */
  lemma {:induction false} EksUnitsEnumerate(clients: map<string, Client>, visit: seq<string>,
                                             list: (Client, string) -> Option<seq<string>>)
    requires forall i :: 0 <= i < |visit| ==> visit[i] in clients
    ensures |EksUnits(clients, visit, list)| == |visit| * |Regions|
    ensures forall i, j :: 0 <= i < |visit| && 0 <= j < |Regions| ==>
              EksUnits(clients, visit, list)[i * |Regions| + j] == EksUnit(clients[visit[i]], visit[i], Regions[j], list)
    decreases |visit|
  {
    if visit != [] {
      var n, w := |visit| - 1, |Regions|;
      var front, p := visit[..n], visit[n];
      EksUnitsEnumerate(clients, front, list);
      var earlier, last := EksUnits(clients, front, list), ProfileUnits(clients[p], p, list);
      var units := EksUnits(clients, visit, list);
      assert units == earlier + last;
      assert |earlier| == n * w;
      assert |units| == (n + 1) * w;
      forall i, j | 0 <= i < |visit| && 0 <= j < w
        ensures units[i * w + j] == EksUnit(clients[visit[i]], visit[i], Regions[j], list)
      {
        if i < n {
          RowBelow(i, j, n, w);
          assert units[i * w + j] == earlier[i * w + j];
          assert visit[i] == front[i];
        } else {
          assert units[i * w + j] == last[j];
        }
      }
    }
  }

  /** Every EKS cluster a set of units yields is tagged "eks", belongs to one
      of the visited profiles and lies in one of the fixed regions. */
  lemma {:induction false} EksClustersTagged(clients: map<string, Client>, visit: seq<string>,
                                             list: (Client, string) -> Option<seq<string>>, c: Cluster)
    requires forall i :: 0 <= i < |visit| ==> visit[i] in clients
    requires c in FanOut.Flatten(EksUnits(clients, visit, list))
    ensures c.kind == Eks && c.location in visit && c.region in Regions
    decreases |visit|
  {
    var n := |visit| - 1;
    var front, p := visit[..n], visit[n];
    var earlier, units := EksUnits(clients, front, list), ProfileUnits(clients[p], p, list);
    FanOut.FlattenAppend(earlier, units);
    if c in FanOut.Flatten(earlier) {
      EksClustersTagged(clients, front, list, c);
      var k :| 0 <= k < |front| && front[k] == c.location;
      assert visit[k] == front[k];
    } else {
      FanOut.FlattenFrom(units, c);
      var j :| 0 <= j < |units| && units[j].Ok? && c in units[j].value;
      assert units[j] == EksUnit(clients[p], p, Regions[j], list);
    }
  }

  predicate NoDuplicates(s: seq<string>) {
    forall i, j :: 0 <= i < j < |s| ==> s[i] != s[j]
  }

  /** The launch loop of EKSClusters: every client, in the map's (unspecified)
      iteration order, with every region; `visit` records that order. */
  method RunUnits(clients: map<string, Client>, list: (Client, string) -> Option<seq<string>>)
    returns (units: seq<FanOut.Unit>, ghost visit: seq<string>)
    ensures NoDuplicates(visit)
    ensures forall p :: p in visit <==> p in clients
    ensures forall i :: 0 <= i < |visit| ==> visit[i] in clients
    ensures units == EksUnits(clients, visit, list)
    ensures |units| == |clients| * |Regions|
  {
    visit := [];
    units := [];
    var pending := clients.Keys;
    while pending != {}
      invariant pending <= clients.Keys
      invariant forall i :: 0 <= i < |visit| ==> visit[i] in clients && visit[i] !in pending
      invariant forall p :: p in clients ==> p in pending || p in visit
      invariant NoDuplicates(visit)
      invariant |visit| + |pending| == |clients.Keys|
      invariant units == EksUnits(clients, visit, list)
      decreases pending
    {
      var profile :| profile in pending;
      var client := clients[profile];
      for j := 0 to |Regions|
        invariant units == EksUnits(clients, visit, list) + ProfileUnits(client, profile, list)[..j]
      {
        var unit := ReadClusters(client, profile, Regions[j], list);
        assert ProfileUnits(client, profile, list)[..j + 1] == ProfileUnits(client, profile, list)[..j] + [unit];
        units := units + [unit];
      }
      assert ProfileUnits(client, profile, list)[..|Regions|] == ProfileUnits(client, profile, list);
      ghost var before := visit;
      visit := visit + [profile];
      assert visit[..|visit| - 1] == before;
      pending := pending - {profile};
    }
    EksUnitsEnumerate(clients, visit, list);
  }

  /** EKSClusters: a config read or client failure ends discovery at once;
      otherwise every client is visited once, in some order, with one unit per
      region, and the units are aggregated all-or-nothing. `visit` records the
      order in which the client map happened to be iterated. */
  method EKSClusters(config: Option<string>, load: seq<LoadOption> -> bool,
                     list: (Client, string) -> Option<seq<string>>)
    returns (r: Result<seq<Cluster>>, ghost visit: seq<string>)
    ensures config.None? ==> r == Err(ConfigRead)
    ensures config.Some? && !AllLoad(ProfilesIn(Split(config.value, '\n')), load) ==> r.Err? && r.error.Auth?
    ensures config.Some? && AllLoad(ProfilesIn(Split(config.value, '\n')), load) ==>
              var profiles := ProfilesIn(Split(config.value, '\n'));
              && NoDuplicates(visit)
              && (forall p :: p in visit <==> p in profiles)
              && (forall i :: 0 <= i < |visit| ==> visit[i] in ClientsFor(profiles))
              && r == FanOut.Combine(EksUnits(ClientsFor(profiles), visit, list))
  {
    visit := [];
    var profiles := ReadProfiles(config);
    if profiles.Err? {
      return Err(profiles.error), visit;
    }
    var clients := CreateClients(profiles.value, load);
    if clients.Err? {
      return Err(clients.error), visit;
    }
    var units;
    units, visit := RunUnits(clients.value, list);
    r := FanOut.Gather(units);
  }
}

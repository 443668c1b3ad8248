/** Cluster specifications, stored as config maps of strings. */
module ClusterSpecs {
  import opened Text
  import opened Remote

  datatype ClusterSpec = ClusterSpec(
    name: string,
    apiProvider: string,
    cloudProvider: string,
    clusterType: string,
    kubernetesVersion: string,
    nodeType: string,
    nodeCount: Int64,
    masterNodeCount: Int64,
    region: string,
    podCidrBlock: string,
    sshKeyName: string,
    tags: string,
    description: string,
    casEnabled: bool,
    casMinNodes: Int64,
    casMaxNodes: Int64)

  datatype ConfigMap = ConfigMap(name: string, data: map<string, string>)

  datatype Error =
    | BadNodeCount | InvalidApiProvider | InvalidCloudProvider | InvalidClusterType | NotFound | RemoteFailure

  const API_PROVIDER := "apiProvider"
  const CLOUD_PROVIDER := "cloudProvider"
  const NODE_TYPE := "nodeType"
  const CLUSTER_TYPE := "type"
  const KUBERNETES_VERSION := "kubernetesVersion"
  const NODE_COUNT := "nodeCount"
  const MASTER_NODE_COUNT := "masterNodeCount"
  const REGION := "region"
  const POD_CIDR_BLOCK := "podCidrBlock"
  const SSH_KEY_NAME := "sshKeyName"
  const TAGS := "tags"
  const DESCRIPTION := "description"
  const CAS_ENABLED := "clusterAutoscalerEnabled"
  const CAS_MIN_NODES := "clusterAutoscalerMinNodes"
  const CAS_MAX_NODES := "clusterAutoscalerMaxNodes"

  const DEFAULT_MASTER_NODE_COUNT := 3
  const DEFAULT_CAS_ENABLED := false
  const DEFAULT_CAS_MIN_NODES := 1
  const DEFAULT_CAS_MAX_NODES := 9

  /** A missing key reads as the empty string. */
  function Get(data: map<string, string>, key: string): string {
    if key in data then data[key] else ""
  }

  function FormatBool(b: bool): string {
    if b then "true" else "false"
  }

  /** strconv.ParseBool. */
  function ParseBool(s: string): Option<bool> {
    if s in ["1", "t", "T", "true", "TRUE", "True"] then Some(true)
    else if s in ["0", "f", "F", "false", "FALSE", "False"] then Some(false)
    else None
  }

  function Or<T>(o: Option<T>, default: T): T {
    if o.Some? then o.value else default
  }

  /** What a config map stands for: a node count is required, other numbers have defaults. */
  function Parsed(cm: ConfigMap): Result<ClusterSpec, Error> {
    var d := cm.data;
    match Atoi(Get(d, NODE_COUNT))
    case None => Err(BadNodeCount)
    case Some(nodeCount) =>
      Ok(ClusterSpec(
           cm.name, Get(d, API_PROVIDER), Get(d, CLOUD_PROVIDER), Get(d, CLUSTER_TYPE),
           Get(d, KUBERNETES_VERSION), Get(d, NODE_TYPE),
           nodeCount,
           Or(Atoi(Get(d, MASTER_NODE_COUNT)), DEFAULT_MASTER_NODE_COUNT),
           Get(d, REGION), Get(d, POD_CIDR_BLOCK), Get(d, SSH_KEY_NAME), Get(d, TAGS), Get(d, DESCRIPTION),
           Or(ParseBool(Get(d, CAS_ENABLED)), DEFAULT_CAS_ENABLED),
           Or(Atoi(Get(d, CAS_MIN_NODES)), DEFAULT_CAS_MIN_NODES),
           Or(Atoi(Get(d, CAS_MAX_NODES)), DEFAULT_CAS_MAX_NODES)))
  }

  function ToConfigMap(cs: ClusterSpec): ConfigMap {
    ConfigMap(cs.name, map[
                API_PROVIDER := cs.apiProvider,
                CLOUD_PROVIDER := cs.cloudProvider,
                CLUSTER_TYPE := cs.clusterType,
                KUBERNETES_VERSION := cs.kubernetesVersion,
                NODE_TYPE := cs.nodeType,
                NODE_COUNT := Itoa(cs.nodeCount),
                MASTER_NODE_COUNT := Itoa(cs.masterNodeCount),
                REGION := cs.region,
                POD_CIDR_BLOCK := cs.podCidrBlock,
                SSH_KEY_NAME := cs.sshKeyName,
                CAS_ENABLED := FormatBool(cs.casEnabled),
                CAS_MIN_NODES := Itoa(cs.casMinNodes),
                CAS_MAX_NODES := Itoa(cs.casMaxNodes),
                TAGS := cs.tags,
                DESCRIPTION := cs.description])
  }

  /** A config map that holds a specification's fields, printed, under the right keys. */
  ghost predicate Holds(d: map<string, string>, cs: ClusterSpec) {
    HoldsTexts(d, cs) && HoldsNumbers(d, cs)
  }

  ghost predicate HoldsTexts(d: map<string, string>, cs: ClusterSpec) {
    && Get(d, API_PROVIDER) == cs.apiProvider
    && Get(d, CLOUD_PROVIDER) == cs.cloudProvider
    && Get(d, CLUSTER_TYPE) == cs.clusterType
    && Get(d, KUBERNETES_VERSION) == cs.kubernetesVersion
    && Get(d, NODE_TYPE) == cs.nodeType
    && Get(d, REGION) == cs.region
    && Get(d, POD_CIDR_BLOCK) == cs.podCidrBlock
    && Get(d, SSH_KEY_NAME) == cs.sshKeyName
    && Get(d, TAGS) == cs.tags
    && Get(d, DESCRIPTION) == cs.description
  }

  ghost predicate HoldsNumbers(d: map<string, string>, cs: ClusterSpec) {
    && Get(d, NODE_COUNT) == Itoa(cs.nodeCount)
    && Get(d, MASTER_NODE_COUNT) == Itoa(cs.masterNodeCount)
    && Get(d, CAS_ENABLED) == FormatBool(cs.casEnabled)
    && Get(d, CAS_MIN_NODES) == Itoa(cs.casMinNodes)
    && Get(d, CAS_MAX_NODES) == Itoa(cs.casMaxNodes)
  }

  /** No two keys are equal: most differ in length. */
  lemma DistinctKeys()
    ensures |API_PROVIDER| == 11 && |DESCRIPTION| == 11 && |CLOUD_PROVIDER| == 13
    ensures |CLUSTER_TYPE| == 4 && |TAGS| == 4 && |NODE_TYPE| == 8
    ensures |KUBERNETES_VERSION| == 17 && |NODE_COUNT| == 9 && |MASTER_NODE_COUNT| == 15
    ensures |REGION| == 6 && |POD_CIDR_BLOCK| == 12 && |SSH_KEY_NAME| == 10
    ensures |CAS_ENABLED| == 24 && |CAS_MIN_NODES| == 25 && |CAS_MAX_NODES| == 25
    ensures API_PROVIDER != DESCRIPTION && CLUSTER_TYPE != TAGS && CAS_MIN_NODES != CAS_MAX_NODES
  {
    assert API_PROVIDER[0] != DESCRIPTION[0] && CLUSTER_TYPE[1] != TAGS[1] && CAS_MIN_NODES[18] != CAS_MAX_NODES[18];
  }

  lemma TextsWritten(cs: ClusterSpec)
    ensures HoldsTexts(ToConfigMap(cs).data, cs)
  {
    DistinctKeys();
  }

  lemma NumbersWritten(cs: ClusterSpec)
    ensures HoldsNumbers(ToConfigMap(cs).data, cs)
  {
    DistinctKeys();
  }

  lemma HoldsParsed(cm: ConfigMap, cs: ClusterSpec)
    requires Holds(cm.data, cs) && cm.name == cs.name
    ensures Parsed(cm) == Ok(cs)
  {
    AtoiItoa(cs.nodeCount);
    AtoiItoa(cs.masterNodeCount);
    AtoiItoa(cs.casMinNodes);
    AtoiItoa(cs.casMaxNodes);
    BoolRoundTrip(cs.casEnabled);
  }

  /** Reading back what was written returns every field, for all machine integers and strings. */
  lemma RoundTrip(cs: ClusterSpec)
    ensures Parsed(ToConfigMap(cs)) == Ok(cs)
  {
    TextsWritten(cs);
    NumbersWritten(cs);
    HoldsParsed(ToConfigMap(cs), cs);
  }

  lemma BoolRoundTrip(b: bool)
    ensures ParseBool(FormatBool(b)) == Some(b)
  {
    var falses := ["0", "f", "F", "false", "FALSE", "False"];
    assert "true" == ["1", "t", "T", "true", "TRUE", "True"][3] && "false" == falses[3];
    assert "false" !in ["1", "t", "T", "true", "TRUE", "True"];
  }

  /** Reading, writing and reading again is stable, also for old maps that needed defaults. */
  lemma ReadWriteRead(cm: ConfigMap)
    requires Parsed(cm).Ok?
    ensures Parsed(ToConfigMap(Parsed(cm).value)) == Parsed(cm)
    ensures MASTER_NODE_COUNT !in cm.data ==> Parsed(cm).value.masterNodeCount == 3
    ensures CAS_ENABLED !in cm.data ==> !Parsed(cm).value.casEnabled
    ensures CAS_MIN_NODES !in cm.data ==> Parsed(cm).value.casMinNodes == 1
    ensures CAS_MAX_NODES !in cm.data ==> Parsed(cm).value.casMaxNodes == 9
  {
    RoundTrip(Parsed(cm).value);
  }

  /** Fields are read one by one, a number that does not parse keeps its default. */
  method FromConfigMap(cm: ConfigMap) returns (r: Result<ClusterSpec, Error>)
    ensures r == Parsed(cm)
  {
    var d := cm.data;
    var cs := ClusterSpec(cm.name, Get(d, API_PROVIDER), Get(d, CLOUD_PROVIDER), Get(d, CLUSTER_TYPE),
                          Get(d, KUBERNETES_VERSION), Get(d, NODE_TYPE), 0, 0, Get(d, REGION),
                          Get(d, POD_CIDR_BLOCK), Get(d, SSH_KEY_NAME), Get(d, TAGS), Get(d, DESCRIPTION),
                          false, 0, 0);
    var number := Atoi(Get(d, NODE_COUNT));
    if number == None {
      return Err(BadNodeCount);
    }
    cs := cs.(nodeCount := number.value);
    number := Atoi(Get(d, MASTER_NODE_COUNT));
    cs := cs.(masterNodeCount := Or(number, DEFAULT_MASTER_NODE_COUNT));
    var enabled := ParseBool(Get(d, CAS_ENABLED));
    cs := cs.(casEnabled := Or(enabled, DEFAULT_CAS_ENABLED));
    number := Atoi(Get(d, CAS_MIN_NODES));
    cs := cs.(casMinNodes := Or(number, DEFAULT_CAS_MIN_NODES));
    number := Atoi(Get(d, CAS_MAX_NODES));
    cs := cs.(casMaxNodes := Or(number, DEFAULT_CAS_MAX_NODES));
    return Ok(cs);
  }

  // ---------------------------------------------------------------- providers and types

  predicate ValidApiProvider(apiProvider: string) {
    apiProvider in {"capi", "xplane"}
  }

  predicate ValidCloudProvider(cloudProvider: string) {
    cloudProvider in {"aws", "gcp", "azure"}
  }

  predicate ValidClusterType(cloudProvider: string, clusterType: string) {
    || (cloudProvider == "aws" && clusterType in {"kubeadm", "eks"})
    || (cloudProvider == "gcp" && clusterType in {"kubeadm", "gke"})
    || (cloudProvider == "azure" && clusterType in {"kubeadm", "aks"})
  }

  /** What a cluster may never change. */
  datatype Triple = Triple(api: string, cloud: string, clusterType: string)

  function TripleOf(cs: ClusterSpec): Triple {
    Triple(cs.apiProvider, cs.cloudProvider, cs.clusterType)
  }

  predicate ValidTriple(t: Triple) {
    ValidApiProvider(t.api) && ValidCloudProvider(t.cloud) && ValidClusterType(t.cloud, t.clusterType)
  }

  function Name(t: Triple): string {
    t.api + "-" + t.cloud + "-" + t.clusterType
  }

  function AutoscalerSubchart(apiProvider: string): string {
    apiProvider + "-cluster-autoscaler"
  }

  function Subchart(cs: ClusterSpec): Result<string, Error> {
    if !ValidApiProvider(cs.apiProvider) then Err(InvalidApiProvider)
    else if !ValidCloudProvider(cs.cloudProvider) then Err(InvalidCloudProvider)
    else if !ValidClusterType(cs.cloudProvider, cs.clusterType) then Err(InvalidClusterType)
    else Ok(Name(TripleOf(cs)))
  }

  function SubchartName(cm: ConfigMap): Result<string, Error> {
    match Parsed(cm)
    case Err(e) => Err(e)
    case Ok(cs) => Subchart(cs)
  }

  lemma JoinThree(a: string, b: string, c: string)
    ensures Join([a, b, c], '-') == a + "-" + b + "-" + c
  {
    assert [a, b, c][1..] == [b, c] && [b, c][1..] == [c];
    assert Join([b, c], '-') == b + ['-'] + c;
    assert a + "-" + b + "-" + c == a + ['-'] + (b + ['-'] + c);
  }

  lemma ValidIsDashFree(t: Triple)
    requires ValidTriple(t)
    ensures Free([t.api, t.cloud, t.clusterType], '-')
  {
  }

  /** The dash-joined name tells valid triples apart. */
  lemma NameInjective(t: Triple, u: Triple)
    requires ValidTriple(t) && ValidTriple(u)
    ensures Name(t) == Name(u) <==> t == u
  {
    NameSplits(t);
    NameSplits(u);
  }

  /** A triple's name is never that of an autoscaler's subchart. */
  lemma NameNotAutoscaler(t: Triple, apiProvider: string)
    requires ValidTriple(t) && ValidApiProvider(apiProvider)
    ensures Name(t) != AutoscalerSubchart(apiProvider)
  {
    NameSplits(t);
    AutoscalerSplits(apiProvider);
    assert [t.api, t.cloud, t.clusterType][1] == t.cloud && [apiProvider, "cluster", "autoscaler"][1] == "cluster";
  }

  lemma AutoscalerSplits(apiProvider: string)
    requires ValidApiProvider(apiProvider)
    ensures Split(AutoscalerSubchart(apiProvider), '-') == [apiProvider, "cluster", "autoscaler"]
  {
    JoinThree(apiProvider, "cluster", "autoscaler");
    SplitJoinFree([apiProvider, "cluster", "autoscaler"], '-');
    assert "-cluster-autoscaler" == "-" + "cluster" + "-" + "autoscaler";
    assert AutoscalerSubchart(apiProvider) == apiProvider + "-" + "cluster" + "-" + "autoscaler";
  }

  lemma NameSplits(t: Triple)
    requires ValidTriple(t)
    ensures Split(Name(t), '-') == [t.api, t.cloud, t.clusterType]
  {
    ValidIsDashFree(t);
    JoinThree(t.api, t.cloud, t.clusterType);
    SplitJoinFree([t.api, t.cloud, t.clusterType], '-');
  }

  // ---------------------------------------------------------------- updates

  /** What the caller passes; an empty string, a zero or None leaves a field alone. */
  datatype Change = Change(
    kubernetesVersion: string,
    nodeType: string,
    nodeCount: Int64,
    masterNodeCount: Int64,
    casEnabled: Option<bool>,
    casMinNodes: Int64,
    casMaxNodes: Int64,
    description: string,
    tags: string)

  const NO_CHANGE := Change("", "", 0, 0, None, 0, 0, "", "")

  /** Whether the specification can be read, and how writing it ends. */
  datatype Calls = Calls(get: bool, write: Reply)

  function Pick<T(==)>(passed: T, zero: T, current: T): T {
    if passed == zero then current else passed
  }

  function Merged(cs: ClusterSpec, c: Change): ClusterSpec {
    cs.(kubernetesVersion := Pick(c.kubernetesVersion, "", cs.kubernetesVersion),
        nodeType := Pick(c.nodeType, "", cs.nodeType),
        nodeCount := Pick(c.nodeCount, 0, cs.nodeCount),
        masterNodeCount := Pick(c.masterNodeCount, 0, cs.masterNodeCount),
        casEnabled := Or(c.casEnabled, cs.casEnabled),
        casMinNodes := Pick(c.casMinNodes, 0, cs.casMinNodes),
        casMaxNodes := Pick(c.casMaxNodes, 0, cs.casMaxNodes),
        description := Pick(c.description, "", cs.description),
        tags := Pick(c.tags, "", cs.tags))
  }

  type Maps = map<string, ConfigMap>

  function Read(maps: Maps, specName: string, e: Calls): Result<ClusterSpec, Error> {
    if !e.get then Err(RemoteFailure)
    else if specName !in maps then Err(NotFound)
    else Parsed(maps[specName])
  }

  /** The stored maps after an update, and whether it wrote. */
  function Updated(maps: Maps, specName: string, c: Change, e: Calls): (Maps, Result<bool, Error>) {
    match Read(maps, specName, e)
    case Err(error) => (maps, Err(error))
    case Ok(cs) =>
      if c == NO_CHANGE then (maps, Ok(false))
      else
        (if e.write.Refused? then maps else maps[specName := ToConfigMap(Merged(cs, c).(name := specName))],
         if e.write.Applied? then Ok(true) else Err(RemoteFailure))
  }

  /** One parameter: a zero keeps the current value, anything else makes the update dirty. */
  method Replace<T(==)>(passed: T, zero: T, current: T, dirty: bool) returns (value: T, nowDirty: bool)
    ensures value == Pick(passed, zero, current)
    ensures nowDirty <==> dirty || passed != zero
  {
    value, nowDirty := passed, dirty;
    if passed == zero {
      value := current;
    } else {
      nowDirty := true;
    }
  }

  method Merge(cs: ClusterSpec, c: Change) returns (merged: ClusterSpec, dirty: bool)
    ensures merged == Merged(cs, c)
    ensures dirty <==> c != NO_CHANGE
  {
    dirty := false;
    var version, node, count, masters, enabled, low, high, desc, tags;
    version, dirty := Replace(c.kubernetesVersion, "", cs.kubernetesVersion, dirty);
    node, dirty := Replace(c.nodeType, "", cs.nodeType, dirty);
    count, dirty := Replace(c.nodeCount, 0, cs.nodeCount, dirty);
    masters, dirty := Replace(c.masterNodeCount, 0, cs.masterNodeCount, dirty);
    enabled := cs.casEnabled;
    if c.casEnabled.Some? {
      enabled, dirty := c.casEnabled.value, true;
    }
    low, dirty := Replace(c.casMinNodes, 0, cs.casMinNodes, dirty);
    high, dirty := Replace(c.casMaxNodes, 0, cs.casMaxNodes, dirty);
    desc, dirty := Replace(c.description, "", cs.description, dirty);
    tags, dirty := Replace(c.tags, "", cs.tags, dirty);
    merged := ClusterSpec(cs.name, cs.apiProvider, cs.cloudProvider, cs.clusterType, version, node, count, masters,
                          cs.region, cs.podCidrBlock, cs.sshKeyName, tags, desc, enabled, low, high);
  }

  class Store {
    var maps: Maps

    constructor (maps: Maps)
      ensures this.maps == maps
    {
      this.maps := maps;
    }

    method Fetch(specName: string, e: Calls) returns (r: Result<ClusterSpec, Error>)
      ensures r == Read(maps, specName, e)
    {
      if !e.get {
        return Err(RemoteFailure);
      }
      if specName !in maps {
        return Err(NotFound);
      }
      r := FromConfigMap(maps[specName]);
    }

    method Update(specName: string, change: Change, e: Calls) returns (r: Result<bool, Error>)
      modifies this
      ensures (maps, r) == Updated(old(maps), specName, change, e)
    {
      var fetched := Fetch(specName, e);
      if fetched.Err? {
        return Err(fetched.error);
      }
      var cs, dirty := Merge(fetched.value, change);
      if !dirty {
        return Ok(false);
      }
      if !e.write.Refused? {
        maps := maps[specName := ToConfigMap(cs.(name := specName))];
      }
      if !e.write.Applied? {
        return Err(RemoteFailure);
      }
      return Ok(true);
    }
  }

  // ---------------------------------------------------------------- update histories

  /** One call of `Update`, on any specification, with any failing call. */
  datatype Step = Step(specName: string, change: Change, calls: Calls)

  function Run(maps: Maps, steps: seq<Step>): Maps {
    if steps == [] then maps
    else
      var s := steps[|steps| - 1];
      Updated(Run(maps, steps[..|steps| - 1]), s.specName, s.change, s.calls).0
  }

  /** The step's calls let its change take effect, whatever the caller is told. */
  predicate Effective(s: Step) {
    s.calls.get && !s.calls.write.Refused?
  }

  /** The changes of one specification that took effect. */
  function Accepted(steps: seq<Step>, specName: string): seq<Change> {
    if steps == [] then []
    else
      var earlier, s := Accepted(steps[..|steps| - 1], specName), steps[|steps| - 1];
      if s.specName == specName && Effective(s) then earlier + [s.change] else earlier
  }

  /** The last value passed for a field, or the original when none was. */
  function Last<T(==)>(changes: seq<Change>, field: Change -> T, zero: T, original: T): T {
    if changes == [] then original
    else
      var value := field(changes[|changes| - 1]);
      if value != zero then value else Last(changes[..|changes| - 1], field, zero, original)
  }

  function VersionOf(c: Change): string { c.kubernetesVersion }
  function NodeTypeOf(c: Change): string { c.nodeType }
  function NodeCountOf(c: Change): int { c.nodeCount }
  function MasterNodeCountOf(c: Change): int { c.masterNodeCount }
  function CasEnabledOf(c: Change): Option<bool> { c.casEnabled }
  function CasMinNodesOf(c: Change): int { c.casMinNodes }
  function CasMaxNodesOf(c: Change): int { c.casMaxNodes }
  function DescriptionOf(c: Change): string { c.description }
  function TagsOf(c: Change): string { c.tags }

  /** `now` is `before` with each changeable field at the last value the changes passed for it. */
  ghost predicate LastPassed(before: ClusterSpec, now: ClusterSpec, changes: seq<Change>) {
    && now.kubernetesVersion == Last(changes, VersionOf, "", before.kubernetesVersion)
    && now.nodeType == Last(changes, NodeTypeOf, "", before.nodeType)
    && now.nodeCount == Last(changes, NodeCountOf, 0, before.nodeCount)
    && now.masterNodeCount == Last(changes, MasterNodeCountOf, 0, before.masterNodeCount)
    && Some(now.casEnabled) == Last(changes, CasEnabledOf, None, Some(before.casEnabled))
    && now.casMinNodes == Last(changes, CasMinNodesOf, 0, before.casMinNodes)
    && now.casMaxNodes == Last(changes, CasMaxNodesOf, 0, before.casMaxNodes)
    && now.description == Last(changes, DescriptionOf, "", before.description)
    && now.tags == Last(changes, TagsOf, "", before.tags)
  }

  /** What no update can change. */
  ghost predicate SameIdentity(before: ClusterSpec, now: ClusterSpec) {
    && TripleOf(now) == TripleOf(before) && now.name == before.name && now.region == before.region
    && now.podCidrBlock == before.podCidrBlock && now.sshKeyName == before.sshKeyName
  }

  lemma LastStep(before: ClusterSpec, now: ClusterSpec, changes: seq<Change>, c: Change)
    requires LastPassed(before, now, changes)
    ensures LastPassed(before, Merged(now, c), changes + [c])
  {
    var all := changes + [c];
    assert all[..|all| - 1] == changes && all[|all| - 1] == c;
  }

  /** Objects are stored under their own name. */
  ghost predicate Named(maps: Maps) {
    forall n | n in maps :: maps[n].name == n
  }

  lemma {:induction false} RunNamed(maps: Maps, steps: seq<Step>)
    requires Named(maps)
    ensures Named(Run(maps, steps)) && Run(maps, steps).Keys == maps.Keys
  {
    if steps != [] {
      RunNamed(maps, steps[..|steps| - 1]);
    }
  }

  lemma AcceptedUpdate(maps: Maps, specName: string, now: ClusterSpec, c: Change, e: Calls)
    requires specName in maps && Parsed(maps[specName]) == Ok(now) && now.name == specName
    requires e.get && !e.write.Refused?
    ensures var after := Updated(maps, specName, c, e).0;
            specName in after && Parsed(after[specName]) == Ok(Merged(now, c))
  {
    if c != NO_CHANGE {
      RoundTrip(Merged(now, c));
      assert Merged(now, c).(name := specName) == Merged(now, c);
    }
  }

  lemma OtherUpdate(maps: Maps, specName: string, s: Step)
    requires specName in maps && (s.specName != specName || !Effective(s))
    ensures var after := Updated(maps, s.specName, s.change, s.calls).0;
            specName in after && after[specName] == maps[specName]
  {
  }

  /**
     After any sequence of updates, on any specifications and with any failing calls, a readable
     specification is still readable, keeps its provider, cloud, type, region, pod block, key and
     name, and every other field has the last non-zero value passed for it by an update that took
     effect, reported or not.
   */
  lemma {:induction false} UpdateHistory(maps: Maps, steps: seq<Step>, specName: string)
    requires Named(maps) && specName in maps && Parsed(maps[specName]).Ok?
    ensures specName in Run(maps, steps) && Parsed(Run(maps, steps)[specName]).Ok?
    ensures var before, now := Parsed(maps[specName]).value, Parsed(Run(maps, steps)[specName]).value;
            SameIdentity(before, now) && LastPassed(before, now, Accepted(steps, specName))
  {
    if steps != [] {
      var front, s := steps[..|steps| - 1], steps[|steps| - 1];
      UpdateHistory(maps, front, specName);
      RunNamed(maps, front);
      var m := Run(maps, front);
      var before, now := Parsed(maps[specName]).value, Parsed(m[specName]).value;
      if s.specName == specName && Effective(s) {
        LastStep(before, now, Accepted(front, specName), s.change);
        AcceptedUpdate(m, specName, now, s.change, s.calls);
      } else {
        OtherUpdate(m, specName, s);
      }
    }
  }

  /** The passed value can be read back, or nothing was passed. */
  ghost predicate ReadsBack(c: Change, cs: ClusterSpec) {
    && (c.kubernetesVersion != "" ==> cs.kubernetesVersion == c.kubernetesVersion)
    && (c.nodeType != "" ==> cs.nodeType == c.nodeType)
    && (c.nodeCount != 0 ==> cs.nodeCount == c.nodeCount)
    && (c.masterNodeCount != 0 ==> cs.masterNodeCount == c.masterNodeCount)
    && (c.casEnabled.Some? ==> cs.casEnabled == c.casEnabled.value)
    && (c.casMinNodes != 0 ==> cs.casMinNodes == c.casMinNodes)
    && (c.casMaxNodes != 0 ==> cs.casMaxNodes == c.casMaxNodes)
    && (c.description != "" ==> cs.description == c.description)
    && (c.tags != "" ==> cs.tags == c.tags)
  }

  /**
     What the answer says: an update succeeds exactly if the specification can be read and, when something
     was passed, the write is reported as applied; it answers whether anything was passed, and everything
     passed reads back then. A failed one changes nothing, unless its write took effect without a report.
   */
  lemma AnswerTells(maps: Maps, specName: string, c: Change, e: Calls)
    ensures var (after, r) := Updated(maps, specName, c, e);
            && (r.Ok? <==> && e.get && specName in maps && Atoi(Get(maps[specName].data, "nodeCount")).Some?
                           && (c == NO_CHANGE || e.write.Applied?))
            && (r.Ok? ==> && (r.value <==> c != NO_CHANGE)
                          && specName in after && Parsed(after[specName]).Ok?
                          && ReadsBack(c, Parsed(after[specName]).value))
            && (r == Ok(false) || (r.Err? && !e.write.Lost?) ==> after == maps)
  {
    if e.get && specName in maps && Parsed(maps[specName]).Ok? {
      RoundTrip(Merged(Parsed(maps[specName]).value, c).(name := specName));
    }
  }
}

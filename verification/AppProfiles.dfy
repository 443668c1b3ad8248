/**
 What the global application-profile pass works on, what it should achieve, and which
 writes it makes. The pass itself is `AppProfileReconciler.Reconciler.ReconcileEverything`.
 */
module AppProfiles {
  import opened Text
  import opened Remote

  const PROFILES_KEY := "kkarlon.io/profiles"
  const NAME_KEY := "cluster_name"
  const SERVER_KEY := "cluster_server"
  const HEALTHY := "healthy"
  const DEGRADED := "degraded"

  // ---------------------------------------------------------------- stored objects

  /** A cluster registered in Argo CD. A nil annotation map reads like an empty one. */
  datatype ArgoCluster = ArgoCluster(name: string, server: string, annotations: map<string, string>)

  /** The Argo CD application that stands for a cluster managed by the program. */
  datatype ClusterApp = ClusterApp(name: string, annotations: map<string, string>)

  datatype AppProfile = AppProfile(name: string, appNames: seq<string>, invalid: seq<string>, health: string)

  datatype Json = JString(text: string) | JOther

  /** One element of a list generator, after JSON decoding. */
  datatype Element = Malformed | Object(fields: map<string, Json>)

  datatype Generator = ListGenerator(elements: seq<Element>) | OtherGenerator

  datatype AppSet = AppSet(name: string, generators: seq<Generator>)

  datatype World = World(
    clusters: seq<ArgoCluster>,
    clusterApps: seq<ClusterApp>,
    profiles: seq<AppProfile>,
    apps: seq<AppSet>)

  datatype Kind = OnCluster | OnProfile | OnApp

  /** An accepted update of the object at `index` in the listing of its kind. */
  datatype Write = Write(kind: Kind, index: nat)

  /** How many clusters, profiles and apps a pass has dealt with. */
  datatype Progress = Progress(clusters: nat, profiles: nat, apps: nat)

  // ---------------------------------------------------------------- the desired state

  function Annotation(annotations: map<string, string>): string {
    if PROFILES_KEY in annotations then annotations[PROFILES_KEY] else ""
  }

  /** The profiles an annotation names; an empty annotation names none, not the profile "". */
  function ProfilesIn(annotation: string): set<string> {
    if annotation == "" then {} else set p | p in Split(annotation, ',')
  }

  function LastNamed(items: seq<ClusterApp>, name: string): Option<ClusterApp> {
    if items == [] then None
    else
      var last := |items| - 1;
      if items[last].name == name then Some(items[last]) else LastNamed(items[..last], name)
  }

  /** The server of the last listed cluster of that name. */
  function ServerOf(clusters: seq<ArgoCluster>, name: string): string {
    if clusters == [] then ""
    else
      var last := |clusters| - 1;
      if clusters[last].name == name then clusters[last].server else ServerOf(clusters[..last], name)
  }

  function Managed(w: World, i: nat): Option<ClusterApp>
    requires i < |w.clusters|
  {
    LastNamed(w.clusterApps, w.clusters[i].name)
  }

  /** The annotation that counts: the cluster app's if there is one, the cluster's own otherwise. */
  function Effective(w: World, i: nat): string
    requires i < |w.clusters|
  {
    match Managed(w, i)
    case Some(app) => Annotation(app.annotations)
    case None => Annotation(w.clusters[i].annotations)
  }

  /** Profile `profile` is attached to one of the first `n` clusters, of the given name. */
  ghost predicate Attached(w: World, n: nat, profile: string, name: string)
    requires n <= |w.clusters|
  {
    exists i :: 0 <= i < n && w.clusters[i].name == name && profile in ProfilesIn(Effective(w, i))
  }

  /** The names of the first `n` clusters a profile is attached to. */
  ghost function ClustersOf(w: World, n: nat, profile: string): set<string>
    requires n <= |w.clusters|
  {
    if n == 0 then {}
    else
      ClustersOf(w, n - 1, profile)
      + if profile in ProfilesIn(Effective(w, n - 1)) then {w.clusters[n - 1].name} else {}
  }

  lemma {:induction false} ClustersOfAttached(w: World, n: nat, profile: string, name: string)
    requires n <= |w.clusters|
    ensures name in ClustersOf(w, n, profile) <==> Attached(w, n, profile, name)
  {
    if n > 0 {
      ClustersOfAttached(w, n - 1, profile, name);
    }
  }

  /** Some profile among the first `m` lists the app and is attached to a cluster of that name. */
  ghost predicate Wanted(w: World, m: nat, app: string, name: string)
    requires m <= |w.profiles|
  {
    exists j :: 0 <= j < m && app in w.profiles[j].appNames
                && Attached(w, |w.clusters|, w.profiles[j].name, name)
  }

  /** The clusters the first `m` profiles give an app. */
  ghost function TargetsOf(w: World, m: nat, app: string): set<string>
    requires m <= |w.profiles|
  {
    if m == 0 then {}
    else
      TargetsOf(w, m - 1, app)
      + if app in w.profiles[m - 1].appNames
        then ClustersOf(w, |w.clusters|, w.profiles[m - 1].name) else {}
  }

  lemma {:induction false} TargetsOfWanted(w: World, m: nat, app: string, name: string)
    requires m <= |w.profiles|
    ensures name in TargetsOf(w, m, app) <==> Wanted(w, m, app, name)
  {
    if m > 0 {
      TargetsOfWanted(w, m - 1, app, name);
      ClustersOfAttached(w, |w.clusters|, w.profiles[m - 1].name, name);
    }
  }

  ghost function Names(w: World): set<string> {
    set i | 0 <= i < |w.clusters| :: w.clusters[i].name
  }

  /** The clusters an app should be deployed to. */
  ghost function Desired(w: World, app: string): set<string> {
    set name | name in Names(w) && Wanted(w, |w.profiles|, app, name)
  }

  lemma TargetsOfDesired(w: World, app: string)
    ensures TargetsOf(w, |w.profiles|, app) == Desired(w, app)
  {
    forall name
      ensures name in TargetsOf(w, |w.profiles|, app) <==> name in Desired(w, app)
    {
      TargetsOfWanted(w, |w.profiles|, app, name);
    }
  }

  ghost function AppNames(w: World): set<string> {
    set k | 0 <= k < |w.apps| :: w.apps[k].name
  }

  ghost function InvalidNames(w: World, j: nat): set<string>
    requires j < |w.profiles|
  {
    set app | app in w.profiles[j].appNames && app !in AppNames(w)
  }

  function Health(invalid: set<string>): string {
    if invalid == {} then HEALTHY else DEGRADED
  }

  // ---------------------------------------------------------------- generator elements

  function Render(name: string, server: string): Element {
    Object(map[NAME_KEY := JString(name), SERVER_KEY := JString(server)])
  }

  function NameIn(e: Element): set<string> {
    if e.Object? && NAME_KEY in e.fields && e.fields[NAME_KEY].JString?
    then {e.fields[NAME_KEY].text} else {}
  }

  /** The cluster names in an element list, up to the first element that does not decode. */
  function Decoded(elements: seq<Element>): set<string> {
    if elements == [] || elements[0].Malformed? then {}
    else NameIn(elements[0]) + Decoded(elements[1..])
  }

  /** The pass only touches apps with exactly one generator, of list type. */
  predicate Eligible(app: AppSet) {
    |app.generators| == 1 && app.generators[0].ListGenerator?
  }

  function CurrentTargets(app: AppSet): set<string>
    requires Eligible(app)
  {
    Decoded(app.generators[0].elements)
  }

  // ---------------------------------------------------------------- the effect of each write

  /** Cluster `i` once its annotation agrees with its cluster app, all else unchanged. */
  function Synced(w: World, i: nat): ArgoCluster
    requires i < |w.clusters|
  {
    var c := w.clusters[i];
    var value := Effective(w, i);
    if Annotation(c.annotations) == value then c
    else if value == "" then c.(annotations := c.annotations - {PROFILES_KEY})
    else c.(annotations := c.annotations[PROFILES_KEY := value])
  }

  ghost predicate ClusterSettled(w: World, i: nat)
    requires i < |w.clusters|
  {
    Synced(w, i) == w.clusters[i]
  }

  ghost predicate ProfileSettled(w: World, j: nat)
    requires j < |w.profiles|
  {
    var p := w.profiles[j];
    (set a | a in p.invalid) == InvalidNames(w, j) && p.health == Health(InvalidNames(w, j))
  }

  ghost predicate ProfileAfter(w: World, j: nat, after: AppProfile)
    requires j < |w.profiles|
  {
    var p := w.profiles[j];
    && after.name == p.name
    && after.appNames == p.appNames
    && (set a | a in after.invalid) == InvalidNames(w, j)
    && ((set a | a in p.invalid) == InvalidNames(w, j) ==> after.invalid == p.invalid)
    && after.health == Health(InvalidNames(w, j))
  }

  ghost predicate AppSettled(w: World, k: nat)
    requires k < |w.apps|
  {
    Eligible(w.apps[k]) ==> CurrentTargets(w.apps[k]) == Desired(w, w.apps[k].name)
  }

  /** One element per desired cluster, in some order, each with the server listed for its name. */
  ghost predicate Lists(w: World, elements: seq<Element>, targets: set<string>) {
    |elements| == |targets| && Sound(w, elements, targets) && Decoded(elements) == targets
  }

  ghost predicate Sound(w: World, elements: seq<Element>, targets: set<string>) {
    forall e | e in elements :: exists name :: name in targets && e == Render(name, ServerOf(w.clusters, name))
  }

  ghost predicate AppAfter(w: World, k: nat, after: AppSet)
    requires k < |w.apps|
  {
    if AppSettled(w, k) then after == w.apps[k]
    else
      && after.name == w.apps[k].name
      && Eligible(after)
      && Lists(w, after.generators[0].elements, Desired(w, after.name))
  }

  /** `after` is what a pass started in `w` leaves once it has dealt with `p`. */
  ghost predicate Reached(w: World, after: World, p: Progress) {
    && InOrder(w, p)
    && after.clusterApps == w.clusterApps
    && |after.clusters| == |w.clusters|
    && |after.profiles| == |w.profiles|
    && |after.apps| == |w.apps|
    && (forall i | 0 <= i < |w.clusters| ::
          after.clusters[i] == if i < p.clusters then Synced(w, i) else w.clusters[i])
    && (forall j | 0 <= j < |w.profiles| ::
          if j < p.profiles then ProfileAfter(w, j, after.profiles[j]) else after.profiles[j] == w.profiles[j])
    && (forall k | 0 <= k < |w.apps| ::
          if k < p.apps then AppAfter(w, k, after.apps[k]) else after.apps[k] == w.apps[k])
  }

  /** Clusters come first, then profiles, then apps. */
  ghost predicate InOrder(w: World, p: Progress) {
    && p.clusters <= |w.clusters| && p.profiles <= |w.profiles| && p.apps <= |w.apps|
    && (p.profiles > 0 ==> p.clusters == |w.clusters|)
    && (p.apps > 0 ==> p.clusters == |w.clusters| && p.profiles == |w.profiles|)
  }

  function Full(w: World): Progress {
    Progress(|w.clusters|, |w.profiles|, |w.apps|)
  }

  // ---------------------------------------------------------------- the writes a pass makes

  /** One write for each of the first `n` objects that is not settled. */
  function Due(kind: Kind, settled: seq<bool>, n: nat): seq<Write>
    requires n <= |settled|
  {
    if n == 0 then []
    else Due(kind, settled, n - 1) + if settled[n - 1] then [] else [Write(kind, n - 1)]
  }

  ghost function SettledClusters(w: World): seq<bool> {
    seq(|w.clusters|, i requires 0 <= i < |w.clusters| => ClusterSettled(w, i))
  }

  ghost function SettledProfiles(w: World): seq<bool> {
    seq(|w.profiles|, j requires 0 <= j < |w.profiles| => ProfileSettled(w, j))
  }

  ghost function SettledApps(w: World): seq<bool> {
    seq(|w.apps|, k requires 0 <= k < |w.apps| => AppSettled(w, k))
  }

  ghost function WritesTo(w: World, p: Progress): seq<Write>
    requires InOrder(w, p)
  {
    Due(OnCluster, SettledClusters(w), p.clusters)
    + Due(OnProfile, SettledProfiles(w), p.profiles)
    + Due(OnApp, SettledApps(w), p.apps)
  }

  /** Everything a pass that meets no failure writes, in order. */
  ghost function Plan(w: World): seq<Write> {
    WritesTo(w, Full(w))
  }

  /** The writes of a plan that take effect: the pass stops at the first one that is not reported as applied. */
  function Taken(plan: seq<Write>, reply: Write -> Reply): seq<Write> {
    if plan == [] then []
    else
      match reply(plan[0])
      case Applied => [plan[0]] + Taken(plan[1..], reply)
      case Lost => [plan[0]]
      case Refused => []
  }

  predicate AllApplied(plan: seq<Write>, reply: Write -> Reply) {
    forall i | 0 <= i < |plan| :: reply(plan[i]).Applied?
  }
}

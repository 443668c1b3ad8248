/**
 The Argo CD application at the root of a cluster, and the update of a first-generation
 cluster to another specification or profile.
 */
module RootApps {
  import opened Text
  import opened Remote
  import opened ClusterController
  import Paths
  import Specs = ClusterSpecs

  datatype Param = Param(name: string, value: string)

  datatype IgnoredDiff = MachineDeploymentReplicas | ControlPlaneVersion | MachineTemplateSpec

  /** Without Helm parameters, the application has no Helm section at all. */
  datatype RootApp = RootApp(
    name: string,
    kind: string,
    clusterLabel: Option<string>,
    specName: string,
    profileName: string,
    params: Option<seq<Param>>,
    ignoredDiffs: seq<IgnoredDiff>,
    url: string,
    revision: string,
    path: string)

  /** The arguments `ConstructRootApp` takes; without a specification the cluster is second generation. */
  datatype Request = Request(
    clusterName: string,
    innerName: string,
    url: string,
    revision: string,
    path: string,
    specName: string,
    spec: Option<Specs.ConfigMap>,
    profileName: string,
    managementUrl: string,
    autoscaler: bool)

  const HELM_KEYS: seq<string> := [
    Specs.REGION, Specs.SSH_KEY_NAME, Specs.KUBERNETES_VERSION, Specs.POD_CIDR_BLOCK, Specs.NODE_COUNT,
    Specs.MASTER_NODE_COUNT, Specs.NODE_TYPE, Specs.CAS_ENABLED, Specs.CAS_MIN_NODES, Specs.CAS_MAX_NODES]

  function SecretKeyName(apiProvider: string): string {
    if apiProvider == "capi" then "value" else if apiProvider == "xplane" then "kubeconfig" else ""
  }

  function Tag(subchart: string): Param {
    Param("tags." + subchart, "true")
  }

  /** One parameter per listed key that has a value. */
  function KeyParams(keys: seq<string>, data: map<string, string>): seq<Param> {
    if keys == [] then []
    else
      var key := keys[|keys| - 1];
      var value := Specs.Get(data, key);
      KeyParams(keys[..|keys| - 1], data) + if value != "" then [Param("global." + key, value)] else []
  }

  function GlobalParams(r: Request, apiProvider: string): seq<Param> {
    [Param("global.clusterFullNameWithInnerCluster",
           if r.innerName != "" then r.clusterName + "-" + r.innerName else r.clusterName),
     Param("global.clusterName", r.clusterName),
     Param("global.kubeconfigSecretKeyName", SecretKeyName(apiProvider)),
     Param("global.managementClusterUrl", r.managementUrl)]
    + if r.innerName != "" then [Param("global.innerClusterNameWithDashSuffix", r.innerName + "-")] else []
  }

  function AutoscalerTags(enabled: bool, apiProvider: string): seq<Param> {
    if enabled then [Tag(Specs.AutoscalerSubchart(apiProvider))] else []
  }

  function SpecParams(cs: Specs.ClusterSpec, data: map<string, string>): seq<Param> {
    KeyParams(HELM_KEYS, data)
    + ([Tag(Specs.Name(Specs.TripleOf(cs)))] + AutoscalerTags(cs.casEnabled, cs.apiProvider))
  }

  function Application(r: Request, params: seq<Param>, ignoredDiffs: seq<IgnoredDiff>): RootApp {
    var gen2 := r.specName == "";
    RootApp(if gen2 then KkarlonAppName(r.clusterName) else r.clusterName,
            if gen2 then "kkarlon-app" else "cluster",
            if r.spec.None? then Some(r.clusterName) else None,
            r.specName, r.profileName, Some(params), ignoredDiffs, r.url, r.revision, r.path)
  }

  /** The application a request asks for. */
  function Constructed(r: Request): Result<RootApp, Specs.Error> {
    match r.spec
    case None =>
      Ok(Application(r, AutoscalerTags(r.autoscaler, "capi") + GlobalParams(r, "capi"), []))
    case Some(cm) =>
      match Specs.Parsed(cm)
      case Err(e) => Err(e)
      case Ok(cs) =>
        if Specs.Subchart(cs).Err? then Err(Specs.Subchart(cs).error)
        else Ok(Application(r, GlobalParams(r, cs.apiProvider) + SpecParams(cs, cm.data),
                            (if cs.casEnabled then [MachineDeploymentReplicas] else []) + [ControlPlaneVersion]))
  }

  method ConstructRootApp(r: Request) returns (result: Result<RootApp, Specs.Error>)
    ensures result == Constructed(r)
  {
    if r.spec.Some? {
      result := ConstructFirstGeneration(r, r.spec.value);
    } else {
      var params: seq<Param>, ignoredDiffs: seq<IgnoredDiff> := [], [];
      if r.autoscaler {
        // what this ignores is dropped: only an application with a specification ignores differences
        params, ignoredDiffs := EnableAutoscaler("capi", params, ignoredDiffs);
      }
      params := AppendGlobals(r, "capi", params);
      assert params == AutoscalerTags(r.autoscaler, "capi") + GlobalParams(r, "capi");
      result := Ok(Application(r, params, []));
    }
  }

  /** Parameters are appended one after the other. */
  method ConstructFirstGeneration(r: Request, cm: Specs.ConfigMap) returns (result: Result<RootApp, Specs.Error>)
    requires r.spec == Some(cm)
    ensures result == Constructed(r)
  {
    var parsed := Specs.FromConfigMap(cm);
    if parsed.Err? {
      return Err(parsed.error);
    }
    var cs := parsed.value;
    var params := AppendGlobals(r, cs.apiProvider, []);
    assert params == GlobalParams(r, cs.apiProvider);
    params := AppendKeys(cm.data, params);
    var subchart := Specs.Subchart(cs);
    if subchart.Err? {
      return Err(subchart.error);
    }
    ghost var earlier, keyed := GlobalParams(r, cs.apiProvider), KeyParams(HELM_KEYS, cm.data);
    var ignoredDiffs: seq<IgnoredDiff>;
    params, ignoredDiffs := AppendTags(cs, subchart.value, params);
    Associative(earlier, keyed, [Tag(subchart.value)] + AutoscalerTags(cs.casEnabled, cs.apiProvider));
    return Ok(Application(r, params, ignoredDiffs));
  }

  lemma Associative<T>(a: seq<T>, b: seq<T>, c: seq<T>)
    ensures (a + b) + c == a + (b + c)
  {
  }

  method AppendTags(cs: Specs.ClusterSpec, subchart: string, earlier: seq<Param>)
    returns (params: seq<Param>, ignoredDiffs: seq<IgnoredDiff>)
    ensures params == earlier + ([Tag(subchart)] + AutoscalerTags(cs.casEnabled, cs.apiProvider))
    ensures ignoredDiffs == (if cs.casEnabled then [MachineDeploymentReplicas] else []) + [ControlPlaneVersion]
  {
    params, ignoredDiffs := earlier + [Tag(subchart)], [];
    if cs.casEnabled {
      params, ignoredDiffs := EnableAutoscaler(cs.apiProvider, params, ignoredDiffs);
    }
    ignoredDiffs := ignoredDiffs + [ControlPlaneVersion];
  }

  method EnableAutoscaler(apiProvider: string, params: seq<Param>, ignoredDiffs: seq<IgnoredDiff>)
    returns (params': seq<Param>, ignoredDiffs': seq<IgnoredDiff>)
    ensures params' == params + AutoscalerTags(true, apiProvider)
    ensures ignoredDiffs' == ignoredDiffs + [MachineDeploymentReplicas]
  {
    params' := params + [Tag(Specs.AutoscalerSubchart(apiProvider))];
    ignoredDiffs' := ignoredDiffs + [MachineDeploymentReplicas];
  }

  method AppendGlobals(r: Request, apiProvider: string, earlier: seq<Param>) returns (params: seq<Param>)
    ensures params == earlier + GlobalParams(r, apiProvider)
  {
    var fullName := r.clusterName;
    if r.innerName != "" {
      fullName := r.clusterName + "-" + r.innerName;
    }
    params := [Param("global.clusterFullNameWithInnerCluster", fullName)];
    params := params + [Param("global.clusterName", r.clusterName),
                        Param("global.kubeconfigSecretKeyName", SecretKeyName(apiProvider)),
                        Param("global.managementClusterUrl", r.managementUrl)];
    if r.innerName != "" {
      params := params + [Param("global.innerClusterNameWithDashSuffix", r.innerName + "-")];
    }
    params := earlier + params;
  }

  method AppendKeys(data: map<string, string>, earlier: seq<Param>) returns (params: seq<Param>)
    ensures params == earlier + KeyParams(HELM_KEYS, data)
  {
    params := earlier;
    for i := 0 to |HELM_KEYS|
      invariant params == earlier + KeyParams(HELM_KEYS[..i], data)
    {
      var key := HELM_KEYS[i];
      var value := Specs.Get(data, key);
      if value != "" {
        params := params + [Param("global." + key, value)];
      }
      assert HELM_KEYS[..i + 1][..i] == HELM_KEYS[..i];
    }
    assert HELM_KEYS[..|HELM_KEYS|] == HELM_KEYS;
  }

  // ---------------------------------------------------------------- the guard

  /** The application carries the tag of this triple and of no other valid one. */
  ghost predicate Serves(app: RootApp, t: Specs.Triple) {
    && Specs.ValidTriple(t) && app.params.Some?
    && forall u | Specs.ValidTriple(u) :: Tag(Specs.Name(u)) in app.params.value <==> u == t
  }

  /** Parameters that are not tags. */
  ghost predicate Globals(params: seq<Param>) {
    forall p | p in params :: p.name != "" && p.name[0] == 'g'
  }

  lemma {:induction false} KeyParamsGlobal(keys: seq<string>, data: map<string, string>)
    ensures Globals(KeyParams(keys, data))
  {
    if keys != [] {
      KeyParamsGlobal(keys[..|keys| - 1], data);
    }
  }

  lemma TagInjective(a: string, b: string)
    ensures Tag(a) == Tag(b) <==> a == b
  {
    assert ("tags." + a)[5..] == a && ("tags." + b)[5..] == b;
  }

  lemma TagIsNotGlobal(params: seq<Param>, subchart: string)
    requires Globals(params)
    ensures Tag(subchart) !in params
  {
    assert Tag(subchart).name[0] == 't';
  }

  lemma AutoscalerIsNoTriple(enabled: bool, apiProvider: string, u: Specs.Triple)
    requires Specs.ValidTriple(u) && Specs.ValidApiProvider(apiProvider)
    ensures Tag(Specs.Name(u)) !in AutoscalerTags(enabled, apiProvider)
  {
    Specs.NameNotAutoscaler(u, apiProvider);
    TagInjective(Specs.Name(u), Specs.AutoscalerSubchart(apiProvider));
  }

  lemma GlobalParamsGlobal(r: Request, apiProvider: string)
    ensures Globals(GlobalParams(r, apiProvider))
  {
  }

  /**
     An application built from a specification carries the tag of exactly one valid triple, that
     of the specification.
   */
  lemma GuardExact(r: Request)
    requires r.spec.Some? && Constructed(r).Ok?
    ensures Serves(Constructed(r).value, Specs.TripleOf(Specs.Parsed(r.spec.value).value))
  {
    var cs := Specs.Parsed(r.spec.value).value;
    var t, app := Specs.TripleOf(cs), Constructed(r).value;
    forall u | Specs.ValidTriple(u)
      ensures Tag(Specs.Name(u)) in app.params.value <==> u == t
    {
      GlobalParamsGlobal(r, cs.apiProvider);
      KeyParamsGlobal(HELM_KEYS, r.spec.value.data);
      TagIsNotGlobal(GlobalParams(r, cs.apiProvider), Specs.Name(u));
      TagIsNotGlobal(KeyParams(HELM_KEYS, r.spec.value.data), Specs.Name(u));
      AutoscalerIsNoTriple(cs.casEnabled, cs.apiProvider, u);
      Specs.NameInjective(t, u);
      TagInjective(Specs.Name(t), Specs.Name(u));
      InConcat(app.params.value, GlobalParams(r, cs.apiProvider), KeyParams(HELM_KEYS, r.spec.value.data),
               [Tag(Specs.Name(t))], AutoscalerTags(cs.casEnabled, cs.apiProvider), Tag(Specs.Name(u)));
    }
  }

  lemma InConcat(all: seq<Param>, a: seq<Param>, b: seq<Param>, c: seq<Param>, d: seq<Param>, p: Param)
    requires all == a + (b + (c + d))
    ensures p in all <==> p in a || p in b || p in c || p in d
  {
  }

  /** A second-generation root application carries no triple's tag, and ignores no differences. */
  lemma SecondGenerationHasNoTag(r: Request, u: Specs.Triple)
    requires r.spec.None? && Specs.ValidTriple(u)
    ensures Constructed(r).value.params.Some? && Tag(Specs.Name(u)) !in Constructed(r).value.params.value
    ensures Constructed(r).value.ignoredDiffs == []
  {
    GlobalParamsGlobal(r, "capi");
    TagIsNotGlobal(GlobalParams(r, "capi"), Specs.Name(u));
    AutoscalerIsNoTriple(r.autoscaler, "capi", u);
  }

  // ---------------------------------------------------------------- the parameters by name

  /** The API provider of a request; the second generation is always on Cluster API. */
  function ProviderOf(r: Request): string
    requires r.spec.Some? ==> Specs.Parsed(r.spec.value).Ok?
  {
    match r.spec
    case None => "capi"
    case Some(cm) => Specs.Parsed(cm).value.apiProvider
  }

  /** A parameter every application has. */
  ghost predicate CommonParam(r: Request, api: string, p: Param) {
    || p == Param("global.clusterFullNameWithInnerCluster",
                  if r.innerName == "" then r.clusterName else r.clusterName + "-" + r.innerName)
    || p == Param("global.clusterName", r.clusterName)
    || (p.name == "global.kubeconfigSecretKeyName"
        && ((api == "capi" && p.value == "value") || (api == "xplane" && p.value == "kubeconfig")))
    || p == Param("global.managementClusterUrl", r.managementUrl)
    || (r.innerName != "" && p == Param("global.innerClusterNameWithDashSuffix", r.innerName + "-"))
  }

  /** A parameter that passes on a value of the specification. */
  ghost predicate SpecParam(data: map<string, string>, p: Param) {
    exists key :: key in HELM_KEYS && key in data && data[key] != "" && p == Param("global." + key, data[key])
  }

  /** The tag of the specification's triple, and that of the autoscaler if it is on. */
  ghost predicate TagParam(cs: Specs.ClusterSpec, p: Param) {
    || p == Param("tags." + cs.apiProvider + "-" + cs.cloudProvider + "-" + cs.clusterType, "true")
    || (cs.casEnabled && p == Param("tags." + cs.apiProvider + "-cluster-autoscaler", "true"))
  }

  /** The parameters of an application, exactly. */
  lemma ParamsIff(r: Request, p: Param)
    requires Constructed(r).Ok?
    ensures Constructed(r).value.params.Some?
    ensures p in Constructed(r).value.params.value <==>
              || CommonParam(r, ProviderOf(r), p)
              || (r.spec.Some? && SpecParam(r.spec.value.data, p))
              || (r.spec.Some? && TagParam(Specs.Parsed(r.spec.value).value, p))
              || (r.spec.None? && r.autoscaler && p == Param("tags.capi-cluster-autoscaler", "true"))
  {
    var api := ProviderOf(r);
    GlobalParamsIff(r, api, p);
    if r.spec.Some? {
      var cs, data := Specs.Parsed(r.spec.value).value, r.spec.value.data;
      SpecParamsIff(cs, data, p);
      InBoth(Constructed(r).value.params.value, GlobalParams(r, api), SpecParams(cs, data), p);
    } else {
      InBoth(Constructed(r).value.params.value, AutoscalerTags(r.autoscaler, api), GlobalParams(r, api), p);
      AutoscalerTagIff(r.autoscaler, p);
    }
  }

  lemma InBoth(all: seq<Param>, a: seq<Param>, b: seq<Param>, p: Param)
    requires all == a + b
    ensures p in all <==> p in a || p in b
  {
  }

  lemma AutoscalerTagIff(enabled: bool, p: Param)
    ensures p in AutoscalerTags(enabled, "capi") <==> enabled && p == Param("tags.capi-cluster-autoscaler", "true")
  {
    assert "tags." + Specs.AutoscalerSubchart("capi") == "tags.capi-cluster-autoscaler";
  }

  lemma SpecParamsIff(cs: Specs.ClusterSpec, data: map<string, string>, p: Param)
    ensures p in SpecParams(cs, data) <==> SpecParam(data, p) || TagParam(cs, p)
  {
    KeyParamsIff(HELM_KEYS, data, p);
    TagNames(cs);
    var tag, autoscaler := [Tag(Specs.Name(Specs.TripleOf(cs)))], AutoscalerTags(cs.casEnabled, cs.apiProvider);
    assert SpecParams(cs, data) == KeyParams(HELM_KEYS, data) + (tag + autoscaler);
    assert p in tag <==> p == Tag(Specs.Name(Specs.TripleOf(cs)));
  }

  lemma TagNames(cs: Specs.ClusterSpec)
    ensures Tag(Specs.Name(Specs.TripleOf(cs)))
         == Param("tags." + cs.apiProvider + "-" + cs.cloudProvider + "-" + cs.clusterType, "true")
    ensures Tag(Specs.AutoscalerSubchart(cs.apiProvider))
         == Param("tags." + cs.apiProvider + "-cluster-autoscaler", "true")
  {
    assert "tags." + cs.apiProvider + "-" + cs.cloudProvider + "-" + cs.clusterType
        == "tags." + Specs.Name(Specs.TripleOf(cs));
    assert "tags." + cs.apiProvider + "-cluster-autoscaler" == "tags." + Specs.AutoscalerSubchart(cs.apiProvider);
  }

  lemma GlobalParamsIff(r: Request, api: string, p: Param)
    requires api == "capi" || api == "xplane"
    ensures p in GlobalParams(r, api) <==> CommonParam(r, api, p)
  {
  }

  lemma {:induction false} KeyParamsIff(keys: seq<string>, data: map<string, string>, p: Param)
    ensures p in KeyParams(keys, data) <==>
              exists key :: key in keys && key in data && data[key] != "" && p == Param("global." + key, data[key])
  {
    if keys != [] {
      var front, last := keys[..|keys| - 1], keys[|keys| - 1];
      KeyParamsIff(front, data, p);
      assert keys == front + [last];
    }
  }

  /** What an application says about itself. */
  lemma ApplicationFields(r: Request)
    requires Constructed(r).Ok?
    ensures var app := Constructed(r).value;
            && app.name == (if r.specName == "" then r.clusterName + "-kkarlon" else r.clusterName)
            && app.kind == (if r.specName == "" then "kkarlon-app" else "cluster")
            && app.clusterLabel == (if r.spec.None? then Some(r.clusterName) else None)
            && app.specName == r.specName && app.profileName == r.profileName
            && app.url == r.url && app.revision == r.revision && app.path == r.path
            && (MachineDeploymentReplicas in app.ignoredDiffs <==>
                  r.spec.Some? && Specs.Parsed(r.spec.value).value.casEnabled)
            && (ControlPlaneVersion in app.ignoredDiffs <==> r.spec.Some?)
  {
  }

  // ---------------------------------------------------------------- update

  datatype Error =
    | NilDereference | AppUnavailable | NoSpecAnnotation | NoProfileAnnotation | ProfileUnavailable | SpecUnavailable
    | BadSpec(specError: Specs.Error) | TripleChanged | BadPath(pathError: Paths.PathError) | OtherCluster
    | ConstructionFailed | GitReferenceChanged | BundlesUnavailable | CredentialsUnavailable | DeployFailed
    | AppUpdateFailed

  /** What a call of `Update` asks for; empty names mean those the application has. */
  datatype Change = Change(
    clusterName: string, specName: string, profileName: string, updateInArgo: bool, managementUrl: string)

  datatype UpdateCalls = UpdateCalls(
    getApp: bool, getProfile: bool, getSpec: bool, bundles: bool, credentials: bool, deploy: Reply, updateApp: Reply)

  /** A regenerated git tree of a cluster. */
  datatype Deployment = Deployment(
    clusterName: string, url: string, revision: string, basePath: string, profile: string)

  datatype Clusters = Clusters(
    apps: map<string, RootApp>, specs: map<string, Specs.ConfigMap>, profiles: set<string>, deployed: seq<Deployment>)

  function SpecChosen(app: RootApp, c: Change): string {
    if c.specName == "" then app.specName else c.specName
  }

  function ProfileChosen(app: RootApp, c: Change): string {
    if c.profileName == "" then app.profileName else c.profileName
  }

  function UpdateRequest(app: RootApp, c: Change, cm: Specs.ConfigMap): Request {
    Request(c.clusterName, "", app.url, app.revision, app.path, SpecChosen(app, c), Some(cm), ProfileChosen(app, c),
            c.managementUrl, false)
  }

  /** What the checks before any write conclude: the new application and the base path. */
  function Checked(s: Clusters, c: Change, e: UpdateCalls): Result<(RootApp, string), Error> {
    if !e.getApp || c.clusterName !in s.apps then Err(AppUnavailable)
    else
      var app := s.apps[c.clusterName];
      if SpecChosen(app, c) == "" then Err(NoSpecAnnotation)
      else if ProfileChosen(app, c) == "" then Err(NoProfileAnnotation)
      else if !e.getProfile || ProfileChosen(app, c) !in s.profiles then Err(ProfileUnavailable)
      else if !e.getSpec || SpecChosen(app, c) !in s.specs then Err(SpecUnavailable)
      else CheckedSpec(app, c, s.specs[SpecChosen(app, c)])
  }

  function CheckedSpec(app: RootApp, c: Change, cm: Specs.ConfigMap): Result<(RootApp, string), Error> {
    match Specs.SubchartName(cm)
    case Err(specError) => Err(BadSpec(specError))
    case Ok(subchart) =>
      if app.params.None? then Err(NilDereference)
      else if Tag(subchart) !in app.params.value then Err(TripleChanged)
      else match Paths.DecomposePath(app.path)
        case Err(pathError) => Err(BadPath(pathError))
        case Ok((basePath, clusterName)) =>
          if clusterName != c.clusterName then Err(OtherCluster) else Rebuilt(app, c, cm, basePath)
  }

  /** The new application, which must not refer to another place in git. */
  function Rebuilt(app: RootApp, c: Change, cm: Specs.ConfigMap, basePath: string): Result<(RootApp, string), Error> {
    match Constructed(UpdateRequest(app, c, cm))
    case Err(_) => Err(ConstructionFailed)
    case Ok(newApp) =>
      if newApp.url != app.url || newApp.path != app.path then Err(GitReferenceChanged)
      else Ok((newApp, basePath))
  }

  function Deployed(s: Clusters, app: RootApp, basePath: string, c: Change, reply: Reply): Clusters {
    if reply.Refused? then s
    else s.(deployed := s.deployed + [Deployment(c.clusterName, app.url, app.revision, basePath, app.profileName)])
  }

  function Stored(s: Clusters, app: RootApp, c: Change, reply: Reply): Clusters {
    if reply.Refused? then s else s.(apps := s.apps[app.name := app])
  }

  function Updated(s: Clusters, c: Change, e: UpdateCalls): (Clusters, Result<RootApp, Error>) {
    match Checked(s, c, e)
    case Err(error) => (s, Err(error))
    case Ok((app, basePath)) =>
      if !e.bundles then (s, Err(BundlesUnavailable))
      else if !e.credentials then (s, Err(CredentialsUnavailable))
      else
        var s' := Deployed(s, app, basePath, c, e.deploy);
        if !e.deploy.Applied? then (s', Err(DeployFailed))
        else if !c.updateInArgo then (s', Ok(app))
        else (Stored(s', app, c, e.updateApp), if e.updateApp.Applied? then Ok(app) else Err(AppUpdateFailed))
  }

  class Service {
    var apps: map<string, RootApp>
    var specs: map<string, Specs.ConfigMap>
    var profiles: set<string>
    var deployed: seq<Deployment>

    ghost function State(): Clusters
      reads this
    {
      Clusters(apps, specs, profiles, deployed)
    }

    constructor (s: Clusters)
      ensures State() == s
    {
      apps, specs, profiles, deployed := s.apps, s.specs, s.profiles, s.deployed;
    }

    method HasParam(params: seq<Param>, wanted: Param) returns (found: bool)
      ensures found <==> wanted in params
    {
      found := false;
      for i := 0 to |params|
        invariant !found && wanted !in params[..i]
      {
        found := params[i].name == wanted.name && params[i].value == wanted.value;
        if found {
          break;
        }
      }
    }

    /** The checks on the chosen specification, and the new application. */
    method CheckSpec(oldApp: RootApp, c: Change, cm: Specs.ConfigMap) returns (r: Result<(RootApp, string), Error>)
      ensures r == CheckedSpec(oldApp, c, cm)
    {
      var subchart := Specs.SubchartName(cm);
      if subchart.Err? {
        return Err(BadSpec(subchart.error));
      }
      if oldApp.params.None? {
        return Err(NilDereference);
      }
      var found := HasParam(oldApp.params.value, Tag(subchart.value));
      if !found {
        return Err(TripleChanged);
      }
      var place := Paths.DecomposePath(oldApp.path);
      if place.Err? {
        return Err(BadPath(place.error));
      }
      if place.value.1 != c.clusterName {
        return Err(OtherCluster);
      }
      var newApp := ConstructRootApp(UpdateRequest(oldApp, c, cm));
      if newApp.Err? {
        return Err(ConstructionFailed);
      }
      if oldApp.url != newApp.value.url || oldApp.path != newApp.value.path {
        return Err(GitReferenceChanged);
      }
      return Ok((newApp.value, place.value.0));
    }

    method Check(c: Change, e: UpdateCalls) returns (r: Result<(RootApp, string), Error>)
      ensures r == Checked(State(), c, e)
    {
      if !e.getApp || c.clusterName !in apps {
        return Err(AppUnavailable);
      }
      var oldApp, specName, profileName := apps[c.clusterName], c.specName, c.profileName;
      if specName == "" {
        specName := oldApp.specName;
        if specName == "" {
          return Err(NoSpecAnnotation);
        }
      }
      if profileName == "" {
        profileName := oldApp.profileName;
        if profileName == "" {
          return Err(NoProfileAnnotation);
        }
      }
      if !e.getProfile || profileName !in profiles {
        return Err(ProfileUnavailable);
      }
      if !e.getSpec || specName !in specs {
        return Err(SpecUnavailable);
      }
      r := CheckSpec(oldApp, c, specs[specName]);
    }

    method Update(c: Change, e: UpdateCalls) returns (r: Result<RootApp, Error>)
      modifies this
      ensures (State(), r) == Updated(old(State()), c, e)
    {
      var checked := Check(c, e);
      if checked.Err? {
        return Err(checked.error);
      }
      var (app, basePath) := checked.value;
      if !e.bundles {
        return Err(BundlesUnavailable);
      }
      if !e.credentials {
        return Err(CredentialsUnavailable);
      }
      if !e.deploy.Refused? {
        deployed := deployed + [Deployment(c.clusterName, app.url, app.revision, basePath, app.profileName)];
      }
      if !e.deploy.Applied? {
        return Err(DeployFailed);
      }
      if c.updateInArgo {
        if !e.updateApp.Refused? {
          apps := apps[app.name := app];
        }
        if !e.updateApp.Applied? {
          return Err(AppUpdateFailed);
        }
      }
      return Ok(app);
    }
  }

  // ---------------------------------------------------------------- what updates keep

  /** The checks pass only for the same triple, and never move the application. */
  lemma CheckedKeeps(s: Clusters, c: Change, e: UpdateCalls, t: Specs.Triple)
    requires c.clusterName in s.apps && Serves(s.apps[c.clusterName], t) && Checked(s, c, e).Ok?
    ensures var (app, basePath) := Checked(s, c, e).value;
            var before := s.apps[c.clusterName];
            && Serves(app, t) && app.name == c.clusterName
            && app.url == before.url && app.revision == before.revision && app.path == before.path
            && Paths.DecomposePath(app.path) == Ok((basePath, c.clusterName))
    ensures var cm := s.specs[SpecChosen(s.apps[c.clusterName], c)]; Specs.TripleOf(Specs.Parsed(cm).value) == t
  {
    var app := s.apps[c.clusterName];
    GuardExact(UpdateRequest(app, c, s.specs[SpecChosen(app, c)]));
  }

  /** The names an update needs are given or recorded, and can be read. */
  ghost predicate Readable(s: Clusters, c: Change, e: UpdateCalls)
    requires c.clusterName in s.apps
  {
    var app := s.apps[c.clusterName];
    && e.getApp && e.getProfile && e.getSpec
    && SpecChosen(app, c) != "" && SpecChosen(app, c) in s.specs
    && ProfileChosen(app, c) != "" && ProfileChosen(app, c) in s.profiles
  }

  ghost predicate WritesApplied(c: Change, e: UpdateCalls) {
    e.bundles && e.credentials && e.deploy.Applied? && (c.updateInArgo ==> e.updateApp.Applied?)
  }

  /** The path ends in the cluster's name and "mgmt". */
  ghost predicate PlacedFor(app: RootApp, clusterName: string) {
    Paths.DecomposePath(app.path).Ok? && Paths.DecomposePath(app.path).value.1 == clusterName
  }

  /**
     An update succeeds exactly when everything it reads and writes works, the path is the
     cluster's, and the chosen specification is readable and has the triple the cluster serves.
   */
  lemma UpdateSucceedsIff(s: Clusters, c: Change, e: UpdateCalls, t: Specs.Triple)
    requires c.clusterName in s.apps && Serves(s.apps[c.clusterName], t)
    ensures Updated(s, c, e).1.Ok?
       <==> && Readable(s, c, e) && WritesApplied(c, e) && PlacedFor(s.apps[c.clusterName], c.clusterName)
            && var cs := Specs.Parsed(s.specs[SpecChosen(s.apps[c.clusterName], c)]);
               cs.Ok? && Specs.TripleOf(cs.value) == t
  {
    if Readable(s, c, e) {
      var app := s.apps[c.clusterName];
      var cm := s.specs[SpecChosen(app, c)];
      if Specs.SubchartName(cm).Ok? {
        var u := Specs.TripleOf(Specs.Parsed(cm).value);
        assert Specs.ValidTriple(u) && Specs.SubchartName(cm) == Ok(Specs.Name(u));
      }
    }
  }

  /** The checks of the rebuilt application and of its place in git cannot fail. */
  lemma GitReferenceNeverChanges(s: Clusters, c: Change, e: UpdateCalls)
    ensures Updated(s, c, e).1 != Err(GitReferenceChanged) && Updated(s, c, e).1 != Err(ConstructionFailed)
  {
  }

  /** The application of the second generation's workload cluster, which has no Helm section. */
  function WorkloadApp(clusterName: string, url: string, revision: string, path: string): RootApp {
    RootApp(clusterName, "cluster-app", Some(clusterName), "", "", None,
            [MachineDeploymentReplicas, ControlPlaneVersion, MachineTemplateSpec], url, revision, path)
  }

  /** An update dereferences nil exactly when it gets as far as the guard and there is no Helm section. */
  lemma NilDereferenceIff(s: Clusters, c: Change, e: UpdateCalls)
    ensures Updated(s, c, e).1 == Err(NilDereference)
       <==> && c.clusterName in s.apps && Readable(s, c, e)
            && Specs.SubchartName(s.specs[SpecChosen(s.apps[c.clusterName], c)]).Ok?
            && s.apps[c.clusterName].params.None?
  {
  }

  /** So it does for a second-generation cluster, if the call names a readable specification and profile. */
  lemma SecondGenerationCrashes(s: Clusters, c: Change, e: UpdateCalls, url: string, revision: string, path: string)
    requires c.clusterName in s.apps && s.apps[c.clusterName] == WorkloadApp(c.clusterName, url, revision, path)
    ensures Updated(s, c, e).1 == Err(NilDereference)
       <==> && c.specName != "" && c.profileName != "" && e.getApp && e.getProfile && e.getSpec
            && c.profileName in s.profiles && c.specName in s.specs && Specs.SubchartName(s.specs[c.specName]).Ok?
  {
    NilDereferenceIff(s, c, e);
  }

  /** Updating with nothing new rebuilds the very application there is. */
  lemma RefreshIsIdentity(s: Clusters, r: Request, e: UpdateCalls, updateInArgo: bool)
    requires r.spec.Some? && r.specName != "" && r.profileName != "" && r.innerName == "" && Constructed(r).Ok?
    requires r.clusterName in s.apps && s.apps[r.clusterName] == Constructed(r).value
    requires r.specName in s.specs && s.specs[r.specName] == r.spec.value
    ensures var (s', result) := Updated(s, Change(r.clusterName, "", "", updateInArgo, r.managementUrl), e);
            s'.apps == s.apps && (result.Ok? ==> result.value == Constructed(r).value)
  {
    var c := Change(r.clusterName, "", "", updateInArgo, r.managementUrl);
    var app := s.apps[r.clusterName];
    assert Constructed(UpdateRequest(app, c, r.spec.value)) == Constructed(r);
    assert s.apps[r.clusterName := app] == s.apps;
  }

  /**
     A successful update is about the specification and the profile it was passed, or the stored ones for
     empty names: it returns the application built from them for the same place in git, deploys the
     profile's bundles there, and stores the application if it is to.
   */
  lemma UpdateUses(s: Clusters, c: Change, e: UpdateCalls)
    requires Updated(s, c, e).1.Ok?
    ensures c.clusterName in s.apps
    ensures var before, (after, r) := s.apps[c.clusterName], Updated(s, c, e);
            var spec := if c.specName != "" then c.specName else before.specName;
            var profile := if c.profileName != "" then c.profileName else before.profileName;
            && spec in s.specs && profile in s.profiles
            && r.value.specName == spec && r.value.profileName == profile
            && Constructed(Request(c.clusterName, "", before.url, before.revision, before.path, spec,
                                   Some(s.specs[spec]), profile, c.managementUrl, false)) == Ok(r.value)
            && after.apps == (if c.updateInArgo then s.apps[c.clusterName := r.value] else s.apps)
            && Paths.DecomposePath(before.path).Ok?
            && after.deployed == s.deployed + [Deployment(c.clusterName, before.url, before.revision,
                                                          Paths.DecomposePath(before.path).value.0, profile)]
            && after.specs == s.specs && after.profiles == s.profiles
  {
    CheckedName(s, c, e);
  }

  /** A failed update stores nothing and deploys nothing, unless a write took effect without a report. */
  lemma FailedUpdate(s: Clusters, c: Change, e: UpdateCalls)
    requires Updated(s, c, e).1.Err?
    ensures var (after, r) := Updated(s, c, e);
            && (after.apps != s.apps ==> r.error == AppUpdateFailed && e.updateApp.Lost?)
            && (after.deployed != s.deployed ==>
                  r.error == AppUpdateFailed || (r.error == DeployFailed && e.deploy.Lost?))
            && after.specs == s.specs && after.profiles == s.profiles
  {
    if Checked(s, c, e).Ok? {
      var (app, basePath) := Checked(s, c, e).value;
      FailedWrites(s, Deployed(s, app, basePath, c, e.deploy), app, c, e);
    }
  }

  lemma FailedWrites(s: Clusters, deployed: Clusters, app: RootApp, c: Change, e: UpdateCalls)
    requires deployed.apps == s.apps && deployed.specs == s.specs && deployed.profiles == s.profiles
    ensures var stored := Stored(deployed, app, c, e.updateApp);
            && (e.updateApp.Refused? ==> stored == deployed) && stored.deployed == deployed.deployed
            && stored.specs == s.specs && stored.profiles == s.profiles
  {
  }

  // ---------------------------------------------------------------- histories

  /** Updates of any cluster with any failures, between any rewriting of specifications and profiles. */
  datatype Action =
    | Update(change: Change, calls: UpdateCalls)
    | Rewrite(specs: map<string, Specs.ConfigMap>, profiles: set<string>)

  function Act(s: Clusters, a: Action): Clusters {
    match a
    case Update(c, e) => Updated(s, c, e).0
    case Rewrite(specs, profiles) => s.(specs := specs, profiles := profiles)
  }

  function Run(s: Clusters, actions: seq<Action>): Clusters
    decreases |actions|
  {
    if actions == [] then s else Run(Act(s, actions[0]), actions[1..])
  }

  /** The action stores an application for the cluster, whatever the caller is told. */
  predicate StoresFor(s: Clusters, a: Action, clusterName: string) {
    && a.Update? && a.change.clusterName == clusterName && a.change.updateInArgo
    && (|| Updated(s, a.change, a.calls).1.Ok?
        || (Updated(s, a.change, a.calls).1 == Err(AppUpdateFailed) && a.calls.updateApp.Lost?))
  }

  /** The last name that is not empty among those the storing updates passed, or the original one. */
  function LastProfile(s: Clusters, actions: seq<Action>, clusterName: string, original: string): string
    decreases |actions|
  {
    if actions == [] then original
    else
      var a := actions[0];
      LastProfile(Act(s, a), actions[1..], clusterName,
                  if StoresFor(s, a, clusterName) && a.change.profileName != "" then a.change.profileName else original)
  }

  function LastSpec(s: Clusters, actions: seq<Action>, clusterName: string, original: string): string
    decreases |actions|
  {
    if actions == [] then original
    else
      var a := actions[0];
      LastSpec(Act(s, a), actions[1..], clusterName,
               if StoresFor(s, a, clusterName) && a.change.specName != "" then a.change.specName else original)
  }

  lemma StepNames(s: Clusters, a: Action, clusterName: string)
    requires clusterName in s.apps
    ensures clusterName in Act(s, a).apps
    ensures var before, after := s.apps[clusterName], Act(s, a).apps[clusterName];
            if StoresFor(s, a, clusterName)
            then && after.profileName == (if a.change.profileName == "" then before.profileName
                                          else a.change.profileName)
                 && after.specName == (if a.change.specName == "" then before.specName else a.change.specName)
            else after == before
  {
    if a.Update? && Checked(s, a.change, a.calls).Ok? {
      CheckedName(s, a.change, a.calls);
      StoredIs(s, a.change, a.calls);
      CheckedNames(s, a.change, a.calls);
    }
  }

  lemma StoredIs(s: Clusters, c: Change, e: UpdateCalls)
    requires Checked(s, c, e).Ok?
    ensures var app := Checked(s, c, e).value.0;
            Updated(s, c, e).0.apps
            == if StoresFor(s, Update(c, e), c.clusterName) then s.apps[app.name := app] else s.apps
  {
  }

  lemma CheckedNames(s: Clusters, c: Change, e: UpdateCalls)
    requires Checked(s, c, e).Ok?
    ensures var before, app := s.apps[c.clusterName], Checked(s, c, e).value.0;
            && app.profileName == (if c.profileName == "" then before.profileName else c.profileName)
            && app.specName == (if c.specName == "" then before.specName else c.specName)
  {
  }

  /** Over every history the stored profile and specification are the last ones a storing update named. */
  lemma {:induction false} StoredNames(s: Clusters, actions: seq<Action>, clusterName: string)
    requires clusterName in s.apps
    ensures clusterName in Run(s, actions).apps
    ensures var before, after := s.apps[clusterName], Run(s, actions).apps[clusterName];
            && after.profileName == LastProfile(s, actions, clusterName, before.profileName)
            && after.specName == LastSpec(s, actions, clusterName, before.specName)
    decreases |actions|
  {
    if actions != [] {
      StepNames(s, actions[0], clusterName);
      StoredNames(Act(s, actions[0]), actions[1..], clusterName);
    }
  }

  /** All regenerations of a cluster's tree went to the place its application points to. */
  ghost predicate DeployedInPlace(deployed: seq<Deployment>, clusterName: string, app: RootApp) {
    forall i | 0 <= i < |deployed| && deployed[i].clusterName == clusterName ::
      && deployed[i].url == app.url && deployed[i].revision == app.revision
      && Paths.DecomposePath(app.path) == Ok((deployed[i].basePath, clusterName))
  }

  ghost predicate Keeps(s: Clusters, clusterName: string, app: RootApp, t: Specs.Triple) {
    && clusterName in s.apps && Serves(s.apps[clusterName], t)
    && s.apps[clusterName].url == app.url && s.apps[clusterName].revision == app.revision
    && s.apps[clusterName].path == app.path
    && DeployedInPlace(s.deployed, clusterName, app)
  }

  /** An update stores at most the checked application and logs at most one deployment of it. */
  lemma UpdateWrites(s: Clusters, c: Change, e: UpdateCalls)
    requires Checked(s, c, e).Ok?
    ensures var ((app, basePath), after) := (Checked(s, c, e).value, Updated(s, c, e).0);
            && (after.apps == s.apps || after.apps == s.apps[app.name := app])
            && (|| after.deployed == s.deployed
                || after.deployed
                   == s.deployed + [Deployment(c.clusterName, app.url, app.revision, basePath, app.profileName)])
  {
  }

  lemma ActKeeps(s: Clusters, a: Action, clusterName: string, app: RootApp, t: Specs.Triple)
    requires Keeps(s, clusterName, app, t)
    ensures Keeps(Act(s, a), clusterName, app, t)
  {
    if a.Update? && Checked(s, a.change, a.calls).Ok? {
      UpdateWrites(s, a.change, a.calls);
      CheckedName(s, a.change, a.calls);
      if a.change.clusterName == clusterName {
        CheckedKeeps(s, a.change, a.calls, t);
      }
    }
  }

  lemma CheckedName(s: Clusters, c: Change, e: UpdateCalls)
    requires Checked(s, c, e).Ok?
    ensures Checked(s, c, e).value.0.name == c.clusterName
  {
  }

  /**
     Over every history of updates, with any failing calls and any specifications, a cluster's
     triple and its place in git never change.
   */
  lemma {:induction false} TripleNeverChanges(
    s: Clusters, actions: seq<Action>, clusterName: string, app: RootApp, t: Specs.Triple)
    requires Keeps(s, clusterName, app, t)
    ensures Keeps(Run(s, actions), clusterName, app, t)
    decreases |actions|
  {
    if actions != [] {
      ActKeeps(s, actions[0], clusterName, app, t);
      TripleNeverChanges(Act(s, actions[0]), actions[1..], clusterName, app, t);
    }
  }

  /**
     A cluster created under a base path, then put through any history, is regenerated by the next
     successful update under that base path exactly when the base path is not empty and, joined to the
     name by a slash, clean.
   */
  lemma CreateThenUpdate(s: Clusters, r: Request, basePath: string, actions: seq<Action>, c: Change, e: UpdateCalls)
    requires r.spec.Some? && r.specName != "" && Constructed(r).Ok?
    requires r.path == Paths.MgmtPath(basePath, r.clusterName)
    requires r.clusterName in s.apps && s.apps[r.clusterName] == Constructed(r).value && s.deployed == []
    requires c.clusterName == r.clusterName && Checked(Run(s, actions), c, e).Ok?
    ensures var t := Specs.TripleOf(Specs.Parsed(r.spec.value).value); Serves(Checked(Run(s, actions), c, e).value.0, t)
    ensures Checked(Run(s, actions), c, e).value.1 == basePath
       <==> basePath != "" && Paths.Clean(basePath + "/" + c.clusterName) == basePath + "/" + c.clusterName
            && '/' !in c.clusterName
  {
    var t, app := Specs.TripleOf(Specs.Parsed(r.spec.value).value), Constructed(r).value;
    GuardExact(r);
    TripleNeverChanges(s, actions, r.clusterName, app, t);
    CheckedKeeps(Run(s, actions), c, e, t);
    Paths.RoundTrip(basePath, r.clusterName);
  }
}

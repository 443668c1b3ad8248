/**
 The cluster controller as a state machine over the Cluster resource, Argo CD's applications
 and the git directories that hold overrides. `Reconcile` is one pass of the controller, given
 the replies its remote calls get; `ClusterReconciler` implements it step by step.
 */
module ClusterController {
  import opened Text
  import opened Remote
  import AppProfiles
  import Paths

  // ---------------------------------------------------------------- stored objects

  datatype RepoSpec = RepoSpec(url: string, path: string, revision: string)

  datatype OverrideSpec = OverrideSpec(patch: string, repo: RepoSpec)

  datatype Spec = Spec(template: RepoSpec, override: Option<OverrideSpec>, chart: Option<RepoSpec>)

  datatype State =
    | Unprocessed | Retrying | TemplateValidated | OverrideCreated | Created
    | ErrorDeletingOverride | OverrideDeleted
    | ErrorDeletingClusterApp | DeletingClusterApp
    | ErrorDeletingKkarlonApp | DeletingKkarlonApp | DeleteRetrying

  datatype Status = Status(state: State, innerName: string, overrideSuccessful: bool)

  /** The Cluster resource. Its annotation map may be nil, which is not the same as empty. */
  datatype Cluster = Cluster(
    annotations: Option<map<string, string>>, deleting: bool, finalizer: bool, spec: Spec, status: Status)

  datatype App = App(annotations: Option<map<string, string>>, deleting: bool, source: RepoSpec)

  /** A directory on a branch of a repository. */
  datatype Dir = Dir(url: string, revision: string, place: Paths.Place)

  /** The override directory: a patch on top of the cluster template. */
  datatype Content = Content(patch: string, base: RepoSpec)

  /** The override directories in git, of this cluster and of others. */
  type Git = map<Dir, Content>

  datatype World = World(name: string, cluster: Option<Cluster>, apps: map<string, App>, git: Git)

  // ---------------------------------------------------------------- replies of remote calls

  /** `idlePush` says whether a git tree to which nothing was changed can be committed and pushed. */
  datatype Calls = Calls(
    getCluster: bool, patchHelper: bool, appClient: bool, finalizer: Reply,
    template: Option<string>, patchDir: Reply, idlePush: bool,
    getKkarlonApp: bool, createCheck: bool, createKkarlonApp: Reply,
    getClusterApp: bool, createClusterApp: Reply, updateClusterApp: Reply,
    kubeClient: bool, removeDir: Reply, deleteClusterApp: Reply, deleteKkarlonApp: Reply,
    status: Reply)

  datatype Outcome = Done | Requeue | RetryLater | Failed

  // ---------------------------------------------------------------- names, sources, directories

  const NAME_ANNOTATION := "kkarlon.io/basecluster-name"
  const URL_ANNOTATION := "kkarlon.io/basecluster-repo-url"
  const REVISION_ANNOTATION := "kkarlon.io/basecluster-repo-revision"
  const PATH_ANNOTATION := "kkarlon.io/basecluster-repo-path"
  const OVERRIDDEN_ANNOTATION := "kkarlon.io/basecluster-overridden"
  const CLUSTERSPEC_ANNOTATION := "kkarlon.io/clusterspec"
  const PROFILE_ANNOTATION := "kkarlon.io/profile"

  const DEFAULT_CHART := RepoSpec("https://github.com/kkarlonproj/kkarlon.git", "pkg/cluster/manifests", "v0.10.0")

  function KkarlonAppName(clusterName: string): (r: string)
    ensures r != clusterName
  {
    clusterName + "-kkarlon"
  }

  /** Where the cluster app takes its manifests from: the override if there is one. */
  function SourceRepo(spec: Spec): RepoSpec {
    match spec.override
    case Some(o) => o.repo
    case None => spec.template
  }

  function ConstructClusterApp(clusterName: string, innerName: string, repo: RepoSpec, overridden: bool): App {
    App(Some(map[
          NAME_ANNOTATION := innerName,
          URL_ANNOTATION := repo.url,
          REVISION_ANNOTATION := repo.revision,
          PATH_ANNOTATION := repo.path,
          OVERRIDDEN_ANNOTATION := if overridden then "true" else "false"]),
        false,
        if overridden then repo.(path := repo.path + "/" + clusterName) else repo)
  }

  function ConstructKkarlonApp(spec: Spec): App {
    App(Some(map[CLUSTERSPEC_ANNOTATION := "", PROFILE_ANNOTATION := "no-profile-for-gen2"]),
        false,
        match spec.chart case Some(chart) => chart case None => DEFAULT_CHART)
  }

  function Annotation(annotations: Option<map<string, string>>, key: string): string {
    if annotations.Some? && key in annotations.value then annotations.value[key] else ""
  }

  /** The directory an override is written to. */
  function WrittenDir(clusterName: string, o: OverrideSpec): Dir {
    Dir(o.repo.url, o.repo.revision, Paths.PlaceOf(Paths.ClusterPath(o.repo.path, clusterName)))
  }

  /** The directory override deletion looks for, from the cluster app's annotations. */
  function RecordedDir(clusterName: string, app: App): Dir {
    Dir(Annotation(app.annotations, URL_ANNOTATION),
        Annotation(app.annotations, REVISION_ANNOTATION),
        Paths.PlaceOf(Annotation(app.annotations, PATH_ANNOTATION) + "/" + clusterName))
  }

  /** On the same branch, and at or below the directory. */
  predicate Under(d: Dir, dir: Dir) {
    d.url == dir.url && d.revision == dir.revision && Paths.Below(d.place, dir.place)
  }

  /** A directory is there if anything is kept in it or below it. */
  predicate Found(git: Git, dir: Dir) {
    exists d | d in git :: Under(d, dir)
  }

  /** Removal takes everything below along. */
  function Without(git: Git, dir: Dir): Git {
    map d | d in git && !Under(d, dir) :: git[d]
  }

  /** The cluster app's profile annotation, and its having annotations at all, follow the resource. */
  predicate NeedsSync(resource: Option<map<string, string>>, app: Option<map<string, string>>) {
    if resource.Some?
    then app.None? || Annotation(resource, AppProfiles.PROFILES_KEY) != Annotation(app, AppProfiles.PROFILES_KEY)
    else app.Some?
  }

  function SyncedAnnotations(resource: Option<map<string, string>>, app: Option<map<string, string>>)
    : Option<map<string, string>>
  {
    if resource.None? then None
    else
      var kept := if app.Some? then app.value else map[];
      Some(kept[AppProfiles.PROFILES_KEY := Annotation(resource, AppProfiles.PROFILES_KEY)])
  }

  /** Generating the directory again changes nothing. */
  predicate UpToDate(git: Git, dir: Dir, content: Content) {
    dir in git && git[dir] == content && forall d | d in git && Under(d, dir) :: d == dir
  }

  lemma UpToDateIff(git: Git, dir: Dir, content: Content)
    ensures UpToDate(git, dir, content) <==> Without(git, dir)[dir := content] == git
  {
    var after := Without(git, dir)[dir := content];
    assert Under(dir, dir);
    if after == git {
      forall d | d in git && Under(d, dir)
        ensures d == dir
      {
        assert d in after;
      }
    }
  }

  // ---------------------------------------------------------------- one pass of the controller

  function WriteStatus(w: World, status: Status, outcome: Outcome, reply: Reply): (World, Outcome)
    requires w.cluster.Some?
  {
    (if reply.Refused? then w else w.(cluster := Some(w.cluster.value.(status := status))),
     if reply.Applied? then outcome else Failed)
  }

  function WithState(cl: Cluster, state: State): Status {
    cl.status.(state := state)
  }

  function PutApp(w: World, name: string, app: App, reply: Reply): World {
    if reply.Refused? then w else w.(apps := w.apps[name := app])
  }

  function AddFinalizer(w: World, cl: Cluster, e: Calls): (World, Outcome) {
    (if e.finalizer.Refused? then w else w.(cluster := Some(cl.(finalizer := true))),
     if e.finalizer.Applied? then Done else Failed)
  }

  function ValidateTemplate(w: World, cl: Cluster, e: Calls): (World, Outcome)
    requires w.cluster.Some?
  {
    match e.template
    case None => WriteStatus(w, WithState(cl, Retrying), RetryLater, e.status)
    case Some(inner) =>
      WriteStatus(w, WithState(cl, TemplateValidated).(innerName := inner), Done, e.status)
  }

  function CreateOverride(w: World, cl: Cluster, o: OverrideSpec, e: Calls): (World, Outcome)
    requires w.cluster.Some?
  {
    var dir, content := WrittenDir(w.name, o), Content(o.patch, cl.spec.template);
    var pushed := if e.patchDir.Refused? then w else w.(git := Without(w.git, dir)[dir := content]);
    if e.patchDir.Applied? && (UpToDate(w.git, dir, content) ==> e.idlePush)
    then WriteStatus(pushed, WithState(cl, OverrideCreated).(overrideSuccessful := true), Done, e.status)
    else WriteStatus(pushed, WithState(cl, Retrying), RetryLater, e.status)
  }

  /** The world after making sure the kkarlon app exists, and whether to go on. */
  function EnsureKkarlonApp(w: World, cl: Cluster, e: Calls): (World, bool) {
    if !e.getKkarlonApp then (w, false)
    else if KkarlonAppName(w.name) in w.apps then (w, true)
    else if !e.createCheck || w.name in w.apps then (w, false)
    else (PutApp(w, KkarlonAppName(w.name), ConstructKkarlonApp(cl.spec), e.createKkarlonApp),
          e.createKkarlonApp.Applied?)
  }

  function EnsureClusterApp(w: World, cl: Cluster, e: Calls): (World, Outcome)
    requires w.cluster.Some?
  {
    if !e.getClusterApp then WriteStatus(w, WithState(cl, Retrying), RetryLater, e.status)
    else if w.name !in w.apps then
      var app := ConstructClusterApp(w.name, cl.status.innerName, SourceRepo(cl.spec), cl.spec.override.Some?);
      var w' := PutApp(w, w.name, app, e.createClusterApp);
      if e.createClusterApp.Applied? then WriteStatus(w', WithState(cl, Created), Done, e.status)
      else WriteStatus(w', WithState(cl, Retrying), RetryLater, e.status)
    else SyncAnnotations(w, cl, e)
  }

  function SyncAnnotations(w: World, cl: Cluster, e: Calls): (World, Outcome)
    requires w.cluster.Some? && w.name in w.apps
  {
    var app := w.apps[w.name];
    var sync := NeedsSync(cl.annotations, app.annotations);
    var w' := if sync
      then PutApp(w, w.name, app.(annotations := SyncedAnnotations(cl.annotations, app.annotations)),
                  e.updateClusterApp)
      else w;
    if sync && !e.updateClusterApp.Applied? then WriteStatus(w', WithState(cl, Retrying), RetryLater, e.status)
    else if cl.status.state != Created then WriteStatus(w', WithState(cl, Created), Done, e.status)
    else (w', Done)
  }

  function Deploy(w: World, cl: Cluster, e: Calls): (World, Outcome)
    requires w.cluster.Some?
  {
    var (w', ok) := EnsureKkarlonApp(w, cl, e);
    if !ok then WriteStatus(w', WithState(cl, Retrying), RetryLater, e.status)
    else EnsureClusterApp(w', cl, e)
  }

  /** Remove the override directory; whether that succeeded. */
  function RemoveOverride(w: World, app: App, e: Calls): (World, bool) {
    var dir := RecordedDir(w.name, app);
    if !e.kubeClient || !Found(w.git, dir) || e.removeDir.Refused? then (w, false)
    else (w.(git := Without(w.git, dir)), e.removeDir.Applied?)
  }

  function RequestDelete(w: World, name: string, reply: Reply): World
    requires name in w.apps
  {
    PutApp(w, name, w.apps[name].(deleting := true), reply)
  }

  function DeleteClusterApp(w: World, cl: Cluster, e: Calls): (World, Outcome)
    requires w.cluster.Some? && w.name in w.apps
  {
    var app := w.apps[w.name];
    if cl.spec.override.Some? && cl.status.overrideSuccessful then
      var (w', ok) := RemoveOverride(w, app, e);
      if ok then WriteStatus(w', WithState(cl, OverrideDeleted).(overrideSuccessful := false), Done, e.status)
      else WriteStatus(w', WithState(cl, ErrorDeletingOverride), RetryLater, e.status)
    else if app.deleting then (w, RetryLater)
    else
      var w' := RequestDelete(w, w.name, e.deleteClusterApp);
      if e.deleteClusterApp.Applied? then WriteStatus(w', WithState(cl, DeletingClusterApp), Done, e.status)
      else WriteStatus(w', WithState(cl, ErrorDeletingClusterApp), RetryLater, e.status)
  }

  function DeleteKkarlonApp(w: World, cl: Cluster, e: Calls): (World, Outcome)
    requires w.cluster.Some? && KkarlonAppName(w.name) in w.apps
  {
    var name := KkarlonAppName(w.name);
    if w.apps[name].deleting then (w, RetryLater)
    else
      var w' := RequestDelete(w, name, e.deleteKkarlonApp);
      if e.deleteKkarlonApp.Applied? then WriteStatus(w', WithState(cl, DeletingKkarlonApp), Done, e.status)
      else WriteStatus(w', WithState(cl, ErrorDeletingKkarlonApp), RetryLater, e.status)
  }

  /** A resource pending deletion goes away with its finalizer. */
  function RemoveFinalizer(w: World, e: Calls): (World, Outcome) {
    (if e.finalizer.Refused? then w else w.(cluster := None), if e.finalizer.Applied? then Done else Failed)
  }

  function ReconcileDelete(w: World, cl: Cluster, e: Calls): (World, Outcome)
    requires w.cluster.Some?
  {
    if !e.getClusterApp then WriteStatus(w, WithState(cl, DeleteRetrying), RetryLater, e.status)
    else if w.name in w.apps then DeleteClusterApp(w, cl, e)
    else if !e.getKkarlonApp then WriteStatus(w, WithState(cl, DeleteRetrying), RetryLater, e.status)
    else if KkarlonAppName(w.name) in w.apps then DeleteKkarlonApp(w, cl, e)
    else RemoveFinalizer(w, e)
  }

  function Reconcile(w: World, e: Calls): (World, Outcome) {
    if !e.getCluster then (w, Requeue)
    else match w.cluster
    case None => (w, Done)
    case Some(cl) =>
      if !e.patchHelper then (w, Requeue)
      else if !e.appClient then WriteStatus(w, WithState(cl, Retrying), RetryLater, e.status)
      else if cl.deleting then ReconcileDelete(w, cl, e)
      else if !cl.finalizer then AddFinalizer(w, cl, e)
      else if cl.status.innerName == "" then ValidateTemplate(w, cl, e)
      else if cl.spec.override.Some? && !cl.status.overrideSuccessful
      then CreateOverride(w, cl, cl.spec.override.value, e)
      else Deploy(w, cl, e)
  }
}

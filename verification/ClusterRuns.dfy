/**
 Runs of one cluster: controller passes with any mix of failing calls, Argo CD finishing
 pending deletions, a user creating, annotating and deleting the Cluster resource, and others
 changing the git repositories. Only the controller requests creation or deletion of the cluster's
 two applications, and the specification of a resource does not change during its life.
 */
module ClusterRuns {
  import opened Text
  import opened Remote
  import opened ClusterController

  datatype Action =
    | Pass(calls: Calls)
    | FinishDelete(app: string)
    | UserCreate(spec: Spec, initial: Option<map<string, string>>)
    | UserAnnotate(annotations: Option<map<string, string>>)
    | UserDelete
    | Foreign(git: Git)

  /** An annotation map is read back as nil once it is empty. */
  function Stored(annotations: Option<map<string, string>>): Option<map<string, string>> {
    if annotations == Some(map[]) then None else annotations
  }

  function Act(w: World, a: Action): World {
    match a
    case Pass(e) => Reconcile(w, e).0
    case FinishDelete(app) =>
      if app in w.apps && w.apps[app].deleting then w.(apps := w.apps - {app}) else w
    case UserCreate(spec, initial) =>
      if w.cluster.Some? then w
      else w.(cluster := Some(Cluster(Stored(initial), false, false, spec, Status(Unprocessed, "", false))))
    case UserAnnotate(annotations) =>
      if w.cluster.None? then w
      else w.(cluster := Some(w.cluster.value.(annotations := Stored(annotations))))
    case UserDelete =>
      if w.cluster.None? then w
      else if w.cluster.value.finalizer then w.(cluster := Some(w.cluster.value.(deleting := true)))
      else w.(cluster := None)
    case Foreign(git) => w.(git := git)
  }

  function Play(w: World, actions: seq<Action>): World {
    if actions == [] then w
    else Act(Play(w, actions[..|actions| - 1]), actions[|actions| - 1])
  }

  predicate Initial(w: World) {
    w.cluster.None? && w.name !in w.apps && KkarlonAppName(w.name) !in w.apps
  }

  predicate OverrideRecorded(cl: Cluster) {
    cl.spec.override.Some? && cl.status.overrideSuccessful
  }

  /** What holds between any two steps of a run. */
  ghost predicate Inv(w: World) {
    var clusterApp, kkarlonApp := w.name, KkarlonAppName(w.name);
    && (clusterApp in w.apps ==>
          && kkarlonApp in w.apps && !w.apps[kkarlonApp].deleting
          && w.cluster.Some?
          && w.apps[clusterApp].source == match w.cluster.value.spec.override
                                          case Some(o) => o.repo.(path := o.repo.path + "/" + w.name)
                                          case None => w.cluster.value.spec.template)
    && (kkarlonApp in w.apps ==>
          && w.cluster.Some?
          && w.apps[kkarlonApp].source == match w.cluster.value.spec.chart
                                          case Some(chart) => chart
                                          case None => DEFAULT_CHART)
    && (w.cluster.Some? ==>
          var cl := w.cluster.value;
          && (cl.deleting ==> cl.finalizer)
          && (kkarlonApp in w.apps ==>
                && cl.finalizer && cl.status.innerName != ""
                && (!cl.deleting && cl.spec.override.Some? ==> cl.status.overrideSuccessful)
                && (w.apps[kkarlonApp].deleting ==> cl.deleting))
          && (clusterApp in w.apps && w.apps[clusterApp].deleting ==> cl.deleting && !OverrideRecorded(cl)))
  }

  lemma StatusKept(w: World, state: State, outcome: Outcome, reply: Reply)
    requires Inv(w) && w.cluster.Some?
    ensures Inv(WriteStatus(w, WithState(w.cluster.value, state), outcome, reply).0)
  {
  }

  /** Nothing stops the creation of a missing kkarlon app: no cluster app can be in the way. */
  lemma EnsureKept(w: World, cl: Cluster, e: Calls)
    requires Inv(w) && w.cluster == Some(cl) && !cl.deleting && cl.finalizer && cl.status.innerName != ""
    requires cl.spec.override.Some? ==> cl.status.overrideSuccessful
    ensures var (w', ok) := EnsureKkarlonApp(w, cl, e);
            Inv(w') && w'.cluster == w.cluster && w'.name == w.name && (ok ==> KkarlonAppName(w.name) in w'.apps)
  {
  }

  lemma DeployKept(w: World, cl: Cluster, e: Calls)
    requires Inv(w) && w.cluster == Some(cl) && !cl.deleting && cl.finalizer && cl.status.innerName != ""
    requires cl.spec.override.Some? ==> cl.status.overrideSuccessful
    ensures Inv(Deploy(w, cl, e).0)
  {
    EnsureKept(w, cl, e);
    var (w', ok) := EnsureKkarlonApp(w, cl, e);
    if !ok {
      StatusKept(w', Retrying, RetryLater, e.status);
    } else {
      ClusterAppKept(w', cl, e);
    }
  }

  lemma ClusterAppKept(w: World, cl: Cluster, e: Calls)
    requires Inv(w) && w.cluster == Some(cl) && !cl.deleting && KkarlonAppName(w.name) in w.apps
    ensures Inv(EnsureClusterApp(w, cl, e).0)
  {
    if !e.getClusterApp {
      StatusKept(w, Retrying, RetryLater, e.status);
    } else if w.name in w.apps {
      var app := w.apps[w.name].(annotations := SyncedAnnotations(cl.annotations, w.apps[w.name].annotations));
      PutKept(w, cl, app, e.updateClusterApp);
      var v := if NeedsSync(cl.annotations, w.apps[w.name].annotations)
               then PutApp(w, w.name, app, e.updateClusterApp) else w;
      StatusKept(v, Retrying, RetryLater, e.status);
      StatusKept(v, Created, Done, e.status);
    } else {
      var app := ConstructClusterApp(w.name, cl.status.innerName, SourceRepo(cl.spec), cl.spec.override.Some?);
      PutKept(w, cl, app, e.createClusterApp);
      var v := PutApp(w, w.name, app, e.createClusterApp);
      StatusKept(v, Retrying, RetryLater, e.status);
      StatusKept(v, Created, Done, e.status);
    }
  }

  lemma PutKept(w: World, cl: Cluster, app: App, reply: Reply)
    requires Inv(w) && w.cluster == Some(cl) && !cl.deleting && KkarlonAppName(w.name) in w.apps && !app.deleting
    requires app.source == match cl.spec.override
                           case Some(o) => o.repo.(path := o.repo.path + "/" + w.name)
                           case None => cl.spec.template
    ensures Inv(PutApp(w, w.name, app, reply))
  {
  }

  lemma DeleteKept(w: World, cl: Cluster, e: Calls)
    requires Inv(w) && w.cluster == Some(cl) && cl.deleting
    ensures Inv(ReconcileDelete(w, cl, e).0)
  {
    var k := KkarlonAppName(w.name);
    if w.name in w.apps {
      if OverrideRecorded(cl) {
        assert Inv(RemoveOverride(w, w.apps[w.name], e).0);
      } else {
        assert Inv(RequestDelete(w, w.name, e.deleteClusterApp));
      }
    } else if k in w.apps {
      assert Inv(RequestDelete(w, k, e.deleteKkarlonApp));
    }
  }

  lemma PassKept(w: World, e: Calls)
    requires Inv(w)
    ensures Inv(Reconcile(w, e).0)
  {
    if w.cluster.Some? {
      var cl := w.cluster.value;
      StatusKept(w, Retrying, RetryLater, e.status);
      if cl.deleting {
        DeleteKept(w, cl, e);
      } else if cl.finalizer && cl.status.innerName != ""
                && (cl.spec.override.Some? ==> cl.status.overrideSuccessful) {
        DeployKept(w, cl, e);
      }
    }
  }

  lemma InvKept(w: World, a: Action)
    requires Inv(w)
    ensures Inv(Act(w, a)) && Act(w, a).name == w.name
  {
    if a.Pass? {
      PassKept(w, a.calls);
    }
  }

  lemma {:induction false} RunInv(w: World, actions: seq<Action>)
    requires Initial(w)
    ensures Inv(Play(w, actions)) && Play(w, actions).name == w.name
  {
    if actions != [] {
      var front := actions[..|actions| - 1];
      RunInv(w, front);
      InvKept(Play(w, front), actions[|actions| - 1]);
    }
  }

  // ---------------------------------------------------------------- safety over whole runs

  /**
     In every reachable state a cluster app comes with a live kkarlon app, and either app comes
     with a Cluster resource that still carries its finalizer.
   */
  lemma RunSafety(w0: World, actions: seq<Action>)
    requires Initial(w0)
    ensures var w := Play(w0, actions);
            && (w.name in w.apps ==>
                  KkarlonAppName(w.name) in w.apps && !w.apps[KkarlonAppName(w.name)].deleting)
            && (w.name in w.apps || KkarlonAppName(w.name) in w.apps ==>
                  w.cluster.Some? && w.cluster.value.finalizer)
  {
    RunInv(w0, actions);
  }

  /** In every run the existence check in Create passes: creation only fails with a failing call. */
  lemma CreateNeverBlocked(w0: World, actions: seq<Action>, e: Calls)
    requires Initial(w0)
    requires e.getKkarlonApp && e.createCheck && e.createKkarlonApp.Applied?
    ensures var w := Play(w0, actions);
            w.cluster.Some? ==>
              var (w', ok) := EnsureKkarlonApp(w, w.cluster.value, e);
              ok && KkarlonAppName(w.name) in w'.apps
  {
    RunInv(w0, actions);
  }

  predicate Live(w: World, app: string) {
    app in w.apps && !w.apps[app].deleting
  }

  predicate PendingDelete(w: World, app: string) {
    app in w.apps && w.apps[app].deleting
  }

  /** What one step may do, given what was persisted before it. */
  ghost predicate Ordered(w: World, w': World) {
    var clusterApp, kkarlonApp := w.name, KkarlonAppName(w.name);
    // The cluster app is created only after the inner name and the override flag are persisted.
    && (clusterApp !in w.apps && clusterApp in w'.apps ==>
          && w.cluster.Some? && w.cluster.value.finalizer && !w.cluster.value.deleting
          && w.cluster.value.status.innerName != ""
          && (w.cluster.value.spec.override.Some? ==> w.cluster.value.status.overrideSuccessful))
    // Its deletion is requested only after the override flag is persisted false.
    && (Live(w, clusterApp) && PendingDelete(w', clusterApp) ==>
          w.cluster.Some? && w.cluster.value.deleting && !OverrideRecorded(w.cluster.value))
    // The flag is cleared only once the directory the cluster app records has been removed.
    && (w.cluster.Some? && w'.cluster.Some?
        && OverrideRecorded(w.cluster.value) && !OverrideRecorded(w'.cluster.value) ==>
          && clusterApp in w.apps
          && Found(w.git, RecordedDir(w.name, w.apps[clusterApp]))
          && !Found(w'.git, RecordedDir(w.name, w.apps[clusterApp])))
    // The kkarlon app is deleted only once the cluster app is gone, the finalizer after both.
    && (Live(w, kkarlonApp) && PendingDelete(w', kkarlonApp) ==>
          clusterApp !in w.apps && w.cluster.Some? && w.cluster.value.deleting)
    && (w.cluster.Some? && w.cluster.value.finalizer && w'.cluster.None? ==>
          clusterApp !in w.apps && kkarlonApp !in w.apps)
    // An app goes away only by a deletion that was requested before.
    && (clusterApp in w.apps && clusterApp !in w'.apps ==> PendingDelete(w, clusterApp))
    && (kkarlonApp in w.apps && kkarlonApp !in w'.apps ==> PendingDelete(w, kkarlonApp))
  }

  lemma DeployOrdered(w: World, cl: Cluster, e: Calls)
    requires Inv(w) && w.cluster == Some(cl) && !cl.deleting && cl.finalizer && cl.status.innerName != ""
    requires cl.spec.override.Some? ==> cl.status.overrideSuccessful
    ensures Ordered(w, Deploy(w, cl, e).0)
  {
    var (v, ok) := EnsureKkarlonApp(w, cl, e);
    assert forall app | app in w.apps :: app in v.apps && v.apps[app] == w.apps[app];
  }

  lemma DeleteOrdered(w: World, cl: Cluster, e: Calls)
    requires Inv(w) && w.cluster == Some(cl) && cl.deleting
    ensures Ordered(w, ReconcileDelete(w, cl, e).0)
  {
  }

  lemma StepOrdered(w: World, a: Action)
    requires Inv(w)
    ensures Ordered(w, Act(w, a))
  {
    if a.Pass? && w.cluster.Some? {
      var cl := w.cluster.value;
      if cl.deleting {
        DeleteOrdered(w, cl, a.calls);
      } else if cl.finalizer && cl.status.innerName != ""
                && (cl.spec.override.Some? ==> cl.status.overrideSuccessful) {
        DeployOrdered(w, cl, a.calls);
      }
    }
  }

  /** The order of creation and teardown holds at every step of every run. */
  lemma RunOrdering(w0: World, actions: seq<Action>, next: Action)
    requires Initial(w0)
    ensures Ordered(Play(w0, actions), Act(Play(w0, actions), next))
  {
    RunInv(w0, actions);
    StepOrdered(Play(w0, actions), next);
  }
}

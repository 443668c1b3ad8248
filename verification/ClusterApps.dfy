/** What the two applications of a cluster look like: where they take their manifests from, and what they record. */
module ClusterApps {
  import opened Text
  import opened Remote
  import Paths
  import opened ClusterController
  import opened ClusterRuns
  import opened ClusterProgress

  /**
     In every reachable state with a cluster app: with an override, the app takes its manifests from the
     override's branch, in the base path followed by a slash and the name; without one, from the template.
   */
  lemma RunSources(w0: World, actions: seq<Action>)
    requires Initial(w0)
    ensures var w := Play(w0, actions);
            w.name in w.apps ==>
              && w.cluster.Some?
              && var source := w.apps[w.name].source;
                 match w.cluster.value.spec.override
                 case Some(o) =>
                   source.url == o.repo.url && source.revision == o.repo.revision
                   && source.path == o.repo.path + "/" + w.name
                 case None => source == w.cluster.value.spec.template
    ensures var w := Play(w0, actions);
            KkarlonAppName(w.name) in w.apps ==>
              && w.cluster.Some?
              && var source := w.apps[KkarlonAppName(w.name)].source;
                 match w.cluster.value.spec.chart
                 case Some(chart) => source == chart
                 case None => source.url == "https://github.com/kkarlonproj/kkarlon.git"
                              && source.path == "pkg/cluster/manifests" && source.revision == "v0.10.0"
  {
    RunInv(w0, actions);
  }

  /** The directory an application takes its manifests from. */
  function SourceDir(app: App): Dir {
    Dir(app.source.url, app.source.revision, Paths.PlaceOf(app.source.path))
  }

  /** With a base path, the app of an overridden cluster points to the directory the override is written to. */
  lemma SourceIsWritten(w0: World, actions: seq<Action>)
    requires Initial(w0) && '/' !in w0.name
    ensures var w := Play(w0, actions);
            w.name in w.apps && w.cluster.Some? && w.cluster.value.spec.override.Some? ==>
              var o := w.cluster.value.spec.override.value;
              o.repo.path != "" ==> SourceDir(w.apps[w.name]) == WrittenDir(w.name, o)
  {
    RunInv(w0, actions);
    var w := Play(w0, actions);
    if w.name in w.apps && w.cluster.value.spec.override.Some? {
      var o := w.cluster.value.spec.override.value;
      RunSources(w0, actions);
      if o.repo.path != "" {
        Paths.OverridePathsAgree(o.repo.path, w.name);
        Paths.CleanPlace(o.repo.path + "/" + w.name, Paths.ClusterPath(o.repo.path, w.name));
      }
    }
  }

  /** In a careful run that directory is there as long as the override is recorded. */
  lemma SourceIsThere(w0: World, actions: seq<Action>)
    requires Initial(w0) && '/' !in w0.name && AllCareful(w0, actions)
    ensures var w := Play(w0, actions);
            Pending(w) ==> Found(w.git, SourceDir(w.apps[w.name]))
  {
    CarefulNeverStuck(w0, actions);
    RunInv(w0, actions);
    SourceIsWritten(w0, actions);
  }

  /** A cluster app that comes into being records the template's cluster name and where its manifests are kept. */
  lemma CreatedRecord(w: World, a: Action)
    requires Inv(w) && w.name !in w.apps && w.name in Act(w, a).apps
    ensures var app, cl := Act(w, a).apps[w.name], w.cluster.value;
            var repo := match cl.spec.override case Some(o) => o.repo case None => cl.spec.template;
            && !app.deleting && app.annotations.Some?
            && app.annotations.value.Keys == {NAME_ANNOTATION, URL_ANNOTATION, REVISION_ANNOTATION,
                                              PATH_ANNOTATION, OVERRIDDEN_ANNOTATION}
            && app.annotations.value[NAME_ANNOTATION] == cl.status.innerName
            && app.annotations.value[URL_ANNOTATION] == repo.url
            && app.annotations.value[REVISION_ANNOTATION] == repo.revision
            && app.annotations.value[PATH_ANNOTATION] == repo.path
            && app.annotations.value[OVERRIDDEN_ANNOTATION] == if cl.spec.override.Some? then "true" else "false"
  {
    CreatedIs(w, a);
    DistinctAnnotations();
  }

  lemma CreatedIs(w: World, a: Action)
    requires Inv(w) && w.name !in w.apps && w.name in Act(w, a).apps
    ensures w.cluster.Some?
    ensures var cl := w.cluster.value;
            Act(w, a).apps[w.name]
            == ConstructClusterApp(w.name, cl.status.innerName, SourceRepo(cl.spec), cl.spec.override.Some?)
  {
  }

  /** A kkarlon app that comes into being has no specification, and no profile of its own. */
  lemma CreatedKkarlonRecord(w: World, a: Action)
    requires Inv(w) && KkarlonAppName(w.name) !in w.apps && KkarlonAppName(w.name) in Act(w, a).apps
    ensures var app := Act(w, a).apps[KkarlonAppName(w.name)];
            && !app.deleting && app.annotations.Some?
            && app.annotations.value.Keys == {CLUSTERSPEC_ANNOTATION, PROFILE_ANNOTATION}
            && app.annotations.value[CLUSTERSPEC_ANNOTATION] == ""
            && app.annotations.value[PROFILE_ANNOTATION] == "no-profile-for-gen2"
  {
    CreatedKkarlonIs(w, a);
    assert |CLUSTERSPEC_ANNOTATION| == 22 && |PROFILE_ANNOTATION| == 18;
  }

  lemma CreatedKkarlonIs(w: World, a: Action)
    requires Inv(w) && KkarlonAppName(w.name) !in w.apps && KkarlonAppName(w.name) in Act(w, a).apps
    ensures w.cluster.Some? && Act(w, a).apps[KkarlonAppName(w.name)] == ConstructKkarlonApp(w.cluster.value.spec)
  {
  }

  lemma DistinctAnnotations()
    ensures NAME_ANNOTATION != URL_ANNOTATION && NAME_ANNOTATION != REVISION_ANNOTATION
    ensures NAME_ANNOTATION != PATH_ANNOTATION && NAME_ANNOTATION != OVERRIDDEN_ANNOTATION
    ensures URL_ANNOTATION != REVISION_ANNOTATION && URL_ANNOTATION != PATH_ANNOTATION
    ensures URL_ANNOTATION != OVERRIDDEN_ANNOTATION && REVISION_ANNOTATION != PATH_ANNOTATION
    ensures REVISION_ANNOTATION != OVERRIDDEN_ANNOTATION && PATH_ANNOTATION != OVERRIDDEN_ANNOTATION
  {
    assert |NAME_ANNOTATION| == 27 && |URL_ANNOTATION| == 31 && |REVISION_ANNOTATION| == 36;
    assert |PATH_ANNOTATION| == 32 && |OVERRIDDEN_ANNOTATION| == 33;
  }

  /** The inner name is one a validation of the template has answered with. */
  lemma {:induction false} InnerNameValidated(w0: World, actions: seq<Action>)
    requires Initial(w0)
    ensures var w := Play(w0, actions);
            w.cluster.Some? && w.cluster.value.status.innerName != "" ==>
              exists i :: 0 <= i < |actions| && actions[i].Pass?
                          && actions[i].calls.template == Some(w.cluster.value.status.innerName)
  {
    if actions != [] {
      var front, last := actions[..|actions| - 1], actions[|actions| - 1];
      InnerNameValidated(w0, front);
      RunInv(w0, front);
      InnerNameStep(Play(w0, front), last);
      assert forall i | 0 <= i < |front| :: front[i] == actions[i];
      assert actions[|actions| - 1] == last;
    }
  }

  lemma InnerNameStep(w: World, a: Action)
    requires Inv(w)
    ensures var after := Act(w, a).cluster;
            after.Some? && after.value.status.innerName != "" ==>
              || (w.cluster.Some? && w.cluster.value.status.innerName == after.value.status.innerName)
              || (a.Pass? && a.calls.template == Some(after.value.status.innerName))
  {
    if a.Pass? && w.cluster.Some? {
      var cl, e := w.cluster.value, a.calls;
      if cl.deleting {
        DeleteKeepsName(w, cl, e);
      } else if cl.finalizer && cl.status.innerName != ""
                && (cl.spec.override.Some? ==> cl.status.overrideSuccessful) {
        DeployKeepsName(w, cl, e);
      }
    }
  }

  lemma DeployKeepsName(w: World, cl: Cluster, e: Calls)
    requires w.cluster == Some(cl)
    ensures var after := Deploy(w, cl, e).0.cluster; after.Some? && after.value.status.innerName == cl.status.innerName
  {
    var (v, ok) := EnsureKkarlonApp(w, cl, e);
    if ok {
      ClusterAppKeepsName(v, cl, e);
    }
  }

  lemma ClusterAppKeepsName(w: World, cl: Cluster, e: Calls)
    requires w.cluster == Some(cl)
    ensures var after := EnsureClusterApp(w, cl, e).0.cluster;
            after.Some? && after.value.status.innerName == cl.status.innerName
  {
  }

  lemma DeleteKeepsName(w: World, cl: Cluster, e: Calls)
    requires w.cluster == Some(cl)
    ensures var after := ReconcileDelete(w, cl, e).0.cluster;
            after.Some? ==> after.value.status.innerName == cl.status.innerName
  {
  }

  /** What the state a pass leaves says about the world. */
  lemma StateTells(w: World, e: Calls)
    requires Inv(w) && Reconcile(w, e).0.cluster.Some? && Reconcile(w, e).0.cluster != w.cluster
    ensures var v, outcome := Reconcile(w, e).0, Reconcile(w, e).1;
            var cl, before := v.cluster.value, w.cluster.value;
            cl.status != before.status ==>
              match cl.status.state
              case Unprocessed => false
              case TemplateValidated => e.template == Some(cl.status.innerName)
              case OverrideCreated =>
                cl.spec.override.Some? && cl.status.overrideSuccessful && InGit(w.name, cl.spec, v.git)
              case Created => Live(v, w.name) && Live(v, KkarlonAppName(w.name))
              case OverrideDeleted =>
                before.status.overrideSuccessful && !cl.status.overrideSuccessful && w.name in w.apps
                && !Found(v.git, RecordedDir(w.name, w.apps[w.name]))
              case DeletingClusterApp => PendingDelete(v, w.name)
              case DeletingKkarlonApp => w.name !in v.apps && PendingDelete(v, KkarlonAppName(w.name))
              case Retrying => !before.deleting || !e.appClient
              case _ => before.deleting
    ensures var v := Reconcile(w, e).0;
            v.cluster.value.status != w.cluster.value.status && Reconcile(w, e).1 != Failed ==>
              (Reconcile(w, e).1 == RetryLater <==>
                 v.cluster.value.status.state in {Retrying, ErrorDeletingOverride, ErrorDeletingClusterApp,
                                                  ErrorDeletingKkarlonApp, DeleteRetrying})
  {
    var cl := w.cluster.value;
    if e.getCluster && e.patchHelper && e.appClient {
      if cl.deleting {
        DeleteStateTells(w, cl, e);
      } else if cl.finalizer && cl.status.innerName != "" {
        if cl.spec.override.Some? && !cl.status.overrideSuccessful {
          WriteStateTells(w, cl, e);
        } else {
          DeployStateTells(w, cl, e);
        }
      }
    }
  }

  lemma WriteStateTells(w: World, cl: Cluster, e: Calls)
    requires w.cluster == Some(cl) && cl.spec.override.Some? && !cl.status.overrideSuccessful
    ensures var (v, outcome) := CreateOverride(w, cl, cl.spec.override.value, e);
            && v.cluster.Some? && v.cluster.value.spec == cl.spec
            && (v.cluster.value.status != cl.status ==>
                  match v.cluster.value.status.state
                  case OverrideCreated =>
                    v.cluster.value.status.overrideSuccessful && InGit(w.name, cl.spec, v.git) && outcome != RetryLater
                  case Retrying => outcome != Done
                  case _ => false)
  {
    RegeneratedUpToDate(w.git, WrittenDir(w.name, cl.spec.override.value),
                        Content(cl.spec.override.value.patch, cl.spec.template));
  }

  lemma DeployStateTells(w: World, cl: Cluster, e: Calls)
    requires Inv(w) && w.cluster == Some(cl) && !cl.deleting && cl.finalizer && cl.status.innerName != ""
    requires cl.spec.override.Some? ==> cl.status.overrideSuccessful
    ensures var (v, outcome) := Deploy(w, cl, e);
            && v.cluster.Some?
            && (v.cluster.value.status != cl.status ==>
                  && v.cluster.value.status.state in {Retrying, Created}
                  && (v.cluster.value.status.state == Created ==>
                        Live(v, w.name) && Live(v, KkarlonAppName(w.name)) && outcome != RetryLater)
                  && (v.cluster.value.status.state == Retrying ==> outcome != Done))
  {
    var (v, ok) := EnsureKkarlonApp(w, cl, e);
    EnsureKept(w, cl, e);
    assert w.name in v.apps <==> w.name in w.apps;
  }

  lemma DeleteStateTells(w: World, cl: Cluster, e: Calls)
    requires Inv(w) && w.cluster == Some(cl) && cl.deleting && ReconcileDelete(w, cl, e).0.cluster.Some?
    ensures var (v, outcome) := ReconcileDelete(w, cl, e);
            var after := v.cluster.value.status;
            after != cl.status ==>
              match after.state
              case OverrideDeleted =>
                cl.status.overrideSuccessful && !after.overrideSuccessful && w.name in w.apps
                && !Found(v.git, RecordedDir(w.name, w.apps[w.name])) && outcome != RetryLater
              case DeletingClusterApp => PendingDelete(v, w.name) && outcome != RetryLater
              case DeletingKkarlonApp =>
                w.name !in v.apps && PendingDelete(v, KkarlonAppName(w.name)) && outcome != RetryLater
              case ErrorDeletingOverride => outcome != Done
              case ErrorDeletingClusterApp => outcome != Done
              case ErrorDeletingKkarlonApp => outcome != Done
              case DeleteRetrying => outcome != Done
              case _ => false
  {
  }
}

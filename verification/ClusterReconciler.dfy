/** The cluster controller's pass, written on the objects it changes. */
module ClusterReconciler {
  import opened Text
  import opened Remote
  import AppProfiles
  import opened ClusterController

  class Reconciler {
    const name: string
    var cluster: Option<Cluster>
    var apps: map<string, App>
    var git: Git

    ghost function Store(): World
      reads this
    {
      World(name, cluster, apps, git)
    }

    constructor (w: World)
      ensures Store() == w
    {
      name, cluster, apps, git := w.name, w.cluster, w.apps, w.git;
    }

    /** Record the state in the local copy, then write the copy's status back. */
    method UpdateState(cr: Cluster, state: State, result: Outcome, reply: Reply) returns (r: Outcome)
      requires cluster.Some?
      modifies this`cluster
      ensures (Store(), r) == WriteStatus(old(Store()), cr.status.(state := state), result, reply)
    {
      if reply != Refused {
        cluster := Some(cluster.value.(status := cr.status.(state := state)));
      }
      if reply != Applied {
        return Failed;
      }
      return result;
    }

    method CreateApp(appName: string, app: App, reply: Reply) returns (ok: bool)
      modifies this`apps
      ensures Store() == PutApp(old(Store()), appName, app, reply) && ok == reply.Applied?
    {
      if reply != Refused {
        apps := apps[appName := app];
      }
      return reply == Applied;
    }

    /** Generate the override directory in a clone, then commit and push. */
    method CreatePatchDir(o: OverrideSpec, base: RepoSpec, reply: Reply, idlePush: bool) returns (ok: bool)
      modifies this`git
      ensures git == if reply.Refused? then old(git)
                     else Without(old(git), WrittenDir(name, o))[WrittenDir(name, o) := Content(o.patch, base)]
      ensures ok <==> reply.Applied? && (UpToDate(old(git), WrittenDir(name, o), Content(o.patch, base)) ==> idlePush)
    {
      var clusterDir := WrittenDir(name, o);
      UpToDateIff(git, clusterDir, Content(o.patch, base));
      var clone := git;
      // What was there before goes, with everything below it; the directory is generated from scratch.
      if Found(clone, clusterDir) {
        clone := Without(clone, clusterDir);
      }
      clone := clone[clusterDir := Content(o.patch, base)];
      if clone == git && !idlePush {
        return false;
      }
      if reply != Refused {
        git := clone;
      }
      return reply == Applied;
    }

    method DeleteOverridesDir(app: App, e: Calls) returns (ok: bool)
      modifies this`git
      ensures (Store(), ok) == RemoveOverride(old(Store()), app, e)
    {
      if !e.kubeClient {
        return false;
      }
      var dir := RecordedDir(name, app);
      if !Found(git, dir) {
        return false;
      }
      if e.removeDir != Refused {
        git := Without(git, dir);
      }
      return e.removeDir == Applied;
    }

    /** cluster.Create for a gen2 cluster: nothing may exist under the cluster's own name. */
    method Create(cl: Cluster, e: Calls) returns (ok: bool)
      requires e.getKkarlonApp && KkarlonAppName(name) !in apps
      modifies this`apps
      ensures (Store(), ok) == EnsureKkarlonApp(old(Store()), cl, e)
    {
      if !e.createCheck {
        return false;
      }
      if name in apps {
        return false;
      }
      ok := CreateApp(KkarlonAppName(name), ConstructKkarlonApp(cl.spec), e.createKkarlonApp);
    }

    method Reconcile(e: Calls) returns (r: Outcome)
      modifies this`cluster, this`apps, this`git
      ensures (Store(), r) == ClusterController.Reconcile(old(Store()), e)
    {
      if !e.getCluster {
        return Requeue;
      }
      if cluster == None {
        return Done;
      }
      var cl := cluster.value;
      if !e.patchHelper {
        return Requeue;
      }
      if !e.appClient {
        r := UpdateState(cl, Retrying, RetryLater, e.status);
        return;
      }
      if cl.deleting {
        r := ReconcileDelete(cl, e);
        return;
      }
      if !cl.finalizer {
        cl := cl.(finalizer := true);
        if e.finalizer != Refused {
          cluster := Some(cl);
        }
        return if e.finalizer == Applied then Done else Failed;
      }
      var repo := cl.spec.template;
      if cl.status.innerName == "" {
        if e.template == None {
          r := UpdateState(cl, Retrying, RetryLater, e.status);
          return;
        }
        cl := cl.(status := cl.status.(innerName := e.template.value));
        r := UpdateState(cl, TemplateValidated, Done, e.status);
        return;
      }
      var overridden := cl.spec.override != None;
      if overridden {
        var ovr := cl.spec.override.value;
        if !cl.status.overrideSuccessful {
          var pushed := CreatePatchDir(ovr, cl.spec.template, e.patchDir, e.idlePush);
          if !pushed {
            r := UpdateState(cl, Retrying, RetryLater, e.status);
            return;
          }
          cl := cl.(status := cl.status.(overrideSuccessful := true));
          r := UpdateState(cl, OverrideCreated, Done, e.status);
          return;
        }
        // From here on the manifests come from the override.
        repo := ovr.repo;
      }
      if !e.getKkarlonApp {
        r := UpdateState(cl, Retrying, RetryLater, e.status);
        return;
      }
      if KkarlonAppName(name) !in apps {
        var created := Create(cl, e);
        if !created {
          r := UpdateState(cl, Retrying, RetryLater, e.status);
          return;
        }
      }
      if !e.getClusterApp {
        r := UpdateState(cl, Retrying, RetryLater, e.status);
        return;
      }
      if name !in apps {
        var created := CreateApp(name, ConstructClusterApp(name, cl.status.innerName, repo, overridden),
                                 e.createClusterApp);
        r := UpdateState(cl, if created then Created else Retrying, if created then Done else RetryLater, e.status);
        return;
      }
      r := SyncProfileAnnotation(cl, e);
    }

    /** Bring the profile annotation of the cluster app in line with the Cluster resource. */
    method SyncProfileAnnotation(cl: Cluster, e: Calls) returns (r: Outcome)
      requires cluster.Some? && name in apps
      modifies this`cluster, this`apps
      ensures (Store(), r) == SyncAnnotations(old(Store()), cl, e)
    {
      var app := apps[name];
      var sync := false;
      var wanted := Annotation(cl.annotations, AppProfiles.PROFILES_KEY);
      if cl.annotations != None
         && (app.annotations == None || wanted != Annotation(app.annotations, AppProfiles.PROFILES_KEY)) {
        if app.annotations == None {
          app := app.(annotations := Some(map[]));
        }
        app := app.(annotations := Some(app.annotations.value[AppProfiles.PROFILES_KEY := wanted]));
        sync := true;
      } else if cl.annotations == None && app.annotations != None {
        app := app.(annotations := None);
        sync := true;
      }
      if sync {
        var updated := CreateApp(name, app, e.updateClusterApp);
        if !updated {
          r := UpdateState(cl, Retrying, RetryLater, e.status);
          return;
        }
      }
      if cl.status.state != Created {
        r := UpdateState(cl, Created, Done, e.status);
        return;
      }
      return Done;
    }

    method ReconcileDelete(cr: Cluster, e: Calls) returns (r: Outcome)
      requires cluster.Some?
      modifies this`cluster, this`apps, this`git
      ensures (Store(), r) == ClusterController.ReconcileDelete(old(Store()), cr, e)
    {
      if !e.getClusterApp {
        r := UpdateState(cr, DeleteRetrying, RetryLater, e.status);
        return;
      }
      if name in apps {
        var clusterApp := apps[name];
        if cr.spec.override != None && cr.status.overrideSuccessful {
          var removed := DeleteOverridesDir(clusterApp, e);
          if !removed {
            r := UpdateState(cr, ErrorDeletingOverride, RetryLater, e.status);
            return;
          }
          var flipped := cr.(status := cr.status.(overrideSuccessful := false));
          r := UpdateState(flipped, OverrideDeleted, Done, e.status);
          return;
        }
        if clusterApp.deleting {
          return RetryLater;
        }
        var requested := RequestDeletion(name, e.deleteClusterApp);
        r := UpdateState(cr, if requested then DeletingClusterApp else ErrorDeletingClusterApp,
                         if requested then Done else RetryLater, e.status);
        return;
      }
      if !e.getKkarlonApp {
        r := UpdateState(cr, DeleteRetrying, RetryLater, e.status);
        return;
      }
      var kkarlonApp := KkarlonAppName(name);
      if kkarlonApp in apps {
        if apps[kkarlonApp].deleting {
          return RetryLater;
        }
        var requested := RequestDeletion(kkarlonApp, e.deleteKkarlonApp);
        r := UpdateState(cr, if requested then DeletingKkarlonApp else ErrorDeletingKkarlonApp,
                         if requested then Done else RetryLater, e.status);
        return;
      }
      if e.finalizer != Refused {
        cluster := None;
      }
      return if e.finalizer == Applied then Done else Failed;
    }

    method RequestDeletion(appName: string, reply: Reply) returns (ok: bool)
      requires appName in apps
      modifies this`apps
      ensures Store() == RequestDelete(old(Store()), appName, reply) && ok == reply.Applied?
    {
      ok := CreateApp(appName, apps[appName].(deleting := true), reply);
    }
  }
}

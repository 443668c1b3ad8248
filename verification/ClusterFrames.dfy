/**
 What a cluster leaves alone, and what it leaves behind: the frame of a pass, overrides of other
 clusters that lie below this one's, and override directories that outlive their cluster.
 */
module ClusterFrames {
  import opened Text
  import opened Remote
  import Paths
  import opened ClusterController
  import opened ClusterRuns
  import opened ClusterProgress

  // ---------------------------------------------------------------- applications

  function OwnApps(w: World): set<string> {
    {w.name, KkarlonAppName(w.name)}
  }

  ghost predicate SameApps(w: World, w': World) {
    w'.name == w.name && w'.apps - OwnApps(w) == w.apps - OwnApps(w)
  }

  lemma PutOwnApp(w: World, name: string, app: App, reply: Reply)
    requires name in OwnApps(w)
    ensures SameApps(w, PutApp(w, name, app, reply))
  {
    var put := w.apps[name := app];
    assert put - OwnApps(w) == w.apps - OwnApps(w);
  }

  lemma DeployFrame(w: World, cl: Cluster, e: Calls)
    requires w.cluster.Some?
    ensures SameApps(w, Deploy(w, cl, e).0) && Deploy(w, cl, e).0.git == w.git
  {
    var (v, ok) := EnsureKkarlonApp(w, cl, e);
    PutOwnApp(w, KkarlonAppName(w.name), ConstructKkarlonApp(cl.spec), e.createKkarlonApp);
    if ok && v.name in v.apps {
      var app := v.apps[v.name];
      PutOwnApp(v, v.name, app.(annotations := SyncedAnnotations(cl.annotations, app.annotations)), e.updateClusterApp);
    } else {
      var app := ConstructClusterApp(v.name, cl.status.innerName, SourceRepo(cl.spec), cl.spec.override.Some?);
      PutOwnApp(v, v.name, app, e.createClusterApp);
    }
  }

  lemma DeleteFrame(w: World, cl: Cluster, e: Calls)
    requires w.cluster == Some(cl)
    ensures SameApps(w, ReconcileDelete(w, cl, e).0)
  {
    if w.name in w.apps {
      PutOwnApp(w, w.name, w.apps[w.name].(deleting := true), e.deleteClusterApp);
    } else if KkarlonAppName(w.name) in w.apps {
      PutOwnApp(w, KkarlonAppName(w.name), w.apps[KkarlonAppName(w.name)].(deleting := true), e.deleteKkarlonApp);
    }
  }

  // ---------------------------------------------------------------- git directories

  /** The directory the override is written to, and the one the cluster app records. */
  function OwnDirs(w: World): set<Dir> {
    (if w.cluster.Some? && w.cluster.value.spec.override.Some?
     then {WrittenDir(w.name, w.cluster.value.spec.override.value)} else {})
    + (if w.name in w.apps then {RecordedDir(w.name, w.apps[w.name])} else {})
  }

  /** What is neither in nor below any of the directories. */
  function Outside(git: Git, dirs: set<Dir>): Git {
    map d | d in git && (forall dir | dir in dirs :: !Under(d, dir)) :: git[d]
  }

  /** The directory a pass removes or writes anew, if it gets that far. */
  function Cleared(w: World, e: Calls): Option<Dir> {
    if w.cluster.None? || !e.getCluster || !e.patchHelper || !e.appClient then None
    else
      var cl := w.cluster.value;
      if cl.deleting then
        if e.getClusterApp && Pending(w) && e.kubeClient && Found(w.git, RecordedDir(w.name, w.apps[w.name]))
           && !e.removeDir.Refused?
        then Some(RecordedDir(w.name, w.apps[w.name])) else None
      else if cl.finalizer && cl.status.innerName != "" && cl.spec.override.Some? && !cl.status.overrideSuccessful
              && !e.patchDir.Refused?
      then Some(WrittenDir(w.name, cl.spec.override.value)) else None
  }

  /** What a pass does to git, all of it. */
  function GitAfter(w: World, e: Calls): Git {
    match Cleared(w, e)
    case None => w.git
    case Some(dir) =>
      var cl := w.cluster.value;
      if cl.deleting then Without(w.git, dir)
      else Without(w.git, dir)[dir := Content(cl.spec.override.value.patch, cl.spec.template)]
  }

  lemma PassGit(w: World, e: Calls)
    ensures Reconcile(w, e).0.git == GitAfter(w, e)
    ensures Cleared(w, e).Some? ==> Cleared(w, e).value in OwnDirs(w)
  {
    if w.cluster.Some? {
      var cl := w.cluster.value;
      if !cl.deleting && cl.finalizer && cl.status.innerName != ""
         && (cl.spec.override.Some? ==> cl.status.overrideSuccessful) {
        DeployFrame(w, cl, e);
      }
    }
  }

  /** A pass changes no other application and nothing in git that is not in or below its own directories. */
  lemma PassFrame(w: World, e: Calls)
    ensures SameApps(w, Reconcile(w, e).0)
    ensures Outside(Reconcile(w, e).0.git, OwnDirs(w)) == Outside(w.git, OwnDirs(w))
  {
    PassGit(w, e);
    OutsideKept(w, e);
    if w.cluster.Some? {
      var cl := w.cluster.value;
      if cl.deleting {
        DeleteFrame(w, cl, e);
      } else if cl.finalizer && cl.status.innerName != ""
                && (cl.spec.override.Some? ==> cl.status.overrideSuccessful) {
        DeployFrame(w, cl, e);
      }
    }
  }

  lemma OutsideKept(w: World, e: Calls)
    requires Cleared(w, e).Some? ==> Cleared(w, e).value in OwnDirs(w)
    ensures Outside(GitAfter(w, e), OwnDirs(w)) == Outside(w.git, OwnDirs(w))
  {
    var dirs := OwnDirs(w);
    if Cleared(w, e).Some? {
      var dir := Cleared(w, e).value;
      assert Under(dir, dir);
      assert forall d | d in w.git && (forall r | r in dirs :: !Under(d, r)) :: !Under(d, dir);
    }
  }

  /**
     A pass touches nothing but its own directories themselves exactly when it clears none, or what
     it clears has no directory of others below it.
   */
  lemma FlatFrameIff(w: World, e: Calls)
    ensures Reconcile(w, e).0.git - OwnDirs(w) == w.git - OwnDirs(w)
       <==> Cleared(w, e).None?
            || forall d | d in w.git && Under(d, Cleared(w, e).value) :: d in OwnDirs(w)
  {
    PassGit(w, e);
    if Cleared(w, e).Some? {
      var cl := w.cluster.value;
      var content := if cl.deleting then None else Some(Content(cl.spec.override.value.patch, cl.spec.template));
      FlatClearIff(w.git, Cleared(w, e).value, content, OwnDirs(w));
    }
  }

  lemma FlatClearIff(git: Git, dir: Dir, content: Option<Content>, own: set<Dir>)
    requires dir in own
    ensures var cleared := Without(git, dir);
            var after := if content.None? then cleared else cleared[dir := content.value];
            (after - own == git - own <==> forall d | d in git && Under(d, dir) :: d in own)
  {
    var cleared := Without(git, dir);
    var after := if content.None? then cleared else cleared[dir := content.value];
    assert forall d | d in after - own :: d in git - own;
    if after - own == git - own {
      forall d | d in git && Under(d, dir)
        ensures d in own
      {
        assert d !in cleared;
        assert d in git - own ==> d in after - own;
      }
    }
  }

  lemma FlatRemovalIff(git: Git, dir: Dir)
    ensures Without(git, dir) == git - {dir} <==> forall d | d in git && Under(d, dir) :: d == dir
  {
    var left, flat := Without(git, dir), git - {dir};
    assert Under(dir, dir);
    if left == flat {
      forall d | d in git && Under(d, dir)
        ensures d == dir
      {
        assert d !in left;
      }
    }
  }

  /** Teardown removes the recorded directory and nothing else exactly when nothing lies below it. */
  lemma FlatTeardownIff(w: World, env: Env)
    requires Inv(w) && Pending(w) && w.cluster.value.deleting && !Stuck(w)
    ensures var dir := RecordedDir(w.name, w.apps[w.name]);
            Drive(w, env, Rank(w)).git == w.git - {dir} <==> forall d | d in w.git && Under(d, dir) :: d == dir
  {
    var dir := RecordedDir(w.name, w.apps[w.name]);
    TeardownCompletes(w, env, Rank(w));
    FlatRemovalIff(w.git, dir);
  }

  // ---------------------------------------------------------------- two clusters

  /**
     Whether the override of `b` lies in or below that of `a`: its base path is at or below `a`'s
     directory, or the two clusters and their base paths are the same. An empty base path is the root.
   */
  lemma OverlapIff(a: string, oa: OverrideSpec, b: string, ob: OverrideSpec)
    requires Paths.Plain(a) && Paths.Plain(b)
    ensures Under(WrittenDir(b, ob), WrittenDir(a, oa))
       <==> && ob.repo.url == oa.repo.url && ob.repo.revision == oa.repo.revision
            && (|| Paths.Below(Paths.PlaceOf(ob.repo.path), WrittenDir(a, oa).place)
                || (a == b && Paths.PlaceOf(ob.repo.path) == Paths.PlaceOf(oa.repo.path)))
  {
    Paths.ChildPlace(oa.repo.path, a);
    Paths.ChildPlace(ob.repo.path, b);
    Paths.BelowChild(Paths.PlaceOf(ob.repo.path), b, Paths.PlaceOf(oa.repo.path), a);
  }

  /** The override of `b` is kept at or below the directory of `a`'s. */
  predicate Nested(a: string, oa: OverrideSpec, ob: OverrideSpec) {
    && ob.repo.url == oa.repo.url && ob.repo.revision == oa.repo.revision
    && Paths.Below(Paths.PlaceOf(ob.repo.path), WrittenDir(a, oa).place)
  }

  lemma NestedIsBelow(a: string, oa: OverrideSpec, b: string, ob: OverrideSpec)
    requires Paths.Plain(a) && Paths.Plain(b) && Nested(a, oa, ob)
    ensures Under(WrittenDir(b, ob), WrittenDir(a, oa)) && WrittenDir(b, ob) != WrittenDir(a, oa)
  {
    OverlapIff(a, oa, b, ob);
    Paths.ChildPlace(ob.repo.path, b);
    assert |WrittenDir(b, ob).place.comps| > |WrittenDir(a, oa).place.comps|;
  }

  /**
     Creating or tearing down a cluster deletes the override of another one whose base path is the
     first one's directory: with "x" for cluster "a" and "x/a" for cluster "b", that in "x/a/b", and
     with the root for "a" and "a" for "b", that in "a/b".
   */
  lemma NestedOverrideLost(w: World, e: Calls, o: OverrideSpec, b: string, other: OverrideSpec)
    requires Cleared(w, e) == Some(WrittenDir(w.name, o))
    requires Paths.Plain(w.name) && Paths.Plain(b) && Nested(w.name, o, other)
    ensures WrittenDir(b, other) !in Reconcile(w, e).0.git
  {
    PassGit(w, e);
    NestedIsBelow(w.name, o, b, other);
  }

  /** What the creation of a cluster deletes, without any failing call: all that is below its directory, and no more. */
  lemma CreationLosesIff(w: World, spec: Spec, annotations: Option<map<string, string>>, env: Env, d: Dir)
    requires Initial(w) && env.inner != "" && spec.override.Some? && d in w.git
    ensures var dir := WrittenDir(w.name, spec.override.value);
            (d !in Play(w, Creation(spec, annotations, env)).git <==> Under(d, dir) && d != dir)
  {
    CreationWrites(w, spec, annotations, env);
  }

  /** So it deletes every nested override. */
  lemma NestedOverrideReachable(w: World, spec: Spec, annotations: Option<map<string, string>>, env: Env,
                                b: string, other: OverrideSpec)
    requires Initial(w) && env.inner != "" && spec.override.Some? && WrittenDir(b, other) in w.git
    requires Paths.Plain(w.name) && Paths.Plain(b) && Nested(w.name, spec.override.value, other)
    ensures WrittenDir(b, other) !in Play(w, Creation(spec, annotations, env)).git
  {
    NestedIsBelow(w.name, spec.override.value, b, other);
    CreationLosesIff(w, spec, annotations, env, WrittenDir(b, other));
  }

  /** A new cluster's first steps, up to the one that writes its override. */
  function Creation(spec: Spec, annotations: Option<map<string, string>>, env: Env): seq<Action> {
    [UserCreate(spec, annotations), Pass(AllGood(env)), Pass(AllGood(env)), Pass(AllGood(env))]
  }

  // ---------------------------------------------------------------- what stays behind

  /** The written override is left by teardown exactly unless teardown knows of it, and where it is. */
  lemma OverrideLeftIff(w: World, env: Env)
    requires Inv(w) && w.cluster.Some? && w.cluster.value.deleting && w.cluster.value.spec.override.Some? && !Stuck(w)
    ensures var dir := WrittenDir(w.name, w.cluster.value.spec.override.value);
            (dir in Drive(w, env, Rank(w)).git <==>
             dir in w.git && !(Pending(w) && Under(dir, RecordedDir(w.name, w.apps[w.name]))))
  {
    TeardownCompletes(w, env, Rank(w));
  }

  /** The world once a new cluster's override is written; the record is missing if that changed nothing, and failed. */
  function Written(w: World, spec: Spec, annotations: Option<map<string, string>>, env: Env): World
    requires spec.override.Some?
  {
    var dir := WrittenDir(w.name, spec.override.value);
    var status := if env.idlePush || !InGit(w.name, spec, w.git) then Status(OverrideCreated, env.inner, true)
                  else Status(Retrying, env.inner, false);
    w.(cluster := Some(Cluster(Stored(annotations), false, true, spec, status)),
       git := Without(w.git, dir)[dir := Content(spec.override.value.patch, spec.template)])
  }

  lemma CreationWrites(w: World, spec: Spec, annotations: Option<map<string, string>>, env: Env)
    requires Initial(w) && env.inner != "" && spec.override.Some?
    ensures Play(w, Creation(spec, annotations, env)) == Written(w, spec, annotations, env)
  {
    PlayFour(w, UserCreate(spec, annotations), Pass(AllGood(env)), Pass(AllGood(env)), Pass(AllGood(env)));
    CreationSteps(w, spec, annotations, env);
  }

  lemma PlayFour(w: World, a: Action, b: Action, c: Action, d: Action)
    ensures Play(w, [a, b, c, d]) == Act(Act(Act(Act(w, a), b), c), d)
  {
    PlayTwo(w, [], a, b);
    PlayTwo(w, [a, b], c, d);
    assert [] + [a, b] == [a, b] && [a, b] + [c, d] == [a, b, c, d];
  }

  lemma PlayTwo(w: World, actions: seq<Action>, a: Action, b: Action)
    ensures Play(w, actions + [a, b]) == Act(Act(Play(w, actions), a), b)
  {
    PlayNext(w, actions, a);
    PlayNext(w, actions + [a], b);
    assert actions + [a] + [b] == actions + [a, b];
  }

  lemma CreationSteps(w: World, spec: Spec, annotations: Option<map<string, string>>, env: Env)
    requires Initial(w) && env.inner != "" && spec.override.Some?
    ensures var good := Pass(AllGood(env));
            Act(Act(Act(Act(w, UserCreate(spec, annotations)), good), good), good)
            == Written(w, spec, annotations, env)
  {
    var e := AllGood(env);
    var cl := Cluster(Stored(annotations), false, true, spec, Status(TemplateValidated, env.inner, false));
    var validated := w.(cluster := Some(cl));
    assert Act(Act(Act(w, UserCreate(spec, annotations)), Pass(e)), Pass(e)) == validated;
    assert Reconcile(validated, e).0 == CreateOverride(validated, cl, spec.override.value, e).0;
  }

  /**
     For every override there is a run without any failing call that leaves it in git: the resource is
     deleted after the override is written and before the cluster app is created.
   */
  lemma LeftoverReachable(w: World, spec: Spec, annotations: Option<map<string, string>>, env: Env)
    requires Initial(w) && env.inner != "" && spec.override.Some?
    ensures var v := Play(w, Creation(spec, annotations, env) + [UserDelete] + [Pass(AllGood(env))]);
            && Gone(v) && v.git == Written(w, spec, annotations, env).git
            && WrittenDir(w.name, spec.override.value) in v.git
  {
    CreationWrites(w, spec, annotations, env);
    PlayNext(w, Creation(spec, annotations, env), UserDelete);
    PlayNext(w, Creation(spec, annotations, env) + [UserDelete], Pass(AllGood(env)));
    DeletedEarly(w, spec, annotations, env);
  }

  lemma DeletedEarly(w: World, spec: Spec, annotations: Option<map<string, string>>, env: Env)
    requires Initial(w) && spec.override.Some?
    ensures Act(Act(Written(w, spec, annotations, env), UserDelete), Pass(AllGood(env)))
         == Written(w, spec, annotations, env).(cluster := None)
  {
  }

  /** What is left then blocks the creation of the same cluster again, if unchanged trees are refused. */
  lemma LeftoverBlocks(w: World, spec: Spec, annotations: Option<map<string, string>>, env: Env)
    requires Initial(w) && env.inner != "" && spec.override.Some?
    ensures var v := Play(w, Creation(spec, annotations, env) + [UserDelete] + [Pass(AllGood(env))]);
            var again := Act(v, UserCreate(spec, annotations));
            (exists rounds: nat :: Deployed(Drive(again, env, rounds))) <==> env.idlePush
  {
    LeftoverReachable(w, spec, annotations, env);
    var run := Creation(spec, annotations, env) + [UserDelete] + [Pass(AllGood(env))];
    RunInv(w, run);
    var v := Play(w, run);
    RegeneratedUpToDate(w.git, WrittenDir(w.name, spec.override.value),
                        Content(spec.override.value.patch, spec.template));
    InvKept(v, UserCreate(spec, annotations));
    RepeatsStepIff(v, UserCreate(spec, annotations));
    CreationIff(Act(v, UserCreate(spec, annotations)), env);
  }
}

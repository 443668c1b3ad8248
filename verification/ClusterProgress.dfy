/**
 Progress of one cluster: when every call succeeds and Argo CD finishes pending deletions,
 creation reaches its goal from every reachable state, and teardown does so exactly from the
 states in which the override directory can still be removed.
 */
module ClusterProgress {
  import opened Text
  import opened Remote
  import AppProfiles
  import Paths
  import opened ClusterController
  import opened ClusterRuns

  /** What is open when every call succeeds: the template's cluster name, and how an unchanged git tree is taken. */
  datatype Env = Env(inner: string, idlePush: bool)

  /** The replies of a pass in which every call succeeds. */
  function AllGood(env: Env): Calls {
    Calls(true, true, true, Applied, Some(env.inner), Applied, env.idlePush, true, true, Applied,
          true, Applied, Applied, true, Applied, Applied, Applied, Applied)
  }

  /** The pass can do nothing but wait for Argo CD to finish a deletion. */
  predicate Waiting(w: World) {
    && w.cluster.Some? && w.cluster.value.deleting
    && if w.name in w.apps then w.apps[w.name].deleting && !OverrideRecorded(w.cluster.value)
       else PendingDelete(w, KkarlonAppName(w.name))
  }

  /** Argo CD's step if the controller is waiting for it, a pass otherwise. */
  function NextAction(w: World, env: Env): Action {
    if Waiting(w) then FinishDelete(if w.name in w.apps then w.name else KkarlonAppName(w.name))
    else Pass(AllGood(env))
  }

  function Round(w: World, env: Env): World {
    Act(w, NextAction(w, env))
  }

  function Drive(w: World, env: Env, rounds: nat): World
    decreases rounds
  {
    if rounds == 0 then w else Drive(Round(w, env), env, rounds - 1)
  }

  function AppRank(w: World, app: string): nat {
    if app !in w.apps then 0 else if w.apps[app].deleting then 1 else 2
  }

  /** How far the resource is from its goal: deployed and settled, or gone. */
  function Rank(w: World): nat {
    match w.cluster
    case None => 0
    case Some(cl) =>
      if cl.deleting then
        1 + AppRank(w, w.name) + AppRank(w, KkarlonAppName(w.name))
        + if w.name in w.apps && OverrideRecorded(cl) then 1 else 0
      else
        (if cl.finalizer then 0 else 32)
        + (if cl.status.innerName == "" then 16 else 0)
        + (if cl.spec.override.Some? && !cl.status.overrideSuccessful then 8 else 0)
        + (if w.name in w.apps
           then if NeedsSync(cl.annotations, w.apps[w.name].annotations) then 2 else 0
           else 4)
        + (if cl.status.state == Created then 0 else 1)
  }

  /** Teardown cannot go on: the override is recorded, but its directory cannot be found. */
  predicate Stuck(w: World) {
    && w.cluster.Some? && w.cluster.value.deleting && OverrideRecorded(w.cluster.value)
    && w.name in w.apps
    && !Found(w.git, RecordedDir(w.name, w.apps[w.name]))
  }

  /** The override is in git already, but not recorded: writing it again would change nothing. */
  predicate Repeats(w: World) {
    && w.cluster.Some? && !w.cluster.value.deleting
    && var cl := w.cluster.value;
       cl.spec.override.Some? && !cl.status.overrideSuccessful && InGit(w.name, cl.spec, w.git)
  }

  predicate InGit(clusterName: string, spec: Spec, git: Git)
    requires spec.override.Some?
  {
    UpToDate(git, WrittenDir(clusterName, spec.override.value), Content(spec.override.value.patch, spec.template))
  }

  /** Creation cannot go on: the override is to be written again, and an unchanged tree is refused. */
  predicate Blocked(w: World, env: Env) {
    !env.idlePush && Repeats(w)
  }

  // ---------------------------------------------------------------- every round gets closer

  lemma CreationRound(w: World, env: Env)
    requires Inv(w) && w.cluster.Some? && !w.cluster.value.deleting && env.inner != "" && Rank(w) > 0
    requires !Blocked(w, env)
    ensures var w' := Round(w, env);
            Rank(w') < Rank(w) && w'.cluster.Some? && !w'.cluster.value.deleting && !Blocked(w', env)
  {
    var cl, e := w.cluster.value, AllGood(env);
    if cl.finalizer && cl.status.innerName != "" && (cl.spec.override.Some? ==> cl.status.overrideSuccessful) {
      var (v, ok) := EnsureKkarlonApp(w, cl, e);
      assert ok && v.cluster == w.cluster && v.name == w.name;
      assert w.name in v.apps <==> w.name in w.apps;
      if w.name in w.apps {
        assert v == w;
      }
    }
  }

  lemma TeardownRound(w: World, env: Env)
    requires Inv(w) && w.cluster.Some? && w.cluster.value.deleting && !Stuck(w)
    ensures var w' := Round(w, env);
            && Rank(w') < Rank(w) && !Stuck(w') && (w'.cluster.Some? ==> w'.cluster.value.deleting)
            && GitLeft(w') == GitLeft(w)
  {
  }

  lemma RoundKept(w: World, env: Env)
    requires Inv(w)
    ensures Inv(Round(w, env)) && Round(w, env).name == w.name
  {
    InvKept(w, NextAction(w, env));
  }

  // ---------------------------------------------------------------- creation

  /** Both apps exist, the annotation is in line, and the resource says so. */
  ghost predicate Deployed(w: World) {
    && w.cluster.Some? && !w.cluster.value.deleting
    && w.cluster.value.status.state == Created
    && Live(w, w.name) && Live(w, KkarlonAppName(w.name))
    && !NeedsSync(w.cluster.value.annotations, w.apps[w.name].annotations)
  }

  lemma RankZero(w: World)
    requires Inv(w) && w.cluster.Some? && !w.cluster.value.deleting
    ensures Rank(w) == 0 <==>
              Deployed(w) && w.cluster.value.finalizer && w.cluster.value.status.innerName != ""
              && (w.cluster.value.spec.override.Some? ==> w.cluster.value.status.overrideSuccessful)
  {
  }

  /** Unless it is blocked, creation is complete after at most as many rounds as the rank. */
  lemma {:induction false} CreationCompletes(w: World, env: Env, rounds: nat)
    requires Inv(w) && w.cluster.Some? && !w.cluster.value.deleting && env.inner != ""
    requires rounds >= Rank(w) && !Blocked(w, env)
    ensures Deployed(Drive(w, env, rounds)) && Rank(Drive(w, env, rounds)) == 0
    decreases rounds
  {
    RankZero(w);
    if rounds > 0 {
      RoundKept(w, env);
      if Rank(w) > 0 {
        CreationRound(w, env);
      } else {
        DeployedIsFinal(w, AllGood(env));
        assert Round(w, env) == w;
      }
      CreationCompletes(Round(w, env), env, rounds - 1);
    }
  }

  lemma {:induction false} BlockedDrive(w: World, env: Env, rounds: nat)
    requires Inv(w) && Blocked(w, env)
    ensures !Deployed(Drive(w, env, rounds))
    decreases rounds
  {
    if rounds > 0 {
      RoundKept(w, env);
      RepeatsStepIff(w, NextAction(w, env));
      BlockedDrive(Round(w, env), env, rounds - 1);
    }
  }

  /** From every state of a run creation can complete exactly when it is not blocked to begin with. */
  lemma CreationIff(w: World, env: Env)
    requires Inv(w) && w.cluster.Some? && !w.cluster.value.deleting && env.inner != ""
    ensures (exists rounds: nat :: Deployed(Drive(w, env, rounds))) <==> !Blocked(w, env)
  {
    if Blocked(w, env) {
      forall rounds: nat
        ensures !Deployed(Drive(w, env, rounds))
      {
        BlockedDrive(w, env, rounds);
      }
    } else {
      var rounds: nat := Rank(w);
      CreationCompletes(w, env, rounds);
      assert Deployed(Drive(w, env, rounds));
    }
  }

  /** The pass gets to write the override. */
  predicate Writes(w: World, e: Calls) {
    && w.cluster.Some? && e.getCluster && e.patchHelper && e.appClient
    && var cl := w.cluster.value;
       !cl.deleting && cl.finalizer && cl.status.innerName != ""
       && cl.spec.override.Some? && !cl.status.overrideSuccessful
  }

  /**
     Exactly these steps leave an override in git without its record: a pass whose push takes effect but
     is reported as failed or whose status write is refused, a pass that fails to push it again, and the
     creation of a resource, or a change by others, that finds or puts the very same content there.
   */
  lemma RepeatsStepIff(w: World, a: Action)
    requires Inv(w)
    ensures Repeats(Act(w, a)) <==>
              match a
              case Pass(e) =>
                if Writes(w, e)
                then (if e.patchDir.Refused? then Repeats(w)
                      else e.patchDir.Lost? || e.status.Refused? || (Repeats(w) && !e.idlePush))
                else Repeats(w)
              case UserCreate(spec, _) =>
                if w.cluster.Some? then Repeats(w) else spec.override.Some? && InGit(w.name, spec, w.git)
              case UserDelete => false
              case Foreign(git) =>
                && w.cluster.Some? && !w.cluster.value.deleting && w.cluster.value.spec.override.Some?
                && !w.cluster.value.status.overrideSuccessful && InGit(w.name, w.cluster.value.spec, git)
              case _ => Repeats(w)
  {
    if a.Pass? {
      RepeatsPassIff(w, a.calls);
    }
  }

  lemma RepeatsPassIff(w: World, e: Calls)
    requires Inv(w)
    ensures Repeats(Reconcile(w, e).0) <==>
              if Writes(w, e)
              then (if e.patchDir.Refused? then Repeats(w)
                    else e.patchDir.Lost? || e.status.Refused? || (Repeats(w) && !e.idlePush))
              else Repeats(w)
  {
    if Writes(w, e) {
      RepeatsWriteIff(w, w.cluster.value, e);
      assert Reconcile(w, e).0 == CreateOverride(w, w.cluster.value, w.cluster.value.spec.override.value, e).0;
    } else {
      RepeatsOtherPass(w, e);
    }
  }

  lemma RepeatsWriteIff(w: World, cl: Cluster, e: Calls)
    requires w.cluster == Some(cl) && Writes(w, e)
    ensures Repeats(CreateOverride(w, cl, cl.spec.override.value, e).0) <==>
              if e.patchDir.Refused? then Repeats(w)
              else e.patchDir.Lost? || e.status.Refused? || (Repeats(w) && !e.idlePush)
  {
    var dir := WrittenDir(w.name, cl.spec.override.value);
    RegeneratedUpToDate(w.git, dir, Content(cl.spec.override.value.patch, cl.spec.template));
  }

  lemma RepeatsOtherPass(w: World, e: Calls)
    requires Inv(w) && !Writes(w, e)
    ensures Repeats(Reconcile(w, e).0) <==> Repeats(w)
  {
    if w.cluster.Some? && e.getCluster && e.patchHelper && e.appClient {
      var cl := w.cluster.value;
      if cl.deleting {
        StaysDeleting(w, cl, e);
        assert Reconcile(w, e).0 == ReconcileDelete(w, cl, e).0;
      } else if cl.finalizer && cl.status.innerName != "" {
        KeepsRecord(w, cl, e);
        assert Reconcile(w, e).0 == Deploy(w, cl, e).0;
      }
    }
  }

  lemma StaysDeleting(w: World, cl: Cluster, e: Calls)
    requires w.cluster == Some(cl) && cl.deleting
    ensures var v := ReconcileDelete(w, cl, e).0; v.cluster.Some? ==> v.cluster.value.deleting
  {
  }

  lemma KeepsRecord(w: World, cl: Cluster, e: Calls)
    requires w.cluster == Some(cl) && (cl.spec.override.Some? ==> cl.status.overrideSuccessful)
    ensures !Repeats(Deploy(w, cl, e).0) && !Repeats(w)
  {
    var (v, ok) := EnsureKkarlonApp(w, cl, e);
    assert v.cluster == w.cluster;
    if ok {
      KeepsRecordApp(v, cl, e);
    } else {
      assert !Repeats(WriteStatus(v, WithState(cl, Retrying), RetryLater, e.status).0);
    }
  }

  lemma KeepsRecordApp(w: World, cl: Cluster, e: Calls)
    requires w.cluster == Some(cl) && (cl.spec.override.Some? ==> cl.status.overrideSuccessful)
    ensures !Repeats(EnsureClusterApp(w, cl, e).0)
  {
  }

  /** A push whose status write is refused, or that is reported as failed, blocks the creation if it may not repeat. */
  lemma UnrecordedPush(w: World, env: Env)
    requires Inv(w) && Writes(w, AllGood(env)) && !env.idlePush
    ensures Blocked(Act(w, Pass(AllGood(env).(status := Refused))), env)
    ensures Blocked(Act(w, Pass(AllGood(env).(patchDir := Lost))), env)
  {
    RepeatsStepIff(w, Pass(AllGood(env).(status := Refused)));
    RepeatsStepIff(w, Pass(AllGood(env).(patchDir := Lost)));
  }

  lemma RegeneratedUpToDate(git: Git, dir: Dir, content: Content)
    ensures UpToDate(Without(git, dir)[dir := content], dir, content)
  {
  }

  /** While unchanged trees are refused and nobody else changes the directory, the cluster app never comes to exist. */
  lemma {:induction false} BlockedForever(w: World, actions: seq<Action>)
    requires Inv(w) && Repeats(w)
    requires forall i | 0 <= i < |actions| :: match actions[i]
                                              case Pass(e) => !e.idlePush
                                              case UserDelete => false
                                              case Foreign(git) => InGit(w.name, w.cluster.value.spec, git)
                                              case _ => true
    ensures Inv(Play(w, actions)) && Repeats(Play(w, actions)) && w.name !in Play(w, actions).apps
    ensures Play(w, actions).name == w.name && Play(w, actions).cluster.value.spec == w.cluster.value.spec
  {
    if actions != [] {
      var front, last := actions[..|actions| - 1], actions[|actions| - 1];
      assert forall i | 0 <= i < |front| :: front[i] == actions[i];
      BlockedForever(w, front);
      InvKept(Play(w, front), last);
      RepeatsStepIff(Play(w, front), last);
      SpecStays(Play(w, front), last);
    }
  }

  lemma SpecStays(w: World, a: Action)
    requires Repeats(w) && Act(w, a).cluster.Some?
    ensures Act(w, a).cluster.value.spec == w.cluster.value.spec
  {
    if a.Pass? {
      RepeatsSpecStays(w, a.calls);
    }
  }

  lemma RepeatsSpecStays(w: World, e: Calls)
    requires Repeats(w) && Reconcile(w, e).0.cluster.Some?
    ensures Reconcile(w, e).0.cluster.value.spec == w.cluster.value.spec
  {
  }

  /** A deployed cluster is left alone: whatever the calls do, a pass that meets no error writes nothing. */
  lemma DeployedIsFinal(w: World, e: Calls)
    requires Inv(w) && w.cluster.Some? && !w.cluster.value.deleting && Rank(w) == 0
    requires e.appClient && e.getKkarlonApp && e.getClusterApp
    ensures Reconcile(w, e).0 == w
  {
  }

  // ---------------------------------------------------------------- what a pass answers

  /**
     A pass is only done if it got the resource closer to its goal or nothing is left to do. Otherwise it
     is to come back: it answers that it is to be run again, or that it failed.
   */
  lemma DoneIsProgress(w: World, e: Calls)
    requires Inv(w) && Reconcile(w, e).1 == Done && e.template != Some("")
    ensures var w' := Reconcile(w, e).0;
            || w.cluster.None?
            || Rank(w') < Rank(w)
            || (w' == w && !w.cluster.value.deleting && Rank(w) == 0)
  {
    if w.cluster.Some? {
      var cl := w.cluster.value;
      if cl.deleting {
        DeleteDone(w, cl, e);
      } else if cl.finalizer && cl.status.innerName != "" {
        if cl.spec.override.Some? && !cl.status.overrideSuccessful {
          WriteDone(w, cl, e);
        } else {
          DeployDone(w, cl, e);
        }
      }
    }
  }

  lemma DeleteDone(w: World, cl: Cluster, e: Calls)
    requires Inv(w) && w.cluster == Some(cl) && cl.deleting && ReconcileDelete(w, cl, e).1 == Done
    ensures Rank(ReconcileDelete(w, cl, e).0) < Rank(w)
  {
  }

  lemma WriteDone(w: World, cl: Cluster, e: Calls)
    requires Inv(w) && w.cluster == Some(cl) && !cl.deleting && cl.spec.override.Some?
    requires !cl.status.overrideSuccessful && CreateOverride(w, cl, cl.spec.override.value, e).1 == Done
    ensures Rank(CreateOverride(w, cl, cl.spec.override.value, e).0) < Rank(w)
  {
  }

  lemma DeployDone(w: World, cl: Cluster, e: Calls)
    requires Inv(w) && w.cluster == Some(cl) && !cl.deleting && cl.finalizer && cl.status.innerName != ""
    requires (cl.spec.override.Some? ==> cl.status.overrideSuccessful) && Deploy(w, cl, e).1 == Done
    ensures Rank(Deploy(w, cl, e).0) < Rank(w) || (Deploy(w, cl, e).0 == w && Rank(w) == 0)
  {
    var (v, ok) := EnsureKkarlonApp(w, cl, e);
    assert ok && v.cluster == w.cluster && v.name == w.name;
    assert w.name in v.apps <==> w.name in w.apps;
    if w.name in w.apps {
      assert v == w;
    }
  }

  /** With good calls a pass is done, unless it is blocked, stuck, or has to wait for Argo CD. */
  lemma GoodIsDone(w: World, env: Env)
    requires Inv(w) && w.cluster.Some? && env.inner != ""
    ensures Reconcile(w, AllGood(env)).1 == Done <==>
              !Stuck(w) && !Waiting(w)
              && !(Blocked(w, env) && w.cluster.value.finalizer && w.cluster.value.status.innerName != "")
  {
  }

  // ---------------------------------------------------------------- teardown

  predicate Gone(w: World) {
    w.cluster.None? && w.name !in w.apps && KkarlonAppName(w.name) !in w.apps
  }

  /** The git directories teardown leaves: an override whose cluster app never existed stays behind. */
  function GitLeft(w: World): Git {
    if w.cluster.Some? && OverrideRecorded(w.cluster.value) && w.name in w.apps
    then Without(w.git, RecordedDir(w.name, w.apps[w.name])) else w.git
  }

  /** Teardown ends with everything gone, and removes exactly what is in or below the recorded directory. */
  lemma {:induction false} TeardownCompletes(w: World, env: Env, rounds: nat)
    requires Inv(w) && (w.cluster.Some? ==> w.cluster.value.deleting) && !Stuck(w)
    requires rounds >= Rank(w)
    ensures Gone(Drive(w, env, rounds))
    ensures Drive(w, env, rounds).git == GitLeft(w)
    decreases rounds
  {
    if rounds > 0 {
      RoundKept(w, env);
      if w.cluster.Some? {
        TeardownRound(w, env);
      }
      TeardownCompletes(Round(w, env), env, rounds - 1);
    }
  }

  /** Once stuck, always stuck, whatever controller, Argo CD and user do: only a push by others helps. */
  lemma StuckStays(w: World, a: Action)
    requires Inv(w) && Stuck(w)
    ensures Act(w, a).name == w.name && w.name in Act(w, a).apps && Act(w, a).apps[w.name] == w.apps[w.name]
    ensures Stuck(Act(w, a)) <==> !(a.Foreign? && Found(a.git, RecordedDir(w.name, w.apps[w.name])))
  {
  }

  lemma {:induction false} StuckForever(w: World, actions: seq<Action>)
    requires Inv(w) && Stuck(w)
    requires forall i | 0 <= i < |actions| && actions[i].Foreign? ::
               !Found(actions[i].git, RecordedDir(w.name, w.apps[w.name]))
    ensures Inv(Play(w, actions)) && Stuck(Play(w, actions))
    ensures Play(w, actions).name == w.name && Play(w, actions).apps[w.name] == w.apps[w.name]
  {
    if actions != [] {
      var front, last := actions[..|actions| - 1], actions[|actions| - 1];
      StuckForever(w, front);
      InvKept(Play(w, front), last);
      StuckStays(Play(w, front), last);
    }
  }

  lemma {:induction false} StuckDrive(w: World, env: Env, rounds: nat)
    requires Inv(w) && Stuck(w)
    ensures Stuck(Drive(w, env, rounds))
    decreases rounds
  {
    if rounds > 0 {
      RoundKept(w, env);
      StuckStays(w, NextAction(w, env));
      StuckDrive(Round(w, env), env, rounds - 1);
    }
  }

  /** Teardown can complete exactly when it is not stuck to begin with. */
  lemma TeardownIff(w: World, env: Env)
    requires Inv(w) && w.cluster.Some? && w.cluster.value.deleting
    ensures (exists rounds: nat :: Gone(Drive(w, env, rounds))) <==> !Stuck(w)
  {
    if Stuck(w) {
      forall rounds: nat
        ensures !Gone(Drive(w, env, rounds))
      {
        StuckDrive(w, env, rounds);
      }
    } else {
      TeardownCompletes(w, env, Rank(w));
      var rounds: nat := Rank(w);
      assert Gone(Drive(w, env, rounds));
    }
  }

  // ---------------------------------------------------------------- how teardown gets stuck, and how not

  /**
     The calls of a pass that remove the override directory without clearing its record: the removal
     takes effect, and either it is reported as failed or the status write after it is refused.
   */
  predicate Loses(e: Calls) {
    && e.getCluster && e.patchHelper && e.appClient && e.getClusterApp && e.kubeClient
    && (e.removeDir.Lost? || (e.removeDir.Applied? && e.status.Refused?))
  }

  /** An override that teardown still has to remove. */
  predicate Pending(w: World) {
    w.cluster.Some? && OverrideRecorded(w.cluster.value) && w.name in w.apps
  }

  /** Stuck means: the override is recorded, and nothing in git lies at or below the recorded path. */
  lemma StuckMeans(w: World)
    ensures Stuck(w) <==>
              && w.cluster.Some? && w.cluster.value.deleting && w.name in w.apps
              && w.cluster.value.spec.override.Some? && w.cluster.value.status.overrideSuccessful
              && var a := w.apps[w.name].annotations;
                 var path := Annotation(a, PATH_ANNOTATION) + "/" + w.name;
                 forall d | d in w.git :: !(&& d.url == Annotation(a, URL_ANNOTATION)
                                            && d.revision == Annotation(a, REVISION_ANNOTATION)
                                            && d.place.rooted == Paths.Rooted(path)
                                            && Paths.Components(path) <= d.place.comps)
  {
    if w.name in w.apps {
      assert forall d :: Under(d, RecordedDir(w.name, w.apps[w.name])) <==>
        && d.url == Annotation(w.apps[w.name].annotations, URL_ANNOTATION)
        && d.revision == Annotation(w.apps[w.name].annotations, REVISION_ANNOTATION)
        && d.place.rooted == Paths.Rooted(Annotation(w.apps[w.name].annotations, PATH_ANNOTATION) + "/" + w.name)
        && Paths.Components(Annotation(w.apps[w.name].annotations, PATH_ANNOTATION) + "/" + w.name) <= d.place.comps;
    }
  }

  /** Exactly these steps get a run stuck. */
  lemma StuckStepIff(w: World, a: Action)
    requires Inv(w) && !Stuck(w)
    ensures Stuck(Act(w, a)) <==>
              && Pending(w)
              && var dir := RecordedDir(w.name, w.apps[w.name]);
                 match a
                 case Pass(e) => w.cluster.value.deleting && Loses(e)
                 case UserDelete => !Found(w.git, dir)
                 case Foreign(git) => w.cluster.value.deleting && !Found(git, dir)
                 case _ => false
  {
    if a.Pass? && w.cluster.Some? && w.cluster.value.deleting {
      StuckPassIff(w, a.calls);
    }
  }

  lemma StuckPassIff(w: World, e: Calls)
    requires Inv(w) && !Stuck(w) && w.cluster.Some? && w.cluster.value.deleting
    ensures Stuck(Reconcile(w, e).0) <==> Pending(w) && Loses(e)
  {
  }

  predicate UsableOverride(spec: Spec) {
    spec.override.Some? ==> spec.override.value.repo.path != ""
  }

  /**
     A pass does not lose a removal, the resource keeps at least one annotation, overrides have a
     base path, and others leave a recorded override in place.
   */
  predicate Careful(w: World, a: Action) {
    match a
    case Pass(e) => Pending(w) && w.cluster.value.deleting ==> !Loses(e)
    case UserCreate(spec, initial) => Stored(initial).Some? && UsableOverride(spec)
    case UserAnnotate(annotations) => Stored(annotations).Some?
    case Foreign(git) =>
      w.cluster.Some? && OverrideRecorded(w.cluster.value) ==>
        Found(git, WrittenDir(w.name, w.cluster.value.spec.override.value))
    case _ => true
  }

  ghost predicate AllCareful(w: World, actions: seq<Action>) {
    forall i | 0 <= i < |actions| :: Careful(Play(w, actions[..i]), actions[i])
  }

  /** The recorded override can be found, through the resource and through the cluster app. */
  ghost predicate Intact(w: World) {
    w.cluster.Some? ==>
      var cl := w.cluster.value;
      && cl.annotations.Some? && UsableOverride(cl.spec)
      && (cl.spec.override.Some? ==>
            var o := cl.spec.override.value;
            && (cl.status.overrideSuccessful ==> Found(w.git, WrittenDir(w.name, o)))
            && (w.name in w.apps ==> Records(w.apps[w.name], o.repo)))
  }

  /** The app's annotations say where the override is kept. */
  predicate Records(app: App, repo: RepoSpec) {
    && Annotation(app.annotations, URL_ANNOTATION) == repo.url
    && Annotation(app.annotations, REVISION_ANNOTATION) == repo.revision
    && Annotation(app.annotations, PATH_ANNOTATION) == repo.path
  }

  /** Deletion then looks for the directory the override was written to. */
  lemma RecordedIsWritten(clusterName: string, app: App, o: OverrideSpec)
    requires '/' !in clusterName && o.repo.path != "" && Records(app, o.repo)
    ensures RecordedDir(clusterName, app) == WrittenDir(clusterName, o)
  {
    Paths.OverridePathsAgree(o.repo.path, clusterName);
    Paths.CleanPlace(o.repo.path + "/" + clusterName, Paths.ClusterPath(o.repo.path, clusterName));
  }

  lemma IntactStatus(w: World, cl: Cluster, state: State, outcome: Outcome, reply: Reply)
    requires Intact(w) && w.cluster == Some(cl)
    ensures Intact(WriteStatus(w, WithState(cl, state), outcome, reply).0)
  {
  }

  lemma IntactPut(w: World, name: string, app: App, reply: Reply)
    requires Intact(w)
    requires name == w.name && w.cluster.Some? && w.cluster.value.spec.override.Some? ==>
               Records(app, w.cluster.value.spec.override.value.repo)
    ensures Intact(PutApp(w, name, app, reply))
  {
  }

  lemma IntactClusterApp(w: World, cl: Cluster, e: Calls)
    requires Intact(w) && w.cluster == Some(cl)
    ensures Intact(EnsureClusterApp(w, cl, e).0)
  {
    if !e.getClusterApp {
      IntactStatus(w, cl, Retrying, RetryLater, e.status);
    } else if w.name !in w.apps {
      var app := ConstructClusterApp(w.name, cl.status.innerName, SourceRepo(cl.spec), cl.spec.override.Some?);
      IntactPut(w, w.name, app, e.createClusterApp);
      var w' := PutApp(w, w.name, app, e.createClusterApp);
      IntactStatus(w', cl, Created, Done, e.status);
      IntactStatus(w', cl, Retrying, RetryLater, e.status);
    } else {
      var app := w.apps[w.name];
      var synced := app.(annotations := SyncedAnnotations(cl.annotations, app.annotations));
      IntactPut(w, w.name, synced, e.updateClusterApp);
      var w' := if NeedsSync(cl.annotations, app.annotations) then PutApp(w, w.name, synced, e.updateClusterApp) else w;
      IntactStatus(w', cl, Created, Done, e.status);
      IntactStatus(w', cl, Retrying, RetryLater, e.status);
    }
  }

  lemma IntactDeploy(w: World, cl: Cluster, e: Calls)
    requires Intact(w) && w.cluster == Some(cl)
    ensures Intact(Deploy(w, cl, e).0)
  {
    IntactPut(w, KkarlonAppName(w.name), ConstructKkarlonApp(cl.spec), e.createKkarlonApp);
    var (w', ok) := EnsureKkarlonApp(w, cl, e);
    if ok {
      IntactClusterApp(w', cl, e);
    } else {
      IntactStatus(w', cl, Retrying, RetryLater, e.status);
    }
  }

  lemma IntactDelete(w: World, cl: Cluster, e: Calls)
    requires Intact(w) && '/' !in w.name && w.cluster == Some(cl) && cl.deleting
    requires e.getCluster && e.patchHelper && e.appClient && (Pending(w) ==> !Loses(e))
    ensures Intact(ReconcileDelete(w, cl, e).0)
  {
    var k := KkarlonAppName(w.name);
    if !e.getClusterApp {
      IntactStatus(w, cl, DeleteRetrying, RetryLater, e.status);
    } else if w.name in w.apps {
      IntactDeleteClusterApp(w, cl, e);
    } else if e.getKkarlonApp && k in w.apps {
      IntactPut(w, k, w.apps[k].(deleting := true), e.deleteKkarlonApp);
      var w' := RequestDelete(w, k, e.deleteKkarlonApp);
      IntactStatus(w', cl, DeletingKkarlonApp, Done, e.status);
      IntactStatus(w', cl, ErrorDeletingKkarlonApp, RetryLater, e.status);
    }
  }

  lemma IntactDeleteClusterApp(w: World, cl: Cluster, e: Calls)
    requires Intact(w) && '/' !in w.name && w.cluster == Some(cl) && w.name in w.apps
    requires e.getCluster && e.patchHelper && e.appClient && e.getClusterApp && (Pending(w) ==> !Loses(e))
    ensures Intact(DeleteClusterApp(w, cl, e).0)
  {
    if OverrideRecorded(cl) {
      RecordedIsWritten(w.name, w.apps[w.name], cl.spec.override.value);
    } else {
      IntactPut(w, w.name, w.apps[w.name].(deleting := true), e.deleteClusterApp);
      var w' := RequestDelete(w, w.name, e.deleteClusterApp);
      IntactStatus(w', cl, DeletingClusterApp, Done, e.status);
      IntactStatus(w', cl, ErrorDeletingClusterApp, RetryLater, e.status);
    }
  }

  lemma IntactPass(w: World, e: Calls)
    requires Intact(w) && '/' !in w.name && Careful(w, Pass(e))
    ensures Intact(Reconcile(w, e).0)
  {
    if w.cluster.Some? && e.getCluster && e.patchHelper && e.appClient {
      var cl := w.cluster.value;
      if cl.deleting {
        IntactDelete(w, cl, e);
      } else if cl.finalizer && cl.status.innerName != ""
                && (cl.spec.override.Some? ==> cl.status.overrideSuccessful) {
        IntactDeploy(w, cl, e);
      } else if cl.finalizer && cl.status.innerName != "" {
        IntactCreate(w, cl, cl.spec.override.value, e);
      }
    }
  }

  lemma IntactCreate(w: World, cl: Cluster, o: OverrideSpec, e: Calls)
    requires Intact(w) && w.cluster == Some(cl) && cl.spec.override == Some(o) && !cl.status.overrideSuccessful
    ensures Intact(CreateOverride(w, cl, o, e).0)
  {
    if !e.patchDir.Refused? {
      var dir := WrittenDir(w.name, o);
      var pushed := w.(git := Without(w.git, dir)[dir := Content(o.patch, cl.spec.template)]);
      FoundWritten(Without(w.git, dir), dir, Content(o.patch, cl.spec.template));
      assert Intact(pushed);
      IntactStatus(pushed, cl, Retrying, RetryLater, e.status);
    } else {
      IntactStatus(w, cl, Retrying, RetryLater, e.status);
    }
  }

  lemma FoundWritten(git: Git, dir: Dir, content: Content)
    ensures Found(git[dir := content], dir)
  {
    assert Under(dir, dir);
  }

  /**
     In a run in which no pass loses a removal, the resource keeps an annotation, override base paths
     are not empty and others leave recorded overrides in place, teardown is never stuck.
   */
  lemma {:induction false} CarefulNeverStuck(w: World, actions: seq<Action>)
    requires Initial(w) && '/' !in w.name && AllCareful(w, actions)
    ensures Intact(Play(w, actions)) && !Stuck(Play(w, actions))
  {
    if actions != [] {
      var front, last := actions[..|actions| - 1], actions[|actions| - 1];
      assert forall i | 0 <= i < |front| :: front[..i] == actions[..i] && front[i] == actions[i];
      CarefulNeverStuck(w, front);
      RunInv(w, front);
      IntactStep(Play(w, front), last);
    }
    RunInv(w, actions);
    IntactRecord(Play(w, actions));
  }

  lemma IntactStep(w: World, a: Action)
    requires Inv(w) && Intact(w) && '/' !in w.name && Careful(w, a)
    ensures Intact(Act(w, a))
  {
    if a.Pass? {
      IntactPass(w, a.calls);
    }
  }

  /** In an intact state the cluster app's record leads to the written override, which is there. */
  lemma IntactRecord(w: World)
    requires Intact(w) && '/' !in w.name
    ensures !Stuck(w)
    ensures Pending(w) ==>
              RecordedDir(w.name, w.apps[w.name]) == WrittenDir(w.name, w.cluster.value.spec.override.value)
  {
    if w.cluster.Some? && w.cluster.value.spec.override.Some? && w.name in w.apps {
      RecordedIsWritten(w.name, w.apps[w.name], w.cluster.value.spec.override.value);
    }
  }

  /**
     So in such a run, whatever else failed, deleting the resource ends with it and both apps gone,
     and the written override is removed if its flag and its cluster app are still there then.
   */
  lemma CarefulTeardown(w: World, actions: seq<Action>, env: Env)
    requires Initial(w) && '/' !in w.name && AllCareful(w, actions)
    ensures var v := Act(Play(w, actions), UserDelete);
            var done := Drive(v, env, Rank(v));
            && Gone(done)
            && done.git == if Pending(v)
                           then Without(v.git, WrittenDir(v.name, v.cluster.value.spec.override.value)) else v.git
  {
    var v := Act(Play(w, actions), UserDelete);
    CarefulNeverStuck(w, actions);
    RunInv(w, actions);
    InvKept(Play(w, actions), UserDelete);
    IntactStep(Play(w, actions), UserDelete);
    IntactRecord(v);
    TeardownCompletes(v, env, Rank(v));
  }

  /** A removal whose status write is refused, or that is reported as failed, gets teardown stuck. */
  lemma UnrecordedRemoval(w: World, env: Env)
    requires Inv(w) && Pending(w) && w.cluster.value.deleting && !Stuck(w)
    ensures Stuck(Act(w, Pass(AllGood(env).(status := Refused))))
    ensures Stuck(Act(w, Pass(AllGood(env).(removeDir := Lost))))
  {
    StuckStepIff(w, Pass(AllGood(env).(status := Refused)));
    StuckStepIff(w, Pass(AllGood(env).(removeDir := Lost)));
  }

  /**
     A step that leaves the resource without annotations makes the next pass wipe the record: deletion
     then looks for a repository with no name, and is stuck unless something happens to be there.
   */
  lemma WipedRecord(w: World, annotations: Option<map<string, string>>, env: Env)
    requires Inv(w) && w.cluster.Some? && !w.cluster.value.deleting && Rank(w) == 0
    requires w.cluster.value.spec.override.Some?
    ensures var synced := Act(Act(w, UserAnnotate(annotations)), Pass(AllGood(env)));
            Stuck(Act(synced, UserDelete)) <==>
              !Found(w.git, if Stored(annotations).None? then Dir("", "", Paths.PlaceOf("/" + w.name))
                            else RecordedDir(w.name, w.apps[w.name]))
  {
    assert "" + "/" + w.name == "/" + w.name;
  }

  lemma PlayNext(w: World, actions: seq<Action>, a: Action)
    ensures Play(w, actions + [a]) == Act(Play(w, actions), a)
  {
    assert (actions + [a])[..|actions|] == actions;
  }

  lemma {:induction false} PlayFirst(w: World, a: Action, actions: seq<Action>)
    ensures Play(w, [a] + actions) == Play(Act(w, a), actions)
  {
    var all := [a] + actions;
    if actions == [] {
      assert all[..0] == [];
    } else {
      PlayFirst(w, a, actions[..|actions| - 1]);
      assert all[..|all| - 1] == [a] + actions[..|actions| - 1];
    }
  }

  function Schedule(w: World, env: Env, rounds: nat): seq<Action>
    decreases rounds
  {
    if rounds == 0 then []
    else [NextAction(w, env)] + Schedule(Round(w, env), env, rounds - 1)
  }

  lemma {:induction false} DriveIsPlay(w: World, env: Env, rounds: nat)
    ensures Play(w, Schedule(w, env, rounds)) == Drive(w, env, rounds)
    decreases rounds
  {
    if rounds > 0 {
      PlayFirst(w, NextAction(w, env), Schedule(Round(w, env), env, rounds - 1));
      DriveIsPlay(Round(w, env), env, rounds - 1);
    }
  }

  lemma LoseTheWrite(w: World, actions: seq<Action>, env: Env)
    requires Inv(Play(w, actions))
    requires var v := Play(w, actions);
             Pending(v) && v.cluster.value.deleting
    ensures exists more :: Stuck(Play(w, more))
  {
    var lossy := Pass(AllGood(env).(status := Refused));
    if Stuck(Play(w, actions)) {
      return;
    }
    UnrecordedRemoval(Play(w, actions), env);
    PlayNext(w, actions, lossy);
    assert Stuck(Play(w, actions + [lossy]));
  }

  /** Every cluster with an override can get stuck: create it, delete it, and lose one status write. */
  lemma StuckReachable(w: World, spec: Spec, annotations: Option<map<string, string>>, inner: string)
    requires Initial(w) && inner != "" && spec.override.Some?
    ensures exists actions :: Stuck(Play(w, actions))
  {
    var env := Env(inner, true);
    var created := Act(w, UserCreate(spec, annotations));
    InvKept(w, UserCreate(spec, annotations));
    var rounds: nat := Rank(created);
    CreationCompletes(created, env, rounds);
    SpecKept(created, env, rounds);
    DriveIsPlay(created, env, rounds);
    PlayFirst(w, UserCreate(spec, annotations), Schedule(created, env, rounds));
    var actions := [UserCreate(spec, annotations)] + Schedule(created, env, rounds);
    RunInv(w, actions);
    RankZero(Play(w, actions));
    PlayNext(w, actions, UserDelete);
    actions := actions + [UserDelete];
    RunInv(w, actions);
    LoseTheWrite(w, actions, env);
  }

  lemma {:induction false} SpecKept(w: World, env: Env, rounds: nat)
    requires Inv(w) && w.cluster.Some? && !w.cluster.value.deleting && env.inner != ""
    ensures Drive(w, env, rounds).cluster.Some?
    ensures Drive(w, env, rounds).cluster.value.spec == w.cluster.value.spec
    decreases rounds
  {
    if rounds > 0 {
      RoundKept(w, env);
      var w' := Round(w, env);
      assert w'.cluster.Some? && w'.cluster.value.spec == w.cluster.value.spec && !w'.cluster.value.deleting;
      SpecKept(w', env, rounds - 1);
    }
  }
}

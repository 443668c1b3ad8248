/** The cluster controller and the global application-profile pass together. */
module EndToEnd {
  import opened Text
  import P = AppProfiles
  import T = AppProfileTheorems
  import C = ClusterController
  import ClusterRuns
  import ClusterProgress

  /** The pass sees the controller's cluster app under the cluster's name, or nothing if there is none. */
  ghost predicate Linked(fleet: P.World, one: C.World) {
    if one.name !in one.apps then forall k | 0 <= k < |fleet.clusterApps| :: fleet.clusterApps[k].name != one.name
    else exists k :: T.LastApp(fleet.clusterApps, k, one.name)
                     && fleet.clusterApps[k].annotations == match one.apps[one.name].annotations
                                                            case Some(m) => m
                                                            case None => map[]
  }

  /** The profiles annotation of the Cluster resource; a nil map and a missing key read as empty. */
  function Asked(one: C.World): string
    requires one.cluster.Some?
  {
    var annotations := one.cluster.value.annotations;
    if annotations.Some? && P.PROFILES_KEY in annotations.value then annotations.value[P.PROFILES_KEY] else ""
  }

  lemma {:induction false} NothingDue(kind: P.Kind, settled: seq<bool>, n: nat)
    requires n <= |settled| && P.Due(kind, settled, n) == []
    ensures forall i | 0 <= i < n :: settled[i]
  {
    if n > 0 {
      NothingDue(kind, settled, n - 1);
    }
  }

  lemma EmptyPlan(fleet: P.World)
    requires P.Plan(fleet) == []
    ensures T.AllSettled(fleet)
  {
    var c, p, a := P.SettledClusters(fleet), P.SettledProfiles(fleet), P.SettledApps(fleet);
    NothingDue(P.OnCluster, c, |c|);
    NothingDue(P.OnProfile, p, |p|);
    NothingDue(P.OnApp, a, |a|);
    forall i | 0 <= i < |fleet.clusters| ensures P.ClusterSettled(fleet, i) { assert c[i]; }
    forall j | 0 <= j < |fleet.profiles| ensures P.ProfileSettled(fleet, j) { assert p[j]; }
    forall k | 0 <= k < |fleet.apps| ensures P.AppSettled(fleet, k) { assert a[k]; }
  }

  /** Where the annotation is out of line, a pass writes it. */
  lemma SyncIsWritten(one: C.World, env: ClusterProgress.Env)
    requires ClusterRuns.Inv(one) && one.cluster.Some? && !one.cluster.value.deleting && one.name in one.apps
    ensures var w := C.Reconcile(one, ClusterProgress.AllGood(env)).0;
            one.name in w.apps
            && C.Annotation(w.apps[one.name].annotations, P.PROFILES_KEY)
            == C.Annotation(one.cluster.value.annotations, P.PROFILES_KEY)
  {
  }

  /** A controller pass with nothing to write has already brought the annotation in line. */
  lemma QuietController(one: C.World, env: ClusterProgress.Env)
    requires ClusterRuns.Inv(one) && one.cluster.Some? && !one.cluster.value.deleting && one.name in one.apps
    requires C.Reconcile(one, ClusterProgress.AllGood(env)).0 == one
    ensures C.Annotation(one.apps[one.name].annotations, P.PROFILES_KEY)
         == C.Annotation(one.cluster.value.annotations, P.PROFILES_KEY)
  {
    SyncIsWritten(one, env);
  }

  /**
     When neither controller would write anything more, an eligible app targets a cluster that
     has a Cluster resource not being deleted, a cluster app and an Argo CD registration, exactly
     when some profile listing the app is named in the resource's own annotation. A nil
     annotation map and a missing key name no profile.
   */
  lemma EndToEnd(fleet: P.World, one: C.World, env: ClusterProgress.Env, k: nat)
    requires P.Plan(fleet) == []
    requires ClusterRuns.Inv(one) && one.cluster.Some? && !one.cluster.value.deleting && one.name in one.apps
    requires C.Reconcile(one, ClusterProgress.AllGood(env)).0 == one
    requires Linked(fleet, one)
    requires k < |fleet.apps| && P.Eligible(fleet.apps[k])
    ensures one.name in P.CurrentTargets(fleet.apps[k]) <==>
              && (exists i :: 0 <= i < |fleet.clusters| && fleet.clusters[i].name == one.name)
              && exists j :: 0 <= j < |fleet.profiles| && fleet.apps[k].name in fleet.profiles[j].appNames
                             && T.NamedIn(Asked(one), fleet.profiles[j].name)
  {
    EmptyPlan(fleet);
    QuietController(one, env);
    var app := fleet.apps[k].name;
    assert P.AppSettled(fleet, k);
    T.DesiredIsSelected(fleet, app, one.name);
    forall i, text | 0 <= i < |fleet.clusters| && fleet.clusters[i].name == one.name
      ensures T.Counts(fleet, i, text) <==> text == Asked(one)
    {
      T.CountsIff(fleet, i, text);
      var l := T.LastNamedIs(fleet.clusterApps, one.name);
      assert forall k | T.LastApp(fleet.clusterApps, k, one.name) :: k == l;
    }
    assert T.Selected(fleet, app, one.name) <==>
      && (exists i :: 0 <= i < |fleet.clusters| && fleet.clusters[i].name == one.name)
      && exists j :: 0 <= j < |fleet.profiles| && app in fleet.profiles[j].appNames
                     && T.NamedIn(Asked(one), fleet.profiles[j].name) by {
      SelectedIffAsked(fleet, one, app);
    }
  }

  lemma SelectedIffAsked(fleet: P.World, one: C.World, app: string)
    requires one.cluster.Some?
    requires forall i, text | 0 <= i < |fleet.clusters| && fleet.clusters[i].name == one.name ::
               T.Counts(fleet, i, text) <==> text == Asked(one)
    ensures T.Selected(fleet, app, one.name) <==>
              && (exists i :: 0 <= i < |fleet.clusters| && fleet.clusters[i].name == one.name)
              && exists j :: 0 <= j < |fleet.profiles| && app in fleet.profiles[j].appNames
                             && T.NamedIn(Asked(one), fleet.profiles[j].name)
  {
    if i, j :| && 0 <= i < |fleet.clusters| && fleet.clusters[i].name == one.name
               && 0 <= j < |fleet.profiles| && app in fleet.profiles[j].appNames
               && T.NamedIn(Asked(one), fleet.profiles[j].name) {
      assert T.Counts(fleet, i, Asked(one));
    }
  }
}

/** The global reconciliation pass, over a store whose every write may fail. */
module AppProfileReconciler {
  import opened Text
  import opened Remote
  import opened AppProfiles

  function Lookup<T>(m: map<string, set<T>>, key: string): set<T> {
    if key in m then m[key] else {}
  }

  class Reconciler {
    var clusters: seq<ArgoCluster>
    var clusterApps: seq<ClusterApp>
    var profiles: seq<AppProfile>
    var apps: seq<AppSet>
    /** The writes the API server has accepted. */
    var writes: seq<Write>

    ghost function Store(): World
      reads this
    {
      World(clusters, clusterApps, profiles, apps)
    }

    constructor (w: World)
      ensures Store() == w && writes == []
    {
      clusters, clusterApps, profiles, apps, writes := w.clusters, w.clusterApps, w.profiles, w.apps, [];
    }

    /** A write may be refused, and a write that took effect may still be reported as failed. */
    method UpdateCluster(i: nat, c: ArgoCluster, reply: Reply) returns (ok: bool, ghost applied: bool)
      requires i < |clusters|
      modifies this`clusters, this`writes
      ensures ok == reply.Applied? && applied == !reply.Refused?
      ensures applied ==> clusters == old(clusters)[i := c] && writes == old(writes) + [Write(OnCluster, i)]
      ensures !applied ==> clusters == old(clusters) && writes == old(writes)
    {
      ok, applied := reply == Applied, reply != Refused;
      if reply != Refused {
        clusters, writes := clusters[i := c], writes + [Write(OnCluster, i)];
      }
    }

    method UpdateProfileStatus(j: nat, p: AppProfile, reply: Reply) returns (ok: bool, ghost applied: bool)
      requires j < |profiles|
      modifies this`profiles, this`writes
      ensures ok == reply.Applied? && applied == !reply.Refused?
      ensures applied ==> profiles == old(profiles)[j := old(profiles)[j].(invalid := p.invalid, health := p.health)]
      ensures applied ==> writes == old(writes) + [Write(OnProfile, j)]
      ensures !applied ==> profiles == old(profiles) && writes == old(writes)
    {
      ok, applied := reply == Applied, reply != Refused;
      if reply != Refused {
        var stored := profiles[j].(invalid := p.invalid, health := p.health);
        profiles, writes := profiles[j := stored], writes + [Write(OnProfile, j)];
      }
    }

    method UpdateApp(k: nat, app: AppSet, reply: Reply) returns (ok: bool, ghost applied: bool)
      requires k < |apps|
      modifies this`apps, this`writes
      ensures ok == reply.Applied? && applied == !reply.Refused?
      ensures applied ==> apps == old(apps)[k := app] && writes == old(writes) + [Write(OnApp, k)]
      ensures !applied ==> apps == old(apps) && writes == old(writes)
    {
      ok, applied := reply == Applied, reply != Refused;
      if reply != Refused {
        apps, writes := apps[k := app], writes + [Write(OnApp, k)];
      }
    }

    // -------------------------------------------------------------- helpers of the pass

    /** Add cluster `i` to every profile its annotation names. */
    method UpdateProfileToClustersMap(w: World, i: nat, annotation: string, m: map<string, set<string>>)
      returns (r: map<string, set<string>>)
      requires i < |w.clusters| && annotation == Effective(w, i) && Inverted(w, i, m)
      ensures Inverted(w, i + 1, r)
    {
      var name := w.clusters[i].name;
      r := m;
      if annotation == "" {
        return;
      }
      var names := Split(annotation, ',');
      for k := 0 to |names|
        invariant forall p :: Lookup(r, p) == Lookup(m, p) + if p in names[..k] then {name} else {}
      {
        r := r[names[k] := Lookup(r, names[k]) + {name}];
        assert names[..k + 1] == names[..k] + [names[k]];
      }
      assert names[..|names|] == names;
    }

    /** Lists a set in an order the caller cannot rely on. */
    method ToSlice(s: set<string>) returns (q: seq<string>)
      ensures |q| == |s| && (set x | x in q) == s
    {
      q := [];
      var rest := s;
      while rest != {}
        invariant rest <= s && |q| + |rest| == |s|
        invariant (set x | x in q) == s - rest
      {
        var x :| x in rest;
        assert (set y | y in q + [x]) == (set y | y in q) + {x};
        q, rest := q + [x], rest - {x};
      }
    }

    /** The names decoded from an element list; decoding stops at the first malformed element. */
    method DecodeNames(elements: seq<Element>) returns (names: set<string>)
      ensures names == Decoded(elements)
    {
      names := {};
      for i := 0 to |elements|
        invariant names + Decoded(elements[i..]) == Decoded(elements)
      {
        if elements[i].Malformed? {
          return;
        }
        if NAME_KEY in elements[i].fields {
          var value := elements[i].fields[NAME_KEY];
          if value.JString? {
            names := names + {value.text};
          }
        }
      }
    }

    method RenderElements(w: World, targets: set<string>, server: map<string, string>)
      returns (elements: seq<Element>)
      requires targets <= Names(w) && Servers(w, |w.clusters|, server)
      ensures Lists(w, elements, targets)
    {
      elements := [];
      assert w.clusters[..|w.clusters|] == w.clusters;
      var rest := targets;
      while rest != {}
        invariant rest <= targets && |elements| + |rest| == |targets|
        invariant Sound(w, elements, targets)
        invariant Decoded(elements) == targets - rest
      {
        var name :| name in rest;
        RenderStep(w, elements, targets, name);
        elements, rest := elements + [Render(name, server[name])], rest - {name};
      }
    }

    method RecordServer(w: World, i: nat, server: map<string, string>) returns (r: map<string, string>)
      requires i < |w.clusters| && Servers(w, i, server)
      ensures Servers(w, i + 1, r)
    {
      r := server[w.clusters[i].name := w.clusters[i].server];
      assert w.clusters[..i + 1][..i] == w.clusters[..i];
    }

    method MapByName(items: seq<ClusterApp>) returns (m: map<string, ClusterApp>)
      ensures forall name :: LastNamed(items, name) == if name in m then Some(m[name]) else None
    {
      m := map[];
      for k := 0 to |items|
        invariant forall name :: LastNamed(items[..k], name) == if name in m then Some(m[name]) else None
      {
        m := m[items[k].name := items[k]];
        assert items[..k + 1][..k] == items[..k];
      }
      assert items[..|items|] == items;
    }

    // -------------------------------------------------------------- the three parts of the pass

    /** Bring one cluster's annotation in line; also returns the annotation that counts. */
    method SyncCluster(w: World, i: nat, appMap: map<string, ClusterApp>, reply: Write -> Reply,
                       ghost earlier: seq<Write>)
      returns (ok: bool, annotation: string, ghost applied: bool)
      requires i < |w.clusters| && clusters == SyncedUpTo(w, i)
      requires writes == earlier + Due(OnCluster, SettledClusters(w), i)
      requires forall name :: LastNamed(w.clusterApps, name) == if name in appMap then Some(appMap[name]) else None
      modifies this`clusters, this`writes
      ensures annotation == Effective(w, i)
      ensures ok <==> ClusterSettled(w, i) || reply(Write(OnCluster, i)).Applied?
      ensures applied <==> ClusterSettled(w, i) || !reply(Write(OnCluster, i)).Refused?
      ensures applied ==> clusters == SyncedUpTo(w, i + 1)
      ensures applied ==> writes == earlier + Due(OnCluster, SettledClusters(w), i + 1)
      ensures !applied ==> clusters == old(clusters) && writes == old(writes)
    {
      ok, applied := true, true;
      SyncedAt(w, i, i);
      var argoClust := w.clusters[i];
      annotation := Annotation(argoClust.annotations);
      if argoClust.name !in appMap {
        // Possibly an external cluster, whose annotation is managed independently.
        return;
      }
      var appAnnotation := Annotation(appMap[argoClust.name].annotations);
      var dirty := false;
      if appAnnotation != "" {
        if annotation != appAnnotation {
          argoClust := argoClust.(annotations := argoClust.annotations[PROFILES_KEY := appAnnotation]);
          dirty := true;
        }
      } else if annotation != "" {
        argoClust := argoClust.(annotations := argoClust.annotations - {PROFILES_KEY});
        dirty := true;
      }
      annotation := appAnnotation;
      if dirty {
        assert Annotation(argoClust.annotations) == appAnnotation;
        ok, applied := UpdateCluster(i, argoClust, reply(Write(OnCluster, i)));
      }
    }

    method ReconcileClusters(w: World, reply: Write -> Reply)
      returns (ok: bool, profileToClusters: map<string, set<string>>, server: map<string, string>, ghost n: nat)
      requires clusters == w.clusters
      modifies this`clusters, this`writes
      ensures n <= |w.clusters| && clusters == SyncedUpTo(w, n)
      ensures writes == old(writes) + Due(OnCluster, SettledClusters(w), n)
      ensures StageEnd(OnCluster, SettledClusters(w), reply, n, ok)
      ensures ok ==> Inverted(w, |w.clusters|, profileToClusters)
      ensures ok ==> Servers(w, |w.clusters|, server)
    {
      ok, profileToClusters, server, n := true, map[], map[], 0;
      var appMap := MapByName(w.clusterApps);
      for i := 0 to |w.clusters|
        invariant n == i && clusters == SyncedUpTo(w, i)
        invariant ok && AllApplied(Due(OnCluster, SettledClusters(w), i), reply)
        invariant writes == old(writes) + Due(OnCluster, SettledClusters(w), i)
        invariant Inverted(w, i, profileToClusters)
        invariant Servers(w, i, server)
      {
        server := RecordServer(w, i, server);
        var annotation;
        ghost var applied;
        ok, annotation, applied := SyncCluster(w, i, appMap, reply, old(writes));
        StageStep(OnCluster, SettledClusters(w), reply, i, ok, applied);
        n := if applied then i + 1 else i;
        if !ok {
          return;
        }
        profileToClusters := UpdateProfileToClustersMap(w, i, annotation, profileToClusters);
      }
    }

    /** Add a profile's clusters to each of its apps that exists; the other names are invalid. */
    method CollectApps(w: World, j: nat, valid: set<string>, using: set<string>, m: map<string, set<string>>)
      returns (r: map<string, set<string>>, invalid: set<string>)
      requires j < |w.profiles| && valid == AppNames(w) && using == ClustersOf(w, |w.clusters|, w.profiles[j].name)
      requires Composed(w, j, m)
      ensures Composed(w, j + 1, r)
      ensures invalid == InvalidNames(w, j)
    {
      var names := w.profiles[j].appNames;
      r, invalid := m, {};
      for k := 0 to |names|
        invariant forall app | app in valid ::
                    Lookup(r, app) == Lookup(m, app) + if app in names[..k] then using else {}
        invariant invalid == set app | app in names[..k] && app !in valid
      {
        assert names[..k + 1] == names[..k] + [names[k]];
        if names[k] !in valid {
          invalid := invalid + {names[k]};
        } else {
          r := r[names[k] := Lookup(r, names[k]) + using];
        }
      }
      assert names[..|names|] == names;
    }

    method ReconcileProfile(w: World, j: nat, invalid: set<string>, reply: Write -> Reply, ghost earlier: seq<Write>)
      returns (ok: bool, ghost applied: bool)
      requires j < |w.profiles| && invalid == InvalidNames(w, j)
      requires ProfilesUpTo(w, j, profiles) && writes == earlier + Due(OnProfile, SettledProfiles(w), j)
      modifies this`profiles, this`writes
      ensures ok <==> ProfileSettled(w, j) || reply(Write(OnProfile, j)).Applied?
      ensures applied <==> ProfileSettled(w, j) || !reply(Write(OnProfile, j)).Refused?
      ensures applied ==> ProfilesUpTo(w, j + 1, profiles)
      ensures applied ==> writes == earlier + Due(OnProfile, SettledProfiles(w), j + 1)
      ensures !applied ==> profiles == old(profiles) && writes == old(writes)
    {
      ok, applied := true, true;
      var prof := w.profiles[j];
      var dirty := false;
      if (set a | a in prof.invalid) != invalid {
        var slice := ToSlice(invalid);
        prof := prof.(invalid := slice);
        dirty := true;
      }
      assert (set a | a in prof.invalid) == invalid;
      assert prof.invalid == [] <==> invalid == {} by {
        if prof.invalid != [] { assert prof.invalid[0] in invalid; }
      }
      var health := if |prof.invalid| > 0 then DEGRADED else HEALTHY;
      if prof.health != health {
        prof := prof.(health := health);
        dirty := true;
      }
      assert ProfileAfter(w, j, prof);
      assert dirty <==> !ProfileSettled(w, j);
      if dirty {
        ok, applied := UpdateProfileStatus(j, prof, reply(Write(OnProfile, j)));
      }
    }

    method ReconcileProfiles(w: World, profileToClusters: map<string, set<string>>, reply: Write -> Reply)
      returns (ok: bool, appToClusters: map<string, set<string>>, ghost n: nat)
      requires profiles == w.profiles && Inverted(w, |w.clusters|, profileToClusters)
      modifies this`profiles, this`writes
      ensures n <= |w.profiles| && ProfilesUpTo(w, n, profiles)
      ensures writes == old(writes) + Due(OnProfile, SettledProfiles(w), n)
      ensures StageEnd(OnProfile, SettledProfiles(w), reply, n, ok)
      ensures ok ==> Composed(w, |w.profiles|, appToClusters)
    {
      ok, appToClusters, n := true, map[], 0;
      var validAppNames := set k | 0 <= k < |w.apps| :: w.apps[k].name;
      for j := 0 to |w.profiles|
        invariant n == j && ProfilesUpTo(w, j, profiles)
        invariant ok && AllApplied(Due(OnProfile, SettledProfiles(w), j), reply)
        invariant writes == old(writes) + Due(OnProfile, SettledProfiles(w), j)
        invariant Composed(w, j, appToClusters)
      {
        var using := Lookup(profileToClusters, w.profiles[j].name);
        var invalid;
        appToClusters, invalid := CollectApps(w, j, validAppNames, using, appToClusters);
        ghost var applied;
        ok, applied := ReconcileProfile(w, j, invalid, reply, old(writes));
        StageStep(OnProfile, SettledProfiles(w), reply, j, ok, applied);
        n := if applied then j + 1 else j;
        if !ok {
          return;
        }
      }
    }

    method ReconcileApp(w: World, k: nat, appToClusters: map<string, set<string>>, server: map<string, string>,
                        reply: Write -> Reply, ghost earlier: seq<Write>)
      returns (ok: bool, ghost applied: bool)
      requires k < |w.apps| && Composed(w, |w.profiles|, appToClusters) && Servers(w, |w.clusters|, server)
      requires AppsUpTo(w, k, apps) && writes == earlier + Due(OnApp, SettledApps(w), k)
      modifies this`apps, this`writes
      ensures ok <==> AppSettled(w, k) || reply(Write(OnApp, k)).Applied?
      ensures applied <==> AppSettled(w, k) || !reply(Write(OnApp, k)).Refused?
      ensures applied ==> AppsUpTo(w, k + 1, apps) && writes == earlier + Due(OnApp, SettledApps(w), k + 1)
      ensures !applied ==> apps == old(apps) && writes == old(writes)
    {
      ok, applied := true, true;
      var app := w.apps[k];
      if |app.generators| != 1 || !app.generators[0].ListGenerator? {
        return;
      }
      var before := DecodeNames(app.generators[0].elements);
      var after := Lookup(appToClusters, app.name);
      assert after == Desired(w, app.name) by {
        assert app.name in AppNames(w);
        TargetsOfDesired(w, app.name);
      }
      assert AppSettled(w, k) <==> after == before;
      if after == before {
        return;
      }
      app := WithTargets(w, k, after, server);
      ok, applied := UpdateApp(k, app, reply(Write(OnApp, k)));
    }

    /** The app with a new list of elements for its targets. */
    method WithTargets(w: World, k: nat, targets: set<string>, server: map<string, string>) returns (app: AppSet)
      requires k < |w.apps| && !AppSettled(w, k) && targets == Desired(w, w.apps[k].name)
      requires Servers(w, |w.clusters|, server)
      ensures AppAfter(w, k, app)
    {
      var elements := RenderElements(w, targets, server);
      app := w.apps[k].(generators := [ListGenerator(elements)]);
    }

    method ReconcileApps(w: World, appToClusters: map<string, set<string>>, server: map<string, string>,
                         reply: Write -> Reply)
      returns (ok: bool, ghost n: nat)
      requires apps == w.apps
      requires Composed(w, |w.profiles|, appToClusters) && Servers(w, |w.clusters|, server)
      modifies this`apps, this`writes
      ensures n <= |w.apps| && AppsUpTo(w, n, apps)
      ensures writes == old(writes) + Due(OnApp, SettledApps(w), n)
      ensures StageEnd(OnApp, SettledApps(w), reply, n, ok)
    {
      ok, n := true, 0;
      for k := 0 to |w.apps|
        invariant n == k && AppsUpTo(w, k, apps)
        invariant ok && AllApplied(Due(OnApp, SettledApps(w), k), reply)
        invariant writes == old(writes) + Due(OnApp, SettledApps(w), k)
      {
        ghost var applied;
        ok, applied := ReconcileApp(w, k, appToClusters, server, reply, old(writes));
        StageStep(OnApp, SettledApps(w), reply, k, ok, applied);
        n := if applied then k + 1 else k;
        if !ok {
          return;
        }
      }
    }

    // -------------------------------------------------------------- the whole pass

    /**
     One global pass. The listings, or any write, may fail, and then the pass stops; `p` says how far
     it came. What it leaves is exactly what the specification allows after that much progress, and
     the writes that took effect are the planned ones up to the first that is not reported as applied.
     It succeeds exactly when the listings do and every planned write is reported as applied.
     */
    method ReconcileEverything(listings: bool, reply: Write -> Reply) returns (ok: bool, ghost p: Progress)
      modifies this
      ensures Reached(old(Store()), Store(), p)
      ensures writes == old(writes) + WritesTo(old(Store()), p)
      ensures ok <==> listings && AllApplied(Plan(old(Store())), reply)
      ensures WritesTo(old(Store()), p) == if listings then Taken(Plan(old(Store())), reply) else []
      ensures ok ==> p == Full(old(Store()))
    {
      p := Progress(0, 0, 0);
      ok := listings;
      if !ok {
        return;
      }
      var w := World(clusters, clusterApps, profiles, apps);
      ghost var clustersOk, profilesOk;
      ok, p, clustersOk, profilesOk := RunLoops(w, reply);
      Appended(old(writes), Due(OnCluster, SettledClusters(w), p.clusters),
               Due(OnProfile, SettledProfiles(w), p.profiles), Due(OnApp, SettledApps(w), p.apps));
      Assemble(w, Store(), p);
      PlanTaken(w, reply, p, clustersOk, profilesOk, ok);
      assert ok ==> p == Full(w);
    }

    /** The three loops, each after the one before it has come to its end. */
    method RunLoops(w: World, reply: Write -> Reply)
      returns (ok: bool, ghost p: Progress, ghost clustersOk: bool, ghost profilesOk: bool)
      requires Store() == w
      modifies this`clusters, this`profiles, this`apps, this`writes
      ensures InOrder(w, p) && clusters == SyncedUpTo(w, p.clusters)
      ensures ProfilesUpTo(w, p.profiles, profiles) && AppsUpTo(w, p.apps, apps)
      ensures writes == old(writes) + Due(OnCluster, SettledClusters(w), p.clusters)
                        + Due(OnProfile, SettledProfiles(w), p.profiles) + Due(OnApp, SettledApps(w), p.apps)
      ensures StageEnd(OnCluster, SettledClusters(w), reply, p.clusters, clustersOk)
      ensures if clustersOk then StageEnd(OnProfile, SettledProfiles(w), reply, p.profiles, profilesOk)
              else p.profiles == 0 && !profilesOk
      ensures if profilesOk then StageEnd(OnApp, SettledApps(w), reply, p.apps, ok) else p.apps == 0 && !ok
    {
      var profileToClusters, server;
      ghost var n, m, k := 0, 0, 0;
      profilesOk := false;
      ok, profileToClusters, server, n := ReconcileClusters(w, reply);
      clustersOk := ok;
      if ok {
        ok, m, k, profilesOk := RunLaterLoops(w, profileToClusters, server, reply);
      }
      p := Progress(n, m, k);
    }

    /** The loops over profiles and apps. */
    method RunLaterLoops(w: World, profileToClusters: map<string, set<string>>, server: map<string, string>,
                         reply: Write -> Reply)
      returns (ok: bool, ghost m: nat, ghost k: nat, ghost profilesOk: bool)
      requires profiles == w.profiles && apps == w.apps
      requires Inverted(w, |w.clusters|, profileToClusters) && Servers(w, |w.clusters|, server)
      modifies this`profiles, this`apps, this`writes
      ensures m <= |w.profiles| && k <= |w.apps| && (k > 0 ==> m == |w.profiles|)
      ensures ProfilesUpTo(w, m, profiles) && AppsUpTo(w, k, apps)
      ensures writes == old(writes) + Due(OnProfile, SettledProfiles(w), m) + Due(OnApp, SettledApps(w), k)
      ensures StageEnd(OnProfile, SettledProfiles(w), reply, m, profilesOk)
      ensures if profilesOk then StageEnd(OnApp, SettledApps(w), reply, k, ok) else k == 0 && !ok
    {
      var appToClusters;
      k := 0;
      ok, appToClusters, m := ReconcileProfiles(w, profileToClusters, reply);
      profilesOk := ok;
      if ok {
        ok, k := ReconcileApps(w, appToClusters, server, reply);
      }
    }
  }

  /** How one of the three loops ends: at its end, or at the first write that is not reported as applied. */
  ghost predicate StageEnd(kind: Kind, settled: seq<bool>, reply: Write -> Reply, n: nat, ok: bool) {
    if ok then n == |settled| && AllApplied(Due(kind, settled, n), reply)
    else
      && n <= |settled|
      && (|| (&& 0 < n && !settled[n - 1] && reply(Write(kind, n - 1)).Lost?
              && AllApplied(Due(kind, settled, n - 1), reply))
          || (&& n < |settled| && !settled[n] && reply(Write(kind, n)).Refused?
              && AllApplied(Due(kind, settled, n), reply)))
  }

  lemma {:induction false} TakenAfter(a: seq<Write>, b: seq<Write>, reply: Write -> Reply)
    requires AllApplied(a, reply)
    ensures Taken(a + b, reply) == a + Taken(b, reply)
    ensures AllApplied(a + b, reply) <==> AllApplied(b, reply)
  {
    if a == [] {
      assert a + b == b;
    } else {
      assert (a + b)[1..] == a[1..] + b;
      TakenAfter(a[1..], b, reply);
      assert [a[0]] + (a[1..] + Taken(b, reply)) == a + Taken(b, reply);
      assert forall i | 0 <= i < |b| :: b[i] == (a + b)[|a| + i];
    }
  }

  lemma {:induction false} DuePrefix(kind: Kind, settled: seq<bool>, n: nat, m: nat)
    requires n <= m <= |settled|
    ensures Due(kind, settled, n) <= Due(kind, settled, m)
    decreases m
  {
    if n < m {
      DuePrefix(kind, settled, n, m - 1);
    }
  }

  /** A loop that ends early has made the writes that take effect of its part of the plan, and of what follows it. */
  lemma StageTaken(kind: Kind, settled: seq<bool>, reply: Write -> Reply, n: nat, rest: seq<Write>)
    requires StageEnd(kind, settled, reply, n, false)
    ensures var plan := Due(kind, settled, |settled|) + rest;
            Taken(plan, reply) == Due(kind, settled, n) && !AllApplied(plan, reply)
  {
    var due := Due(kind, settled, |settled|);
    var stop := if n < |settled| && !settled[n] && reply(Write(kind, n)).Refused?
                   && AllApplied(Due(kind, settled, n), reply) then n else n - 1;
    var before := Due(kind, settled, stop);
    DuePrefix(kind, settled, stop + 1, |settled|);
    assert Due(kind, settled, stop + 1) == before + [Write(kind, stop)];
    var tail := due[|before|..] + rest;
    assert due + rest == before + tail && tail[0] == Write(kind, stop);
    TakenAfter(before, tail, reply);
    assert !AllApplied(tail, reply);
  }

  lemma StageStep(kind: Kind, settled: seq<bool>, reply: Write -> Reply, i: nat, ok: bool, applied: bool)
    requires i < |settled| && AllApplied(Due(kind, settled, i), reply)
    requires ok <==> settled[i] || reply(Write(kind, i)).Applied?
    requires applied <==> settled[i] || !reply(Write(kind, i)).Refused?
    ensures ok ==> AllApplied(Due(kind, settled, i + 1), reply)
    ensures !ok ==> StageEnd(kind, settled, reply, if applied then i + 1 else i, false)
  {
  }

  lemma PlanTaken(w: World, reply: Write -> Reply, p: Progress, clustersOk: bool, profilesOk: bool, ok: bool)
    requires StageEnd(OnCluster, SettledClusters(w), reply, p.clusters, clustersOk)
    requires if clustersOk then StageEnd(OnProfile, SettledProfiles(w), reply, p.profiles, profilesOk)
             else p.profiles == 0 && !profilesOk
    requires if profilesOk then StageEnd(OnApp, SettledApps(w), reply, p.apps, ok) else p.apps == 0 && !ok
    requires InOrder(w, p)
    ensures WritesTo(w, p) == Taken(Plan(w), reply)
    ensures ok <==> AllApplied(Plan(w), reply)
  {
    AllStages(SettledClusters(w), SettledProfiles(w), SettledApps(w), reply, p, clustersOk, profilesOk, ok);
  }

  lemma AllStages(c: seq<bool>, q: seq<bool>, a: seq<bool>, reply: Write -> Reply, p: Progress,
                  clustersOk: bool, profilesOk: bool, ok: bool)
    requires StageEnd(OnCluster, c, reply, p.clusters, clustersOk)
    requires if clustersOk then StageEnd(OnProfile, q, reply, p.profiles, profilesOk)
             else p.profiles == 0 && !profilesOk
    requires if profilesOk then StageEnd(OnApp, a, reply, p.apps, ok) else p.apps == 0 && !ok
    requires p.clusters <= |c| && p.profiles <= |q| && p.apps <= |a|
    ensures var plan := Due(OnCluster, c, |c|) + Due(OnProfile, q, |q|) + Due(OnApp, a, |a|);
            && Taken(plan, reply)
               == Due(OnCluster, c, p.clusters) + Due(OnProfile, q, p.profiles) + Due(OnApp, a, p.apps)
            && (ok <==> AllApplied(plan, reply))
  {
    var first, rest := Due(OnCluster, c, |c|), Due(OnProfile, q, |q|) + Due(OnApp, a, |a|);
    Grouped(first, Due(OnProfile, q, |q|), Due(OnApp, a, |a|));
    Grouped(Due(OnCluster, c, p.clusters), Due(OnProfile, q, p.profiles), Due(OnApp, a, p.apps));
    if !clustersOk {
      StageTaken(OnCluster, c, reply, p.clusters, rest);
    } else {
      TakenAfter(first, rest, reply);
      LaterStages(q, a, reply, p.profiles, p.apps, profilesOk, ok);
    }
  }

  lemma Grouped(x: seq<Write>, y: seq<Write>, z: seq<Write>)
    ensures x + y + z == x + (y + z) && (y == [] && z == [] ==> x + y + z == x)
  {
  }

  lemma LaterStages(q: seq<bool>, a: seq<bool>, reply: Write -> Reply, m: nat, k: nat, profilesOk: bool, ok: bool)
    requires StageEnd(OnProfile, q, reply, m, profilesOk)
    requires if profilesOk then StageEnd(OnApp, a, reply, k, ok) else k == 0 && !ok
    requires k <= |a|
    ensures var rest := Due(OnProfile, q, |q|) + Due(OnApp, a, |a|);
            Taken(rest, reply) == Due(OnProfile, q, m) + Due(OnApp, a, k) && (ok <==> AllApplied(rest, reply))
  {
    var due := Due(OnApp, a, |a|);
    assert due + [] == due;
    if !profilesOk {
      StageTaken(OnProfile, q, reply, m, due);
    } else {
      TakenAfter(Due(OnProfile, q, |q|), due, reply);
      if ok {
        TakenAfter(due, [], reply);
      } else {
        StageTaken(OnApp, a, reply, k, []);
      }
    }
  }

  lemma RenderStep(w: World, elements: seq<Element>, targets: set<string>, name: string)
    requires Sound(w, elements, targets) && name in targets
    ensures Sound(w, elements + [Render(name, ServerOf(w.clusters, name))], targets)
    ensures Decoded(elements + [Render(name, ServerOf(w.clusters, name))]) == Decoded(elements) + {name}
  {
    DecodedAppend(elements, Render(name, ServerOf(w.clusters, name)));
  }

  lemma {:induction false} DecodedAppend(elements: seq<Element>, e: Element)
    requires e.Object? && forall x | x in elements :: x.Object?
    ensures Decoded(elements + [e]) == Decoded(elements) + NameIn(e)
  {
    if elements == [] {
      assert elements + [e] == [e];
      assert Decoded([e][1..]) == {};
    } else {
      assert elements[0] in elements;
      assert (elements + [e])[1..] == elements[1..] + [e];
      DecodedAppend(elements[1..], e);
    }
  }

  /** `server` holds the last server seen for each name among the first `n` clusters. */
  ghost predicate Servers(w: World, n: nat, server: map<string, string>)
    requires n <= |w.clusters|
  {
    && server.Keys == (set k | 0 <= k < n :: w.clusters[k].name)
    && forall name | name in server :: server[name] == ServerOf(w.clusters[..n], name)
  }

  function SyncedUpTo(w: World, n: nat): (clusters: seq<ArgoCluster>)
    requires n <= |w.clusters|
    ensures |clusters| == |w.clusters|
  {
    if n == 0 then w.clusters else SyncedUpTo(w, n - 1)[n - 1 := Synced(w, n - 1)]
  }

  lemma {:induction false} SyncedAt(w: World, n: nat, i: nat)
    requires n <= |w.clusters| && i < |w.clusters|
    ensures SyncedUpTo(w, n)[i] == if i < n then Synced(w, i) else w.clusters[i]
  {
    if n > 0 {
      SyncedAt(w, n - 1, i);
    }
  }

  /** `m` is the attachment of profiles to the first `n` clusters, turned round. */
  ghost predicate Inverted(w: World, n: nat, m: map<string, set<string>>)
    requires n <= |w.clusters|
  {
    forall p :: Lookup(m, p) == ClustersOf(w, n, p)
  }

  ghost predicate ProfilesUpTo(w: World, n: nat, profiles: seq<AppProfile>)
    requires n <= |w.profiles|
  {
    && |profiles| == |w.profiles|
    && forall j | 0 <= j < |w.profiles| ::
         if j < n then ProfileAfter(w, j, profiles[j]) else profiles[j] == w.profiles[j]
  }

  ghost predicate AppsUpTo(w: World, n: nat, apps: seq<AppSet>)
    requires n <= |w.apps|
  {
    && |apps| == |w.apps|
    && forall k | 0 <= k < |w.apps| ::
         if k < n then AppAfter(w, k, apps[k]) else apps[k] == w.apps[k]
  }

  /** `m` gives every existing app the clusters the first `n` profiles bring it. */
  ghost predicate Composed(w: World, n: nat, m: map<string, set<string>>)
    requires n <= |w.profiles|
  {
    forall app | app in AppNames(w) :: Lookup(m, app) == TargetsOf(w, n, app)
  }

  lemma Assemble(w: World, after: World, p: Progress)
    requires InOrder(w, p) && after.clusterApps == w.clusterApps
    requires after.clusters == SyncedUpTo(w, p.clusters)
    requires ProfilesUpTo(w, p.profiles, after.profiles)
    requires AppsUpTo(w, p.apps, after.apps)
    ensures Reached(w, after, p)
  {
    forall i | 0 <= i < |w.clusters| {
      SyncedAt(w, p.clusters, i);
    }
  }

  lemma Appended(earlier: seq<Write>, a: seq<Write>, b: seq<Write>, c: seq<Write>)
    ensures earlier + a + b + c == earlier + (a + b + c)
    ensures earlier + [] == earlier
  {
  }
}

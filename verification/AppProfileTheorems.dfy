/** What global passes guarantee, alone and over runs of passes cut short by failures. */
module AppProfileTheorems {
  import opened Text
  import opened AppProfiles

  // ---------------------------------------------------------------- inputs and outcomes

  /** The two worlds ask for the same result: everything a pass derives its targets from agrees. */
  ghost predicate SameInputs(w: World, v: World) {
    && v.clusterApps == w.clusterApps
    && |v.clusters| == |w.clusters| && |v.profiles| == |w.profiles| && |v.apps| == |w.apps|
    && (forall i | 0 <= i < |w.clusters| ::
          && v.clusters[i].name == w.clusters[i].name
          && v.clusters[i].server == w.clusters[i].server
          && Effective(v, i) == Effective(w, i))
    && (forall j | 0 <= j < |w.profiles| ::
          v.profiles[j].name == w.profiles[j].name && v.profiles[j].appNames == w.profiles[j].appNames)
    && (forall k | 0 <= k < |w.apps| ::
          && v.apps[k].name == w.apps[k].name
          && (Eligible(v.apps[k]) <==> Eligible(w.apps[k]))
          && (!Eligible(w.apps[k]) ==> v.apps[k] == w.apps[k]))
  }

  /** `r` is the state the inputs of `w` call for. */
  ghost predicate OutcomeOf(w: World, r: World) {
    && SameInputs(w, r)
    && (forall i | 0 <= i < |w.clusters| :: r.clusters[i] == Synced(w, i))
    && (forall j | 0 <= j < |w.profiles| ::
          && (set a | a in r.profiles[j].invalid) == InvalidNames(w, j)
          && r.profiles[j].health == Health(InvalidNames(w, j)))
    && (forall k | 0 <= k < |w.apps| && Eligible(w.apps[k]) ::
          CurrentTargets(r.apps[k]) == Desired(w, w.apps[k].name))
  }

  /** Equal but for the order of invalid names and of generator elements. */
  ghost predicate SameOutcome(a: World, b: World) {
    && a.clusters == b.clusters && a.clusterApps == b.clusterApps
    && |a.profiles| == |b.profiles| && |a.apps| == |b.apps|
    && (forall j | 0 <= j < |a.profiles| ::
          && a.profiles[j].name == b.profiles[j].name && a.profiles[j].appNames == b.profiles[j].appNames
          && (set x | x in a.profiles[j].invalid) == (set x | x in b.profiles[j].invalid)
          && a.profiles[j].health == b.profiles[j].health)
    && (forall k | 0 <= k < |a.apps| ::
          if Eligible(a.apps[k]) && Eligible(b.apps[k])
          then a.apps[k].name == b.apps[k].name && CurrentTargets(a.apps[k]) == CurrentTargets(b.apps[k])
          else a.apps[k] == b.apps[k])
  }

  lemma SyncedValue(w: World, i: nat)
    requires i < |w.clusters|
    ensures Synced(w, i).name == w.clusters[i].name && Synced(w, i).server == w.clusters[i].server
    ensures Annotation(Synced(w, i).annotations) == Effective(w, i)
    ensures Synced(w, i).annotations - {PROFILES_KEY} == w.clusters[i].annotations - {PROFILES_KEY}
  {
  }

  lemma EffectiveKept(w: World, v: World, p: Progress, i: nat)
    requires Reached(w, v, p) && i < |w.clusters|
    ensures v.clusters[i].name == w.clusters[i].name && v.clusters[i].server == w.clusters[i].server
    ensures Effective(v, i) == Effective(w, i)
    ensures Synced(v, i) == Synced(w, i)
  {
    SyncedValue(w, i);
  }

  /** No write of a pass touches what the desired state is computed from. */
  lemma InputsKept(w: World, v: World, p: Progress)
    requires Reached(w, v, p)
    ensures SameInputs(w, v)
  {
    forall i | 0 <= i < |w.clusters| {
      EffectiveKept(w, v, p, i);
    }
  }

  lemma {:induction false} SameServers(a: seq<ArgoCluster>, b: seq<ArgoCluster>, name: string)
    requires |a| == |b| && forall i | 0 <= i < |a| :: a[i].name == b[i].name && a[i].server == b[i].server
    ensures ServerOf(a, name) == ServerOf(b, name)
  {
    if a != [] {
      SameServers(a[..|a| - 1], b[..|b| - 1], name);
    }
  }

  lemma SameAttached(w: World, v: World, profile: string, name: string)
    requires SameInputs(w, v)
    ensures Attached(w, |w.clusters|, profile, name) <==> Attached(v, |v.clusters|, profile, name)
  {
  }

  lemma SameWanted(w: World, v: World, app: string, name: string)
    requires SameInputs(w, v)
    ensures Wanted(w, |w.profiles|, app, name) <==> Wanted(v, |v.profiles|, app, name)
  {
    forall j | 0 <= j < |w.profiles| {
      SameAttached(w, v, w.profiles[j].name, name);
    }
  }

  lemma SameDesired(w: World, v: World, app: string)
    requires SameInputs(w, v)
    ensures Desired(w, app) == Desired(v, app)
  {
    assert Names(w) == Names(v);
    forall name {
      SameWanted(w, v, app, name);
    }
  }

  lemma SameInvalid(w: World, v: World, j: nat)
    requires SameInputs(w, v) && j < |w.profiles|
    ensures InvalidNames(w, j) == InvalidNames(v, j)
  {
    assert AppNames(w) == AppNames(v);
  }

  // ---------------------------------------------------------------- one completed pass

  lemma CompletedPass(w: World, r: World)
    requires Reached(w, r, Full(w))
    ensures OutcomeOf(w, r)
  {
    InputsKept(w, r, Full(w));
  }

  /** The text names a profile: it is not empty, and the name stands between commas or ends. */
  ghost predicate NamedIn(text: string, profile: string) {
    text != "" && Piece(text, ',', profile)
  }

  lemma NamedInIff(text: string, profile: string)
    ensures NamedIn(text, profile) <==> profile in ProfilesIn(text)
  {
    PieceIff(text, ',', profile);
  }

  /** The value of the profiles annotation, which reads as empty when it is missing. */
  ghost predicate Says(annotations: map<string, string>, text: string) {
    if PROFILES_KEY in annotations then text == annotations[PROFILES_KEY] else text == ""
  }

  /** Entry `k` is the last cluster app listed under this name. */
  ghost predicate LastApp(items: seq<ClusterApp>, k: int, name: string) {
    0 <= k < |items| && items[k].name == name && forall l | k < l < |items| :: items[l].name != name
  }

  /** The annotation that counts: the cluster app's if there is one, the cluster's own otherwise. */
  ghost predicate Counts(w: World, i: nat, text: string)
    requires i < |w.clusters|
  {
    var name := w.clusters[i].name;
    || (exists k :: LastApp(w.clusterApps, k, name) && Says(w.clusterApps[k].annotations, text))
    || (&& (forall k | 0 <= k < |w.clusterApps| :: w.clusterApps[k].name != name)
        && Says(w.clusters[i].annotations, text))
  }

  /** The position of the last cluster app of that name, or -1. */
  lemma {:induction false} LastNamedIs(items: seq<ClusterApp>, name: string) returns (k: int)
    ensures LastNamed(items, name).Some? ==> LastApp(items, k, name) && LastNamed(items, name) == Some(items[k])
    ensures LastNamed(items, name).None? ==> forall l | 0 <= l < |items| :: items[l].name != name
  {
    k := |items| - 1;
    if items != [] && items[k].name != name {
      var front := items[..k];
      k := LastNamedIs(front, name);
      assert forall l | 0 <= l < |front| :: front[l] == items[l];
    }
  }

  lemma CountsIff(w: World, i: nat, text: string)
    requires i < |w.clusters|
    ensures Counts(w, i, text) <==> text == Effective(w, i)
  {
    var k := LastNamedIs(w.clusterApps, w.clusters[i].name);
    if Managed(w, i).Some? {
      assert Says(w.clusterApps[k].annotations, Effective(w, i));
      assert forall l | LastApp(w.clusterApps, l, w.clusters[i].name) :: l == k;
    }
  }

  /** Some profile that lists the app is named in the annotation that counts for a cluster of that name. */
  ghost predicate Selected(w: World, app: string, name: string) {
    exists i, j, text :: 0 <= i < |w.clusters| && 0 <= j < |w.profiles|
                         && w.clusters[i].name == name && app in w.profiles[j].appNames
                         && Counts(w, i, text) && NamedIn(text, w.profiles[j].name)
  }

  lemma DesiredIsSelected(w: World, app: string, name: string)
    ensures name in Desired(w, app) <==> Selected(w, app, name)
  {
    if Selected(w, app, name) {
      SelectedIsDesired(w, app, name);
    }
    if name in Desired(w, app) {
      var j :| 0 <= j < |w.profiles| && app in w.profiles[j].appNames
               && Attached(w, |w.clusters|, w.profiles[j].name, name);
      var i :| 0 <= i < |w.clusters| && w.clusters[i].name == name
               && w.profiles[j].name in ProfilesIn(Effective(w, i));
      CountsIff(w, i, Effective(w, i));
      NamedInIff(Effective(w, i), w.profiles[j].name);
    }
  }

  lemma SelectedIsDesired(w: World, app: string, name: string)
    requires Selected(w, app, name)
    ensures name in Desired(w, app)
  {
    var i, j, text :| 0 <= i < |w.clusters| && 0 <= j < |w.profiles|
                      && w.clusters[i].name == name && app in w.profiles[j].appNames
                      && Counts(w, i, text) && NamedIn(text, w.profiles[j].name);
    CountsIff(w, i, text);
    NamedInIff(text, w.profiles[j].name);
    assert Attached(w, |w.clusters|, w.profiles[j].name, name);
  }

  /**
     After a completed pass an app with one list generator targets exactly the registered
     clusters to which some profile listing the app is attached; other apps are unchanged.
   */
  lemma Exactness(w: World, r: World, k: nat)
    requires Reached(w, r, Full(w)) && k < |w.apps|
    ensures var app := w.apps[k];
            if |app.generators| == 1 && app.generators[0].ListGenerator?
            then Eligible(r.apps[k])
                 && forall name :: name in CurrentTargets(r.apps[k]) <==> Selected(w, app.name, name)
            else r.apps[k] == app
  {
    assert AppAfter(w, k, r.apps[k]);
    if Eligible(w.apps[k]) {
      assert CurrentTargets(r.apps[k]) == Desired(w, w.apps[k].name);
      forall name
        ensures name in CurrentTargets(r.apps[k]) <==> Selected(w, w.apps[k].name, name)
      {
        DesiredIsSelected(w, w.apps[k].name, name);
      }
    }
  }

  /** A list without commas, other than [] and [""], names exactly its items. */
  lemma JoinedNames(names: seq<string>, profile: string)
    requires names != [] && names != [""] && Free(names, ',')
    ensures NamedIn(Join(names, ','), profile) <==> profile in names
  {
    SplitJoinFree(names, ',');
    PieceIff(Join(names, ','), ',', profile);
    assert Split("", ',') == [""];
  }

  /** So a cluster annotated with such a list is targeted exactly by the apps that some profile in it lists. */
  lemma ExactnessForList(w: World, r: World, k: nat, i: nat, names: seq<string>)
    requires Reached(w, r, Full(w)) && k < |w.apps| && Eligible(w.apps[k]) && i < |w.clusters|
    requires names != [] && names != [""] && Free(names, ',') && Counts(w, i, Join(names, ','))
    requires forall l | 0 <= l < |w.clusters| && w.clusters[l].name == w.clusters[i].name :: l == i
    ensures Eligible(r.apps[k])
    ensures w.clusters[i].name in CurrentTargets(r.apps[k]) <==>
              exists j :: 0 <= j < |w.profiles| && w.profiles[j].name in names
                          && w.apps[k].name in w.profiles[j].appNames
  {
    Exactness(w, r, k);
    var app, name := w.apps[k].name, w.clusters[i].name;
    CountsIff(w, i, Join(names, ','));
    if Selected(w, app, name) {
      var l, j, text :| 0 <= l < |w.clusters| && 0 <= j < |w.profiles|
                        && w.clusters[l].name == name && app in w.profiles[j].appNames
                        && Counts(w, l, text) && NamedIn(text, w.profiles[j].name);
      CountsIff(w, l, text);
      JoinedNames(names, w.profiles[j].name);
    }
    if j :| 0 <= j < |w.profiles| && w.profiles[j].name in names && app in w.profiles[j].appNames {
      JoinedNames(names, w.profiles[j].name);
      assert Selected(w, app, name);
    }
  }

  /** A name counts exactly if an element carries it and no element up to there is malformed. */
  lemma {:induction false} DecodedIff(elements: seq<Element>, name: string)
    ensures name in Decoded(elements) <==> exists i :: CarriesAt(elements, i, name)
  {
    if elements != [] && elements[0].Object? {
      var rest := elements[1..];
      DecodedIff(rest, name);
      if i :| CarriesAt(rest, i, name) {
        assert CarriesAt(elements, i + 1, name);
      }
      if i :| CarriesAt(elements, i, name) {
        assert i > 0 ==> CarriesAt(rest, i - 1, name);
      }
      assert name in NameIn(elements[0]) ==> CarriesAt(elements, 0, name);
    }
  }

  ghost predicate CarriesAt(elements: seq<Element>, i: int, name: string) {
    && 0 <= i < |elements| && (forall j | 0 <= j <= i :: elements[j].Object?)
    && NAME_KEY in elements[i].fields && elements[i].fields[NAME_KEY] == JString(name)
  }

  /** A profile is degraded exactly when it lists an app that does not exist, and says which. */
  lemma StatusSoundness(w: World, r: World, j: nat)
    requires Reached(w, r, Full(w)) && j < |w.profiles|
    ensures forall app :: app in r.profiles[j].invalid <==>
              app in r.profiles[j].appNames && forall k | 0 <= k < |r.apps| :: r.apps[k].name != app
    ensures r.profiles[j].health == if r.profiles[j].invalid == [] then HEALTHY else DEGRADED
  {
    CompletedPass(w, r);
    SameInvalid(w, r, j);
    var invalid := r.profiles[j].invalid;
    forall app
      ensures app in invalid <==> app in InvalidNames(r, j)
    {
      assert app in invalid <==> app in set a | a in invalid;
    }
    if invalid != [] {
      assert invalid[0] in InvalidNames(r, j);
    }
  }

  /** Cluster `i` is the last one listed under its name. */
  ghost predicate LastListed(clusters: seq<ArgoCluster>, i: int, name: string) {
    0 <= i < |clusters| && clusters[i].name == name && forall l | i < l < |clusters| :: clusters[l].name != name
  }

  /** The position of the last cluster of that name, whose server counts. */
  lemma {:induction false} ServerListed(clusters: seq<ArgoCluster>, name: string) returns (i: int)
    requires exists k :: 0 <= k < |clusters| && clusters[k].name == name
    ensures LastListed(clusters, i, name) && clusters[i].server == ServerOf(clusters, name)
  {
    i := |clusters| - 1;
    if clusters[i].name != name {
      var front := clusters[..i];
      assert forall l | 0 <= l < |front| :: front[l] == clusters[l];
      i := ServerListed(front, name);
    }
  }

  /** Every element a pass writes, cut short or not, pairs a desired cluster with the server listed last for it. */
  lemma ElementsSound(w: World, v: World, p: Progress, k: nat, e: Element)
    requires Reached(w, v, p) && k < |w.apps| && v.apps[k] != w.apps[k]
    requires e in v.apps[k].generators[0].elements
    ensures exists i :: 0 <= i < |w.clusters| && LastListed(w.clusters, i, w.clusters[i].name)
                        && e == Render(w.clusters[i].name, w.clusters[i].server)
                        && w.clusters[i].name in Desired(w, w.apps[k].name)
  {
    assert k < p.apps && AppAfter(w, k, v.apps[k]);
    var name :| name in Desired(w, w.apps[k].name) && e == Render(name, ServerOf(w.clusters, name));
    assert name in Names(w);
    var i := ServerListed(w.clusters, name);
    assert w.clusters[i].name == name;
  }

  /** Every element of an app is one the pass would write: a listed name with a server listed for it. */
  ghost predicate Current(w: World, app: AppSet)
    requires Eligible(app)
  {
    forall e | e in app.generators[0].elements :: FromListing(w, e)
  }

  ghost predicate FromListing(w: World, e: Element) {
    exists i :: 0 <= i < |w.clusters| && e == Render(w.clusters[i].name, w.clusters[i].server)
  }

  lemma FromListingKept(w: World, r: World, e: Element)
    requires Reached(w, r, Full(w))
    ensures FromListing(r, e) <==> FromListing(w, e)
  {
    InputsKept(w, r, Full(w));
    if FromListing(w, e) {
      var i :| 0 <= i < |w.clusters| && e == Render(w.clusters[i].name, w.clusters[i].server);
      assert r.clusters[i].name == w.clusters[i].name && r.clusters[i].server == w.clusters[i].server;
    }
  }

  /**
     Only names are compared, so a completed pass does not bring every server up to date: an app's
     elements all have listed servers afterwards exactly when its names were out of date, or its
     elements had listed servers before.
   */
  lemma ServersCurrentIff(w: World, r: World, k: nat)
    requires Reached(w, r, Full(w)) && k < |w.apps| && Eligible(w.apps[k])
    ensures Eligible(r.apps[k])
    ensures Current(r, r.apps[k])
       <==> CurrentTargets(w.apps[k]) != Desired(w, w.apps[k].name) || Current(w, w.apps[k])
  {
    var app := w.apps[k];
    assert AppAfter(w, k, r.apps[k]);
    if AppSettled(w, k) {
      forall e | e in app.generators[0].elements
        ensures FromListing(r, e) <==> FromListing(w, e)
      {
        FromListingKept(w, r, e);
      }
    } else {
      assert CurrentTargets(r.apps[k]) != CurrentTargets(app);
      forall e | e in r.apps[k].generators[0].elements
        ensures FromListing(r, e)
      {
        ElementsSound(w, r, Full(w), k, e);
        FromListingKept(w, r, e);
      }
    }
  }

  /** A cluster that moved to another server: a completed pass leaves the app's element with the old one. */
  lemma StaleServer()
    ensures Reached(Moved(), Moved(), Full(Moved())) && !Current(Moved(), Moved().apps[0])
  {
    var w, e := Moved(), Render("c", "old");
    DecodedMoved();
    MovedDesired();
    assert AppSettled(w, 0) && ClusterSettled(w, 0) && ProfileAfter(w, 0, w.profiles[0]);
    assert e.fields[SERVER_KEY] == JString("old") != JString("new") by {
      assert "old"[0] != "new"[0];
    }
    assert Render(w.clusters[0].name, w.clusters[0].server).fields[SERVER_KEY] == JString("new");
    assert e in w.apps[0].generators[0].elements && !FromListing(w, e);
  }

  function Moved(): World {
    World([ArgoCluster("c", "new", map[PROFILES_KEY := "p"])],
          [],
          [AppProfile("p", ["a"], [], HEALTHY)],
          [AppSet("a", [ListGenerator([Render("c", "old")])])])
  }

  lemma DecodedMoved()
    ensures CurrentTargets(Moved().apps[0]) == {"c"}
  {
    var elements := [Render("c", "old")];
    assert elements[1..] == [];
  }

  lemma MovedDesired()
    ensures Desired(Moved(), "a") == {"c"}
  {
    var w := Moved();
    SplitWhole("p", ',');
    assert "p" in Split("p", ',');
    assert "p" in ProfilesIn(Effective(w, 0));
    assert |w.clusters| == 1 && w.clusters[0].name == "c" && Attached(w, 1, "p", "c");
    assert w.profiles[0].name == "p" && "a" in w.profiles[0].appNames;
    assert Wanted(w, 1, "a", "c");
  }

  // ---------------------------------------------------------------- work is conserved

  /** A settled object needs no write; an untouched one still needs the write it needed. */
  lemma ClusterLeft(w: World, v: World, p: Progress, i: nat)
    requires Reached(w, v, p) && i < |w.clusters|
    ensures ClusterSettled(v, i) <==> i < p.clusters || ClusterSettled(w, i)
  {
    EffectiveKept(w, v, p, i);
  }

  lemma ProfileLeft(w: World, v: World, p: Progress, j: nat)
    requires Reached(w, v, p) && j < |w.profiles|
    ensures ProfileSettled(v, j) <==> j < p.profiles || ProfileSettled(w, j)
  {
    InputsKept(w, v, p);
    SameInvalid(w, v, j);
  }

  lemma AppLeft(w: World, v: World, p: Progress, k: nat)
    requires Reached(w, v, p) && k < |w.apps|
    ensures AppSettled(v, k) <==> k < p.apps || AppSettled(w, k)
  {
    InputsKept(w, v, p);
    SameDesired(w, v, w.apps[k].name);
  }

  /** With the first `done` objects settled, what is due is what was due after them. */
  lemma {:induction false} DueLeft(kind: Kind, before: seq<bool>, after: seq<bool>, done: nat, n: nat)
    requires n <= |before| == |after|
    requires forall i | 0 <= i < n :: after[i] <==> i < done || before[i]
    ensures Due(kind, before, n) == Due(kind, before, Min(n, done)) + Due(kind, after, n)
    ensures n <= done ==> Due(kind, after, n) == []
  {
    if n > 0 {
      DueLeft(kind, before, after, done, n - 1);
    }
  }

  function Min(a: nat, b: nat): nat {
    if a < b then a else b
  }

  lemma Interleave(c: seq<Write>, c': seq<Write>, q: seq<Write>, q': seq<Write>, a: seq<Write>, a': seq<Write>)
    requires q + a == [] || c' == []
    requires a == [] || q' == []
    ensures c + c' + (q + q') + (a + a') == c + q + a + (c' + q' + a')
  {
    if a != [] {
      assert q + q' == q && c + c' == c;
    } else if q != [] {
      assert c + c' == c && a + a' == a';
    } else {
      assert q + q' == q' && a + a' == a';
    }
  }

  /** What an aborted pass wrote, followed by what is left to write, is the original plan. */
  lemma PlanSplits(w: World, v: World, p: Progress)
    requires Reached(w, v, p)
    ensures Plan(w) == WritesTo(w, p) + Plan(v)
  {
    forall i | 0 <= i < |w.clusters| { ClusterLeft(w, v, p, i); }
    forall j | 0 <= j < |w.profiles| { ProfileLeft(w, v, p, j); }
    forall k | 0 <= k < |w.apps| { AppLeft(w, v, p, k); }
    var sc, sp, sa := SettledClusters(w), SettledProfiles(w), SettledApps(w);
    var tc, tp, ta := SettledClusters(v), SettledProfiles(v), SettledApps(v);
    DueLeft(OnCluster, sc, tc, p.clusters, |sc|);
    DueLeft(OnProfile, sp, tp, p.profiles, |sp|);
    DueLeft(OnApp, sa, ta, p.apps, |sa|);
    Interleave(Due(OnCluster, sc, p.clusters), Due(OnCluster, tc, |tc|),
               Due(OnProfile, sp, p.profiles), Due(OnProfile, tp, |tp|),
               Due(OnApp, sa, p.apps), Due(OnApp, ta, |ta|));
  }

  ghost predicate AllSettled(w: World) {
    && (forall i | 0 <= i < |w.clusters| :: ClusterSettled(w, i))
    && (forall j | 0 <= j < |w.profiles| :: ProfileSettled(w, j))
    && (forall k | 0 <= k < |w.apps| :: AppSettled(w, k))
  }

  lemma SettledStays(r: World, again: World, p: Progress)
    requires AllSettled(r) && Reached(r, again, p)
    ensures again == r
  {
    assert again.clusters == r.clusters by {
      forall i | 0 <= i < |r.clusters|
        ensures again.clusters[i] == r.clusters[i]
      {
        assert ClusterSettled(r, i);
      }
    }
    assert again.profiles == r.profiles by {
      forall j | 0 <= j < |r.profiles|
        ensures again.profiles[j] == r.profiles[j]
      {
        assert ProfileSettled(r, j);
      }
    }
    assert again.apps == r.apps by {
      forall k | 0 <= k < |r.apps|
        ensures again.apps[k] == r.apps[k]
      {
        assert AppSettled(r, k);
      }
    }
  }

  /** A pass straight after a completed one has nothing to write, and changes nothing. */
  lemma Quiescence(w: World, r: World, again: World, p: Progress)
    requires Reached(w, r, Full(w)) && Reached(r, again, p)
    ensures Plan(r) == [] && WritesTo(r, p) == [] && again == r
  {
    PlanSplits(w, r, Full(w));
    PlanSplits(r, again, p);
    forall i | 0 <= i < |r.clusters| { ClusterLeft(w, r, Full(w), i); }
    forall j | 0 <= j < |r.profiles| { ProfileLeft(w, r, Full(w), j); }
    forall k | 0 <= k < |r.apps| { AppLeft(w, r, Full(w), k); }
    SettledStays(r, again, p);
  }

  // ---------------------------------------------------------------- runs of aborted passes

  /** The worlds between successive passes, each of which may have been cut short anywhere. */
  ghost predicate Attempts(ws: seq<World>, ps: seq<Progress>) {
    && |ws| == |ps| + 1
    && forall i | 0 <= i < |ps| :: Reached(ws[i], ws[i + 1], ps[i])
  }

  lemma AttemptsTail(ws: seq<World>, ps: seq<Progress>)
    requires Attempts(ws, ps) && ps != []
    ensures Reached(ws[0], ws[1], ps[0]) && Attempts(ws[1..], ps[1..])
  {
    assert Reached(ws[0], ws[0 + 1], ps[0]);
    forall i | 0 <= i < |ps[1..]|
      ensures Reached(ws[1..][i], ws[1..][i + 1], ps[1..][i])
    {
      assert Reached(ws[i + 1], ws[i + 1 + 1], ps[i + 1]);
    }
  }

  ghost function AllWrites(ws: seq<World>, ps: seq<Progress>): seq<Write>
    requires Attempts(ws, ps)
  {
    if ps == [] then []
    else
      AttemptsTail(ws, ps);
      WritesTo(ws[0], ps[0]) + AllWrites(ws[1..], ps[1..])
  }

  lemma OutcomeThrough(w: World, v: World, p: Progress, r: World)
    requires Reached(w, v, p) && OutcomeOf(v, r)
    ensures OutcomeOf(w, r)
  {
    InputsKept(w, v, p);
    forall i | 0 <= i < |w.clusters|
      ensures Synced(v, i) == Synced(w, i)
    {
      EffectiveKept(w, v, p, i);
    }
    forall j | 0 <= j < |w.profiles|
      ensures InvalidNames(v, j) == InvalidNames(w, j)
    {
      SameInvalid(w, v, j);
    }
    forall k | 0 <= k < |w.apps|
      ensures Desired(v, w.apps[k].name) == Desired(w, w.apps[k].name)
    {
      SameDesired(w, v, w.apps[k].name);
    }
  }

  /**
     Any number of aborted passes followed by a completed one settle on the state the inputs
     of the first world call for.
   */
  lemma {:induction false} EventualOutcome(ws: seq<World>, ps: seq<Progress>, r: World)
    requires Attempts(ws, ps)
    requires Reached(ws[|ps|], r, Full(ws[|ps|]))
    ensures OutcomeOf(ws[0], r)
  {
    if ps == [] {
      CompletedPass(ws[0], r);
    } else {
      AttemptsTail(ws, ps);
      EventualOutcome(ws[1..], ps[1..], r);
      OutcomeThrough(ws[0], ws[1], ps[0], r);
    }
  }

  /** However a pass is cut into aborted attempts, together they write what one clean pass would. */
  lemma {:induction false} WorkConserved(ws: seq<World>, ps: seq<Progress>)
    requires Attempts(ws, ps)
    ensures AllWrites(ws, ps) + Plan(ws[|ps|]) == Plan(ws[0])
  {
    if ps != [] {
      AttemptsTail(ws, ps);
      WorkConserved(ws[1..], ps[1..]);
      PlanSplits(ws[0], ws[1], ps[0]);
      Assoc(WritesTo(ws[0], ps[0]), AllWrites(ws[1..], ps[1..]), Plan(ws[|ps|]));
    }
  }

  lemma Assoc(a: seq<Write>, b: seq<Write>, c: seq<Write>)
    ensures a + b + c == a + (b + c)
  {
  }

  /** Confluence: failures on the way make no difference to where the passes end up. */
  lemma Confluence(ws: seq<World>, ps: seq<Progress>, r: World, direct: World)
    requires Attempts(ws, ps)
    requires Reached(ws[|ps|], r, Full(ws[|ps|]))
    requires Reached(ws[0], direct, Full(ws[0]))
    ensures SameOutcome(r, direct)
  {
    EventualOutcome(ws, ps, r);
    CompletedPass(ws[0], direct);
    assert r.clusters == direct.clusters;
  }
}

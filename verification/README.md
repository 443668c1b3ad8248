# Verified model of Karlon's fleet management

Karlon manages fleets of Kubernetes clusters through Argo CD. This project models the parts of it
that keep state in several places at once, and proves that those places end up in agreement:

- **The global application-profile pass** turns "cluster names its profiles" and "profile lists its
  apps" into "app targets these clusters" and rewrites Argo CD objects accordingly. Every write may
  be refused, may fail although it took effect, and a failure ends the pass at once.
  `AppProfiles` states what is wanted, without loops; `AppProfileReconciler` is the pass itself;
  `AppProfileTheorems` is about single passes and runs of passes.
- **The cluster controller** is a persisted state machine that creates and tears down two Argo CD
  applications and a git directory. `ClusterController` gives one pass as a function of the stored
  objects and of the replies the remote calls give, `ClusterReconciler` is the controller's
  step-by-step code, `ClusterRuns` proves safety over all runs with failing calls, user steps and
  others changing git, `ClusterProgress` proves when creation and teardown finish, and exactly when
  they cannot, `ClusterApps` says what the two applications look like and what the recorded states mean,
  and `ClusterFrames` what a cluster touches, and what it leaves behind.
  `EndToEnd` puts the two reconcilers together.
- **Cluster templates**: a normaliser of manifest directories and the separate validator that must
  accept what it leaves (`BaseCluster`), and its use on a clone of a repository (`TemplateRepos`).
- **Updates**: of profiles (`Profiles`, and `ProfileHistories` for what they hold afterwards), of
  cluster specifications kept as maps of strings (`ClusterSpecs`), and of first-generation clusters
  (`RootApps`), whose provider, cloud and cluster type may never change.
- **Git paths** (`Paths`) and **the alias registry** (`GitRepos`), a file with a list and a slot
  that repeats one of its entries.

`Text` holds the few functions the Go code takes from its standard library: splitting and joining
on a separator, and decimal machine integers of 64 bits. `Remote` holds the three ways a remote write
can end.

Code that changes things step by step is a class with methods; each method's contract gives the whole
new state, as a function of the old one or as the exact set of states the specification allows, and
the theorems are about that specification. Remote calls that can fail are parameters (`Calls`,
`Reply`, `Rewrite`, `Writes`), and every theorem is for all of them.

`dafny verify dfyconfig.toml` verifies everything.

## Results about the code that are not what one would expect

- The global pass compares cluster names only, so an app keeps a server that is out of date until its
  set of names changes (`AppProfileTheorems.StaleServer`, `ServersCurrentIff`).
- The check in `pkg/cluster/create.go:39-45`, which a comment there calls wrong for second-generation
  clusters, never stops a run: when it is reached, no cluster app exists (`ClusterRuns.CreateNeverBlocked`).
- If the override directory is removed and the status write after it is refused, or the removal takes
  effect but is reported as failed, teardown can never finish (`ClusterProgress.UnrecordedRemoval`,
  `StuckReachable`, `StuckForever`), unless somebody else pushes something into the removed directory
  (`StuckStays`). `StuckStepIff` lists exactly the steps that lead there. None of them occurs if no pass
  loses a removal in one of these two ways, the resource keeps at least one annotation, overrides have a
  base path and others leave them alone; then teardown finishes (`CarefulTeardown`).
- Likewise for creation: if the override's push takes effect but is reported as failed, or the status
  write after it is refused, the next pass generates the same tree again and commits and pushes it
  although nothing changed (`pkg/cluster/git.go:223-232`). Where that is refused, creation never goes on
  (`ClusterProgress.UnrecordedPush`, `BlockedForever`), and neither does it where a deleted cluster left
  its override behind (`ClusterFrames.LeftoverBlocks`). `CreationIff` says exactly when it completes.
- When the last annotation of a Cluster resource goes, the controller wipes the cluster app's record of
  its override directory, after which deletion is stuck (`ClusterProgress.WipedRecord`).
- An override directory stays in git after teardown if the resource is deleted before its cluster app
  exists, even if no call fails (`ClusterFrames.LeftoverReachable`); `OverrideLeftIff` says exactly when.
- Writing or removing an override directory deletes everything below it: with the base path "x" for
  cluster "a" and "x/a" for cluster "b", or the repository's root for "a" and "a" for "b", each creation
  or teardown of "a" deletes the override of "b" (`ClusterFrames.NestedOverrideLost`,
  `CreationLosesIff`). `OverlapIff` says when one cluster's
  override lies below another's, `FlatFrameIff` when a pass touches its own directory only.
- A path does not survive composing and decomposing unless the base path is not empty and already
  clean (`Paths.RoundTrip`), and with an empty base path the path an override is written to and the one it
  is looked for under differ, by a leading slash (`Paths.OverridePathsAgree`).
- A bundle or tag list is read back differently if an item holds a comma, or if the list is one
  empty string (`Profiles.CommaRoundTrip`). A profile update without bundles rewrites such a bundle
  list, and only such a list (`Profiles.NoBundlesNoChange`).
- The flag `--clear` of `pkg/cmd/profile/update.go:32-36` is meant to give a profile the empty bundle
  set, but passes nil, which `pkg/profile/update.go:15-16` and its code take as no change. The bundles
  are empty afterwards exactly if there was nothing to clear (`Profiles.ClearIff`, `ClearKeepsBundle`).
- An update of a second-generation cluster that names a specification and a profile dereferences nil,
  because the workload application has no Helm section (`RootApps.SecondGenerationCrashes`);
  `NilDereferenceIff` says exactly when a call does. The command that would call the update is commented
  out in `pkg/cmd/cluster/cluster.go:29-30`, so this is about the exported function.
- The autoscaler makes `ConstructRootApp` collect differences to ignore also for a second-generation
  application, but they are only stored for a first-generation one (`RootApps.SecondGenerationHasNoTag`).
- The checks "git repo reference cannot change" (`pkg/cluster/update.go:100-103`) and "default alias
  already exists" (`pkg/cmd/gitrepo/register.go:67-70`) can never fail (`RootApps.GitReferenceNeverChanges`,
  `GitRepos.DefaultNeverTaken`).
- Looking up the alias "default" succeeds with an empty URL when nothing is registered under it
  (`GitRepos.LookupAgrees`).

## Model

| member | source | states |
|---|---|---|
| AppProfileReconciler.Reconciler.ReconcileEverything | pkg/appprofile/reconcile.go:55-282 | one global pass, for every way its listings and writes end: it succeeds iff all planned writes are reported as applied; the writes that take effect are the planned ones up to the first that is not; the objects dealt with so far are as wanted, all others untouched |
| AppProfileReconciler.Reconciler.ReconcileClusters | pkg/appprofile/reconcile.go:119-176 | cluster annotations follow the cluster apps, the profile-to-clusters map is the inverse of the effective annotations, and every cluster's server is recorded |
| AppProfileReconciler.Reconciler.SyncCluster | pkg/appprofile/reconcile.go:127-175 | one cluster: written only if its annotation differs from its cluster app's |
| AppProfileReconciler.Reconciler.UpdateProfileToClustersMap | pkg/appprofile/reconcile.go:284-299 | adds the cluster under each comma-separated profile name, under none for an empty annotation |
| AppProfileReconciler.Reconciler.ReconcileProfiles | pkg/appprofile/reconcile.go:178-223 | statuses follow which listed apps exist, and the app-to-clusters map is the composition of the two relations |
| AppProfileReconciler.Reconciler.CollectApps | pkg/appprofile/reconcile.go:187-199 | one profile's valid apps gain its clusters, its other apps are the invalid names |
| AppProfileReconciler.Reconciler.DecodeNames | pkg/appprofile/reconcile.go:239-257 | the cluster names of a generator, up to the first element that does not decode |
| AppProfileReconciler.Reconciler.RenderElements | pkg/appprofile/reconcile.go:265-272 | new elements in any order, decoding to exactly the targets, each with the server recorded for its name |
| AppProfileReconciler.Reconciler.ReconcileApps | pkg/appprofile/reconcile.go:225-279 | apps with one list generator get the wanted targets, written only if the set of names differs; others are skipped |
| AppProfiles.ClustersOfAttached | pkg/appprofile/reconcile.go:120-175 | the clusters accumulated for a profile are those with it in their effective annotation |
| AppProfiles.TargetsOfDesired | pkg/appprofile/reconcile.go:180-199 | the targets accumulated for an app are those some profile listing it is attached to |
| AppProfileTheorems.InputsKept | pkg/appprofile/reconcile.go:119-279 | no write of a pass, complete or not, changes what the wanted state is computed from |
| AppProfileTheorems.Exactness | pkg/appprofile/reconcile.go:120-299 | after a completed pass an app with one list generator targets exactly the registered clusters for which the annotation that counts has, between commas or ends, the name of a profile listing the app; other apps are unchanged |
| AppProfileTheorems.ExactnessForList | pkg/appprofile/reconcile.go:284-299 | a cluster annotated with a list of names joined by commas is targeted by exactly the apps that some existing profile in the list lists |
| AppProfileTheorems.CountsIff | pkg/appprofile/reconcile.go:129-142 | the annotation that counts is the last listed cluster app's of that name, or the cluster's own without one, and reads as empty when missing |
| AppProfileTheorems.DecodedIff | pkg/appprofile/reconcile.go:240-257 | a name counts as a present target iff an element carries it as a string and no element up to there is malformed |
| AppProfileTheorems.StatusSoundness | pkg/appprofile/reconcile.go:178-222 | after a completed pass a profile's invalid names are exactly its listed apps that do not exist, and it is degraded iff there is one |
| AppProfileTheorems.ElementsSound | pkg/appprofile/reconcile.go:265-278 | every element a pass writes, cut short or not, pairs a wanted cluster with the server listed last under that name, never with a missing key |
| AppProfileTheorems.ServersCurrentIff | pkg/appprofile/reconcile.go:258-271 | after a completed pass an app's elements all have listed servers iff its names were out of date or its elements had listed servers before |
| AppProfileTheorems.StaleServer | pkg/appprofile/reconcile.go:262-264 | an app whose cluster moved to another server keeps the old one |
| AppProfileTheorems.PlanSplits | pkg/appprofile/reconcile.go:166-174 | what a pass cut short wrote, followed by what is then still to be written, is the original plan |
| AppProfileTheorems.WorkConserved | pkg/appprofile/reconcile.go:119-279 | passes cut short anywhere, any number of them, together write what one clean pass would, nothing twice and nothing missing |
| AppProfileTheorems.Quiescence | pkg/appprofile/reconcile.go:145-174 | a pass straight after a completed one writes nothing |
| AppProfileTheorems.EventualOutcome | pkg/appprofile/reconcile.go:119-279 | any passes cut short followed by a completed one reach the state the first inputs call for |
| AppProfileTheorems.Confluence | pkg/appprofile/reconcile.go:119-279 | that state is the one a single clean pass reaches, but for the order of names and elements |
| ClusterReconciler.Reconciler.Reconcile | pkg/controllers/cluster_controller.go:78-254 | one pass of the controller over the stored resource, applications and git directories, for all replies of its calls, with its answer |
| ClusterReconciler.Reconciler.SyncProfileAnnotation | pkg/controllers/cluster_controller.go:225-253 | the profile annotation is copied to the cluster app, and nil annotations wipe the app's |
| ClusterReconciler.Reconciler.UpdateState | pkg/controllers/cluster_controller.go:256-272 | the status write, which may be refused or lost |
| ClusterReconciler.Reconciler.ReconcileDelete | pkg/controllers/cluster_controller.go:274-374 | one pass for a resource being deleted |
| ClusterReconciler.Reconciler.Create | pkg/cluster/create.go:39-53 | creation of the kkarlon app, refused if an application has the cluster's own name |
| ClusterReconciler.Reconciler.CreatePatchDir | pkg/cluster/git.go:191-232 | what was in or below the directory is removed and it is generated again, at the cleaned join of base path and name; a tree without changes is pushed as well, which may fail |
| ClusterReconciler.Reconciler.DeleteOverridesDir | pkg/cluster/delete.go:88-135 | removes the directory the cluster app's annotations record, with everything below it, and fails if there is nothing |
| ClusterController.KkarlonAppName | pkg/controllers/cluster_controller.go:383-385 | the kkarlon app's name is never the cluster app's |
| ClusterRuns.InvKept | pkg/controllers/cluster_controller.go:105-373 | every step of controller, Argo CD, user and others keeps the run invariant |
| ClusterRuns.RunSafety | pkg/controllers/cluster_controller.go:105-122 | in every reachable state a cluster app comes with a kkarlon app that is not being deleted, and either app with a resource that carries its finalizer |
| ClusterRuns.CreateNeverBlocked | pkg/cluster/create.go:39-45 | in every reachable state creating the missing kkarlon app succeeds if its calls do |
| ClusterRuns.RunOrdering | pkg/controllers/cluster_controller.go:127-321 | at every step of every run: the cluster app is created only after inner name and override flag are persisted, deleted only after that flag is cleared and the directory removed, the kkarlon app only after the cluster app is gone, the finalizer last; apps vanish only after a requested deletion |
| ClusterApps.RunSources | pkg/cluster/cluster_app.go:105-111 | in every reachable state the cluster app's source is the override's branch, with the base path, a slash and the name as its path, or the template without an override; the kkarlon app's is the given chart or the default one |
| ClusterApps.SourceIsWritten | pkg/cluster/git.go:191-191 | with a base path, that source is the directory the override is written to |
| ClusterApps.SourceIsThere | pkg/cluster/cluster_app.go:105-111 | in a careful run it is in git as long as the override is recorded |
| ClusterApps.CreatedRecord | pkg/cluster/cluster_app.go:63-69 | a new cluster app records exactly the inner name, the repository, revision and base path of its manifests, and whether there is an override |
| ClusterApps.CreatedKkarlonRecord | pkg/cluster/create.go:66-69 | a new kkarlon app records an empty specification and the placeholder for the profile |
| ClusterApps.InnerNameValidated | pkg/controllers/cluster_controller.go:135-142 | the inner name is one a validation of the template in the run has answered with |
| ClusterApps.StateTells | pkg/controllers/cluster_controller.go:101-355 | what each state a pass writes says about applications, git and record, and that the states of failure are those that are retried |
| ClusterProgress.CreationRound | pkg/controllers/cluster_controller.go:111-160 | while creation is not complete and not blocked, every pass with good calls lowers the rank, and it does not become blocked |
| ClusterProgress.CreationCompletes | pkg/controllers/cluster_controller.go:111-253 | from every state of a run that is not blocked, creation completes within as many rounds as the rank |
| ClusterProgress.CreationIff | pkg/cluster/git.go:223-232 | from every state of a run creation can complete iff it is not blocked: an override to be written that is in git already, while pushing an unchanged tree fails |
| ClusterProgress.RepeatsStepIff | pkg/controllers/cluster_controller.go:148-159 | exactly which steps leave an override in git without its record |
| ClusterProgress.UnrecordedPush | pkg/controllers/cluster_controller.go:150-159 | a push whose status write is refused, and one reported as failed, block the creation |
| ClusterProgress.BlockedForever | pkg/controllers/cluster_controller.go:148-159 | while unchanged trees are refused and others leave the directory alone, the cluster app never comes to exist |
| ClusterProgress.RankZero | pkg/controllers/cluster_controller.go:249-253 | rank zero means: both apps live, annotation in line, state "created", inner name and override recorded |
| ClusterProgress.DeployedIsFinal | pkg/controllers/cluster_controller.go:225-253 | a completed cluster is left alone by every pass that reaches its reads |
| ClusterProgress.DoneIsProgress | pkg/controllers/cluster_controller.go:83-254 | a pass is done only if it lowered the rank, or nothing is left to do |
| ClusterProgress.GoodIsDone | pkg/controllers/cluster_controller.go:83-373 | with good calls a pass is done iff it is not stuck, not blocked and not waiting |
| ClusterProgress.TeardownRound | pkg/controllers/cluster_controller.go:281-373 | while teardown is not stuck, every round lowers the rank, and it does not become stuck |
| ClusterProgress.TeardownCompletes | pkg/controllers/cluster_controller.go:281-373 | teardown ends with resource and both apps gone, and git without exactly what was in or below the recorded override directory |
| ClusterProgress.TeardownIff | pkg/cluster/delete.go:105-108 | left to itself, teardown finishes iff something is found at or below the recorded override's directory |
| ClusterProgress.StuckMeans | pkg/cluster/delete.go:89-108 | stuck, in terms of the app's annotations and the places of the directories in git |
| ClusterProgress.StuckForever | pkg/controllers/cluster_controller.go:285-303 | once nothing is found there, no step of controller, Argo CD or user helps |
| ClusterProgress.StuckStays | pkg/cluster/delete.go:105-108 | a step gets it unstuck iff others put something into or below that directory |
| ClusterProgress.StuckStepIff | pkg/controllers/cluster_controller.go:285-302 | exactly which steps get a run stuck: a pass whose removal takes effect without its record being cleared, a deletion when nothing is found, or others removing the directory |
| ClusterProgress.UnrecordedRemoval | pkg/controllers/cluster_controller.go:292-302 | a removal whose status write is refused, and one that takes effect but is reported as failed, lead there |
| ClusterProgress.StuckReachable | pkg/controllers/cluster_controller.go:299-302 | every cluster with an override can get there |
| ClusterProgress.WipedRecord | pkg/controllers/cluster_controller.go:235-237 | after a change of annotations and a synchronising pass, deletion is stuck iff nothing is found in the recorded directory, and without any annotation left the record is empty |
| ClusterProgress.RecordedIsWritten | pkg/cluster/delete.go:88-92 | the directory the cluster app's annotations record is the one that was written, if the base path is not empty |
| ClusterProgress.CarefulNeverStuck | pkg/controllers/cluster_controller.go:225-302 | a run in which no pass loses a removal, the resource keeps an annotation, overrides have a base path and others leave recorded ones in place is never stuck |
| ClusterProgress.CarefulTeardown | pkg/controllers/cluster_controller.go:281-373 | after any such run, whatever else failed, deleting the resource ends with it and both apps gone, and with the written override removed iff its flag and its cluster app were there |
| ClusterFrames.PassGit | pkg/cluster/git.go:191-207 | the whole effect of a pass on git |
| ClusterFrames.PassFrame | pkg/controllers/cluster_controller.go:78-374 | a pass touches no application but its two, and nothing in git that is not in or below its override's directories |
| ClusterFrames.FlatFrameIff | pkg/cluster/git.go:197-206 | it touches those directories themselves only iff it clears none, or none that has a directory of others below it |
| ClusterFrames.FlatTeardownIff | pkg/cluster/delete.go:105-115 | teardown removes the recorded directory only iff nothing else lies below it |
| ClusterFrames.OverlapIff | pkg/cluster/util.go:10-12 | one cluster's override lies in or below another's iff they share repository and revision and its base path is at or below the other's directory, or names and base paths are the same; the empty base path is the root |
| ClusterFrames.NestedOverrideLost | pkg/cluster/git.go:197-206 | a pass that clears a cluster's directory deletes the override of a cluster whose base path is at or below that directory |
| ClusterFrames.CreationLosesIff | pkg/cluster/git.go:197-206 | creating a cluster deletes a directory iff it lies strictly below the cluster's own |
| ClusterFrames.NestedOverrideReachable | pkg/cluster/git.go:197-206 | creating a cluster deletes every such override, without any failing call |
| ClusterFrames.OverrideLeftIff | pkg/controllers/cluster_controller.go:281-303 | the written override is left by teardown iff it is in git and not both recorded and at or below where the cluster app says |
| ClusterFrames.LeftoverReachable | pkg/controllers/cluster_controller.go:323-373 | for every override a run without failing calls leaves it in git |
| ClusterFrames.LeftoverBlocks | pkg/cluster/git.go:223-232 | after such a run, creating the same cluster again completes iff pushing an unchanged tree succeeds |
| EndToEnd.QuietController | pkg/controllers/cluster_controller.go:225-253 | a controller with nothing to write has the resource's own annotation on the cluster app |
| EndToEnd.EndToEnd | pkg/appprofile/reconcile.go:129-175 | when neither reconciler would write, an eligible app targets a cluster with a resource and a cluster app iff it is registered and the resource's annotation has, between commas or ends, the name of a profile listing the app, nil and missing annotations included |
| BaseCluster.AddClusterAutoscalerAnnotations | pkg/basecluster/prepare.go:259-273 | missing or empty limits are filled in, and the flag says whether anything changed |
| BaseCluster.PrepareResource | pkg/basecluster/prepare.go:78-103 | the namespace is cleared and a machine deployment gets limits; modified iff different |
| BaseCluster.Prepare | pkg/basecluster/prepare.go:34-74 | succeeds iff the manifest holds exactly one cluster, and returns a copy iff it differs and is wanted |
| BaseCluster.Validate | pkg/basecluster/validate.go:15-41 | accepts exactly the manifests with one cluster and no namespaces |
| BaseCluster.SingleIff | pkg/basecluster/validate.go:25-40 | which manifests count as holding one cluster, by positions: one with the name, and before it only clusters without a name |
| BaseCluster.TemplateDir.FindManifest | pkg/basecluster/prepare.go:168-198 | finds the one manifest, for every listing order, iff there is one and no subdirectory |
| BaseCluster.TemplateDir.PrepareDir | pkg/basecluster/prepare.go:161-257 | a directory without exactly one manifest with one cluster is rejected and untouched; any other is prepared as far as writing its files works, with success iff all of it does |
| BaseCluster.TemplateDir.ValidateDir | pkg/basecluster/validate.go:73-105 | accepts exactly the valid directories, with their cluster's name |
| BaseCluster.PrepareEstablishesValidate | pkg/basecluster/validate.go:73-105 | a prepared directory is valid, with the same manifest and cluster |
| BaseCluster.PrepareIdempotent | pkg/basecluster/prepare.go:161-257 | preparing again, with whatever limits, changes nothing, and makes no write that could fail |
| BaseCluster.PrepareOnlyIfNeeded | pkg/basecluster/prepare.go:206-242 | preparation leaves a directory alone iff it is valid and its limits are set |
| BaseCluster.PrepareIsMinimal | pkg/basecluster/prepare.go:78-103 | preparation keeps count, order, kinds, names, other files and every non-empty annotation, and adds nothing but the two limits |
| BaseCluster.LimitsFilled | pkg/basecluster/prepare.go:259-273 | every machine deployment has the maximum under the max-size key and the minimum under the min-size key, unless it had its own |
| BaseCluster.LimitReadsBack | pkg/basecluster/prepare.go:264-270 | a limit that was not set reads back as the number given |
| BaseCluster.KustomizationListsManifest | pkg/basecluster/prepare.go:222-241 | a kustomization file that is added has the manifest as its resource, line by line |
| BaseCluster.CompletedPrepare | pkg/basecluster/prepare.go:206-255 | a preparation that gets to the end leaves the prepared directory |
| BaseCluster.PrepareResumesIff | pkg/basecluster/prepare.go:206-255 | a directory whose preparation ended early can be prepared again, to the same result, iff the write that ended it left the file alone or as good as written; the caller gives such a directory up |
| TemplateRepos.TemplateRepo.PrepareGitDir | pkg/basecluster/prepare.go:111-153 | clone, prepare, commit and push: the answer and the published directory for all ways these end |
| TemplateRepos.AllOrNothing | pkg/basecluster/prepare.go:119-152 | however they end, the whole prepared directory is published or nothing new, exactly when, and the answer says whether it changed |
| TemplateRepos.PublishedLimits | pkg/basecluster/prepare.go:111-153 | after a success the limits given are published and read back, for every machine deployment without its own |
| TemplateRepos.PublishHistory | pkg/basecluster/prepare.go:111-153 | after any attempts the published directory is the first one or what a single attempt makes of it, and after a successful one it is valid |
| Profiles.CommaSeparatedFromStringList | pkg/profile/utils.go:160-169 | items joined by commas |
| Profiles.CommaRoundTrip | pkg/profile/utils.go:152-169 | joining and splitting gives a list back iff no item has a comma and it is not one empty string |
| Profiles.CommaEquivalent | pkg/profile/utils.go:173-179 | and as a set of items iff the same |
| Profiles.UpsertRefines | pkg/profile/update.go:66-87 | for a list that denotes a map, the override loop yields a list that denotes the map overlaid by the new overrides in order |
| Profiles.UpsertKeepsOrder | pkg/profile/update.go:66-87 | old entries keep their places, new ones come from the request, and no duplicate is introduced |
| Profiles.InForceUnchanged | pkg/profile/update.go:73-78 | a list in which every override is in force is left alone |
| Profiles.ApplyOverrides | pkg/profile/update.go:68-87 | the loop computes the upsert, and is dirty iff some override was not in force in the stored list |
| Profiles.MakeOverridesMap | pkg/profile/git.go:81-93 | every bundle with overrides, and only those, mapped to its overrides in order |
| Profiles.GroupCommutes | pkg/profile/git.go:81-93 | grouping by bundle commutes with the upsert |
| Profiles.NoBundlesNoChange | pkg/profile/update.go:56-65 | an update without bundles leaves the stored bundles alone iff the comma round trip does |
| Profiles.ClearIff | pkg/cmd/profile/update.go:31-39 | an update with the clearing flag leaves no bundles iff there were none, or one with an empty name |
| Profiles.ClearKeepsBundle | pkg/cmd/profile/update.go:31-39 | clearing a profile with one bundle keeps it and is answered with "not modified" |
| Profiles.Merge | pkg/profile/update.go:47-87 | the fields after the update, dirty iff something asked for differs |
| Profiles.NoChanges | pkg/profile/update.go:88-90 | an update that is not dirty would change nothing |
| Profiles.Store.Update | pkg/profile/update.go:17-116 | the whole update: its answer, every error included, and the stored profile, for all ways its calls end |
| ProfileHistories.AskedIsStored | pkg/profile/update.go:47-87 | after a success the description is the one passed, the tags are the items of the passed text, the bundles those of the passed list written with commas, each override has the value last passed, and what was not passed stays |
| ProfileHistories.RequestedBundles | pkg/profile/update.go:56-65 | the stored bundles are the requested ones, as a set, iff commas do no harm to the request |
| ProfileHistories.UpdateHistory | pkg/profile/update.go:17-116 | after any updates with any failures every field holds what was asked for last by an update that got through |
| ProfileHistories.OverrideHistory | pkg/profile/update.go:66-87 | and every override the value asked for last, or its original one |
| ProfileHistories.AnswerTells | pkg/profile/update.go:27-115 | success needs valid names, existing bundles and a profile of the new kind, and is certain if the remaining calls work; a failure changes nothing unless its write took effect |
| ProfileHistories.PairAt | pkg/profile/git.go:86-91 | each override stands in its bundle's group after exactly the earlier ones of that bundle |
| ClusterSpecs.FromConfigMap | pkg/clusterspec/clusterspec.go:87-123 | fields and defaults as specified, an error without a node count |
| ClusterSpecs.RoundTrip | pkg/clusterspec/clusterspec.go:87-169 | reading what was written gives every field back, for all strings and machine integers |
| ClusterSpecs.TextsWritten | pkg/clusterspec/clusterspec.go:151-167 | which text is written under which key |
| ClusterSpecs.NumbersWritten | pkg/clusterspec/clusterspec.go:151-167 | which number and flag is written under which key |
| ClusterSpecs.ReadWriteRead | pkg/clusterspec/clusterspec.go:106-121 | reading, writing and reading is stable, also for old maps whose missing numbers read as 3, false, 1 and 9 |
| ClusterSpecs.NameInjective | pkg/clusterspec/clusterspec.go:179-188 | the dash-joined name tells valid triples apart |
| ClusterSpecs.NameNotAutoscaler | pkg/clusterspec/clusterspec.go:197-199 | and is never an autoscaler's |
| ClusterSpecs.Merge | pkg/clusterspec/update.go:28-74 | zeros keep fields, other values replace them, dirty iff anything was passed |
| ClusterSpecs.Store.Update | pkg/clusterspec/update.go:10-90 | one update with its answer, and the stored maps |
| ClusterSpecs.AnswerTells | pkg/clusterspec/update.go:75-90 | when an update succeeds, what it answers, that everything passed reads back then, and that a failure changes nothing unless its write took effect |
| ClusterSpecs.UpdateHistory | pkg/clusterspec/update.go:10-90 | after any updates of any specifications, with any calls failing, also after taking effect: provider, cloud, type, region, pod block, key and name are as before, and every other field is the last non-zero value of an update that took effect |
| RootApps.ConstructRootApp | pkg/cluster/root_app.go:13-155 | the root application of either generation, its parameters in order, and the errors |
| RootApps.AppendKeys | pkg/cluster/root_app.go:108-116 | one parameter for each listed key that has a value, in order |
| RootApps.ParamsIff | pkg/cluster/root_app.go:74-130 | the parameters of an application, exactly: each name with its value |
| RootApps.ApplicationFields | pkg/cluster/root_app.go:26-48 | name, labels, annotations, source and ignored differences of an application |
| RootApps.GuardExact | pkg/cluster/root_app.go:117-130 | an application built from a specification carries the tag of exactly one valid triple, the specification's |
| RootApps.SecondGenerationHasNoTag | pkg/cluster/root_app.go:61-73 | a second-generation application carries no triple's tag and ignores no differences |
| RootApps.Service.CheckSpec | pkg/cluster/update.go:67-103 | the guard, the path checks, the new application and the check of its place in git |
| RootApps.Service.Update | pkg/cluster/update.go:25-127 | the whole update: answer, deployment and stored application, for all replies |
| RootApps.UpdateSucceedsIff | pkg/cluster/update.go:18-24 | an update succeeds iff its reads and writes do, the path is the cluster's, and the specification has the triple the cluster serves |
| RootApps.UpdateUses | pkg/cluster/update.go:41-127 | a success is about the passed specification and profile, or the stored ones for empty names: the application built from them is returned and, if asked, stored, and the profile is deployed in the cluster's place |
| RootApps.FailedUpdate | pkg/cluster/update.go:104-126 | a failure stores and deploys nothing, unless a write took effect without a report |
| RootApps.StoredNames | pkg/cluster/update.go:41-52 | over all histories the stored profile and specification are the last ones a storing update named |
| RootApps.GitReferenceNeverChanges | pkg/cluster/update.go:94-103 | neither building the new application nor the check of its repository reference can fail |
| RootApps.NilDereferenceIff | pkg/cluster/update.go:67-81 | a call dereferences nil iff it gets as far as the guard and the application has no Helm section |
| RootApps.SecondGenerationCrashes | pkg/cluster/cluster_app.go:96-98 | for a second-generation cluster it does iff it names a readable specification, valid in its triple, and a readable profile |
| RootApps.RefreshIsIdentity | pkg/cluster/update.go:41-52 | an update with nothing new rebuilds the stored application exactly |
| RootApps.TripleNeverChanges | pkg/cluster/update.go:67-82 | over all histories of updates and rewritten specifications a cluster's triple and place in git stay, and all deployments went to that place |
| RootApps.CreateThenUpdate | pkg/cluster/update.go:83-93 | an update after any history deploys under the base path of creation iff that path is not empty and, with the name, clean |
| Paths.CleanIdempotent | pkg/cluster/util.go:10-12 | joining paths cleans them once and for all |
| Paths.MgmtComponents | pkg/cluster/util.go:22-24 | the management path is the cleaned base path, the name and "mgmt" |
| Paths.RoundTrip | pkg/cluster/util.go:22-38 | decomposing a composed path gives base path and name back iff the base path is not empty, the name has no slash, and the two are clean |
| Paths.Recompose | pkg/cluster/util.go:26-38 | composing a decomposed path gives its clean form, and itself iff it is clean and its base part not empty |
| Paths.DecomposeIff | pkg/cluster/util.go:26-38 | a path decomposes iff it is a base path, a name without slash and "mgmt" joined by slashes, and into these |
| Paths.OverridePathsAgree | pkg/cluster/delete.go:92-92 | the override directory written and the one deleted are the same iff the base path is not empty |
| Paths.ChildPlace | pkg/cluster/util.go:10-12 | joining a plain name, to the empty path as well, leads exactly one level down |
| Paths.DotsLead | pkg/cluster/util.go:10-12 | joining nothing or "." leads to the same place, and ".." one level up |
| GitRepos.RepoFile.AliasExists | pkg/gitrepo/gitrepo.go:61-68 | whether some entry has the alias |
| GitRepos.RepoFile.Register | pkg/cmd/gitrepo/register.go:59-106 | the command's answer and what the file then holds, also when rewriting fails halfway |
| GitRepos.RepoFile.Unregister | pkg/cmd/gitrepo/unregister.go:20-57 | likewise; no error for an empty list, an error for an unknown alias |
| GitRepos.RepoFile.GetAlias | pkg/gitrepo/gitrepo.go:85-101 | the default slot for "default", the first entry for other aliases |
| GitRepos.RegisteredKeeps | pkg/cmd/gitrepo/register.go:85-92 | registering keeps aliases distinct and the slot in line, and adds one pair to the map |
| GitRepos.UnregisteredKeeps | pkg/cmd/gitrepo/unregister.go:35-42 | unregistering likewise, and removes one pair |
| GitRepos.RegisterUnregister | pkg/cmd/gitrepo/unregister.go:35-42 | registering a fresh alias and unregistering it restores the configuration exactly |
| GitRepos.LookupAgrees | pkg/gitrepo/gitrepo.go:85-101 | looking up agrees with the map, but "default" is found, with an empty URL, when not registered |
| GitRepos.RegistryHistory | pkg/cmd/gitrepo/register.go:59-105 | over all commands from an empty file, with any URLs and failures, the file stands for the map the commands build, aliases are distinct, and the slot repeats the entry "default" or is blank |
| GitRepos.LookupHistory | pkg/gitrepo/gitrepo.go:85-101 | what a lookup gives after any commands, in terms of that map alone |
| GitRepos.DefaultNeverTaken | pkg/cmd/gitrepo/register.go:67-70 | the error for a taken default slot never happens |
| GitRepos.AnswerHistory | pkg/cmd/gitrepo/unregister.go:31-54 | what each command answers after any commands, in terms of the map they build |
| GitRepos.OrderKept | pkg/cmd/gitrepo/register.go:89-89 | no command changes the order of the entries it leaves, and a new one comes last |
| GitRepos.DefaultSlot | pkg/gitrepo/gitrepo.go:20-23 | with non-empty URLs the slot has a URL iff "default" is registered |
| Text.SplitJoin | pkg/appprofile/reconcile.go:292-292 | splitting a joined list gives it back iff no item has the separator |
| Text.PieceIff | pkg/appprofile/reconcile.go:292-292 | a name is among the pieces iff it stands in the text between separators or ends |
| Text.AtoiItoa | pkg/clusterspec/clusterspec.go:157-158 | every machine integer survives printing and parsing |

## Left out

- Kubernetes, Argo CD, gRPC, git and YAML are stores whose calls may fail; manifests are sequences of records, and nothing is said about commits, pushes or encodings.
- JSON escaping of cluster names and servers in generator elements; an element is a decoded object or malformed.
- Informer cache staleness, concurrent passes and which events trigger a pass: each pass reads the current store, and the global pass is serialised by its mutex.
- Status messages, logs, labels, sync policies and destinations of applications, and the Helm parameters of the kkarlon app in the controller's model (they are in `RootApps`).
- Changes made by others to the two applications, and changes of a Cluster resource's specification during its life.
- Git holds only directories with overrides, each with its content as a whole; files in the way of a directory, and paths that lead out of the repository, are not modelled.
- Whether the git library commits and pushes a tree without changes is a reply, `idlePush`; the same for all passes with good calls.
- How the git library resolves a path with a leading slash: it is taken as another place than the path without.
- Clusters whose names collide, such as "a" and "a-kkarlon": a run is about one cluster, others appear as changes of git, and `ClusterFrames.PassFrame` says what a pass leaves to them.
- ClusterProgress.CreationCompletes: template validation is taken to answer with a name that is not empty, as `BaseCluster.Validate` shows it does.
- EndToEnd.EndToEnd: is about the state in which both reconcilers are quiet, not about when a pass is triggered.
- ProfileHistories.UpdateHistory: a stored bundle list of one empty name is left to the lemmas about one update.
- BaseCluster.TemplateDir.PrepareDir: file names are not empty, and reading the directory does not fail.
- ClusterSpecs.UpdateHistory: objects are stored under their own names, as Kubernetes keeps them.
- RootApps.CreateThenUpdate: the content of the deployed git tree is not modelled, only where it goes.
- RootApps.Service.Update: bundles and repository credentials are only calls that succeed or fail.
- GitRepos.RegistryHistory: the JSON text of the registry file; a rewrite that stops halfway leaves a file that does not load.
- The name check for bundles is a parameter of `Profiles.Store.Update`; the regular expression is not modelled.
- The validation of regions by provider, printing, installing, listing and webhook commands, static manifests, and the commands that manage external clusters.
- The controllers for cluster registrations and call-home configurations.

/** Preparing and validating a cluster template directory. */
module BaseCluster {
  import opened Text

  const KUSTOMIZATION := "kustomization.yaml"
  const CONFIGURATIONS := "configurations.yaml"
  const CLUSTER_KIND := "Cluster"
  const MACHINE_DEPLOYMENT_KIND := "MachineDeployment"
  const CAS_MIN := "cluster.x-k8s.io/cluster-api-autoscaler-node-group-min-size"
  const CAS_MAX := "cluster.x-k8s.io/cluster-api-autoscaler-node-group-max-size"

  /** `rest` stands for everything in a resource that is carried along unchanged. */
  datatype Resource = Resource(
    kind: string, name: string, namespace: string, annotations: map<string, string>, rest: string)

  /** A file either builds into resources or is some other text. */
  datatype Content = Manifest(items: seq<Resource>) | Other(text: string)

  datatype Node = Subdir | File(content: Content)

  type Directory = map<string, Node>

  datatype Error =
    | FoundSubdir | MultipleManifests | NoManifest | NoKustomization | NoConfigurations
    | BuilderFailed | HasNamespace | MultipleClusters | NoCluster | WriteFailed

  /** How writing a file ends; one that is cut short leaves some content or other. */
  datatype FileWrite = Complete | NotOpened | Cut(left: Content)

  datatype Writes = Writes(manifest: FileWrite, kustomization: FileWrite, configurations: FileWrite)

  /** A directory listing names every entry once, in any order. */
  ghost predicate Lists(listing: seq<string>, dir: Directory) {
    && (forall i, j | 0 <= i < j < |listing| :: listing[i] != listing[j])
    && (forall name :: name in listing <==> name in dir)
  }

  // ---------------------------------------------------------------- one manifest

  /** The names of the Cluster resources, in order. */
  function ClusterNames(items: seq<Resource>): seq<string> {
    if items == [] then []
    else ClusterNames(items[..|items| - 1])
         + if items[|items| - 1].kind == CLUSTER_KIND then [items[|items| - 1].name] else []
  }

  /** The last name is `name` and not empty, and the ones before it are empty. */
  predicate Single(names: seq<string>, name: string) {
    && name != "" && names != [] && names[|names| - 1] == name
    && forall i | 0 <= i < |names| - 1 :: names[i] == ""
  }

  predicate Unscoped(items: seq<Resource>) {
    forall i | 0 <= i < |items| :: items[i].namespace == ""
  }

  /** The autoscaler limits are filled in where they are missing or empty. */
  function Filled(annotations: map<string, string>, casMax: int, casMin: int): map<string, string> {
    var a := if Missing(annotations, CAS_MAX) then annotations[CAS_MAX := Itoa(casMax)] else annotations;
    if Missing(a, CAS_MIN) then a[CAS_MIN := Itoa(casMin)] else a
  }

  predicate Missing(annotations: map<string, string>, key: string) {
    key !in annotations || annotations[key] == ""
  }

  function PreparedResource(r: Resource, casMax: int, casMin: int): Resource {
    r.(namespace := "",
       annotations := if r.kind == MACHINE_DEPLOYMENT_KIND then Filled(r.annotations, casMax, casMin)
                      else r.annotations)
  }

  function PreparedItems(items: seq<Resource>, casMax: int, casMin: int): (r: seq<Resource>)
    ensures |r| == |items|
    ensures forall i | 0 <= i < |items| :: r[i] == PreparedResource(items[i], casMax, casMin)
  {
    seq(|items|, i requires 0 <= i < |items| => PreparedResource(items[i], casMax, casMin))
  }

  method AddClusterAutoscalerAnnotations(annotations: map<string, string>, casMax: int, casMin: int)
    returns (r: map<string, string>, modified: bool)
    ensures r == Filled(annotations, casMax, casMin)
    ensures modified <==> r != annotations
  {
    r, modified := annotations, false;
    if Missing(r, CAS_MAX) {
      r := r[CAS_MAX := Itoa(casMax)];
      modified := true;
      assert r[CAS_MAX] != "" && Missing(annotations, CAS_MAX);
    }
    if Missing(r, CAS_MIN) {
      r := r[CAS_MIN := Itoa(casMin)];
      modified := true;
      assert r[CAS_MIN] != "" && Missing(annotations, CAS_MIN);
    }
  }

  method PrepareResource(r: Resource, casMax: int, casMin: int) returns (p: Resource, modified: bool)
    ensures p == PreparedResource(r, casMax, casMin)
    ensures modified <==> p != r
  {
    p, modified := r, false;
    if p.namespace != "" {
      p := p.(namespace := "");
      modified := true;
    }
    if p.kind == MACHINE_DEPLOYMENT_KIND {
      var annotations, changed := AddClusterAutoscalerAnnotations(p.annotations, casMax, casMin);
      if changed {
        p := p.(annotations := annotations);
        modified := true;
      }
    }
  }

  /** `buf` holds the prepared form of these resources, and `dirty` tells whether it differs. */
  predicate Encoded(items: seq<Resource>, casMax: int, casMin: int, buf: seq<Resource>, dirty: bool) {
    buf == PreparedItems(items, casMax, casMin) && (dirty <==> buf != items)
  }

  method PrepareThenEncode(items: seq<Resource>, i: nat, casMax: int, casMin: int, buf: seq<Resource>, dirty: bool)
    returns (buf': seq<Resource>, dirty': bool)
    requires i < |items| && Encoded(items[..i], casMax, casMin, buf, dirty)
    ensures Encoded(items[..i + 1], casMax, casMin, buf', dirty')
  {
    var prepared, modified := PrepareResource(items[i], casMax, casMin);
    buf', dirty' := buf + [prepared], dirty || modified;
    assert items[..i + 1] == items[..i] + [items[i]];
    assert buf' == PreparedItems(items[..i + 1], casMax, casMin);
    if buf' == items[..i + 1] {
      assert buf == buf'[..i] && buf'[i] == prepared;
    }
  }

  /** The modified copy of a manifest, if any modification is needed and wanted. */
  method Prepare(file: Content, validateOnly: bool, casMax: int, casMin: int)
    returns (r: Result<(string, Option<seq<Resource>>), Error>)
    ensures r.Ok? <==> file.Manifest? && exists name :: Single(ClusterNames(file.items), name)
    ensures r.Ok? ==> Single(ClusterNames(file.items), r.value.0)
    ensures r.Ok? ==>
              var prepared := PreparedItems(file.items, casMax, casMin);
              r.value.1 == if validateOnly || prepared == file.items then None else Some(prepared)
    ensures file.Other? ==> r == Err(BuilderFailed)
    ensures file.Manifest? && ClusterNames(file.items) == [] ==> r == Err(NoCluster)
    ensures r.Err? ==> r.error in {BuilderFailed, MultipleClusters, NoCluster}
  {
    if file.Other? {
      return Err(BuilderFailed);
    }
    var items := file.items;
    var clusterName, dirty, buf := "", false, [];
    for i := 0 to |items|
      invariant Scanned(ClusterNames(items[..i]), clusterName)
      invariant Encoded(items[..i], casMax, casMin, buf, dirty)
    {
      ClusterNamesStep(items, i);
      if items[i].kind == CLUSTER_KIND {
        if clusterName != "" {
          NotSingle(items, i);
          return Err(MultipleClusters);
        }
        clusterName := items[i].name;
      }
      buf, dirty := PrepareThenEncode(items, i, casMax, casMin, buf, dirty);
    }
    assert items[..|items|] == items;
    if clusterName == "" {
      return Err(NoCluster);
    }
    return Ok((clusterName, if !validateOnly && dirty then Some(buf) else None));
  }

  method Validate(file: Content) returns (r: Result<string, Error>)
    ensures forall name :: r == Ok(name) <==>
              file.Manifest? && Unscoped(file.items) && Single(ClusterNames(file.items), name)
    ensures file.Other? <==> r == Err(BuilderFailed)
    ensures r.Err? ==> r.error in {BuilderFailed, HasNamespace, MultipleClusters, NoCluster}
    ensures file.Manifest? && Unscoped(file.items) && ClusterNames(file.items) == [] ==> r == Err(NoCluster)
    ensures r == Err(HasNamespace) ==> !Unscoped(file.items)
    ensures r == Err(MultipleClusters) ==> |ClusterNames(file.items)| >= 2
  {
    if file.Other? {
      return Err(BuilderFailed);
    }
    var items := file.items;
    var clusterName := "";
    for i := 0 to |items|
      invariant Scanned(ClusterNames(items[..i]), clusterName)
      invariant Unscoped(items[..i])
    {
      ClusterNamesStep(items, i);
      if items[i].namespace != "" {
        return Err(HasNamespace);
      }
      if items[i].kind == CLUSTER_KIND {
        if clusterName != "" {
          NotSingle(items, i);
          return Err(MultipleClusters);
        }
        clusterName := items[i].name;
      }
    }
    assert items[..|items|] == items;
    if clusterName == "" {
      return Err(NoCluster);
    }
    return Ok(clusterName);
  }

  /** What the scan has recorded after these cluster names. */
  predicate Scanned(names: seq<string>, found: string) {
    if found == "" then forall i | 0 <= i < |names| :: names[i] == "" else Single(names, found)
  }

  lemma ClusterNamesStep(items: seq<Resource>, i: nat)
    requires i < |items|
    ensures ClusterNames(items[..i + 1])
         == ClusterNames(items[..i]) + if items[i].kind == CLUSTER_KIND then [items[i].name] else []
  {
    assert items[..i + 1][..i] == items[..i];
  }

  lemma {:induction false} NamesPrefix(items: seq<Resource>, i: nat)
    requires i <= |items|
    ensures ClusterNames(items[..i]) <= ClusterNames(items)
    decreases |items|
  {
    if i < |items| {
      var front := items[..|items| - 1];
      NamesPrefix(front, i);
      assert front[..i] == items[..i];
    } else {
      assert items[..i] == items;
    }
  }

  /** A second Cluster resource after one with a name rules the manifest out. */
  lemma NotSingle(items: seq<Resource>, i: nat)
    requires i < |items| && items[i].kind == CLUSTER_KIND
    requires exists found :: found != "" && Single(ClusterNames(items[..i]), found)
    ensures |ClusterNames(items)| >= 2
    ensures forall name :: !Single(ClusterNames(items), name)
  {
    ClusterNamesStep(items, i);
    NamesPrefix(items, i + 1);
    var found :| found != "" && Single(ClusterNames(items[..i]), found);
    var k := |ClusterNames(items[..i])| - 1;
    assert ClusterNames(items)[k] == found;
  }

  // ---------------------------------------------------------------- template directories

  /** The entries that must be the one manifest file. */
  function Candidates(names: set<string>): set<string> {
    names - {KUSTOMIZATION, CONFIGURATIONS}
  }

  predicate NoSubdirs(dir: Directory) {
    forall name | name in dir :: dir[name].File?
  }

  /** `manifest` is the directory's only manifest file and holds the one cluster `cluster`. */
  predicate Holds(dir: Directory, manifest: string, cluster: string) {
    && NoSubdirs(dir) && Candidates(dir.Keys) == {manifest} && manifest in dir
    && dir[manifest].content.Manifest?
    && Single(ClusterNames(dir[manifest].content.items), cluster)
  }

  /** What validation accepts: both kustomize files and no namespaces, besides. */
  predicate Valid(dir: Directory, manifest: string, cluster: string) {
    && Holds(dir, manifest, cluster)
    && KUSTOMIZATION in dir && CONFIGURATIONS in dir
    && Unscoped(dir[manifest].content.items)
  }

  function KustomizationFor(manifest: string): Node {
    File(Other(Join(["resources:", "- " + manifest, "", "configurations:", "- configurations.yaml", ""], '\n')))
  }

  /** The embedded kustomize transformer configuration; its text is of no concern here. */
  const CONFIGURATIONS_YAML := File(Other("nameReference"))

  /** The directory preparation leaves. */
  function Prepared(dir: Directory, manifest: string, casMax: int, casMin: int): (r: Directory)
    requires manifest in dir && dir[manifest].File? && dir[manifest].content.Manifest?
    ensures r.Keys == dir.Keys + {KUSTOMIZATION, CONFIGURATIONS}
  {
    var rewritten := dir[manifest := File(Manifest(PreparedItems(dir[manifest].content.items, casMax, casMin)))];
    map[KUSTOMIZATION := KustomizationFor(manifest), CONFIGURATIONS := CONFIGURATIONS_YAML] + rewritten
  }

  /** The directory after writing one file, and whether that worked. */
  function PutFile(dir: Directory, name: string, file: Node, write: FileWrite): (Directory, bool) {
    match write
    case Complete => (dir[name := file], true)
    case NotOpened => (dir, false)
    case Cut(left) => (dir[name := File(left)], false)
  }

  /** What preparation leaves when its writes end like this, and whether it got to the end. */
  function PreparedBy(dir: Directory, manifest: string, casMax: int, casMin: int, writes: Writes): (Directory, bool)
    requires manifest in dir && dir[manifest].File? && dir[manifest].content.Manifest?
  {
    var items := dir[manifest].content.items;
    var prepared := PreparedItems(items, casMax, casMin);
    var (d, ok) := if prepared == items then (dir, true)
                   else PutFile(dir, manifest, File(Manifest(prepared)), writes.manifest);
    if ok then AddKustomize(d, manifest, writes) else (d, false)
  }

  function AddKustomize(dir: Directory, manifest: string, writes: Writes): (Directory, bool) {
    var (d, ok) := if KUSTOMIZATION in dir then (dir, true)
                   else PutFile(dir, KUSTOMIZATION, KustomizationFor(manifest), writes.kustomization);
    if !ok || CONFIGURATIONS in d then (d, ok)
    else PutFile(d, CONFIGURATIONS, CONFIGURATIONS_YAML, writes.configurations)
  }

  class TemplateDir {
    var files: Directory

    constructor (dir: Directory)
      ensures files == dir
    {
      files := dir;
    }

    /** Find the only manifest, in whatever order the directory is listed. */
    method FindManifest(listing: seq<string>)
      returns (r: Result<string, Error>, kustomizationFound: bool, configurationsFound: bool)
      requires Lists(listing, files) && "" !in files
      ensures forall m :: r == Ok(m) <==> NoSubdirs(files) && Candidates(files.Keys) == {m}
      ensures r.Err? ==> r.error in {FoundSubdir, MultipleManifests, NoManifest}
      ensures r == Err(FoundSubdir) ==> !NoSubdirs(files)
      ensures r == Err(MultipleManifests) ==> Several(files)
      ensures r == Err(NoManifest) ==> NoSubdirs(files) && Candidates(files.Keys) == {}
      ensures r.Ok? ==> kustomizationFound == (KUSTOMIZATION in files)
      ensures r.Ok? ==> configurationsFound == (CONFIGURATIONS in files)
    {
      kustomizationFound, configurationsFound := false, false;
      var manifestFileName := "";
      for i := 0 to |listing|
        invariant forall k | 0 <= k < i :: files[listing[k]].File?
        invariant kustomizationFound == (KUSTOMIZATION in listing[..i])
        invariant configurationsFound == (CONFIGURATIONS in listing[..i])
        invariant Seen(listing[..i], manifestFileName)
      {
        var name := listing[i];
        assert name in files;
        assert listing[..i + 1] == listing[..i] + [name];
        if files[name].Subdir? {
          return Err(FoundSubdir), kustomizationFound, configurationsFound;
        }
        if name == KUSTOMIZATION {
          kustomizationFound := true;
          continue;
        }
        if name == CONFIGURATIONS {
          configurationsFound := true;
          continue;
        }
        if manifestFileName != "" {
          SecondCandidate(files, listing, i, manifestFileName);
          return Err(MultipleManifests), kustomizationFound, configurationsFound;
        }
        manifestFileName := name;
      }
      assert listing[..|listing|] == listing;
      SeenAll(files, listing, manifestFileName);
      r := if manifestFileName == "" then Err(NoManifest) else Ok(manifestFileName);
    }

    method Write(name: string, file: Node, write: FileWrite) returns (ok: bool)
      modifies this
      ensures (files, ok) == PutFile(old(files), name, file, write)
    {
      match write {
        case Complete => files := files[name := file];
        case NotOpened =>
        case Cut(left) => files := files[name := File(left)];
      }
      return write == Complete;
    }

    /** Write the modified manifest, if there is one, and the kustomize files that are missing. */
    method WriteFiles(manifest: string, modified: Option<seq<Resource>>, kustomizationFound: bool,
                      configurationsFound: bool, writes: Writes, ghost casMax: int, ghost casMin: int)
      returns (ok: bool)
      requires manifest in files && files[manifest].File? && files[manifest].content.Manifest?
      requires manifest != KUSTOMIZATION && manifest != CONFIGURATIONS
      requires kustomizationFound == (KUSTOMIZATION in files) && configurationsFound == (CONFIGURATIONS in files)
      requires var items := files[manifest].content.items;
               var prepared := PreparedItems(items, casMax, casMin);
               modified == if prepared == items then None else Some(prepared)
      modifies this
      ensures (files, ok) == PreparedBy(old(files), manifest, casMax, casMin, writes)
    {
      ok := true;
      if modified.Some? {
        ok := Write(manifest, File(Manifest(modified.value)), writes.manifest);
        if !ok {
          return;
        }
      }
      if !kustomizationFound {
        ok := Write(KUSTOMIZATION, KustomizationFor(manifest), writes.kustomization);
        if !ok {
          return;
        }
      }
      if !configurationsFound {
        ok := Write(CONFIGURATIONS, CONFIGURATIONS_YAML, writes.configurations);
      }
    }

    /**
       Prepare the directory. A directory that does not hold one manifest with one cluster is
       rejected, and untouched; otherwise the files are written, as far as writing works.
     */
    method PrepareDir(listing: seq<string>, casMax: int, casMin: int, writes: Writes)
      returns (r: Result<(string, string), Error>)
      requires Lists(listing, files) && "" !in files
      modifies this
      ensures forall manifest, cluster | Holds(old(files), manifest, cluster) ::
                && files == PreparedBy(old(files), manifest, casMax, casMin, writes).0
                && r == if PreparedBy(old(files), manifest, casMax, casMin, writes).1 then Ok((manifest, cluster))
                        else Err(WriteFailed)
      ensures (forall manifest, cluster :: !Holds(old(files), manifest, cluster)) ==>
                r.Err? && r != Err(WriteFailed) && files == old(files)
    {
      var found, kustomizationFound, configurationsFound := FindManifest(listing);
      if found.Err? {
        return Err(found.error);
      }
      var manifest := found.value;
      assert manifest in Candidates(files.Keys);
      HoldsOnly(files, manifest);
      var result := Prepare(files[manifest].content, false, casMax, casMin);
      if result.Err? {
        assert files[manifest].content.Manifest? ==>
          forall cluster :: !Single(ClusterNames(files[manifest].content.items), cluster);
        return Err(result.error);
      }
      var (clusterName, modifiedYaml) := result.value;
      assert Holds(files, manifest, clusterName);
      var ok := WriteFiles(manifest, modifiedYaml, kustomizationFound, configurationsFound, writes, casMax, casMin);
      return if ok then Ok((manifest, clusterName)) else Err(WriteFailed);
    }

    method ValidateDir(listing: seq<string>) returns (r: Result<string, Error>)
      requires Lists(listing, files) && "" !in files
      ensures forall cluster :: r == Ok(cluster) <==> exists manifest :: Valid(files, manifest, cluster)
      ensures r == Err(NoKustomization) ==> KUSTOMIZATION !in files
      ensures r == Err(NoConfigurations) ==> CONFIGURATIONS !in files
    {
      var found, kustomizationFound, configurationsFound := FindManifest(listing);
      if found.Err? {
        return Err(found.error);
      }
      if !kustomizationFound {
        return Err(NoKustomization);
      }
      if !configurationsFound {
        return Err(NoConfigurations);
      }
      assert found.value in Candidates(files.Keys);
      r := Validate(files[found.value].content);
      assert forall manifest, cluster :: Valid(files, manifest, cluster) ==> manifest == found.value;
      if r.Ok? {
        assert Valid(files, found.value, r.value);
      }
    }
  }

  ghost predicate Several(dir: Directory) {
    exists m, n :: m != n && m in Candidates(dir.Keys) && n in Candidates(dir.Keys)
  }

  lemma SecondCandidate(dir: Directory, listing: seq<string>, i: nat, found: string)
    requires Lists(listing, dir) && i < |listing| && found != "" && Seen(listing[..i], found)
    requires listing[i] != KUSTOMIZATION && listing[i] != CONFIGURATIONS
    ensures Several(dir) && forall m :: Candidates(dir.Keys) != {m}
  {
    var k :| 0 <= k < i && listing[..i][k] == found;
    assert listing[k] == found && listing[i] in listing;
    assert found in Candidates(dir.Keys) && listing[i] in Candidates(dir.Keys);
  }

  lemma SeenAll(dir: Directory, listing: seq<string>, found: string)
    requires Lists(listing, dir) && "" !in dir && Seen(listing, found)
    ensures Candidates(dir.Keys) == if found == "" then {} else {found}
  {
  }

  lemma HoldsOnly(dir: Directory, manifest: string)
    requires NoSubdirs(dir) && Candidates(dir.Keys) == {manifest} && manifest in dir
    ensures forall m, cluster :: Holds(dir, m, cluster) <==>
              m == manifest && dir[manifest].content.Manifest?
              && Single(ClusterNames(dir[manifest].content.items), cluster)
  {
    assert manifest in Candidates(dir.Keys);
  }

  /** What the listing loop has recorded: the last candidate seen, of which there is at most one. */
  ghost predicate Seen(listed: seq<string>, manifest: string) {
    if manifest == "" then forall m | m in listed :: m == KUSTOMIZATION || m == CONFIGURATIONS
    else
      && manifest in listed && manifest != KUSTOMIZATION && manifest != CONFIGURATIONS
      && forall m | m in listed :: m == KUSTOMIZATION || m == CONFIGURATIONS || m == manifest
  }

  // ---------------------------------------------------------------- what preparation guarantees

  lemma {:induction false} NamesPrepared(items: seq<Resource>, casMax: int, casMin: int)
    ensures ClusterNames(PreparedItems(items, casMax, casMin)) == ClusterNames(items)
  {
    if items != [] {
      var front := items[..|items| - 1];
      NamesPrepared(front, casMax, casMin);
      assert PreparedItems(items, casMax, casMin)[..|items| - 1] == PreparedItems(front, casMax, casMin);
    }
  }

  /** A prepared directory passes validation, with the same manifest and cluster. */
  lemma PrepareEstablishesValidate(dir: Directory, manifest: string, cluster: string, casMax: int, casMin: int)
    requires Holds(dir, manifest, cluster)
    ensures Valid(Prepared(dir, manifest, casMax, casMin), manifest, cluster)
  {
    NamesPrepared(dir[manifest].content.items, casMax, casMin);
    var r := Prepared(dir, manifest, casMax, casMin);
    assert Candidates(r.Keys) == Candidates(dir.Keys);
  }

  /** A preparation that gets to the end leaves the prepared directory. */
  lemma CompletedPrepare(dir: Directory, manifest: string, cluster: string, casMax: int, casMin: int, writes: Writes)
    requires Holds(dir, manifest, cluster) && PreparedBy(dir, manifest, casMax, casMin, writes).1
    ensures PreparedBy(dir, manifest, casMax, casMin, writes).0 == Prepared(dir, manifest, casMax, casMin)
  {
    assert manifest in Candidates(dir.Keys);
  }

  lemma PreparedItemsStay(items: seq<Resource>, casMax: int, casMin: int, max': int, min': int)
    ensures PreparedItems(PreparedItems(items, casMax, casMin), max', min') == PreparedItems(items, casMax, casMin)
  {
    var once := PreparedItems(items, casMax, casMin);
    forall i | 0 <= i < |items|
      ensures PreparedItems(once, max', min')[i] == once[i]
    {
      FilledStays(items[i].annotations, casMax, casMin, max', min');
    }
  }

  lemma FilledStays(annotations: map<string, string>, casMax: int, casMin: int, max': int, min': int)
    ensures Filled(Filled(annotations, casMax, casMin), max', min') == Filled(annotations, casMax, casMin)
  {
  }

  /** Preparing again, with whatever limits, changes nothing, and writes nothing: no write is even due. */
  lemma PrepareIdempotent(dir: Directory, manifest: string, cluster: string, casMax: int, casMin: int,
                          max': int, min': int)
    requires Holds(dir, manifest, cluster)
    ensures var r := Prepared(dir, manifest, casMax, casMin);
            && Holds(r, manifest, cluster) && Prepared(r, manifest, max', min') == r
            && forall writes :: PreparedBy(r, manifest, max', min', writes) == (r, true)
  {
    PrepareEstablishesValidate(dir, manifest, cluster, casMax, casMin);
    var items := dir[manifest].content.items;
    var once := PreparedItems(items, casMax, casMin);
    PreparedItemsStay(items, casMax, casMin, max', min');
    var r := Prepared(dir, manifest, casMax, casMin);
    assert r[manifest].content.items == once;
    assert Prepared(r, manifest, max', min') == r;
  }

  /** Both autoscaler limits are set on every machine deployment. */
  predicate Limited(items: seq<Resource>) {
    forall i | 0 <= i < |items| :: items[i].kind == MACHINE_DEPLOYMENT_KIND ==>
      !Missing(items[i].annotations, CAS_MAX) && !Missing(items[i].annotations, CAS_MIN)
  }

  /** Preparation leaves a directory alone exactly when it is valid and its limits are set. */
  lemma PrepareOnlyIfNeeded(dir: Directory, manifest: string, cluster: string, casMax: int, casMin: int)
    requires Holds(dir, manifest, cluster)
    ensures Prepared(dir, manifest, casMax, casMin) == dir
       <==> Valid(dir, manifest, cluster) && Limited(dir[manifest].content.items)
  {
    var items := dir[manifest].content.items;
    var r := Prepared(dir, manifest, casMax, casMin);
    assert r[manifest] == File(Manifest(PreparedItems(items, casMax, casMin)));
    if Valid(dir, manifest, cluster) && Limited(items) {
      assert PreparedItems(items, casMax, casMin) == items;
      assert r == dir;
    }
  }

  /**
     Preparation keeps the resources, their order, kinds and names, and every annotation that
     has a value; it clears namespaces and adds at most the two limits, only on machine
     deployments. Other files stay as they are.
   */
  lemma PrepareIsMinimal(dir: Directory, manifest: string, cluster: string, casMax: int, casMin: int)
    requires Holds(dir, manifest, cluster)
    ensures var items, after := dir[manifest].content.items, Prepared(dir, manifest, casMax, casMin);
            && (forall name | name in dir && name != manifest :: after[name] == dir[name])
            && after[manifest].File? && after[manifest].content.Manifest?
            && |after[manifest].content.items| == |items|
            && forall i | 0 <= i < |items| ::
                 var x, y := items[i], after[manifest].content.items[i];
                 && y.kind == x.kind && y.name == x.name && y.rest == x.rest && y.namespace == ""
                 && (forall key | key in x.annotations && x.annotations[key] != "" ::
                       key in y.annotations && y.annotations[key] == x.annotations[key])
                 && y.annotations.Keys <= x.annotations.Keys + {CAS_MAX, CAS_MIN}
                 && (x.kind != MACHINE_DEPLOYMENT_KIND ==> y.annotations == x.annotations)
                 && (x.kind == MACHINE_DEPLOYMENT_KIND ==>
                       y.annotations - {CAS_MAX, CAS_MIN} == x.annotations - {CAS_MAX, CAS_MIN})
  {
    var items, after := dir[manifest].content.items, Prepared(dir, manifest, casMax, casMin);
    forall i | 0 <= i < |items| && items[i].kind == MACHINE_DEPLOYMENT_KIND
      ensures Filled(items[i].annotations, casMax, casMin) - {CAS_MAX, CAS_MIN}
           == items[i].annotations - {CAS_MAX, CAS_MIN}
    {
    }
  }

  /** The value under a key, which reads as empty when it is missing. */
  function ValueOf(annotations: map<string, string>, key: string): string {
    if key in annotations then annotations[key] else ""
  }

  /** A limit is what it was, if it was set, and the printed number given for it otherwise. */
  ghost predicate LimitSet(before: map<string, string>, after: map<string, string>, key: string, limit: int) {
    && key in after
    && after[key] == if ValueOf(before, key) != "" then ValueOf(before, key) else Itoa(limit)
  }

  /**
     After preparation every machine deployment has the maximum under the key for the maximum size and
     the minimum under the key for the minimum size, unless it had its own.
   */
  lemma LimitsFilled(dir: Directory, manifest: string, cluster: string, casMax: int, casMin: int, i: nat)
    requires Holds(dir, manifest, cluster) && i < |dir[manifest].content.items|
    requires dir[manifest].content.items[i].kind == MACHINE_DEPLOYMENT_KIND
    ensures var before := dir[manifest].content.items[i].annotations;
            var after := Prepared(dir, manifest, casMax, casMin);
            && after[manifest].File? && after[manifest].content.Manifest?
            && i < |after[manifest].content.items|
            && LimitSet(before, after[manifest].content.items[i].annotations,
                        "cluster.x-k8s.io/cluster-api-autoscaler-node-group-max-size", casMax)
            && LimitSet(before, after[manifest].content.items[i].annotations,
                        "cluster.x-k8s.io/cluster-api-autoscaler-node-group-min-size", casMin)
  {
    assert |CAS_MAX| == |CAS_MIN| && CAS_MAX[52] != CAS_MIN[52];
  }

  /** A limit that was not set reads back as the number given for it. */
  lemma LimitReadsBack(before: map<string, string>, after: map<string, string>, key: string, limit: Int64)
    requires LimitSet(before, after, key, limit) && ValueOf(before, key) == ""
    ensures Atoi(after[key]) == Some(limit)
  {
    AtoiItoa(limit);
  }

  /** A kustomization file that preparation adds has the manifest as its one resource. */
  lemma KustomizationListsManifest(dir: Directory, manifest: string, cluster: string, casMax: int, casMin: int)
    requires Holds(dir, manifest, cluster) && KUSTOMIZATION !in dir && '\n' !in manifest
    ensures var file := Prepared(dir, manifest, casMax, casMin)[KUSTOMIZATION];
            && file.File? && file.content.Other?
            && Split(file.content.text, '\n')
               == ["resources:", "- " + manifest, "", "configurations:", "- configurations.yaml", ""]
  {
    assert manifest in Candidates(dir.Keys);
    SplitJoinFree(["resources:", "- " + manifest, "", "configurations:", "- configurations.yaml", ""], '\n');
  }

  /** One resource is a cluster with that name, and only clusters without a name come before it. */
  ghost predicate OneCluster(items: seq<Resource>, cluster: string) {
    exists i :: ClusterAt(items, i, cluster)
  }

  ghost predicate ClusterAt(items: seq<Resource>, i: int, cluster: string) {
    && 0 <= i < |items| && items[i].kind == "Cluster" && items[i].name == cluster && cluster != ""
    && (forall j | 0 <= j < |items| && j != i && items[j].kind == "Cluster" :: j < i && items[j].name == "")
  }

  /** Which manifests preparation and validation take to hold one cluster, by positions. */
  lemma {:induction false} SingleIff(items: seq<Resource>, cluster: string)
    ensures Single(ClusterNames(items), cluster) <==> OneCluster(items, cluster)
  {
    if items != [] {
      var front, last := items[..|items| - 1], |items| - 1;
      assert forall j | 0 <= j < |front| :: front[j] == items[j];
      if items[last].kind == CLUSTER_KIND {
        NoNames(front);
        LastCluster(items, cluster);
        assert OneCluster(items, cluster) <==> ClusterAt(items, last, cluster);
      } else {
        SingleIff(front, cluster);
        assert ClusterNames(items) == ClusterNames(front);
        assert forall i :: ClusterAt(items, i, cluster) <==> ClusterAt(front, i, cluster);
      }
    }
  }

  lemma LastCluster(items: seq<Resource>, cluster: string)
    requires items != [] && items[|items| - 1].kind == CLUSTER_KIND
    ensures Single(ClusterNames(items), cluster) <==>
              && cluster != "" && items[|items| - 1].name == cluster && Unnamed(ClusterNames(items[..|items| - 1]))
  {
    var before, names := ClusterNames(items[..|items| - 1]), ClusterNames(items);
    assert names == before + [items[|items| - 1].name];
    assert forall k | 0 <= k < |before| :: names[k] == before[k];
  }

  predicate Unnamed(names: seq<string>) {
    forall k | 0 <= k < |names| :: names[k] == ""
  }

  lemma {:induction false} NoNames(items: seq<Resource>)
    ensures Unnamed(ClusterNames(items))
       <==> forall j | 0 <= j < |items| && items[j].kind == CLUSTER_KIND :: items[j].name == ""
  {
    if items != [] {
      var front, last := items[..|items| - 1], items[|items| - 1];
      NoNames(front);
      assert forall j | 0 <= j < |front| :: front[j] == items[j];
      if last.kind == CLUSTER_KIND {
        var before, names := ClusterNames(front), ClusterNames(items);
        assert names == before + [last.name] && names[|before|] == last.name;
        assert forall k | 0 <= k < |before| :: names[k] == before[k];
        assert Unnamed(names) <==> Unnamed(before) && last.name == "";
      } else {
        assert ClusterNames(items) == ClusterNames(front);
      }
      assert items[|front|] == last;
    }
  }

  // ---------------------------------------------------------------- preparation that ends early

  /** A write that is not cut short, or left the very text it should. */
  predicate Harmless(file: Node, write: FileWrite) {
    write.Cut? ==> File(write.left) == file
  }

  predicate HarmlessManifest(items: seq<Resource>, write: FileWrite, casMax: int, casMin: int) {
    write.Cut? ==>
      write.left.Manifest? && PreparedItems(write.left.items, casMax, casMin) == PreparedItems(items, casMax, casMin)
  }

  predicate HarmlessKustomize(dir: Directory, manifest: string, writes: Writes) {
    if KUSTOMIZATION !in dir && !writes.kustomization.Complete?
    then Harmless(KustomizationFor(manifest), writes.kustomization)
    else CONFIGURATIONS in dir || Harmless(CONFIGURATIONS_YAML, writes.configurations)
  }

  /** The first write that is due and not complete, if there is one, is harmless. */
  predicate HarmlessEnd(dir: Directory, manifest: string, casMax: int, casMin: int, writes: Writes)
    requires manifest in dir && dir[manifest].File? && dir[manifest].content.Manifest?
  {
    var items := dir[manifest].content.items;
    if PreparedItems(items, casMax, casMin) != items && !writes.manifest.Complete?
    then HarmlessManifest(items, writes.manifest, casMax, casMin)
    else HarmlessKustomize(dir, manifest, writes)
  }

  /** Preparing `d` in full leaves what preparing `dir` in full would have left. */
  predicate Resumes(dir: Directory, d: Directory, manifest: string, cluster: string, casMax: int, casMin: int)
    requires Holds(dir, manifest, cluster)
  {
    && Holds(d, manifest, cluster)
    && Prepared(d, manifest, casMax, casMin) == Prepared(dir, manifest, casMax, casMin)
  }

  /**
     A directory whose preparation ended early can be prepared again, to the same result, exactly when
     the write that ended it is harmless. This is about the directory alone, which the caller of
     `PrepareDir` gives up after an error.
   */
  lemma PrepareResumesIff(dir: Directory, manifest: string, cluster: string, casMax: int, casMin: int, writes: Writes)
    requires Holds(dir, manifest, cluster)
    ensures Resumes(dir, PreparedBy(dir, manifest, casMax, casMin, writes).0, manifest, cluster, casMax, casMin)
       <==> HarmlessEnd(dir, manifest, casMax, casMin, writes)
  {
    assert manifest in Candidates(dir.Keys);
    var items := dir[manifest].content.items;
    var prepared := PreparedItems(items, casMax, casMin);
    if prepared != items && writes.manifest.Cut? {
      CutManifestIff(dir, manifest, cluster, casMax, casMin, writes.manifest.left);
    } else if prepared == items || writes.manifest.Complete? {
      ManifestStep(dir, manifest, cluster, casMax, casMin);
      var d := if prepared == items then dir else dir[manifest := File(Manifest(prepared))];
      KustomizeResumesIff(d, manifest, cluster, casMax, casMin, writes);
    }
  }

  lemma CutManifestIff(dir: Directory, manifest: string, cluster: string, casMax: int, casMin: int, left: Content)
    requires Holds(dir, manifest, cluster)
    ensures Resumes(dir, dir[manifest := File(left)], manifest, cluster, casMax, casMin)
       <==> HarmlessManifest(dir[manifest].content.items, Cut(left), casMax, casMin)
  {
    var items := dir[manifest].content.items;
    HoldsReplaced(dir, manifest, cluster, left);
    if left.Manifest? {
      NamesPrepared(items, casMax, casMin);
      NamesPrepared(left.items, casMax, casMin);
      PreparedReplaced(dir, manifest, casMax, casMin, left.items);
      SameFile(Prepared(dir, manifest, casMax, casMin), manifest, PreparedItems(items, casMax, casMin),
               PreparedItems(left.items, casMax, casMin));
    }
  }

  lemma HoldsReplaced(dir: Directory, manifest: string, cluster: string, left: Content)
    requires Holds(dir, manifest, cluster)
    ensures Holds(dir[manifest := File(left)], manifest, cluster)
       <==> left.Manifest? && Single(ClusterNames(left.items), cluster)
  {
    assert dir[manifest := File(left)].Keys == dir.Keys;
  }

  lemma PreparedReplaced(dir: Directory, manifest: string, casMax: int, casMin: int, items: seq<Resource>)
    requires manifest in dir && dir[manifest].File? && dir[manifest].content.Manifest?
    ensures Prepared(dir[manifest := File(Manifest(items))], manifest, casMax, casMin)
         == Prepared(dir, manifest, casMax, casMin)[manifest := File(Manifest(PreparedItems(items, casMax, casMin)))]
    ensures Prepared(dir, manifest, casMax, casMin)[manifest]
         == File(Manifest(PreparedItems(dir[manifest].content.items, casMax, casMin)))
  {
  }

  lemma SameFile(dir: Directory, manifest: string, items: seq<Resource>, others: seq<Resource>)
    requires manifest in dir && dir[manifest] == File(Manifest(items))
    ensures dir[manifest := File(Manifest(others))] == dir <==> others == items
  {
    assert dir[manifest := File(Manifest(others))][manifest] == File(Manifest(others));
  }

  lemma KustomizeResumesIff(dir: Directory, manifest: string, cluster: string, casMax: int, casMin: int, writes: Writes)
    requires Holds(dir, manifest, cluster)
    ensures Resumes(dir, AddKustomize(dir, manifest, writes).0, manifest, cluster, casMax, casMin)
       <==> HarmlessKustomize(dir, manifest, writes)
  {
    if KUSTOMIZATION in dir {
      ConfigurationsResumeIff(dir, manifest, cluster, casMax, casMin, writes);
    } else if writes.kustomization.Complete? {
      KustomizeStep(dir, manifest, cluster, casMax, casMin, KUSTOMIZATION, KustomizationFor(manifest));
      ConfigurationsResumeIff(dir[KUSTOMIZATION := KustomizationFor(manifest)], manifest, cluster, casMax, casMin,
                              writes);
    } else if writes.kustomization.Cut? {
      CutKustomizeIff(dir, manifest, cluster, casMax, casMin, KUSTOMIZATION, KustomizationFor(manifest),
                      writes.kustomization.left);
    }
  }

  lemma ConfigurationsResumeIff(dir: Directory, manifest: string, cluster: string, casMax: int, casMin: int,
                                writes: Writes)
    requires Holds(dir, manifest, cluster) && KUSTOMIZATION in dir
    ensures Resumes(dir, AddKustomize(dir, manifest, writes).0, manifest, cluster, casMax, casMin)
       <==> CONFIGURATIONS in dir || Harmless(CONFIGURATIONS_YAML, writes.configurations)
  {
    if CONFIGURATIONS !in dir {
      match writes.configurations {
        case Complete => KustomizeStep(dir, manifest, cluster, casMax, casMin, CONFIGURATIONS, CONFIGURATIONS_YAML);
        case NotOpened =>
        case Cut(left) =>
          CutKustomizeIff(dir, manifest, cluster, casMax, casMin, CONFIGURATIONS, CONFIGURATIONS_YAML, left);
      }
    }
  }

  lemma CutKustomizeIff(dir: Directory, manifest: string, cluster: string, casMax: int, casMin: int, name: string,
                        file: Node, left: Content)
    requires Holds(dir, manifest, cluster) && name !in dir
    requires (name, file) in {(KUSTOMIZATION, KustomizationFor(manifest)), (CONFIGURATIONS, CONFIGURATIONS_YAML)}
    ensures Resumes(dir, dir[name := File(left)], manifest, cluster, casMax, casMin) <==> File(left) == file
  {
    var d := dir[name := File(left)];
    assert manifest in Candidates(dir.Keys);
    assert Candidates(d.Keys) == Candidates(dir.Keys);
    if File(left) == file {
      KustomizeStep(dir, manifest, cluster, casMax, casMin, name, file);
    } else {
      assert Prepared(d, manifest, casMax, casMin)[name] == File(left);
      assert Prepared(dir, manifest, casMax, casMin)[name] == file;
    }
  }

  lemma ManifestStep(dir: Directory, manifest: string, cluster: string, casMax: int, casMin: int)
    requires Holds(dir, manifest, cluster)
    ensures var d := dir[manifest := File(Manifest(PreparedItems(dir[manifest].content.items, casMax, casMin)))];
            && Holds(d, manifest, cluster)
            && Prepared(d, manifest, casMax, casMin) == Prepared(dir, manifest, casMax, casMin)
  {
    var items := dir[manifest].content.items;
    NamesPrepared(items, casMax, casMin);
    PreparedItemsStay(items, casMax, casMin, casMax, casMin);
    var d := dir[manifest := File(Manifest(PreparedItems(items, casMax, casMin)))];
    assert d.Keys == dir.Keys;
  }

  lemma KustomizeStep(dir: Directory, manifest: string, cluster: string, casMax: int, casMin: int, name: string,
                      file: Node)
    requires Holds(dir, manifest, cluster) && name !in dir
    requires (name, file) in {(KUSTOMIZATION, KustomizationFor(manifest)), (CONFIGURATIONS, CONFIGURATIONS_YAML)}
    ensures Holds(dir[name := file], manifest, cluster)
    ensures Prepared(dir[name := file], manifest, casMax, casMin) == Prepared(dir, manifest, casMax, casMin)
  {
    var d := dir[name := file];
    assert manifest in Candidates(dir.Keys);
    assert Candidates(d.Keys) == Candidates(dir.Keys);
  }
}

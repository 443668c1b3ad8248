/** Preparing a template directory in git: in a clone, which is pushed only once all of it is prepared. */
module TemplateRepos {
  import opened Text
  import opened Remote
  import opened BaseCluster

  /** How cloning, the writes in the clone, committing and pushing end. */
  datatype GitCalls = GitCalls(clone: bool, writes: Writes, commit: bool, push: Reply)

  datatype GitError = CloneFailed | NotPrepared(error: Error) | CommitFailed | PushFailed

  /** The published directory after preparing it, and the answer: the cluster's name, and whether it changed. */
  function Published(dir: Directory, manifest: string, cluster: string, casMax: int, casMin: int, e: GitCalls)
    : (Directory, Result<(string, bool), GitError>)
    requires Holds(dir, manifest, cluster)
  {
    var (clone, prepared) := PreparedBy(dir, manifest, casMax, casMin, e.writes);
    if !e.clone then (dir, Err(CloneFailed))
    else if !prepared then (dir, Err(NotPrepared(WriteFailed)))
    else if !e.commit then (dir, Err(CommitFailed))
    else if clone == dir then (dir, Ok((cluster, false)))
    else (if e.push.Refused? then dir else clone, if e.push.Applied? then Ok((cluster, true)) else Err(PushFailed))
  }

  class TemplateRepo {
    var published: Directory

    constructor (dir: Directory)
      ensures published == dir
    {
      published := dir;
    }

    /** On any error the clone is given up, and what is published stays. */
    method PrepareGitDir(listing: seq<string>, casMax: int, casMin: int, e: GitCalls)
      returns (r: Result<(string, bool), GitError>)
      requires Lists(listing, published) && "" !in published
      modifies this
      ensures forall manifest, cluster | Holds(old(published), manifest, cluster) ::
                (published, r) == Published(old(published), manifest, cluster, casMax, casMin, e)
      ensures (forall manifest, cluster :: !Holds(old(published), manifest, cluster)) ==>
                r.Err? && published == old(published)
    {
      if !e.clone {
        return Err(CloneFailed);
      }
      var clone := new TemplateDir(published);
      var prepared := clone.PrepareDir(listing, casMax, casMin, e.writes);
      if prepared.Err? {
        return Err(NotPrepared(prepared.error));
      }
      var clusterName := prepared.value.1;
      if !e.commit {
        return Err(CommitFailed);
      }
      if clone.files == published {
        return Ok((clusterName, false));
      }
      if !e.push.Refused? {
        published := clone.files;
      }
      if !e.push.Applied? {
        return Err(PushFailed);
      }
      return Ok((clusterName, true));
    }
  }

  // ---------------------------------------------------------------- what is ever published

  /**
     However its calls and writes end, a preparation publishes the whole prepared directory or nothing
     new. It publishes it exactly if it is there already, or cloning, every write that is due and the
     commit work and the push is not refused. Success means that it is published.
   */
  lemma AllOrNothing(dir: Directory, manifest: string, cluster: string, casMax: int, casMin: int, e: GitCalls)
    requires Holds(dir, manifest, cluster)
    ensures var (after, r) := Published(dir, manifest, cluster, casMax, casMin, e);
            var prepared := Prepared(dir, manifest, casMax, casMin);
            && after in {dir, prepared}
            && (after == prepared <==>
                  || prepared == dir
                  || (&& e.clone && PreparedBy(dir, manifest, casMax, casMin, e.writes).1 && e.commit
                      && !e.push.Refused?))
            && (r.Ok? ==> after == prepared && r.value == (cluster, prepared != dir))
  {
    if PreparedBy(dir, manifest, casMax, casMin, e.writes).1 {
      CompletedPrepare(dir, manifest, cluster, casMax, casMin, e.writes);
    }
  }

  /** One attempt to prepare the directory. */
  datatype Attempt = Attempt(casMax: int, casMin: int, calls: GitCalls)

  function Try(dir: Directory, manifest: string, cluster: string, a: Attempt)
    : (Directory, Result<(string, bool), GitError>)
    requires Holds(dir, manifest, cluster)
  {
    Published(dir, manifest, cluster, a.casMax, a.casMin, a.calls)
  }

  /** What is published after some attempts. */
  function Run(dir: Directory, manifest: string, cluster: string, attempts: seq<Attempt>): (r: Directory)
    requires Holds(dir, manifest, cluster)
    ensures Holds(r, manifest, cluster)
    decreases |attempts|
  {
    if attempts == [] then dir
    else
      var before, a := Run(dir, manifest, cluster, attempts[..|attempts| - 1]), attempts[|attempts| - 1];
      AllOrNothing(before, manifest, cluster, a.casMax, a.casMin, a.calls);
      PrepareEstablishesValidate(before, manifest, cluster, a.casMax, a.casMin);
      Try(before, manifest, cluster, a).0
  }

  /** The directory is as one of the attempts would prepare it. */
  ghost predicate PreparedByOne(dir: Directory, manifest: string, cluster: string, attempts: seq<Attempt>, r: Directory)
    requires Holds(dir, manifest, cluster)
  {
    exists i :: 0 <= i < |attempts| && r == Prepared(dir, manifest, attempts[i].casMax, attempts[i].casMin)
  }

  /**
     After any attempts with any limits and failures, the published directory is the first one or what
     a single one of the attempts makes of the first one, never a mixture; after a successful attempt it
     is the latter, and validation accepts it.
   */
  lemma {:induction false} PublishHistory(dir: Directory, manifest: string, cluster: string, attempts: seq<Attempt>)
    requires Holds(dir, manifest, cluster)
    ensures var r := Run(dir, manifest, cluster, attempts);
            r == dir || PreparedByOne(dir, manifest, cluster, attempts, r)
    ensures attempts != [] ==>
              var before := Run(dir, manifest, cluster, attempts[..|attempts| - 1]);
              var r := Run(dir, manifest, cluster, attempts);
              Try(before, manifest, cluster, attempts[|attempts| - 1]).1.Ok? ==>
                Valid(r, manifest, cluster) && PreparedByOne(dir, manifest, cluster, attempts, r)
    decreases |attempts|
  {
    if attempts != [] {
      var front, a := attempts[..|attempts| - 1], attempts[|attempts| - 1];
      PublishHistory(dir, manifest, cluster, front);
      var before := Run(dir, manifest, cluster, front);
      AllOrNothing(before, manifest, cluster, a.casMax, a.casMin, a.calls);
      PrepareEstablishesValidate(before, manifest, cluster, a.casMax, a.casMin);
      if before == dir {
        assert Prepared(before, manifest, a.casMax, a.casMin)
            == Prepared(dir, manifest, attempts[|attempts| - 1].casMax, attempts[|attempts| - 1].casMin);
      } else {
        var i :| 0 <= i < |front| && before == Prepared(dir, manifest, front[i].casMax, front[i].casMin);
        assert front[i] == attempts[i];
        PrepareIdempotent(dir, manifest, cluster, front[i].casMax, front[i].casMin, a.casMax, a.casMin);
      }
    }
  }

  /** A successful preparation publishes the limits it was given, for every machine deployment without its own. */
  lemma PublishedLimits(dir: Directory, manifest: string, cluster: string, casMax: Int64, casMin: Int64, e: GitCalls,
                        i: nat)
    requires Holds(dir, manifest, cluster) && i < |dir[manifest].content.items|
    requires dir[manifest].content.items[i].kind == MACHINE_DEPLOYMENT_KIND
    requires Published(dir, manifest, cluster, casMax, casMin, e).1.Ok?
    ensures var after := Published(dir, manifest, cluster, casMax, casMin, e).0;
            && manifest in after && after[manifest].File? && after[manifest].content.Manifest?
            && i < |after[manifest].content.items|
            && var x, y := dir[manifest].content.items[i].annotations, after[manifest].content.items[i].annotations;
               LimitSet(x, y, CAS_MAX, casMax) && LimitSet(x, y, CAS_MIN, casMin)
               && (ValueOf(x, CAS_MAX) == "" ==> Atoi(y[CAS_MAX]) == Some(casMax))
               && (ValueOf(x, CAS_MIN) == "" ==> Atoi(y[CAS_MIN]) == Some(casMin))
  {
    AllOrNothing(dir, manifest, cluster, casMax, casMin, e);
    LimitsFilled(dir, manifest, cluster, casMax, casMin, i);
    AtoiItoa(casMax);
    AtoiItoa(casMin);
  }
}

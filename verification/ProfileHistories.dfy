/** What a profile holds after updates, in terms of what they asked for. */
module ProfileHistories {
  import opened Text
  import opened Remote
  import opened Profiles

  // ---------------------------------------------------------------- what one update stores

  /** An item of a comma-separated text: it stands between commas or ends, and the text is not empty. */
  ghost predicate ItemOf(text: string, item: string) {
    text != "" && Piece(text, ',', item)
  }

  lemma ItemIff(text: string, item: string)
    ensures item in StringListFromCommaSeparated(text) <==> ItemOf(text, item)
  {
    PieceIff(text, ',', item);
  }

  lemma RevisedItems(stored: seq<string>, wanted: seq<string>, item: string)
    ensures item in Revised(stored, wanted) <==> item in wanted
  {
    SameItems(wanted, stored);
  }

  /** The first override of that bundle and key has this value. */
  ghost predicate FirstIs(list: seq<Override>, bundle: string, key: string, value: string) {
    exists i :: FirstAt(list, i, Override(bundle, key, value))
  }

  ghost predicate FirstAt(list: seq<Override>, i: int, o: Override) {
    0 <= i < |list| && list[i] == o && forall j | 0 <= j < i :: Id(list[j]) != Id(o)
  }

  /** The last one asked for has this value. */
  ghost predicate LastIs(os: seq<Override>, bundle: string, key: string, value: string) {
    exists i :: LastAt(os, i, Override(bundle, key, value))
  }

  ghost predicate LastAt(os: seq<Override>, i: int, o: Override) {
    0 <= i < |os| && os[i] == o && forall j | i < j < |os| :: Id(os[j]) != Id(o)
  }

  lemma ValueIff(list: seq<Override>, bundle: string, key: string, value: string)
    ensures FirstIs(list, bundle, key, value) <==> Value(list, bundle, key) == Some(value)
  {
    var p := Position(list, bundle, key);
    if p < |list| {
      assert FirstAt(list, p, list[p]);
    }
    if i :| FirstAt(list, i, Override(bundle, key, value)) {
      PositionIs(list, bundle, key, i);
    }
  }

  /** An override has the value last asked for, or its old one if it was not asked for. */
  lemma {:induction false} OverridesAsked(list: seq<Override>, os: seq<Override>, bundle: string, key: string,
                                          value: string)
    ensures FirstIs(UpsertAll(list, os), bundle, key, value) <==>
              || LastIs(os, bundle, key, value)
              || (!Named(os, (bundle, key)) && FirstIs(list, bundle, key, value))
  {
    if os != [] {
      var front, last := os[..|os| - 1], os[|os| - 1];
      OverridesAsked(list, front, bundle, key, value);
      ValueIff(UpsertAll(list, front), bundle, key, value);
      ValueIff(UpsertAll(list, os), bundle, key, value);
      UpsertValue(UpsertAll(list, front), last, bundle, key);
      LastStep(os, bundle, key, value);
    }
  }

  lemma LastStep(os: seq<Override>, bundle: string, key: string, value: string)
    requires os != []
    ensures var front, last := os[..|os| - 1], os[|os| - 1];
            && (Named(os, (bundle, key)) <==> Id(last) == (bundle, key) || Named(front, (bundle, key)))
            && (LastIs(os, bundle, key, value) <==>
                  if Id(last) == (bundle, key) then last.value == value else LastIs(front, bundle, key, value))
  {
    var front, last, o := os[..|os| - 1], os[|os| - 1], Override(bundle, key, value);
    assert forall j | 0 <= j < |front| :: front[j] == os[j];
    if Id(last) == (bundle, key) {
      assert LastAt(os, |os| - 1, last);
      assert forall i :: LastAt(os, i, o) ==> i == |os| - 1;
    } else {
      assert forall i :: LastAt(os, i, o) <==> LastAt(front, i, o);
      if Named(os, (bundle, key)) {
        var i :| 0 <= i < |os| && Id(os[i]) == (bundle, key);
        assert Id(front[i]) == (bundle, key);
      }
      if Named(front, (bundle, key)) {
        NamedLater(os, (bundle, key));
      }
    }
  }

  /** What is stored after an update that is answered with success. */
  lemma AskedIsStored(p: Profile, legacy: bool, r: Request, existing: seq<string>, isValidName: string -> bool,
                      e: Calls)
    requires Answer(p, legacy, r, existing, isValidName, e).1.Ok?
    ensures Stores(p, r, Answer(p, legacy, r, existing, isValidName, e).0)
  {
    if !Changes(p, r) {
      NoChanges(p, r);
    }
    UpdatedStores(p, r);
  }

  /**
     The description is the one passed, the tags are the items of the passed text, and the bundles are the
     items of the passed list written with commas, or of the stored one; what is not passed stays. Each
     override has the value last passed for it.
   */
  ghost predicate Stores(p: Profile, r: Request, after: Profile) {
    && after.description == (if r.desc == "" then p.description else r.desc)
    && (if r.tags == "" then after.tags == p.tags else forall x :: x in after.tags <==> ItemOf(r.tags, x))
    && (forall x :: x in after.bundles <==>
          ItemOf(Join(match r.bundles case Some(b) => b case None => p.bundles, ','), x))
    && (forall bundle, key, value :: FirstIs(after.overrides, bundle, key, value) <==>
          || LastIs(r.overrides, bundle, key, value)
          || (!Named(r.overrides, (bundle, key)) && FirstIs(p.overrides, bundle, key, value)))
    && after.repoUrl == p.repoUrl
  }

  lemma UpdatedStores(p: Profile, r: Request)
    ensures Stores(p, r, Updated(p, r))
  {
    var after := Updated(p, r);
    var bundles := match r.bundles case Some(b) => b case None => p.bundles;
    forall x
      ensures r.tags != "" ==> (x in after.tags <==> ItemOf(r.tags, x))
      ensures x in after.bundles <==> ItemOf(Join(bundles, ','), x)
    {
      RevisedItems(p.tags, StringListFromCommaSeparated(r.tags), x);
      ItemIff(r.tags, x);
      RevisedItems(p.bundles, StringListFromCommaSeparated(Join(bundles, ',')), x);
      ItemIff(Join(bundles, ','), x);
    }
    forall bundle, key, value
      ensures FirstIs(after.overrides, bundle, key, value) <==>
                || LastIs(r.overrides, bundle, key, value)
                || (!Named(r.overrides, (bundle, key)) && FirstIs(p.overrides, bundle, key, value))
    {
      OverridesAsked(p.overrides, r.overrides, bundle, key, value);
    }
  }

  /** So the stored bundles are the requested ones, as a set, exactly if commas do no harm to the request. */
  lemma RequestedBundles(p: Profile, legacy: bool, r: Request, existing: seq<string>, isValidName: string -> bool,
                         e: Calls)
    requires r.bundles.Some? && Answer(p, legacy, r, existing, isValidName, e).1.Ok?
    ensures var after := Answer(p, legacy, r, existing, isValidName, e).0;
            (forall x :: x in after.bundles <==> x in r.bundles.value)
            <==> r.bundles.value != [""] && forall i | 0 <= i < |r.bundles.value| :: ',' !in r.bundles.value[i]
  {
    var b := r.bundles.value;
    AskedIsStored(p, legacy, r, existing, isValidName, e);
    CommaEquivalent(b);
    var read := StringListFromCommaSeparated(Join(b, ','));
    forall x
      ensures x in read <==> ItemOf(Join(b, ','), x)
    {
      ItemIff(Join(b, ','), x);
    }
    SameItems(read, b);
  }

  lemma SameItems(a: seq<string>, b: seq<string>)
    ensures StringListsEquivalent(a, b) <==> forall x :: x in a <==> x in b
  {
    var s, t := set x | x in a, set x | x in b;
    assert StringListsEquivalent(a, b) <==> s == t;
    if s == t {
      forall x
        ensures x in a <==> x in b
      {
        assert x in s <==> x in t;
      }
    }
  }

  // ---------------------------------------------------------------- sequences of updates

  /** One update, with the bundles that exist at that time and what its calls do. */
  datatype Step = Step(request: Request, existing: seq<string>, calls: Calls)

  /** The update gets to its write, and the write takes effect; whether anything needs writing is another matter. */
  predicate Through(repoUrl: string, isValidName: string -> bool, s: Step) {
    var requested := if s.request.bundles.None? then [] else s.request.bundles.value;
    && AllValid(requested, isValidName) && s.calls.list && IsSubset(requested, s.existing) && s.calls.get
    && (repoUrl == "" || s.calls.git) && !s.calls.write.Refused?
  }

  function Run(p: Profile, isValidName: string -> bool, steps: seq<Step>): Profile {
    if steps == [] then p
    else
      var s := steps[|steps| - 1];
      Answer(Run(p, isValidName, steps[..|steps| - 1]), false, s.request, s.existing, isValidName, s.calls).0
  }

  /** The requests of the updates that get through. */
  function Requests(repoUrl: string, isValidName: string -> bool, steps: seq<Step>): seq<Request> {
    if steps == [] then []
    else
      var earlier, s := Requests(repoUrl, isValidName, steps[..|steps| - 1]), steps[|steps| - 1];
      if Through(repoUrl, isValidName, s) then earlier + [s.request] else earlier
  }

  function LastDescription(rs: seq<Request>, original: string): string {
    if rs == [] then original
    else if rs[|rs| - 1].desc != "" then rs[|rs| - 1].desc
    else LastDescription(rs[..|rs| - 1], original)
  }

  /** The last tags passed, empty if none were. */
  function LastTags(rs: seq<Request>): string {
    if rs == [] then ""
    else if rs[|rs| - 1].tags != "" then rs[|rs| - 1].tags
    else LastTags(rs[..|rs| - 1])
  }

  function LastBundles(rs: seq<Request>, original: seq<string>): seq<string> {
    if rs == [] then original
    else if rs[|rs| - 1].bundles.Some? then rs[|rs| - 1].bundles.value
    else LastBundles(rs[..|rs| - 1], original)
  }

  function AllOverrides(rs: seq<Request>): seq<Override> {
    if rs == [] then [] else AllOverrides(rs[..|rs| - 1]) + rs[|rs| - 1].overrides
  }

  /** `now` is `before` with, in every field, what was asked for last. */
  ghost predicate LastAsked(before: Profile, rs: seq<Request>, now: Profile) {
    && now.description == LastDescription(rs, before.description)
    && (if LastTags(rs) == "" then now.tags == before.tags else forall x :: x in now.tags <==> ItemOf(LastTags(rs), x))
    && BundlesAsked(before, rs, now)
    && now.overrides == UpsertAll(before.overrides, AllOverrides(rs))
    && now.repoUrl == before.repoUrl
  }

  /** A stored list of one empty name is not a list of items, and is read as having none. */
  ghost predicate BundlesAsked(before: Profile, rs: seq<Request>, now: Profile) {
    if rs == [] then now.bundles == before.bundles
    else before.bundles != [""] ==>
           now.bundles != [""]
           && forall x :: x in now.bundles <==> ItemOf(Join(LastBundles(rs, before.bundles), ','), x)
  }

  lemma {:induction false} UpsertAppend(list: seq<Override>, a: seq<Override>, b: seq<Override>)
    ensures UpsertAll(list, a + b) == UpsertAll(UpsertAll(list, a), b)
  {
    if b == [] {
      assert a + b == a;
    } else {
      UpsertAppend(list, a, b[..|b| - 1]);
      assert (a + b)[..|a + b| - 1] == a + b[..|b| - 1];
    }
  }

  lemma ReadIsNotBlank(text: string)
    ensures StringListFromCommaSeparated(text) != [""]
  {
    JoinSplit(text, ',');
  }

  lemma BundlesStep(before: Profile, rs: seq<Request>, now: Profile, r: Request)
    requires BundlesAsked(before, rs, now)
    ensures BundlesAsked(before, rs + [r], Updated(now, r))
  {
    var all, after := rs + [r], Updated(now, r);
    assert all[..|all| - 1] == rs && all[|all| - 1] == r;
    if before.bundles != [""] {
      UpdatedStores(now, r);
      var asked := match r.bundles case Some(b) => b case None => now.bundles;
      ReadIsNotBlank(Join(asked, ','));
      if r.bundles.None? && rs != [] {
        assert forall x | x in now.bundles :: ',' !in x;
        CommaRoundTrip(now.bundles);
        assert after.bundles == now.bundles;
      }
    }
  }

  lemma AskedStep(before: Profile, rs: seq<Request>, now: Profile, r: Request)
    requires LastAsked(before, rs, now)
    ensures LastAsked(before, rs + [r], Updated(now, r))
  {
    var all := rs + [r];
    assert all[..|all| - 1] == rs && all[|all| - 1] == r;
    BundlesStep(before, rs, now, r);
    UpdatedStores(now, r);
    UpsertAppend(before.overrides, AllOverrides(rs), r.overrides);
  }

  lemma StepEffect(p: Profile, isValidName: string -> bool, s: Step)
    ensures var after := Answer(p, false, s.request, s.existing, isValidName, s.calls).0;
            after == if Through(p.repoUrl, isValidName, s) then Updated(p, s.request) else p
  {
    if !Changes(p, s.request) {
      NoChanges(p, s.request);
    }
  }

  /**
     After any sequence of updates, with any failures, every field holds what was asked for last by an
     update that got through, or its original value.
   */
  lemma {:induction false} UpdateHistory(p: Profile, isValidName: string -> bool, steps: seq<Step>)
    ensures LastAsked(p, Requests(p.repoUrl, isValidName, steps), Run(p, isValidName, steps))
  {
    if steps != [] {
      var front, s := steps[..|steps| - 1], steps[|steps| - 1];
      UpdateHistory(p, isValidName, front);
      var now := Run(p, isValidName, front);
      StepEffect(now, isValidName, s);
      AskedStep(p, Requests(p.repoUrl, isValidName, front), now, s.request);
    }
  }

  /** In particular each override has the value asked for last. */
  lemma OverrideHistory(p: Profile, isValidName: string -> bool, steps: seq<Step>, bundle: string, key: string,
                        value: string)
    ensures var os := AllOverrides(Requests(p.repoUrl, isValidName, steps));
            FirstIs(Run(p, isValidName, steps).overrides, bundle, key, value) <==>
              || LastIs(os, bundle, key, value)
              || (!Named(os, (bundle, key)) && FirstIs(p.overrides, bundle, key, value))
  {
    UpdateHistory(p, isValidName, steps);
    OverridesAsked(p.overrides, AllOverrides(Requests(p.repoUrl, isValidName, steps)), bundle, key, value);
  }

  // ---------------------------------------------------------------- groups by position

  /** How many overrides are for a bundle. */
  function Count(list: seq<Override>, bundle: string): nat {
    if list == [] then 0
    else Count(list[..|list| - 1], bundle) + if list[|list| - 1].bundle == bundle then 1 else 0
  }

  /** Each override is in its bundle's group, after the earlier ones of that bundle and before the later ones. */
  lemma {:induction false} PairAt(list: seq<Override>, i: nat)
    requires i < |list|
    ensures var o := list[i];
            var pairs := PairsOf(list, o.bundle);
            && |pairs| == Count(list, o.bundle) && Count(list[..i], o.bundle) < |pairs|
            && pairs[Count(list[..i], o.bundle)] == KVPair(o.key, o.value)
  {
    var front, o := list[..|list| - 1], list[i];
    PairsCounted(front, o.bundle);
    if i < |front| {
      PairAt(front, i);
      assert front[..i] == list[..i] && front[i] == o;
    } else {
      assert list[..i] == front;
    }
  }

  lemma {:induction false} PairsCounted(list: seq<Override>, bundle: string)
    ensures |PairsOf(list, bundle)| == Count(list, bundle)
  {
    if list != [] {
      PairsCounted(list[..|list| - 1], bundle);
    }
  }

  // ---------------------------------------------------------------- what an update answers

  /** The update may go ahead: its names are valid, its bundles exist, and the profile is there and not an old one. */
  ghost predicate Admitted(legacy: bool, r: Request, existing: seq<string>, isValidName: string -> bool, e: Calls) {
    && (r.bundles.Some? ==> forall x | x in r.bundles.value :: isValidName(x) && x in existing)
    && e.list && e.get && !legacy
  }

  /**
     What the answer says: success needs an update that may go ahead, and is certain for one whose
     remaining calls work. A failed one changes nothing, unless its write took effect without a report.
   */
  lemma AnswerTells(p: Profile, legacy: bool, r: Request, existing: seq<string>, isValidName: string -> bool, e: Calls)
    ensures var (after, result) := Answer(p, legacy, r, existing, isValidName, e);
            && (result.Ok? ==> Admitted(legacy, r, existing, isValidName, e))
            && (Admitted(legacy, r, existing, isValidName, e) && (p.repoUrl == "" || e.git) && e.write.Applied? ==>
                  result.Ok?)
            && (result == Err(InvalidName) <==>
                  r.bundles.Some? && exists x :: x in r.bundles.value && !isValidName(x))
            && (result == Ok(false) || (result.Err? && !e.write.Lost?) ==> after == p)
            && (after != p && result.Ok? ==> result == Ok(true))
  {
    var requested := if r.bundles.None? then [] else r.bundles.value;
    SubsetIff(requested, existing);
    assert AllValid(requested, isValidName) <==> forall x | x in requested :: isValidName(x);
  }

  lemma SubsetIff(a: seq<string>, b: seq<string>)
    ensures IsSubset(a, b) <==> forall x | x in a :: x in b
  {
    var s, t := set x | x in a, set x | x in b;
    if s <= t {
      forall x | x in a
        ensures x in b
      {
        assert x in s && x in t;
      }
    }
  }
}

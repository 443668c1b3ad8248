/** Updating a profile: its comma-separated lists and its parameter overrides. */
module Profiles {
  import opened Text
  import opened Remote

  datatype Override = Override(bundle: string, key: string, value: string)

  datatype KVPair = KVPair(key: string, value: string)

  datatype Profile = Profile(
    description: string, bundles: seq<string>, tags: seq<string>, repoUrl: string, overrides: seq<Override>)

  datatype Error = InvalidName | MissingBundles | LegacyProfile | RemoteFailure

  // ---------------------------------------------------------------- comma-separated lists

  function StringListFromCommaSeparated(cs: string): seq<string> {
    if cs == "" then [] else Split(cs, ',')
  }

  method CommaSeparatedFromStringList(sl: seq<string>) returns (s: string)
    ensures s == Join(sl, ',')
  {
    s := "";
    for i := 0 to |sl|
      invariant s == Join(sl[..i], ',')
    {
      assert sl[..i + 1] == sl[..i] + [sl[i]];
      var item := sl[i];
      if i > 0 {
        JoinAppend(sl[..i], ',', item);
        item := "," + item;
      }
      s := s + item;
    }
    assert sl[..|sl|] == sl;
  }

  predicate StringListsEquivalent(a: seq<string>, b: seq<string>) {
    (set x | x in a) == (set x | x in b)
  }

  predicate IsSubset(sub: seq<string>, super: seq<string>) {
    (set x | x in sub) <= (set x | x in super)
  }

  /** Exactly these lists survive being written with commas and read again. */
  predicate CommaSafe(sl: seq<string>) {
    sl != [""] && forall i | 0 <= i < |sl| :: ',' !in sl[i]
  }

  lemma CommaRoundTrip(sl: seq<string>)
    ensures StringListFromCommaSeparated(Join(sl, ',')) == sl <==> CommaSafe(sl)
  {
    if sl != [] {
      SplitJoin(sl, ',');
      if Join(sl, ',') == "" {
        assert Split("", ',') == [""];
      }
    }
  }

  /** Lists that do not survive do not even keep their set of items. */
  lemma CommaEquivalent(sl: seq<string>)
    ensures StringListsEquivalent(StringListFromCommaSeparated(Join(sl, ',')), sl) <==> CommaSafe(sl)
  {
    CommaRoundTrip(sl);
    var back := StringListFromCommaSeparated(Join(sl, ','));
    var items, kept := set x | x in sl, set x | x in back;
    assert forall i | 0 <= i < |sl| :: sl[i] in items;
    assert forall x | x in kept :: ',' !in x;
    assert sl == [""] ==> back == [] && "" in items;
  }

  // ---------------------------------------------------------------- overrides

  /** The first override of this bundle and key; the length of the list if there is none. */
  function Position(list: seq<Override>, bundle: string, key: string): (p: nat)
    ensures p <= |list|
    ensures p < |list| ==> list[p].bundle == bundle && list[p].key == key
    ensures forall i | 0 <= i < p :: list[i].bundle != bundle || list[i].key != key
  {
    if list == [] then 0
    else if list[0].bundle == bundle && list[0].key == key then 0
    else 1 + Position(list[1..], bundle, key)
  }

  function Upsert(list: seq<Override>, o: Override): seq<Override> {
    var p := Position(list, o.bundle, o.key);
    if p < |list| then list[p := list[p].(value := o.value)] else list + [o]
  }

  function UpsertAll(list: seq<Override>, os: seq<Override>): seq<Override> {
    if os == [] then list
    else Upsert(UpsertAll(list, os[..|os| - 1]), os[|os| - 1])
  }

  /** The value in force: that of the first override of this bundle and key. */
  function Value(list: seq<Override>, bundle: string, key: string): Option<string> {
    var p := Position(list, bundle, key);
    if p < |list| then Some(list[p].value) else None
  }

  /** Reference definition: a plain map updated by each override in turn. */
  ghost predicate Denotes(list: seq<Override>, m: map<(string, string), string>) {
    forall bundle, key ::
      Value(list, bundle, key) == if (bundle, key) in m then Some(m[(bundle, key)]) else None
  }

  function Overlay(m: map<(string, string), string>, os: seq<Override>): map<(string, string), string> {
    if os == [] then m
    else
      var last := os[|os| - 1];
      Overlay(m, os[..|os| - 1])[(last.bundle, last.key) := last.value]
  }

  lemma PositionIs(list: seq<Override>, bundle: string, key: string, p: nat)
    requires p <= |list|
    requires p < |list| ==> list[p].bundle == bundle && list[p].key == key
    requires forall i | 0 <= i < p :: list[i].bundle != bundle || list[i].key != key
    ensures Position(list, bundle, key) == p
  {
  }

  lemma UpsertValue(list: seq<Override>, o: Override, bundle: string, key: string)
    ensures Value(Upsert(list, o), bundle, key)
         == if bundle == o.bundle && key == o.key then Some(o.value) else Value(list, bundle, key)
  {
    var p, q := Position(list, o.bundle, o.key), Position(list, bundle, key);
    var after := Upsert(list, o);
    if bundle == o.bundle && key == o.key {
      PositionIs(after, bundle, key, p);
    } else if q < |list| {
      PositionIs(after, bundle, key, q);
    } else {
      PositionIs(after, bundle, key, |after|);
    }
  }

  /** The loop refines map update: the new overrides overlay the old map, later ones winning. */
  lemma {:induction false} UpsertRefines(list: seq<Override>, m: map<(string, string), string>, os: seq<Override>)
    requires Denotes(list, m)
    ensures Denotes(UpsertAll(list, os), Overlay(m, os))
  {
    if os != [] {
      var front, last := os[..|os| - 1], os[|os| - 1];
      UpsertRefines(list, m, front);
      forall bundle, key
        ensures Value(UpsertAll(list, os), bundle, key)
             == if (bundle, key) in Overlay(m, os) then Some(Overlay(m, os)[(bundle, key)]) else None
      {
        UpsertValue(UpsertAll(list, front), last, bundle, key);
        assert Value(UpsertAll(list, front), bundle, key)
            == if (bundle, key) in Overlay(m, front) then Some(Overlay(m, front)[(bundle, key)]) else None;
      }
    }
  }

  /** What identifies an override. */
  function Id(o: Override): (string, string) {
    (o.bundle, o.key)
  }

  ghost predicate Distinct(list: seq<Override>) {
    forall i, j | 0 <= i < j < |list| :: Id(list[i]) != Id(list[j])
  }

  /** Old entries keep their place, and no duplicate is introduced. */
  lemma {:induction false} UpsertKeepsOrder(list: seq<Override>, os: seq<Override>)
    ensures var after := UpsertAll(list, os);
            && |after| >= |list|
            && (forall i | 0 <= i < |list| :: Id(after[i]) == Id(list[i]))
            && (forall i | |list| <= i < |after| :: Named(os, Id(after[i])))
            && (forall i, j | 0 <= i < j < |after| && |list| <= j :: Id(after[i]) != Id(after[j]))
            && (Distinct(list) ==> Distinct(after))
  {
    if os != [] {
      var front, last := os[..|os| - 1], os[|os| - 1];
      UpsertKeepsOrder(list, front);
      var before, after := UpsertAll(list, front), UpsertAll(list, os);
      forall i | |list| <= i < |after|
        ensures Named(os, Id(after[i]))
      {
        if i < |before| {
          assert Id(after[i]) == Id(before[i]) && Named(front, Id(before[i]));
          NamedLater(os, Id(after[i]));
        } else {
          assert after[i] == last;
        }
      }
    }
  }

  ghost predicate Named(os: seq<Override>, id: (string, string)) {
    exists i :: 0 <= i < |os| && Id(os[i]) == id
  }

  lemma NamedLater(os: seq<Override>, id: (string, string))
    requires os != [] && Named(os[..|os| - 1], id)
    ensures Named(os, id)
  {
    var i :| 0 <= i < |os| - 1 && Id(os[..|os| - 1][i]) == id;
    assert Id(os[i]) == id;
  }

  /** Every override in `os` is already in force. */
  predicate InForce(list: seq<Override>, os: seq<Override>) {
    forall i | 0 <= i < |os| :: Value(list, os[i].bundle, os[i].key) == Some(os[i].value)
  }

  lemma {:induction false} InForceUnchanged(list: seq<Override>, os: seq<Override>)
    requires InForce(list, os)
    ensures UpsertAll(list, os) == list
  {
    if os != [] {
      InForceUnchanged(list, os[..|os| - 1]);
    }
  }

  /** The inner loop of Update: the first match is replaced, and without a match the override is appended. */
  method ApplyOverride(list: seq<Override>, o: Override) returns (result: seq<Override>, changed: bool)
    ensures result == Upsert(list, o)
    ensures !changed <==> Value(list, o.bundle, o.key) == Some(o.value)
    ensures !changed ==> result == list
  {
    for i := 0 to |list|
      invariant forall j | 0 <= j < i :: list[j].bundle != o.bundle || list[j].key != o.key
    {
      var x := list[i];
      if o.bundle == x.bundle && o.key == x.key {
        PositionIs(list, o.bundle, o.key, i);
        if o.value != x.value {
          return list[i := x.(value := o.value)], true;
        }
        return list, false;
      }
    }
    PositionIs(list, o.bundle, o.key, |list|);
    return list + [o], true;
  }

  method ApplyOverrides(stored: seq<Override>, overrides: seq<Override>)
    returns (result: seq<Override>, dirty: bool)
    ensures result == UpsertAll(stored, overrides)
    ensures !dirty <==> InForce(stored, overrides)
    ensures !dirty ==> result == stored
  {
    result, dirty := stored, false;
    for k := 0 to |overrides|
      invariant result == UpsertAll(stored, overrides[..k])
      invariant !dirty <==> InForce(stored, overrides[..k])
      invariant !dirty ==> result == stored
    {
      assert overrides[..k + 1][..k] == overrides[..k];
      StillInForce(stored, overrides, k);
      var changed;
      result, changed := ApplyOverride(result, overrides[k]);
      if changed {
        dirty := true;
      }
    }
    assert overrides[..|overrides|] == overrides;
  }

  lemma StillInForce(stored: seq<Override>, overrides: seq<Override>, k: nat)
    requires k < |overrides|
    ensures InForce(stored, overrides[..k + 1])
       <==> InForce(stored, overrides[..k])
            && Value(stored, overrides[k].bundle, overrides[k].key) == Some(overrides[k].value)
  {
    var a, b := overrides[..k + 1], overrides[..k];
    assert a == b + [overrides[k]];
    if InForce(stored, a) {
      forall i | 0 <= i < k
        ensures Value(stored, b[i].bundle, b[i].key) == Some(b[i].value)
      {
        assert b[i] == a[i];
      }
      assert a[k] == overrides[k];
    }
  }

  // ---------------------------------------------------------------- overrides by bundle

  /** The overrides of one bundle, in order. */
  function PairsOf(list: seq<Override>, bundle: string): seq<KVPair> {
    if list == [] then []
    else
      var last := list[|list| - 1];
      PairsOf(list[..|list| - 1], bundle) + if last.bundle == bundle then [KVPair(last.key, last.value)] else []
  }

  function Bundles(list: seq<Override>): set<string> {
    if list == [] then {} else Bundles(list[..|list| - 1]) + {list[|list| - 1].bundle}
  }

  /** `m` has an entry for every bundle with overrides, and that entry is its overrides in order. */
  ghost predicate Grouped(list: seq<Override>, m: map<string, seq<KVPair>>) {
    m.Keys == Bundles(list) && forall bundle | bundle in m :: m[bundle] == PairsOf(list, bundle)
  }

  lemma {:induction false} NoPairs(list: seq<Override>, bundle: string)
    requires bundle !in Bundles(list)
    ensures PairsOf(list, bundle) == []
  {
    if list != [] {
      NoPairs(list[..|list| - 1], bundle);
    }
  }

  lemma GroupedStep(list: seq<Override>, i: nat, m: map<string, seq<KVPair>>)
    requires i < |list| && Grouped(list[..i], m)
    ensures var earlier := if list[i].bundle in m then m[list[i].bundle] else [];
            Grouped(list[..i + 1], m[list[i].bundle := earlier + [KVPair(list[i].key, list[i].value)]])
  {
    assert list[..i + 1][..i] == list[..i];
    if list[i].bundle !in m {
      NoPairs(list[..i], list[i].bundle);
    }
  }

  /** Every bundle that has overrides, with its overrides in order; nil if there are none at all. */
  method MakeOverridesMap(overrides: seq<Override>) returns (om: Option<map<string, seq<KVPair>>>)
    ensures om.None? <==> overrides == []
    ensures om.Some? ==> Grouped(overrides, om.value)
  {
    if |overrides| == 0 {
      return None;
    }
    var m: map<string, seq<KVPair>> := map[];
    for i := 0 to |overrides|
      invariant Grouped(overrides[..i], m)
    {
      GroupedStep(overrides, i, m);
      var item := overrides[i];
      var earlier := if item.bundle in m then m[item.bundle] else [];
      m := m[item.bundle := earlier + [KVPair(item.key, item.value)]];
    }
    assert overrides[..|overrides|] == overrides;
    return Some(m);
  }

  function PairPosition(list: seq<KVPair>, key: string): (p: nat)
    ensures p <= |list|
    ensures p < |list| ==> list[p].key == key
    ensures forall i | 0 <= i < p :: list[i].key != key
  {
    if list == [] then 0 else if list[0].key == key then 0 else 1 + PairPosition(list[1..], key)
  }

  function UpsertPair(list: seq<KVPair>, pair: KVPair): seq<KVPair> {
    var p := PairPosition(list, pair.key);
    if p < |list| then list[p := pair] else list + [pair]
  }

  function UpsertPairs(list: seq<KVPair>, pairs: seq<KVPair>): seq<KVPair> {
    if pairs == [] then list
    else UpsertPair(UpsertPairs(list, pairs[..|pairs| - 1]), pairs[|pairs| - 1])
  }

  lemma PairPositionIs(list: seq<KVPair>, key: string, p: nat)
    requires p <= |list|
    requires p < |list| ==> list[p].key == key
    requires forall i | 0 <= i < p :: list[i].key != key
    ensures PairPosition(list, key) == p
  {
  }

  lemma {:induction false} PairsAppend(a: seq<Override>, b: seq<Override>, bundle: string)
    ensures PairsOf(a + b, bundle) == PairsOf(a, bundle) + PairsOf(b, bundle)
  {
    if b == [] {
      assert a + b == a;
    } else {
      PairsAppend(a, b[..|b| - 1], bundle);
      assert (a + b)[..|a + b| - 1] == a + b[..|b| - 1];
    }
  }

  lemma {:induction false} PairsWithout(list: seq<Override>, bundle: string, key: string)
    requires forall i | 0 <= i < |list| :: list[i].bundle != bundle || list[i].key != key
    ensures forall i | 0 <= i < |PairsOf(list, bundle)| :: PairsOf(list, bundle)[i].key != key
  {
    if list != [] {
      PairsWithout(list[..|list| - 1], bundle, key);
    }
  }

  lemma ReplaceGroup(list: seq<Override>, o: Override, bundle: string)
    requires Position(list, o.bundle, o.key) < |list|
    ensures PairsOf(Upsert(list, o), bundle)
         == if o.bundle == bundle then UpsertPair(PairsOf(list, bundle), KVPair(o.key, o.value))
            else PairsOf(list, bundle)
  {
    var p := Position(list, o.bundle, o.key);
    var front, tail, updated := list[..p], list[p + 1..], list[p].(value := o.value);
    assert list == front + [list[p]] + tail;
    assert Upsert(list, o) == front + [updated] + tail;
    Middle(front, list[p], tail, bundle);
    Middle(front, updated, tail, bundle);
    if o.bundle == bundle {
      PairsWithout(front, bundle, o.key);
      ReplacePair(PairsOf(front, bundle), KVPair(o.key, list[p].value), PairsOf(tail, bundle), o.value);
    }
  }

  lemma ReplacePair(front: seq<KVPair>, pair: KVPair, tail: seq<KVPair>, value: string)
    requires forall i | 0 <= i < |front| :: front[i].key != pair.key
    ensures UpsertPair(front + [pair] + tail, KVPair(pair.key, value)) == front + [KVPair(pair.key, value)] + tail
  {
    PairPositionIs(front + [pair] + tail, pair.key, |front|);
  }

  /** Replacing or appending one override does the same to its bundle's group, and nothing to others. */
  lemma UpsertGroup(list: seq<Override>, o: Override, bundle: string)
    ensures PairsOf(Upsert(list, o), bundle)
         == if o.bundle == bundle then UpsertPair(PairsOf(list, bundle), KVPair(o.key, o.value))
            else PairsOf(list, bundle)
  {
    if Position(list, o.bundle, o.key) < |list| {
      ReplaceGroup(list, o, bundle);
    } else {
      PairsAppend(list, [o], bundle);
      assert [o][..0] == [];
      if o.bundle == bundle {
        PairsWithout(list, bundle, o.key);
        PairPositionIs(PairsOf(list, bundle), o.key, |PairsOf(list, bundle)|);
      }
    }
  }

  lemma Middle(front: seq<Override>, o: Override, tail: seq<Override>, bundle: string)
    ensures PairsOf(front + [o] + tail, bundle)
         == PairsOf(front, bundle) + (if o.bundle == bundle then [KVPair(o.key, o.value)] else [])
            + PairsOf(tail, bundle)
  {
    PairsAppend(front + [o], tail, bundle);
    PairsAppend(front, [o], bundle);
    assert [o][..0] == [];
  }

  /** Grouping by bundle commutes with the upsert: each group is updated by its own overrides. */
  lemma {:induction false} GroupCommutes(list: seq<Override>, os: seq<Override>, bundle: string)
    ensures PairsOf(UpsertAll(list, os), bundle) == UpsertPairs(PairsOf(list, bundle), PairsOf(os, bundle))
  {
    if os != [] {
      var front, last := os[..|os| - 1], os[|os| - 1];
      GroupCommutes(list, front, bundle);
      UpsertGroup(UpsertAll(list, front), last, bundle);
      var pairs := PairsOf(os, bundle);
      if last.bundle == bundle {
        assert pairs[..|pairs| - 1] == PairsOf(front, bundle);
      } else {
        assert pairs == PairsOf(front, bundle);
      }
    }
  }

  // ---------------------------------------------------------------- the whole update

  /** What an update asks for; `None` for the bundles leaves them alone. */
  datatype Request = Request(bundles: Option<seq<string>>, desc: string, tags: string, overrides: seq<Override>)

  /** A list is replaced only when its set of items differs. */
  function Revised(stored: seq<string>, wanted: seq<string>): seq<string> {
    if StringListsEquivalent(wanted, stored) then stored else wanted
  }

  function Updated(p: Profile, r: Request): Profile {
    var bundles := if r.bundles.None? then p.bundles else r.bundles.value;
    p.(description := if r.desc == "" then p.description else r.desc,
       tags := if r.tags == "" then p.tags else Revised(p.tags, StringListFromCommaSeparated(r.tags)),
       bundles := Revised(p.bundles, StringListFromCommaSeparated(Join(bundles, ','))),
       overrides := UpsertAll(p.overrides, r.overrides))
  }

  /** Something the update asks for differs from what is stored. */
  predicate Changes(p: Profile, r: Request) {
    var bundles := if r.bundles.None? then p.bundles else r.bundles.value;
    || (r.desc != "" && r.desc != p.description)
    || (r.tags != "" && !StringListsEquivalent(StringListFromCommaSeparated(r.tags), p.tags))
    || !StringListsEquivalent(StringListFromCommaSeparated(Join(bundles, ',')), p.bundles)
    || !InForce(p.overrides, r.overrides)
  }

  /** An update that finds nothing to change would indeed change nothing. */
  lemma NoChanges(p: Profile, r: Request)
    requires !Changes(p, r)
    ensures Updated(p, r) == p
  {
    InForceUnchanged(p.overrides, r.overrides);
  }

  /** Whether listing bundles, reading the profile and regenerating git succeed, and how the write ends. */
  datatype Calls = Calls(list: bool, get: bool, git: bool, write: Reply)

  predicate AllValid(names: seq<string>, isValidName: string -> bool) {
    forall i | 0 <= i < |names| :: isValidName(names[i])
  }

  /** The stored profile after an update, and its answer; `existing` are the bundles there are. */
  function Answer(p: Profile, legacy: bool, r: Request, existing: seq<string>, isValidName: string -> bool, e: Calls)
    : (Profile, Result<bool, Error>)
  {
    var requested := if r.bundles.None? then [] else r.bundles.value;
    if !AllValid(requested, isValidName) then (p, Err(InvalidName))
    else if !e.list then (p, Err(RemoteFailure))
    else if !IsSubset(requested, existing) then (p, Err(MissingBundles))
    else if !e.get then (p, Err(RemoteFailure))
    else if legacy then (p, Err(LegacyProfile))
    else if !Changes(p, r) then (p, Ok(false))
    else if p.repoUrl != "" && !e.git then (p, Err(RemoteFailure))
    else (if e.write.Refused? then p else Updated(p, r), if e.write.Applied? then Ok(true) else Err(RemoteFailure))
  }

  /** An update that names no bundles leaves the stored ones alone exactly when commas do no harm. */
  lemma NoBundlesNoChange(p: Profile, r: Request)
    requires r.bundles == None
    ensures Updated(p, r).bundles == p.bundles <==> CommaSafe(p.bundles)
  {
    CommaEquivalent(p.bundles);
    CommaRoundTrip(p.bundles);
  }

  /** The request the update command makes of its flags; the flag for clearing passes nil, like no flag. */
  function Command(clear: bool, bundles: Option<seq<string>>, desc: string, tags: string, overrides: seq<Override>)
    : Option<Request>
  {
    if clear && bundles.Some? then None
    else Some(Request(if clear then None else bundles, desc, tags, overrides))
  }

  lemma {:induction false} JoinEmpty(sl: seq<string>)
    ensures Join(sl, ',') == "" <==> sl == [] || sl == [""]
  {
    if |sl| > 1 {
      assert Join(sl, ',')[|sl[0]|] == ',';
    }
  }

  lemma Inequivalent(sl: seq<string>)
    requires sl != []
    ensures !StringListsEquivalent([], sl)
  {
    var none: seq<string> := [];
    var a, b := set x | x in none, set x | x in sl;
    assert sl[0] in b && sl[0] !in a;
    assert StringListsEquivalent(none, sl) <==> a == b;
  }

  /** The flag that should set the bundles to the empty set does so exactly if there is no bundle to clear. */
  lemma ClearIff(p: Profile, desc: string, tags: string, overrides: seq<Override>)
    ensures Updated(p, Command(true, None, desc, tags, overrides).value).bundles == []
       <==> p.bundles == [] || p.bundles == [""]
  {
    JoinEmpty(p.bundles);
    var wanted := StringListFromCommaSeparated(Join(p.bundles, ','));
    assert Updated(p, Command(true, None, desc, tags, overrides).value).bundles == Revised(p.bundles, wanted);
    if p.bundles == [] {
      assert wanted == [];
    } else if p.bundles == [""] {
      assert wanted == [];
      Inequivalent(p.bundles);
    } else {
      assert |wanted| > 0 && |p.bundles| > 0;
    }
  }

  /** Clearing a profile with one bundle is answered with "not modified", and keeps the bundle. */
  lemma ClearKeepsBundle(p: Profile, bundle: string, existing: seq<string>, isValidName: string -> bool, e: Calls)
    requires p.bundles == [bundle] && bundle != "" && ',' !in bundle && e.list && e.get
    ensures Answer(p, false, Command(true, None, "", "", []).value, existing, isValidName, e) == (p, Ok(false))
  {
    CommaRoundTrip(p.bundles);
  }

  /** The fields are compared and replaced one after the other. */
  method Merge(p: Profile, r: Request) returns (prof: Profile, dirty: bool)
    ensures prof == Updated(p, r)
    ensures dirty <==> Changes(p, r)
  {
    prof, dirty := p, false;
    if r.desc != "" && r.desc != prof.description {
      prof := prof.(description := r.desc);
      dirty := true;
    }
    if r.tags != "" && !StringListsEquivalent(StringListFromCommaSeparated(r.tags), prof.tags) {
      prof := prof.(tags := StringListFromCommaSeparated(r.tags));
      dirty := true;
    }
    var bundles := CommaSeparatedFromStringList(if r.bundles.None? then prof.bundles else r.bundles.value);
    if !StringListsEquivalent(StringListFromCommaSeparated(bundles), prof.bundles) {
      prof := prof.(bundles := StringListFromCommaSeparated(bundles));
      dirty := true;
    }
    var overrides, changed := ApplyOverrides(prof.overrides, r.overrides);
    if changed {
      prof := prof.(overrides := overrides);
      dirty := true;
    }
  }

  class Store {
    var profile: Profile
    const legacy: bool

    constructor (p: Profile, legacy: bool)
      ensures profile == p && this.legacy == legacy
    {
      profile := p;
      this.legacy := legacy;
    }

    method Update(r: Request, existing: seq<string>, isValidName: string -> bool, e: Calls)
      returns (result: Result<bool, Error>)
      modifies this`profile
      ensures (profile, result) == Answer(old(profile), legacy, r, existing, isValidName, e)
    {
      var requested := if r.bundles.None? then [] else r.bundles.value;
      for i := 0 to |requested|
        invariant forall k | 0 <= k < i :: isValidName(requested[k])
      {
        if !isValidName(requested[i]) {
          return Err(InvalidName);
        }
      }
      if !e.list {
        return Err(RemoteFailure);
      }
      if !IsSubset(requested, existing) {
        return Err(MissingBundles);
      }
      if !e.get {
        return Err(RemoteFailure);
      }
      if legacy {
        return Err(LegacyProfile);
      }
      var prof, dirty := Merge(profile, r);
      if !dirty {
        return Ok(false);
      }
      if prof.repoUrl != "" && !e.git {
        return Err(RemoteFailure);
      }
      if !e.write.Refused? {
        profile := prof;
      }
      if !e.write.Applied? {
        return Err(RemoteFailure);
      }
      return Ok(true);
    }
  }
}

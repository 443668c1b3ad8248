/** Git paths of a cluster: composition as in Go's path package, and its inverse. */
module Paths {
  import opened Text

  // ---------------------------------------------------------------- path.Clean and path.Join

  predicate Rooted(p: string) {
    p != "" && p[0] == '/'
  }

  /** Add one component to a normal list of components. */
  function Push(comps: seq<string>, c: string, rooted: bool): seq<string> {
    if c == "" || c == "." then comps
    else if c != ".." then comps + [c]
    else if comps != [] && comps[|comps| - 1] != ".." then comps[..|comps| - 1]
    else if rooted then comps
    else comps + [".."]
  }

  function Normal(comps: seq<string>, rooted: bool): seq<string> {
    if comps == [] then []
    else Push(Normal(comps[..|comps| - 1], rooted), comps[|comps| - 1], rooted)
  }

  function Render(comps: seq<string>, rooted: bool): string {
    if rooted then "/" + Join(comps, '/')
    else if comps == [] then "."
    else Join(comps, '/')
  }

  function Components(p: string): seq<string> {
    Normal(Split(p, '/'), Rooted(p))
  }

  function Clean(p: string): string {
    Render(Components(p), Rooted(p))
  }

  /** Where a path leads; equal for paths with the same clean form. */
  datatype Place = Place(rooted: bool, comps: seq<string>)

  function PlaceOf(p: string): Place {
    Place(Rooted(p), Components(p))
  }

  /** At `q` or somewhere below it. */
  predicate Below(p: Place, q: Place) {
    p.rooted == q.rooted && q.comps <= p.comps
  }

  function JoinPath(a: string, b: string): string {
    if a != "" then Clean(a + "/" + b)
    else if b != "" then Clean(b)
    else ""
  }

  // ---------------------------------------------------------------- pkg/cluster/util.go

  function ClusterPath(basePath: string, clusterName: string): string {
    JoinPath(basePath, clusterName)
  }

  function MgmtPath(basePath: string, clusterName: string): string {
    JoinPath(ClusterPath(basePath, clusterName), "mgmt")
  }

  datatype PathError = TooShort | NotMgmt

  function DecomposePath(mgmtPath: string): Result<(string, string), PathError> {
    var comps := Split(mgmtPath, '/');
    var l := |comps|;
    if l < 3 then Err(TooShort)
    else if comps[l - 1] != "mgmt" then Err(NotMgmt)
    else Ok((Join(comps[..l - 2], '/'), comps[l - 2]))
  }

  // ---------------------------------------------------------------- normal component lists

  /** No empty or "." component, and ".." only at the front of an unrooted list. */
  ghost predicate Tidy(comps: seq<string>, rooted: bool) {
    forall i | 0 <= i < |comps| :: TidyAt(comps, i, rooted)
  }

  ghost predicate TidyAt(comps: seq<string>, i: nat, rooted: bool)
    requires i < |comps|
  {
    && '/' !in comps[i] && comps[i] != "" && comps[i] != "."
    && (comps[i] == ".." ==> !rooted && (i == 0 || comps[i - 1] == ".."))
  }

  lemma TidyPrefix(comps: seq<string>, n: nat, rooted: bool)
    requires n <= |comps| && Tidy(comps, rooted)
    ensures Tidy(comps[..n], rooted)
  {
    forall i | 0 <= i < n
      ensures TidyAt(comps[..n], i, rooted)
    {
      assert TidyAt(comps, i, rooted);
    }
  }

  lemma PushTidy(comps: seq<string>, c: string, rooted: bool)
    requires Tidy(comps, rooted) && '/' !in c
    ensures Tidy(Push(comps, c, rooted), rooted)
  {
    var pushed := Push(comps, c, rooted);
    forall i | 0 <= i < |pushed|
      ensures TidyAt(pushed, i, rooted)
    {
      if i < |comps| {
        assert TidyAt(comps, i, rooted);
      }
    }
  }

  lemma TidyFree(comps: seq<string>, rooted: bool)
    requires Tidy(comps, rooted)
    ensures Free(comps, '/')
  {
    forall i | 0 <= i < |comps|
      ensures '/' !in comps[i]
    {
      assert TidyAt(comps, i, rooted);
    }
  }

  lemma {:induction false} NormalIsTidy(comps: seq<string>, rooted: bool)
    requires Free(comps, '/')
    ensures Tidy(Normal(comps, rooted), rooted)
  {
    if comps != [] {
      var front, c := comps[..|comps| - 1], comps[|comps| - 1];
      NormalIsTidy(front, rooted);
      PushTidy(Normal(front, rooted), c, rooted);
    }
  }

  lemma {:induction false} TidyIsNormal(comps: seq<string>, rooted: bool)
    requires Tidy(comps, rooted)
    ensures Normal(comps, rooted) == comps
  {
    if comps != [] {
      var front := comps[..|comps| - 1];
      TidyPrefix(comps, |front|, rooted);
      assert TidyAt(comps, |front|, rooted);
      TidyIsNormal(front, rooted);
      assert front + [comps[|comps| - 1]] == comps;
    }
  }

  lemma {:induction false} NormalSkipsEmpty(comps: seq<string>, rooted: bool)
    ensures Normal([""] + comps, rooted) == Normal(comps, rooted)
  {
    var all := [""] + comps;
    if comps == [] {
      assert all[..0] == [];
    } else {
      NormalSkipsEmpty(comps[..|comps| - 1], rooted);
      assert all[..|all| - 1] == [""] + comps[..|comps| - 1];
    }
  }

  lemma {:induction false} SplitAppend(a: string, sep: char, b: string)
    ensures Split(a + [sep] + b, sep) == Split(a, sep) + Split(b, sep)
  {
    var whole := a + [sep] + b;
    if a == "" {
      assert whole[1..] == b;
    } else {
      SplitAppend(a[1..], sep, b);
      assert whole[1..] == a[1..] + [sep] + b;
      SplitStep(whole, sep, Split(a[1..], sep) + Split(b, sep));
      SplitStep(a, sep, Split(a[1..], sep));
      PrependAppend(a[0], sep, Split(a[1..], sep), Split(b, sep));
    }
  }

  /** What one leading character does to the split of the rest. */
  function Prepend(c: char, sep: char, rest: seq<string>): seq<string>
    requires rest != []
  {
    if c == sep then [""] + rest else [[c] + rest[0]] + rest[1..]
  }

  lemma SplitStep(s: string, sep: char, rest: seq<string>)
    requires s != "" && rest == Split(s[1..], sep)
    ensures Split(s, sep) == Prepend(s[0], sep, rest)
  {
  }

  lemma PrependAppend(c: char, sep: char, rest: seq<string>, tail: seq<string>)
    requires rest != []
    ensures Prepend(c, sep, rest + tail) == Prepend(c, sep, rest) + tail
  {
    assert (rest + tail)[1..] == rest[1..] + tail;
  }

  lemma ComponentsTidy(p: string)
    ensures Tidy(Components(p), Rooted(p))
  {
    NormalIsTidy(Split(p, '/'), Rooted(p));
  }

  /** The split of a rendered tidy list, which shows its components again. */
  lemma SplitRendered(comps: seq<string>, rooted: bool)
    requires Tidy(comps, rooted)
    ensures Rooted(Render(comps, rooted)) == rooted
    ensures comps != [] ==> Split(Render(comps, rooted), '/') == (if rooted then [""] + comps else comps)
    ensures Components(Render(comps, rooted)) == comps
  {
    var p := Render(comps, rooted);
    TidyIsNormal(comps, rooted);
    if comps != [] {
      TidyFree(comps, rooted);
      SplitJoinFree(comps, '/');
      if rooted {
        SplitFirst("", '/', Join(comps, '/'));
        assert "" + ['/'] + Join(comps, '/') == p;
        NormalSkipsEmpty(comps, rooted);
      } else {
        assert TidyAt(comps, 0, rooted) && p[0] == comps[0][0];
        assert p[0] in comps[0];
      }
    } else if rooted {
      SplitFirst("", '/', "");
      assert "" + ['/'] + "" == p;
      TwoEmpty(rooted);
    } else {
      SplitWhole(".", '/');
      assert ["."][..0] == [];
    }
  }

  lemma TwoEmpty(rooted: bool)
    ensures Split("", '/') == [""] && [""] + [""] == ["", ""]
    ensures Normal(["", ""], rooted) == []
  {
    assert [""][..0] == [];
    assert Normal([""], rooted) == Push(Normal([], rooted), "", rooted) == [];
    assert ["", ""][..1] == [""];
    assert Normal(["", ""], rooted) == Push(Normal([""], rooted), "", rooted) == [];
  }

  lemma CleanIdempotent(p: string)
    ensures Components(Clean(p)) == Components(p) && Rooted(Clean(p)) == Rooted(p)
    ensures Clean(Clean(p)) == Clean(p)
  {
    ComponentsTidy(p);
    SplitRendered(Components(p), Rooted(p));
  }

  lemma CleanPlace(p: string, q: string)
    ensures Clean(p) == Clean(q) <==> PlaceOf(p) == PlaceOf(q)
  {
    CleanIdempotent(p);
    CleanIdempotent(q);
  }

  /** Appending a slash and one component pushes that component. */
  lemma ComponentsAppend(p: string, c: string)
    requires p != "" && '/' !in c
    ensures Rooted(p + "/" + c) == Rooted(p)
    ensures Components(p + "/" + c) == Push(Components(p), c, Rooted(p))
  {
    SplitAppend(p, '/', c);
    SplitWhole(c, '/');
    var parts := Split(p, '/') + [c];
    assert p + "/" + c == p + ['/'] + c;
    assert parts[..|parts| - 1] == Split(p, '/');
  }

  /** A name that is a path component of its own. */
  predicate Plain(c: string) {
    '/' !in c && c != "" && c != "." && c != ".."
  }

  /** Joining a plain name to a path, also to the empty one, leads one level down. */
  lemma ChildPlace(p: string, c: string)
    requires Plain(c)
    ensures PlaceOf(ClusterPath(p, c)) == Place(Rooted(p), Components(p) + [c])
    ensures p != "" ==> PlaceOf(p + "/" + c) == PlaceOf(ClusterPath(p, c))
  {
    if p != "" {
      ComponentsAppend(p, c);
      CleanIdempotent(p + "/" + c);
    } else {
      SingleComponent(p);
      SingleComponent(c);
      CleanIdempotent(c);
    }
  }

  /** A path with "." or nothing appended leads to the same place, and with ".." one level up again. */
  lemma DotsLead(p: string, c: string)
    requires p != "" && Plain(c)
    ensures PlaceOf(p + "/" + ".") == PlaceOf(p) && PlaceOf(p + "/" + "") == PlaceOf(p)
    ensures PlaceOf((p + "/" + c) + "/" + "..") == PlaceOf(p)
    ensures Components(p) == [] ==>
              PlaceOf(p + "/" + "..") == Place(Rooted(p), if Rooted(p) then [] else [".."])
  {
    ComponentsAppend(p, ".");
    ComponentsAppend(p, "");
    ComponentsAppend(p, "..");
    ComponentsAppend(p, c);
    ComponentsAppend(p + "/" + c, "..");
  }

  lemma BelowChild(p: Place, b: string, q: Place, a: string)
    ensures Below(Place(p.rooted, p.comps + [b]), Place(q.rooted, q.comps + [a]))
       <==> Below(p, Place(q.rooted, q.comps + [a])) || (a == b && p == q)
  {
    var inner, outer := p.comps + [b], q.comps + [a];
    if |outer| <= |p.comps| {
      assert inner[..|outer|] == p.comps[..|outer|];
    } else if |outer| == |inner| {
      assert inner[..|p.comps|] == p.comps && outer[..|q.comps|] == q.comps;
      assert inner[..|outer|] == inner && inner[|p.comps|] == b && outer[|q.comps|] == a;
    }
  }

  // ---------------------------------------------------------------- the management path

  lemma MgmtComponents(basePath: string, clusterName: string)
    requires basePath != "" && '/' !in clusterName
    ensures MgmtPath(basePath, clusterName)
         == Render(Push(Components(basePath), clusterName, Rooted(basePath)) + ["mgmt"], Rooted(basePath))
  {
    var whole := basePath + "/" + clusterName;
    ComponentsAppend(basePath, clusterName);
    CleanIdempotent(whole);
    CleanNotEmpty(whole);
    ComponentsAppend(Clean(whole), "mgmt");
  }

  /** With an empty base path the management path has too few components to decompose. */
  lemma EmptyBase(clusterName: string)
    requires '/' !in clusterName
    ensures DecomposePath(MgmtPath("", clusterName)) == Err(TooShort)
    ensures !Rooted(MgmtPath("", clusterName))
  {
    SingleComponent(clusterName);
    SingleComponent("mgmt");
    var comps := Push(Push([], clusterName, false), "mgmt", false);
    if clusterName != "" {
      assert Clean(clusterName) == clusterName;
      ComponentsAppend(clusterName, "mgmt");
    }
    assert MgmtPath("", clusterName) == Render(comps, false);
    PushTidy([], clusterName, false);
    PushTidy(Push([], clusterName, false), "mgmt", false);
    SplitRendered(comps, false);
  }

  lemma CleanNotEmpty(p: string)
    ensures Clean(p) != ""
  {
    ComponentsTidy(p);
    var comps := Components(p);
    if comps != [] {
      assert TidyAt(comps, 0, Rooted(p));
    }
  }

  lemma SingleComponent(c: string)
    requires '/' !in c
    ensures Components(c) == Push([], c, false) && !Rooted(c)
  {
    SplitWhole(c, '/');
    assert [c][..0] == [];
  }

  /** The pieces of a clean path other than "/" and ".". */
  function Pieces(comps: seq<string>, rooted: bool): seq<string> {
    if rooted then [""] + comps else comps
  }

  lemma PiecesJoin(comps: seq<string>, rooted: bool)
    requires comps != [] && Tidy(comps, rooted)
    ensures Join(Pieces(comps, rooted), '/') == Render(comps, rooted)
    ensures Free(Pieces(comps, rooted), '/')
  {
    TidyFree(comps, rooted);
    SplitRendered(comps, rooted);
    JoinSplit(Render(comps, rooted), '/');
  }

  /** The pieces of the management path. */
  lemma MgmtPieces(basePath: string, clusterName: string)
    requires basePath != "" && '/' !in clusterName
    ensures Split(MgmtPath(basePath, clusterName), '/')
         == Pieces(Components(basePath + "/" + clusterName), Rooted(basePath)) + ["mgmt"]
  {
    var rooted, whole := Rooted(basePath), basePath + "/" + clusterName;
    ComponentsAppend(basePath, clusterName);
    ComponentsTidy(whole);
    var k := Components(whole);
    MgmtComponents(basePath, clusterName);
    PushTidy(k, "mgmt", rooted);
    SplitRendered(k + ["mgmt"], rooted);
    assert [""] + (k + ["mgmt"]) == ([""] + k) + ["mgmt"];
  }

  /** A clean path with a slash inside has at least two pieces. */
  lemma TwoPieces(basePath: string, clusterName: string)
    requires basePath != "" && '/' !in clusterName
    requires Clean(basePath + "/" + clusterName) == basePath + "/" + clusterName
    ensures |Pieces(Components(basePath + "/" + clusterName), Rooted(basePath))| >= 2
  {
    var rooted, whole := Rooted(basePath), basePath + "/" + clusterName;
    ComponentsAppend(basePath, clusterName);
    ComponentsTidy(whole);
    var k := Components(whole);
    assert whole[|basePath|] == '/' && |whole| >= 2;
    assert k != [] ==> TidyAt(k, 0, rooted);
  }

  /**
     Composing and decomposing gives the base path and the cluster name back exactly when the
     base path is not empty, the name has no slash, and the two joined by a slash are clean.
   */
  lemma RoundTrip(basePath: string, clusterName: string)
    ensures DecomposePath(MgmtPath(basePath, clusterName)) == Ok((basePath, clusterName))
       <==> basePath != "" && '/' !in clusterName
            && Clean(basePath + "/" + clusterName) == basePath + "/" + clusterName
  {
    if basePath == "" && '/' !in clusterName {
      EmptyBase(clusterName);
    } else if '/' !in clusterName {
      var rooted, whole := Rooted(basePath), basePath + "/" + clusterName;
      var k := Components(whole);
      var s := Pieces(k, rooted);
      MgmtPieces(basePath, clusterName);
      DecomposePieces(MgmtPath(basePath, clusterName), s);
      if |s| >= 2 {
        ComponentsAppend(basePath, clusterName);
        ComponentsTidy(whole);
        PiecesJoin(k, rooted);
        RoundTripSplit(basePath, clusterName, s);
      } else if Clean(whole) == whole {
        TwoPieces(basePath, clusterName);
      }
    }
  }

  lemma DecomposePieces(p: string, s: seq<string>)
    requires Split(p, '/') == s + ["mgmt"]
    ensures DecomposePath(p) == if |s| < 2 then Err(TooShort) else Ok((Join(s[..|s| - 1], '/'), s[|s| - 1]))
  {
    var comps := s + ["mgmt"];
    if |s| >= 2 {
      assert comps[..|s| - 1] == s[..|s| - 1];
    }
  }

  /** Pieces stand for the pair exactly when they join to the two with a slash between. */
  lemma RoundTripSplit(basePath: string, clusterName: string, s: seq<string>)
    requires basePath != "" && '/' !in clusterName && |s| >= 2 && Free(s, '/')
    ensures Join(s[..|s| - 1], '/') == basePath && s[|s| - 1] == clusterName
       <==> Join(s, '/') == basePath + "/" + clusterName
  {
    var l := |s| - 1;
    assert s[..l] + [s[l]] == s;
    JoinAppend(s[..l], '/', s[l]);
    if Join(s, '/') == basePath + "/" + clusterName {
      SplitPair(basePath, clusterName, s);
    }
  }

  lemma SplitPair(basePath: string, clusterName: string, s: seq<string>)
    requires '/' !in clusterName && s != [] && Free(s, '/')
    requires Join(s, '/') == basePath + "/" + clusterName
    ensures Join(s[..|s| - 1], '/') == basePath && s[|s| - 1] == clusterName
  {
    SplitJoinFree(s, '/');
    SplitAppend(basePath, '/', clusterName);
    SplitWhole(clusterName, '/');
    assert basePath + ['/'] + clusterName == basePath + "/" + clusterName;
    assert s[..|s| - 1] == Split(basePath, '/');
    JoinSplit(basePath, '/');
  }

  /** Decomposing and composing gives the clean form of the path back, unless the base part is empty. */
  lemma Recompose(mgmtPath: string, basePath: string, clusterName: string)
    requires DecomposePath(mgmtPath) == Ok((basePath, clusterName))
    ensures basePath != "" ==> MgmtPath(basePath, clusterName) == Clean(mgmtPath)
    ensures MgmtPath(basePath, clusterName) == mgmtPath <==> basePath != "" && Clean(mgmtPath) == mgmtPath
  {
    var comps := Split(mgmtPath, '/');
    var l := |comps|;
    JoinSplit(mgmtPath, '/');
    JoinAppend(comps[..l - 2], '/', comps[l - 2]);
    JoinAppend(comps[..l - 1], '/', comps[l - 1]);
    assert comps[..l - 2] + [comps[l - 2]] == comps[..l - 1];
    assert comps[..l - 1] + [comps[l - 1]] == comps;
    var whole := basePath + "/" + clusterName;
    assert mgmtPath == whole + "/" + "mgmt";
    if basePath != "" {
      ComponentsAppend(basePath, clusterName);
      ComponentsAppend(whole, "mgmt");
      MgmtComponents(basePath, clusterName);
    } else {
      EmptyBase(clusterName);
      assert mgmtPath[0] == '/';
    }
  }

  /**
     The directory an override is written to is the one the cluster app points to and the one
     deletion looks for, exactly when the base path is not empty.
   */
  lemma OverridePathsAgree(basePath: string, clusterName: string)
    requires '/' !in clusterName
    ensures Clean(basePath + "/" + clusterName) == Clean(ClusterPath(basePath, clusterName)) <==> basePath != ""
  {
    if basePath != "" {
      CleanIdempotent(basePath + "/" + clusterName);
    } else if clusterName != "" {
      CleanIdempotent(clusterName);
      CleanIdempotent("/" + clusterName);
      assert "" + "/" + clusterName == "/" + clusterName;
    } else {
      CleanIdempotent("");
      CleanIdempotent("/");
      assert "" + "/" + "" == "/";
    }
  }

  /** A path decomposes exactly if it is a base path, a name and "mgmt", with slashes between, and into these. */
  lemma DecomposeIff(p: string, basePath: string, clusterName: string)
    ensures DecomposePath(p) == Ok((basePath, clusterName))
       <==> p == basePath + "/" + clusterName + "/" + "mgmt" && '/' !in clusterName
  {
    if DecomposePath(p) == Ok((basePath, clusterName)) {
      var comps := Split(p, '/');
      var l := |comps|;
      JoinSplit(p, '/');
      JoinAppend(comps[..l - 2], '/', comps[l - 2]);
      JoinAppend(comps[..l - 1], '/', comps[l - 1]);
      assert comps[..l - 2] + [comps[l - 2]] == comps[..l - 1];
      assert comps[..l - 1] + [comps[l - 1]] == comps;
    } else if p == basePath + "/" + clusterName + "/" + "mgmt" && '/' !in clusterName {
      ComposedSplit(basePath, clusterName);
    }
  }

  lemma ComposedSplit(basePath: string, clusterName: string)
    requires '/' !in clusterName
    ensures DecomposePath(basePath + "/" + clusterName + "/" + "mgmt") == Ok((basePath, clusterName))
  {
    var whole := basePath + "/" + clusterName;
    SplitAppend(basePath, '/', clusterName);
    SplitAppend(whole, '/', "mgmt");
    SplitWhole(clusterName, '/');
    SplitWhole("mgmt", '/');
    assert whole == basePath + ['/'] + clusterName && whole + "/" + "mgmt" == whole + ['/'] + "mgmt";
    var front := Split(basePath, '/');
    var comps := front + [clusterName] + ["mgmt"];
    assert comps[..|comps| - 2] == front;
    JoinSplit(basePath, '/');
  }
}

/** Properties of the outline trees built by parseService
    (src/lib/serverlessOutline.ts): what the "Functions" subtree holds,
    that the find-or-create walk of addAPINode shares path nodes and puts
    every method where its path leads, and how many methods the API shows. */
module OutlineProperties {
  import opened Wrappers
  import opened Text
  import opened ServerlessNodes
  import opened OutlineSpec

  // ---------------------------------------------------------------------
  // The "Functions" subtree

  /** One FUNCTION node per declaration, in declaration order. */
  lemma {:induction false} FunctionNodesAre(fs: seq<(string, Option<FuncDecl>)>)
    requires ServiceBuilds(fs)
    ensures |FunctionNodes(fs)| == |fs|
    ensures forall k :: 0 <= k < |fs| ==> FunctionNodes(fs)[k] == FunctionTree(fs[k].0, fs[k].1.value)
    decreases |fs|
  {
    if |fs| > 0 {
      var init := fs[..|fs| - 1];
      FunctionNodesAre(init);
      assert forall k :: 0 <= k < |init| ==> init[k] == fs[k];
    }
  }

  /** `Https` keeps exactly the `http` members of the events that have one. */
  lemma {:induction false} HttpsMembers(events: seq<Event>)
    requires EventsReadable(events)
    ensures forall h :: h in Https(events) <==> exists k :: 0 <= k < |events| && events[k] == Event(Some(h))
    ensures Https(events) == [] <==> forall k :: 0 <= k < |events| ==> events[k].http.None?
    decreases |events|
  {
    if |events| > 0 {
      var init := events[..|events| - 1];
      HttpsMembers(init);
      assert forall k :: 0 <= k < |init| ==> init[k] == events[k];
      forall h | exists k :: 0 <= k < |events| && events[k] == Event(Some(h))
        ensures h in Https(events)
      {
        var k :| 0 <= k < |events| && events[k] == Event(Some(h));
        if k < |init| {
          assert init[k] == Event(Some(h));
        }
      }
    }
  }

  /** A FUNCTION node has a child exactly when one of its events is an
      HTTP event; that child is the "HTTP" container holding one APIMETHOD
      per HTTP event, named after its path, in declaration order. */
  lemma FunctionHasHttpIff(name: string, d: FuncDecl)
    requires EventsReadable(d.events)
    ensures FunctionTree(name, d).children != [] <==> exists k :: 0 <= k < |d.events| && d.events[k].http.Some?
    ensures FunctionTree(name, d).children != [] ==>
              FunctionTree(name, d).children == [NodeTree("HTTP", CONTAINER, "", NoData, HttpMethodNodes(Https(d.events)))]
  {
    HttpsMembers(d.events);
    if exists k :: 0 <= k < |d.events| && d.events[k].http.Some? {
      var k :| 0 <= k < |d.events| && d.events[k].http.Some?;
      assert d.events[k] == Event(Some(d.events[k].http.value));
      assert d.events[k].http.value in Https(d.events);
      assert FunctionChildren(d) != [];
    }
  }

  // ---------------------------------------------------------------------
  // The "API" subtree: counting

  /** The number of nodes of kind `k` in `t`. */
  function Count(t: NodeTree, k: NodeKind): nat
    decreases t, 1
  {
    (if t.kind == k then 1 else 0) + CountAll(t.children, k)
  }

  function CountAll(ts: seq<NodeTree>, k: NodeKind): nat
    decreases ts, 0
  {
    if |ts| == 0 then 0 else CountAll(ts[..|ts| - 1], k) + Count(ts[|ts| - 1], k)
  }

  lemma {:induction false} CountAllAppend(ts: seq<NodeTree>, x: NodeTree, k: NodeKind)
    ensures CountAll(ts + [x], k) == CountAll(ts, k) + Count(x, k)
  {
    assert (ts + [x])[..|ts|] == ts;
  }

  /** Replacing one element changes the count by the difference. */
  lemma {:induction false} CountAllUpdate(ts: seq<NodeTree>, i: nat, x: NodeTree, k: NodeKind)
    requires i < |ts|
    ensures CountAll(ts[i := x], k) + Count(ts[i], k) == CountAll(ts, k) + Count(x, k)
    decreases |ts|
  {
    var n := |ts| - 1;
    if i < n {
      CountAllUpdate(ts[..n], i, x, k);
      assert ts[i := x][..n] == ts[..n][i := x];
    } else {
      assert ts[i := x][..n] == ts[..n];
    }
  }

  /** Every walk of `addAPINode` adds exactly one APIMETHOD node. */
  lemma {:induction false} ApiInsertAddsOneMethod(t: NodeTree, segs: seq<string>, h: Http)
    requires |segs| >= 1
    ensures Count(ApiInsert(t, segs, h), APIMETHOD) == Count(t, APIMETHOD) + 1
    decreases |segs|
  {
    var r := ApiInsert(t, segs, h);
    if |segs| == 1 {
      CountAllAppend(t.children, MethodNode(segs[0], h), APIMETHOD);
    } else {
      var (u, i) := FindOrCreate(t, segs[0]);
      if u != t {
        CountAllAppend(t.children, PathNode(segs[0]), APIMETHOD);
      }
      assert Count(u, APIMETHOD) == Count(t, APIMETHOD);
      ApiInsertAddsOneMethod(u.children[i], segs[1..], h);
      CountAllUpdate(u.children, i, ApiInsert(u.children[i], segs[1..], h), APIMETHOD);
    }
  }

  /** The number of events whose path has at least one segment. */
  function Routed(hs: seq<Http>): nat
  {
    if |hs| == 0 then 0
    else Routed(hs[..|hs| - 1]) + (if |Segments(hs[|hs| - 1].path)| == 0 then 0 else 1)
  }

  lemma {:induction false} FoldApiCountsMethods(t: NodeTree, hs: seq<Http>)
    ensures Count(FoldApi(t, hs), APIMETHOD) == Count(t, APIMETHOD) + Routed(hs)
    decreases |hs|
  {
    if |hs| > 0 {
      FoldApiCountsMethods(t, hs[..|hs| - 1]);
      var h := hs[|hs| - 1];
      if |Segments(h.path)| != 0 {
        ApiInsertAddsOneMethod(FoldApi(t, hs[..|hs| - 1]), Segments(h.path), h);
      }
    }
  }

  /** The API subtree shows one APIMETHOD per HTTP event whose path is not
      made of slashes only; an event with such a path (such as "/") adds
      nothing. */
  lemma ApiTreeMethods(fs: seq<(string, Option<FuncDecl>)>)
    requires ServiceBuilds(fs)
    ensures Count(ApiTree(fs), APIMETHOD) == Routed(AllHttps(fs))
  {
    FoldApiCountsMethods(EmptyApi, AllHttps(fs));
  }

  /** An HTTP event whose path is only slashes leaves the API tree as it is. */
  lemma SlashPathAddsNothing(t: NodeTree, m: string)
    ensures AddApiNode(t, Http("/", m)) == t
  {
    assert Split("/", '/') == ["", ""];
  }

  // ---------------------------------------------------------------------
  // The "API" subtree: sharing

  /** No APIPATH node has an earlier sibling of the same name, at any depth:
      a path segment met again is found, not created anew. */
  predicate UniquePaths(t: NodeTree)
    decreases t
  {
    && (forall i, j :: 0 <= j < i < |t.children| && t.children[i].kind == APIPATH ==>
          t.children[j].name != t.children[i].name)
    && (forall i :: 0 <= i < |t.children| ==> UniquePaths(t.children[i]))
  }

  lemma {:induction false} ApiInsertKeepsUniquePaths(t: NodeTree, segs: seq<string>, h: Http)
    requires |segs| >= 1 && UniquePaths(t)
    ensures UniquePaths(ApiInsert(t, segs, h))
    decreases |segs|
  {
    if |segs| == 1 {
      AppendKeepsUniquePaths(t, MethodNode(segs[0], h));
    } else {
      var (u, i) := FindOrCreate(t, segs[0]);
      if u != t {
        AppendKeepsUniquePaths(t, PathNode(segs[0]));
      }
      ApiInsertKeepsUniquePaths(u.children[i], segs[1..], h);
      ReplaceKeepsUniquePaths(u, i, ApiInsert(u.children[i], segs[1..], h));
    }
  }

  /** Appending a child keeps sibling names unique, provided a new APIPATH
      is named differently from every child already there. */
  lemma AppendKeepsUniquePaths(t: NodeTree, x: NodeTree)
    requires UniquePaths(t) && UniquePaths(x)
    requires x.kind == APIPATH ==> forall j :: 0 <= j < |t.children| ==> t.children[j].name != x.name
    ensures UniquePaths(t.(children := t.children + [x]))
  {
    var r := t.(children := t.children + [x]);
    assert forall j :: 0 <= j < |t.children| ==> r.children[j] == t.children[j];
  }

  /** Replacing a child by a tree of the same name and kind keeps sibling
      names unique. */
  lemma ReplaceKeepsUniquePaths(t: NodeTree, i: nat, c: NodeTree)
    requires UniquePaths(t) && UniquePaths(c) && i < |t.children|
    requires c.name == t.children[i].name && c.kind == t.children[i].kind
    ensures UniquePaths(t.(children := t.children[i := c]))
  {
    var r := t.(children := t.children[i := c]);
    assert forall j :: 0 <= j < |r.children| ==>
      r.children[j].name == t.children[j].name && r.children[j].kind == t.children[j].kind;
  }

  lemma {:induction false} FoldApiKeepsUniquePaths(t: NodeTree, hs: seq<Http>)
    requires UniquePaths(t)
    ensures UniquePaths(FoldApi(t, hs))
    decreases |hs|
  {
    if |hs| > 0 {
      FoldApiKeepsUniquePaths(t, hs[..|hs| - 1]);
      var h := hs[|hs| - 1];
      if |Segments(h.path)| != 0 {
        ApiInsertKeepsUniquePaths(FoldApi(t, hs[..|hs| - 1]), Segments(h.path), h);
      }
    }
  }

  /** Two routes that share a segment share its APIPATH node. */
  lemma ApiTreeSharesPaths(fs: seq<(string, Option<FuncDecl>)>)
    requires ServiceBuilds(fs)
    ensures UniquePaths(ApiTree(fs))
  {
    FoldApiKeepsUniquePaths(EmptyApi, AllHttps(fs));
  }

  // ---------------------------------------------------------------------
  // The "API" subtree: where a method lands

  /** The node reached from `t` by taking, for each segment, the first
      child of that name, as `addAPINode`'s `_.find` does. */
  function Follow(t: NodeTree, path: seq<string>): Option<NodeTree>
    decreases |path|
  {
    if |path| == 0 then Some(t)
    else match IndexOfName(Names(t.children), path[0])
      case None => None
      case Some(i) => Follow(t.children[i], path[1..])
  }

  /** The node reached by `path` from `t` exists and has `m` as its last
      child. */
  predicate MethodAt(t: NodeTree, path: seq<string>, m: NodeTree)
  {
    var n := Follow(t, path);
    n.Some? && |n.value.children| >= 1 && n.value.children[|n.value.children| - 1] == m
  }

  /** After the walk for `segs`, the node that the leading segments lead to
      has, as its last child, the APIMETHOD named after the last segment. */
  lemma MethodLandsAtItsPath(t: NodeTree, segs: seq<string>, h: Http)
    requires |segs| >= 1
    ensures MethodAt(ApiInsert(t, segs, h), segs[..|segs| - 1], MethodNode(segs[|segs| - 1], h))
  {
    var lead, last := segs[..|segs| - 1], segs[|segs| - 1];
    assert segs == lead + [last];
    MethodLandsAt(t, lead, last, h);
  }

  /** `MethodLandsAtItsPath` for the segments `lead + [last]`. */
  lemma {:induction false} MethodLandsAt(t: NodeTree, lead: seq<string>, last: string, h: Http)
    ensures MethodAt(ApiInsert(t, lead + [last], h), lead, MethodNode(last, h))
    decreases |lead|
  {
    if |lead| == 0 {
      assert lead + [last] == [last];
      MethodLandsAtLeaf(t, last, h);
    } else {
      var rest := lead[1..] + [last];
      assert lead + [last] == [lead[0]] + rest;
      assert lead == [lead[0]] + lead[1..];
      var c := FollowInsert(t, lead[0], rest, lead[1..], h);
      MethodLandsAt(c, lead[1..], last, h);
    }
  }

  /** A one-segment walk appends the method to the node it starts from. */
  lemma MethodLandsAtLeaf(t: NodeTree, last: string, h: Http)
    ensures MethodAt(ApiInsert(t, [last], h), [], MethodNode(last, h))
  {
    assert ApiInsert(t, [last], h).children == t.children + [MethodNode(last, h)];
  }

  /** Following `[seg] + tail` after the walk for `[seg] + rest` is
      following `tail` after the walk for `rest` in the child that
      `FindOrCreate` chose. */
  lemma FollowInsert(t: NodeTree, seg: string, rest: seq<string>, tail: seq<string>, h: Http) returns (c: NodeTree)
    requires |rest| >= 1
    ensures c == FindOrCreate(t, seg).0.children[FindOrCreate(t, seg).1]
    ensures Follow(ApiInsert(t, [seg] + rest, h), [seg] + tail) == Follow(ApiInsert(c, rest, h), tail)
  {
    var segs := [seg] + rest;
    assert segs[0] == seg && segs[1..] == rest;
    var (u, i) := FindOrCreate(t, seg);
    c := u.children[i];
    var r := ApiInsert(t, segs, h);
    assert r.children == u.children[i := ApiInsert(c, rest, h)];
    var names := Names(r.children);
    assert names[i] == seg;
    assert forall k :: 0 <= k < i ==> names[k] == u.children[k].name;
    assert IndexOfName(names, seg) == Some(i);
    var path := [seg] + tail;
    assert path[0] == seg && path[1..] == tail;
  }

  // ---------------------------------------------------------------------
  // Document roots

  lemma {:induction false} ApiInsertKeepsRoot(t: NodeTree, segs: seq<string>, h: Http)
    requires |segs| >= 1 && AllRooted(t, "")
    ensures AllRooted(ApiInsert(t, segs, h), "")
    decreases |segs|
  {
    if |segs| > 1 {
      var (u, i) := FindOrCreate(t, segs[0]);
      assert AllRooted(u, "");
      ApiInsertKeepsRoot(u.children[i], segs[1..], h);
    }
  }

  lemma {:induction false} FoldApiKeepsRoot(t: NodeTree, hs: seq<Http>)
    requires AllRooted(t, "")
    ensures AllRooted(FoldApi(t, hs), "")
    decreases |hs|
  {
    if |hs| > 0 {
      FoldApiKeepsRoot(t, hs[..|hs| - 1]);
      var h := hs[|hs| - 1];
      if |Segments(h.path)| != 0 {
        ApiInsertKeepsRoot(FoldApi(t, hs[..|hs| - 1]), Segments(h.path), h);
      }
    }
  }

  /** The root's two children after a successful parse: "Functions", whose
      nodes all carry the document's directory, then "API", on which
      `setDocumentRoot` is never called. */
  lemma OutlineShape(fs: seq<(string, Option<FuncDecl>)>, documentRoot: string)
    requires ServiceBuilds(fs)
    ensures var o := Outline(fs, documentRoot);
            && |o| == 2
            && o[0].name == "Functions" && o[0].kind == CONTAINER && |o[0].children| == |fs|
            && AllRooted(o[0], documentRoot) && Shape(o[0]) == Shape(FunctionsTree(fs))
            && o[1].name == "API" && o[1].kind == CONTAINER && AllRooted(o[1], "")
  {
    FunctionNodesAre(fs);
    WithRootRootsAll(FunctionsTree(fs), documentRoot);
    WithRootKeepsShape(FunctionsTree(fs), documentRoot);
    FoldApiKeepsRoot(EmptyApi, AllHttps(fs));
  }
}

/** The trees that the outline provider (src/lib/serverlessOutline.ts)
    builds from a parsed service, written as values: the "Functions"
    subtree, the "API" subtree with its find-or-create path walk, and the
    facts the provider's methods are proved against. */
module OutlineSpec {
  import opened Wrappers
  import opened Text
  import opened ServerlessNodes

  /** The parsed service: its `functions` mapping in declaration order. A
      `None` declaration is a key with a `null` value. */
  datatype Service = Service(functions: seq<(string, Option<FuncDecl>)>)

  const EmptyApi := NodeTree("API", CONTAINER, "", NoData, [])

  function MethodNode(name: string, h: Http): NodeTree
  {
    NodeTree(name, APIMETHOD, "", HttpData(h), [])
  }

  function PathNode(name: string): NodeTree
  {
    NodeTree(name, APIPATH, "", NoData, [])
  }

  function Names(ts: seq<NodeTree>): (ns: seq<string>)
    ensures |ns| == |ts| && forall i :: 0 <= i < |ts| ==> ns[i] == ts[i].name
  {
    seq(|ts|, i requires 0 <= i < |ts| => ts[i].name)
  }

  /** `_.find` by name: the position of the first element equal to `name`. */
  function IndexOfName(names: seq<string>, name: string): (r: Option<nat>)
    ensures r.Some? ==> r.value < |names| && names[r.value] == name
                        && forall k :: 0 <= k < r.value ==> names[k] != name
    ensures r.None? <==> name !in names
  {
    if |names| == 0 then None
    else if names[0] == name then Some(0)
    else match IndexOfName(names[1..], name)
      case None => None
      case Some(k) => Some(k + 1)
  }

  // ---------------------------------------------------------------------
  // The "Functions" subtree

  /** `_.filter(events, e => e.http)` never throws: no event is `null`. */
  predicate EventsReadable(events: seq<Event>)
  {
    forall i :: 0 <= i < |events| ==> events[i] != NullEvent
  }

  /** The `http` members of the events that have one, in order. */
  function Https(events: seq<Event>): (hs: seq<Http>)
    requires EventsReadable(events)
    ensures |hs| <= |events|
  {
    if |events| == 0 then []
    else
      var last := events[|events| - 1];
      Https(events[..|events| - 1]) + (if last.http.Some? then [last.http.value] else [])
  }

  /** Building the node of one declaration runs to the end: the
      declaration is not `null` and none of its events is. */
  predicate DeclBuilds(d: Option<FuncDecl>)
  {
    d.Some? && EventsReadable(d.value.events)
  }

  predicate ServiceBuilds(fs: seq<(string, Option<FuncDecl>)>)
  {
    forall i :: 0 <= i < |fs| ==> DeclBuilds(fs[i].1)
  }

  /** The APIMETHOD nodes of a function's "HTTP" container: one per event,
      named after its path. */
  function HttpMethodNodes(hs: seq<Http>): (ms: seq<NodeTree>)
    ensures |ms| == |hs|
    ensures forall k :: 0 <= k < |hs| ==> ms[k] == MethodNode(hs[k].path, hs[k])
  {
    seq(|hs|, k requires 0 <= k < |hs| => MethodNode(hs[k].path, hs[k]))
  }

  /** The nodes under a FUNCTION node: an "HTTP" container when the
      function has HTTP events, nothing otherwise. */
  function FunctionChildren(d: FuncDecl): seq<NodeTree>
    requires EventsReadable(d.events)
  {
    if |d.events| == 0 then []
    else
      var hs := Https(d.events);
      if |hs| == 0 then [] else [NodeTree("HTTP", CONTAINER, "", NoData, HttpMethodNodes(hs))]
  }

  /** A function's children depend only on its HTTP events. */
  lemma FunctionChildrenOfHttps(d: FuncDecl)
    requires EventsReadable(d.events)
    ensures var hs := Https(d.events);
            FunctionChildren(d) == if |hs| == 0 then [] else [NodeTree("HTTP", CONTAINER, "", NoData, HttpMethodNodes(hs))]
  {
  }

  function FunctionTree(name: string, d: FuncDecl): NodeTree
    requires EventsReadable(d.events)
  {
    NodeTree(name, FUNCTION, "", FuncData(d), FunctionChildren(d))
  }

  function FunctionNodes(fs: seq<(string, Option<FuncDecl>)>): (ns: seq<NodeTree>)
    requires ServiceBuilds(fs)
  {
    if |fs| == 0 then []
    else
      var last := fs[|fs| - 1];
      FunctionNodes(fs[..|fs| - 1]) + [FunctionTree(last.0, last.1.value)]
  }

  /** The "Functions" container before its document root is set. */
  function FunctionsTree(fs: seq<(string, Option<FuncDecl>)>): NodeTree
    requires ServiceBuilds(fs)
  {
    NodeTree("Functions", CONTAINER, "", NoData, FunctionNodes(fs))
  }

  /** Every HTTP event of every function, in declaration order. */
  function AllHttps(fs: seq<(string, Option<FuncDecl>)>): seq<Http>
    requires ServiceBuilds(fs)
  {
    if |fs| == 0 then []
    else
      var last := fs[|fs| - 1];
      AllHttps(fs[..|fs| - 1]) + Https(last.1.value.events)
  }

  // ---------------------------------------------------------------------
  // The "API" subtree

  /** One step of `addAPINode`'s walk: the first child of `t` named `seg`,
      whatever its kind, or else a new APIPATH appended for it. Gives the
      updated node and the position of the child to descend into. */
  function FindOrCreate(t: NodeTree, seg: string): (r: (NodeTree, nat))
    ensures r.1 < |r.0.children| && r.0.children[r.1].name == seg
    ensures forall k :: 0 <= k < r.1 ==> r.0.children[k].name != seg
    ensures r.0 == t || (r.0 == t.(children := t.children + [PathNode(seg)]) && r.1 == |t.children|)
  {
    match IndexOfName(Names(t.children), seg)
    case None => (t.(children := t.children + [PathNode(seg)]), |t.children|)
    case Some(i) => (t, i)
  }

  /** The walk of `addAPINode` below `t`: for every segment but the last,
      find or create the child to descend into; then append an APIMETHOD
      named after the last segment. */
  function ApiInsert(t: NodeTree, segs: seq<string>, h: Http): (r: NodeTree)
    requires |segs| >= 1
    ensures r.name == t.name && r.kind == t.kind && r.documentRoot == t.documentRoot && r.data == t.data
    decreases |segs|
  {
    if |segs| == 1 then t.(children := t.children + [MethodNode(segs[0], h)])
    else
      var (u, i) := FindOrCreate(t, segs[0]);
      u.(children := u.children[i := ApiInsert(u.children[i], segs[1..], h)])
  }

  /** `addAPINode(apiRoot, node)` for a node carrying `h`. */
  function AddApiNode(t: NodeTree, h: Http): (r: NodeTree)
    ensures r.name == t.name && r.kind == t.kind && r.documentRoot == t.documentRoot && r.data == t.data
  {
    var segs := Segments(h.path);
    if |segs| == 0 then t else ApiInsert(t, segs, h)
  }

  function FoldApi(t: NodeTree, hs: seq<Http>): (r: NodeTree)
    ensures r.name == t.name && r.kind == t.kind && r.documentRoot == t.documentRoot && r.data == t.data
  {
    if |hs| == 0 then t else AddApiNode(FoldApi(t, hs[..|hs| - 1]), hs[|hs| - 1])
  }

  function ApiTree(fs: seq<(string, Option<FuncDecl>)>): NodeTree
    requires ServiceBuilds(fs)
  {
    FoldApi(EmptyApi, AllHttps(fs))
  }

  /** The two children of the root after a successful parse. */
  function Outline(fs: seq<(string, Option<FuncDecl>)>, documentRoot: string): seq<NodeTree>
    requires ServiceBuilds(fs)
  {
    [WithRoot(FunctionsTree(fs), documentRoot), ApiTree(fs)]
  }

  /** Adding the events of `a` and then those of `b` is adding `a + b`. */
  lemma {:induction false} FoldApiConcat(t: NodeTree, a: seq<Http>, b: seq<Http>)
    ensures FoldApi(t, a + b) == FoldApi(FoldApi(t, a), b)
    decreases |b|
  {
    if |b| == 0 {
      assert a + b == a;
    } else {
      FoldApiConcat(t, a, b[..|b| - 1]);
      assert (a + b)[..|a + b| - 1] == a + b[..|b| - 1];
    }
  }

  /** One more declaration grows both containers by that declaration. */
  lemma ContainersStep(fs: seq<(string, Option<FuncDecl>)>, i: nat)
    requires i < |fs| && ServiceBuilds(fs[..i]) && DeclBuilds(fs[i].1)
    ensures ServiceBuilds(fs[..i + 1])
    ensures FunctionsTree(fs[..i + 1]) == FunctionsTree(fs[..i]).(children := FunctionsTree(fs[..i]).children
                                            + [FunctionTree(fs[i].0, fs[i].1.value)])
    ensures ApiTree(fs[..i + 1]) == FoldApi(ApiTree(fs[..i]), Https(fs[i].1.value.events))
  {
    assert fs[..i + 1][..i] == fs[..i];
    FoldApiConcat(EmptyApi, AllHttps(fs[..i]), Https(fs[i].1.value.events));
  }

  /** One more HTTP event grows a function's "HTTP" container by its
      APIMETHOD node and the API tree by its walk. */
  lemma HttpContainerStep(t: NodeTree, hs: seq<Http>, j: nat)
    requires j < |hs|
    ensures FoldApi(t, hs[..j + 1]) == AddApiNode(FoldApi(t, hs[..j]), hs[j])
    ensures HttpMethodNodes(hs[..j + 1]) == HttpMethodNodes(hs[..j]) + [MethodNode(hs[j].path, hs[j])]
  {
    assert hs[..j + 1][..j] == hs[..j];
  }
}

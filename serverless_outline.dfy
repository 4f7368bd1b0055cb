/** The outline tree provider (src/lib/serverlessOutline.ts): owns the root
    node, rebuilds it in place from the active editor's parsed document and
    maps nodes to their presentation. */
module ServerlessOutline {
  import opened Wrappers
  import opened Text
  import Paths
  import opened ServerlessNodes
  import opened OutlineSpec

  /** What the provider reads from `window.activeTextEditor`: the
      document's file name and the outcome of `yaml.safeLoad` on its text.
      `loaded` is `None` when the load throws or the document is `null` or
      empty, since reading `service.functions` then throws. Any other
      document, a scalar or an array included, has no `functions` object
      to visit and is `Some(Service([]))`. */
  datatype ActiveEditor = ActiveEditor(fileName: string, loaded: Option<Service>)

  /** The condition under which `parseYaml` touches the tree. */
  predicate IsServerlessFile(editor: Option<ActiveEditor>)
  {
    editor.Some? && editor.value.fileName != "" && EndsWith(editor.value.fileName, "serverless.yml")
  }

  /** The root's value after `parseYaml` ran with `editor` active. */
  function AfterParse(root: NodeTree, editor: Option<ActiveEditor>): NodeTree
  {
    if !IsServerlessFile(editor) then root
    else
      var e := editor.value;
      if e.loaded.Some? && ServiceBuilds(e.loaded.value.functions)
      then root.(children := Outline(e.loaded.value.functions, Paths.Dirname(e.fileName)))
      else root.(children := [])
  }

  datatype CollapsibleState = None | Collapsed | Expanded

  /** The fields of the `TreeItem` that `getTreeItem` fills in. */
  datatype TreeItem = TreeItem(labelText: string, contextValue: string,
                               collapsibleState: CollapsibleState, iconPath: Option<string>)

  /** The `method` of an APIMETHOD node's `data` (`undefined`, read as the
      empty string by `_.toLower`, for any other payload). */
  function MethodOf(data: Payload): (m: string)
    ensures data.HttpData? ==> m == data.http.httpMethod
    ensures !data.HttpData? ==> m == ""
  {
    if data.HttpData? then data.http.httpMethod else ""
  }

  function ChildNames(cs: seq<ServerlessNode>): (ns: seq<string>)
    ensures |ns| == |cs| && forall i :: 0 <= i < |cs| ==> ns[i] == cs[i].name
  {
    seq(|cs|, i requires 0 <= i < |cs| => cs[i].name)
  }

  /** The callback of `addAPINode`'s `_.reduce`: the first child of `node`
      named `seg`, or a new APIPATH pushed onto its children. */
  method FindOrCreate(node: ServerlessNode, seg: string) returns (next: ServerlessNode, i: nat)
    requires node.Valid()
    modifies node
    ensures node.Valid() && old(node.Repr) <= node.Repr && fresh(node.Repr - old(node.Repr))
    ensures (node.Tree(), i) == OutlineSpec.FindOrCreate(old(node.Tree()), seg)
    ensures i < |node.children| && next == node.children[i]
  {
    ghost var before := node.Tree();
    assert Names(before.children) == ChildNames(node.children) by {
      forall k | 0 <= k < |node.children| ensures before.children[k].name == node.children[k].name {
        node.TreeChild(k);
      }
    }
    var found := IndexOfName(ChildNames(node.children), seg);
    if found.None? {
      next := new ServerlessNode(seg, APIPATH, NoData);
      node.AddChild(next);
      i := |node.children| - 1;
    } else {
      i := found.value;
      next := node.children[i];
    }
  }

  /** `addAPINode`'s walk below `node`, one segment per call. */
  method InsertApiPath(node: ServerlessNode, segs: seq<string>, h: Http)
    requires node.Valid() && |segs| >= 1
    modifies node.Repr
    decreases |segs|, 2
    ensures node.Valid() && old(node.Repr) <= node.Repr && fresh(node.Repr - old(node.Repr))
    ensures node.Tree() == ApiInsert(old(node.Tree()), segs, h)
  {
    if |segs| == 1 {
      var leaf := new ServerlessNode(segs[0], APIMETHOD, HttpData(h));
      node.AddChild(leaf);
    } else {
      var next, i := FindOrCreate(node, segs[0]);
      DescendInto(node, i, segs[1..], h);
    }
  }

  /** Continues the walk in the `i`th child of `node`, then takes the
      child's new nodes into `node`'s footprint. */
  method DescendInto(node: ServerlessNode, i: nat, rest: seq<string>, h: Http)
    requires node.Valid() && i < |node.children| && |rest| >= 1
    modifies node.Repr
    decreases |rest| + 1, 1
    ensures node.Valid() && old(node.Repr) <= node.Repr && fresh(node.Repr - old(node.Repr))
    ensures node.Tree() == old(node.Tree()).(children := old(node.Tree()).children[i := ApiInsert(old(node.Tree()).children[i], rest, h)])
  {
    ghost var mid := node.Tree();
    forall k | 0 <= k < |node.children| ensures mid.children[k] == node.children[k].Tree() {
      node.TreeChild(k);
    }
    InsertInChild(node, i, rest, h);
    node.AbsorbChild(i);
    node.TreeFromChildren(mid.children[i := ApiInsert(mid.children[i], rest, h)]);
  }

  /** The walk inside the `i`th child of `node`, which leaves the other
      children as they were. */
  method InsertInChild(node: ServerlessNode, i: nat, rest: seq<string>, h: Http)
    requires node.Valid() && i < |node.children| && |rest| >= 1
    modifies node.children[i].Repr
    decreases |rest| + 1, 0
    ensures node.children[i].Valid() && old(node.children[i].Repr) <= node.children[i].Repr
    ensures fresh(node.children[i].Repr - old(node.children[i].Repr))
    ensures node.children[i].Tree() == ApiInsert(old(node.children[i].Tree()), rest, h)
    ensures forall k :: 0 <= k < |node.children| && k != i ==>
              node.children[k].Valid() && node.children[k].Repr == old(node.children[k].Repr)
              && node.children[k].Tree() == old(node.children[k].Tree())
              && node.children[k].Repr !! node.children[i].Repr
    ensures node !in node.children[i].Repr
  {
    InsertApiPath(node.children[i], rest, h);
  }

  /** `addAPINode(apiRoot, httpNode)`. */
  method AddApiNode(apiRoot: ServerlessNode, httpNode: ServerlessNode)
    requires apiRoot.Valid() && httpNode.data.HttpData?
    modifies apiRoot.Repr
    ensures apiRoot.Valid() && old(apiRoot.Repr) <= apiRoot.Repr && fresh(apiRoot.Repr - old(apiRoot.Repr))
    ensures apiRoot.Tree() == OutlineSpec.AddApiNode(old(apiRoot.Tree()), httpNode.data.http)
  {
    var http := httpNode.data.http;
    var httpPath := Segments(http.path);
    if |httpPath| != 0 {
      InsertApiPath(apiRoot, httpPath, http);
    }
  }

  /** One step of the `https` loop: a new APIMETHOD node for `http`, pushed
      onto the function's "HTTP" container and added to the API tree. */
  method AddHttpMethod(apiRoot: ServerlessNode, httpNode: ServerlessNode, http: Http)
    requires apiRoot.Valid() && httpNode.Valid() && httpNode.Repr !! apiRoot.Repr
    modifies apiRoot.Repr, httpNode
    ensures apiRoot.Valid() && old(apiRoot.Repr) <= apiRoot.Repr && fresh(apiRoot.Repr - old(apiRoot.Repr))
    ensures apiRoot.Tree() == OutlineSpec.AddApiNode(old(apiRoot.Tree()), http)
    ensures httpNode.Valid() && httpNode.Repr !! apiRoot.Repr
    ensures old(httpNode.Repr) <= httpNode.Repr && fresh(httpNode.Repr - old(httpNode.Repr))
    ensures httpNode.Tree() == old(httpNode.Tree()).(children := old(httpNode.Tree()).children + [MethodNode(http.path, http)])
  {
    var httpMethodNode := new ServerlessNode(http.path, APIMETHOD, HttpData(http));
    httpNode.AddChild(httpMethodNode);
    AddApiNode(apiRoot, httpMethodNode);
  }

  /** The "HTTP" container of a function whose HTTP events are `hs`, built
      while each event is added to the API tree, in declaration order. */
  method BuildHttpContainer(apiRoot: ServerlessNode, hs: seq<Http>) returns (httpNode: ServerlessNode)
    requires apiRoot.Valid()
    modifies apiRoot.Repr
    ensures apiRoot.Valid() && old(apiRoot.Repr) <= apiRoot.Repr && fresh(apiRoot.Repr - old(apiRoot.Repr))
    ensures apiRoot.Tree() == FoldApi(old(apiRoot.Tree()), hs)
    ensures httpNode.Valid() && fresh(httpNode.Repr) && httpNode.Repr !! apiRoot.Repr
    ensures httpNode.Tree() == NodeTree("HTTP", CONTAINER, "", NoData, HttpMethodNodes(hs))
  {
    httpNode := new ServerlessNode("HTTP", CONTAINER, NoData);
    var j := 0;
    while j < |hs|
      invariant 0 <= j <= |hs|
      invariant httpNode.Valid() && fresh(httpNode.Repr) && httpNode.Repr !! apiRoot.Repr
      invariant httpNode.Tree() == NodeTree("HTTP", CONTAINER, "", NoData, HttpMethodNodes(hs[..j]))
      invariant apiRoot.Valid() && old(apiRoot.Repr) <= apiRoot.Repr && fresh(apiRoot.Repr - old(apiRoot.Repr))
      invariant apiRoot.Tree() == FoldApi(old(apiRoot.Tree()), hs[..j])
    {
      AddHttpMethod(apiRoot, httpNode, hs[j]);
      HttpContainerStep(old(apiRoot.Tree()), hs, j);
      j := j + 1;
    }
    assert hs[..j] == hs;
  }

  /** `functionNode.children.push(httpNode)` once the "HTTP" container of
      the events `hs` is built. */
  method AttachHttpContainer(apiRoot: ServerlessNode, functionNode: ServerlessNode, hs: seq<Http>)
    requires apiRoot.Valid() && functionNode.Valid() && functionNode.Repr !! apiRoot.Repr
    modifies apiRoot.Repr, functionNode
    ensures apiRoot.Valid() && old(apiRoot.Repr) <= apiRoot.Repr && fresh(apiRoot.Repr - old(apiRoot.Repr))
    ensures apiRoot.Tree() == FoldApi(old(apiRoot.Tree()), hs)
    ensures functionNode.Valid() && functionNode.Repr !! apiRoot.Repr
    ensures old(functionNode.Repr) <= functionNode.Repr && fresh(functionNode.Repr - old(functionNode.Repr))
    ensures functionNode.Tree() == old(functionNode.Tree()).(children := old(functionNode.Tree()).children
                                     + [NodeTree("HTTP", CONTAINER, "", NoData, HttpMethodNodes(hs))])
  {
    var httpNode := BuildHttpContainer(apiRoot, hs);
    functionNode.AddChild(httpNode);
  }

  /** The FUNCTION node of a declaration that reads without throwing. */
  method BuildFunctionNode(apiRoot: ServerlessNode, funcName: string, decl: FuncDecl)
    returns (functionNode: ServerlessNode)
    requires apiRoot.Valid() && EventsReadable(decl.events)
    modifies apiRoot.Repr
    ensures apiRoot.Valid() && old(apiRoot.Repr) <= apiRoot.Repr && fresh(apiRoot.Repr - old(apiRoot.Repr))
    ensures functionNode.Valid() && fresh(functionNode.Repr) && functionNode.Repr !! apiRoot.Repr
    ensures functionNode.Tree() == FunctionTree(funcName, decl)
    ensures apiRoot.Tree() == FoldApi(old(apiRoot.Tree()), Https(decl.events))
  {
    functionNode := new ServerlessNode(funcName, FUNCTION, FuncData(decl));
    FunctionChildrenOfHttps(decl);
    if |decl.events| != 0 {
      var httpEvents := Https(decl.events);
      if |httpEvents| != 0 {
        AttachHttpContainer(apiRoot, functionNode, httpEvents);
        return;
      }
    }
    assert Https(decl.events) == [];
  }

  /** The `forOwn` callback of `parseService` for one `(funcName, func)`
      entry: builds the FUNCTION node with its "HTTP" container and adds
      every HTTP event to the API tree. `ok` is false when reading the
      declaration throws (a `null` declaration, or a `null` event met by
      `_.filter`), before anything is added to the API tree. */
  method ParseFunction(apiRoot: ServerlessNode, funcName: string, func: Option<FuncDecl>)
    returns (ok: bool, functionNode: ServerlessNode)
    requires apiRoot.Valid()
    modifies apiRoot.Repr
    ensures apiRoot.Valid() && old(apiRoot.Repr) <= apiRoot.Repr && fresh(apiRoot.Repr - old(apiRoot.Repr))
    ensures ok <==> DeclBuilds(func)
    ensures ok ==> && functionNode.Valid() && fresh(functionNode.Repr) && functionNode.Repr !! apiRoot.Repr
                   && functionNode.Tree() == FunctionTree(funcName, func.value)
                   && apiRoot.Tree() == FoldApi(old(apiRoot.Tree()), Https(func.value.events))
    ensures !ok ==> apiRoot.Tree() == old(apiRoot.Tree())
  {
    if !DeclBuilds(func) {
      functionNode := new ServerlessNode(funcName, FUNCTION, if func.Some? then FuncData(func.value) else NoData);
      return false, functionNode;
    }
    functionNode := BuildFunctionNode(apiRoot, funcName, func.value);
    ok := true;
  }

  /** One `forOwn` step of `parseService`: the function's node is pushed
      onto the "Functions" container when it builds. */
  method AddFunction(apiRoot: ServerlessNode, functionRoot: ServerlessNode, funcName: string, func: Option<FuncDecl>)
    returns (ok: bool)
    requires apiRoot.Valid() && functionRoot.Valid() && apiRoot.Repr !! functionRoot.Repr
    modifies apiRoot.Repr, functionRoot
    ensures apiRoot.Valid() && old(apiRoot.Repr) <= apiRoot.Repr && fresh(apiRoot.Repr - old(apiRoot.Repr))
    ensures functionRoot.Valid() && apiRoot.Repr !! functionRoot.Repr
    ensures old(functionRoot.Repr) <= functionRoot.Repr && fresh(functionRoot.Repr - old(functionRoot.Repr))
    ensures ok <==> DeclBuilds(func)
    ensures ok ==> && functionRoot.Tree() == old(functionRoot.Tree()).(children := old(functionRoot.Tree()).children + [FunctionTree(funcName, func.value)])
                   && apiRoot.Tree() == FoldApi(old(apiRoot.Tree()), Https(func.value.events))
  {
    var functionNode;
    ok, functionNode := ParseFunction(apiRoot, funcName, func);
    if ok {
      functionRoot.AddChild(functionNode);
    }
  }

  class ServerlessOutlineProvider {
    /** The "Service" root; its `children` are replaced on every parse. */
    const nodes: ServerlessNode
    /** How many times `onDidChangeTreeData` has fired. */
    var changeEvents: nat

    ghost predicate Valid()
      reads this, nodes, nodes.Repr
    {
      nodes.Valid() && nodes.kind == ROOT && nodes.name == "Service"
    }

    /** The constructor: a fresh "Service" root, then a first `parseYaml`. */
    constructor (editor: Option<ActiveEditor>)
      ensures Valid() && fresh(nodes) && changeEvents == 0
      ensures nodes.Tree() == AfterParse(NodeTree("Service", ROOT, "", NoData, []), editor)
    {
      nodes := new ServerlessNode("Service", ROOT, NoData);
      changeEvents := 0;
      new;
      ParseYaml(editor);
    }

    /** `getChildren(element?)`: the root's children when no element is
        given, else the element's own children. */
    function GetChildren(element: Option<ServerlessNode>): (r: seq<ServerlessNode>)
      requires Valid() && (element.Some? ==> element.value.Valid())
      reads this, nodes, nodes.Repr, if element.Some? then {element.value} + element.value.Repr else {}
      ensures var t := if element.Some? then element.value.Tree() else nodes.Tree();
              |r| == |t.children| && forall k :: 0 <= k < |r| ==> r[k].Valid() && r[k].Tree() == t.children[k]
    {
      var n := if element.None? then nodes else element.value;
      assert forall k :: 0 <= k < |n.children| ==> n.Tree().children[k] == n.children[k].Tree() by {
        forall k | 0 <= k < |n.children| ensures n.Tree().children[k] == n.children[k].Tree() {
          n.TreeChild(k);
        }
      }
      n.children
    }

    /** `getTreeItem(element)`: label, context value, expand state and,
        for API methods with data, the icon of their HTTP method. */
    function GetTreeItem(element: ServerlessNode, asAbsolutePath: string -> string): (item: TreeItem)
      requires element.Valid()
      reads element, element.Repr
      ensures item.labelText == element.name && item.contextValue == KindName(element.kind)
      ensures item.collapsibleState == CollapsibleState.None <==> element.Tree().children == []
      ensures item.collapsibleState == Expanded <==> element.Tree().children != [] && element.kind == ROOT
      ensures item.iconPath.Some? <==> element.kind == APIMETHOD && element.data != NoData
      ensures item.iconPath.Some? ==>
                item.iconPath.value == asAbsolutePath("images/" + ToLower(MethodOf(element.data)) + ".svg")
    {
      var state := if element.HasChildren() then (if element.kind != ROOT then Collapsed else Expanded) else CollapsibleState.None;
      var icon := if element.kind == APIMETHOD && element.data != NoData
                  then Some(asAbsolutePath("images/" + ToLower(MethodOf(element.data)) + ".svg"))
                  else Wrappers.None;
      TreeItem(element.name, KindName(element.kind), state, icon)
    }

    /** `refresh()`: re-parse, then fire the change event for the whole tree. */
    method Refresh(editor: Option<ActiveEditor>)
      requires Valid()
      modifies this, nodes
      ensures Valid() && changeEvents == old(changeEvents) + 1
      ensures nodes.Tree() == AfterParse(old(nodes.Tree()), editor)
    {
      ParseYaml(editor);
      changeEvents := changeEvents + 1;
    }

    /** `parseYaml()`: only for an active `serverless.yml` document, clears
        the root's children, then rebuilds them unless loading or reading the
        service throws. */
    method ParseYaml(editor: Option<ActiveEditor>)
      requires Valid()
      modifies nodes
      ensures Valid() && nodes.Tree() == AfterParse(old(nodes.Tree()), editor)
    {
      if IsServerlessFile(editor) {
        nodes.children := [];
        nodes.Repr := {nodes};
        var document := editor.value;
        if document.loaded.Some? {
          var _ := ParseService(document.loaded.value, document.fileName);
        }
      }
    }

    /** `parseService(service, document)`: builds the "Functions" and "API"
        containers and pushes them onto the root, unless a declaration
        throws on the way, in which case the root is left as it was. */
    method ParseService(service: Service, fileName: string) returns (ok: bool)
      requires Valid()
      modifies nodes
      ensures Valid()
      ensures ok <==> ServiceBuilds(service.functions)
      ensures ok ==> nodes.Tree() == old(nodes.Tree()).(children := old(nodes.Tree()).children
                                       + Outline(service.functions, Paths.Dirname(fileName)))
      ensures !ok ==> nodes.Tree() == old(nodes.Tree())
    {
      var documentRoot := Paths.Dirname(fileName);
      var functionRootNode, apiRootNode;
      ok, functionRootNode, apiRootNode := BuildContainers(service.functions);
      if !ok {
        return;
      }
      functionRootNode.SetDocumentRoot(documentRoot);
      PushContainers(nodes, functionRootNode, apiRootNode);
    }
  }

  /** `this.nodes.children.push(functionRootNode)` and then
      `push(apiRootNode)`, for containers that share no node with the root. */
  method PushContainers(root: ServerlessNode, functionRoot: ServerlessNode, apiRoot: ServerlessNode)
    requires root.Valid() && functionRoot.Valid() && apiRoot.Valid()
    requires root.Repr !! functionRoot.Repr && root.Repr !! apiRoot.Repr && functionRoot.Repr !! apiRoot.Repr
    modifies root
    ensures root.Valid() && root.Repr == old(root.Repr) + functionRoot.Repr + apiRoot.Repr
    ensures root.Tree() == old(root.Tree()).(children := old(root.Tree()).children + [functionRoot.Tree(), apiRoot.Tree()])
  {
    ghost var before := root.Tree();
    root.AddChild(functionRoot);
    root.AddChild(apiRoot);
    assert root.Tree().children == before.children + [functionRoot.Tree(), apiRoot.Tree()];
  }

  /** The `forOwn` loop of `parseService`: the "Functions" and "API"
      containers of `fs`, built on fresh nodes; `ok` is false when some
      declaration throws. */
  method BuildContainers(fs: seq<(string, Option<FuncDecl>)>)
    returns (ok: bool, functionRoot: ServerlessNode, apiRoot: ServerlessNode)
    ensures apiRoot.Valid() && fresh(apiRoot.Repr)
    ensures functionRoot.Valid() && fresh(functionRoot.Repr)
    ensures apiRoot.Repr !! functionRoot.Repr
    ensures ok <==> ServiceBuilds(fs)
    ensures ok ==> functionRoot.Tree() == FunctionsTree(fs) && apiRoot.Tree() == ApiTree(fs)
  {
    apiRoot := new ServerlessNode("API", CONTAINER, NoData);
    functionRoot := new ServerlessNode("Functions", CONTAINER, NoData);
    var i := 0;
    while i < |fs|
      invariant 0 <= i <= |fs|
      invariant fresh(apiRoot.Repr) && fresh(functionRoot.Repr)
      invariant Containers(fs[..i], functionRoot, apiRoot)
    {
      var built := AddEntry(apiRoot, functionRoot, fs, i);
      if !built {
        return false, functionRoot, apiRoot;
      }
      i := i + 1;
    }
    assert fs[..i] == fs;
    ok := true;
  }

  /** Two disjoint valid containers holding the nodes of the declarations
      `fs`, all of which build. */
  ghost predicate Containers(fs: seq<(string, Option<FuncDecl>)>, functionRoot: ServerlessNode, apiRoot: ServerlessNode)
    reads functionRoot, functionRoot.Repr, apiRoot, apiRoot.Repr
  {
    && apiRoot.Valid() && functionRoot.Valid() && apiRoot.Repr !! functionRoot.Repr
    && ServiceBuilds(fs) && functionRoot.Tree() == FunctionsTree(fs) && apiRoot.Tree() == ApiTree(fs)
  }

  /** The `i`th turn of the `forOwn` loop, stated against the containers
      of the first `i` entries. */
  method AddEntry(apiRoot: ServerlessNode, functionRoot: ServerlessNode, fs: seq<(string, Option<FuncDecl>)>, i: nat)
    returns (built: bool)
    requires i < |fs| && Containers(fs[..i], functionRoot, apiRoot)
    modifies apiRoot.Repr, functionRoot
    ensures old(apiRoot.Repr) <= apiRoot.Repr && fresh(apiRoot.Repr - old(apiRoot.Repr))
    ensures old(functionRoot.Repr) <= functionRoot.Repr && fresh(functionRoot.Repr - old(functionRoot.Repr))
    ensures built <==> DeclBuilds(fs[i].1)
    ensures built ==> Containers(fs[..i + 1], functionRoot, apiRoot)
    ensures !built ==> apiRoot.Valid() && functionRoot.Valid() && apiRoot.Repr !! functionRoot.Repr
  {
    var (funcName, func) := fs[i];
    built := AddFunction(apiRoot, functionRoot, funcName, func);
    if built {
      ContainersStep(fs, i);
    }
  }
}

/** The navigation tree node of the outline (src/lib/ServerlessNode.ts):
    a mutable object whose `children` and `documentRoot` change in place,
    together with `NodeTree`, the value a valid node denotes. */
module ServerlessNodes {
  import opened Wrappers

  datatype NodeKind = ROOT | CONTAINER | FUNCTION | APIPATH | APIMETHOD

  /** The string value of each `NodeKind` enum member. */
  function KindName(k: NodeKind): string
  {
    match k
    case ROOT => "root"
    case CONTAINER => "container"
    case FUNCTION => "function"
    case APIPATH => "apipath"
    case APIMETHOD => "apimethod"
  }

  /** No two members share a string value, so the value names the kind. */
  lemma KindNamesDistinct(a: NodeKind, b: NodeKind)
    ensures KindName(a) == KindName(b) <==> a == b
  {
  }

  /** `http: { path, method }` of a function event. */
  datatype Http = Http(path: string, httpMethod: string)

  /** One entry of a function's `events` list: `null`, or an object whose
      `http` member may be absent. */
  datatype Event = NullEvent | Event(http: Option<Http>)

  /** A function declaration: its `handler` and its `events` (an absent
      `events` key is the empty list). */
  datatype FuncDecl = FuncDecl(handler: Option<string>, events: seq<Event>)

  /** The `data` a node carries: nothing, a function declaration (FUNCTION
      nodes) or an `http` declaration (APIMETHOD nodes). */
  datatype Payload = NoData | FuncData(decl: FuncDecl) | HttpData(http: Http)

  /** The value of a node and, recursively, of its subtree. */
  datatype NodeTree = NodeTree(name: string, kind: NodeKind, documentRoot: string,
                               data: Payload, children: seq<NodeTree>)

  /** The tree `setDocumentRoot(root)` leaves behind: every node's
      `documentRoot` replaced by `root`, everything else as it was. */
  function WithRoot(t: NodeTree, root: string): NodeTree
    decreases t
  {
    NodeTree(t.name, t.kind, root, t.data,
             seq(|t.children|, i requires 0 <= i < |t.children| => WithRoot(t.children[i], root)))
  }

  /** Every node of `t`, at any depth, has `documentRoot == root`. */
  predicate AllRooted(t: NodeTree, root: string)
    decreases t
  {
    t.documentRoot == root && forall i :: 0 <= i < |t.children| ==> AllRooted(t.children[i], root)
  }

  /** The tree with every `documentRoot` erased: its names, kinds, data and
      the order of its children. */
  function Shape(t: NodeTree): NodeTree
    decreases t
  {
    NodeTree(t.name, t.kind, "", t.data,
             seq(|t.children|, i requires 0 <= i < |t.children| => Shape(t.children[i])))
  }

  /** After `setDocumentRoot(root)` every node of the subtree carries `root`. */
  lemma {:induction false} WithRootRootsAll(t: NodeTree, root: string)
    ensures AllRooted(WithRoot(t, root), root)
    decreases t
  {
    var w := WithRoot(t, root);
    forall i | 0 <= i < |w.children|
      ensures AllRooted(w.children[i], root)
    {
      WithRootRootsAll(t.children[i], root);
    }
  }

  /** `setDocumentRoot` changes no name, kind, data or child order. */
  lemma {:induction false} WithRootKeepsShape(t: NodeTree, root: string)
    ensures Shape(WithRoot(t, root)) == Shape(t)
    decreases t
  {
    var w := WithRoot(t, root);
    forall i | 0 <= i < |t.children|
      ensures Shape(w.children[i]) == Shape(t.children[i])
    {
      WithRootKeepsShape(t.children[i], root);
    }
    assert Shape(w).children == Shape(t).children;
  }

  /** A tree whose every node already carries `root` is left as it is. */
  lemma {:induction false} WithRootOfRooted(t: NodeTree, root: string)
    requires AllRooted(t, root)
    ensures WithRoot(t, root) == t
    decreases t
  {
    var w := WithRoot(t, root);
    forall i | 0 <= i < |t.children|
      ensures w.children[i] == t.children[i]
    {
      WithRootOfRooted(t.children[i], root);
    }
    assert w.children == t.children;
  }

  /** Setting the same document root twice is the same as setting it once. */
  lemma WithRootIdempotent(t: NodeTree, root: string)
    ensures WithRoot(WithRoot(t, root), root) == WithRoot(t, root)
  {
    WithRootRootsAll(t, root);
    WithRootOfRooted(WithRoot(t, root), root);
  }

  /** The last of two `setDocumentRoot` calls decides the result. */
  lemma {:induction false} WithRootLastWins(t: NodeTree, r1: string, r2: string)
    ensures WithRoot(WithRoot(t, r1), r2) == WithRoot(t, r2)
    decreases t
  {
    var a, b := WithRoot(WithRoot(t, r1), r2), WithRoot(t, r2);
    forall i | 0 <= i < |t.children|
      ensures a.children[i] == b.children[i]
    {
      WithRootLastWins(t.children[i], r1, r2);
    }
    assert a.children == b.children;
  }

  /** A VS Code `Command` bound to a node; no node kind has one. */
  datatype Command = Command(title: string, command: string)

  class ServerlessNode {
    var children: seq<ServerlessNode>
    const name: string
    const kind: NodeKind
    var documentRoot: string
    const data: Payload

    /** The nodes of this subtree. */
    ghost var Repr: set<ServerlessNode>

    /** This node heads a finite tree: every child is valid, lies inside the
        footprint, does not reach back to this node, and the subtrees of
        distinct children share no node. */
    ghost predicate Valid()
      reads this, Repr
      decreases Repr
    {
      && this in Repr
      && (forall i :: 0 <= i < |children| ==>
            && children[i] in Repr
            && children[i].Repr <= Repr
            && this !in children[i].Repr
            && children[i].Valid())
      && (forall i, j :: 0 <= i < j < |children| ==> children[i].Repr !! children[j].Repr)
    }

    /** The value of the subtree headed by this node. */
    ghost function Tree(): (t: NodeTree)
      requires Valid()
      reads this, Repr
      decreases Repr
      ensures t.name == name && t.kind == kind && t.documentRoot == documentRoot && t.data == data
      ensures |t.children| == |children|
    {
      NodeTree(name, kind, documentRoot, data,
               seq(|children|, i reads this, Repr requires 0 <= i < |children| && Valid() => children[i].Tree()))
    }

    lemma TreeChild(i: int)
      requires Valid() && 0 <= i < |children|
      ensures Tree().children[i] == children[i].Tree()
    {
    }

    /** The value of a valid node is determined by its own fields and the
        values of its children. */
    lemma TreeFromChildren(ts: seq<NodeTree>)
      requires Valid() && |ts| == |children|
      requires forall k :: 0 <= k < |children| ==> children[k].Tree() == ts[k]
      ensures Tree() == NodeTree(name, kind, documentRoot, data, ts)
    {
      forall k | 0 <= k < |children| ensures Tree().children[k] == ts[k] {
        TreeChild(k);
      }
    }

    constructor (name: string, kind: NodeKind, data: Payload)
      ensures Valid() && fresh(Repr) && Repr == {this}
      ensures this.name == name && this.kind == kind && this.data == data
      ensures children == [] && documentRoot == ""
      ensures Tree() == NodeTree(name, kind, "", data, [])
    {
      children := [];
      this.name := name;
      this.kind := kind;
      documentRoot := "";
      this.data := data;
      Repr := {this};
    }

    /** The `hasChildren` getter. */
    function HasChildren(): (b: bool)
      requires Valid()
      reads this, Repr
      ensures b <==> Tree().children != []
    {
      |children| != 0
    }

    /** `getCommand`: its `switch` has no case, so every node answers null. */
    function GetCommand(): (c: Option<Command>)
      ensures c.None?
    {
      None
    }

    /** `children.push(child)`, for a child that shares no node with this tree. */
    method AddChild(child: ServerlessNode)
      requires Valid() && child.Valid() && Repr !! child.Repr
      modifies this
      ensures Valid() && Repr == old(Repr) + child.Repr
      ensures children == old(children) + [child] && documentRoot == old(documentRoot)
      ensures Tree() == old(Tree()).(children := old(Tree()).children + [child.Tree()])
    {
      ghost var before := Tree();
      children := children + [child];
      Repr := Repr + child.Repr;
      assert Valid();
      assert Tree().children == before.children + [child.Tree()] by {
        forall i | 0 <= i < |children| - 1
          ensures Tree().children[i] == before.children[i]
        {
          TreeChild(i);
        }
        TreeChild(|children| - 1);
      }
    }

    /** Takes the nodes the `i`th child's subtree gained into this node's
        footprint, once that subtree changed in place. */
    method AbsorbChild(i: nat)
      requires this in Repr && i < |children|
      requires forall k :: 0 <= k < |children| ==> children[k] in Repr && children[k].Valid() && this !in children[k].Repr
      requires forall k :: 0 <= k < |children| && k != i ==> children[k].Repr <= Repr
      requires forall j, k :: 0 <= j < k < |children| ==> children[j].Repr !! children[k].Repr
      modifies this
      ensures children == old(children) && documentRoot == old(documentRoot)
      ensures Valid() && Repr == old(Repr) + children[i].Repr
      ensures forall k :: 0 <= k < |children| ==> children[k].Tree() == old(children[k].Tree())
    {
      Repr := Repr + children[i].Repr;
    }

    /** `setDocumentRoot(root)`: writes `root` into this node and, depth
        first, into every descendant, without touching anything else. */
    method SetDocumentRoot(root: string)
      requires Valid()
      modifies Repr
      decreases Repr, 1
      ensures Valid() && Repr == old(Repr) && children == old(children)
      ensures Tree() == WithRoot(old(Tree()), root)
    {
      ghost var before := Tree();
      ghost var trees := before.children;
      documentRoot := root;
      var i := 0;
      while i < |children|
        invariant 0 <= i <= |children|
        invariant children == old(children) && Repr == old(Repr) && documentRoot == root
        invariant forall j, k :: 0 <= j < k < |children| ==> children[j].Repr !! children[k].Repr
        invariant forall k :: 0 <= k < |children| ==>
                    && children[k].Repr == old(children[k].Repr) && children[k].Valid()
                    && children[k].Tree() == (if k < i then WithRoot(trees[k], root) else trees[k])
      {
        SetChildDocumentRoot(i, root);
        i := i + 1;
      }
      assert Valid();
      TreeFromChildren(WithRoot(before, root).children);
    }

    /** One turn of `setDocumentRoot`'s loop over the children. */
    method SetChildDocumentRoot(i: nat, root: string)
      requires this in Repr && i < |children|
      requires forall k :: 0 <= k < |children| ==>
                 children[k].Valid() && children[k].Repr <= Repr && this !in children[k].Repr
      requires forall j, k :: 0 <= j < k < |children| ==> children[j].Repr !! children[k].Repr
      modifies children[i].Repr
      decreases Repr, 0
      ensures forall k :: 0 <= k < |children| ==> children[k].Repr == old(children[k].Repr) && children[k].Valid()
      ensures children[i].Tree() == WithRoot(old(children[i].Tree()), root)
      ensures forall k :: 0 <= k < |children| && k != i ==> children[k].Tree() == old(children[k].Tree())
    {
      children[i].SetDocumentRoot(root);
    }
  }
}

/** Unknown sections of the client config file: client/config/config.go. A parsed YAML
    document is a graph of nodes, since an alias node refers to an anchored node
    (section 7.1 of YAML 1.2.2); nodes are named by identity, and None is nil. */
module YamlInline {
  import opened Basics

  type Id = nat
  datatype Kind = Scalar | Sequence | Mapping
  datatype Payload = Payload(kind: Kind, tag: string, value: string, comments: string)
  datatype Node =
    | Content(payload: Payload, anchor: string, content: seq<Option<Id>>)
    | Alias(name: string, target: Option<Id>)
  type Graph = map<Id, Node>

  predicate RefIn(g: Graph, r: Option<Id>) { r.Some? ==> r.value in g }

  /** No reference leads out of the document. */
  ghost predicate Closed(g: Graph) {
    forall id | id in g ::
      match g[id]
      case Content(_, _, content) => forall r | r in content :: RefIn(g, r)
      case Alias(_, target) => RefIn(g, target)
  }

  /** What the parser builds: an alias refers to an anchored node, and an alias has no anchor. */
  ghost predicate Parsed(g: Graph) {
    Closed(g) && forall id | id in g && g[id].Alias? :: g[id].target.Some? && g[g[id].target.value].Content?
  }

  /** Nodes after inlining. Shared refers to a node of the original document. */
  datatype Tree = Nil | Shared(id: Id) | Clone(payload: Payload, anchor: string, content: seq<Tree>)

  /** inlineAliases. */
  function Inline(g: Graph, r: Option<Id>, visiting: set<Id>): Tree
    requires Closed(g) && RefIn(g, r)
    decreases g.Keys - visiting, 0
  {
    if r.None? then Nil
    else if r.value in visiting then Shared(r.value)
    else
      match g[r.value]
      case Alias(_, target) => Inline(g, target, visiting + {r.value})
      case Content(payload, _, content) => Clone(payload, "", InlineAll(g, content, visiting + {r.value}))
  }

  function InlineAll(g: Graph, content: seq<Option<Id>>, visiting: set<Id>): (r: seq<Tree>)
    requires Closed(g) && forall c | c in content :: RefIn(g, c)
    ensures |r| == |content| && forall i | 0 <= i < |r| :: r[i] == Inline(g, content[i], visiting)
    decreases g.Keys - visiting, |content|
  {
    if content == [] then []
    else InlineAll(g, content[..|content| - 1], visiting) + [Inline(g, content[|content| - 1], visiting)]
  }

  /** The recursion with its visiting set, which every call leaves as it found it. */
  class Inliner {
    var visiting: set<Id>

    constructor ()
      ensures visiting == {}
    {
      visiting := {};
    }

    method InlineAliases(g: Graph, node: Option<Id>) returns (r: Tree)
      requires Closed(g) && RefIn(g, node)
      modifies this
      ensures visiting == old(visiting)
      ensures r == Inline(g, node, visiting)
      decreases g.Keys - visiting
    {
      if node.None? { return Nil; }
      var id := node.value;
      if id in visiting { return Shared(id); }
      ghost var before := visiting;
      visiting := visiting + {id};
      match g[id] {
        case Alias(_, target) =>
          r := InlineAliases(g, target);
        case Content(payload, _, content) =>
          var children: seq<Tree> := [];
          for i := 0 to |content|
            invariant visiting == before + {id}
            invariant children == InlineAll(g, content[..i], visiting)
          {
            assert content[..i + 1][..i] == content[..i];
            assert content[i] in content;
            var child := InlineAliases(g, content[i]);
            children := children + [child];
          }
          assert content[..|content|] == content;
          r := Clone(payload, "", children);
      }
      visiting := visiting - {id};
      assert visiting == before;
    }
  }

  // ----- inlining keeps the meaning -----

  /** What a reader sees of a node down to a given depth. */
  datatype View = Cut | Nothing | Shown(payload: Payload, content: seq<View>)

  ghost function Meaning(g: Graph, r: Option<Id>, depth: nat): View
    requires Parsed(g) && RefIn(g, r)
    decreases depth, if r.Some? && g[r.value].Alias? then 1 else 0
  {
    if depth == 0 then Cut
    else if r.None? then Nothing
    else
      match g[r.value]
      case Alias(_, target) => Meaning(g, target, depth)
      case Content(payload, _, content) =>
        Shown(payload, seq(|content|, i requires 0 <= i < |content| =>
          assert content[i] in content; Meaning(g, content[i], depth - 1)))
  }

  ghost predicate SharedIn(g: Graph, t: Tree) {
    match t
    case Nil => true
    case Shared(id) => id in g
    case Clone(_, _, content) => forall c | c in content :: SharedIn(g, c)
  }

  ghost function TreeMeaning(g: Graph, t: Tree, depth: nat): View
    requires Parsed(g) && SharedIn(g, t)
    decreases depth
  {
    if depth == 0 then Cut
    else
      match t
      case Nil => Nothing
      case Shared(id) => Meaning(g, Some(id), depth)
      case Clone(payload, _, content) =>
        Shown(payload, seq(|content|, i requires 0 <= i < |content| =>
          assert content[i] in content; TreeMeaning(g, content[i], depth - 1)))
  }

  lemma {:induction false} InlineShared(g: Graph, r: Option<Id>, visiting: set<Id>)
    requires Closed(g) && RefIn(g, r)
    ensures SharedIn(g, Inline(g, r, visiting))
    decreases g.Keys - visiting
  {
    if r.Some? && r.value !in visiting {
      var more := visiting + {r.value};
      match g[r.value]
      case Alias(_, target) => InlineShared(g, target, more);
      case Content(_, _, content) =>
        var children := InlineAll(g, content, more);
        forall c | c in children ensures SharedIn(g, c) {
          var i :| 0 <= i < |children| && children[i] == c;
          assert content[i] in content;
          InlineShared(g, content[i], more);
        }
    }
  }

  /** To every depth, the inlined tree shows what the original node shows, cyclic or not. */
  lemma {:induction false} InlineKeepsMeaning(g: Graph, r: Option<Id>, visiting: set<Id>, depth: nat)
    requires Parsed(g) && RefIn(g, r)
    ensures SharedIn(g, Inline(g, r, visiting))
    ensures TreeMeaning(g, Inline(g, r, visiting), depth) == Meaning(g, r, depth)
    decreases depth, g.Keys - visiting
  {
    InlineShared(g, r, visiting);
    if depth > 0 && r.Some? && r.value !in visiting {
      var more := visiting + {r.value};
      match g[r.value]
      case Alias(_, target) => InlineKeepsMeaning(g, target, more, depth);
      case Content(_, _, content) =>
        forall i | 0 <= i < |content|
          ensures RefIn(g, content[i]) && SharedIn(g, Inline(g, content[i], more))
          ensures TreeMeaning(g, Inline(g, content[i], more), depth - 1) == Meaning(g, content[i], depth - 1)
        {
          assert content[i] in content;
          InlineKeepsMeaning(g, content[i], more, depth - 1);
        }
        assert TreeMeaning(g, Inline(g, r, visiting), depth).content == Meaning(g, r, depth).content;
    }
  }

  // ----- when nothing is left to dangle -----

  /** A self-contained tree: no reference into the old document, no anchor. */
  predicate SelfContained(t: Tree) {
    match t
    case Nil => true
    case Shared(_) => false
    case Clone(_, anchor, content) => anchor == "" && forall c | c in content :: SelfContained(c)
  }

  predicate Edge(g: Graph, a: Id, b: Id) {
    a in g &&
    match g[a]
    case Alias(_, target) => target == Some(b)
    case Content(_, _, content) => Some(b) in content
  }

  predicate Path(g: Graph, p: seq<Id>) {
    p != [] && p[0] in g && forall i | 0 < i < |p| :: Edge(g, p[i - 1], p[i])
  }

  /** A path that comes back to where it has been, or to a node of visiting. */
  predicate Returns(g: Graph, p: seq<Id>, visiting: set<Id>) {
    Path(g, p) && (p[|p| - 1] in visiting || p[|p| - 1] in p[..|p| - 1])
  }

  lemma {:induction false} FindReturn(g: Graph, id: Id, visiting: set<Id>) returns (p: seq<Id>)
    requires Closed(g) && id in g && !SelfContained(Inline(g, Some(id), visiting))
    ensures Returns(g, p, visiting) && p[0] == id
    decreases g.Keys - visiting
  {
    if id in visiting {
      p := [id];
    } else {
      var more, next: Id := visiting + {id}, id;
      match g[id] {
        case Alias(_, target) =>
          next := target.value;
        case Content(_, _, content) =>
          var children := InlineAll(g, content, more);
          var c :| c in children && !SelfContained(c);
          var i :| 0 <= i < |children| && children[i] == c;
          assert content[i] in content;
          next := content[i].value;
      }
      var q := FindReturn(g, next, more);
      p := [id] + q;
      assert p[..|p| - 1] == [id] + q[..|q| - 1];
      forall i | 0 < i < |p| ensures Edge(g, p[i - 1], p[i]) {
        if i > 1 {
          assert Edge(g, q[i - 2], q[i - 1]);
        }
      }
    }
  }

  lemma {:induction false} FollowReturn(g: Graph, p: seq<Id>, visiting: set<Id>)
    requires Closed(g) && Returns(g, p, visiting)
    ensures !SelfContained(Inline(g, Some(p[0]), visiting))
    decreases |p|
  {
    var id := p[0];
    if id !in visiting {
      var rest, more := p[1..], visiting + {id};
      assert Edge(g, p[0], p[1]);
      assert p[..|p| - 1] == [id] + rest[..|rest| - 1];
      assert forall i | 0 < i < |rest| :: Edge(g, p[i], p[i + 1]);
      FollowReturn(g, rest, more);
      if g[id].Content? {
        var i :| 0 <= i < |g[id].content| && g[id].content[i] == Some(rest[0]);
        var children := InlineAll(g, g[id].content, more);
        assert children[i] == Inline(g, Some(rest[0]), more);
        assert children[i] in children;
      }
    }
  }

  ghost predicate Cyclic(g: Graph, id: Id) {
    exists p :: Returns(g, p, {}) && p[0] == id
  }

  /** Inlining leaves a self-contained copy exactly when no path from the node comes back to itself. */
  lemma SelfContainedIffAcyclic(g: Graph, id: Id)
    requires Closed(g) && id in g
    ensures SelfContained(Inline(g, Some(id), {})) <==> !Cyclic(g, id)
  {
    if !SelfContained(Inline(g, Some(id), {})) {
      var p := FindReturn(g, id, {});
    }
    if Cyclic(g, id) {
      var p :| Returns(g, p, {}) && p[0] == id;
      FollowReturn(g, p, {});
    }
  }
}

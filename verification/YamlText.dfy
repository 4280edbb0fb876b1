/** Writing YAML nodes as text and parsing the text again. Text is what a parser sees of it: aliases
    by name, and anchors where they stand. An alias stands for the last node before it that carries
    the anchor (section 7.1 of YAML 1.2.2). */
module YamlText {
  import opened Basics
  import opened YamlInline

  datatype Text = Null | Ref(name: string) | Item(payload: Payload, anchor: string, content: seq<Text>)

  // ----- parsing -----

  /** The finished nodes, the next identity, and what each anchor name stands for. */
  datatype Parser = Parser(g: Graph, next: Id, env: map<string, Id>)

  const START := Parser(map[], 0, map[])

  function Parse(st: Parser, s: Text): Option<(Parser, Option<Id>)>
    decreases s, 1
  {
    match s
    case Null => Some((st, None))
    case Ref(name) =>
      if name !in st.env then None
      else Some((Parser(st.g[st.next := Alias(name, Some(st.env[name]))], st.next + 1, st.env), Some(st.next)))
    case Item(payload, anchor, content) =>
      var inside := Parser(st.g, st.next + 1, if anchor == "" then st.env else st.env[anchor := st.next]);
      match ParseAll(inside, content)
      case None => None
      case Some((after, refs)) =>
        Some((Parser(after.g[st.next := Content(payload, anchor, refs)], after.next, after.env), Some(st.next)))
  }

  function ParseAll(st: Parser, ss: seq<Text>): (r: Option<(Parser, seq<Option<Id>>)>)
    ensures r.Some? ==> |r.value.1| == |ss|
    decreases ss, 0
  {
    if ss == [] then Some((st, []))
    else
      match ParseAll(st, ss[..|ss| - 1])
      case None => None
      case Some((before, refs)) =>
        match Parse(before, ss[|ss| - 1])
        case None => None
        case Some((after, ref)) => Some((after, refs + [ref]))
  }

  // ----- what parsing makes is a document -----

  ghost predicate Extends(g: Graph, h: Graph) {
    forall id | id in g :: id in h && h[id] == g[id]
  }

  /** A node that aliases may refer to: finished, or still open around the current place. */
  ghost predicate Anchored(g: Graph, open: set<Id>, id: Id) {
    id in open || (id in g && g[id].Content?)
  }

  ghost predicate NodeOk(g: Graph, open: set<Id>, node: Node) {
    match node
    case Content(_, _, content) => forall r | r in content && r.Some? :: r.value in g || r.value in open
    case Alias(_, target) => target.Some? && Anchored(g, open, target.value)
  }

  ghost predicate Parsing(st: Parser, open: set<Id>) {
    && (forall id | id in st.g :: id < st.next && id !in open && NodeOk(st.g, open, st.g[id]))
    && (forall id | id in open :: id < st.next)
    && (forall name | name in st.env :: Anchored(st.g, open, st.env[name]))
  }

  lemma {:induction false} ParseOk(st: Parser, s: Text, open: set<Id>)
    requires Parsing(st, open) && Parse(st, s).Some?
    ensures var (after, ref) := Parse(st, s).value;
      Parsing(after, open) && Extends(st.g, after.g) && st.next <= after.next && (ref.Some? ==> ref.value in after.g)
    decreases s, 1
  {
    if s.Item? {
      var inside := Parser(st.g, st.next + 1, if s.anchor == "" then st.env else st.env[s.anchor := st.next]);
      OpenNode(st, open, s.anchor);
      ParseAllOk(inside, s.content, open + {st.next});
      var (after, refs) := ParseAll(inside, s.content).value;
      CloseNode(after, open, st.next, Content(s.payload, s.anchor, refs));
    }
  }

  lemma OpenNode(st: Parser, open: set<Id>, anchor: string)
    requires Parsing(st, open)
    ensures Parsing(Parser(st.g, st.next + 1,
                           if anchor == "" then st.env else st.env[anchor := st.next]), open + {st.next})
  {
    forall id | id in st.g ensures NodeOk(st.g, open + {st.next}, st.g[id]) {
      assert NodeOk(st.g, open, st.g[id]);
    }
  }

  lemma CloseNode(st: Parser, open: set<Id>, id: Id, node: Node)
    requires Parsing(st, open + {id}) && id !in open && id < st.next && node.Content?
    requires forall r | r in node.content && r.Some? :: r.value in st.g
    ensures Parsing(Parser(st.g[id := node], st.next, st.env), open)
    ensures Extends(st.g, st.g[id := node])
  {
    var h := st.g[id := node];
    assert id in open + {id};
    forall x | x in h ensures NodeOk(h, open, h[x]) && x !in open {
      if x != id { assert NodeOk(st.g, open + {id}, st.g[x]); }
    }
    forall name | name in st.env ensures Anchored(h, open, st.env[name]) {
      assert Anchored(st.g, open + {id}, st.env[name]);
    }
  }

  lemma {:induction false} ParseAllOk(st: Parser, ss: seq<Text>, open: set<Id>)
    requires Parsing(st, open) && ParseAll(st, ss).Some?
    ensures var (after, refs) := ParseAll(st, ss).value;
      && Parsing(after, open) && Extends(st.g, after.g) && st.next <= after.next
      && forall r | r in refs && r.Some? :: r.value in after.g
    decreases ss, 0
  {
    if ss != [] {
      ParseAllOk(st, ss[..|ss| - 1], open);
      var (before, refs) := ParseAll(st, ss[..|ss| - 1]).value;
      ParseOk(before, ss[|ss| - 1], open);
    }
  }

  /** Whatever text is read, the nodes form a document. */
  lemma ParseDocument(ss: seq<Text>)
    requires ParseAll(START, ss).Some?
    ensures var (st, refs) := ParseAll(START, ss).value;
      Parsed(st.g) && (forall id | id in st.g :: id < st.next) && forall r | r in refs :: RefIn(st.g, r)
  {
    ParseAllOk(START, ss, {});
    var (st, refs) := ParseAll(START, ss).value;
    forall id | id in st.g ensures NodeOk(st.g, {}, st.g[id]) {}
  }

  // ----- writing -----

  /** Nodes are numbered in the order the parser makes them: a node before those inside it. */
  ghost predicate Numbered(g: Graph, next: Id) {
    && Parsed(g) && (forall id | id in g :: id < next)
    && forall id, c | id in g && g[id].Content? && c in g[id].content && c.Some? :: id < c.value
  }

  ghost predicate Below(g: Graph, parent: Id, content: seq<Option<Id>>) {
    parent in g && forall c | c in content && c.Some? :: c.value in g && parent < c.value
  }

  /** A node of a document, as it is written. */
  ghost function NodeText(g: Graph, next: Id, id: Id): Text
    requires Numbered(g, next) && id in g
    decreases next - id, 0
  {
    match g[id]
    case Alias(name, _) => Ref(name)
    case Content(payload, anchor, content) => Item(payload, anchor, ContentText(g, next, id, content))
  }

  ghost function ContentText(g: Graph, next: Id, parent: Id, content: seq<Option<Id>>): seq<Text>
    requires Numbered(g, next) && Below(g, parent, content)
    decreases next - parent - 1, |content| + 1
  {
    if content == [] then []
    else
      var c := content[|content| - 1];
      assert c in content;
      ContentText(g, next, parent, content[..|content| - 1]) + [if c.None? then Null else NodeText(g, next, c.value)]
  }

  /** An inlined tree, as it is written. */
  ghost function TreeText(g: Graph, next: Id, t: Tree): Text
    requires Numbered(g, next) && SharedIn(g, t)
    decreases t, 1
  {
    match t
    case Nil => Null
    case Shared(id) => NodeText(g, next, id)
    case Clone(payload, anchor, content) => Item(payload, anchor, TreesText(g, next, content))
  }

  ghost predicate SharedInAll(g: Graph, ts: seq<Tree>) { forall t | t in ts :: SharedIn(g, t) }

  ghost function TreesText(g: Graph, next: Id, ts: seq<Tree>): (r: seq<Text>)
    requires Numbered(g, next) && SharedInAll(g, ts)
    ensures |r| == |ts|
    decreases ts, 0
  {
    if ts == [] then []
    else TreesText(g, next, ts[..|ts| - 1]) + [TreeText(g, next, ts[|ts| - 1])]
  }
}

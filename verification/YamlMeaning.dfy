/** What the written client config file means to its next reader (client/config/config.go): when every
    alias in it is read as the node it was, the sections mean what they meant. */
module YamlMeaning {
  import opened Basics
  import opened YamlInline
  import opened YamlSections
  import opened YamlText
  import opened YamlNames
  import opened YamlReload
  import opened YamlAliases

  // ----- where the nodes of the new document come from -----

  datatype Source = Old(id: Id) | Copy(tree: Tree)
  type Origin = map<Id, Source>

  function OldSource(c: Option<Id>): Option<Source> { if c.None? then None else Some(Old(c.value)) }

  function TreeSource(t: Tree): Option<Source> {
    match t
    case Nil => None
    case Shared(id) => Some(Old(id))
    case Clone(_, _, _) => Some(Copy(t))
  }

  predicate From(origin: Origin, r: Option<Id>, source: Option<Source>) {
    if source.None? then r.None? else r.Some? && r.value in origin && origin[r.value] == source.value
  }

  predicate AllFrom(origin: Origin, rs: seq<Option<Id>>, sources: seq<Option<Source>>) {
    |rs| == |sources| && forall i | 0 <= i < |rs| :: From(origin, rs[i], sources[i])
  }

  function OldSources(content: seq<Option<Id>>): (r: seq<Option<Source>>)
    ensures |r| == |content| && forall i | 0 <= i < |r| :: r[i] == OldSource(content[i])
  {
    seq(|content|, i requires 0 <= i < |content| => OldSource(content[i]))
  }

  function TreeSources(ts: seq<Tree>): (r: seq<Option<Source>>)
    ensures |r| == |ts| && forall i | 0 <= i < |r| :: r[i] == TreeSource(ts[i])
  {
    seq(|ts|, i requires 0 <= i < |ts| => TreeSource(ts[i]))
  }

  /** A new node is made like its source, out of nodes made like the parts of its source. */
  predicate Alike(g: Graph, node: Node, source: Source, origin: Origin) {
    match source
    case Copy(t) =>
      t.Clone? && node.Content? && node.payload == t.payload && AllFrom(origin, node.content, TreeSources(t.content))
    case Old(id) =>
      id in g &&
      match g[id]
      case Alias(_, target) => target.Some? && node.Alias? && From(origin, node.target, Some(Old(target.value)))
      case Content(payload, _, content) =>
        node.Content? && node.payload == payload && AllFrom(origin, node.content, OldSources(content))
  }

  ghost predicate Copies(g: Graph, st: Parser, origin: Origin) {
    && (forall n | n in origin :: n < st.next)
    && forall n | n in st.g :: n in origin && Alike(g, st.g[n], origin[n], origin)
  }

  /** Every name stands for a copy of the node of its last anchor. */
  ghost predicate Binds(env: map<string, Id>, origin: Origin, before: seq<Mark>) {
    forall name ::
      match LastDef(before, name)
      case None => name !in env
      case Some(id) => name in env && From(origin, Some(env[name]), Some(Old(id)))
  }

  predicate Grows(a: Origin, b: Origin) { forall n | n in a :: n in b && b[n] == a[n] }

  // ----- alike nodes mean the same -----

  ghost function SourceMeaning(g: Graph, source: Source, depth: nat): View
    requires Parsed(g) && (source.Old? ==> source.id in g) && (source.Copy? ==> SharedIn(g, source.tree))
  {
    match source
    case Old(id) => Meaning(g, Some(id), depth)
    case Copy(t) => TreeMeaning(g, t, depth)
  }

  ghost predicate Sound(g: Graph, source: Source) {
    (source.Old? ==> source.id in g) && (source.Copy? ==> SharedIn(g, source.tree))
  }

  /** All nodes of h are copies by origin. */
  ghost predicate Faithful(g: Graph, h: Graph, origin: Origin) {
    && Parsed(g) && Parsed(h) && (forall n | n in h :: n in origin && Alike(g, h[n], origin[n], origin))
    && forall n | n in origin :: Sound(g, origin[n])
  }

  lemma {:induction false} CopiesMeanTheSame(g: Graph, h: Graph, origin: Origin, n: Id, depth: nat)
    requires Faithful(g, h, origin) && n in h
    ensures Meaning(h, Some(n), depth) == SourceMeaning(g, origin[n], depth)
    decreases depth, if h[n].Alias? then 1 else 0
  {
    if depth > 0 {
      assert Alike(g, h[n], origin[n], origin);
      match h[n]
      case Alias(_, target) => CopiesMeanTheSame(g, h, origin, target.value, depth);
      case Content(_, _, content) =>
        forall i | 0 <= i < |content|
          ensures RefIn(h, content[i])
          ensures content[i].Some? ==>
            Meaning(h, content[i], depth - 1) == SourceMeaning(g, origin[content[i].value], depth - 1)
        {
          assert content[i] in content;
          if content[i].Some? { CopiesMeanTheSame(g, h, origin, content[i].value, depth - 1); }
        }
        SameContent(g, h, origin, n, depth);
    }
  }

  lemma SameContent(g: Graph, h: Graph, origin: Origin, n: Id, depth: nat)
    requires Faithful(g, h, origin) && n in h && h[n].Content? && depth > 0
    requires forall i | 0 <= i < |h[n].content| :: RefIn(h, h[n].content[i])
    requires forall i | 0 <= i < |h[n].content| && h[n].content[i].Some? ::
      Meaning(h, h[n].content[i], depth - 1) == SourceMeaning(g, origin[h[n].content[i].value], depth - 1)
    ensures Meaning(h, Some(n), depth) == SourceMeaning(g, origin[n], depth)
  {
    var content := h[n].content;
    assert Alike(g, h[n], origin[n], origin);
    match origin[n]
    case Old(id) =>
      forall i | 0 <= i < |content|
        ensures Meaning(h, content[i], depth - 1) ==
          (assert g[id].content[i] in g[id].content; Meaning(g, g[id].content[i], depth - 1))
      {
        assert From(origin, content[i], OldSource(g[id].content[i]));
      }
      assert Meaning(h, Some(n), depth).content == Meaning(g, Some(id), depth).content;
    case Copy(t) =>
      forall i | 0 <= i < |content|
        ensures Meaning(h, content[i], depth - 1) ==
          (assert t.content[i] in t.content; TreeMeaning(g, t.content[i], depth - 1))
      {
        assert From(origin, content[i], TreeSource(t.content[i]));
      }
      assert Meaning(h, Some(n), depth).content == TreeMeaning(g, t, depth).content;
  }

  // ----- parsing makes copies -----

  lemma FromGrows(a: Origin, b: Origin, r: Option<Id>, source: Option<Source>)
    requires Grows(a, b) && From(a, r, source)
    ensures From(b, r, source)
  {
  }

  lemma AllFromGrows(a: Origin, b: Origin, rs: seq<Option<Id>>, sources: seq<Option<Source>>)
    requires Grows(a, b) && AllFrom(a, rs, sources)
    ensures AllFrom(b, rs, sources)
  {
    hide From;
    forall i | 0 <= i < |rs| ensures From(b, rs[i], sources[i]) { FromGrows(a, b, rs[i], sources[i]); }
  }

  lemma AlikeGrows(g: Graph, node: Node, source: Source, a: Origin, b: Origin)
    requires Grows(a, b) && Alike(g, node, source, a)
    ensures Alike(g, node, source, b)
  {
    hide AllFrom, Grows;
    match source
    case Copy(t) => AllFromGrows(a, b, node.content, TreeSources(t.content));
    case Old(id) =>
      match g[id]
      case Alias(_, target) => FromGrows(a, b, node.target, Some(Old(target.value)));
      case Content(_, _, content) => AllFromGrows(a, b, node.content, OldSources(content));
  }

  /** The state of a parser that makes copies of g. */
  ghost predicate Copying(g: Graph, st: Parser, origin: Origin, before: seq<Mark>) {
    Copies(g, st, origin) && Binds(st.env, origin, before) && forall n | n in origin :: Sound(g, origin[n])
  }

  ghost function Inside(st: Parser, anchor: string): Parser {
    Parser(st.g, st.next + 1, if anchor == "" then st.env else st.env[anchor := st.next])
  }

  lemma OpenCopy(g: Graph, st: Parser, origin: Origin, before: seq<Mark>, source: Source, anchor: string)
    requires Copying(g, st, origin, before) && Sound(g, source) && (anchor != "" ==> source.Old?)
    ensures var own := if anchor == "" then [] else [Def(anchor, source.id)];
      Copying(g, Inside(st, anchor), origin[st.next := source], before + own) &&
      Grows(origin, origin[st.next := source])
  {
    var o := origin[st.next := source];
    var own := if anchor == "" then [] else [Def(anchor, source.id)];
    forall n | n in st.g ensures n in o && Alike(g, st.g[n], o[n], o) {
      assert n in origin && n < st.next;
      AlikeGrows(g, st.g[n], origin[n], origin, o);
    }
    BindsMore(st.env, origin, o, before);
    if anchor == "" {
      assert before + own == before;
    } else {
      forall name
        ensures match LastDef(before + own, name)
                case None => name !in Inside(st, anchor).env
                case Some(id) =>
                  name in Inside(st, anchor).env && From(o, Some(Inside(st, anchor).env[name]), Some(Old(id)))
      {
        LastDefSnoc(before, own[0], name);
      }
    }
  }

  lemma BindsMore(env: map<string, Id>, a: Origin, b: Origin, before: seq<Mark>)
    requires Binds(env, a, before) && Grows(a, b)
    ensures Binds(env, b, before)
  {
  }

  lemma CloseCopy(g: Graph, st: Parser, origin: Origin, before: seq<Mark>, n: Id, node: Node)
    requires Copying(g, st, origin, before) && n in origin && Alike(g, node, origin[n], origin)
    ensures Copying(g, Parser(st.g[n := node], st.next, st.env), origin, before)
  {
  }

  lemma CopyAlias(g: Graph, next: Id, id: Id, st: Parser, origin: Origin, before: seq<Mark>) returns (o: Origin)
    requires Numbered(g, next) && id in g && g[id].Alias? && Copying(g, st, origin, before)
    requires ResolvesAfter(before, NodeMarks(g, next, id))
    ensures Copied(g, st, NodeText(g, next, id), origin, o, before + NodeMarks(g, next, id), Some(Old(id)))
  {
    var name, target := g[id].name, g[id].target.value;
    var marks := [Use(name, target)];
    assert marks[0].Use? && before + marks[..0] == before;
    assert From(origin, Some(st.env[name]), Some(Old(target)));
    o := origin[st.next := Old(id)];
    OpenCopy(g, st, origin, before, Old(id), "");
    assert before + [] == before;
    FromGrows(origin, o, Some(st.env[name]), Some(Old(target)));
    CloseCopy(g, Inside(st, ""), o, before, st.next, Alias(name, Some(st.env[name])));
    forall x ensures LastDef(before + marks, x) == LastDef(before, x) { LastDefSnoc(before, marks[0], x); }
  }

  /** The text parses, into copies, and its own node is a copy of the source. */
  ghost predicate Copied(g: Graph, st: Parser, s: Text, a: Origin, b: Origin, marks: seq<Mark>,
                         source: Option<Source>) {
    Parse(st, s).Some? &&
    var (after, ref) := Parse(st, s).value; Copying(g, after, b, marks) && Grows(a, b) && From(b, ref, source)
  }

  ghost predicate AllCopied(g: Graph, st: Parser, ss: seq<Text>, a: Origin, b: Origin, marks: seq<Mark>,
                            sources: seq<Option<Source>>) {
    ParseAll(st, ss).Some? &&
    var (after, refs) := ParseAll(st, ss).value; Copying(g, after, b, marks) && Grows(a, b) && AllFrom(b, refs, sources)
  }

  lemma CopyMore(g: Graph, st: Parser, ss: seq<Text>, s: Text, a: Origin, b: Origin, c: Origin, marks: seq<Mark>,
                 more: seq<Mark>, sources: seq<Option<Source>>, source: Option<Source>)
    requires AllCopied(g, st, ss, a, b, marks, sources)
    requires Copied(g, ParseAll(st, ss).value.0, s, b, c, more, source)
    ensures AllCopied(g, st, ss + [s], a, c, more, sources + [source])
  {
    hide Copying, Parse, From;
    assert (ss + [s])[..|ss|] == ss;
    AllFromGrows(b, c, ParseAll(st, ss).value.1, sources);
  }

  lemma CopyItem(g: Graph, st: Parser, origin: Origin, o: Origin, before: seq<Mark>, marks: seq<Mark>, source: Source,
                 s: Text, sources: seq<Option<Source>>)
    requires s.Item? && Copying(g, st, origin, before) && Sound(g, source) && (s.anchor != "" ==> source.Old?)
    requires AllCopied(g, Inside(st, s.anchor), s.content, origin[st.next := source], o, marks, sources)
    requires forall refs | AllFrom(o, refs, sources) :: Alike(g, Content(s.payload, s.anchor, refs), source, o)
    ensures Copied(g, st, s, origin, o, marks, Some(source))
  {
    hide Copying, ParseAll, AllFrom, Alike;
    var (after, refs) := ParseAll(Inside(st, s.anchor), s.content).value;
    var o1 := origin[st.next := source];
    assert st.next !in origin by { UnusedNext(g, st, origin, before); }
    assert st.next in o1 && o1[st.next] == source;
    CloseCopy(g, after, o, marks, st.next, Content(s.payload, s.anchor, refs));
  }

  lemma UnusedNext(g: Graph, st: Parser, origin: Origin, before: seq<Mark>)
    requires Copying(g, st, origin, before)
    ensures st.next !in origin
  {
    assert st.next in origin ==> st.next < st.next;
  }

  lemma {:induction false} CopyNode(g: Graph, next: Id, id: Id, st: Parser, origin: Origin, before: seq<Mark>)
    returns (o: Origin)
    requires Numbered(g, next) && id in g && Copying(g, st, origin, before)
    requires ResolvesAfter(before, NodeMarks(g, next, id))
    ensures Copied(g, st, NodeText(g, next, id), origin, o, before + NodeMarks(g, next, id), Some(Old(id)))
    decreases next - id, 0
  {
    hide Copying, Copied, AllCopied, ResolvesAfter, LastDef, Parse;
    if g[id].Alias? {
      o := CopyAlias(g, next, id, st, origin, before);
    } else {
      var content, anchor := g[id].content, g[id].anchor;
      var own := if anchor == "" then [] else [Def(anchor, id)];
      var marks := ContentMarks(g, next, id, content);
      OpenCopy(g, st, origin, before, Old(id), anchor);
      ResolvesConcat(before, own, marks);
      o := CopyContent(g, next, id, content, Inside(st, anchor), origin[st.next := Old(id)], before + own);
      CopyItem(g, st, origin, o, before, before + own + marks, Old(id), NodeText(g, next, id), OldSources(content));
      assert before + own + marks == before + (own + marks);
    }
  }

  lemma {:induction false} CopyContent(g: Graph, next: Id, parent: Id, content: seq<Option<Id>>, st: Parser,
                                       origin: Origin, before: seq<Mark>) returns (o: Origin)
    requires Numbered(g, next) && Below(g, parent, content) && Copying(g, st, origin, before)
    requires ResolvesAfter(before, ContentMarks(g, next, parent, content))
    ensures AllCopied(g, st, ContentText(g, next, parent, content), origin, o,
                      before + ContentMarks(g, next, parent, content), OldSources(content))
    decreases next - parent - 1, |content| + 1
  {
    hide Copying, Copied, ResolvesAfter, LastDef, NodeText, NodeMarks, Parse, ParseAll, AllFrom, Grows;
    if content == [] {
      o := origin;
      assert AllCopied(g, st, [], origin, o, before + [], []) by { CopyNone(g, next, st, origin, before); }
      assert OldSources(content) == [];
    } else {
      var init, c := content[..|content| - 1], content[|content| - 1];
      assert c in content;
      var a, b := ContentMarks(g, next, parent, init), if c.None? then [] else NodeMarks(g, next, c.value);
      ResolvesConcat(before, a, b);
      var mid := CopyContent(g, next, parent, init, st, origin, before);
      var ss := ContentText(g, next, parent, init);
      var after := ParseAll(st, ss).value.0;
      if c.None? {
        o := mid;
        CopyNull(g, after, mid, before + a);
      } else {
        o := CopyNode(g, next, c.value, after, mid, before + a);
      }
      assert before + a + b == before + (a + b);
      CopyMore(g, st, ss, if c.None? then Null else NodeText(g, next, c.value), origin, mid, o, before + a,
               before + a + b, OldSources(init), OldSource(c));
      assert OldSources(content) == OldSources(init) + [OldSource(c)];
    }
  }

  lemma CopyNull(g: Graph, st: Parser, origin: Origin, before: seq<Mark>)
    requires Copying(g, st, origin, before)
    ensures Copied(g, st, Null, origin, origin, before + [], None)
  {
    hide Copying;
    assert before + [] == before;
  }

  lemma {:induction false} CopyTree(g: Graph, next: Id, t: Tree, st: Parser, origin: Origin, before: seq<Mark>)
    returns (o: Origin)
    requires Numbered(g, next) && SharedIn(g, t) && Unanchored(t) && Copying(g, st, origin, before)
    requires Nodes(g, References(t)) && ResolvesAfter(before, MarksOf(g, next, References(t)))
    ensures Copied(g, st, TreeText(g, next, t), origin, o, before + MarksOf(g, next, References(t)), TreeSource(t))
    decreases t, 1
  {
    hide Copying, Copied, AllCopied, ResolvesAfter, LastDef, Parse;
    match t
    case Nil =>
      o := origin;
      CopyNull(g, st, origin, before);
    case Shared(id) =>
      assert [id][..0] == [] && MarksOf(g, next, [id]) == NodeMarks(g, next, id);
      o := CopyNode(g, next, id, st, origin, before);
    case Clone(_, _, content) =>
      OpenCopy(g, st, origin, before, Copy(t), "");
      assert before + [] == before;
      o := CopyTrees(g, next, content, Inside(st, ""), origin[st.next := Copy(t)], before);
      CopyItem(g, st, origin, o, before, before + MarksOf(g, next, References(t)), Copy(t), TreeText(g, next, t),
               TreeSources(content));
  }

  lemma CopyNone(g: Graph, next: Id, st: Parser, origin: Origin, before: seq<Mark>)
    requires Numbered(g, next) && Copying(g, st, origin, before)
    ensures AllCopied(g, st, [], origin, origin, before + MarksOf(g, next, []), [])
  {
    hide Copying;
    assert before + [] == before;
  }

  lemma {:induction false} CopyTrees(g: Graph, next: Id, ts: seq<Tree>, st: Parser, origin: Origin, before: seq<Mark>)
    returns (o: Origin)
    requires Numbered(g, next) && SharedInAll(g, ts) && (forall t | t in ts :: Unanchored(t))
    requires Copying(g, st, origin, before)
    requires Nodes(g, AllReferences(ts)) && ResolvesAfter(before, MarksOf(g, next, AllReferences(ts)))
    ensures AllCopied(g, st, TreesText(g, next, ts), origin, o,
                      before + MarksOf(g, next, AllReferences(ts)), TreeSources(ts))
    decreases ts, 0
  {
    hide Copying, Copied, ResolvesAfter, LastDef, TreeText, Parse, Numbered, SharedIn, Unanchored, NodeMarks, MarksOf,
      References, ParseAll, AllFrom, Grows;
    if ts == [] {
      o := origin;
      CopyNone(g, next, st, origin, before);
    } else {
      var init, t := ts[..|ts| - 1], ts[|ts| - 1];
      assert forall x | x in init :: x in ts;
      AllReferencesIn(g, init);
      ReferencesIn(g, t);
      var a, b := MarksOf(g, next, AllReferences(init)), MarksOf(g, next, References(t));
      MarksConcat(g, next, AllReferences(init), References(t));
      ResolvesConcat(before, a, b);
      var mid := CopyTrees(g, next, init, st, origin, before);
      var ss := TreesText(g, next, init);
      o := CopyTree(g, next, t, ParseAll(st, ss).value.0, mid, before + a);
      assert before + a + b == before + (a + b);
      CopyMore(g, st, ss, TreeText(g, next, t), origin, mid, o, before + a, before + a + b,
               TreeSources(init), TreeSource(t));
      assert TreeSources(ts) == TreeSources(init) + [TreeSource(t)];
    }
  }

  // ----- what the written file means -----

  /** The anchors and aliases of a written file. */
  ghost function FileMarks(g: Graph, next: Id, sections: seq<Section>): seq<Mark>
    requires Writable(g, next, sections)
  {
    AllReferencesIn(g, Trees(sections));
    MarksOf(g, next, AllReferences(Trees(sections)))
  }

  lemma {:induction false} InlineUnanchored(g: Graph, r: Option<Id>, visiting: set<Id>)
    requires Closed(g) && RefIn(g, r)
    ensures Unanchored(Inline(g, r, visiting))
    decreases g.Keys - visiting
  {
    if r.Some? && r.value !in visiting {
      var more := visiting + {r.value};
      match g[r.value]
      case Alias(_, target) => InlineUnanchored(g, target, more);
      case Content(_, _, content) =>
        var children := InlineAll(g, content, more);
        forall c | c in children ensures Unanchored(c) {
          var i :| 0 <= i < |children| && children[i] == c;
          assert content[i] in content;
          InlineUnanchored(g, content[i], more);
        }
    }
  }

  lemma {:induction false} WholeIsUnanchored(t: Tree)
    requires SelfContained(t)
    ensures Unanchored(t)
  {
    if t.Clone? {
      forall c | c in t.content ensures Unanchored(c) { WholeIsUnanchored(c); }
    }
  }

  lemma SavedIsUnanchored(g: Graph, next: Id, content: seq<Option<Id>>, encoded: seq<Section>)
    requires Document(g, next, content) && Encoded(encoded)
    ensures forall t | t in Trees(Saved(g, content, encoded)) :: Unanchored(t)
  {
    hide Captured, Inline, TopLevel, OnePlace, KeyOf, SelfContained, Unanchored, Distinct, AtTop;
    UnfoldTopLevel(g, content);
    var saved := Saved(g, content, encoded);
    forall t | t in Trees(saved) ensures Unanchored(t) {
      var k :| 0 <= k < |Trees(saved)| && Trees(saved)[k] == t;
      var s := saved[k / 2];
      assert s in saved && (t == s.key || t == s.value);
      if s in encoded {
        WholeIsUnanchored(t);
      } else {
        InCaptured(g, content, |content| / 2, s);
        var i :| 0 <= i < |content| / 2 && !Skipped(g, content, i) && s == SectionAt(g, content, i);
        assert content[2 * i] in content && content[2 * i + 1] in content;
        InlineUnanchored(g, content[2 * i], {});
        InlineUnanchored(g, content[2 * i + 1], {});
      }
    }
  }

  /** The written file parses exactly when every alias in it has an anchor of its name before it. */
  lemma SavedParsesIff(g: Graph, next: Id, content: seq<Option<Id>>, encoded: seq<Section>)
    requires Document(g, next, content) && Encoded(encoded)
    ensures Writable(g, next, Saved(g, content, encoded))
    ensures var saved := Saved(g, content, encoded);
      ParseAll(START, Written(g, next, saved)).Some? <==> LoadsAfter([], FileMarks(g, next, saved))
  {
    hide Captured, ParseAll, LoadsAfter, TopLevel, Unanchored, TreesText, MarksOf, OnePlace, Numbered, AtTop;
    UnfoldTopLevel(g, content);
    SavedIsWritable(g, next, content, encoded);
    SavedIsUnanchored(g, next, content, encoded);
    ParsesIff(g, next, Trees(Saved(g, content, encoded)));
  }

  lemma RefMeaning(g: Graph, h: Graph, origin: Origin, ref: Option<Id>, t: Tree, depth: nat)
    requires Faithful(g, h, origin) && RefIn(h, ref) && From(origin, ref, TreeSource(t)) && SharedIn(g, t)
    ensures Meaning(h, ref, depth) == TreeMeaning(g, t, depth)
  {
    if ref.Some? { CopiesMeanTheSame(g, h, origin, ref.value, depth); }
  }

  /** Sections whose aliases all resolve are read back with their meaning, to every depth. */
  lemma WrittenMeaning(g: Graph, next: Id, sections: seq<Section>, k: nat, depth: nat)
    requires Writable(g, next, sections) && (forall t | t in Trees(sections) :: Unanchored(t))
    requires ResolvesAfter([], FileMarks(g, next, sections)) && k < 2 * |sections|
    ensures ParseAll(START, Written(g, next, sections)).Some?
    ensures var (st, refs) := ParseAll(START, Written(g, next, sections)).value; var t := Trees(sections)[k];
      && Parsed(st.g) && |refs| == 2 * |sections| && (forall r | r in refs :: RefIn(st.g, r))
      && SharedIn(g, t) && Meaning(st.g, refs[k], depth) == TreeMeaning(g, t, depth)
  {
    hide TreesText, ParseAll, ResolvesAfter, Numbered, ContentShared, Unanchored, Meaning, TreeMeaning, MarksOf,
         LastDef;
    var ts := Trees(sections);
    AllReferencesIn(g, ts);
    assert Copying(g, START, map[], []) by { NothingCopied(g); }
    var origin := CopyTrees(g, next, ts, START, map[], []);
    var file := Written(g, next, sections);
    ParseDocument(file);
    var (st, refs) := ParseAll(START, file).value;
    assert Parsed(g) by { UnfoldNumbered(g, next); }
    assert ts[k] in ts && refs[k] in refs;
    assert From(origin, refs[k], TreeSources(ts)[k]);
    RefMeaning(g, st.g, origin, refs[k], ts[k], depth);
  }

  lemma NothingCopied(g: Graph)
    ensures Copying(g, START, map[], [])
  {
  }

  lemma UnfoldNumbered(g: Graph, next: Id)
    requires Numbered(g, next)
    ensures Parsed(g) && Closed(g)
  {
  }

  ghost predicate SameMeaning(h: Graph, r: Option<Id>, g: Graph, q: Option<Id>, depth: nat)
    requires Parsed(h) && Parsed(g) && RefIn(h, r) && RefIn(g, q)
  {
    Meaning(h, r, depth) == Meaning(g, q, depth)
  }

  ghost predicate SameTreeMeaning(h: Graph, t: Tree, g: Graph, q: Option<Id>, depth: nat)
    requires Parsed(h) && Parsed(g) && RefIn(g, q)
  {
    SharedIn(h, t) && TreeMeaning(h, t, depth) == Meaning(g, q, depth)
  }

  /** Cyclic or not: if every alias in the written file is read as the node it was, the file parses, and
      a captured entry, and what loading makes of it, show to every depth what they showed before. */
  lemma SavedMeaning(g: Graph, next: Id, content: seq<Option<Id>>, encoded: seq<Section>, i: nat, j: nat, depth: nat)
    requires Document(g, next, content) && Encoded(encoded)
    requires i < |content| / 2 && j < |Captured(g, content, |content| / 2)|
    requires Captured(g, content, |content| / 2)[j] == SectionAt(g, content, i)
    requires Writable(g, next, Saved(g, content, encoded))
    requires ResolvesAfter([], FileMarks(g, next, Saved(g, content, encoded)))
    ensures ParseAll(START, Written(g, next, Saved(g, content, encoded))).Some?
    ensures var (st, refs) := ParseAll(START, Written(g, next, Saved(g, content, encoded))).value;
      var at := |encoded| + j;
      && Parsed(st.g) && Refs(st.g, refs) && 2 * at + 1 < |refs|
      && SameMeaning(st.g, refs[2 * at], g, content[2 * i], depth)
      && SameMeaning(st.g, refs[2 * at + 1], g, content[2 * i + 1], depth)
      && SameTreeMeaning(st.g, SectionAt(st.g, refs, at).value, g, content[2 * i + 1], depth)
  {
    hide Captured, Writable, Written, ParseAll, ResolvesAfter, FileMarks, Inline, Meaning, TreeMeaning, Unanchored,
         Encoded, TopLevel, SharedIn, OnePlace, Numbered, AtTop;
    UnfoldTopLevel(g, content);
    var saved, at := Saved(g, content, encoded), |encoded| + j;
    SavedIsUnanchored(g, next, content, encoded);
    assert saved[at] == SectionAt(g, content, i);
    assert content[2 * i] in content && content[2 * i + 1] in content;
    EntryMeaning(g, next, saved, at, content[2 * i], content[2 * i + 1], depth);
  }

  lemma EntryMeaning(g: Graph, next: Id, saved: seq<Section>, at: nat, key: Option<Id>, value: Option<Id>, depth: nat)
    requires Writable(g, next, saved) && (forall t | t in Trees(saved) :: Unanchored(t)) && at < |saved|
    requires ResolvesAfter([], FileMarks(g, next, saved)) && Parsed(g) && RefIn(g, key) && RefIn(g, value)
    requires saved[at] == Section(Inline(g, key, {}), Inline(g, value, {}))
    ensures ParseAll(START, Written(g, next, saved)).Some?
    ensures var (st, refs) := ParseAll(START, Written(g, next, saved)).value;
      && Parsed(st.g) && Refs(st.g, refs) && |refs| == 2 * |saved|
      && SameMeaning(st.g, refs[2 * at], g, key, depth) && SameMeaning(st.g, refs[2 * at + 1], g, value, depth)
      && SameTreeMeaning(st.g, SectionAt(st.g, refs, at).value, g, value, depth)
  {
    hide Writable, Written, ParseAll, ResolvesAfter, FileMarks, Inline, SameMeaning, SameTreeMeaning, Unanchored,
         Parsed;
    SideMeaning(g, next, saved, 2 * at, key, depth);
    SideMeaning(g, next, saved, 2 * at + 1, value, depth);
  }

  lemma SideMeaning(g: Graph, next: Id, saved: seq<Section>, k: nat, r: Option<Id>, depth: nat)
    requires Writable(g, next, saved) && (forall t | t in Trees(saved) :: Unanchored(t)) && k < 2 * |saved|
    requires ResolvesAfter([], FileMarks(g, next, saved)) && Parsed(g) && RefIn(g, r)
    requires Trees(saved)[k] == Inline(g, r, {})
    ensures ParseAll(START, Written(g, next, saved)).Some?
    ensures var (st, refs) := ParseAll(START, Written(g, next, saved)).value;
      && Parsed(st.g) && Refs(st.g, refs) && |refs| == 2 * |saved| && RefIn(st.g, refs[k])
      && SameMeaning(st.g, refs[k], g, r, depth)
      && SameTreeMeaning(st.g, Inline(st.g, refs[k], {}), g, r, depth)
  {
    hide Writable, Written, ParseAll, ResolvesAfter, FileMarks, Inline, Meaning, TreeMeaning, Unanchored, Parsed,
         SharedIn;
    WrittenMeaning(g, next, saved, k, depth);
    InlineKeepsMeaning(g, r, {}, depth);
    var (st, refs) := ParseAll(START, Written(g, next, saved)).value;
    UnfoldParsed(st.g);
    assert refs[k] in refs;
    InlineKeepsMeaning(st.g, refs[k], {}, depth);
  }

  // ----- conditions on the document -----

  lemma {:induction false} NoReferencesIff(t: Tree)
    requires Unanchored(t)
    ensures References(t) == [] <==> SelfContained(t)
    decreases t, 1
  {
    if t.Clone? { NoneReferIff(t.content); }
  }

  lemma {:induction false} NoneReferIff(ts: seq<Tree>)
    requires forall t | t in ts :: Unanchored(t)
    ensures AllReferences(ts) == [] <==> forall t | t in ts :: SelfContained(t)
    decreases ts, 0
  {
    if ts != [] {
      var init, t := ts[..|ts| - 1], ts[|ts| - 1];
      assert ts == init + [t];
      NoneReferIff(init);
      NoReferencesIff(t);
    }
  }

  /** The written file refers to no node of the old document, and so holds no anchor and no alias,
      exactly when no captured key or value is cyclic. */
  lemma NoReferencesIffAcyclic(g: Graph, next: Id, content: seq<Option<Id>>, encoded: seq<Section>)
    requires Document(g, next, content) && Encoded(encoded)
    ensures AllReferences(Trees(Saved(g, content, encoded))) == [] <==>
      forall i | 0 <= i < |content| / 2 :: !Skipped(g, content, i) ==>
        !CyclicAt(g, content[2 * i]) && !CyclicAt(g, content[2 * i + 1])
  {
    hide Captured, TopLevel, OnePlace, Numbered, AtTop, SelfContained, CyclicAt, Unanchored, Inline, KeyOf, Distinct,
      AllReferences, RawValue;
    UnfoldTopLevel(g, content);
    var n, saved := |content| / 2, Saved(g, content, encoded);
    var ts := Trees(saved);
    SavedIsUnanchored(g, next, content, encoded);
    NoneReferIff(ts);
    WholeTrees(saved);
    forall i | 0 <= i < n && !Skipped(g, content, i)
      ensures SectionAt(g, content, i) in saved
      ensures Whole(SectionAt(g, content, i)) <==> !CyclicAt(g, content[2 * i]) && !CyclicAt(g, content[2 * i + 1])
    {
      InCaptured(g, content, n, SectionAt(g, content, i));
      assert content[2 * i] in content && content[2 * i + 1] in content;
      WholeIffAcyclic(g, content[2 * i]);
      WholeIffAcyclic(g, content[2 * i + 1]);
    }
    forall s | s in saved && s !in encoded
      ensures exists i | 0 <= i < n :: !Skipped(g, content, i) && s == SectionAt(g, content, i)
    {
      InCaptured(g, content, n, s);
    }
  }

  lemma WholeTrees(sections: seq<Section>)
    ensures (forall t | t in Trees(sections) :: SelfContained(t)) <==> forall s | s in sections :: Whole(s)
  {
    hide SelfContained;
    var ts := Trees(sections);
    if forall t | t in ts :: SelfContained(t) {
      forall s | s in sections ensures Whole(s) {
        var i :| 0 <= i < |sections| && sections[i] == s;
        assert ts[2 * i] in ts && ts[2 * i + 1] in ts;
      }
    }
    if forall s | s in sections :: Whole(s) {
      forall t | t in ts ensures SelfContained(t) {
        var k :| 0 <= k < |ts| && ts[k] == t;
        assert sections[k / 2] in sections;
      }
    }
  }

  /** Where the document's anchor names are distinct, the written file parses exactly when every alias
      inside a node that is left as a reference refers into that node or into one written before it. */
  lemma SavedParsesIffInward(g: Graph, next: Id, content: seq<Option<Id>>, encoded: seq<Section>)
    requires Document(g, next, content) && Encoded(encoded) && Orderly(g, next)
    ensures Writable(g, next, Saved(g, content, encoded))
    ensures var saved := Saved(g, content, encoded); var ids := AllReferences(Trees(saved));
      && Nodes(g, ids)
      && (ParseAll(START, Written(g, next, saved)).Some? <==>
          forall k, a, t | 0 <= k < |ids| && Contains(g, next, ids[k], a) && Refers(g, a, t) ::
            exists j | 0 <= j <= k :: Contains(g, next, ids[j], t))
      && (ParseAll(START, Written(g, next, saved)).Some? <==> ResolvesAfter([], FileMarks(g, next, saved)))
  {
    hide Captured, ParseAll, LoadsAfter, ResolvesAfter, TopLevel, OnePlace, AtTop, Orderly, TreesText, MarksOf,
      AllReferences, Contains, Encoded;
    UnfoldTopLevel(g, content);
    SavedParsesIff(g, next, content, encoded);
    var saved := Saved(g, content, encoded);
    var ids := AllReferences(Trees(saved));
    AllReferencesIn(g, Trees(saved));
    LoadsIsResolves(g, next, ids);
    ResolvesIffInward(g, next, ids);
  }
}

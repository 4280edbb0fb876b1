/** Anchors and aliases in the written client config file (client/config/config.go): what inlining
    left as references into the old document is written with its anchors, and its aliases by name. */
module YamlNames {
  import opened Basics
  import opened YamlInline
  import opened YamlText

  // ----- the anchors and aliases of a text, in the order they stand -----

  /** An anchor and the node that carries it, or an alias and the node it refers to. */
  datatype Mark = Def(name: string, id: Id) | Use(name: string, id: Id)

  ghost function NodeMarks(g: Graph, next: Id, id: Id): seq<Mark>
    requires Numbered(g, next) && id in g
    decreases next - id, 0
  {
    match g[id]
    case Alias(name, target) => [Use(name, target.value)]
    case Content(_, anchor, content) =>
      (if anchor == "" then [] else [Def(anchor, id)]) + ContentMarks(g, next, id, content)
  }

  ghost function ContentMarks(g: Graph, next: Id, parent: Id, content: seq<Option<Id>>): seq<Mark>
    requires Numbered(g, next) && Below(g, parent, content)
    decreases next - parent - 1, |content| + 1
  {
    if content == [] then []
    else
      var c := content[|content| - 1];
      assert c in content;
      ContentMarks(g, next, parent, content[..|content| - 1]) + if c.None? then [] else NodeMarks(g, next, c.value)
  }

  /** Copies carry no anchor. */
  predicate Unanchored(t: Tree) {
    t.Clone? ==> t.anchor == "" && forall c | c in t.content :: Unanchored(c)
  }

  /** The nodes of the old document that a tree is written with, in order. */
  function References(t: Tree): seq<Id>
    decreases t, 1
  {
    match t
    case Nil => []
    case Shared(id) => [id]
    case Clone(_, _, content) => AllReferences(content)
  }

  function AllReferences(ts: seq<Tree>): seq<Id>
    decreases ts, 0
  {
    if ts == [] then [] else AllReferences(ts[..|ts| - 1]) + References(ts[|ts| - 1])
  }

  ghost predicate Nodes(g: Graph, ids: seq<Id>) { forall id | id in ids :: id in g }

  ghost function MarksOf(g: Graph, next: Id, ids: seq<Id>): seq<Mark>
    requires Numbered(g, next) && Nodes(g, ids)
  {
    if ids == [] then [] else MarksOf(g, next, ids[..|ids| - 1]) + NodeMarks(g, next, ids[|ids| - 1])
  }

  lemma {:induction false} MarksConcat(g: Graph, next: Id, a: seq<Id>, b: seq<Id>)
    requires Numbered(g, next) && Nodes(g, a) && Nodes(g, b)
    ensures Nodes(g, a + b) && MarksOf(g, next, a + b) == MarksOf(g, next, a) + MarksOf(g, next, b)
  {
    hide NodeMarks, Numbered;
    if b == [] {
      assert a + b == a;
    } else {
      assert (a + b)[..|a + b| - 1] == a + b[..|b| - 1];
      MarksConcat(g, next, a, b[..|b| - 1]);
    }
  }

  // ----- what names stand for -----

  /** The node of the last anchor of this name. */
  function LastDef(marks: seq<Mark>, name: string): Option<Id> {
    if marks == [] then None
    else
      var m := marks[|marks| - 1];
      if m.Def? && m.name == name then Some(m.id) else LastDef(marks[..|marks| - 1], name)
  }

  /** After what stands before, every alias has an anchor of its name. */
  ghost predicate LoadsAfter(before: seq<Mark>, marks: seq<Mark>) {
    forall i | 0 <= i < |marks| && marks[i].Use? :: LastDef(before + marks[..i], marks[i].name).Some?
  }

  /** And that anchor is on the node the alias refers to. */
  ghost predicate ResolvesAfter(before: seq<Mark>, marks: seq<Mark>) {
    forall i | 0 <= i < |marks| && marks[i].Use? :: LastDef(before + marks[..i], marks[i].name) == Some(marks[i].id)
  }

  lemma ResolvesConcat(before: seq<Mark>, a: seq<Mark>, b: seq<Mark>)
    ensures LoadsAfter(before, a + b) <==> LoadsAfter(before, a) && LoadsAfter(before + a, b)
    ensures ResolvesAfter(before, a + b) <==> ResolvesAfter(before, a) && ResolvesAfter(before + a, b)
  {
    hide LastDef;
    var c := a + b;
    forall i | 0 <= i < |a| ensures c[i] == a[i] && c[..i] == a[..i] {}
    forall i | 0 <= i < |b| ensures c[|a| + i] == b[i] && before + c[..|a| + i] == before + a + b[..i] {
      assert c[..|a| + i] == a + b[..i];
    }
    if LoadsAfter(before, c) {
      forall i | 0 <= i < |b| && b[i].Use?
        ensures LastDef(before + a + b[..i], b[i].name).Some?
      {
        assert c[|a| + i].Use?;
      }
      forall i | 0 <= i < |a| && a[i].Use? ensures LastDef(before + a[..i], a[i].name).Some? { assert c[i].Use?; }
    }
    if ResolvesAfter(before, c) {
      forall i | 0 <= i < |b| && b[i].Use? ensures LastDef(before + a + b[..i], b[i].name) == Some(b[i].id) {
        assert c[|a| + i].Use?;
      }
      forall i | 0 <= i < |a| && a[i].Use?
        ensures LastDef(before + a[..i], a[i].name) == Some(a[i].id)
      {
        assert c[i].Use?;
      }
    }
    forall i | |a| <= i < |c| ensures c[i] == b[i - |a|] && before + c[..i] == before + a + b[..i - |a|] {
      assert c[|a| + (i - |a|)] == b[i - |a|];
    }
  }

  lemma ResolvesLoads(before: seq<Mark>, marks: seq<Mark>)
    requires ResolvesAfter(before, marks)
    ensures LoadsAfter(before, marks)
  {
  }

  lemma LastDefSnoc(marks: seq<Mark>, m: Mark, name: string)
    ensures LastDef(marks + [m], name) == if m.Def? && m.name == name then Some(m.id) else LastDef(marks, name)
  {
    assert (marks + [m])[..|marks|] == marks;
  }

  // ----- when the written text can be parsed -----

  ghost predicate SameNames(env: map<string, Id>, before: seq<Mark>) {
    forall name :: name in env <==> LastDef(before, name).Some?
  }

  ghost predicate ParsesAs(st: Parser, s: Text, before: seq<Mark>, marks: seq<Mark>) {
    && (Parse(st, s).Some? <==> LoadsAfter(before, marks))
    && (Parse(st, s).Some? ==> SameNames(Parse(st, s).value.0.env, before + marks))
  }

  ghost predicate AllParseAs(st: Parser, ss: seq<Text>, before: seq<Mark>, marks: seq<Mark>) {
    && (ParseAll(st, ss).Some? <==> LoadsAfter(before, marks))
    && (ParseAll(st, ss).Some? ==> SameNames(ParseAll(st, ss).value.0.env, before + marks))
  }

  lemma NoneParse(st: Parser, before: seq<Mark>)
    requires SameNames(st.env, before)
    ensures AllParseAs(st, [], before, [])
  {
    assert before + [] == before;
  }

  lemma OneMore(st: Parser, ss: seq<Text>, s: Text, before: seq<Mark>, a: seq<Mark>, b: seq<Mark>)
    requires AllParseAs(st, ss, before, a)
    requires ParseAll(st, ss).Some? ==> ParsesAs(ParseAll(st, ss).value.0, s, before + a, b)
    ensures AllParseAs(st, ss + [s], before, a + b)
  {
    hide Parse, SameNames, LoadsAfter;
    assert (ss + [s])[..|ss|] == ss;
    ResolvesConcat(before, a, b);
    assert before + (a + b) == before + a + b;
  }

  lemma WrapParse(st: Parser, payload: Payload, anchor: string, content: seq<Text>, id: Id, before: seq<Mark>,
                  marks: seq<Mark>)
    requires SameNames(st.env, before)
    requires var own := if anchor == "" then [] else [Def(anchor, id)];
      var inside := Parser(st.g, st.next + 1, if anchor == "" then st.env else st.env[anchor := st.next]);
      SameNames(inside.env, before + own) ==> AllParseAs(inside, content, before + own, marks)
    ensures ParsesAs(st, Item(payload, anchor, content), before,
                     (if anchor == "" then [] else [Def(anchor, id)]) + marks)
  {
    hide ParseAll, Parse, SameNames, LoadsAfter;
    var own := if anchor == "" then [] else [Def(anchor, id)];
    OwnName(st, anchor, id, before);
    ItemParses(st, payload, anchor, content);
    ResolvesConcat(before, own, marks);
    assert before + (own + marks) == before + own + marks;
  }

  lemma ItemParses(st: Parser, payload: Payload, anchor: string, content: seq<Text>)
    ensures var inside := Parser(st.g, st.next + 1, if anchor == "" then st.env else st.env[anchor := st.next]);
      var r, all := Parse(st, Item(payload, anchor, content)), ParseAll(inside, content);
      (r.Some? <==> all.Some?) && (r.Some? ==> r.value.0.env == all.value.0.env)
  {
    hide ParseAll;
  }

  lemma OwnName(st: Parser, anchor: string, id: Id, before: seq<Mark>)
    requires SameNames(st.env, before)
    ensures var own := if anchor == "" then [] else [Def(anchor, id)];
      SameNames(if anchor == "" then st.env else st.env[anchor := st.next], before + own) && LoadsAfter(before, own)
  {
    if anchor == "" {
      assert before + [] == before;
    } else {
      forall name ensures name in st.env[anchor := st.next] <==> LastDef(before + [Def(anchor, id)], name).Some? {
        LastDefSnoc(before, Def(anchor, id), name);
      }
    }
  }

  lemma {:induction false} NodeParses(g: Graph, next: Id, id: Id, st: Parser, before: seq<Mark>)
    requires Numbered(g, next) && id in g && SameNames(st.env, before)
    ensures ParsesAs(st, NodeText(g, next, id), before, NodeMarks(g, next, id))
    decreases next - id, 0
  {
    hide SameNames, LoadsAfter, ParseAll;
    match g[id]
    case Alias(name, target) =>
      AliasParses(st, name, target.value, before);
    case Content(payload, anchor, content) =>
      var own := if anchor == "" then [] else [Def(anchor, id)];
      var inside := Parser(st.g, st.next + 1, if anchor == "" then st.env else st.env[anchor := st.next]);
      if SameNames(inside.env, before + own) { ContentParses(g, next, id, content, inside, before + own); }
      WrapParse(st, payload, anchor, ContentText(g, next, id, content), id, before, ContentMarks(g, next, id, content));
  }

  lemma AliasParses(st: Parser, name: string, id: Id, before: seq<Mark>)
    requires SameNames(st.env, before)
    ensures ParsesAs(st, Ref(name), before, [Use(name, id)])
  {
    var marks := [Use(name, id)];
    assert before + marks[..0] == before;
    forall x ensures LastDef(before + marks, x) == LastDef(before, x) { LastDefSnoc(before, marks[0], x); }
  }

  lemma {:induction false} ContentParses(g: Graph, next: Id, parent: Id, content: seq<Option<Id>>, st: Parser,
                                         before: seq<Mark>)
    requires Numbered(g, next) && Below(g, parent, content) && SameNames(st.env, before)
    ensures AllParseAs(st, ContentText(g, next, parent, content), before, ContentMarks(g, next, parent, content))
    decreases next - parent - 1, |content| + 1
  {
    hide SameNames, LoadsAfter, ParseAll, Parse, NodeText, NodeMarks;
    if content == [] {
      NoneParse(st, before);
    } else {
      var init, c := content[..|content| - 1], content[|content| - 1];
      assert c in content;
      ContentParses(g, next, parent, init, st, before);
      var ss, a := ContentText(g, next, parent, init), ContentMarks(g, next, parent, init);
      if ParseAll(st, ss).Some? {
        var mid := ParseAll(st, ss).value.0;
        if c.None? { NullParses(mid, before + a); } else { NodeParses(g, next, c.value, mid, before + a); }
      }
      OneMore(st, ss, if c.None? then Null else NodeText(g, next, c.value), before, a,
              if c.None? then [] else NodeMarks(g, next, c.value));
    }
  }

  lemma NullParses(st: Parser, before: seq<Mark>)
    requires SameNames(st.env, before)
    ensures ParsesAs(st, Null, before, [])
  {
    assert before + [] == before;
  }

  lemma {:induction false} ReferencesIn(g: Graph, t: Tree)
    requires SharedIn(g, t)
    ensures Nodes(g, References(t))
    decreases t, 1
  {
    if t.Clone? { AllReferencesIn(g, t.content); }
  }

  lemma {:induction false} AllReferencesIn(g: Graph, ts: seq<Tree>)
    requires SharedInAll(g, ts)
    ensures Nodes(g, AllReferences(ts))
    decreases ts, 0
  {
    if ts != [] {
      assert forall t | t in ts[..|ts| - 1] :: t in ts;
      AllReferencesIn(g, ts[..|ts| - 1]);
      ReferencesIn(g, ts[|ts| - 1]);
    }
  }

  lemma {:induction false} TreeParses(g: Graph, next: Id, t: Tree, st: Parser, before: seq<Mark>)
    requires Numbered(g, next) && SharedIn(g, t) && Unanchored(t) && SameNames(st.env, before)
    ensures Nodes(g, References(t))
    ensures ParsesAs(st, TreeText(g, next, t), before, MarksOf(g, next, References(t)))
    decreases t, 1
  {
    hide SameNames, LoadsAfter, ParseAll;
    ReferencesIn(g, t);
    match t
    case Nil => NullParses(st, before);
    case Shared(id) =>
      NodeParses(g, next, id, st, before);
      assert [id][..0] == [] && MarksOf(g, next, [id]) == NodeMarks(g, next, id);
    case Clone(payload, anchor, content) =>
      var inside := Parser(st.g, st.next + 1, st.env);
      assert before + [] == before;
      TreesParse(g, next, content, inside, before);
      WrapParse(st, payload, "", TreesText(g, next, content), 0, before, MarksOf(g, next, AllReferences(content)));
      assert [] + MarksOf(g, next, References(t)) == MarksOf(g, next, References(t));
  }

  lemma {:induction false} TreesParse(g: Graph, next: Id, ts: seq<Tree>, st: Parser, before: seq<Mark>)
    requires Numbered(g, next) && SharedInAll(g, ts) && (forall t | t in ts :: Unanchored(t))
    requires SameNames(st.env, before)
    ensures Nodes(g, AllReferences(ts))
    ensures AllParseAs(st, TreesText(g, next, ts), before, MarksOf(g, next, AllReferences(ts)))
    decreases ts, 0
  {
    hide SameNames, LoadsAfter, ParseAll, Parse, TreeText, Numbered, SharedIn, Unanchored;
    AllReferencesIn(g, ts);
    if ts == [] {
      NoneParse(st, before);
    } else {
      var init, t := ts[..|ts| - 1], ts[|ts| - 1];
      assert forall x | x in init :: x in ts;
      TreesParse(g, next, init, st, before);
      var ss, a := TreesText(g, next, init), MarksOf(g, next, AllReferences(init));
      ReferencesIn(g, t);
      MarksConcat(g, next, AllReferences(init), References(t));
      if ParseAll(st, ss).Some? { TreeParses(g, next, t, ParseAll(st, ss).value.0, before + a); }
      OneMore(st, ss, TreeText(g, next, t), before, a, MarksOf(g, next, References(t)));
    }
  }

  /** The written text parses exactly when every alias in the nodes left as references has an anchor
      of its name before it, in those nodes. */
  lemma ParsesIff(g: Graph, next: Id, ts: seq<Tree>)
    requires Numbered(g, next) && SharedInAll(g, ts) && forall t | t in ts :: Unanchored(t)
    ensures Nodes(g, AllReferences(ts))
    ensures ParseAll(START, TreesText(g, next, ts)).Some? <==> LoadsAfter([], MarksOf(g, next, AllReferences(ts)))
  {
    hide LoadsAfter, ParseAll, TreesText;
    assert SameNames(START.env, []);
    TreesParse(g, next, ts, START, []);
  }
}

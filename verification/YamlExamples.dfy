/** Client config files on which saving and loading (client/config/config.go) goes wrong. */
module YamlExamples {
  import opened Basics
  import opened YamlInline
  import opened YamlSections
  import opened YamlText
  import opened YamlNames
  import opened YamlReload
  import opened YamlMeaning

  const STR := (v: string) => Payload(Scalar, "!!str", v, "")
  const LIST := Payload(Sequence, "!!seq", "", "")
  const MAP := Payload(Mapping, "!!map", "", "")

  function Word(v: string, anchor: string): Node { Content(STR(v), anchor, []) }
  function Leaf(v: string): Tree { Clone(STR(v), "", []) }
  function Pair(anchor: string, x: Id, y: Id): Node { Content(LIST, anchor, [Some(x), Some(y)]) }

  // ----- alias keys -----

  /** `a: &anchor value` and `*anchor : {}`. */
  function AliasKeyDoc(value: string, anchor: string): Graph {
    map[0 := Word("a", ""), 1 := Word(value, anchor), 2 := Alias(anchor, Some(1)), 3 := Content(MAP, "", [])]
  }

  const FOUR: seq<Option<Id>> := [Some(0), Some(1), Some(2), Some(3)]

  lemma AliasKeyReads(value: string, anchor: string)
    ensures var g := AliasKeyDoc(value, anchor);
      && TopLevel(g, FOUR) && RawValue(g, FOUR[0]) == "a" && RawValue(g, FOUR[2]) == anchor
      && IdOf(SectionAt(g, FOUR, 1).key) == Plain(Scalar, value) && KeyOf(SectionAt(g, FOUR, 1).key) == value
  {
    var g := AliasKeyDoc(value, anchor);
    assert g[0].Content? && g[1].Content? && g[2].Alias? && g[3].Content?;
    assert Parsed(g);
    KeyOfSection(g, FOUR, 1);
  }

  lemma CapturedTwo(g: Graph)
    requires TopLevel(g, FOUR) && RawValue(g, FOUR[0]) !in KNOWN
    ensures Captured(g, FOUR, 2) ==
      if RawValue(g, FOUR[2]) in KNOWN then [SectionAt(g, FOUR, 0)] else [SectionAt(g, FOUR, 0), SectionAt(g, FOUR, 1)]
  {
    hide SectionAt, RawValue;
    CapturedSteps(g, FOUR, 0);
    CapturedSteps(g, FOUR, 1);
    CapturedSteps(g, FOUR, 2);
  }

  /** With `a: &contexts x` the second section reads as x, which is not a known key, and is lost. */
  lemma AliasKeyLosesSection()
    ensures var g := AliasKeyDoc("x", "contexts");
      && TopLevel(g, FOUR) && KeyOf(SectionAt(g, FOUR, 1).key) == "x"
      && Captured(g, FOUR, 2) == [SectionAt(g, FOUR, 0)]
  {
    hide SectionAt, AliasKeyDoc, RawValue, KeyOf, IdOf;
    AliasKeyReads("x", "contexts");
    CapturedTwo(AliasKeyDoc("x", "contexts"));
  }

  /** With `a: &b contexts` the second section reads as contexts and is kept as unknown, beside the
      contexts section that the encoder writes. */
  lemma AliasKeyIsDoubled(encoded: seq<Section>)
    requires Plain(Scalar, "contexts") in Ids(encoded)
    ensures var g := AliasKeyDoc("contexts", "b");
      TopLevel(g, FOUR) && !Distinct(Ids(encoded + Captured(g, FOUR, 2)))
  {
    hide SectionAt, AliasKeyDoc, RawValue, KeyOf, IdOf, TopLevel;
    AliasKeyReads("contexts", "b");
    var g := AliasKeyDoc("contexts", "b");
    UnfoldTopLevel(g, FOUR);
    CapturedTwo(g);
    var kept := Captured(g, FOUR, 2);
    var i :| 0 <= i < |encoded| && Ids(encoded)[i] == Plain(Scalar, "contexts");
    assert Ids(encoded + kept)[i] == Ids(encoded + kept)[|encoded| + 1];
  }

  /** `k: &x a`, `a: {}` and `*x : {}`: the decoder sees three keys, the written file has a twice. */
  function RepeatDoc(): Graph {
    map[0 := Word("k", ""), 1 := Word("a", "x"), 2 := Word("a", ""), 3 := Content(MAP, "", []),
        4 := Alias("x", Some(1)), 5 := Content(MAP, "", [])]
  }

  const SIX: seq<Option<Id>> := [Some(0), Some(1), Some(2), Some(3), Some(4), Some(5)]

  lemma RepeatDocReads()
    ensures TopLevel(RepeatDoc(), SIX)
    ensures RawValue(RepeatDoc(), SIX[2]) == "a" && RawValue(RepeatDoc(), SIX[4]) == "x"
    ensures RawKey(RepeatDoc(), Read(RepeatDoc(), SIX[2])) == RawKey(RepeatDoc(), Read(RepeatDoc(), SIX[4]))
  {
    var g := RepeatDoc();
    assert g[0].Content? && g[1].Content? && g[2].Content? && g[3].Content? && g[4].Alias? && g[5].Content?;
    assert Parsed(g);
  }

  lemma AliasKeyRepeats()
    ensures TopLevel(RepeatDoc(), SIX) && !Distinct(Ids(Captured(RepeatDoc(), SIX, 3)))
  {
    hide RepeatDoc, SectionAt, RawKey, RawValue, IdOf, Captured, TopLevel;
    RepeatDocReads();
    var g := RepeatDoc();
    UnfoldTopLevel(g, SIX);
    KeyOfSection(g, SIX, 1);
    KeyOfSection(g, SIX, 2);
    KeptIdsDistinct(g, SIX);
    assert !Skipped(g, SIX, 1) && !Skipped(g, SIX, 2);
  }

  // ----- steps of inlining, writing and parsing -----

  lemma InlineWord(g: Graph, id: Id, v: string, anchor: string, visiting: set<Id>)
    requires Closed(g) && id in g && g[id] == Word(v, anchor) && id !in visiting
    ensures Inline(g, Some(id), visiting) == Leaf(v)
  {
  }

  lemma InlinePair(g: Graph, id: Id, anchor: string, x: Id, y: Id, visiting: set<Id>)
    requires Closed(g) && id in g && g[id] == Pair(anchor, x, y) && id !in visiting
    ensures x in g && y in g
    ensures var more := visiting + {id};
      Inline(g, Some(id), visiting) == Clone(LIST, "", [Inline(g, Some(x), more), Inline(g, Some(y), more)])
  {
    assert Some(x) in g[id].content && Some(y) in g[id].content;
    var more := visiting + {id};
    assert InlineAll(g, g[id].content, more) == [Inline(g, Some(x), more), Inline(g, Some(y), more)];
  }

  lemma InlineAlias(g: Graph, id: Id, name: string, target: Id, visiting: set<Id>)
    requires Closed(g) && id in g && g[id] == Alias(name, Some(target)) && id !in visiting
    ensures target in g && Inline(g, Some(id), visiting) == Inline(g, Some(target), visiting + {id})
  {
  }

  /** A list that begins with an alias to itself. */
  lemma InlineLoop(g: Graph, id: Id, anchor: string, self: Id, other: Id, visiting: set<Id>)
    requires Closed(g) && id in g && g[id] == Pair(anchor, self, other) && self in g
    requires g[self] == Alias(anchor, Some(id))
    requires id !in visiting && self !in visiting && self != id
    ensures other in g && Inline(g, Some(id), visiting)
         == Clone(LIST, "", [Shared(id), Inline(g, Some(other), visiting + {id})])
  {
    InlinePair(g, id, anchor, self, other, visiting);
    InlineAlias(g, self, anchor, id, visiting + {id});
  }

  lemma PairText(g: Graph, next: Id, id: Id, anchor: string, x: Id, y: Id)
    requires Numbered(g, next) && id in g && g[id] == Pair(anchor, x, y)
    ensures x in g && y in g
    ensures NodeText(g, next, id) == Item(LIST, anchor, [NodeText(g, next, x), NodeText(g, next, y)])
    ensures NodeMarks(g, next, id) ==
      (if anchor == "" then [] else [Def(anchor, id)]) + (NodeMarks(g, next, x) + NodeMarks(g, next, y))
  {
    var content: seq<Option<Id>> := g[id].content;
    assert Some(x) in content && Some(y) in content;
    var one: seq<Option<Id>> := content[..1];
    assert one == [Some(x)] && one[..0] == [];
    assert ContentText(g, next, id, one) == [NodeText(g, next, x)];
    assert ContentText(g, next, id, content) == [NodeText(g, next, x), NodeText(g, next, y)];
    assert ContentMarks(g, next, id, one) == NodeMarks(g, next, x);
  }

  lemma WordText(g: Graph, next: Id, id: Id, v: string, anchor: string)
    requires Numbered(g, next) && id in g && g[id] == Word(v, anchor)
    ensures NodeText(g, next, id) == Item(STR(v), anchor, [])
    ensures NodeMarks(g, next, id) == if anchor == "" then [] else [Def(anchor, id)]
  {
  }

  lemma AliasText(g: Graph, next: Id, id: Id, name: string, target: Id)
    requires Numbered(g, next) && id in g && g[id] == Alias(name, Some(target))
    ensures NodeText(g, next, id) == Ref(name) && NodeMarks(g, next, id) == [Use(name, target)]
  {
  }

  lemma TreesTextTwo(g: Graph, next: Id, a: Tree, b: Tree)
    requires Numbered(g, next) && SharedIn(g, a) && SharedIn(g, b)
    ensures SharedInAll(g, [a, b]) && TreesText(g, next, [a, b]) == [TreeText(g, next, a), TreeText(g, next, b)]
  {
    hide TreeText, Numbered, SharedIn;
    assert [a, b][..1] == [a] && [a][..0] == [];
    assert TreesText(g, next, [a]) == [TreeText(g, next, a)];
  }

  lemma ParseWord(st: Parser, v: string, anchor: string)
    ensures Parse(st, Item(STR(v), anchor, [])) ==
      Some((Parser(st.g[st.next := Word(v, anchor)], st.next + 1,
                   if anchor == "" then st.env else st.env[anchor := st.next]),
            Some(st.next)))
  {
    assert ParseAll(st, []) == Some((st, []));
  }

  lemma ParsePair(st: Parser, anchor: string, x: Text, y: Text, mid: Parser, first: Option<Id>, after: Parser,
                  second: Option<Id>)
    requires Parse(Inside(st, anchor), x) == Some((mid, first)) && Parse(mid, y) == Some((after, second))
    ensures Parse(st, Item(LIST, anchor, [x, y])) ==
      Some((Parser(after.g[st.next := Content(LIST, anchor, [first, second])], after.next, after.env), Some(st.next)))
  {
    hide Parse;
    ParseTwo(Inside(st, anchor), x, y, mid, first, after, second);
    ParseItem(st, LIST, anchor, [x, y], after, [first, second]);
  }

  lemma ParseSnoc(st: Parser, ss: seq<Text>, s: Text, mid: Parser, refs: seq<Option<Id>>, after: Parser,
                  ref: Option<Id>)
    requires ParseAll(st, ss) == Some((mid, refs)) && Parse(mid, s) == Some((after, ref))
    ensures ParseAll(st, ss + [s]) == Some((after, refs + [ref]))
  {
    hide Parse;
    assert (ss + [s])[..|ss|] == ss;
  }

  lemma ParseTwo(st: Parser, x: Text, y: Text, mid: Parser, first: Option<Id>, after: Parser, second: Option<Id>)
    requires Parse(st, x) == Some((mid, first)) && Parse(mid, y) == Some((after, second))
    ensures ParseAll(st, [x, y]) == Some((after, [first, second]))
  {
    hide Parse;
    ParseSnoc(st, [], x, st, [], mid, first);
    assert [] + [x] == [x] && [] + [first] == [first];
    ParseSnoc(st, [x], y, mid, [first], after, second);
    assert [x] + [y] == [x, y] && [first] + [second] == [first, second];
  }

  lemma ParseItem(st: Parser, payload: Payload, anchor: string, content: seq<Text>, after: Parser,
                  refs: seq<Option<Id>>)
    requires ParseAll(Inside(st, anchor), content) == Some((after, refs))
    ensures Parse(st, Item(payload, anchor, content)) ==
      Some((Parser(after.g[st.next := Content(payload, anchor, refs)], after.next, after.env), Some(st.next)))
  {
    hide ParseAll;
  }

  /** `[&name [*name, x], v]`: how a list that begins with an alias to itself is written. */
  function Nest(name: string, x: Text, v: string): Text {
    Item(LIST, "", [Item(LIST, name, [Ref(name), x]), Item(STR(v), "", [])])
  }

  function NestInside(st: Parser, name: string): Parser {
    var n := st.next;
    Parser(st.g[n + 2 := Alias(name, Some(n + 1))], n + 3, st.env[name := n + 1])
  }

  /** The state after a nest, given the state after x. */
  function Nested(st: Parser, name: string, after: Parser, ref: Option<Id>, v: string): Parser {
    var n := st.next;
    Parser(after.g[n + 1 := Content(LIST, name, [Some(n + 2), ref])][after.next := Word(v, "")]
                  [n := Pair("", n + 1, after.next)],
           after.next + 1, after.env)
  }

  lemma ParseNest(st: Parser, name: string, x: Text, v: string, after: Parser, ref: Option<Id>)
    requires name != "" && Parse(NestInside(st, name), x) == Some((after, ref))
    ensures Parse(st, Nest(name, x, v)) == Some((Nested(st, name, after, ref, v), Some(st.next)))
  {
    hide Parse;
    var n, inside := st.next, Inside(st, "");
    ParseRef(Inside(inside, name), name);
    ParsePair(inside, name, Ref(name), x, NestInside(st, name), Some(n + 2), after, ref);
    var inner := Parser(after.g[n + 1 := Content(LIST, name, [Some(n + 2), ref])], after.next, after.env);
    ParseWord(inner, v, "");
    var last := Parser(inner.g[inner.next := Word(v, "")], inner.next + 1, inner.env);
    ParsePair(st, "", Item(LIST, name, [Ref(name), x]), Item(STR(v), "", []),
              inner, Some(n + 1), last, Some(after.next));
  }

  lemma ParseRef(st: Parser, name: string)
    requires name in st.env
    ensures Parse(st, Ref(name)) ==
      Some((Parser(st.g[st.next := Alias(name, Some(st.env[name]))], st.next + 1, st.env), Some(st.next)))
  {
  }

  /** The tree of a list that begins with an alias to itself. */
  function Loop(id: Id, v: string): Tree { Clone(LIST, "", [Shared(id), Leaf(v)]) }

  lemma LoopText(g: Graph, next: Id, id: Id, name: string, self: Id, other: Id, v: string)
    requires Numbered(g, next) && id in g && g[id] == Pair(name, self, other) && self in g
    requires g[self] == Alias(name, Some(id))
    ensures other in g && SharedIn(g, Loop(id, v))
    ensures TreeText(g, next, Loop(id, v)) == Nest(name, NodeText(g, next, other), v)
  {
    PairText(g, next, id, name, self, other);
    AliasText(g, next, self, name, id);
    TreesTextTwo(g, next, Shared(id), Leaf(v));
    assert TreeText(g, next, Leaf(v)) == Item(STR(v), "", []);
  }

  // ----- a cycle grows -----

  /** `s: &a [*a, v]`. */
  function LoopDoc(): Graph {
    map[0 := Word("s", ""), 1 := Pair("a", 2, 3), 2 := Alias("a", Some(1)), 3 := Word("v", "")]
  }

  lemma LoopDocReads()
    ensures Document(LoopDoc(), 4, [Some(0), Some(1)]) && RawValue(LoopDoc(), Some(0)) == "s"
  {
    var g := LoopDoc();
    assert g[0].Content? && g[1].Content? && g[2].Alias? && g[3].Content?;
    assert Parsed(g);
    forall p, c | Holds(g, p, c) ensures p == 1 && (c == 2 || c == 3) {}
  }

  lemma CapturedOne(g: Graph, refs: seq<Option<Id>>)
    requires Refs(g, refs) && |refs| == 2 && RawValue(g, refs[0]) == "s"
    ensures Captured(g, refs, 1) == [Section(Inline(g, refs[0], {}), Inline(g, refs[1], {}))]
  {
    hide Inline, RawValue;
    CapturedSteps(g, refs, 0);
    CapturedSteps(g, refs, 1);
  }

  lemma LoopCaptured()
    ensures Refs(LoopDoc(), [Some(0), Some(1)])
    ensures Captured(LoopDoc(), [Some(0), Some(1)], 1) == [Section(Leaf("s"), Loop(1, "v"))]
  {
    LoopDocReads();
    var g := LoopDoc();
    InlineWord(g, 0, "s", "", {});
    InlineLoop(g, 1, "a", 2, 3, {});
    InlineWord(g, 3, "v", "", {} + {1});
    CapturedOne(g, [Some(0), Some(1)]);
  }

  /** `s: [&a [*a, v], v]`, as it is read. */
  function LoopAgain(): Graph {
    map[0 := Word("s", ""), 3 := Alias("a", Some(2)), 4 := Word("v", ""), 2 := Pair("a", 3, 4), 5 := Word("v", ""),
        1 := Pair("", 2, 5)]
  }

  lemma LoopParses()
    ensures ParseAll(START, [Item(STR("s"), "", []), Nest("a", Item(STR("v"), "", []), "v")])
         == Some((Parser(LoopAgain(), 6, map["a" := 2]), [Some(0), Some(1)]))
  {
    hide Parse;
    ParseWord(START, "s", "");
    var st := Parser(map[0 := Word("s", "")], 1, map[]);
    assert START.g[0 := Word("s", "")] == st.g;
    var inside := NestInside(st, "a");
    ParseWord(inside, "v", "");
    var after := Parser(inside.g[4 := Word("v", "")], 5, inside.env);
    ParseNest(st, "a", Item(STR("v"), "", []), "v", after, Some(4));
    var end := Nested(st, "a", after, Some(4), "v");
    ParseTwo(START, Item(STR("s"), "", []), Nest("a", Item(STR("v"), "", []), "v"), st, Some(0), end, Some(1));
    assert end == Parser(LoopAgain(), 6, map["a" := 2]);
  }

  lemma LoopAgainCaptured()
    ensures var h := LoopAgain(); Refs(h, [Some(0), Some(1)]) && NoKeyTwice(h, [Some(0), Some(1)])
    ensures Captured(LoopAgain(), [Some(0), Some(1)], 1)
         == [Section(Leaf("s"), Clone(LIST, "", [Loop(2, "v"), Leaf("v")]))]
  {
    var h := LoopAgain();
    assert h[0].Content? && h[1].Content? && h[2].Content? && h[3].Alias? && h[4].Content? && h[5].Content?;
    assert Closed(h);
    InlineWord(h, 0, "s", "", {});
    InlinePair(h, 1, "", 2, 5, {});
    InlineLoop(h, 2, "a", 3, 4, {} + {1});
    InlineWord(h, 4, "v", "", {} + {1} + {2});
    InlineWord(h, 5, "v", "", {} + {1});
    CapturedOne(h, [Some(0), Some(1)]);
  }

  /** Loading and saving `s: &a [*a, v]` once gives `s: [&a [*a, v], v]`, and so on. */
  lemma LoopGrows()
    ensures var g, content := LoopDoc(), [Some(0), Some(1)];
      && Document(g, 4, content) && Writable(g, 4, Captured(g, content, 1))
      && Captured(g, content, 1) == [Section(Leaf("s"), Loop(1, "v"))]
      && Load(Written(g, 4, Captured(g, content, 1)))
         == Some([Section(Leaf("s"), Clone(LIST, "", [Loop(2, "v"), Leaf("v")]))])
  {
    hide Captured, ParseAll, TreesText, TreeText, Inline, LoopAgain, Parse, Writable, NodeText, OnePlace, AtTop,
         TopLevel;
    var g, content := LoopDoc(), [Some(0), Some(1)];
    LoopDocReads();
    LoopCaptured();
    SavedNothingElse(g, 4, content);
    var kept := Captured(g, content, 1);
    assert Trees(kept) == [Leaf("s"), Loop(1, "v")];
    LoopText(g, 4, 1, "a", 2, 3, "v");
    WordText(g, 4, 3, "v", "");
    TreesTextTwo(g, 4, Leaf("s"), Loop(1, "v"));
    CopiedText(g, 4, "s");
    LoopParses();
    LoopAgainCaptured();
  }

  lemma CopiedText(g: Graph, next: Id, v: string)
    requires Numbered(g, next)
    ensures TreeText(g, next, Leaf(v)) == Item(STR(v), "", [])
  {
  }

  lemma SavedNothingElse(g: Graph, next: Id, content: seq<Option<Id>>)
    requires Document(g, next, content)
    ensures Saved(g, content, []) == Captured(g, content, |content| / 2) && Encoded([])
    ensures Writable(g, next, Captured(g, content, |content| / 2))
  {
    hide Captured, Document, Writable;
    assert Refs(g, content) by { DocumentRefs(g, next, content); }
    SavedIsWritable(g, next, content, []);
    assert [] + Captured(g, content, |content| / 2) == Captured(g, content, |content| / 2);
  }

  lemma DocumentRefs(g: Graph, next: Id, content: seq<Option<Id>>)
    requires Document(g, next, content)
    ensures Refs(g, content) && Numbered(g, next) && TopLevel(g, content)
  {
  }

  // ----- an alias out of a cycle -----

  /** `x: &b v` and `s: &a [*a, *b]`. */
  function OutwardDoc(): Graph {
    map[0 := Word("x", ""), 1 := Word("v", "b"), 2 := Word("s", ""), 3 := Pair("a", 4, 5),
        4 := Alias("a", Some(3)), 5 := Alias("b", Some(1))]
  }

  ghost predicate Outward(g: Graph) {
    && g.Keys == {0, 1, 2, 3, 4, 5} && g[0] == Word("x", "") && g[1] == Word("v", "b") && g[2] == Word("s", "")
    && g[3] == Pair("a", 4, 5) && g[4] == Alias("a", Some(3)) && g[5] == Alias("b", Some(1))
  }

  lemma OutwardNumbered(g: Graph)
    requires Outward(g)
    ensures Numbered(g, 6)
  {
    assert Parsed(g);
  }

  lemma OutwardPlaces(g: Graph)
    requires Outward(g)
    ensures OnePlace(g) && forall c | c in FOUR :: AtTop(g, c)
  {
    forall p, c | Holds(g, p, c) ensures p == 3 && (c == 4 || c == 5) {}
  }

  lemma OutwardTop(g: Graph)
    requires Outward(g)
    ensures TopLevel(g, FOUR) && RawValue(g, Some(0)) == "x" && RawValue(g, Some(2)) == "s"
  {
    hide Numbered;
    OutwardNumbered(g);
    assert Parsed(g) by { UnfoldNumbered(g, 6); }
  }

  lemma OutwardDocReads()
    ensures Outward(OutwardDoc()) && Document(OutwardDoc(), 6, FOUR)
    ensures RawValue(OutwardDoc(), Some(0)) == "x" && RawValue(OutwardDoc(), Some(2)) == "s"
  {
    hide Numbered, OnePlace, AtTop, TopLevel, RawValue;
    var g := OutwardDoc();
    assert Outward(g);
    OutwardNumbered(g);
    OutwardPlaces(g);
    OutwardTop(g);
  }

  lemma OutwardCaptured(g: Graph)
    requires Outward(g)
    ensures Refs(g, FOUR)
    ensures Captured(g, FOUR, 2) == [Section(Leaf("x"), Leaf("v")), Section(Leaf("s"), Loop(3, "v"))]
  {
    hide Inline, TopLevel, RawValue;
    OutwardTop(g);
    UnfoldTopLevel(g, FOUR);
    InlineWord(g, 0, "x", "", {});
    InlineWord(g, 1, "v", "b", {});
    InlineWord(g, 2, "s", "", {});
    OutwardLoop(g);
    CapturedTwo(g);
  }

  lemma OutwardLoop(g: Graph)
    requires Outward(g) && Closed(g)
    ensures Inline(g, Some(3), {}) == Loop(3, "v")
  {
    hide Inline;
    InlineLoop(g, 3, "a", 4, 5, {});
    InlineAlias(g, 5, "b", 1, {} + {3});
    InlineWord(g, 1, "v", "b", {} + {3} + {5});
  }

  lemma OutwardMarks(g: Graph)
    requires Outward(g) && Numbered(g, 6)
    ensures NodeMarks(g, 6, 3) == [Def("a", 3), Use("a", 3), Use("b", 1)]
  {
    hide NodeMarks, NodeText, Numbered;
    PairText(g, 6, 3, "a", 4, 5);
    AliasText(g, 6, 4, "a", 3);
    AliasText(g, 6, 5, "b", 1);
  }

  lemma LoopReferences(id: Id, v: string)
    ensures References(Loop(id, v)) == [id]
  {
    var ts := [Shared(id), Leaf(v)];
    assert ts[..1] == [Shared(id)] && ts[..1][..0] == [];
    assert References(Leaf(v)) == [] && AllReferences(ts[..1]) == [id];
  }

  lemma ReferencesSnoc(ts: seq<Tree>, t: Tree)
    ensures AllReferences(ts + [t]) == AllReferences(ts) + References(t)
  {
    assert (ts + [t])[..|ts|] == ts;
  }

  lemma CopiesHaveNone(a: string, b: string, c: string)
    ensures AllReferences([Leaf(a), Leaf(b), Leaf(c)]) == []
  {
    hide AllReferences;
    var none: seq<Tree> := [];
    assert AllReferences(none) == [] by { NoReferences(); }
    ReferencesSnoc(none, Leaf(a));
    ReferencesSnoc([Leaf(a)], Leaf(b));
    ReferencesSnoc([Leaf(a), Leaf(b)], Leaf(c));
    assert none + [Leaf(a)] == [Leaf(a)] && [Leaf(a)] + [Leaf(b)] == [Leaf(a), Leaf(b)];
    assert [Leaf(a), Leaf(b)] + [Leaf(c)] == [Leaf(a), Leaf(b), Leaf(c)];
    CopyHasNone(a);
    CopyHasNone(b);
    CopyHasNone(c);
  }

  lemma NoReferences()
    ensures AllReferences([]) == []
  {
  }

  lemma CopyHasNone(v: string)
    ensures References(Leaf(v)) == []
  {
  }

  /** The list keeps its alias to b, the anchor b is written nowhere, and the file cannot be parsed. */
  lemma OutwardAliasDangles()
    ensures var g := OutwardDoc();
      && Document(g, 6, FOUR) && Writable(g, 6, Captured(g, FOUR, 2))
      && FileMarks(g, 6, Captured(g, FOUR, 2)) == [Def("a", 3), Use("a", 3), Use("b", 1)]
      && ParseAll(START, Written(g, 6, Captured(g, FOUR, 2))).None?
  {
    hide Captured, Document, Writable, Written, OutwardDoc, FileMarks, LoadsAfter, ParseAll;
    OutwardDocReads();
    var g := OutwardDoc();
    OutwardCaptured(g);
    SavedNothingElse(g, 6, FOUR);
    SavedParsesIff(g, 6, FOUR, []);
    OutwardFile(g, Captured(g, FOUR, 2));
  }

  lemma OutwardFile(g: Graph, kept: seq<Section>)
    requires Outward(g) && Writable(g, 6, kept)
    requires kept == [Section(Leaf("x"), Leaf("v")), Section(Leaf("s"), Loop(3, "v"))]
    ensures FileMarks(g, 6, kept) == [Def("a", 3), Use("a", 3), Use("b", 1)] && !LoadsAfter([], FileMarks(g, 6, kept))
  {
    hide NodeMarks, AllReferences, References, Numbered, LastDef;
    OutwardNumbered(g);
    OutwardMarks(g);
    assert Trees(kept) == [Leaf("x"), Leaf("v"), Leaf("s")] + [Loop(3, "v")];
    CopiesHaveNone("x", "v", "s");
    LoopReferences(3, "v");
    ReferencesSnoc([Leaf("x"), Leaf("v"), Leaf("s")], Loop(3, "v"));
    OneNode(g, 6, 3);
    var marks := FileMarks(g, 6, kept);
    assert marks == [Def("a", 3), Use("a", 3), Use("b", 1)];
    assert marks[2].Use? && [] + marks[..2] == [Def("a", 3), Use("a", 3)];
    NoDefOfB();
  }

  lemma OneNode(g: Graph, next: Id, id: Id)
    requires Numbered(g, next) && id in g
    ensures MarksOf(g, next, [id]) == NodeMarks(g, next, id)
  {
    assert [id][..0] == [];
  }

  lemma NoDefOfB()
    ensures LastDef([Def("a", 3), Use("a", 3)], "b").None?
  {
    assert [Def("a", 3), Use("a", 3)][..1] == [Def("a", 3)] && [Def("a", 3)][..0] == [];
  }

  // ----- an alias that is read as another node -----

  /** `p: &c [*c, &b w]`, `x: &b v` and `s: &a [*a, *b]`. */
  function MisreadDoc(): Graph {
    map[0 := Word("p", ""), 1 := Pair("c", 2, 3), 2 := Alias("c", Some(1)), 3 := Word("w", "b"), 4 := Word("x", ""),
        5 := Word("v", "b"), 6 := Word("s", ""), 7 := Pair("a", 8, 9),
        8 := Alias("a", Some(7)), 9 := Alias("b", Some(5))]
  }

  ghost predicate Misread(g: Graph) {
    && g.Keys == {0, 1, 2, 3, 4, 5, 6, 7, 8, 9}
    && g[0] == Word("p", "") && g[1] == Pair("c", 2, 3) && g[2] == Alias("c", Some(1)) && g[3] == Word("w", "b")
    && g[4] == Word("x", "") && g[5] == Word("v", "b")
    && g[6] == Word("s", "") && g[7] == Pair("a", 8, 9) && g[8] == Alias("a", Some(7)) && g[9] == Alias("b", Some(5))
  }

  const TOP: seq<Option<Id>> := [Some(0), Some(1), Some(4), Some(5), Some(6), Some(7)]

  function MisreadSections(): seq<Section> {
    [Section(Leaf("p"), Loop(1, "w")), Section(Leaf("x"), Leaf("v")), Section(Leaf("s"), Loop(7, "v"))]
  }

  lemma MisreadNumbered(g: Graph)
    requires Misread(g)
    ensures Numbered(g, 10) && Closed(g)
  {
    assert Parsed(g);
  }

  lemma MisreadPlaces(g: Graph)
    requires Misread(g)
    ensures OnePlace(g) && forall c | c in TOP :: AtTop(g, c)
  {
    forall p, c | Holds(g, p, c) ensures (p == 1 && (c == 2 || c == 3)) || (p == 7 && (c == 8 || c == 9)) {}
  }

  lemma MisreadTop(g: Graph)
    requires Misread(g)
    ensures TopLevel(g, TOP) && RawValue(g, Some(0)) == "p" && RawValue(g, Some(4)) == "x"
    ensures RawValue(g, Some(6)) == "s"
  {
    hide Numbered, Closed;
    MisreadNumbered(g);
    assert Parsed(g) by { UnfoldNumbered(g, 10); }
  }

  lemma MisreadInlines(g: Graph)
    requires Misread(g) && Closed(g)
    ensures Inline(g, Some(0), {}) == Leaf("p") && Inline(g, Some(1), {}) == Loop(1, "w")
    ensures Inline(g, Some(4), {}) == Leaf("x") && Inline(g, Some(5), {}) == Leaf("v")
    ensures Inline(g, Some(6), {}) == Leaf("s") && Inline(g, Some(7), {}) == Loop(7, "v")
  {
    hide Inline;
    InlineWord(g, 0, "p", "", {});
    InlineLoop(g, 1, "c", 2, 3, {});
    InlineWord(g, 3, "w", "b", {} + {1});
    InlineWord(g, 4, "x", "", {});
    InlineWord(g, 5, "v", "b", {});
    InlineWord(g, 6, "s", "", {});
    InlineLoop(g, 7, "a", 8, 9, {});
    InlineAlias(g, 9, "b", 5, {} + {7});
    InlineWord(g, 5, "v", "b", {} + {7} + {9});
  }

  lemma MisreadCaptured(g: Graph)
    requires Misread(g)
    ensures Refs(g, TOP) && Captured(g, TOP, 3) == MisreadSections()
  {
    hide Inline, TopLevel, RawValue, Misread, Captured;
    MisreadTop(g);
    UnfoldTopLevel(g, TOP);
    MisreadInlines(g);
    CapturedSteps(g, TOP, 0);
    CapturedSteps(g, TOP, 1);
    CapturedSteps(g, TOP, 2);
    CapturedSteps(g, TOP, 3);
  }

  function MisreadFile(): seq<Text> {
    [Item(STR("p"), "", []), Nest("c", Item(STR("w"), "b", []), "w"), Item(STR("x"), "", []), Item(STR("v"), "", []),
     Item(STR("s"), "", []), Nest("a", Ref("b"), "v")]
  }

  lemma {:induction false} TextAt(g: Graph, next: Id, ts: seq<Tree>, i: nat)
    requires Numbered(g, next) && SharedInAll(g, ts) && i < |ts|
    ensures SharedIn(g, ts[i]) && TreesText(g, next, ts)[i] == TreeText(g, next, ts[i])
  {
    hide SharedIn, TreeText, Numbered;
    var init := ts[..|ts| - 1];
    assert forall x | x in init :: x in ts;
    assert ts[i] in ts;
    if i < |ts| - 1 { TextAt(g, next, init, i); }
  }

  lemma MisreadWritten(g: Graph)
    requires Misread(g) && Writable(g, 10, MisreadSections())
    ensures Written(g, 10, MisreadSections()) == MisreadFile()
  {
    hide TreesText, TreeText, Numbered, ContentShared, NodeText, Misread, Nest, Loop;
    MisreadNumbered(g);
    MisreadTexts(g);
    var ts := Trees(MisreadSections());
    assert ts == [Leaf("p"), Loop(1, "w"), Leaf("x"), Leaf("v"), Leaf("s"), Loop(7, "v")];
    SixTexts(g, 10, ts);
  }

  lemma SixTexts(g: Graph, next: Id, ts: seq<Tree>)
    requires Numbered(g, next) && SharedInAll(g, ts) && |ts| == 6
    ensures forall i | 0 <= i < 6 :: SharedIn(g, ts[i])
    ensures TreesText(g, next, ts) ==
      [TreeText(g, next, ts[0]), TreeText(g, next, ts[1]), TreeText(g, next, ts[2]), TreeText(g, next, ts[3]),
       TreeText(g, next, ts[4]), TreeText(g, next, ts[5])]
  {
    hide TreesText, TreeText, Numbered, SharedIn;
    forall i | 0 <= i < 6 ensures SharedIn(g, ts[i]) && TreesText(g, next, ts)[i] == TreeText(g, next, ts[i]) {
      TextAt(g, next, ts, i);
    }
  }

  lemma MisreadTexts(g: Graph)
    requires Misread(g) && Numbered(g, 10)
    ensures forall v :: TreeText(g, 10, Leaf(v)) == Item(STR(v), "", [])
    ensures SharedIn(g, Loop(1, "w")) && SharedIn(g, Loop(7, "v"))
    ensures TreeText(g, 10, Loop(1, "w")) == Nest("c", Item(STR("w"), "b", []), "w")
    ensures TreeText(g, 10, Loop(7, "v")) == Nest("a", Ref("b"), "v")
  {
    hide TreeText, NodeText, Numbered;
    forall v ensures TreeText(g, 10, Leaf(v)) == Item(STR(v), "", []) { CopiedText(g, 10, v); }
    LoopText(g, 10, 1, "c", 2, 3, "w");
    WordText(g, 10, 3, "w", "b");
    LoopText(g, 10, 7, "a", 8, 9, "v");
    AliasText(g, 10, 9, "b", 5);
  }

  /** The parser's state after the entry p, and before the list of s. */
  function AfterP(): Parser {
    var st := Parser(map[0 := Word("p", "")], 1, map[]);
    var inside := NestInside(st, "c");
    Nested(st, "c", Parser(inside.g[4 := Word("w", "b")], 5, inside.env["b" := 4]), Some(4), "w")
  }

  function BeforeList(): Parser {
    Parser(AfterP().g[6 := Word("x", "")][7 := Word("v", "")][8 := Word("s", "")], 9, AfterP().env)
  }

  function AfterS(): Parser {
    var st := BeforeList();
    var inside := NestInside(st, "a");
    Nested(st, "a", Parser(inside.g[12 := Alias("b", Some(4))], 13, inside.env), Some(12), "v")
  }

  lemma MisreadFirst()
    ensures ParseAll(START, MisreadFile()[..2]) == Some((AfterP(), [Some(0), Some(1)]))
    ensures AfterP().next == 6 && "b" in AfterP().env && AfterP().env["b"] == 4 && "a" !in AfterP().env
  {
    hide Parse, ParseAll;
    ParseWord(START, "p", "");
    var st := Parser(map[0 := Word("p", "")], 1, map[]);
    assert START.g[0 := Word("p", "")] == st.g;
    var inside := NestInside(st, "c");
    ParseWord(inside, "w", "b");
    ParseNest(st, "c", Item(STR("w"), "b", []), "w",
              Parser(inside.g[4 := Word("w", "b")], 5, inside.env["b" := 4]), Some(4));
    assert MisreadFile()[..2] == [Item(STR("p"), "", []), Nest("c", Item(STR("w"), "b", []), "w")];
    ParseTwo(START, Item(STR("p"), "", []), Nest("c", Item(STR("w"), "b", []), "w"), st, Some(0), AfterP(), Some(1));
  }

  lemma MisreadMiddle()
    ensures ParseAll(START, MisreadFile()[..5]) == Some((BeforeList(), [Some(0), Some(1), Some(6), Some(7), Some(8)]))
  {
    hide Parse, ParseAll, AfterP, Nest;
    MisreadFirst();
    var file, st := MisreadFile(), AfterP();
    var s1 := Parser(st.g[6 := Word("x", "")], 7, st.env);
    var s2 := Parser(s1.g[7 := Word("v", "")], 8, st.env);
    ParseWord(st, "x", "");
    ParseWord(s1, "v", "");
    ParseWord(s2, "s", "");
    var r2: seq<Option<Id>> := [Some(0), Some(1)];
    var r3, r4 := r2 + [Some(6)], r2 + [Some(6)] + [Some(7)];
    ParseSnoc(START, file[..2], file[2], st, r2, s1, Some(6));
    assert file[..3] == file[..2] + [file[2]];
    ParseSnoc(START, file[..3], file[3], s1, r3, s2, Some(7));
    assert file[..4] == file[..3] + [file[3]];
    ParseSnoc(START, file[..4], file[4], s2, r4, BeforeList(), Some(8));
    assert file[..5] == file[..4] + [file[4]];
    assert r4 + [Some(8)] == [Some(0), Some(1), Some(6), Some(7), Some(8)];
  }

  lemma MisreadParses()
    ensures ParseAll(START, MisreadFile()) == Some((AfterS(), [Some(0), Some(1), Some(6), Some(7), Some(8), Some(9)]))
  {
    hide Parse, ParseAll, AfterP, Nest;
    MisreadFirst();
    MisreadMiddle();
    var file, st := MisreadFile(), BeforeList();
    var inside := NestInside(st, "a");
    ParseRef(inside, "b");
    ParseNest(st, "a", Ref("b"), "v", Parser(inside.g[12 := Alias("b", Some(4))], 13, inside.env), Some(12));
    var r5: seq<Option<Id>> := [Some(0), Some(1), Some(6), Some(7), Some(8)];
    ParseSnoc(START, file[..5], file[5], st, r5, AfterS(), Some(9));
    assert file == file[..5] + [file[5]];
    assert r5 + [Some(9)] == [Some(0), Some(1), Some(6), Some(7), Some(8), Some(9)];
  }

  lemma MisreadNodes()
    ensures var h := AfterS().g;
      && 4 in h && 9 in h && 10 in h && 11 in h && 12 in h && 13 in h
      && h[4] == Word("w", "b") && h[9] == Pair("", 10, 13)
      && h[10] == Pair("a", 11, 12) && h[12] == Alias("b", Some(4))
  {
  }

  lemma PairShows(g: Graph, id: Id, anchor: string, x: Id, y: Id, depth: nat)
    requires Parsed(g) && id in g && g[id] == Pair(anchor, x, y) && depth > 0
    ensures x in g && y in g
    ensures Meaning(g, Some(id), depth) == Shown(LIST, [Meaning(g, Some(x), depth - 1), Meaning(g, Some(y), depth - 1)])
  {
    assert Some(x) in g[id].content && Some(y) in g[id].content;
    assert Meaning(g, Some(id), depth).content == [Meaning(g, Some(x), depth - 1), Meaning(g, Some(y), depth - 1)];
  }

  lemma WordShows(g: Graph, id: Id, v: string, anchor: string)
    requires Parsed(g) && id in g && g[id] == Word(v, anchor)
    ensures Meaning(g, Some(id), 1) == Shown(STR(v), [])
  {
  }

  lemma AliasShows(g: Graph, id: Id, name: string, target: Id, depth: nat)
    requires Parsed(g) && id in g && g[id] == Alias(name, Some(target))
    ensures target in g && Meaning(g, Some(id), depth) == Meaning(g, Some(target), depth)
  {
  }

  /** What stands second in the list that stands first. */
  function Second(view: View): View {
    if view.Shown? && |view.content| == 2 && view.content[0].Shown? && |view.content[0].content| == 2
    then view.content[0].content[1] else Cut
  }

  lemma OldShowsV(g: Graph)
    requires Misread(g) && Parsed(g)
    ensures Second(Meaning(g, Some(7), 3)) == Shown(STR("v"), [])
  {
    hide Meaning, Misread;
    assert g[5] == Word("v", "b") && g[7] == Pair("a", 8, 9)
      && g[8] == Alias("a", Some(7)) && g[9] == Alias("b", Some(5))
      && 5 in g && 7 in g && 8 in g && 9 in g by { MisreadParts(g); }
    PairShows(g, 7, "a", 8, 9, 3);
    AliasShows(g, 8, "a", 7, 2);
    PairShows(g, 7, "a", 8, 9, 2);
    AliasShows(g, 9, "b", 5, 1);
    WordShows(g, 5, "v", "b");
  }

  lemma MisreadParts(g: Graph)
    requires Misread(g)
    ensures 5 in g && 7 in g && 8 in g && 9 in g
    ensures g[5] == Word("v", "b") && g[7] == Pair("a", 8, 9) && g[8] == Alias("a", Some(7))
    ensures g[9] == Alias("b", Some(5))
  {
  }

  lemma NewShowsW(h: Graph)
    requires Parsed(h) && 4 in h && 9 in h && 10 in h && 12 in h
    requires h[4] == Word("w", "b") && h[9] == Pair("", 10, 13) && h[10] == Pair("a", 11, 12)
    requires h[12] == Alias("b", Some(4))
    ensures Second(Meaning(h, Some(9), 3)) == Shown(STR("w"), [])
  {
    hide Meaning;
    PairShows(h, 9, "", 10, 13, 3);
    PairShows(h, 10, "a", 11, 12, 2);
    AliasShows(h, 12, "b", 4, 1);
    WordShows(h, 4, "w", "b");
  }

  /** The file parses, and the alias that stood for v is read as w. */
  lemma OutwardAliasIsMisread()
    ensures var g := MisreadDoc();
      && Document(g, 10, TOP) && Writable(g, 10, Captured(g, TOP, 3))
      && Second(Meaning(g, TOP[5], 3)) == Shown(STR("v"), [])
      && ParseAll(START, Written(g, 10, Captured(g, TOP, 3))).Some?
      && var (st, refs) := ParseAll(START, Written(g, 10, Captured(g, TOP, 3))).value;
         Parsed(st.g) && |refs| == 6 && RefIn(st.g, refs[5]) && Second(Meaning(st.g, refs[5], 3)) == Shown(STR("w"), [])
  {
    hide Captured, Writable, Written, MisreadDoc, MisreadFile, AfterS, Second, Meaning, ParseAll, OnePlace, AtTop,
      Numbered, TopLevel, Misread;
    var g := MisreadDoc();
    assert Misread(g) by { MisreadIs(); }
    MisreadNumbered(g);
    MisreadPlaces(g);
    MisreadTop(g);
    MisreadCaptured(g);
    SavedNothingElse(g, 10, TOP);
    UnfoldTopLevel(g, TOP);
    OldShowsV(g);
    MisreadWritten(g);
    MisreadParses();
    ParseDocument(MisreadFile());
    MisreadNodes();
    NewShowsW(AfterS().g);
  }

  lemma MisreadIs()
    ensures Misread(MisreadDoc())
  {
  }
}

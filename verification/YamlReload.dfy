/** Loading the client config file, saving it, and loading it again: client/config/config.go. */
module YamlReload {
  import opened Basics
  import opened YamlInline
  import opened YamlSections
  import opened YamlText

  // ----- trees up to the identity of nodes -----

  function Shape(t: Tree): Tree
    decreases t, 1
  {
    match t
    case Nil => Nil
    case Shared(_) => Shared(0)
    case Clone(payload, anchor, content) => Clone(payload, anchor, Shapes(content))
  }

  function Shapes(ts: seq<Tree>): (r: seq<Tree>)
    ensures |r| == |ts| && forall i | 0 <= i < |r| :: r[i] == Shape(ts[i])
    decreases ts, 0
  {
    if ts == [] then [] else Shapes(ts[..|ts| - 1]) + [Shape(ts[|ts| - 1])]
  }

  lemma ShapesEqual(a: seq<Tree>, b: seq<Tree>)
    ensures Shapes(a) == Shapes(b) <==> |a| == |b| && forall i | 0 <= i < |a| :: Shape(a[i]) == Shape(b[i])
  {
    hide Shape;
    if Shapes(a) == Shapes(b) {
      forall i | 0 <= i < |a| ensures Shape(a[i]) == Shape(b[i]) { assert Shapes(a)[i] == Shapes(b)[i]; }
    }
  }

  /** What inlining leaves as references are nodes with content, not aliases. */
  ghost predicate ContentShared(g: Graph, t: Tree) {
    match t
    case Nil => true
    case Shared(id) => id in g && g[id].Content?
    case Clone(_, _, content) => forall c | c in content :: ContentShared(g, c)
  }

  lemma {:induction false} ContentSharedIn(g: Graph, t: Tree)
    requires ContentShared(g, t)
    ensures SharedIn(g, t)
  {
    if t.Clone? {
      forall c | c in t.content ensures SharedIn(g, c) { ContentSharedIn(g, c); }
    }
  }

  // ----- inlining what was written and parsed -----

  lemma {:induction false} WholeParses(st: Parser, g: Graph, next: Id, t: Tree)
    requires Numbered(g, next) && SharedIn(g, t) && SelfContained(t)
    ensures Parse(st, TreeText(g, next, t)).Some?
    decreases t, 1
  {
    if t.Clone? { WholesParse(Parser(st.g, st.next + 1, st.env), g, next, t.content); }
  }

  lemma {:induction false} WholesParse(st: Parser, g: Graph, next: Id, ts: seq<Tree>)
    requires Numbered(g, next) && SharedInAll(g, ts) && forall t | t in ts :: SelfContained(t)
    ensures ParseAll(st, TreesText(g, next, ts)).Some?
    decreases ts, 0
  {
    if ts != [] {
      var texts := TreesText(g, next, ts);
      assert texts[..|texts| - 1] == TreesText(g, next, ts[..|ts| - 1]);
      WholesParse(st, g, next, ts[..|ts| - 1]);
      WholeParses(ParseAll(st, texts[..|texts| - 1]).value.0, g, next, ts[|ts| - 1]);
    }
  }

  /** A tree, written, parsed and inlined again: what was there, exactly when it was self-contained. */
  ghost predicate Rereads(h: Graph, ref: Option<Id>, visiting: set<Id>, t: Tree) {
    && Closed(h) && RefIn(h, ref)
    && (Shape(Inline(h, ref, visiting)) == Shape(t) <==> SelfContained(t))
    && (SelfContained(t) ==> Inline(h, ref, visiting) == t)
    && (!t.Shared? ==> RawKey(h, ref) == IdOf(t) && RawValue(h, ref) == KeyOf(t))
  }

  lemma {:induction false} Reread(st: Parser, open: set<Id>, g: Graph, next: Id, t: Tree, h: Graph, visiting: set<Id>)
    requires Parsing(st, open) && Numbered(g, next) && SharedIn(g, t) && ContentShared(g, t) && Closed(h)
    requires Parse(st, TreeText(g, next, t)).Some? && Extends(Parse(st, TreeText(g, next, t)).value.0.g, h)
    requires forall v | v in visiting :: v < st.next
    ensures Rereads(h, Parse(st, TreeText(g, next, t)).value.1, visiting, t)
    decreases t, 1
  {
    var s := TreeText(g, next, t);
    ParseOk(st, s, open);
    match t
    case Nil =>
    case Shared(id) =>
      assert s.Item? && h[st.next].Content?;
    case Clone(_, _, _) => RereadClone(st, open, g, next, t, h, visiting);
  }

  lemma {:induction false} RereadClone(st: Parser, open: set<Id>, g: Graph, next: Id, t: Tree, h: Graph,
                                       visiting: set<Id>)
    requires Parsing(st, open) && Numbered(g, next) && SharedIn(g, t) && ContentShared(g, t) && Closed(h) && t.Clone?
    requires Parse(st, TreeText(g, next, t)).Some? && Extends(Parse(st, TreeText(g, next, t)).value.0.g, h)
    requires forall v | v in visiting :: v < st.next
    ensures Rereads(h, Parse(st, TreeText(g, next, t)).value.1, visiting, t)
    decreases t, 0
  {
    hide Rereads, Parsing, ParseAll, Extends, Numbered, TreesText;
    var s := TreeText(g, next, t);
    var inside := Parser(st.g, st.next + 1, if t.anchor == "" then st.env else st.env[t.anchor := st.next]);
    OpenNode(st, open, t.anchor);
    var (mid, refs) := ParseAll(inside, s.content).value;
    ParseAllOk(inside, s.content, open + {st.next});
    var node := Content(t.payload, t.anchor, refs);
    NextIsNew(st, open);
    CloseNode(mid, open, st.next, node);
    ExtendsTrans(mid.g, mid.g[st.next := node], h);
    RereadAll(inside, open + {st.next}, g, next, t.content, h, visiting + {st.next});
    assert st.next in h && h[st.next] == node by { StaysIn(mid.g[st.next := node], h, st.next); }
    forall r | r in refs ensures RefIn(h, r) { if r.Some? { StaysIn(mid.g, h, r.value); } }
    RereadCopy(h, st.next, refs, visiting, t);
  }

  lemma NextIsNew(st: Parser, open: set<Id>)
    requires Parsing(st, open)
    ensures st.next !in open
  {
  }

  lemma StaysIn(g: Graph, h: Graph, id: Id)
    requires Extends(g, h) && id in g
    ensures id in h && h[id] == g[id]
  {
  }

  lemma ExtendsTrans(g: Graph, h: Graph, k: Graph)
    requires Extends(g, h) && Extends(h, k)
    ensures Extends(g, k)
  {
  }

  /** A copy around what was read of its content. */
  lemma RereadCopy(h: Graph, id: Id, refs: seq<Option<Id>>, visiting: set<Id>, t: Tree)
    requires Closed(h) && id in h && id !in visiting && t.Clone? && h[id] == Content(t.payload, t.anchor, refs)
    requires |refs| == |t.content| && (forall r | r in refs :: RefIn(h, r))
    requires forall i | 0 <= i < |refs| :: Rereads(h, refs[i], visiting + {id}, t.content[i])
    ensures Rereads(h, Some(id), visiting, t)
  {
    RereadChildren(h, refs, visiting + {id}, t.content);
  }

  lemma RereadChildren(h: Graph, refs: seq<Option<Id>>, visiting: set<Id>, content: seq<Tree>)
    requires Closed(h) && |refs| == |content| && (forall r | r in refs :: RefIn(h, r))
    requires forall i | 0 <= i < |content| :: Rereads(h, refs[i], visiting, content[i])
    ensures var children := InlineAll(h, refs, visiting);
      && (Shapes(children) == Shapes(content) <==> forall c | c in content :: SelfContained(c))
      && ((forall c | c in content :: SelfContained(c)) ==> children == content)
  {
    hide Shape, SelfContained, Inline;
    var children := InlineAll(h, refs, visiting);
    ShapesEqual(children, content);
    if Shapes(children) == Shapes(content) {
      forall c | c in content ensures SelfContained(c) {
        var i :| 0 <= i < |content| && content[i] == c;
        assert Rereads(h, refs[i], visiting, content[i]);
      }
    }
    if forall c | c in content :: SelfContained(c) {
      forall i | 0 <= i < |content| ensures children[i] == content[i] {
        assert Rereads(h, refs[i], visiting, content[i]) && content[i] in content;
      }
      assert children == content;
    }
  }

  lemma LastText(g: Graph, next: Id, ts: seq<Tree>)
    requires Numbered(g, next) && SharedInAll(g, ts) && ts != []
    ensures var texts, n := TreesText(g, next, ts), |ts| - 1;
      SharedIn(g, ts[n]) && texts[..n] == TreesText(g, next, ts[..n]) && texts[n] == TreeText(g, next, ts[n])
  {
  }

  lemma LastParse(st: Parser, ss: seq<Text>)
    requires ss != [] && ParseAll(st, ss).Some?
    ensures var n := |ss| - 1; var before := ParseAll(st, ss[..n]);
      && before.Some? && Parse(before.value.0, ss[n]).Some?
      && ParseAll(st, ss).value ==
           (Parse(before.value.0, ss[n]).value.0, before.value.1 + [Parse(before.value.0, ss[n]).value.1])
  {
    hide Parse;
  }

  lemma {:induction false} RereadAll(st: Parser, open: set<Id>, g: Graph, next: Id, ts: seq<Tree>, h: Graph,
                                     visiting: set<Id>)
    requires Parsing(st, open) && Numbered(g, next) && SharedInAll(g, ts) && (forall t | t in ts :: ContentShared(g, t))
    requires Closed(h) && forall v | v in visiting :: v < st.next
    requires var r := ParseAll(st, TreesText(g, next, ts)); r.Some? && Extends(r.value.0.g, h)
    ensures var refs := ParseAll(st, TreesText(g, next, ts)).value.1;
      forall i | 0 <= i < |ts| :: Rereads(h, refs[i], visiting, ts[i])
    decreases ts, 0
  {
    hide Rereads, Numbered, Parse, ParseAll, TreeText, TreesText, Parsing, ContentShared, SharedIn, Extends;
    if ts != [] {
      var texts, n := TreesText(g, next, ts), |ts| - 1;
      LastText(g, next, ts);
      LastParse(st, texts);
      assert forall t | t in ts[..n] :: t in ts;
      ParseAllOk(st, texts[..n], open);
      var (before, refs) := ParseAll(st, texts[..n]).value;
      ParseOk(before, texts[n], open);
      ExtendsTrans(before.g, Parse(before, texts[n]).value.0.g, h);
      RereadAll(st, open, g, next, ts[..n], h, visiting);
      assert ts[n] in ts;
      Reread(before, open, g, next, ts[n], h, visiting);
    }
  }

  // ----- only nodes with content are left as references -----

  ghost predicate Holds(g: Graph, parent: Id, c: Id) {
    parent in g && g[parent].Content? && Some(c) in g[parent].content
  }

  /** Every node stands in one place of the document. */
  ghost predicate OnePlace(g: Graph) {
    forall p, q, c | Holds(g, p, c) && Holds(g, q, c) :: p == q
  }

  ghost predicate AtTop(g: Graph, r: Option<Id>) {
    r.Some? ==> forall p | p in g :: !Holds(g, p, r.value)
  }

  /** path leads from the top to r. */
  ghost predicate Trail(g: Graph, path: seq<Id>, r: Option<Id>) {
    && Distinct(path) && (forall id | id in path :: id in g)
    && (path == [] ==> AtTop(g, r))
    && (path != [] ==> Path(g, path) && AtTop(g, Some(path[0])) && (r.Some? ==> Edge(g, path[|path| - 1], r.value)))
  }

  lemma AliasIsNotShared(g: Graph, path: seq<Id>, id: Id)
    requires Parsed(g) && OnePlace(g) && id in g && Trail(g, path, Some(id)) && id in path
    ensures g[id].Content?
  {
    var k, last := 0, |path| - 1;
    k :| 0 <= k < |path| && path[k] == id;
    assert Edge(g, path[last], id);
    if g[id].Alias? {
      assert Holds(g, path[last], id);
      if k > 0 {
        assert Edge(g, path[k - 1], path[k]);
        assert Holds(g, path[k - 1], id);
      }
    }
  }

  lemma TrailOn(g: Graph, path: seq<Id>, id: Id, c: Option<Id>)
    requires Trail(g, path, Some(id)) && id in g && id !in path && (c.Some? ==> Edge(g, id, c.value))
    ensures Trail(g, path + [id], c)
  {
    var longer := path + [id];
    forall i | 0 < i < |longer| ensures Edge(g, longer[i - 1], longer[i]) {
      if i < |path| { assert Edge(g, path[i - 1], path[i]); }
    }
  }

  lemma {:induction false} InlineContentShared(g: Graph, r: Option<Id>, path: seq<Id>)
    requires Parsed(g) && OnePlace(g) && RefIn(g, r) && Trail(g, path, r)
    ensures ContentShared(g, Inline(g, r, Elems(path)))
    decreases g.Keys - Elems(path)
  {
    hide Trail, OnePlace;
    if r.Some? {
      var id := r.value;
      if id in path {
        AliasIsNotShared(g, path, id);
      } else {
        var longer := path + [id];
        assert Elems(longer) == Elems(path) + {id} by { ElemsSnoc(path, id); }
        match g[id]
        case Alias(_, target) =>
          TrailOn(g, path, id, target);
          InlineContentShared(g, target, longer);
        case Content(_, _, content) =>
          var children := InlineAll(g, content, Elems(longer));
          forall c | c in children ensures ContentShared(g, c) {
            var i :| 0 <= i < |children| && children[i] == c;
            assert content[i] in content;
            TrailOn(g, path, id, content[i]);
            InlineContentShared(g, content[i], longer);
          }
      }
    }
  }

  // ----- load, save, load -----

  function Trees(sections: seq<Section>): (ts: seq<Tree>)
    ensures |ts| == 2 * |sections|
    ensures forall i | 0 <= i < |sections| :: ts[2 * i] == sections[i].key && ts[2 * i + 1] == sections[i].value
    ensures forall i | 0 <= i < |ts| :: ts[i] == if i % 2 == 0 then sections[i / 2].key else sections[i / 2].value
  {
    seq(2 * |sections|, i requires 0 <= i < 2 * |sections| =>
      if i % 2 == 0 then sections[i / 2].key else sections[i / 2].value)
  }

  /** A document as the parser builds it: the content of its root mapping, and all other nodes. */
  ghost predicate Document(g: Graph, next: Id, content: seq<Option<Id>>) {
    && TopLevel(g, content) && Numbered(g, next) && OnePlace(g) && forall c | c in content :: AtTop(g, c)
  }

  /** Sections that can be written: what they refer to is in the document. */
  ghost predicate Writable(g: Graph, next: Id, sections: seq<Section>) {
    && Numbered(g, next) && SharedInAll(g, Trees(sections))
    && (forall t | t in Trees(sections) :: ContentShared(g, t)) && forall s | s in sections :: !s.key.Shared?
  }

  /** The written file: the content of its root mapping. */
  ghost function Written(g: Graph, next: Id, sections: seq<Section>): seq<Text>
    requires Writable(g, next, sections)
  {
    TreesText(g, next, Trees(sections))
  }

  ghost predicate NoKeyTwice(g: Graph, content: seq<Option<Id>>)
    requires forall r | r in content :: RefIn(g, r)
  {
    forall i, j | 0 <= i < j < |content| / 2 :: RawKey(g, content[2 * i]) != RawKey(g, content[2 * j])
  }

  /** Loading a file: it must parse, and the decoder must find no key twice. */
  ghost function Load(file: seq<Text>): Option<seq<Section>> {
    match ParseAll(START, file)
    case None => None
    case Some((st, refs)) =>
      ParseDocument(file);
      if NoKeyTwice(st.g, refs) then Some(Captured(st.g, refs, |refs| / 2)) else None
  }

  predicate Whole(s: Section) { SelfContained(s.key) && SelfContained(s.value) }

  /** What the encoder writes for the recognized fields: known keys, each once, nothing shared. */
  predicate Encoded(encoded: seq<Section>) {
    Distinct(Ids(encoded)) && forall s | s in encoded :: KeyOf(s.key) in KNOWN && Whole(s)
  }

  lemma {:induction false} WholeIsContentShared(g: Graph, t: Tree)
    requires SelfContained(t)
    ensures ContentShared(g, t)
  {
    if t.Clone? {
      forall c | c in t.content ensures ContentShared(g, c) { WholeIsContentShared(g, c); }
    }
  }

  ghost function Saved(g: Graph, content: seq<Option<Id>>, encoded: seq<Section>): seq<Section>
    requires Refs(g, content)
  {
    encoded + Captured(g, content, |content| / 2)
  }

  lemma SavedIsWritable(g: Graph, next: Id, content: seq<Option<Id>>, encoded: seq<Section>)
    requires Document(g, next, content) && Encoded(encoded)
    ensures Writable(g, next, Saved(g, content, encoded))
  {
    hide Captured, Inline, TopLevel, OnePlace, KeyOf, SelfContained, ContentShared;
    UnfoldTopLevel(g, content);
    var saved := Saved(g, content, encoded);
    forall s | s in saved ensures ContentShared(g, s.key) && ContentShared(g, s.value) && !s.key.Shared? {
      if s in encoded {
        WholeIsContentShared(g, s.key);
        WholeIsContentShared(g, s.value);
        KnownIsCopied(s.key);
      } else {
        InCaptured(g, content, |content| / 2, s);
        var i :| 0 <= i < |content| / 2 && !Skipped(g, content, i) && s == SectionAt(g, content, i);
        EntryIsContentShared(g, content, i);
      }
    }
    forall t | t in Trees(saved) ensures ContentShared(g, t) && SharedIn(g, t) {
      var i :| 0 <= i < |Trees(saved)| && Trees(saved)[i] == t;
      assert saved[i / 2] in saved;
      ContentSharedIn(g, t);
    }
  }

  lemma KnownIsCopied(t: Tree)
    requires KeyOf(t) in KNOWN
    ensures !t.Shared?
  {
  }

  lemma EntryIsContentShared(g: Graph, content: seq<Option<Id>>, i: nat)
    requires Parsed(g) && Refs(g, content) && OnePlace(g) && (forall c | c in content :: AtTop(g, c))
    requires 2 * i + 1 < |content|
    ensures var s := SectionAt(g, content, i); ContentShared(g, s.key) && ContentShared(g, s.value) && !s.key.Shared?
  {
    hide Inline, OnePlace, ContentShared;
    assert content[2 * i] in content && content[2 * i + 1] in content;
    assert Elems<Id>([]) == {};
    KeyOfSection(g, content, i);
    InlineContentShared(g, content[2 * i], []);
    InlineContentShared(g, content[2 * i + 1], []);
  }

  function SectionShape(s: Section): Section { Section(Shape(s.key), Shape(s.value)) }

  function SectionShapes(ss: seq<Section>): (r: seq<Section>)
    ensures |r| == |ss| && forall i | 0 <= i < |r| :: r[i] == SectionShape(ss[i])
  {
    seq(|ss|, i requires 0 <= i < |ss| => SectionShape(ss[i]))
  }

  /** The mapping of h and refs is the written mapping, as far as capturing can tell. */
  ghost predicate Mirrors(h: Graph, refs: seq<Option<Id>>, sections: seq<Section>) {
    && Parsed(h) && Refs(h, refs) && |refs| == 2 * |sections|
    && forall i | 0 <= i < |sections| :: MirrorsAt(h, refs, sections, i)
  }

  ghost predicate MirrorsAt(h: Graph, refs: seq<Option<Id>>, sections: seq<Section>, i: nat)
    requires Refs(h, refs) && |refs| == 2 * |sections| && i < |sections|
  {
    && (Skipped(h, refs, i) <==> KeyOf(sections[i].key) in KNOWN)
    && RefIn(h, refs[2 * i]) && RawKey(h, refs[2 * i]) == IdOf(sections[i].key)
    && (SectionShape(SectionAt(h, refs, i)) == SectionShape(sections[i]) <==> Whole(sections[i]))
    && (Whole(sections[i]) ==> SectionAt(h, refs, i) == sections[i])
  }

  lemma WrittenMirrors(g: Graph, next: Id, sections: seq<Section>)
    requires Writable(g, next, sections) && ParseAll(START, Written(g, next, sections)).Some?
    ensures var (st, refs) := ParseAll(START, Written(g, next, sections)).value; Mirrors(st.g, refs, sections)
  {
    hide Rereads, ParseAll, TreesText, Inline, Parsed, Numbered, ContentShared, SharedInAll;
    var file, ts := Written(g, next, sections), Trees(sections);
    var (st, refs) := ParseAll(START, file).value;
    ParseDocument(file);
    assert Closed(st.g) by { UnfoldParsed(st.g); }
    RereadAll(START, {}, g, next, ts, st.g, {});
    forall i | 0 <= i < |sections| ensures MirrorsAt(st.g, refs, sections, i) {
      assert Rereads(st.g, refs[2 * i], {}, ts[2 * i]) && Rereads(st.g, refs[2 * i + 1], {}, ts[2 * i + 1]);
      assert sections[i] in sections;
      MirrorEntry(st.g, refs, sections, i);
    }
  }

  lemma UnfoldParsed(g: Graph)
    requires Parsed(g)
    ensures Closed(g)
  {
  }

  lemma MirrorEntry(h: Graph, refs: seq<Option<Id>>, sections: seq<Section>, i: nat)
    requires Refs(h, refs) && |refs| == 2 * |sections| && i < |sections| && !sections[i].key.Shared?
    requires Rereads(h, refs[2 * i], {}, sections[i].key) && Rereads(h, refs[2 * i + 1], {}, sections[i].value)
    ensures MirrorsAt(h, refs, sections, i)
  {
    hide Inline, Shape, SelfContained, RawKey, RawValue, KeyOf, IdOf;
  }

  lemma {:induction false} RecapturedNone(h: Graph, refs: seq<Option<Id>>, sections: seq<Section>, n: nat)
    requires Mirrors(h, refs, sections) && n <= |sections|
    requires forall i | 0 <= i < n :: KeyOf(sections[i].key) in KNOWN
    ensures Captured(h, refs, n) == []
  {
    hide SectionAt, KeyOf, Whole, RawValue, Captured, Parsed;
    CapturedSteps(h, refs, n);
    if n > 0 {
      RecapturedNone(h, refs, sections, n - 1);
      assert MirrorsAt(h, refs, sections, n - 1);
    }
  }

  predicate Stable(s: Section) { KeyOf(s.key) !in KNOWN && Whole(s) }

  predicate AllStable(ss: seq<Section>) { forall s | s in ss :: Stable(s) }

  lemma AllStableSnoc(ss: seq<Section>, s: Section)
    ensures AllStable(ss + [s]) <==> AllStable(ss) && Stable(s)
  {
    hide Stable;
    assert s in ss + [s] && forall x | x in ss :: x in ss + [s];
  }

  /** The same sections again, exactly when all are stable. */
  ghost predicate Reproduces(again: seq<Section>, kept: seq<Section>) {
    && |again| <= |kept| && (SectionShapes(again) == SectionShapes(kept) <==> AllStable(kept))
    && (AllStable(kept) ==> again == kept)
  }

  lemma ReproducesMore(again: seq<Section>, kept: seq<Section>, known: bool, x: Section, y: Section)
    requires Reproduces(again, kept) && (known <==> KeyOf(y.key) in KNOWN)
    requires (SectionShape(x) == SectionShape(y) <==> Whole(y)) && (Whole(y) ==> x == y)
    ensures Reproduces(if known then again else again + [x], kept + [y])
  {
    hide SectionShapes, AllStable, SectionShape, KeyOf, Whole;
    AllStableSnoc(kept, y);
    ShapesSnoc(again, kept, x, y);
  }

  lemma {:induction false} Recaptured(h: Graph, refs: seq<Option<Id>>, sections: seq<Section>, e: nat, n: nat)
    requires Mirrors(h, refs, sections) && e + n <= |sections|
    requires forall i | 0 <= i < e :: KeyOf(sections[i].key) in KNOWN
    ensures Reproduces(Captured(h, refs, e + n), sections[e..e + n])
  {
    hide SectionAt, KeyOf, Whole, RawValue, Captured, SectionShape, Parsed, Skipped, RawKey, Reproduces;
    if n == 0 {
      RecapturedNone(h, refs, sections, e);
      assert sections[e..e + n] == [];
      assert Reproduces([], []) by { NothingReproduced(); }
    } else {
      var m := e + n - 1;
      Recaptured(h, refs, sections, e, n - 1);
      CapturedSteps(h, refs, e + n);
      assert MirrorsAt(h, refs, sections, m);
      assert sections[e..e + n] == sections[e..m] + [sections[m]];
      ReproducesMore(Captured(h, refs, m), sections[e..m], Skipped(h, refs, m), SectionAt(h, refs, m), sections[m]);
    }
  }

  lemma NothingReproduced()
    ensures Reproduces([], [])
  {
  }

  lemma ShapesSnoc(p: seq<Section>, q: seq<Section>, x: Section, y: Section)
    requires |p| <= |q|
    ensures SectionShapes(p + [x]) == SectionShapes(q + [y]) <==>
      SectionShapes(p) == SectionShapes(q) && SectionShape(x) == SectionShape(y)
    ensures SectionShapes(p) != SectionShapes(q + [y])
  {
    hide SectionShape;
    assert SectionShapes(p + [x]) == SectionShapes(p) + [SectionShape(x)];
    assert SectionShapes(q + [y]) == SectionShapes(q) + [SectionShape(y)];
    SnocEqual(SectionShapes(p), SectionShapes(q), SectionShape(x), SectionShape(y));
  }

  lemma SnocEqual<T>(p: seq<T>, q: seq<T>, x: T, y: T)
    requires |p| <= |q|
    ensures p + [x] == q + [y] <==> p == q && x == y
    ensures p != q + [y]
  {
    if p + [x] == q + [y] {
      assert |p + [x]| == |q + [y]|;
      assert (p + [x])[..|p|] == p && (q + [y])[..|q|] == q && (p + [x])[|p|] == x && (q + [y])[|q|] == y;
    }
  }

  lemma DistinctKeys(h: Graph, refs: seq<Option<Id>>, sections: seq<Section>)
    requires Mirrors(h, refs, sections)
    ensures NoKeyTwice(h, refs) <==> Distinct(Ids(sections))
  {
    hide SectionAt, KeyOf, Whole, RawValue, RawKey, IdOf, SectionShape, Parsed;
    forall i | 0 <= i < |sections| ensures RefIn(h, refs[2 * i]) && RawKey(h, refs[2 * i]) == Ids(sections)[i] {
      assert MirrorsAt(h, refs, sections, i);
    }
  }

  /** Loading what was written: the same sections exactly when each is stable and no key is there twice. */
  lemma LoadWritten(g: Graph, next: Id, encoded: seq<Section>, kept: seq<Section>)
    requires Writable(g, next, encoded + kept) && Encoded(encoded)
    ensures var again := Load(Written(g, next, encoded + kept));
      var same := Distinct(Ids(encoded + kept)) && AllStable(kept);
      && (again == Some(kept) <==> same)
      && (again.Some? && SectionShapes(again.value) == SectionShapes(kept) <==> same)
  {
    hide Written, Captured, Writable, KeyOf, Whole, SectionAt, IdOf, RawKey, SectionShape, Mirrors, Distinct, ParseAll,
      NoKeyTwice;
    var saved, e := encoded + kept, |encoded|;
    if AllStable(kept) { StableParses(g, next, encoded, kept); }
    var file := Written(g, next, saved);
    if ParseAll(START, file).Some? {
      var (st, refs) := ParseAll(START, file).value;
      ParseDocument(file);
      WrittenMirrors(g, next, saved);
      DistinctKeys(st.g, refs, saved);
      forall i | 0 <= i < e ensures KeyOf(saved[i].key) in KNOWN { assert saved[i] in encoded; }
      RefsLength(st.g, refs, saved);
      Recaptured(st.g, refs, saved, e, |kept|);
      assert saved[e..e + |kept|] == kept;
    }
  }

  lemma RefsLength(h: Graph, refs: seq<Option<Id>>, sections: seq<Section>)
    requires Mirrors(h, refs, sections)
    ensures Refs(h, refs) && |refs| / 2 == |sections|
  {
  }

  lemma StableParses(g: Graph, next: Id, encoded: seq<Section>, kept: seq<Section>)
    requires Writable(g, next, encoded + kept) && Encoded(encoded) && AllStable(kept)
    ensures ParseAll(START, Written(g, next, encoded + kept)).Some?
  {
    hide SelfContained, ContentShared, SharedInAll, KeyOf, Distinct, Numbered, ParseAll, TreesText;
    var saved := encoded + kept;
    var ts := Trees(saved);
    forall t | t in ts ensures SelfContained(t) {
      var i :| 0 <= i < |ts| && ts[i] == t;
      assert saved[i / 2] in encoded || saved[i / 2] in kept;
    }
    WholesParse(START, g, next, ts);
  }

  ghost predicate CyclicAt(g: Graph, r: Option<Id>) { r.Some? && Cyclic(g, r.value) }

  /** The key is an alias that reads as a known key. */
  predicate ReadsKnown(g: Graph, key: Option<Id>)
    requires Closed(g) && RefIn(g, key)
  {
    IsAlias(g, key) && RawValue(g, g[key.value].target) in KNOWN
  }

  /** A captured entry that comes back as it was. */
  ghost predicate Returning(g: Graph, content: seq<Option<Id>>, encoded: seq<Section>, i: nat)
    requires Parsed(g) && Refs(g, content) && 2 * i + 1 < |content|
  {
    KeyOfSection(g, content, i);
    && !ReadsKnown(g, content[2 * i]) && !Clashes(g, content, encoded, i)
    && !CyclicAt(g, content[2 * i]) && !CyclicAt(g, content[2 * i + 1])
  }

  /** Loading what was written captures the same sections, in the same order, exactly when no captured
      key is an alias that reads as a known key or like another key, and no captured key or value is
      cyclic. It makes no difference whether nodes are compared by identity. */
  lemma SaveThenLoad(g: Graph, next: Id, content: seq<Option<Id>>, encoded: seq<Section>)
    requires Document(g, next, content) && Encoded(encoded)
    ensures Writable(g, next, Saved(g, content, encoded))
    ensures var n := |content| / 2; var kept := Captured(g, content, n);
      var again := Load(Written(g, next, Saved(g, content, encoded)));
      var returning := forall i | 0 <= i < n :: !Skipped(g, content, i) ==> Returning(g, content, encoded, i);
      && (again == Some(kept) <==> returning)
      && (again.Some? && SectionShapes(again.value) == SectionShapes(kept) <==> returning)
  {
    hide Written, Captured, Writable, Load, Clashes, CyclicAt, Stable, TopLevel, SectionAt, RawValue, SectionShapes,
      Distinct, KeyOf, Whole;
    UnfoldTopLevel(g, content);
    var n := |content| / 2;
    SavedIsWritable(g, next, content, encoded);
    LoadWritten(g, next, encoded, Captured(g, content, n));
    SavedKeysDistinct(g, content, encoded);
    forall i | 0 <= i < n && !Skipped(g, content, i)
      ensures SectionAt(g, content, i) in Captured(g, content, n)
      ensures Stable(SectionAt(g, content, i)) && !Clashes(g, content, encoded, i)
        <==> Returning(g, content, encoded, i)
    {
      InCaptured(g, content, n, SectionAt(g, content, i));
      StableEntry(g, content, encoded, i);
    }
    forall s | s in Captured(g, content, n)
      ensures exists i | 0 <= i < n :: !Skipped(g, content, i) && s == SectionAt(g, content, i)
    {
      InCaptured(g, content, n, s);
    }
  }

  lemma StableEntry(g: Graph, content: seq<Option<Id>>, encoded: seq<Section>, i: nat)
    requires Parsed(g) && Refs(g, content) && 2 * i + 1 < |content| && !Skipped(g, content, i)
    ensures Stable(SectionAt(g, content, i)) && !Clashes(g, content, encoded, i) <==> Returning(g, content, encoded, i)
  {
    hide SelfContained, KeyOf, Inline, Cyclic, Clashes;
    assert content[2 * i] in content && content[2 * i + 1] in content;
    KeyOfSection(g, content, i);
    WholeIffAcyclic(g, content[2 * i]);
    WholeIffAcyclic(g, content[2 * i + 1]);
  }

  lemma WholeIffAcyclic(g: Graph, r: Option<Id>)
    requires Closed(g) && RefIn(g, r)
    ensures SelfContained(Inline(g, r, {})) <==> !CyclicAt(g, r)
  {
    if r.Some? { SelfContainedIffAcyclic(g, r.value); }
  }
}

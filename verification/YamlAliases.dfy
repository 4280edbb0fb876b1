/** When the aliases of the written client config file (client/config/config.go) are read as the nodes
    they were: conditions on the document. */
module YamlAliases {
  import opened Basics
  import opened YamlInline
  import opened YamlText
  import opened YamlNames

  /** The aliases in the k-th of these nodes, written after those before it, resolve. */
  ghost predicate ResolvesAt(g: Graph, next: Id, ids: seq<Id>, k: nat)
    requires Numbered(g, next) && Nodes(g, ids) && k < |ids|
  {
    ResolvesAfter(MarksOf(g, next, ids[..k]), NodeMarks(g, next, ids[k]))
  }

  /** Every alias in the written nodes resolves exactly when, for each of them, the last anchor of its
      name before it, in the same node or in one written earlier, is on the node it refers to. */
  lemma {:induction false} ResolvesIffEach(g: Graph, next: Id, ids: seq<Id>)
    requires Numbered(g, next) && Nodes(g, ids)
    ensures ResolvesAfter([], MarksOf(g, next, ids)) <==> forall k | 0 <= k < |ids| :: ResolvesAt(g, next, ids, k)
  {
    hide NodeMarks, Numbered, ResolvesAfter, ResolvesAt;
    if ids == [] {
      assert ResolvesAfter([], []) by { NoMarks(); }
    } else {
      var init, n := ids[..|ids| - 1], |ids| - 1;
      ResolvesIffEach(g, next, init);
      forall k | 0 <= k < n ensures ResolvesAt(g, next, init, k) <==> ResolvesAt(g, next, ids, k) {
        SamePrefix(g, next, ids, k);
      }
      LastOne(g, next, ids);
    }
  }

  lemma SamePrefix(g: Graph, next: Id, ids: seq<Id>, k: nat)
    requires Numbered(g, next) && Nodes(g, ids) && k < |ids| - 1
    ensures ResolvesAt(g, next, ids[..|ids| - 1], k) <==> ResolvesAt(g, next, ids, k)
  {
    hide NodeMarks, Numbered, ResolvesAfter, MarksOf;
    assert ids[..|ids| - 1][..k] == ids[..k];
  }

  lemma LastOne(g: Graph, next: Id, ids: seq<Id>)
    requires Numbered(g, next) && Nodes(g, ids) && ids != []
    ensures ResolvesAfter([], MarksOf(g, next, ids)) <==>
      ResolvesAfter([], MarksOf(g, next, ids[..|ids| - 1])) && ResolvesAt(g, next, ids, |ids| - 1)
  {
    hide NodeMarks, Numbered, ResolvesAfter;
    var init := ids[..|ids| - 1];
    ResolvesConcat([], MarksOf(g, next, init), NodeMarks(g, next, ids[|ids| - 1]));
    assert [] + MarksOf(g, next, init) == MarksOf(g, next, init);
  }

  lemma NoMarks()
    ensures ResolvesAfter([], [])
  {
  }

  // ----- the nodes inside a node -----

  ghost predicate Contains(g: Graph, next: Id, o: Id, x: Id)
    requires Numbered(g, next) && o in g
    decreases next - o
  {
    o == x || (g[o].Content? && exists c | c in g[o].content && c.Some? :: Contains(g, next, c.value, x))
  }

  function MarkOf(g: Graph, x: Id): Option<Mark> {
    if x !in g then None
    else
      match g[x]
      case Alias(name, target) => if target.Some? then Some(Use(name, target.value)) else None
      case Content(_, anchor, _) => if anchor == "" then None else Some(Def(anchor, x))
  }

  ghost predicate MarkIn(g: Graph, next: Id, o: Id, m: Mark)
    requires Numbered(g, next) && o in g
  {
    exists x :: Contains(g, next, o, x) && MarkOf(g, x) == Some(m)
  }

  ghost predicate AnyMarkIn(g: Graph, next: Id, parent: Id, content: seq<Option<Id>>, m: Mark)
    requires Numbered(g, next) && Below(g, parent, content)
  {
    exists c | c in content && c.Some? :: MarkIn(g, next, c.value, m)
  }

  /** The marks of a node are those of the nodes inside it. */
  lemma {:induction false} NodeMarksAre(g: Graph, next: Id, o: Id, m: Mark)
    requires Numbered(g, next) && o in g
    ensures m in NodeMarks(g, next, o) <==> MarkIn(g, next, o, m)
    decreases next - o, 0
  {
    if g[o].Content? {
      ContentMarksAre(g, next, o, g[o].content, m);
      if MarkOf(g, o) == Some(m) { assert Contains(g, next, o, o); }
      if AnyMarkIn(g, next, o, g[o].content, m) {
        var c :| c in g[o].content && c.Some? && MarkIn(g, next, c.value, m);
        var x :| Contains(g, next, c.value, x) && MarkOf(g, x) == Some(m);
        assert Contains(g, next, o, x);
      }
    } else {
      assert Contains(g, next, o, o);
    }
  }

  lemma {:induction false} ContentMarksAre(g: Graph, next: Id, parent: Id, content: seq<Option<Id>>, m: Mark)
    requires Numbered(g, next) && Below(g, parent, content)
    ensures m in ContentMarks(g, next, parent, content) <==> AnyMarkIn(g, next, parent, content, m)
    decreases next - parent - 1, |content| + 1
  {
    hide NodeMarks, Contains, MarkOf;
    if content != [] {
      var init, c := content[..|content| - 1], content[|content| - 1];
      assert c in content && content == init + [c];
      ContentMarksAre(g, next, parent, init, m);
      if c.Some? { NodeMarksAre(g, next, c.value, m); }
    }
  }

  // ----- distinct anchor names -----

  ghost predicate UniqueNames(g: Graph) {
    forall x, y | x in g && y in g && g[x].Content? && g[y].Content? && g[x].anchor == g[y].anchor != "" :: x == y
  }

  /** An alias has the name of its target's anchor, and stands after the target in the document. */
  ghost predicate AliasNames(g: Graph) {
    forall a | a in g && g[a].Alias? ::
      && g[a].target.Some? && g[a].target.value in g && g[g[a].target.value].Content?
      && g[a].name == g[g[a].target.value].anchor != "" && g[a].target.value < a
  }

  /** Nodes are numbered in document order. */
  ghost predicate Preorder(g: Graph, next: Id)
    requires Numbered(g, next)
  {
    forall o, i, j, x, y | o in g && g[o].Content? && 0 <= i < j < |g[o].content| && InPart(g, next, o, i, x)
      && InPart(g, next, o, j, y) :: x < y
  }

  ghost predicate InPart(g: Graph, next: Id, o: Id, i: nat, x: Id)
    requires Numbered(g, next) && o in g && g[o].Content? && i < |g[o].content|
  {
    var c := g[o].content[i];
    assert c in g[o].content;
    c.Some? && Contains(g, next, c.value, x)
  }

  ghost predicate Genuine(g: Graph, marks: seq<Mark>) {
    forall m | m in marks && m.Def? :: m.id in g && g[m.id].Content? && g[m.id].anchor == m.name != ""
  }

  ghost predicate Defined(g: Graph, marks: seq<Mark>, x: Id) {
    x in g && g[x].Content? && Def(g[x].anchor, x) in marks
  }

  lemma {:induction false} LastDefIs(g: Graph, marks: seq<Mark>, x: Id)
    requires Genuine(g, marks) && UniqueNames(g) && Defined(g, marks, x) && g[x].anchor != ""
    ensures LastDef(marks, g[x].anchor) == Some(x)
  {
    var init, m := marks[..|marks| - 1], marks[|marks| - 1];
    assert m in marks && marks == init + [m];
    if !(m.Def? && m.name == g[x].anchor) {
      assert forall y | y in init :: y in marks;
      LastDefIs(g, init, x);
    }
  }

  lemma {:induction false} LastDefIn(marks: seq<Mark>, name: string)
    ensures LastDef(marks, name).Some? ==> Def(name, LastDef(marks, name).value) in marks
  {
    if marks != [] { LastDefIn(marks[..|marks| - 1], name); }
  }

  lemma NodeMarksGenuine(g: Graph, next: Id, o: Id)
    requires Numbered(g, next) && o in g
    ensures Genuine(g, NodeMarks(g, next, o))
  {
    hide NodeMarks, Contains;
    forall m | m in NodeMarks(g, next, o) && m.Def?
      ensures m.id in g && g[m.id].Content? && g[m.id].anchor == m.name != ""
    {
      NodeMarksAre(g, next, o, m);
    }
  }

  lemma {:induction false} MarksGenuine(g: Graph, next: Id, ids: seq<Id>)
    requires Numbered(g, next) && Nodes(g, ids)
    ensures Genuine(g, MarksOf(g, next, ids))
  {
    hide NodeMarks, Numbered;
    if ids != [] {
      MarksGenuine(g, next, ids[..|ids| - 1]);
      NodeMarksGenuine(g, next, ids[|ids| - 1]);
    }
  }

  lemma ContentMarksGenuine(g: Graph, next: Id, parent: Id, content: seq<Option<Id>>)
    requires Numbered(g, next) && Below(g, parent, content)
    ensures Genuine(g, ContentMarks(g, next, parent, content))
  {
    hide ContentMarks, Contains;
    forall m | m in ContentMarks(g, next, parent, content) && m.Def?
      ensures m.id in g && g[m.id].Content? && g[m.id].anchor == m.name != ""
    {
      ContentMarksAre(g, next, parent, content, m);
    }
  }

  // ----- aliases that refer inwards or backwards -----

  ghost predicate Refers(g: Graph, a: Id, t: Id) {
    a in g && g[a].Alias? && g[a].target == Some(t)
  }

  /** Every alias inside o refers to a node whose anchor is before, or to a node inside o. */
  ghost predicate InwardOr(g: Graph, next: Id, o: Id, before: seq<Mark>)
    requires Numbered(g, next) && o in g
  {
    forall a, t | Contains(g, next, o, a) && Refers(g, a, t) :: Defined(g, before, t) || Contains(g, next, o, t)
  }

  /** The same for a list of nodes, where inside means in the same node or an earlier one. */
  ghost predicate AllInwardOr(g: Graph, next: Id, parent: Id, content: seq<Option<Id>>, before: seq<Mark>)
    requires Numbered(g, next) && Below(g, parent, content)
  {
    forall i, a, t | 0 <= i < |content| && PartHas(g, next, parent, content, i, a) && Refers(g, a, t) ::
      Defined(g, before, t) || exists j | 0 <= j <= i :: PartHas(g, next, parent, content, j, t)
  }

  ghost predicate PartHas(g: Graph, next: Id, parent: Id, content: seq<Option<Id>>, i: nat, x: Id)
    requires Numbered(g, next) && Below(g, parent, content) && i < |content|
  {
    var c := content[i];
    assert c in content;
    c.Some? && Contains(g, next, c.value, x)
  }

  ghost predicate Orderly(g: Graph, next: Id) {
    Numbered(g, next) && UniqueNames(g) && AliasNames(g) && Preorder(g, next)
  }

  lemma {:induction false} NodeResolves(g: Graph, next: Id, o: Id, before: seq<Mark>)
    requires Orderly(g, next) && o in g && Genuine(g, before) && InwardOr(g, next, o, before)
    ensures ResolvesAfter(before, NodeMarks(g, next, o))
    decreases next - o, 0
  {
    hide UniqueNames, Preorder, Contains, LastDef;
    match g[o]
    case Alias(name, target) =>
      var t := target.value;
      assert Contains(g, next, o, o) && Refers(g, o, t) by { Itself(g, next, o); }
      AliasHasNoInside(g, next, o, t);
      LastDefIs(g, before, t);
      var marks := NodeMarks(g, next, o);
      assert marks == [Use(name, t)] && before + marks[..0] == before;
    case Content(_, anchor, content) =>
      var own := if anchor == "" then [] else [Def(anchor, o)];
      PartsInward(g, next, o, before);
      ContentResolves(g, next, o, content, before + own);
      ResolvesConcat(before, own, ContentMarks(g, next, o, content));
  }

  lemma Itself(g: Graph, next: Id, o: Id)
    requires Numbered(g, next) && o in g
    ensures Contains(g, next, o, o)
  {
  }

  lemma AliasHasNoInside(g: Graph, next: Id, o: Id, x: Id)
    requires Numbered(g, next) && o in g && g[o].Alias?
    ensures Contains(g, next, o, x) <==> x == o
  {
  }

  /** In document order, an alias in one part that refers inside the node refers to the node itself, to
      its own part or to an earlier one. */
  lemma PartsInward(g: Graph, next: Id, o: Id, before: seq<Mark>)
    requires Orderly(g, next) && o in g && g[o].Content? && InwardOr(g, next, o, before)
    ensures var own := if g[o].anchor == "" then [] else [Def(g[o].anchor, o)];
      AllInwardOr(g, next, o, g[o].content, before + own)
  {
    hide UniqueNames, Contains;
    var content, own := g[o].content, if g[o].anchor == "" then [] else [Def(g[o].anchor, o)];
    forall i, a, t | 0 <= i < |content| && PartHas(g, next, o, content, i, a) && Refers(g, a, t)
      ensures Defined(g, before + own, t) || exists j | 0 <= j <= i :: PartHas(g, next, o, content, j, t)
    {
      PartOf(g, next, o, i, a);
      if !Defined(g, before + own, t) {
        assert Contains(g, next, o, t) && t != o;
        var j := FindPart(g, next, o, t);
        assert t < a;
        assert InPart(g, next, o, i, a) && InPart(g, next, o, j, t);
      }
    }
  }

  lemma PartOf(g: Graph, next: Id, o: Id, i: nat, x: Id)
    requires Numbered(g, next) && o in g && g[o].Content? && i < |g[o].content|
    requires PartHas(g, next, o, g[o].content, i, x)
    ensures Contains(g, next, o, x)
  {
    assert g[o].content[i] in g[o].content;
  }

  lemma FindPart(g: Graph, next: Id, o: Id, x: Id) returns (j: nat)
    requires Numbered(g, next) && o in g && g[o].Content? && Contains(g, next, o, x) && x != o
    ensures j < |g[o].content| && PartHas(g, next, o, g[o].content, j, x)
  {
    var c :| c in g[o].content && c.Some? && Contains(g, next, c.value, x);
    j :| 0 <= j < |g[o].content| && g[o].content[j] == c;
  }

  lemma {:induction false} ContentResolves(g: Graph, next: Id, parent: Id, content: seq<Option<Id>>, before: seq<Mark>)
    requires Orderly(g, next) && Below(g, parent, content) && Genuine(g, before)
    requires AllInwardOr(g, next, parent, content, before)
    ensures ResolvesAfter(before, ContentMarks(g, next, parent, content))
    decreases next - parent - 1, |content| + 1
  {
    hide UniqueNames, Preorder, Contains, LastDef, NodeMarks, ResolvesAfter;
    if content == [] {
      assert ResolvesAfter(before, []) by { NothingToResolve(before); }
    } else {
      var n := |content| - 1;
      var init, c := content[..n], content[n];
      assert c in content;
      InitInward(g, next, parent, content, before);
      ContentResolves(g, next, parent, init, before);
      var a := ContentMarks(g, next, parent, init);
      if c.Some? {
        ContentMarksGenuine(g, next, parent, init);
        LastInward(g, next, parent, content, before);
        NodeResolves(g, next, c.value, before + a);
        ResolvesConcat(before, a, NodeMarks(g, next, c.value));
      } else {
        assert a + [] == a;
      }
    }
  }

  lemma NothingToResolve(before: seq<Mark>)
    ensures ResolvesAfter(before, [])
  {
  }

  lemma InitInward(g: Graph, next: Id, parent: Id, content: seq<Option<Id>>, before: seq<Mark>)
    requires Numbered(g, next) && Below(g, parent, content) && content != []
    requires AllInwardOr(g, next, parent, content, before)
    ensures Below(g, parent, content[..|content| - 1])
    ensures AllInwardOr(g, next, parent, content[..|content| - 1], before)
  {
    hide Contains;
    var init := content[..|content| - 1];
    forall i, x | 0 <= i < |init|
      ensures PartHas(g, next, parent, init, i, x) <==> PartHas(g, next, parent, content, i, x)
    {
    }
    forall i, a, t | 0 <= i < |init| && PartHas(g, next, parent, init, i, a) && Refers(g, a, t)
      ensures Defined(g, before, t) || exists j | 0 <= j <= i :: PartHas(g, next, parent, init, j, t)
    {
      assert PartHas(g, next, parent, content, i, a);
    }
  }

  lemma LastInward(g: Graph, next: Id, parent: Id, content: seq<Option<Id>>, before: seq<Mark>)
    requires Orderly(g, next) && Below(g, parent, content) && content != [] && content[|content| - 1].Some?
    requires AllInwardOr(g, next, parent, content, before) && Below(g, parent, content[..|content| - 1])
    ensures content[|content| - 1].value in g
    ensures InwardOr(g, next, content[|content| - 1].value,
                     before + ContentMarks(g, next, parent, content[..|content| - 1]))
  {
    hide UniqueNames, Preorder, Contains, ContentMarks;
    var n := |content| - 1;
    var init, c := content[..n], content[n];
    var marks := ContentMarks(g, next, parent, init);
    assert c in content;
    forall a, t | Contains(g, next, c.value, a) && Refers(g, a, t)
      ensures Defined(g, before + marks, t) || Contains(g, next, c.value, t)
    {
      assert PartHas(g, next, parent, content, n, a);
      if !Defined(g, before, t) {
        var j :| 0 <= j <= n && PartHas(g, next, parent, content, j, t);
        if j < n {
          assert init[j] == content[j] && init[j] in init;
          DefinedInside(g, next, parent, init, j, t);
        }
      }
    }
  }

  lemma DefinedInside(g: Graph, next: Id, parent: Id, content: seq<Option<Id>>, j: nat, t: Id)
    requires Numbered(g, next) && Below(g, parent, content) && j < |content| && PartHas(g, next, parent, content, j, t)
    requires t in g && g[t].Content? && g[t].anchor != ""
    ensures Defined(g, ContentMarks(g, next, parent, content), t)
  {
    hide Contains, ContentMarks;
    assert content[j] in content;
    var m := Def(g[t].anchor, t);
    assert MarkOf(g, t) == Some(m);
    assert MarkIn(g, next, content[j].value, m);
    ContentMarksAre(g, next, parent, content, m);
  }

  /** Where anchor names are distinct: the aliases of the written nodes resolve exactly when each refers
      to a node inside the same written node or inside one written before it. */
  lemma ResolvesIffInward(g: Graph, next: Id, ids: seq<Id>)
    requires Orderly(g, next) && Nodes(g, ids)
    ensures ResolvesAfter([], MarksOf(g, next, ids)) <==>
      forall k, a, t | 0 <= k < |ids| && Contains(g, next, ids[k], a) && Refers(g, a, t) ::
        exists j | 0 <= j <= k :: Contains(g, next, ids[j], t)
  {
    hide Orderly, Contains, ResolvesAfter, MarksOf, ResolvesAt;
    assert Numbered(g, next) by { UnfoldOrderly(g, next); }
    ResolvesIffEach(g, next, ids);
    forall k | 0 <= k < |ids|
      ensures ResolvesAt(g, next, ids, k) <==>
        forall a, t | Contains(g, next, ids[k], a) && Refers(g, a, t) ::
          exists j | 0 <= j <= k :: Contains(g, next, ids[j], t)
    {
      EachIffInward(g, next, ids, k);
    }
  }

  lemma UnfoldOrderly(g: Graph, next: Id)
    requires Orderly(g, next)
    ensures Numbered(g, next) && UniqueNames(g) && AliasNames(g)
  {
  }

  lemma EachIffInward(g: Graph, next: Id, ids: seq<Id>, k: nat)
    requires Orderly(g, next) && Nodes(g, ids) && k < |ids|
    ensures ResolvesAt(g, next, ids, k) <==>
      forall a, t | Contains(g, next, ids[k], a) && Refers(g, a, t) ::
        exists j | 0 <= j <= k :: Contains(g, next, ids[j], t)
  {
    hide Orderly, Contains, ResolvesAfter, MarksOf, NodeMarks;
    UnfoldOrderly(g, next);
    var before := MarksOf(g, next, ids[..k]);
    MarksGenuine(g, next, ids[..k]);
    if ResolvesAt(g, next, ids, k) {
      forall a, t | Contains(g, next, ids[k], a) && Refers(g, a, t)
        ensures exists j | 0 <= j <= k :: Contains(g, next, ids[j], t)
      {
        UseResolves(g, next, ids[k], a, t, before);
        DefinedWhere(g, next, ids, k, t);
      }
    }
    if forall a, t | Contains(g, next, ids[k], a) && Refers(g, a, t) ::
      exists j | 0 <= j <= k :: Contains(g, next, ids[j], t) {
      forall a, t | Contains(g, next, ids[k], a) && Refers(g, a, t)
        ensures Defined(g, before, t) || Contains(g, next, ids[k], t)
      {
        var j :| 0 <= j <= k && Contains(g, next, ids[j], t);
        if j < k { DefinedEarlier(g, next, ids[..k], j, t); }
      }
      NodeResolves(g, next, ids[k], before);
    }
  }

  /** An alias that resolves has the anchor of its node before it. */
  lemma UseResolves(g: Graph, next: Id, o: Id, a: Id, t: Id, before: seq<Mark>)
    requires Numbered(g, next) && AliasNames(g) && o in g && Contains(g, next, o, a) && Refers(g, a, t)
    requires ResolvesAfter(before, NodeMarks(g, next, o))
    ensures Defined(g, before + NodeMarks(g, next, o), t)
  {
    hide Contains, NodeMarks, LastDef;
    var marks, m := NodeMarks(g, next, o), Use(g[a].name, t);
    assert MarkOf(g, a) == Some(m);
    NodeMarksAre(g, next, o, m);
    var i :| 0 <= i < |marks| && marks[i] == m;
    LastDefIn(before + marks[..i], m.name);
    assert Def(m.name, t) in before + marks[..i];
    assert forall x | x in marks[..i] :: x in marks;
  }

  lemma DefinedWhere(g: Graph, next: Id, ids: seq<Id>, k: nat, t: Id)
    requires Numbered(g, next) && Nodes(g, ids) && k < |ids|
    requires Defined(g, MarksOf(g, next, ids[..k]) + NodeMarks(g, next, ids[k]), t) && g[t].anchor != ""
    ensures exists j | 0 <= j <= k :: Contains(g, next, ids[j], t)
  {
    hide Contains, NodeMarks, Numbered;
    var m := Def(g[t].anchor, t);
    if m in NodeMarks(g, next, ids[k]) {
      NodeMarksAre(g, next, ids[k], m);
    } else {
      var j := WhichNode(g, next, ids[..k], m);
      NodeMarksAre(g, next, ids[j], m);
    }
  }

  lemma {:induction false} WhichNode(g: Graph, next: Id, ids: seq<Id>, m: Mark) returns (j: nat)
    requires Numbered(g, next) && Nodes(g, ids) && m in MarksOf(g, next, ids)
    ensures j < |ids| && m in NodeMarks(g, next, ids[j])
  {
    hide NodeMarks, Numbered;
    var n := |ids| - 1;
    if m in NodeMarks(g, next, ids[n]) { j := n; } else { j := WhichNode(g, next, ids[..n], m); }
  }

  lemma {:induction false} DefinedEarlier(g: Graph, next: Id, ids: seq<Id>, j: nat, t: Id)
    requires Numbered(g, next) && Nodes(g, ids) && j < |ids| && Contains(g, next, ids[j], t)
    requires t in g && g[t].Content? && g[t].anchor != ""
    ensures Defined(g, MarksOf(g, next, ids), t)
  {
    hide Contains, NodeMarks, Numbered;
    var n, m := |ids| - 1, Def(g[t].anchor, t);
    if j == n {
      assert MarkOf(g, t) == Some(m);
      NodeMarksAre(g, next, ids[n], m);
    } else {
      DefinedEarlier(g, next, ids[..n], j, t);
    }
  }

  // ----- with distinct names, what can be parsed resolves -----

  lemma {:induction false} UsesAre(g: Graph, next: Id, ids: seq<Id>)
    requires Numbered(g, next) && AliasNames(g) && Nodes(g, ids)
    ensures forall m | m in MarksOf(g, next, ids) && m.Use? ::
      m.id in g && g[m.id].Content? && g[m.id].anchor == m.name != ""
  {
    hide NodeMarks, Contains;
    forall m | m in MarksOf(g, next, ids) && m.Use?
      ensures m.id in g && g[m.id].Content? && g[m.id].anchor == m.name != ""
    {
      var j := WhichNode(g, next, ids, m);
      NodeMarksAre(g, next, ids[j], m);
      var a :| Contains(g, next, ids[j], a) && MarkOf(g, a) == Some(m);
      assert a in g && g[a].Alias?;
    }
  }

  lemma LoadsIsResolves(g: Graph, next: Id, ids: seq<Id>)
    requires Orderly(g, next) && Nodes(g, ids)
    ensures LoadsAfter([], MarksOf(g, next, ids)) <==> ResolvesAfter([], MarksOf(g, next, ids))
  {
    hide Orderly, LastDef, MarksOf;
    UnfoldOrderly(g, next);
    var marks := MarksOf(g, next, ids);
    UsesAre(g, next, ids);
    MarksGenuine(g, next, ids);
    forall i | 0 <= i < |marks| && marks[i].Use? && LastDef([] + marks[..i], marks[i].name).Some?
      ensures LastDef([] + marks[..i], marks[i].name) == Some(marks[i].id)
    {
      var x := LastDef([] + marks[..i], marks[i].name).value;
      LastDefIn([] + marks[..i], marks[i].name);
      assert Def(marks[i].name, x) in marks && marks[i] in marks;
    }
  }
}

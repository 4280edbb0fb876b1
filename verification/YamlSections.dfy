/** Capturing the unknown sections of the client config file and writing them back:
    client/config/config.go. */
module YamlSections {
  import opened Basics
  import opened YamlInline

  const KNOWN: set<string> := {"current_context", "contexts", "extractor"}

  /** Value of a node; an alias node's is the name of its anchor. */
  function RawValue(g: Graph, r: Option<Id>): string
    requires RefIn(g, r)
  {
    if r.None? then "" else match g[r.value] case Content(p, _, _) => p.value case Alias(name, _) => name
  }

  /** The key a reader sees. */
  function KeyOf(t: Tree): string { if t.Clone? then t.payload.value else "" }

  datatype Section = Section(key: Tree, value: Tree)

  ghost predicate Refs(g: Graph, content: seq<Option<Id>>) {
    Closed(g) && forall c | c in content :: RefIn(g, c)
  }

  function SectionAt(g: Graph, content: seq<Option<Id>>, i: nat): Section
    requires Refs(g, content) && 2 * i + 1 < |content|
  {
    Section(Inline(g, content[2 * i], {}), Inline(g, content[2 * i + 1], {}))
  }

  /** The sections kept from the first n entries of the top-level mapping. */
  function Captured(g: Graph, content: seq<Option<Id>>, n: nat): seq<Section>
    requires Refs(g, content) && 2 * n <= |content|
  {
    if n == 0 then []
    else if RawValue(g, content[2 * (n - 1)]) in KNOWN then Captured(g, content, n - 1)
    else Captured(g, content, n - 1) + [SectionAt(g, content, n - 1)]
  }

  /** captureUnknownSections, on the content of the root mapping. */
  method CaptureUnknownSections(g: Graph, content: seq<Option<Id>>) returns (unknown: seq<Section>)
    requires Refs(g, content)
    ensures unknown == Captured(g, content, |content| / 2)
  {
    unknown := [];
    var i := 0;
    while i + 1 < |content|
      invariant i % 2 == 0 && i <= |content|
      invariant unknown == Captured(g, content, i / 2)
    {
      assert content[i] in content && content[i + 1] in content;
      if RawValue(g, content[i]) !in KNOWN {
        var keys := new Inliner();
        var key := keys.InlineAliases(g, content[i]);
        var values := new Inliner();
        var value := values.InlineAliases(g, content[i + 1]);
        unknown := unknown + [Section(key, value)];
      }
      i := i + 2;
    }
  }

  /** marshalFile, given what the encoder emits for the recognized fields. */
  method MarshalFile(encoded: seq<Section>, unknown: seq<Section>) returns (root: seq<Section>)
    ensures root == encoded + unknown
  {
    root := encoded;
    for i := 0 to |unknown|
      invariant root == encoded + unknown[..i]
    {
      root := root + [unknown[i]];
    }
  }

  // ----- keys -----

  predicate Skipped(g: Graph, content: seq<Option<Id>>, i: nat)
    requires Refs(g, content) && 2 * i < |content|
  {
    RawValue(g, content[2 * i]) in KNOWN
  }

  predicate IsAlias(g: Graph, r: Option<Id>)
    requires RefIn(g, r)
  {
    r.Some? && g[r.value].Alias?
  }

  /** What the decoder compares to find a key twice: the kind of its node and its value. */
  datatype KeyId = NoKey | Plain(kind: Kind, value: string) | Named(anchor: string)

  function RawKey(g: Graph, r: Option<Id>): KeyId
    requires RefIn(g, r)
  {
    if r.None? then NoKey
    else match g[r.value] case Content(p, _, _) => Plain(p.kind, p.value) case Alias(name, _) => Named(name)
  }

  function IdOf(t: Tree): KeyId { if t.Clone? then Plain(t.payload.kind, t.payload.value) else NoKey }

  /** The key that a key node stands for: an alias stands for the node it refers to. */
  function Read(g: Graph, key: Option<Id>): Option<Id>
    requires RefIn(g, key)
  {
    if IsAlias(g, key) then g[key.value].target else key
  }

  /** The top-level mapping of a document: the decoder has found no key twice. */
  ghost predicate TopLevel(g: Graph, content: seq<Option<Id>>) {
    && Parsed(g) && |content| % 2 == 0 && Refs(g, content)
    && forall i, j | 0 <= i < j < |content| / 2 :: RawKey(g, content[2 * i]) != RawKey(g, content[2 * j])
  }

  /** An alias key is inlined as what it refers to, but is looked up by the name of its anchor. */
  lemma KeyResolves(g: Graph, key: Option<Id>)
    requires Parsed(g) && RefIn(g, key)
    ensures RefIn(g, Read(g, key)) && !IsAlias(g, Read(g, key))
    ensures var t := Inline(g, key, {});
      IdOf(t) == RawKey(g, Read(g, key)) && KeyOf(t) == RawValue(g, Read(g, key)) && !t.Shared?
  {
    if IsAlias(g, key) {
      var target := g[key.value].target;
      assert target.value != key.value;
      assert Inline(g, key, {}) == Inline(g, target, {} + {key.value});
    }
  }

  /** The entries that are captured. */
  function Kept(g: Graph, content: seq<Option<Id>>, n: nat): (ks: seq<nat>)
    requires Refs(g, content) && 2 * n <= |content|
    ensures forall k | 0 <= k < |ks| :: ks[k] < n && !Skipped(g, content, ks[k])
    ensures forall i | 0 <= i < n && !Skipped(g, content, i) :: i in ks
    ensures Distinct(ks)
  {
    if n == 0 then []
    else if Skipped(g, content, n - 1) then Kept(g, content, n - 1)
    else Kept(g, content, n - 1) + [n - 1]
  }

  lemma {:induction false} CapturedAt(g: Graph, content: seq<Option<Id>>, n: nat)
    requires Refs(g, content) && 2 * n <= |content|
    ensures var ks, kept := Kept(g, content, n), Captured(g, content, n);
      |kept| == |ks| && forall k | 0 <= k < |ks| :: kept[k] == SectionAt(g, content, ks[k])
  {
    hide SectionAt;
    if n > 0 { CapturedAt(g, content, n - 1); }
  }

  lemma InCaptured(g: Graph, content: seq<Option<Id>>, n: nat, s: Section)
    requires Refs(g, content) && 2 * n <= |content|
    ensures s in Captured(g, content, n)
       <==> exists i | 0 <= i < n :: !Skipped(g, content, i) && s == SectionAt(g, content, i)
  {
    hide SectionAt, Captured, Skipped, Kept;
    CapturedAt(g, content, n);
    var ks, kept := Kept(g, content, n), Captured(g, content, n);
    if s in kept {
      var k :| 0 <= k < |kept| && kept[k] == s;
      assert ks[k] in ks;
    }
    if i: nat :| i < n && !Skipped(g, content, i) && s == SectionAt(g, content, i) {
      var k :| 0 <= k < |ks| && ks[k] == i;
      assert kept[k] == s;
    }
  }

  // ----- no unknown section is lost -----

  function Entries(g: Graph, content: seq<Option<Id>>, n: nat): seq<Section>
    requires Refs(g, content) && 2 * n <= |content|
  {
    if n == 0 then [] else Entries(g, content, n - 1) + [SectionAt(g, content, n - 1)]
  }

  lemma CapturedSteps(g: Graph, content: seq<Option<Id>>, n: nat)
    requires Refs(g, content) && 2 * n <= |content|
    ensures n == 0 ==> Captured(g, content, n) == Entries(g, content, n) == []
    ensures n > 0 ==>
      var last := SectionAt(g, content, n - 1);
      && Entries(g, content, n) == Entries(g, content, n - 1) + [last]
      && Captured(g, content, n) ==
           if Skipped(g, content, n - 1) then Captured(g, content, n - 1) else Captured(g, content, n - 1) + [last]
  {
    hide SectionAt, RawValue;
  }

  lemma {:induction false} CountKept(g: Graph, content: seq<Option<Id>>, n: nat, s: Section)
    requires Refs(g, content) && 2 * n <= |content|
    ensures Occurrences(Captured(g, content, n), s) <= Occurrences(Entries(g, content, n), s)
    ensures Occurrences(Captured(g, content, n), s) == Occurrences(Entries(g, content, n), s) <==>
      forall i | 0 <= i < n :: SectionAt(g, content, i) == s ==> !Skipped(g, content, i)
  {
    hide SectionAt, RawValue, Occurrences, Captured, Entries;
    CapturedSteps(g, content, n);
    if n > 0 {
      CountKept(g, content, n - 1, s);
      var last := SectionAt(g, content, n - 1);
      OccurrencesSnoc(Captured(g, content, n - 1), last, s);
      OccurrencesSnoc(Entries(g, content, n - 1), last, s);
    }
  }

  /** A key that is looked up as a known one and read as an unknown one. */
  predicate Mistaken(g: Graph, key: Option<Id>)
    requires Closed(g) && RefIn(g, key)
  {
    IsAlias(g, key) && RawValue(g, key) in KNOWN && RawValue(g, g[key.value].target) !in KNOWN
  }

  /** Every section that reads as unknown is captured as often as the document holds it exactly when
      no key is an alias whose anchor is called like a known key and that reads as an unknown one. */
  lemma UnknownSectionsSurvive(g: Graph, content: seq<Option<Id>>)
    requires Parsed(g) && Refs(g, content)
    ensures var n := |content| / 2;
      (forall s: Section | KeyOf(s.key) !in KNOWN ::
        Occurrences(Captured(g, content, n), s) == Occurrences(Entries(g, content, n), s))
      <==>
      (forall i | 0 <= i < n :: !Mistaken(g, content[2 * i]))
  {
    hide Captured, Entries, RawValue, SectionAt, KeyOf, Occurrences;
    var n := |content| / 2;
    forall i | 0 <= i < n
      ensures content[2 * i] in content
      ensures Skipped(g, content, i) && KeyOf(SectionAt(g, content, i).key) !in KNOWN <==> Mistaken(g, content[2 * i])
    {
      assert content[2 * i] in content;
      KeyOfSection(g, content, i);
    }
    forall s
      ensures Occurrences(Captured(g, content, n), s) == Occurrences(Entries(g, content, n), s) <==>
        forall i | 0 <= i < n :: SectionAt(g, content, i) == s ==> !Skipped(g, content, i)
    {
      CountKept(g, content, n, s);
    }
    if i :| 0 <= i < n && Mistaken(g, content[2 * i]) {
      var s := SectionAt(g, content, i);
      assert Occurrences(Captured(g, content, n), s) != Occurrences(Entries(g, content, n), s);
    }
  }

  lemma KeyOfSection(g: Graph, content: seq<Option<Id>>, i: nat)
    requires Parsed(g) && Refs(g, content) && 2 * i + 1 < |content|
    ensures RefIn(g, content[2 * i]) && RefIn(g, Read(g, content[2 * i]))
    ensures var key, t := content[2 * i], SectionAt(g, content, i).key;
      IdOf(t) == RawKey(g, Read(g, key)) && KeyOf(t) == RawValue(g, Read(g, key)) && !t.Shared?
  {
    assert content[2 * i] in content;
    KeyResolves(g, content[2 * i]);
  }

  // ----- no key is written twice -----

  function Ids(sections: seq<Section>): (r: seq<KeyId>)
    ensures |r| == |sections| && forall i | 0 <= i < |r| :: r[i] == IdOf(sections[i].key)
  {
    seq(|sections|, i requires 0 <= i < |sections| => IdOf(sections[i].key))
  }

  ghost predicate ReadsAs(g: Graph, content: seq<Option<Id>>, i: nat, id: KeyId)
    requires Parsed(g) && Refs(g, content) && 2 * i + 1 < |content|
  {
    KeyOfSection(g, content, i);
    RawKey(g, Read(g, content[2 * i])) == id
  }

  /** The alias key of entry i reads as a key the encoder emits, or like another captured key. */
  ghost predicate Clashes(g: Graph, content: seq<Option<Id>>, encoded: seq<Section>, i: nat)
    requires Parsed(g) && Refs(g, content) && 2 * i + 1 < |content|
  {
    KeyOfSection(g, content, i);
    IsAlias(g, content[2 * i]) &&
    var id := RawKey(g, Read(g, content[2 * i]));
    id in Ids(encoded) ||
    exists j | 0 <= j < |content| / 2 && j != i :: !Skipped(g, content, j) && ReadsAs(g, content, j, id)
  }

  /** The written file has no key twice exactly when no captured alias key clashes. */
  lemma SavedKeysDistinct(g: Graph, content: seq<Option<Id>>, encoded: seq<Section>)
    requires TopLevel(g, content) && Distinct(Ids(encoded)) && forall s | s in encoded :: KeyOf(s.key) in KNOWN
    ensures var n := |content| / 2;
      Distinct(Ids(encoded + Captured(g, content, n)))
      <==>
      (forall i | 0 <= i < n :: !Skipped(g, content, i) ==> !Clashes(g, content, encoded, i))
  {
    hide Captured, SectionAt, RawValue, RawKey, Distinct, IdOf, KeyOf, TopLevel, Kept;
    assert Parsed(g) && Refs(g, content) && |content| % 2 == 0 by { UnfoldTopLevel(g, content); }
    var n := |content| / 2;
    var kept := Captured(g, content, n);
    assert Ids(encoded + kept) == Ids(encoded) + Ids(kept);
    DistinctParts(Ids(encoded), Ids(kept));
    KeptIdsDistinct(g, content);
    KeptIdsIn(g, content);
    forall i | 0 <= i < n && !Skipped(g, content, i)
      ensures var id := IdOf(SectionAt(g, content, i).key);
        ReadsAs(g, content, i, id) && (id in Ids(encoded) ==> IsAlias(g, content[2 * i]))
    {
      NotEmitted(g, content, encoded, i);
    }
    forall i, j | 0 <= i < n && 0 <= j < n && i != j && !Skipped(g, content, i) && !Skipped(g, content, j)
      && IdOf(SectionAt(g, content, i).key) == IdOf(SectionAt(g, content, j).key)
      ensures Clashes(g, content, encoded, i) || Clashes(g, content, encoded, j)
    {
      SameIdClashes(g, content, encoded, i, j);
    }
  }

  lemma UnfoldTopLevel(g: Graph, content: seq<Option<Id>>)
    requires TopLevel(g, content)
    ensures Parsed(g) && Refs(g, content) && |content| % 2 == 0
  {
  }

  lemma DistinctParts<T>(a: seq<T>, b: seq<T>)
    ensures Distinct(a + b) <==> Distinct(a) && Distinct(b) && forall x | x in b :: x !in a
  {
    var c := a + b;
    if Distinct(a) && Distinct(b) && forall x | x in b :: x !in a { DistinctConcat(a, b); }
    if Distinct(c) {
      forall i, j | 0 <= i < j < |a| ensures a[i] != a[j] { assert c[i] == a[i] && c[j] == a[j]; }
      forall i, j | 0 <= i < j < |b| ensures b[i] != b[j] { assert c[|a| + i] == b[i] && c[|a| + j] == b[j]; }
      forall i, j | 0 <= i < |a| && 0 <= j < |b| ensures a[i] != b[j] { assert c[i] == a[i] && c[|a| + j] == b[j]; }
    }
  }

  lemma KeptIdsIn(g: Graph, content: seq<Option<Id>>)
    requires Refs(g, content)
    ensures var n := |content| / 2; forall id ::
      id in Ids(Captured(g, content, n)) <==>
      exists i | 0 <= i < n :: !Skipped(g, content, i) && IdOf(SectionAt(g, content, i).key) == id
  {
    hide Captured, SectionAt, IdOf, Skipped;
    var n := |content| / 2;
    var kept := Captured(g, content, n);
    forall id
      ensures id in Ids(kept) <==>
        exists i | 0 <= i < n :: !Skipped(g, content, i) && IdOf(SectionAt(g, content, i).key) == id
    {
      if id in Ids(kept) {
        var k :| 0 <= k < |kept| && Ids(kept)[k] == id;
        InCaptured(g, content, n, kept[k]);
      }
      if i: nat :| i < n && !Skipped(g, content, i) && IdOf(SectionAt(g, content, i).key) == id {
        InCaptured(g, content, n, SectionAt(g, content, i));
        var k :| 0 <= k < |kept| && kept[k] == SectionAt(g, content, i);
        assert Ids(kept)[k] == id;
      }
    }
  }

  lemma KeptIdsDistinct(g: Graph, content: seq<Option<Id>>)
    requires Refs(g, content)
    ensures var n := |content| / 2;
      Distinct(Ids(Captured(g, content, n))) <==>
      forall i, j | 0 <= i < n && 0 <= j < n && i != j && !Skipped(g, content, i) && !Skipped(g, content, j) ::
        IdOf(SectionAt(g, content, i).key) != IdOf(SectionAt(g, content, j).key)
  {
    hide Captured, SectionAt, IdOf, Skipped, Kept;
    var n := |content| / 2;
    var ks, ids := Kept(g, content, n), Ids(Captured(g, content, n));
    CapturedAt(g, content, n);
    if Distinct(ids) {
      forall i, j | 0 <= i < n && 0 <= j < n && i != j && !Skipped(g, content, i) && !Skipped(g, content, j)
        ensures IdOf(SectionAt(g, content, i).key) != IdOf(SectionAt(g, content, j).key)
      {
        var a :| 0 <= a < |ks| && ks[a] == i;
        var b :| 0 <= b < |ks| && ks[b] == j;
        assert ids[a] != ids[b];
      }
    } else {
      var a, b :| 0 <= a < b < |ids| && ids[a] == ids[b];
      assert ks[a] in ks && ks[b] in ks && ks[a] != ks[b];
    }
  }

  /** A captured key that is not an alias is no emitted key. */
  lemma NotEmitted(g: Graph, content: seq<Option<Id>>, encoded: seq<Section>, i: nat)
    requires Parsed(g) && Refs(g, content) && 2 * i + 1 < |content| && !Skipped(g, content, i)
    requires forall s | s in encoded :: KeyOf(s.key) in KNOWN
    ensures var id := IdOf(SectionAt(g, content, i).key);
      ReadsAs(g, content, i, id) && (id in Ids(encoded) ==> IsAlias(g, content[2 * i]))
  {
    hide SectionAt;
    KeyOfSection(g, content, i);
    var id := IdOf(SectionAt(g, content, i).key);
    if id in Ids(encoded) {
      var k :| 0 <= k < |encoded| && Ids(encoded)[k] == id;
      assert encoded[k] in encoded;
    }
  }

  /** Of two captured keys that read alike, one is an alias. */
  lemma SameIdClashes(g: Graph, content: seq<Option<Id>>, encoded: seq<Section>, i: nat, j: nat)
    requires TopLevel(g, content) && i < |content| / 2 && j < |content| / 2 && i != j
    requires !Skipped(g, content, i) && !Skipped(g, content, j)
    requires IdOf(SectionAt(g, content, i).key) == IdOf(SectionAt(g, content, j).key)
    ensures Clashes(g, content, encoded, i) || Clashes(g, content, encoded, j)
  {
    hide SectionAt, RawKey, RawValue, IdOf;
    KeyOfSection(g, content, i);
    KeyOfSection(g, content, j);
    var id := IdOf(SectionAt(g, content, i).key);
    assert ReadsAs(g, content, i, id) && ReadsAs(g, content, j, id);
  }

  /** A key that is not an alias is compared as it is read. */
  lemma PlainKeysAreSafe(g: Graph, content: seq<Option<Id>>, i: nat)
    requires Parsed(g) && Refs(g, content) && 2 * i + 1 < |content| && RefIn(g, content[2 * i])
    requires !IsAlias(g, content[2 * i])
    ensures Skipped(g, content, i) <==>
      KeyOf(SectionAt(g, content, i).key) in {"current_context", "contexts", "extractor"}
  {
    KeyOfSection(g, content, i);
  }
}

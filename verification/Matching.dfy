/** Query matching, de-duplication and scoring: server/routing/query_matching.go and
    server/routing/utils.go. */
module Matching {
  import opened Text
  import opened Labels
  import opened Basics

  datatype QueryType = Unspecified | Skills | Locators | Domains | Modules | Unrecognised(code: int)
  datatype Query = Query(kind: QueryType, value: string)

  /** Label.Type. */
  function TypeOf(lbl: string): LabelType {
    if Skill.Prefix() <= lbl then Skill
    else if Domain.Prefix() <= lbl then Domain
    else if Module.Prefix() <= lbl then Module
    else if Locator.Prefix() <= lbl then Locator
    else Unknown
  }

  predicate PathMatches(lt: LabelType, value: string, lbl: string) {
    var target := lt.QueryTarget(value);
    TypeOf(lbl) == lt && (lbl == target || target + "/" <= lbl)
  }

  /** QueryMatchesLabels; a nil query is None, and only the labels present matter. */
  predicate QueryMatches(query: Option<Query>, labels: set<string>) {
    match query
    case None => false
    case Some(q) =>
      match q.kind
      case Skills => exists l | l in labels :: PathMatches(Skill, q.value, l)
      case Domains => exists l | l in labels :: PathMatches(Domain, q.value, l)
      case Modules => exists l | l in labels :: PathMatches(Module, q.value, l)
      case Locators => exists l | l in labels :: TypeOf(l) == Locator && l == Locator.QueryTarget(q.value)
      case Unspecified => true
      case Unrecognised(_) => false
  }

  /** The loop of the skill, domain and module cases: exact match, or prefix up to a slash. */
  method AnyPathMatches(lt: LabelType, value: string, labels: seq<string>) returns (b: bool)
    ensures b <==> exists l | l in labels :: PathMatches(lt, value, l)
  {
    hide LabelType.QueryTarget, TypeOf;
    var target := lt.QueryTarget(value);
    for i := 0 to |labels|
      invariant forall l | l in labels[..i] :: !PathMatches(lt, value, l)
    {
      assert labels[i] in labels;
      if TypeOf(labels[i]) == lt {
        if labels[i] == target { return true; }
        if target + "/" <= labels[i] { return true; }
      }
    }
    b := false;
  }

  method QueryMatchesLabels(query: Option<Query>, labels: seq<string>) returns (b: bool)
    ensures b <==> QueryMatches(query, Elems(labels))
  {
    hide PathMatches, LabelType.QueryTarget, TypeOf;
    if query.None? { return false; }
    match query.value.kind {
      case Skills => b := AnyPathMatches(Skill, query.value.value, labels);
      case Locators =>
        for i := 0 to |labels|
          invariant forall l | l in labels[..i] ::
            !(TypeOf(l) == Locator && l == Locator.QueryTarget(query.value.value))
        {
          if TypeOf(labels[i]) == Locator && labels[i] == Locator.QueryTarget(query.value.value) {
            assert labels[i] in Elems(labels);
            return true;
          }
        }
        b := false;
      case Domains => b := AnyPathMatches(Domain, query.value.value, labels);
      case Modules => b := AnyPathMatches(Module, query.value.value, labels);
      case Unspecified => b := true;
      case Unrecognised(_) => b := false;
    }
  }

  /** Label types are told apart by their second character. */
  lemma TypeOfPrefixed(lt: LabelType, w: string)
    requires !lt.Unknown?
    ensures TypeOf(lt.Prefix() + w) == lt
  {
    var l := lt.Prefix() + w;
    assert l[1] == lt.Prefix()[1];
  }

  /** Behind one namespace, "equal or extends by a slash" is prefixing on segments. */
  lemma TargetSegments(lt: LabelType, v: string, w: string)
    requires !lt.Unknown?
    ensures var p := lt.Prefix(); (p + w == p + v || p + v + "/" <= p + w) <==> Split(v) <= Split(w)
  {
    SegmentPrefix(lt.Prefix() + w, lt.Prefix() + v);
    SplitPrefixed(lt, w);
    SplitPrefixed(lt, v);
    PrefixedPrefix(["", lt.Name()], Split(v), Split(w));
  }

  /** Matching a path query is prefixing on segments, within one label type. */
  lemma MatchBySegments(lt: LabelType, value: string, other: LabelType, w: string)
    requires !lt.Unknown? && !other.Unknown?
    ensures PathMatches(lt, value, other.Prefix() + w) <==>
      lt == other && Split(lt.Normalize(value)) <= Split(w)
  {
    TypeOfPrefixed(other, w);
    TargetSegments(lt, lt.Normalize(value), w);
  }

  /** A locator query matches equal values only. */
  lemma MatchLocator(value: string, other: LabelType, w: string)
    requires !other.Unknown?
    ensures TypeOf(other.Prefix() + w) == Locator && other.Prefix() + w == Locator.QueryTarget(value) <==>
      other == Locator && w == Locator.Normalize(value)
  {
    TypeOfPrefixed(other, w);
    if other == Locator {
      assert (other.Prefix() + w)[|other.Prefix()|..] == w;
      assert Locator.QueryTarget(value)[|other.Prefix()|..] == Locator.Normalize(value);
    }
  }

  /** The label stands in this namespace at or below the path. */
  predicate Below(namespace: string, path: string, lbl: string) {
    namespace <= lbl && Split(path) <= Split(lbl[|namespace|..])
  }

  lemma PathMatchesBelow(lt: LabelType, value: string, lbl: string)
    requires !lt.Unknown?
    ensures PathMatches(lt, value, lbl) <==> Below(lt.Prefix(), lt.Normalize(value), lbl)
  {
    hide Split, LabelType.Normalize, LabelType.Prefix;
    var p := lt.Prefix();
    assert TypeOf(lbl) == lt ==> p <= lbl;
    if p <= lbl {
      assert lbl == p + lbl[|p|..];
      MatchBySegments(lt, value, lt, lbl[|p|..]);
    }
  }

  lemma LocatorIs(value: string, lbl: string)
    ensures TypeOf(lbl) == Locator && lbl == Locator.QueryTarget(value) <==>
      lbl == "/locators/" + Locator.Normalize(value)
  {
    hide LabelType.Normalize;
    assert Locator.Prefix() == "/locators/";
    TypeOfPrefixed(Locator, Locator.Normalize(value));
  }

  /** What each kind of query asks of the labels. */
  lemma QueryMeaning(value: string, labels: set<string>, code: int)
    ensures QueryMatches(Some(Query(Skills, value)), labels) <==>
      exists l | l in labels :: Below("/skills/", Skill.Normalize(value), l)
    ensures QueryMatches(Some(Query(Domains, value)), labels) <==>
      exists l | l in labels :: Below("/domains/", Domain.Normalize(value), l)
    ensures QueryMatches(Some(Query(Modules, value)), labels) <==>
      exists l | l in labels :: Below("/modules/", Module.Normalize(value), l)
    ensures QueryMatches(Some(Query(Locators, value)), labels) <==>
      "/locators/" + Locator.Normalize(value) in labels
    ensures QueryMatches(Some(Query(Unspecified, value)), labels)
    ensures !QueryMatches(Some(Query(Unrecognised(code), value)), labels) && !QueryMatches(None, labels)
  {
    hide PathMatches, LabelType.Normalize, LabelType.QueryTarget, TypeOf, Below;
    assert Skill.Prefix() == "/skills/" && Domain.Prefix() == "/domains/" && Module.Prefix() == "/modules/";
    forall l | l in labels
      ensures PathMatches(Skill, value, l) <==> Below("/skills/", Skill.Normalize(value), l)
      ensures PathMatches(Domain, value, l) <==> Below("/domains/", Domain.Normalize(value), l)
      ensures PathMatches(Module, value, l) <==> Below("/modules/", Module.Normalize(value), l)
      ensures TypeOf(l) == Locator && l == Locator.QueryTarget(value) <==> l == "/locators/" + Locator.Normalize(value)
    {
      PathMatchesBelow(Skill, value, l);
      PathMatchesBelow(Domain, value, l);
      PathMatchesBelow(Module, value, l);
      LocatorIs(value, l);
    }
  }

  /** The labels of a record answer a query by the values that the record lists. */
  lemma RecordAnswers(r: Record, value: string)
    ensures var labels := Elems(RecordLabels(r));
      && (QueryMatches(Some(Query(Skills, value)), labels) <==>
            exists v | v in r.skills :: Split(Skill.Normalize(value)) <= Split(Skill.Normalize(v)))
      && (QueryMatches(Some(Query(Domains, value)), labels) <==>
            exists v | v in r.domains :: Split(Domain.Normalize(value)) <= Split(Domain.Normalize(v)))
      && (QueryMatches(Some(Query(Modules, value)), labels) <==>
            exists v | v in r.modules :: Split(Module.Normalize(value)) <= Split(Module.Normalize(v)))
      && (QueryMatches(Some(Query(Locators, value)), labels) <==>
            exists v | v in r.locators :: Locator.Normalize(value) == Locator.Normalize(v))
  {
    hide PathMatches, LabelType.Normalize, LabelType.QueryTarget, TypeOf, RecordLabels, Split, Elems;
    PathAnswers(r, Skill, value);
    PathAnswers(r, Domain, value);
    PathAnswers(r, Module, value);
    LocatorAnswers(r, value);
  }

  /** Some label of the record matches a path query of this type iff some listed value does. */
  lemma PathAnswers(r: Record, lt: LabelType, value: string)
    requires !lt.Unknown?
    ensures (exists l | l in Elems(RecordLabels(r)) :: PathMatches(lt, value, l)) <==>
      exists v | v in ValuesOf(r, lt) :: Split(lt.Normalize(value)) <= Split(lt.Normalize(v))
  {
    hide PathMatches, LabelType.Normalize, LabelType.QueryTarget, TypeOf, RecordLabels, Split;
    if l :| l in Elems(RecordLabels(r)) && PathMatches(lt, value, l) {
      LabelListed(r, l);
      var other, v :| v in ValuesOf(r, other) && other.LabelKey(v) == l;
      MatchBySegments(lt, value, other, other.Normalize(v));
    }
    if v :| v in ValuesOf(r, lt) && Split(lt.Normalize(value)) <= Split(lt.Normalize(v)) {
      LabelListed(r, lt.LabelKey(v));
      MatchBySegments(lt, value, lt, lt.Normalize(v));
      assert lt.LabelKey(v) in Elems(RecordLabels(r));
    }
  }

  lemma LocatorAnswers(r: Record, value: string)
    ensures (exists l | l in Elems(RecordLabels(r)) :: TypeOf(l) == Locator && l == Locator.QueryTarget(value)) <==>
      exists v | v in r.locators :: Locator.Normalize(value) == Locator.Normalize(v)
  {
    hide LabelType.Normalize, TypeOf, RecordLabels;
    if l :| l in Elems(RecordLabels(r)) && TypeOf(l) == Locator && l == Locator.QueryTarget(value) {
      LabelListed(r, l);
      var other, v :| v in ValuesOf(r, other) && other.LabelKey(v) == l;
      MatchLocator(value, other, other.Normalize(v));
      assert v in r.locators;
    }
    if v :| v in r.locators && Locator.Normalize(value) == Locator.Normalize(v) {
      assert v in ValuesOf(r, Locator);
      LabelListed(r, Locator.LabelKey(v));
      MatchLocator(value, Locator, Locator.Normalize(v));
      assert Locator.LabelKey(v) in Elems(RecordLabels(r));
    }
  }

  lemma PrefixedPrefix<T>(p: seq<T>, a: seq<T>, b: seq<T>)
    ensures p + a <= p + b <==> a <= b
  {
    if p + a <= p + b {
      forall i | 0 <= i < |a| ensures a[i] == b[i] {
        assert (p + a)[|p| + i] == (p + b)[|p| + i];
      }
    }
  }

  // ----- de-duplication -----

  function Firsts(qs: seq<Option<Query>>): (r: seq<Option<Query>>)
    ensures forall q :: q in r <==> q in qs && q.Some?
    ensures Distinct(r)
  {
    if qs == [] then []
    else
      var rest, q := Firsts(qs[..|qs| - 1]), qs[|qs| - 1];
      assert qs == qs[..|qs| - 1] + [q];
      if q.None? || q in rest then rest else rest + [q]
  }

  /** A query that is there and not met before. */
  predicate IsFirst(qs: seq<Option<Query>>, k: int) {
    0 <= k < |qs| && qs[k].Some? && qs[k] !in qs[..k]
  }

  predicate Increasing(at: seq<int>) { forall i, j | 0 <= i < j < |at| :: at[i] < at[j] }

  /** The positions of the first occurrences. */
  ghost predicate FirstsAt(qs: seq<Option<Query>>, at: seq<int>) {
    Increasing(at) && forall k :: k in at <==> IsFirst(qs, k)
  }

  /** De-duplication keeps the first occurrences, in the order of the request. */
  lemma {:induction false} FirstsInOrder(qs: seq<Option<Query>>) returns (at: seq<int>)
    ensures FirstsAt(qs, at) && |at| == |Firsts(qs)|
    ensures forall i | 0 <= i < |at| :: 0 <= at[i] < |qs| && Firsts(qs)[i] == qs[at[i]]
  {
    hide FirstsAt, IsFirst, Firsts;
    if qs == [] {
      at := [];
      NoFirsts();
    } else {
      var n := |qs| - 1;
      var before := FirstsInOrder(qs[..n]);
      FirstsSnoc(qs);
      FirstsAtSnoc(qs, before);
      at := if IsFirst(qs, n) then before + [n] else before;
    }
  }

  lemma NoFirsts()
    ensures FirstsAt([], []) && Firsts([]) == []
  {
  }

  lemma FirstsSnoc(qs: seq<Option<Query>>)
    requires qs != []
    ensures var n := |qs| - 1;
      Firsts(qs) == if IsFirst(qs, n) then Firsts(qs[..n]) + [qs[n]] else Firsts(qs[..n])
  {
  }

  lemma FirstsAtSnoc(qs: seq<Option<Query>>, at: seq<int>)
    requires qs != [] && FirstsAt(qs[..|qs| - 1], at)
    ensures FirstsAt(qs, if IsFirst(qs, |qs| - 1) then at + [|qs| - 1] else at)
  {
    hide IsFirst;
    var n := |qs| - 1;
    forall k | k != n ensures IsFirst(qs, k) <==> IsFirst(qs[..n], k) { FirstEarlier(qs, k); }
    forall k | IsFirst(qs[..n], k) ensures k < n { FirstInside(qs[..n], k); }
    assert forall i | 0 <= i < |at| :: at[i] in at;
  }

  lemma FirstInside(qs: seq<Option<Query>>, k: int)
    requires IsFirst(qs, k)
    ensures 0 <= k < |qs|
  {
  }

  lemma FirstEarlier(qs: seq<Option<Query>>, k: int)
    requires qs != [] && k != |qs| - 1
    ensures IsFirst(qs, k) <==> IsFirst(qs[..|qs| - 1], k)
  {
    if 0 <= k < |qs| - 1 { assert qs[..|qs| - 1][..k] == qs[..k]; }
  }

  function Dedup(qs: seq<Option<Query>>): seq<Option<Query>> {
    if |qs| <= 1 then qs else Firsts(qs)
  }

  /** deduplicateQueries: the map of seen (type, value) pairs and the appended slice. */
  method DeduplicateQueries(qs: seq<Option<Query>>) returns (r: seq<Option<Query>>)
    ensures r == Dedup(qs)
  {
    if |qs| <= 1 { return qs; }
    var seen: set<Query> := {};
    r := [];
    for i := 0 to |qs|
      invariant r == Firsts(qs[..i])
      invariant forall q :: q in seen <==> Some(q) in r
    {
      assert qs[..i + 1][..i] == qs[..i];
      if qs[i].Some? && qs[i].value !in seen {
        seen := seen + {qs[i].value};
        r := r + [qs[i]];
      }
    }
    assert qs[..|qs|] == qs;
  }

  predicate MatchesAll(qs: seq<Option<Query>>, labels: set<string>) {
    forall q | q in qs :: QueryMatches(q, labels)
  }

  /** What the AND filter means: every query that is actually there. */
  predicate SatisfiesAll(qs: seq<Option<Query>>, labels: set<string>) {
    forall q | q in qs && q.Some? :: QueryMatches(q, labels)
  }

  /** De-duplication leaves the AND filter's answer alone, except for one lone nil query. */
  lemma DedupKeepsAnd(qs: seq<Option<Query>>)
    ensures (forall labels :: MatchesAll(Dedup(qs), labels) <==> SatisfiesAll(qs, labels))
            <==> qs != [None]
  {
    if qs == [None] {
      assert None in qs;
      assert !MatchesAll(Dedup(qs), {}) && SatisfiesAll(qs, {});
    } else {
      forall labels ensures MatchesAll(Dedup(qs), labels) <==> SatisfiesAll(qs, labels) {
        DedupSame(qs, Matcher(labels));
      }
    }
  }

  lemma DedupSame(qs: seq<Option<Query>>, f: Option<Query> -> bool)
    requires qs != [None]
    ensures (forall q | q in Dedup(qs) :: f(q)) <==> (forall q | q in qs && q.Some? :: f(q))
  {
  }

  // ----- scoring -----

  const MAX_UINT32 := 0xFFFF_FFFF

  /** safeIntToUint32. */
  function SafeUint32(n: int): (r: int)
    ensures 0 <= r <= MAX_UINT32
    ensures 0 <= n <= MAX_UINT32 ==> r == n
    ensures n < 0 ==> r == 0
    ensures n > MAX_UINT32 ==> r == MAX_UINT32
  {
    if n < 0 then 0 else if n > MAX_UINT32 then MAX_UINT32 else n
  }

  /** The queries a response lists as matched, in request order. */
  function MatchingQueries(qs: seq<Option<Query>>, labels: set<string>): seq<Option<Query>> {
    Filter(Matcher(labels), qs)
  }

  function Matcher(labels: set<string>): Option<Query> -> bool {
    q => QueryMatches(q, labels)
  }

  /** The distinct (type, value) queries that the labels satisfy. */
  function MatchedSet(qs: seq<Option<Query>>, labels: set<string>): set<Option<Query>> {
    Kept(Matcher(labels), qs)
  }

  /** A score counts distinct queries: repeats and nils never add to it. */
  lemma ScoreCountsDistinct(qs: seq<Option<Query>>, labels: set<string>)
    ensures |MatchingQueries(Dedup(qs), labels)| == |MatchedSet(qs, labels)|
    ensures forall q :: q in MatchingQueries(Dedup(qs), labels) <==> q in MatchedSet(qs, labels)
  {
    var f := Matcher(labels);
    FilterDistinct(f, Dedup(qs));
    DedupElements(qs, f);
  }

  lemma DedupElements(qs: seq<Option<Query>>, f: Option<Query> -> bool)
    requires !f(None)
    ensures Kept(f, Dedup(qs)) == Kept(f, qs)
  {
  }
}

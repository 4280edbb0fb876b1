/** What List and Search answer in every reachable state, stated on records rather than on keys. */
module Answers {
  import opened Basics
  import opened Text
  import opened Labels
  import opened Matching
  import opened Index
  import opened IndexRuns
  import opened RoutingNode

  lemma LabelsOfKeys(net: Network, c: string, p: string)
    requires GoodNetwork(net) && GoodSegment(c) && GoodSegment(p)
    ensures (set k | k in LabelKeys(Elems(net.labels(c)), c, p) && ParseKey(k).Some? :: ParseKey(k).value.lbl)
            == Elems(net.labels(c))
  {
    hide ParseKey, NewKey, BuildKey, GoodLabel, GoodSegment;
    var keys := LabelKeys(Elems(net.labels(c)), c, p);
    forall k | k in keys ensures ParseKey(k).Some? && ParseKey(k).value.lbl in net.labels(c) {
      RemoteKeys(net, c, p, k);
    }
    forall l | l in net.labels(c) ensures exists k | k in keys :: ParseKey(k).Some? && ParseKey(k).value.lbl == l {
      GoodKey(l, c, p);
      assert l in Elems(net.labels(c)) && NewKey(BuildKey(l, c, p)) in keys;
    }
  }

  /** The cached labels of a live pair are its record's labels. */
  lemma LabelsInLive(net: Network, store: Store, v: View, c: string, p: string)
    requires GoodNetwork(net) && Represents(net, store, v) && GoodSegment(c) && GoodSegment(p)
    requires Live(net, v, c, p)
    ensures LabelsIn(store, c, p) == Elems(net.labels(c))
  {
    hide ParseKey, InNamespace, GoodLabel, GoodSegment, LabelKeys;
    var keys := LabelKeys(Elems(net.labels(c)), c, p);
    forall k ensures k in Owned(store, c, p) <==> k in keys {
      RemoteKeys(net, c, p, k);
      if InNamespace(k) { NamespaceKey(k); }
      assert Agrees(net, store, v, k);
    }
    assert Owned(store, c, p) == keys;
    LabelsOfKeys(net, c, p);
  }

  /** The published CIDs whose own labels satisfy every query that is there. */
  function ListSpec(net: Network, v: View, qs: seq<Option<Query>>): set<string> {
    set c | c in v.published && SatisfiesAll(qs, Elems(net.labels(c)))
  }

  /** List answers the record-level specification, unless the request is one lone nil query
      and something is published. */
  lemma ListRefines(net: Network, store: Store, v: View, qs: seq<Option<Query>>)
    requires GoodNetwork(net) && Represents(net, store, v)
    ensures ListSet(net.local, store, qs) == ListSpec(net, v, qs) <==> qs != [None] || v.published == {}
  {
    hide GoodLabel, ListSet, MatchesAll, SatisfiesAll, LabelsIn, Dedup;
    DedupKeepsAnd(qs);
    forall c
      ensures c in ListSet(net.local, store, qs) <==>
        c in v.published && MatchesAll(Dedup(qs), Elems(net.labels(c)))
    {
      InListSet(net.local, store, qs, c);
      assert (RECORDS + c)[|RECORDS|..] == c;
      RecordNotNamespace(RECORDS + c);
      assert Agrees(net, store, v, RECORDS + c);
      if c in v.published { LabelsInLive(net, store, v, c, net.local); }
    }
    if qs == [None] {
      LoneNil(net, v);
    }
  }

  /** One nil query rejects everything; the specification would keep everything. */
  lemma LoneNil(net: Network, v: View)
    ensures forall labels :: !MatchesAll(Dedup([None]), labels)
    ensures ListSpec(net, v, [None]) == v.published
  {
    assert None in Dedup([None]);
  }

  /** The CIDs some remote peer is cached for, with at least one and enough distinct queries satisfied. */
  function SearchSpec(net: Network, v: View, qs: seq<Option<Query>>, min: int): set<string> {
    set p | p in v.cells && |MatchedSet(qs, Elems(net.labels(p.0)))| >= 1
            && |MatchedSet(qs, Elems(net.labels(p.0)))| >= min :: p.0
  }

  lemma PairsAreCells(net: Network, store: Store, v: View)
    requires GoodNetwork(net) && Represents(net, store, v)
    ensures RemotePairs(net.local, store) == v.cells.Keys
  {
    hide ParseKey, InNamespace, GoodLabel, LabelKeys;
    forall p | p in RemotePairs(net.local, store) ensures p in v.cells {
      var k :| k in store && InNamespace(k) && ParseKey(k).Some? && ParseKey(k).value.peer != net.local
               && p == (ParseKey(k).value.cid, ParseKey(k).value.peer);
      NamespaceKey(k);
      assert Agrees(net, store, v, k);
    }
    forall p | p in v.cells ensures p in RemotePairs(net.local, store) {
      CachedIffCell(net, store, v, p.0, p.1);
      var k :| k in Owned(store, p.0, p.1);
    }
  }

  lemma SearchRefines(net: Network, store: Store, v: View, qs: seq<Option<Query>>, min: int)
    requires GoodNetwork(net) && Represents(net, store, v)
    ensures SearchSet(net.local, store, qs, min) == SearchSpec(net, v, qs, min)
    ensures forall p | p in RemotePairs(net.local, store) ::
      Elems(Matched(store, qs, p)) == MatchedSet(qs, Elems(net.labels(p.0)))
  {
    hide GoodLabel, LabelsIn, Dedup, MatchingQueries, MatchedSet, RemotePairs, Agrees;
    PairsAreCells(net, store, v);
    forall p | p in v.cells
      ensures Found(store, qs, min, p) <==> |MatchedSet(qs, Elems(net.labels(p.0)))| >= Threshold(min)
      ensures Elems(Matched(store, qs, p)) == MatchedSet(qs, Elems(net.labels(p.0)))
    {
      LabelsInLive(net, store, v, p.0, p.1);
      ScoreCountsDistinct(qs, Elems(net.labels(p.0)));
    }
  }

  // ----- one query, in terms of the values that a record lists -----

  /** The record lists a value that a query of this kind and value asks for. */
  predicate Answers(r: Record, kind: QueryType, value: string) {
    match kind
    case Skills => exists v | v in r.skills :: Split(Skill.Normalize(value)) <= Split(Skill.Normalize(v))
    case Domains => exists v | v in r.domains :: Split(Domain.Normalize(value)) <= Split(Domain.Normalize(v))
    case Modules => exists v | v in r.modules :: Split(Module.Normalize(value)) <= Split(Module.Normalize(v))
    case Locators => exists v | v in r.locators :: Locator.Normalize(value) == Locator.Normalize(v)
    case Unspecified => true
    case Unrecognised(_) => false
  }

  lemma AnswersIsMatch(r: Record, q: Query)
    ensures QueryMatches(Some(q), Elems(RecordLabels(r))) <==> Answers(r, q.kind, q.value)
  {
    hide RecordLabels, LabelType.Normalize, Split, PathMatches, TypeOf;
    RecordAnswers(r, q.value);
  }

  /** A published record is listed for one query exactly when it lists a value asked for. */
  lemma ListAnswers(net: Network, store: Store, v: View, r: Record, q: Query)
    requires GoodNetwork(net) && Represents(net, store, v) && RecordLabels(r) == net.labels(r.cid)
    ensures r.cid in ListSet(net.local, store, [Some(q)]) <==> r.cid in v.published && Answers(r, q.kind, q.value)
  {
    hide GoodLabel, ListSet, QueryMatches, Answers, RecordLabels, Represents;
    ListRefines(net, store, v, [Some(q)]);
    AnswersIsMatch(r, q);
    var qs := [Some(q)];
    assert qs[0] in qs;
  }

  /** A record that some remote peer is cached for is found for one query exactly when it lists a value
      asked for and no more than one match is asked for. */
  lemma SearchAnswers(net: Network, store: Store, v: View, r: Record, q: Query, min: int)
    requires GoodNetwork(net) && Represents(net, store, v) && RecordLabels(r) == net.labels(r.cid)
    ensures r.cid in SearchSet(net.local, store, [Some(q)], min) <==>
      (exists peer :: (r.cid, peer) in v.cells) && Answers(r, q.kind, q.value) && min <= 1
  {
    hide GoodLabel, SearchSet, QueryMatches, Answers, RecordLabels, Represents;
    SearchRefines(net, store, v, [Some(q)], min);
    AnswersIsMatch(r, q);
    OneQuery(q, Elems(RecordLabels(r)));
    if peer :| (r.cid, peer) in v.cells && Answers(r, q.kind, q.value) && min <= 1 {
      var p := (r.cid, peer);
      assert p in v.cells;
    }
    if p :| p in v.cells && p.0 == r.cid { assert (r.cid, p.1) in v.cells; }
  }

  lemma OneQuery(q: Query, labels: set<string>)
    ensures |MatchedSet([Some(q)], labels)| == if QueryMatches(Some(q), labels) then 1 else 0
  {
    hide QueryMatches;
    var qs := [Some(q)];
    assert qs[0] in qs;
    assert MatchedSet(qs, labels) == if QueryMatches(Some(q), labels) then {Some(q)} else {};
  }
}

/** Fan-out ranking: utils/nlsearch/fanout.go. Scores are real numbers; the search layer is a
    function from query to outcome. */
module FanOut {
  import opened Basics
  import opened Ordering

  datatype SignalType = SkillName | DomainName | Keyword | OtherSignal
  datatype Signal = Signal(kind: SignalType, value: string, score: real)
  datatype QueryKind = BySkill | ByDomain | ByName | ByDescription
  datatype Outcome = Found(cids: seq<string>) | Failed

  type Searcher = (QueryKind, string, nat) -> Outcome

  const DEFAULT_FAN_OUT_LIMIT := 500

  function TypeName(k: SignalType): string {
    match k
    case SkillName => "skill"
    case DomainName => "domain"
    case Keyword => "keyword"
    case OtherSignal => "unknown"
  }

  function QueryType(k: SignalType): QueryKind {
    match k
    case SkillName => BySkill
    case DomainName => ByDomain
    case _ => ByDescription
  }

  function SignalLabel(sig: Signal): string {
    TypeName(sig.kind) + ":" + sig.value
  }

  // ----- one signal -----

  /** The elements in order of first appearance. */
  function FirstSeen(xs: seq<string>): (r: seq<string>)
    ensures Distinct(r) && forall x :: x in r <==> x in xs
  {
    if xs == [] then []
    else
      var rest, x := FirstSeen(xs[..|xs| - 1]), xs[|xs| - 1];
      assert xs == xs[..|xs| - 1] + [x];
      if x in rest then rest else rest + [x]
  }

  function SignalOutcome(search: Searcher, sig: Signal, limit: nat): Outcome {
    if !sig.kind.Keyword? then search(QueryType(sig.kind), sig.value, limit)
    else
      match (search(ByName, sig.value, limit), search(ByDescription, sig.value, limit))
      case (Found(a), Found(b)) => Found(FirstSeen(a + b))
      case _ => Failed
  }

  /** collectSignalCIDs: a keyword asks for name and description and de-duplicates. */
  method CollectSignalCids(search: Searcher, sig: Signal, limit: nat) returns (r: Outcome)
    ensures r == SignalOutcome(search, sig, limit)
  {
    if !sig.kind.Keyword? {
      return search(QueryType(sig.kind), sig.value, limit);
    }
    var perType := [search(ByName, sig.value, limit), search(ByDescription, sig.value, limit)];
    if perType[0].Failed? || perType[1].Failed? { return Failed; }
    var seen, union: seq<string> := {}, [];
    var all := perType[0].cids + perType[1].cids;
    for i := 0 to |all|
      invariant union == FirstSeen(all[..i]) && seen == Elems(union)
    {
      assert all[..i + 1][..i] == all[..i];
      if all[i] !in seen {
        ElemsSnoc(union, all[i]);
        seen := seen + {all[i]};
        union := union + [all[i]];
      }
    }
    assert all[..|all|] == all;
    r := Found(union);
  }

  // ----- the hits, flattened in signal order -----

  type Hit = (Signal, string)

  function HitsOf(sig: Signal, cids: seq<string>): (r: seq<Hit>)
    ensures |r| == |cids| && forall i | 0 <= i < |r| :: r[i] == (sig, cids[i])
  {
    seq(|cids|, i requires 0 <= i < |cids| => (sig, cids[i]))
  }

  function Flatten(signals: seq<Signal>, outs: seq<Outcome>): seq<Hit>
    requires |signals| == |outs|
  {
    if signals == [] then []
    else
      var n := |signals| - 1;
      Flatten(signals[..n], outs[..n]) + if outs[n].Found? then HitsOf(signals[n], outs[n].cids) else []
  }

  function HitCount(hits: seq<Hit>, cid: string): nat {
    if hits == [] then 0
    else HitCount(hits[..|hits| - 1], cid) + if hits[|hits| - 1].1 == cid then 1 else 0
  }

  function ScoreSum(hits: seq<Hit>, cid: string): real {
    if hits == [] then 0.0
    else ScoreSum(hits[..|hits| - 1], cid) + if hits[|hits| - 1].1 == cid then hits[|hits| - 1].0.score else 0.0
  }

  function SignalLabels(hits: seq<Hit>, cid: string): seq<string> {
    if hits == [] then []
    else SignalLabels(hits[..|hits| - 1], cid)
         + if hits[|hits| - 1].1 == cid then [SignalLabel(hits[|hits| - 1].0)] else []
  }

  function CidsOf(hits: seq<Hit>): (r: seq<string>)
    ensures |r| == |hits| && forall i | 0 <= i < |r| :: r[i] == hits[i].1
  {
    seq(|hits|, i requires 0 <= i < |hits| => hits[i].1)
  }

  lemma CidsSnoc(hits: seq<Hit>, h: Hit)
    ensures CidsOf(hits + [h]) == CidsOf(hits) + [h.1]
  {
  }

  // ----- the ranking -----

  /** More hits first, then the higher score, then the smaller CID. */
  predicate RanksBefore(hits: seq<Hit>, a: string, b: string) {
    || HitCount(hits, a) > HitCount(hits, b)
    || (HitCount(hits, a) == HitCount(hits, b) && ScoreSum(hits, a) > ScoreSum(hits, b))
    || (HitCount(hits, a) == HitCount(hits, b) && ScoreSum(hits, a) == ScoreSum(hits, b) && Less(a, b))
  }

  function RankOrder(hits: seq<Hit>): (string, string) -> bool {
    (a, b) => RanksBefore(hits, a, b)
  }

  lemma RankStrictTotal(hits: seq<Hit>)
    ensures StrictTotal(RankOrder(hits))
  {
    hide HitCount, ScoreSum, Less;
    LessStrictTotal();
  }

  datatype SignalHit = SignalHit(sig: Signal, count: nat, failed: bool)
  datatype Ranked = Ranked(cids: seq<string>, hitCount: map<string, nat>, cidSignals: map<string, seq<string>>,
                           perSignal: seq<SignalHit>)

  function PerSignal(signals: seq<Signal>, outs: seq<Outcome>): seq<SignalHit>
    requires |signals| == |outs|
  {
    seq(|signals|, i requires 0 <= i < |signals| =>
      SignalHit(signals[i], if outs[i].Found? then |outs[i].cids| else 0, outs[i].Failed?))
  }

  /** The ranking as a function of the outcomes alone. */
  function Rank(signals: seq<Signal>, outs: seq<Outcome>): Ranked
    requires |signals| == |outs|
  {
    var hits := Flatten(signals, outs);
    var cids := FirstSeen(CidsOf(hits));
    Ranked(Sort(cids, RankOrder(hits)),
           map c | c in cids :: HitCount(hits, c),
           map c | c in cids :: SignalLabels(hits, c),
           PerSignal(signals, outs))
  }

  function Outcomes(signals: seq<Signal>, search: Searcher, limit: nat): (outs: seq<Outcome>)
    ensures |outs| == |signals|
  {
    seq(|signals|, i requires 0 <= i < |signals| => SignalOutcome(search, signals[i], limit))
  }

  /** The concurrent queries: each writes its own slot, in whatever order they finish. */
  method QueryAll(signals: seq<Signal>, search: Searcher, limit: nat) returns (outs: seq<Outcome>)
    ensures outs == Outcomes(signals, search, limit)
  {
    var results := new Outcome[|signals|](_ => Failed);
    var pending: set<nat> := {};
    for i := 0 to |signals|
      invariant forall j :: j in pending <==> 0 <= j < i
    {
      pending := pending + {i};
    }
    while pending != {}
      invariant forall j | j in pending :: j < |signals|
      invariant forall i | 0 <= i < |signals| && i !in pending :: results[i] == SignalOutcome(search, signals[i], limit)
    {
      var i :| i in pending;
      var r := CollectSignalCids(search, signals[i], limit);
      results[i] := r;
      pending := pending - {i};
    }
    outs := results[..];
  }

  datatype Tally = Tally(cids: seq<string>, hits: map<string, nat>, labels: map<string, seq<string>>,
                         scores: map<string, real>)

  /** The map holds f for exactly these CIDs. */
  predicate Holds<V(==)>(m: map<string, V>, cids: seq<string>, f: string -> V) {
    m.Keys == Elems(cids) && forall c | c in cids :: m[c] == f(c)
  }

  lemma HoldsUpdate<V>(m: map<string, V>, cids: seq<string>, f: string -> V, g: string -> V, c: string)
    requires Holds(m, cids, f) && forall d | d in cids && d != c :: g(d) == f(d)
    ensures Holds(m[c := g(c)], if c in cids then cids else cids + [c], g)
  {
    ElemsSnoc(cids, c);
  }

  /** The accumulators after counting these hits. */
  ghost predicate Tallied(t: Tally, hits: seq<Hit>) {
    && t.cids == FirstSeen(CidsOf(hits))
    && Holds(t.hits, t.cids, c => HitCount(hits, c))
    && Holds(t.labels, t.cids, c => SignalLabels(hits, c))
    && Holds(t.scores, t.cids, c => ScoreSum(hits, c))
  }

  lemma {:induction false} UncountedCid(hits: seq<Hit>, c: string)
    requires c !in CidsOf(hits)
    ensures HitCount(hits, c) == 0 && SignalLabels(hits, c) == [] && ScoreSum(hits, c) == 0.0
  {
    if hits != [] {
      var init := hits[..|hits| - 1];
      assert hits == init + [hits[|hits| - 1]];
      CidsSnoc(init, hits[|hits| - 1]);
      UncountedCid(init, c);
    }
  }

  /** The body of the inner loop. */
  method CountHit(t: Tally, ghost hits: seq<Hit>, sig: Signal, cid: string) returns (r: Tally)
    requires Tallied(t, hits)
    ensures Tallied(r, hits + [(sig, cid)])
  {
    hide FirstSeen, HitCount, ScoreSum, SignalLabels, CidsOf, SignalLabel, Holds;
    assert t.hits.Keys == t.labels.Keys == t.scores.Keys == Elems(t.cids) by { TallyKeys(t, hits); }
    var isNew := cid !in t.hits;
    r := Tally(if isNew then t.cids + [cid] else t.cids,
               t.hits[cid := (if isNew then 0 else t.hits[cid]) + 1],
               t.labels[cid := (if isNew then [] else t.labels[cid]) + [SignalLabel(sig)]],
               t.scores[cid := (if isNew then 0.0 else t.scores[cid]) + sig.score]);
    CountHitTallied(t, r, hits, sig, cid);
  }

  lemma TallyKeys(t: Tally, hits: seq<Hit>)
    requires Tallied(t, hits)
    ensures t.hits.Keys == t.labels.Keys == t.scores.Keys == Elems(t.cids)
  {
  }

  /** The accumulated values for a CID, or the zero values if it is new. */
  lemma TallyAt(t: Tally, hits: seq<Hit>, c: string)
    requires Tallied(t, hits)
    ensures c in t.hits ==> t.hits[c] == HitCount(hits, c) && t.labels[c] == SignalLabels(hits, c)
                            && t.scores[c] == ScoreSum(hits, c)
    ensures c !in t.hits ==> HitCount(hits, c) == 0 && SignalLabels(hits, c) == [] && ScoreSum(hits, c) == 0.0
    ensures c in t.hits <==> c in CidsOf(hits)
  {
    hide HitCount, ScoreSum, SignalLabels, CidsOf;
    assert c in t.hits <==> c in t.cids;
    if c !in t.hits { UncountedCid(hits, c); }
  }

  lemma CountHitTallied(t: Tally, r: Tally, hits: seq<Hit>, sig: Signal, cid: string)
    requires Tallied(t, hits) && t.hits.Keys == t.labels.Keys == t.scores.Keys
    requires var isNew := cid !in t.hits;
      r == Tally(if isNew then t.cids + [cid] else t.cids,
                 t.hits[cid := (if isNew then 0 else t.hits[cid]) + 1],
                 t.labels[cid := (if isNew then [] else t.labels[cid]) + [SignalLabel(sig)]],
                 t.scores[cid := (if isNew then 0.0 else t.scores[cid]) + sig.score])
    ensures Tallied(r, hits + [(sig, cid)])
  {
    hide FirstSeen, HitCount, ScoreSum, SignalLabels, CidsOf, SignalLabel, Holds;
    var more := hits + [(sig, cid)];
    CidsSnoc(hits, (sig, cid));
    FirstSeenSnoc(CidsOf(hits), cid);
    TallyAt(t, hits, cid);
    forall c
      ensures HitCount(more, c) == HitCount(hits, c) + if cid == c then 1 else 0
      ensures ScoreSum(more, c) == ScoreSum(hits, c) + if cid == c then sig.score else 0.0
      ensures SignalLabels(more, c) ==
        if cid == c then SignalLabels(hits, c) + [SignalLabel(sig)] else SignalLabels(hits, c)
    {
      CountSnoc(hits, (sig, cid), c);
    }
    HoldsUpdate(t.hits, t.cids, c => HitCount(hits, c), c => HitCount(more, c), cid);
    HoldsUpdate(t.labels, t.cids, c => SignalLabels(hits, c), c => SignalLabels(more, c), cid);
    HoldsUpdate(t.scores, t.cids, c => ScoreSum(hits, c), c => ScoreSum(more, c), cid);
  }

  lemma CountSnoc(hits: seq<Hit>, h: Hit, c: string)
    ensures HitCount(hits + [h], c) == HitCount(hits, c) + if h.1 == c then 1 else 0
    ensures ScoreSum(hits + [h], c) == ScoreSum(hits, c) + if h.1 == c then h.0.score else 0.0
    ensures SignalLabels(hits + [h], c) ==
      if h.1 == c then SignalLabels(hits, c) + [SignalLabel(h.0)] else SignalLabels(hits, c)
  {
    assert (hits + [h])[..|hits|] == hits;
  }

  lemma FirstSeenSnoc(xs: seq<string>, x: string)
    ensures FirstSeen(xs + [x]) == if x in xs then FirstSeen(xs) else FirstSeen(xs) + [x]
    ensures forall y :: y in FirstSeen(xs) <==> y in xs
  {
    assert (xs + [x])[..|xs|] == xs;
  }

  function Or<V>(m: map<string, V>, k: string, zero: V): V { if k in m then m[k] else zero }

  /** The comparison the sort is given, read from the accumulators. */
  predicate TallyBefore(t: Tally, a: string, b: string) {
    var ha, hb, sa, sb := Or(t.hits, a, 0), Or(t.hits, b, 0), Or(t.scores, a, 0.0), Or(t.scores, b, 0.0);
    ha > hb || (ha == hb && (sa > sb || (sa == sb && Less(a, b))))
  }

  lemma {:induction false} InsertSame(x: string, xs: seq<string>, f: (string, string) -> bool,
                                      g: (string, string) -> bool)
    requires forall y | y in xs :: f(x, y) == g(x, y)
    ensures Insert(x, xs, f) == Insert(x, xs, g)
  {
    if xs != [] { InsertSame(x, xs[1..], f, g); }
  }

  lemma {:induction false} SortSame(xs: seq<string>, f: (string, string) -> bool, g: (string, string) -> bool)
    requires forall x, y | x in xs && y in xs :: f(x, y) == g(x, y)
    ensures Sort(xs, f) == Sort(xs, g)
  {
    if xs != [] {
      SortSame(xs[1..], f, g);
      SameMultisetSameElems(Sort(xs[1..], g), xs[1..]);
      InsertSame(xs[0], Sort(xs[1..], g), f, g);
    }
  }

  lemma OrdersAgree(t: Tally, hits: seq<Hit>, a: string, b: string)
    requires Tallied(t, hits) && a in t.cids && b in t.cids
    ensures TallyBefore(t, a, b) == RankOrder(hits)(a, b)
  {
    hide HitCount, ScoreSum, SignalLabels, FirstSeen, CidsOf, Less;
    assert a in t.hits && b in t.hits && a in t.scores && b in t.scores;
  }

  lemma TallyIsRank(t: Tally, signals: seq<Signal>, outs: seq<Outcome>)
    requires |signals| == |outs| && Tallied(t, Flatten(signals, outs))
    ensures Rank(signals, outs) ==
      Ranked(Sort(t.cids, RankOrder(Flatten(signals, outs))), t.hits, t.labels, PerSignal(signals, outs))
  {
    hide HitCount, ScoreSum, SignalLabels, FirstSeen, CidsOf, Sort, RankOrder, Flatten;
  }

  lemma EmptyTally()
    ensures Tallied(Tally([], map[], map[], map[]), Flatten([], []))
  {
  }

  lemma FlattenSnoc(signals: seq<Signal>, outs: seq<Outcome>, i: nat)
    requires |signals| == |outs| && i < |signals|
    ensures Flatten(signals[..i + 1], outs[..i + 1]) ==
      if outs[i].Found? then Flatten(signals[..i], outs[..i]) + HitsOf(signals[i], outs[i].cids)
      else Flatten(signals[..i], outs[..i])
  {
    assert signals[..i + 1][..i] == signals[..i] && outs[..i + 1][..i] == outs[..i];
  }

  /** FanOutAndScore. */
  method FanOutAndScore(signals: seq<Signal>, search: Searcher, perSignalLimit: nat) returns (ranked: Ranked)
    ensures var limit := if perSignalLimit == 0 then 500 else perSignalLimit;
      ranked == Rank(signals, Outcomes(signals, search, limit))
  {
    hide Tallied, Rank, Sort, RankOrder, SignalOutcome, Flatten;
    var limit := if perSignalLimit == 0 then DEFAULT_FAN_OUT_LIMIT else perSignalLimit;
    var outs := QueryAll(signals, search, limit);
    var tally := Tally([], map[], map[], map[]);
    var perSignal: seq<SignalHit> := [];
    EmptyTally();
    for i := 0 to |signals|
      invariant Tallied(tally, Flatten(signals[..i], outs[..i]))
      invariant perSignal == PerSignal(signals[..i], outs[..i])
    {
      var sig, r := signals[i], outs[i];
      perSignal := perSignal + [SignalHit(sig, if r.Found? then |r.cids| else 0, r.Failed?)];
      FlattenSnoc(signals, outs, i);
      if r.Found? {
        ghost var before := Flatten(signals[..i], outs[..i]);
        assert before + HitsOf(sig, r.cids[..0]) == before;
        for j := 0 to |r.cids|
          invariant Tallied(tally, before + HitsOf(sig, r.cids[..j]))
        {
          tally := CountHit(tally, before + HitsOf(sig, r.cids[..j]), sig, r.cids[j]);
          assert before + HitsOf(sig, r.cids[..j]) + [(sig, r.cids[j])] == before + HitsOf(sig, r.cids[..j + 1]);
        }
        assert r.cids[..|r.cids|] == r.cids;
      }
    }
    assert signals[..|signals|] == signals && outs[..|outs|] == outs;
    ghost var hits := Flatten(signals, outs);
    var order := (a, b) => TallyBefore(tally, a, b);
    SortSame(tally.cids, order, RankOrder(hits)) by {
      forall a, b | a in tally.cids && b in tally.cids ensures order(a, b) == RankOrder(hits)(a, b) {
        OrdersAgree(tally, hits, a, b);
      }
    }
    TallyIsRank(tally, signals, outs);
    ranked := Ranked(Sort(tally.cids, order), tally.hits, tally.labels, perSignal);
  }

  // ----- what the ranking guarantees -----

  /** Every CID of a successful signal exactly once, strictly in rank order; and that listing is
      the only one, so neither completion order nor the sort's own choices can show. */
  lemma RankingIsTheOrder(signals: seq<Signal>, outs: seq<Outcome>)
    requires |signals| == |outs|
    ensures var r, hits := Rank(signals, outs), Flatten(signals, outs);
      && Sorted(r.cids, RankOrder(hits)) && Distinct(r.cids)
      && (forall c :: c in r.cids <==> exists i | 0 <= i < |outs| :: outs[i].Found? && c in outs[i].cids)
      && (forall cids | Sorted(cids, RankOrder(hits)) && (forall c :: c in cids <==> c in r.cids) :: cids == r.cids)
  {
    hide HitCount, ScoreSum, Less, SignalLabels, Flatten, FirstSeen, CidsOf, Sort;
    var r, hits := Rank(signals, outs), Flatten(signals, outs);
    var cids, lt := FirstSeen(CidsOf(hits)), RankOrder(hits);
    RankStrictTotal(hits);
    SortSorts(cids, lt);
    SameMultisetSameElems(r.cids, cids);
    forall c ensures c in r.cids <==> exists i | 0 <= i < |outs| :: outs[i].Found? && c in outs[i].cids {
      FlattenElems(signals, outs, c);
    }
    forall other | Sorted(other, lt) && (forall c :: c in other <==> c in r.cids) ensures other == r.cids {
      SortedUnique(other, r.cids, lt);
    }
  }

  lemma {:induction false} FlattenElems(signals: seq<Signal>, outs: seq<Outcome>, c: string)
    requires |signals| == |outs|
    ensures c in CidsOf(Flatten(signals, outs)) <==> exists i | 0 <= i < |outs| :: outs[i].Found? && c in outs[i].cids
  {
    if signals != [] {
      var n := |signals| - 1;
      FlattenElems(signals[..n], outs[..n], c);
      var front := Flatten(signals[..n], outs[..n]);
      var back := if outs[n].Found? then HitsOf(signals[n], outs[n].cids) else [];
      assert CidsOf(front + back) == CidsOf(front) + if outs[n].Found? then outs[n].cids else [];
    }
  }

  // ----- hit counts -----

  /** In how many successful signals the CID appears, and how many results they returned in all. */
  function MatchedSignals(outs: seq<Outcome>, c: string): nat {
    if outs == [] then 0
    else
      var last := outs[|outs| - 1];
      MatchedSignals(outs[..|outs| - 1], c) + if last.Found? && c in last.cids then 1 else 0
  }

  function ResultTotal(outs: seq<Outcome>): nat {
    if outs == [] then 0
    else
      var last := outs[|outs| - 1];
      ResultTotal(outs[..|outs| - 1]) + if last.Found? then |last.cids| else 0
  }

  lemma {:induction false} HitsConcat(a: seq<Hit>, b: seq<Hit>, c: string)
    ensures HitCount(a + b, c) == HitCount(a, c) + HitCount(b, c)
  {
    if b == [] {
      assert a + b == a;
    } else {
      assert (a + b)[..|a + b| - 1] == a + b[..|b| - 1];
      HitsConcat(a, b[..|b| - 1], c);
    }
  }

  lemma {:induction false} HitsOfOccurrences(sig: Signal, cids: seq<string>, c: string)
    ensures HitCount(HitsOf(sig, cids), c) == Occurrences(cids, c)
  {
    if cids != [] {
      var init := cids[..|cids| - 1];
      HitsOfOccurrences(sig, init, c);
      assert HitsOf(sig, cids)[..|cids| - 1] == HitsOf(sig, init);
      assert cids == init + [cids[|cids| - 1]];
    }
  }

  lemma NoHits(c: string)
    ensures HitCount([], c) == 0 && NoRepeat([], c)
  {
  }

  predicate NoRepeat(outs: seq<Outcome>, c: string) {
    forall i | 0 <= i < |outs| && outs[i].Found? :: Occurrences(outs[i].cids, c) <= 1
  }

  lemma NoRepeatSnoc(outs: seq<Outcome>, c: string)
    requires outs != []
    ensures var n := |outs| - 1;
      NoRepeat(outs, c) <==> NoRepeat(outs[..n], c) && (outs[n].Found? ==> Occurrences(outs[n].cids, c) <= 1)
  {
    hide Occurrences;
    var init := outs[..|outs| - 1];
    assert forall i | 0 <= i < |init| :: init[i] == outs[i];
  }

  /** The count of a CID is its number of matching signals iff no successful signal repeats it;
      otherwise it is larger. */
  lemma {:induction false} CountsAreSignals(signals: seq<Signal>, outs: seq<Outcome>, c: string)
    requires |signals| == |outs|
    ensures var n := HitCount(Flatten(signals, outs), c);
      && n >= MatchedSignals(outs, c)
      && (n == MatchedSignals(outs, c) <==> NoRepeat(outs, c))
  {
    hide NoRepeat, Occurrences, HitCount, HitsOf;
    if signals == [] {
      NoHits(c);
    } else {
      var n := |signals| - 1;
      CountsAreSignals(signals[..n], outs[..n], c);
      NoRepeatSnoc(outs, c);
      if outs[n].Found? {
        HitsConcat(Flatten(signals[..n], outs[..n]), HitsOf(signals[n], outs[n].cids), c);
        HitsOfOccurrences(signals[n], outs[n].cids, c);
        OccurrencesIn(outs[n].cids, c);
      } else {
        assert Flatten(signals, outs) == Flatten(signals[..n], outs[..n]);
      }
    }
  }

  /** One signal whose search returns "c" twice counts as two hits. */
  lemma RepeatCountsTwice(sig: Signal)
    ensures HitCount(Flatten([sig], [Found(["c", "c"])]), "c") == 2 && MatchedSignals([Found(["c", "c"])], "c") == 1
  {
    var outs := [Found(["c", "c"])];
    assert outs[..0] == [] && [sig][..0] == [];
    assert Flatten([sig], outs) == HitsOf(sig, ["c", "c"]);
    HitsOfOccurrences(sig, ["c", "c"], "c");
    assert ["c", "c"][..1] == ["c"];
  }

  ghost function SumCounts(hits: seq<Hit>, cids: set<string>): nat {
    if cids == {} then 0
    else var c :| c in cids; HitCount(hits, c) + SumCounts(hits, cids - {c})
  }

  lemma {:induction false} SumSnoc(hits: seq<Hit>, h: Hit, cids: set<string>)
    ensures SumCounts(hits + [h], cids) == SumCounts(hits, cids) + if h.1 in cids then 1 else 0
  {
    if cids != {} {
      var c :| c in cids && SumCounts(hits, cids) == HitCount(hits, c) + SumCounts(hits, cids - {c});
      SumPick(hits + [h], cids, c);
      SumSnoc(hits, h, cids - {c});
      CountSnoc(hits, h, c);
    }
  }

  lemma {:induction false} SumPick(hits: seq<Hit>, cids: set<string>, c: string)
    requires c in cids
    ensures SumCounts(hits, cids) == HitCount(hits, c) + SumCounts(hits, cids - {c})
  {
    var d :| d in cids && SumCounts(hits, cids) == HitCount(hits, d) + SumCounts(hits, cids - {d});
    if d != c {
      SumPick(hits, cids - {d}, c);
      SumPick(hits, cids - {c}, d);
      assert cids - {c} - {d} == cids - {d} - {c};
    }
  }

  /** Summed over all ranked CIDs, the hit counts are the results the successful signals returned. */
  lemma CountsAddUp(signals: seq<Signal>, outs: seq<Outcome>)
    requires |signals| == |outs|
    ensures SumCounts(Flatten(signals, outs), Elems(Rank(signals, outs).cids)) == ResultTotal(outs)
  {
    var hits, cids := Flatten(signals, outs), Elems(Rank(signals, outs).cids);
    SameMultisetSameElems(Rank(signals, outs).cids, FirstSeen(CidsOf(hits)));
    forall h | h in hits ensures h.1 in cids {
      var i :| 0 <= i < |hits| && hits[i] == h;
      assert CidsOf(hits)[i] == h.1;
    }
    CoveredSum(hits, cids);
    FlattenLength(signals, outs);
  }

  lemma {:induction false} CoveredSum(hits: seq<Hit>, cids: set<string>)
    requires forall h | h in hits :: h.1 in cids
    ensures SumCounts(hits, cids) == |hits|
  {
    if hits == [] {
      ZeroSum(cids);
    } else {
      var init, h := hits[..|hits| - 1], hits[|hits| - 1];
      assert hits == init + [h];
      CoveredSum(init, cids);
      SumSnoc(init, h, cids);
    }
  }

  lemma {:induction false} ZeroSum(cids: set<string>)
    ensures SumCounts([], cids) == 0
  {
    if cids != {} {
      var none: seq<Hit> := [];
      var c :| c in cids && SumCounts(none, cids) == HitCount(none, c) + SumCounts(none, cids - {c});
      assert HitCount(none, c) == 0;
      ZeroSum(cids - {c});
    }
  }

  lemma {:induction false} FlattenLength(signals: seq<Signal>, outs: seq<Outcome>)
    requires |signals| == |outs|
    ensures |Flatten(signals, outs)| == ResultTotal(outs)
  {
    if signals != [] { FlattenLength(signals[..|signals| - 1], outs[..|outs| - 1]); }
  }
}

/** The fan-out ranking in terms of the searches alone: utils/nlsearch/fanout.go. */
module FanOutMeaning {
  import opened Basics
  import opened Ordering
  import opened FanOut

  // ----- one signal -----

  /** A keyword needs both of its searches, any other signal its one. */
  predicate Fails(search: Searcher, sig: Signal, limit: nat) {
    match sig.kind
    case SkillName => search(BySkill, sig.value, limit).Failed?
    case DomainName => search(ByDomain, sig.value, limit).Failed?
    case Keyword => search(ByName, sig.value, limit).Failed? || search(ByDescription, sig.value, limit).Failed?
    case OtherSignal => search(ByDescription, sig.value, limit).Failed?
  }

  /** How often the signal hits a CID: a keyword once if either search has it, any other signal as often
      as its search returns it. */
  function Times(search: Searcher, sig: Signal, limit: nat, c: string): nat {
    if Fails(search, sig, limit) then 0
    else
      match sig.kind
      case SkillName => Occurrences(search(BySkill, sig.value, limit).cids, c)
      case DomainName => Occurrences(search(ByDomain, sig.value, limit).cids, c)
      case Keyword =>
        if c in search(ByName, sig.value, limit).cids || c in search(ByDescription, sig.value, limit).cids
        then 1 else 0
      case OtherSignal => Occurrences(search(ByDescription, sig.value, limit).cids, c)
  }

  /** How many results the signal reports. */
  function Size(search: Searcher, sig: Signal, limit: nat): nat {
    if Fails(search, sig, limit) then 0
    else
      match sig.kind
      case SkillName => |search(BySkill, sig.value, limit).cids|
      case DomainName => |search(ByDomain, sig.value, limit).cids|
      case Keyword =>
        |Elems(search(ByName, sig.value, limit).cids) + Elems(search(ByDescription, sig.value, limit).cids)|
      case OtherSignal => |search(ByDescription, sig.value, limit).cids|
  }

  lemma {:induction false} DistinctOccurrences<T>(xs: seq<T>, x: T)
    requires Distinct(xs)
    ensures Occurrences(xs, x) == if x in xs then 1 else 0
  {
    if xs != [] {
      var init := xs[..|xs| - 1];
      assert xs == init + [xs[|xs| - 1]];
      DistinctOccurrences(init, x);
    }
  }

  lemma OutcomeMeaning(search: Searcher, sig: Signal, limit: nat, c: string)
    ensures var o := SignalOutcome(search, sig, limit);
      && (o.Failed? <==> Fails(search, sig, limit))
      && (o.Found? ==> Occurrences(o.cids, c) == Times(search, sig, limit, c))
      && (o.Found? ==> |o.cids| == Size(search, sig, limit))
  {
    hide Occurrences;
    if sig.kind.Keyword? && !Fails(search, sig, limit) {
      var a, b := search(ByName, sig.value, limit).cids, search(ByDescription, sig.value, limit).cids;
      var union := FirstSeen(a + b);
      DistinctOccurrences(union, c);
      DistinctCard(union);
      assert Elems(union) == Elems(a) + Elems(b);
    }
  }

  // ----- all signals -----

  function Hits(search: Searcher, signals: seq<Signal>, limit: nat, c: string): nat {
    if signals == [] then 0
    else
      var n := |signals| - 1;
      Hits(search, signals[..n], limit, c) + Times(search, signals[n], limit, c)
  }

  function Score(search: Searcher, signals: seq<Signal>, limit: nat, c: string): real {
    if signals == [] then 0.0
    else
      var n := |signals| - 1;
      Score(search, signals[..n], limit, c) + Times(search, signals[n], limit, c) as real * signals[n].score
  }

  function LabelText(sig: Signal): string {
    match sig.kind
    case SkillName => "skill:" + sig.value
    case DomainName => "domain:" + sig.value
    case Keyword => "keyword:" + sig.value
    case OtherSignal => "unknown:" + sig.value
  }

  function Repeat(s: string, n: nat): seq<string> { seq(n, _ => s) }

  /** The label of each signal, in order, as often as it hits. */
  function LabelsFor(search: Searcher, signals: seq<Signal>, limit: nat, c: string): seq<string> {
    if signals == [] then []
    else
      var n := |signals| - 1;
      LabelsFor(search, signals[..n], limit, c) + Repeat(LabelText(signals[n]), Times(search, signals[n], limit, c))
  }

  lemma {:induction false} SumsConcat(a: seq<Hit>, b: seq<Hit>, c: string)
    ensures ScoreSum(a + b, c) == ScoreSum(a, c) + ScoreSum(b, c)
    ensures SignalLabels(a + b, c) == SignalLabels(a, c) + SignalLabels(b, c)
  {
    if b == [] {
      assert a + b == a;
    } else {
      assert (a + b)[..|a + b| - 1] == a + b[..|b| - 1];
      SumsConcat(a, b[..|b| - 1], c);
    }
  }

  lemma {:induction false} ScoreOfOne(sig: Signal, cids: seq<string>, c: string)
    ensures ScoreSum(HitsOf(sig, cids), c) == Occurrences(cids, c) as real * sig.score
  {
    if cids != [] {
      var init := cids[..|cids| - 1];
      ScoreOfOne(sig, init, c);
      assert HitsOf(sig, cids)[..|cids| - 1] == HitsOf(sig, init);
    }
  }

  lemma {:induction false} LabelsOfOne(sig: Signal, cids: seq<string>, c: string)
    ensures SignalLabels(HitsOf(sig, cids), c) == Repeat(LabelText(sig), Occurrences(cids, c))
  {
    hide LabelText, SignalLabel;
    if cids != [] {
      var init := cids[..|cids| - 1];
      LabelsOfOne(sig, init, c);
      assert HitsOf(sig, cids)[..|cids| - 1] == HitsOf(sig, init);
      LabelIsText(sig);
      var n := Occurrences(init, c);
      assert Repeat(LabelText(sig), n) + [LabelText(sig)] == Repeat(LabelText(sig), n + 1);
    }
  }

  lemma LabelIsText(sig: Signal)
    ensures SignalLabel(sig) == LabelText(sig)
  {
    match sig.kind
    case SkillName => assert "skill" + ":" == "skill:";
    case DomainName => assert "domain" + ":" == "domain:";
    case Keyword => assert "keyword" + ":" == "keyword:";
    case OtherSignal => assert "unknown" + ":" == "unknown:";
  }

  /** One more signal, with whatever outcome. */
  lemma AddSignal(hits: seq<Hit>, sig: Signal, o: Outcome, c: string)
    ensures var more := hits + (if o.Found? then HitsOf(sig, o.cids) else []);
      var n := if o.Found? then Occurrences(o.cids, c) else 0;
      && HitCount(more, c) == HitCount(hits, c) + n
      && ScoreSum(more, c) == ScoreSum(hits, c) + n as real * sig.score
      && SignalLabels(more, c) == SignalLabels(hits, c) + Repeat(LabelText(sig), n)
  {
    hide HitCount, ScoreSum, SignalLabels, HitsOf, Occurrences;
    if o.Found? {
      HitsConcat(hits, HitsOf(sig, o.cids), c);
      SumsConcat(hits, HitsOf(sig, o.cids), c);
      HitsOfOccurrences(sig, o.cids, c);
      ScoreOfOne(sig, o.cids, c);
      LabelsOfOne(sig, o.cids, c);
    } else {
      assert hits + [] == hits && Repeat(LabelText(sig), 0) == [];
    }
  }

  /** The accumulated count, score and labels of a CID are the sums over the signals. */
  lemma {:induction false} Accumulated(search: Searcher, signals: seq<Signal>, limit: nat, c: string)
    ensures var hits := Flatten(signals, Outcomes(signals, search, limit));
      && HitCount(hits, c) == Hits(search, signals, limit, c)
      && ScoreSum(hits, c) == Score(search, signals, limit, c)
      && SignalLabels(hits, c) == LabelsFor(search, signals, limit, c)
  {
    hide Times, SignalOutcome, HitsOf, Repeat, HitCount, ScoreSum, SignalLabels, LabelText, Occurrences;
    if signals == [] {
      NothingYet(c);
    } else {
      var n := |signals| - 1;
      var outs := Outcomes(signals, search, limit);
      Accumulated(search, signals[..n], limit, c);
      assert outs[..n] == Outcomes(signals[..n], search, limit);
      OutcomeMeaning(search, signals[n], limit, c);
      if outs[n].Failed? { NoTimes(search, signals[n], limit, c); }
      AddSignal(Flatten(signals[..n], outs[..n]), signals[n], outs[n], c);
    }
  }

  lemma NothingYet(c: string)
    ensures HitCount([], c) == 0 && ScoreSum([], c) == 0.0 && SignalLabels([], c) == []
  {
  }

  lemma NoTimes(search: Searcher, sig: Signal, limit: nat, c: string)
    requires Fails(search, sig, limit)
    ensures Times(search, sig, limit, c) == 0 && forall s :: Repeat(s, 0) == []
  {
  }

  /** Main theorem: which CIDs are ranked, in which order, with which counts and labels, and what is
      reported of each signal. */
  lemma RankingMeaning(signals: seq<Signal>, search: Searcher, limit: nat)
    ensures var r := Rank(signals, Outcomes(signals, search, limit));
      && Distinct(r.cids)
      && (forall c :: c in r.cids <==> exists i | 0 <= i < |signals| :: Times(search, signals[i], limit, c) > 0)
      && (forall i, j | 0 <= i < j < |r.cids| :: ComesFirst(search, signals, limit, r.cids[i], r.cids[j]))
      && r.hitCount.Keys == r.cidSignals.Keys == Elems(r.cids)
      && (forall c | c in r.cids :: r.hitCount[c] == Hits(search, signals, limit, c))
      && (forall c | c in r.cids :: r.cidSignals[c] == LabelsFor(search, signals, limit, c))
      && |r.perSignal| == |signals|
      && forall i | 0 <= i < |signals| :: r.perSignal[i] ==
           SignalHit(signals[i], Size(search, signals[i], limit), Fails(search, signals[i], limit))
  {
    hide Times, SignalOutcome, Flatten, HitCount, ScoreSum, SignalLabels, FirstSeen, CidsOf, Sort, Less, Hits, Score,
         LabelsFor, Fails, Size;
    var outs := Outcomes(signals, search, limit);
    var r, hits := Rank(signals, outs), Flatten(signals, outs);
    RankingIsTheOrder(signals, outs);
    forall c
      ensures c in r.cids <==> exists i | 0 <= i < |signals| :: Times(search, signals[i], limit, c) > 0
      ensures c in r.cids <==> c in FirstSeen(CidsOf(hits))
      ensures HitCount(hits, c) == Hits(search, signals, limit, c)
      ensures ScoreSum(hits, c) == Score(search, signals, limit, c)
      ensures SignalLabels(hits, c) == LabelsFor(search, signals, limit, c)
    {
      Accumulated(search, signals, limit, c);
      SameMultisetSameElems(r.cids, FirstSeen(CidsOf(hits)));
      forall i | 0 <= i < |signals|
        ensures outs[i].Found? && c in outs[i].cids <==> Times(search, signals[i], limit, c) > 0
      {
        HitIff(search, signals[i], limit, c);
      }
    }
    forall i | 0 <= i < |signals|
      ensures r.perSignal[i] == SignalHit(signals[i], Size(search, signals[i], limit), Fails(search, signals[i], limit))
    {
      OutcomeMeaning(search, signals[i], limit, "");
      if Fails(search, signals[i], limit) { NoSize(search, signals[i], limit); }
    }
    forall i, j | 0 <= i < j < |r.cids| ensures ComesFirst(search, signals, limit, r.cids[i], r.cids[j]) {
      assert RankOrder(hits)(r.cids[i], r.cids[j]);
    }
  }

  /** More hits, then a higher score, then the smaller CID. */
  predicate ComesFirst(search: Searcher, signals: seq<Signal>, limit: nat, a: string, b: string) {
    var h, k := Hits(search, signals, limit, a), Hits(search, signals, limit, b);
    var x, y := Score(search, signals, limit, a), Score(search, signals, limit, b);
    h > k || (h == k && (x > y || (x == y && Less(a, b))))
  }

  lemma NoSize(search: Searcher, sig: Signal, limit: nat)
    requires Fails(search, sig, limit)
    ensures Size(search, sig, limit) == 0
  {
  }

  lemma HitIff(search: Searcher, sig: Signal, limit: nat, c: string)
    ensures var o := SignalOutcome(search, sig, limit);
      o.Found? && c in o.cids <==> Times(search, sig, limit, c) > 0
  {
    hide SignalOutcome, Occurrences;
    OutcomeMeaning(search, sig, limit, c);
    if SignalOutcome(search, sig, limit).Found? { OccurrencesIn(SignalOutcome(search, sig, limit).cids, c); }
    if Fails(search, sig, limit) { NoTimes(search, sig, limit, c); }
  }
}

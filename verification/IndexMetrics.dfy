/** The label counters kept beside the index (server/routing/metrics.go): when they count
    exactly the labels of the published records. */
module IndexMetrics {
  import opened Basics
  import opened Labels
  import opened Text
  import opened Index
  import opened IndexRuns
  import opened IndexTheorems

  function Total(data: Totals, l: string): nat {
    if l in data then data[l] else 0
  }

  predicate Positive(data: Totals) {
    forall l | l in data :: data[l] > 0
  }

  lemma {:induction false} IncrementTotals(data: Totals, labels: seq<string>, l: string)
    ensures Total(IncrementAll(data, labels), l) == Total(data, l) + Occurrences(labels, l)
    ensures Positive(data) ==> Positive(IncrementAll(data, labels))
  {
    if labels != [] { IncrementTotals(data, labels[..|labels| - 1], l); }
  }

  lemma {:induction false} DecrementTotals(data: Totals, labels: seq<string>, l: string)
    requires Positive(data)
    ensures var left := Total(data, l) - Occurrences(labels, l);
      Total(DecrementAll(data, labels), l) == if left < 0 then 0 else left
    ensures Positive(DecrementAll(data, labels))
  {
    if labels != [] { DecrementTotals(data, labels[..|labels| - 1], l); }
  }

  /** How often the labels of these records carry l. */
  ghost function SumOver(net: Network, cids: set<string>, l: string): nat {
    if cids == {} then 0
    else var c :| c in cids; Occurrences(net.labels(c), l) + SumOver(net, cids - {c}, l)
  }

  lemma {:induction false} SumSplit(net: Network, cids: set<string>, c: string, l: string)
    requires c in cids
    ensures SumOver(net, cids, l) == Occurrences(net.labels(c), l) + SumOver(net, cids - {c}, l)
  {
    var d :| d in cids && SumOver(net, cids, l) == Occurrences(net.labels(d), l) + SumOver(net, cids - {d}, l);
    if d != c {
      SumSplit(net, cids - {d}, c, l);
      SumSplit(net, cids - {c}, d, l);
      assert cids - {d} - {c} == cids - {c} - {d};
    }
  }

  /** Each label's total is its multiplicity summed over the published records; no zero entries. */
  ghost predicate Exact(net: Network, published: set<string>, data: Totals) {
    Positive(data) && forall l :: Total(data, l) == SumOver(net, published, l)
  }

  /** The steps that keep the counters exact. */
  ghost predicate KeepsCounts(net: Network, v: View, step: Step) {
    match step
    case UnpublishStep(r) =>
      r.None? || r.value.cid == "" || r.value.cid in v.published
      || forall l | l in net.labels(r.value.cid) :: SumOver(net, v.published, l) == 0
    case CleanOrphanStep(cid) => cid !in v.published || net.labels(cid) == []
    case _ => true
  }

  lemma PublishExact(net: Network, published: set<string>, data: Totals, c: string)
    requires Exact(net, published, data) && c !in published
    ensures Exact(net, published + {c}, IncrementAll(data, net.labels(c)))
  {
    IncrementTotals(data, net.labels(c), "");
    forall l ensures Total(IncrementAll(data, net.labels(c)), l) == SumOver(net, published + {c}, l) {
      IncrementTotals(data, net.labels(c), l);
      SumSplit(net, published + {c}, c, l);
      assert published + {c} - {c} == published;
    }
  }

  lemma UnpublishExact(net: Network, published: set<string>, data: Totals, c: string)
    requires Exact(net, published, data)
    ensures Exact(net, published - {c}, DecrementAll(data, net.labels(c))) <==>
      c in published || forall l | l in net.labels(c) :: SumOver(net, published, l) == 0
  {
    var after := DecrementAll(data, net.labels(c));
    DecrementTotals(data, net.labels(c), "");
    forall l
      ensures c in published ==> Total(after, l) == SumOver(net, published - {c}, l)
      ensures c !in published ==>
        (Total(after, l) == SumOver(net, published - {c}, l) <==>
         l !in net.labels(c) || SumOver(net, published, l) == 0)
    {
      DecrementTotals(data, net.labels(c), l);
      OccurrencesIn(net.labels(c), l);
      if c in published { SumSplit(net, published, c, l); } else { assert published - {c} == published; }
    }
  }

  lemma OrphanExact(net: Network, published: set<string>, data: Totals, c: string)
    requires Exact(net, published, data)
    ensures Exact(net, published - {c}, data) <==> c !in published || net.labels(c) == []
  {
    if c in published {
      forall l
        ensures SumOver(net, published, l) == Occurrences(net.labels(c), l) + SumOver(net, published - {c}, l)
        ensures Occurrences(net.labels(c), l) > 0 <==> l in net.labels(c)
      {
        SumSplit(net, published, c, l);
        OccurrencesIn(net.labels(c), l);
      }
      if net.labels(c) != [] {
        var l := net.labels(c)[0];
        assert Occurrences(net.labels(c), l) > 0;
        assert Total(data, l) != SumOver(net, published - {c}, l);
      }
    } else {
      assert published - {c} == published;
    }
  }

  /** The counters a store holds. */
  function TotalsOf(store: Store): Totals {
    var t := LoadTotals(store); if t.Some? then t.value else map[]
  }

  lemma TotalsAfter(net: Network, store: Store, v: View, step: Step)
    requires GoodNetwork(net) && Represents(net, store, v) && Admissible(net, step)
    ensures var after := TotalsOf(Apply(net.local, store, step));
      match step
      case PublishStep(r, _) =>
        after == if r.None? || r.value.cid == "" || r.value.cid in v.published then TotalsOf(store)
                 else IncrementAll(TotalsOf(store), net.labels(r.value.cid))
      case UnpublishStep(r) =>
        after == if r.None? || r.value.cid == "" then TotalsOf(store)
                 else DecrementAll(TotalsOf(store), net.labels(r.value.cid))
      case _ => after == TotalsOf(store)
  {
    hide ParseKey, InNamespace, GoodLabel, LabelKeys, RecordLabels, RecordKey, IncrementAll, DecrementAll, Owned,
      MarkedForDeletion, RemoteFilter;
    assert Agrees(net, store, v, METRICS);
    match step
    case PublishStep(r, _) =>
      if r.Some? && r.value.cid != "" {
        GoodRecordKey(r.value.cid);
        assert Agrees(net, store, v, RecordKey(r.value.cid));
      }
    case UnpublishStep(r) =>
    case CleanOrphanStep(cid) =>
      GoodRecordKey(cid);
      if InNamespace(METRICS) { NamespaceKey(METRICS); }
    case _ =>
      assert LocalKey(net.local, METRICS);
      AdmissibleKeepsLocal(net, store, v, step, METRICS);
  }

  /** One step keeps exact counters exact iff it is neither an unpublish of an unpublished
      record sharing a counted label nor an orphan cleanup of a labelled published one. */
  lemma ExactStepIff(net: Network, store: Store, v: View, step: Step)
    requires GoodNetwork(net) && Represents(net, store, v) && Admissible(net, step)
    requires Exact(net, v.published, TotalsOf(store))
    ensures Exact(net, AbsApply(net, v, step).published, TotalsOf(Apply(net.local, store, step)))
            <==> KeepsCounts(net, v, step)
  {
    hide ParseKey, InNamespace, GoodLabel, Exact, Apply, IncrementAll, DecrementAll, TotalsOf, Agrees, CellStep;
    TotalsAfter(net, store, v, step);
    var data := TotalsOf(store);
    match step
    case PublishStep(r, _) =>
      if r.Some? && r.value.cid != "" {
        if r.value.cid in v.published {
          assert v.published + {r.value.cid} == v.published;
        } else {
          PublishExact(net, v.published, data, r.value.cid);
        }
      }
    case UnpublishStep(r) =>
      if r.Some? {
        if r.value.cid == "" {
          assert v.published - {""} == v.published;
        } else {
          UnpublishExact(net, v.published, data, r.value.cid);
        }
      }
    case CleanOrphanStep(cid) => OrphanExact(net, v.published, data, cid);
    case _ =>
  }

  ghost predicate AllKeepCounts(net: Network, v: View, steps: seq<Step>) {
    forall i | 0 <= i < |steps| :: KeepsCounts(net, AbsRun(net, v, steps[..i]), steps[i])
  }

  /** Conservation: over every such run from an empty store the counters are exact. */
  lemma {:induction false} ExactRun(net: Network, steps: seq<Step>)
    requires GoodNetwork(net) && AllAdmissible(net, steps) && AllKeepCounts(net, EMPTY, steps)
    ensures Exact(net, AbsRun(net, EMPTY, steps).published, TotalsOf(Run(net.local, map[], steps)))
  {
    hide GoodLabel, GoodSegment, Admissible, KeepsCounts, Apply, AbsApply, Represents;
    EmptyRepresents(net);
    if steps != [] {
      var init := steps[..|steps| - 1];
      assert forall i | 0 <= i < |init| :: init[..i] == steps[..i];
      ExactRun(net, init);
      RunRepresents(net, map[], EMPTY, init);
      ExactStepIff(net, Run(net.local, map[], init), AbsRun(net, EMPTY, init), steps[|steps| - 1]);
    }
  }

  // ----- the two ways to drift, at work -----

  function SkillA(cid: string): Record { Record(cid, ["a"], [], [], []) }

  /** Two records "c" and "d" that share their one label. */
  function Shared(): Network {
    Network("p", cid => if cid == "c" || cid == "d" then ["/skills/a"] else [])
  }

  lemma SkillALabel(cid: string)
    ensures RecordLabels(SkillA(cid)) == ["/skills/a"] && GoodLabel("/skills/a")
  {
    hide Split, GoodPath, HasDouble, LabelType.Normalize;
    assert SlashFree("a") && Trimmed("a", IsSpace) && Trimmed("a", IsSlash);
    NoSlashNoDouble("a");
    NormalizeClean(Skill, "a");
    SplitParts("a");
    GoodLabelKey(Skill, "a");
    assert Skill.LabelKey("a") == "/skills/a";
    assert RecordLabels(SkillA(cid)) == LabelsOfType(Skill, ["a"]);
  }

  lemma SharedIsGood()
    ensures GoodNetwork(Shared()) && GoodSegment("c") && GoodSegment("d")
    ensures GoodRecord(Shared(), Some(SkillA("c"))) && GoodRecord(Shared(), Some(SkillA("d")))
  {
    hide GoodLabel, RecordLabels;
    SkillALabel("c");
    SkillALabel("d");
  }

  lemma PublishedC(now: int)
    ensures var s := Run("p", map[], [PublishStep(Some(SkillA("c")), now)]);
      Represents(Shared(), s, View({"c"}, map[])) && TotalsOf(s) == map["/skills/a" := 1]
  {
    hide GoodLabel, RecordLabels, Agrees, Publish, GoodRecord;
    var step := PublishStep(Some(SkillA("c")), now);
    var steps := [step];
    assert steps[..0] == [];
    SharedIsGood();
    EmptyRepresents(Shared());
    StepRepresents(Shared(), map[], EMPTY, step);
    TotalsAfter(Shared(), map[], EMPTY, step);
    assert AbsApply(Shared(), EMPTY, step) == View({"c"}, map[]);
    assert ["/skills/a"][..0] == [];
  }

  /** Unpublishing "d", which was never published, takes the count of the published "c" away. */
  lemma UnpublishDrifts(now: int)
    ensures var s := Run("p", map[], [PublishStep(Some(SkillA("c")), now), UnpublishStep(Some(SkillA("d")))]);
      RECORDS + "c" in s && BuildKey("/skills/a", "c", "p") in s && TotalsOf(s) == map[]
  {
    hide GoodLabel, RecordLabels, Publish, Unpublish, GoodRecord, Represents, BuildKey;
    var before := [PublishStep(Some(SkillA("c")), now)];
    var step := UnpublishStep(Some(SkillA("d")));
    assert (before + [step])[..1] == before && before + [step] == [before[0], step];
    PublishedC(now);
    SharedIsGood();
    SkillALabel("c");
    var s0, v := Run("p", map[], before), View({"c"}, map[]);
    StepRepresents(Shared(), s0, v, step);
    TotalsAfter(Shared(), s0, v, step);
    assert ["/skills/a"][..0] == [];
    assert AbsApply(Shared(), v, step) == v;
    LocalKeyIff(Shared(), Apply("p", s0, step), v, "/skills/a", "c");
  }

  /** Cleaning up the published "c" as an orphan leaves its count behind. */
  lemma OrphanCleanupDrifts(now: int)
    ensures var s := Run("p", map[], [PublishStep(Some(SkillA("c")), now), CleanOrphanStep("c")]);
      RECORDS + "c" !in s && TotalsOf(s) == map["/skills/a" := 1]
  {
    hide GoodLabel, RecordLabels, Publish, CleanOrphan, GoodRecord, Represents;
    var before := [PublishStep(Some(SkillA("c")), now)];
    var step := CleanOrphanStep("c");
    assert (before + [step])[..1] == before && before + [step] == [before[0], step];
    PublishedC(now);
    SharedIsGood();
    SkillALabel("c");
    var s0, v := Run("p", map[], before), View({"c"}, map[]);
    StepRepresents(Shared(), s0, v, step);
    TotalsAfter(Shared(), s0, v, step);
    LocalKeyIff(Shared(), Apply("p", s0, step), AbsApply(Shared(), v, step), "/skills/a", "c");
  }
}

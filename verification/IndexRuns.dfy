/** Every run of the routing index keeps the store equal to what its view says. */
module IndexRuns {
  import opened Labels
  import opened Basics
  import opened Index

  // ----- one step at a time -----

  lemma RecordKeyIs(c: string, k: string)
    requires GoodSegment(c)
    ensures k == RecordKey(c) <==> RECORDS <= k && k[|RECORDS|..] == c
  {
    GoodRecordKey(c);
    if RECORDS <= k { assert k == RECORDS + k[|RECORDS|..]; }
  }

  /** Which kind of key a string is, as far as one published record is concerned. */
  lemma LocalKeys(net: Network, c: string, k: string)
    requires GoodNetwork(net) && GoodSegment(c)
    ensures k == RecordKey(c) <==> RECORDS <= k && k[|RECORDS|..] == c
    ensures c != "" && (k == RecordKey(c) ==> k != METRICS)
    ensures k in LabelKeys(Elems(net.labels(c)), c, net.local) <==>
      ParseKey(k).Some? && ParseKey(k).value.lbl in net.labels(c)
      && ParseKey(k).value.cid == c && ParseKey(k).value.peer == net.local
    ensures k in LabelKeys(Elems(net.labels(c)), c, net.local) ==> !(RECORDS <= k) && k != METRICS
  {
    RecordKeyIs(c, k);
    InLabelKeys(Elems(net.labels(c)), c, net.local, k);
    GoodRecordKey(c);
    if InNamespace(k) { NamespaceKey(k); }
  }

  lemma PublishAgrees(net: Network, store: Store, v: View, r: Record, now: int, k: string)
    requires GoodNetwork(net) && Represents(net, store, v)
    requires GoodSegment(r.cid) && RecordLabels(r) == net.labels(r.cid)
    ensures Agrees(net, Publish(net.local, store, r, now), v.(published := v.published + {r.cid}), k)
  {
    hide ParseKey, InNamespace, RecordKey, LabelKeys, RecordLabels, GoodSegment, GoodLabel, IncrementAll;
    LocalKeys(net, r.cid, k);
    LocalKeys(net, r.cid, RecordKey(r.cid));
    assert Agrees(net, store, v, k) && Agrees(net, store, v, METRICS) && Agrees(net, store, v, RecordKey(r.cid));
  }

  lemma UnpublishAgrees(net: Network, store: Store, v: View, r: Record, k: string)
    requires GoodNetwork(net) && Represents(net, store, v)
    requires GoodSegment(r.cid) && RecordLabels(r) == net.labels(r.cid)
    ensures Agrees(net, Unpublish(net.local, store, r), v.(published := v.published - {r.cid}), k)
  {
    hide ParseKey, InNamespace, RecordKey, LabelKeys, RecordLabels, GoodSegment, GoodLabel, DecrementAll;
    LocalKeys(net, r.cid, k);
    assert Agrees(net, store, v, k) && Agrees(net, store, v, METRICS);
  }

  lemma RemoteKeys(net: Network, c: string, p: string, k: string)
    requires GoodNetwork(net) && GoodSegment(c) && GoodSegment(p)
    ensures k in LabelKeys(Elems(net.labels(c)), c, p) <==>
      ParseKey(k).Some? && ParseKey(k).value.lbl in net.labels(c)
      && ParseKey(k).value.cid == c && ParseKey(k).value.peer == p
    ensures k in LabelKeys(Elems(net.labels(c)), c, p) ==> InNamespace(k) && !(RECORDS <= k) && k != METRICS
  {
    InLabelKeys(Elems(net.labels(c)), c, p, k);
    if InNamespace(k) { NamespaceKey(k); }
  }

  lemma PutCell(net: Network, store: Store, v: View, c: string, p: string, m: Metadata, k: string)
    requires GoodNetwork(net) && Represents(net, store, v)
    requires GoodSegment(c) && GoodSegment(p) && p != net.local
    ensures Agrees(net, PutAll(store, LabelKeys(Elems(net.labels(c)), c, p), Meta(m)),
                   v.(cells := v.cells[(c, p) := m]), k)
  {
    hide ParseKey, InNamespace, GoodSegment, GoodLabel, NewKey, BuildKey;
    RemoteKeys(net, c, p, k);
    assert Agrees(net, store, v, k);
  }

  /** The cache check and the cell agree. */
  lemma CachedIffCell(net: Network, store: Store, v: View, c: string, p: string)
    requires GoodNetwork(net) && Represents(net, store, v)
    requires GoodSegment(c) && GoodSegment(p) && p != net.local
    ensures Owned(store, c, p) == if (c, p) in v.cells then LabelKeys(Elems(net.labels(c)), c, p) else {}
    ensures Owned(store, c, p) != {} <==> (c, p) in v.cells
  {
    hide ParseKey, InNamespace, GoodSegment, GoodLabel, LabelKeys;
    forall k ensures k in Owned(store, c, p) <==> (c, p) in v.cells && k in LabelKeys(Elems(net.labels(c)), c, p) {
      RemoteKeys(net, c, p, k);
      if InNamespace(k) { NamespaceKey(k); }
      assert Agrees(net, store, v, k);
    }
    if (c, p) in v.cells {
      LabelKeyExists(net, c, p);
    }
  }

  lemma LabelKeyExists(net: Network, c: string, p: string)
    requires net.labels(c) != []
    ensures LabelKeys(Elems(net.labels(c)), c, p) != {}
  {
    var l := net.labels(c)[0];
    assert l in Elems(net.labels(c));
    assert NewKey(BuildKey(l, c, p)) in LabelKeys(Elems(net.labels(c)), c, p);
  }

  lemma TouchCell(net: Network, store: Store, v: View, c: string, p: string, now: int, k: string)
    requires GoodNetwork(net) && Represents(net, store, v)
    requires GoodSegment(c) && GoodSegment(p) && p != net.local && (c, p) in v.cells
    ensures Agrees(net, Touch(store, Owned(store, c, p), now),
                   v.(cells := v.cells[(c, p) := v.cells[(c, p)].(lastSeen := now)]), k)
  {
    hide ParseKey, InNamespace, GoodSegment, GoodLabel, LabelKeys, Owned;
    CachedIffCell(net, store, v, c, p);
    RemoteKeys(net, c, p, k);
    assert Agrees(net, store, v, k);
  }

  /** Among the keys a view allows, the namespace queries see exactly the label keys. */
  lemma AllowedKey(net: Network, store: Store, v: View, k: string)
    requires GoodNetwork(net) && Represents(net, store, v) && k in store && k != METRICS && !(RECORDS <= k)
    ensures ParseKey(k).Some? && InNamespace(k) && ExtractPeer(k) == ParseKey(k).value.peer != ""
  {
    assert Agrees(net, store, v, k);
    BuildParse(k);
    var p := ParseKey(k).value;
    assert p.lbl in net.labels(p.cid) && GoodLabel(p.lbl);
    NamespaceExtends(p.lbl, p.cid, p.peer);
  }

  lemma NamespaceExtends(l: string, c: string, p: string)
    requires InNamespace(l)
    ensures InNamespace(BuildKey(l, c, p))
  {
    assert l <= BuildKey(l, c, p);
  }

  lemma CleanStaleAgrees(net: Network, store: Store, v: View, now: int, k: string)
    requires GoodNetwork(net) && Represents(net, store, v)
    ensures Agrees(net, CleanStale(net.local, store, now), AbsApply(net, v, CleanStaleStep(now)), k)
  {
    hide ParseKey, InNamespace, GoodSegment, GoodLabel, ExtractPeer, ValidMetadata, IsStale;
    assert Agrees(net, store, v, k);
    if InNamespace(k) { NamespaceKey(k); }
    if k in store && k != METRICS && !(RECORDS <= k) {
      AllowedKey(net, store, v, k);
    }
  }

  lemma CleanOrphanAgrees(net: Network, store: Store, v: View, cid: string, k: string)
    requires GoodNetwork(net) && Represents(net, store, v) && GoodSegment(cid)
    ensures Agrees(net, CleanOrphan(net.local, store, cid), v.(published := v.published - {cid}), k)
  {
    hide ParseKey, InNamespace, GoodSegment, GoodLabel, ExtractPeer, RecordKey;
    assert Agrees(net, store, v, k);
    RecordKeyIs(cid, k);
    GoodRecordKey(cid);
    if InNamespace(k) { NamespaceKey(k); }
    if k in store && k != METRICS && !(RECORDS <= k) {
      AllowedKey(net, store, v, k);
    }
  }

  // ----- steps and runs -----

  lemma GossipRepresents(net: Network, store: Store, v: View, step: Step)
    requires GoodNetwork(net) && Represents(net, store, v) && step.GossipStep? && Admissible(net, step)
    ensures Represents(net, Apply(net.local, store, step), AbsApply(net, v, step))
  {
    if step.peer != net.local {
      var c, p := step.cid, step.peer;
      var m := Metadata(step.timestamp, step.now);
      if net.labels(c) == [] {
        NoLabelKeys(net.labels(c), c, p);
        assert AbsApply(net, v, step) == v;
        assert Apply(net.local, store, step) == store;
      } else {
        forall k ensures Agrees(net, Apply(net.local, store, step), AbsApply(net, v, step), k) {
          PutCell(net, store, v, c, p, m, k);
        }
      }
    }
  }

  lemma NoticeRepresents(net: Network, store: Store, v: View, step: Step)
    requires GoodNetwork(net) && Represents(net, store, v) && step.NoticeStep? && Admissible(net, step)
    ensures Represents(net, Apply(net.local, store, step), AbsApply(net, v, step))
  {
    hide Owned, LabelKeys, RecordLabels, GoodLabel, GoodSegment, Agrees;
    if step.peer != net.local {
      var c, p := step.cid, step.peer;
      CachedIffCell(net, store, v, c, p);
      if (c, p) in v.cells {
        forall k ensures Agrees(net, Apply(net.local, store, step), AbsApply(net, v, step), k) {
          TouchCell(net, store, v, c, p, step.now, k);
        }
      } else if step.pulled.None? || net.labels(c) == [] {
        if net.labels(c) == [] { NoLabelKeys(net.labels(c), c, p); }
        assert AbsApply(net, v, step) == v;
        assert Apply(net.local, store, step) == store;
      } else {
        forall k ensures Agrees(net, Apply(net.local, store, step), AbsApply(net, v, step), k) {
          PutCell(net, store, v, c, p, Metadata(step.now, step.now), k);
        }
      }
    }
  }

  lemma LocalRepresents(net: Network, store: Store, v: View, step: Step)
    requires GoodNetwork(net) && Represents(net, store, v) && Admissible(net, step)
    requires step.PublishStep? || step.UnpublishStep?
    ensures Represents(net, Apply(net.local, store, step), AbsApply(net, v, step))
  {
    hide RecordLabels, LabelKeys, RecordKey, GoodLabel, Agrees;
    if step.record.Some? {
      var r := step.record.value;
      if r.cid == "" {
        assert "" !in v.published;
        assert v.published - {""} == v.published;
      } else {
        forall k ensures Agrees(net, Apply(net.local, store, step), AbsApply(net, v, step), k) {
          if step.PublishStep? {
            PublishAgrees(net, store, v, r, step.now, k);
          } else {
            UnpublishAgrees(net, store, v, r, k);
          }
        }
      }
    }
  }

  lemma StepRepresents(net: Network, store: Store, v: View, step: Step)
    requires GoodNetwork(net) && Represents(net, store, v) && Admissible(net, step)
    ensures Represents(net, Apply(net.local, store, step), AbsApply(net, v, step))
  {
    hide Agrees, GoodLabel, GoodSegment, RecordLabels;
    match step
    case PublishStep(_, _) => LocalRepresents(net, store, v, step);
    case UnpublishStep(_) => LocalRepresents(net, store, v, step);
    case GossipStep(_, _, _, _, _) => GossipRepresents(net, store, v, step);
    case NoticeStep(_, _, _, _) => NoticeRepresents(net, store, v, step);
    case CleanStaleStep(now) =>
      forall k ensures Agrees(net, Apply(net.local, store, step), AbsApply(net, v, step), k) {
        CleanStaleAgrees(net, store, v, now, k);
      }
    case CleanOrphanStep(cid) =>
      forall k ensures Agrees(net, Apply(net.local, store, step), AbsApply(net, v, step), k) {
        CleanOrphanAgrees(net, store, v, cid, k);
      }
  }

  /** Main theorem: over every run, the store is what the view says. */
  lemma {:induction false} RunRepresents(net: Network, store: Store, v: View, steps: seq<Step>)
    requires GoodNetwork(net) && Represents(net, store, v) && AllAdmissible(net, steps)
    ensures Represents(net, Run(net.local, store, steps), AbsRun(net, v, steps))
  {
    hide Represents, Admissible;
    if steps != [] {
      var init := steps[..|steps| - 1];
      RunRepresents(net, store, v, init);
      StepRepresents(net, Run(net.local, store, init), AbsRun(net, v, init), steps[|steps| - 1]);
    }
  }

  const EMPTY := View({}, map[])

  lemma EmptyRepresents(net: Network)
    ensures Represents(net, map[], EMPTY)
  {
  }
}

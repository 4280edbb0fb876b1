/** What every run of the routing index guarantees, read off its view. */
module IndexTheorems {
  import opened Text
  import opened Labels
  import opened Basics
  import opened Index
  import opened IndexRuns

  // ----- the local slice -----

  /** The keys a node holds for its own records. */
  predicate LocalKey(local: string, k: string) {
    k == METRICS || RECORDS <= k || (ParseKey(k).Some? && ParseKey(k).value.peer == local)
  }

  /** In every reachable store, a local label key exists iff its record is published and carries it. */
  lemma LocalIndexInvariant(net: Network, steps: seq<Step>, l: string, c: string)
    requires GoodNetwork(net) && AllAdmissible(net, steps) && GoodLabel(l) && GoodSegment(c)
    ensures var s := Run(net.local, map[], steps);
      BuildKey(l, c, net.local) in s <==> RECORDS + c in s && l in net.labels(c)
  {
    hide GoodLabel, GoodSegment, Admissible;
    var s, v := Run(net.local, map[], steps), AbsRun(net, EMPTY, steps);
    EmptyRepresents(net);
    RunRepresents(net, map[], EMPTY, steps);
    LocalKeyIff(net, s, v, l, c);
  }

  /** Publishing an unpublished record files a listed value under its label's key exactly when the
      counters load, and the normalised value is not empty and has no dot segment; otherwise the
      datastore cleans the key into another one. */
  lemma FiledIffGood(local: string, store: Store, r: Record, now: int, lt: LabelType, value: string)
    requires GoodSegment(local) && GoodSegment(r.cid) && value in ValuesOf(r, lt)
    requires RecordKey(r.cid) !in store && BuildKey(lt.LabelKey(value), r.cid, local) !in store
    ensures var v := lt.Normalize(value);
      BuildKey(lt.LabelKey(value), r.cid, local) in Publish(local, store, r, now)
      <==> LoadTotals(store).Some? && v != "" && "." !in Split(v) && ".." !in Split(v)
  {
    hide NewKey, RecordLabels, InNamespace, GoodPath, Split, LabelType.LabelKey, LabelKeys, IncrementAll;
    var l := lt.LabelKey(value);
    var k := BuildKey(l, r.cid, local);
    ExtractedLabel(r, lt, value);
    NamespaceExtends(l, r.cid, local);
    NamespaceKey(k);
    GoodRecordKey(r.cid);
    GoodLabelKey(lt, value);
    AmongKeys(r, local, l);
  }

  /** A label's own key is among the keys written for it exactly when the label is good. */
  lemma AmongKeys(r: Record, local: string, l: string)
    requires GoodSegment(local) && GoodSegment(r.cid) && |Split(l)| >= 3 && InNamespace(l)
    requires l in Elems(RecordLabels(r))
    ensures BuildKey(l, r.cid, local) in LabelKeys(Elems(RecordLabels(r)), r.cid, local) <==> GoodLabel(l)
  {
    hide NewKey, RecordLabels, InNamespace, GoodPath, Split, GoodSegment, BuildKey;
    var k := BuildKey(l, r.cid, local);
    GoodKeyPath(l, r.cid, local);
    NewKeyIdentity(k);
    if k in LabelKeys(Elems(RecordLabels(r)), r.cid, local) {
      var x :| x in Elems(RecordLabels(r)) && k == NewKey(BuildKey(x, r.cid, local));
      NewKeyIdempotent(BuildKey(x, r.cid, local));
    }
  }

  /** The skill ".." is extracted from a record and published, and its key is nowhere. */
  lemma DotSkillIsNotFiled(now: int)
    ensures var r := Record("c", [".."], [], [], []);
      "/skills/.." in RecordLabels(r) && BuildKey("/skills/..", "c", "p") !in Publish("p", map[], r, now)
  {
    hide NewKey, Publish, Split, Trim, IsSpace, LabelType.Normalize, RecordLabels;
    var r := Record("c", [".."], [], [], []);
    DotsStay();
    assert ValuesOf(r, Skill)[0] == "..";
    ExtractedLabel(r, Skill, "..");
    FiledIffGood("p", map[], r, now, Skill, "..");
  }

  lemma DotsStay()
    ensures Skill.Normalize("..") == ".." && Skill.LabelKey("..") == "/skills/.." && Split("..") == [".."]
  {
    hide Split;
    assert !HasDouble("..") && Trimmed("..", IsSpace) && Trimmed("..", IsSlash);
    NormalizeClean(Skill, "..");
    SplitParts("..");
  }

  lemma ExtractedLabel(r: Record, lt: LabelType, value: string)
    requires value in ValuesOf(r, lt)
    ensures var l := lt.LabelKey(value); l in RecordLabels(r) && InNamespace(l) && |Split(l)| >= 3
  {
    hide Split, LabelType.Normalize;
    SplitPrefixed(lt, lt.Normalize(value));
    var labels := LabelsOfType(lt, ValuesOf(r, lt));
    var i :| 0 <= i < |ValuesOf(r, lt)| && ValuesOf(r, lt)[i] == value;
    assert labels[i] == lt.LabelKey(value) && labels[i] in labels;
  }

  lemma GoodKeyPath(l: string, c: string, p: string)
    requires GoodSegment(c) && GoodSegment(p) && |Split(l)| >= 3
    ensures (GoodPath(BuildKey(l, c, p)) <==> GoodPath(l)) && BuildKey(l, c, p) != "/"
  {
    hide Split;
    SplitKey(l, c, p);
    var parts, ls := Split(BuildKey(l, c, p)), Split(l);
    assert forall i | 0 <= i < |ls| :: parts[i] == ls[i];
    if GoodPath(BuildKey(l, c, p)) {
      forall i | 1 <= i < |ls| ensures GoodSegment(ls[i]) { assert GoodSegment(parts[i]); }
    }
  }

  lemma LocalKeyIff(net: Network, s: Store, v: View, l: string, c: string)
    requires GoodNetwork(net) && Represents(net, s, v) && GoodLabel(l) && GoodSegment(c)
    ensures RECORDS + c in s <==> c in v.published
    ensures BuildKey(l, c, net.local) in s <==> c in v.published && l in net.labels(c)
  {
    var k, rk := BuildKey(l, c, net.local), RECORDS + c;
    GoodKey(l, c, net.local);
    NamespaceKey(k);
    GoodRecordKey(c);
    assert Agrees(net, s, v, k) && Agrees(net, s, v, rk);
  }

  /** Whatever an announcement carries and whatever the store holds: announcements from a peer named by a
      path segment other than "metrics" change no counter and no label of this node, and stale cleanup
      changes no record marker either. */
  lemma RemoteStepsKeepLocal(local: string, store: Store, step: Step, k: string)
    requires local != "" && (step.GossipStep? || step.NoticeStep? || step.CleanStaleStep?)
    requires !step.CleanStaleStep? ==> GoodSegment(step.peer) && step.peer != "metrics"
    requires LocalKey(local, k) && (RECORDS <= k ==> step.CleanStaleStep?)
    ensures var after := Apply(local, store, step);
      (k in after <==> k in store) && (k in store ==> after[k] == store[k])
  {
    hide ParseKey, InNamespace, GoodSegment, RecordLabels, NewKey, MarkedForDeletion;
    if InNamespace(k) { NamespaceKey(k); }
    match step
    case GossipStep(peer, cid, labels, _, _) =>
      if peer != local { NotPeersKey(local, k, Elems(labels), cid, peer); }
    case NoticeStep(peer, cid, pulled, _) =>
      if peer != local && pulled.Some? { NotPeersKey(local, k, Elems(RecordLabels(pulled.value)), cid, peer); }
    case CleanStaleStep(_) =>
      if ParseKey(k).Some? { PeerIsExtracted(k); }
  }

  lemma PeerIsExtracted(k: string)
    requires ParseKey(k).Some?
    ensures ExtractPeer(k) == ParseKey(k).value.peer
  {
    BuildParse(k);
  }

  /** No key written for another peer is a counter or a label of this node. */
  lemma NotPeersKey(local: string, k: string, labels: set<string>, cid: string, peer: string)
    requires LocalKey(local, k) && !(RECORDS <= k) && GoodSegment(peer) && peer != local && peer != "metrics"
    ensures k !in LabelKeys(labels, cid, peer)
  {
    hide NewKey, GoodSegment, Split;
    if k in LabelKeys(labels, cid, peer) {
      var l :| l in labels && k == NewKey(BuildKey(l, cid, peer));
      KeyEndsInPeer(l, cid, peer);
      if k == METRICS {
        SplitMetrics();
      } else {
        LastIsPeer(k);
      }
    }
  }

  lemma SplitMetrics()
    ensures Split(METRICS) == ["", "metrics"]
  {
    SplitConcat("", "metrics");
    SplitParts("metrics");
    assert METRICS == "" + "/" + "metrics";
  }

  lemma LastIsPeer(k: string)
    requires ParseKey(k).Some?
    ensures ParseKey(k).value.peer == Split(k)[|Split(k)| - 1]
  {
    hide Split;
  }

  /** An announcement leaves the whole local slice alone exactly when no label's key is cleaned into a
      record marker, or the marker is there with the same metadata. */
  lemma GossipKeepsLocalIff(local: string, store: Store, peer: string, cid: string, labels: seq<string>,
                            ts: int, now: int)
    requires local != "" && GoodSegment(peer) && peer != local && peer != "metrics"
    ensures var after := Apply(local, store, GossipStep(peer, cid, labels, ts, now));
      (forall k | LocalKey(local, k) :: (k in after <==> k in store) && (k in store ==> after[k] == store[k]))
      <==>
      (forall l | l in labels :: var k := NewKey(BuildKey(l, cid, peer));
        RECORDS <= k ==> k in store && store[k] == Meta(Metadata(ts, now)))
  {
    hide ParseKey, GoodSegment, NewKey, InNamespace;
    var step := GossipStep(peer, cid, labels, ts, now);
    var after, keys := Apply(local, store, step), LabelKeys(Elems(labels), cid, peer);
    forall k | LocalKey(local, k) && !(RECORDS <= k)
      ensures (k in after <==> k in store) && (k in store ==> after[k] == store[k])
    {
      RemoteStepsKeepLocal(local, store, step, k);
    }
    forall l | l in labels ensures NewKey(BuildKey(l, cid, peer)) in keys {}
  }

  /** The label "/records" with the CID "." is cleaned into the marker of a record called as the peer. */
  lemma RecordsLabelIsMarker(ts: int, now: int)
    ensures RECORDS + "p" in Apply("me", map[], GossipStep("p", ".", ["/records"], ts, now))
  {
    hide NewKey;
    MarkerKey();
    assert ["/records"][0] in Elems(["/records"]);
  }

  lemma MarkerKey()
    ensures NewKey(BuildKey("/records", ".", "p")) == RECORDS + "p"
  {
    hide Split, CleanSegments;
    var parts := ["", "records", ".", "p"];
    SplitRecordKey(".");
    SplitConcat(RECORDS + ".", "p");
    SplitParts("p");
    assert BuildKey("/records", ".", "p") == RECORDS + "." + "/" + "p";
    assert Split(BuildKey("/records", ".", "p")) == parts;
    MarkerSegments(parts);
  }

  lemma MarkerSegments(parts: seq<string>)
    requires parts == ["", "records", ".", "p"]
    ensures (forall p | p in parts :: SlashFree(p)) && Join(CleanSegments(parts, []), "/") == "records/p"
  {
    assert parts[1..] == ["records", ".", "p"] && parts[1..][1..] == [".", "p"] && parts[1..][1..][1..] == ["p"];
    assert CleanSegments(["p"], ["records"]) == ["records", "p"];
    assert CleanSegments([".", "p"], ["records"]) == ["records", "p"];
    assert CleanSegments(["records", ".", "p"], []) == ["records", "p"];
    assert ["records", "p"][1..] == ["p"];
  }

  /** Announcements of the record's own labels, and stale cleanup, never touch the local slice. */
  lemma AdmissibleKeepsLocal(net: Network, store: Store, v: View, step: Step, k: string)
    requires GoodNetwork(net) && Represents(net, store, v) && Admissible(net, step)
    requires step.GossipStep? || step.NoticeStep? || step.CleanStaleStep?
    requires LocalKey(net.local, k)
    ensures var after := Apply(net.local, store, step);
      (k in after <==> k in store) && (k in store ==> after[k] == store[k])
  {
    hide ParseKey, InNamespace, GoodLabel, GoodSegment, LabelKeys, RecordLabels, ExtractPeer, MarkedForDeletion;
    if InNamespace(k) { NamespaceKey(k); }
    match step
    case GossipStep(peer, cid, _, _, _) => RemoteKeys(net, cid, peer, k);
    case NoticeStep(peer, cid, _, _) => RemoteKeys(net, cid, peer, k);
    case CleanStaleStep(_) =>
      if k in store && k != METRICS && !(RECORDS <= k) { AllowedKey(net, store, v, k); }
  }

  // ----- remote pairs: all labels or none -----

  /** Every reachable store caches all of a record's labels for a peer, or none of them,
      and all with the same metadata. */
  lemma AllOrNothing(net: Network, steps: seq<Step>, c: string, p: string)
    requires GoodNetwork(net) && AllAdmissible(net, steps)
    requires GoodSegment(c) && GoodSegment(p) && p != net.local
    ensures var s := Run(net.local, map[], steps); var cells := AbsRun(net, EMPTY, steps).cells;
      && Owned(s, c, p) == (if (c, p) in cells then LabelKeys(Elems(net.labels(c)), c, p) else {})
      && (forall k | k in Owned(s, c, p) :: s[k] == Meta(cells[(c, p)]))
  {
    hide GoodLabel, GoodSegment, Admissible, LabelKeys, InNamespace;
    var s, v := Run(net.local, map[], steps), AbsRun(net, EMPTY, steps);
    EmptyRepresents(net);
    RunRepresents(net, map[], EMPTY, steps);
    CachedIffCell(net, s, v, c, p);
    forall k | k in Owned(s, c, p) ensures s[k] == Meta(v.cells[(c, p)]) {
      assert OwnedBy(k, c, p);
      NamespaceKey(k);
      assert Agrees(net, s, v, k);
    }
  }

  // ----- one cell, followed through a run -----

  function CellRun(net: Network, p: Pair, cell: Option<Metadata>, steps: seq<Step>): Option<Metadata> {
    if steps == [] then cell
    else CellStep(net, p, CellRun(net, p, cell, steps[..|steps| - 1]), steps[|steps| - 1])
  }

  lemma CellOfStep(net: Network, v: View, step: Step, p: Pair)
    requires p.1 != net.local
    ensures Get(AbsApply(net, v, step).cells, p) == CellStep(net, p, Get(v.cells, p), step)
  {
  }

  lemma {:induction false} CellProjection(net: Network, v: View, steps: seq<Step>, p: Pair)
    requires p.1 != net.local
    ensures Get(AbsRun(net, v, steps).cells, p) == CellRun(net, p, Get(v.cells, p), steps)
  {
    hide AbsApply, CellStep;
    if steps != [] {
      CellProjection(net, v, steps[..|steps| - 1], p);
      CellOfStep(net, AbsRun(net, v, steps[..|steps| - 1]), steps[|steps| - 1], p);
    }
  }

  // ----- the two announcement paths are confluent -----

  predicate Announces(step: Step, p: Pair) {
    (step.GossipStep? || step.NoticeStep?) && (step.cid, step.peer) == p
  }

  /** An announcement that carries the labels by itself: gossip, or a pull that succeeds. */
  predicate Carries(step: Step) {
    step.GossipStep? || (step.NoticeStep? && step.pulled.Some?)
  }

  lemma {:induction false} AnnouncedCell(net: Network, p: Pair, cell: Option<Metadata>, steps: seq<Step>)
    requires forall s | s in steps :: Announces(s, p)
    requires net.labels(p.0) != []
    ensures CellRun(net, p, cell, steps).Some? <==> cell.Some? || exists s | s in steps :: Carries(s)
  {
    if steps != [] {
      var init, last := steps[..|steps| - 1], steps[|steps| - 1];
      assert forall s :: s in steps <==> s in init || s == last by { assert steps == init + [last]; }
      AnnouncedCell(net, p, cell, init);
      assert Announces(last, p) && (Carries(last) ==> exists s | s in steps :: Carries(s));
    }
  }

  /** From a store that caches nothing for (CID, peer), announcements in any number and order,
      over either path, leave exactly that record's label keys as soon as one of them carries
      the labels, and nothing before that. */
  lemma Confluence(net: Network, store: Store, v: View, steps: seq<Step>, c: string, p: string)
    requires GoodNetwork(net) && Represents(net, store, v) && AllAdmissible(net, steps)
    requires GoodSegment(c) && GoodSegment(p) && p != net.local && Owned(store, c, p) == {}
    requires forall s | s in steps :: Announces(s, (c, p))
    ensures Owned(Run(net.local, store, steps), c, p) ==
      if exists s | s in steps :: Carries(s) then LabelKeys(Elems(net.labels(c)), c, p) else {}
  {
    hide GoodLabel, GoodSegment, Admissible, Owned, Represents, Carries;
    var s', v' := Run(net.local, store, steps), AbsRun(net, v, steps);
    RunRepresents(net, store, v, steps);
    CachedIffCell(net, store, v, c, p);
    CachedIffCell(net, s', v', c, p);
    CellProjection(net, v, steps, (c, p));
    if net.labels(c) == [] {
      NoLabelKeys(net.labels(c), c, p);
    } else {
      AnnouncedCell(net, (c, p), None, steps);
    }
  }

  // ----- time -----

  function Clock(step: Step, t: int): int {
    match step
    case UnpublishStep(_) => t
    case CleanOrphanStep(_) => t
    case _ => step.now
  }

  function ClockAfter(t: int, steps: seq<Step>): int {
    if steps == [] then t else Clock(steps[|steps| - 1], ClockAfter(t, steps[..|steps| - 1]))
  }

  predicate Monotone(t: int, steps: seq<Step>) {
    steps == [] ||
    (var init := steps[..|steps| - 1]; Monotone(t, init) && ClockAfter(t, init) <= ClockAfter(t, steps))
  }

  /** With a clock that never runs backwards, lastSeen never decreases, even when an entry is
      cleaned away and announced again. */
  lemma {:induction false} LastSeenNeverDecreases(net: Network, p: Pair, cell: Option<Metadata>, t: int,
                                                  steps: seq<Step>)
    requires Monotone(t, steps) && (cell.Some? ==> cell.value.lastSeen <= t)
    ensures var after := CellRun(net, p, cell, steps);
      after.Some? ==> after.value.lastSeen <= ClockAfter(t, steps)
                      && (cell.Some? ==> cell.value.lastSeen <= after.value.lastSeen)
    ensures t <= ClockAfter(t, steps)
  {
    if steps != [] { LastSeenNeverDecreases(net, p, cell, t, steps[..|steps| - 1]); }
  }

  lemma OwnedValue(net: Network, store: Store, v: View, c: string, p: string, k: string)
    requires GoodNetwork(net) && Represents(net, store, v) && p != net.local && k in Owned(store, c, p)
    ensures (c, p) in v.cells && store[k] == Meta(v.cells[(c, p)])
  {
    hide ParseKey, InNamespace, GoodLabel, GoodSegment;
    NamespaceKey(k);
    assert Agrees(net, store, v, k);
  }

  /** In the store: a label entry that is there before and after a run, through deletion and return,
      has not gone back in time. */
  lemma StoredLastSeenNeverDecreases(net: Network, store: Store, v: View, steps: seq<Step>, c: string, p: string,
                                     k: string, t: int)
    requires GoodNetwork(net) && Represents(net, store, v) && AllAdmissible(net, steps) && Monotone(t, steps)
    requires p != net.local && k in Owned(store, c, p) && k in Run(net.local, store, steps)
    requires store[k].Meta? ==> store[k].meta.lastSeen <= t
    ensures var after := Run(net.local, store, steps);
      store[k].Meta? && after[k].Meta? && store[k].meta.lastSeen <= after[k].meta.lastSeen <= ClockAfter(t, steps)
  {
    hide GoodLabel, GoodSegment, Admissible, OwnedBy, Represents, CellRun, Run, AbsRun, Monotone;
    var after, v' := Run(net.local, store, steps), AbsRun(net, v, steps);
    RunRepresents(net, store, v, steps);
    OwnedValue(net, store, v, c, p, k);
    OwnedValue(net, after, v', c, p, k);
    CellProjection(net, v, steps, (c, p));
    LastSeenNeverDecreases(net, (c, p), Get(v.cells, (c, p)), t, steps);
  }

  // ----- stale cleanup -----

  /** Cleanup keeps the local slice and exactly the valid remote entries that are young enough. */
  lemma CleanStaleExact(net: Network, store: Store, v: View, now: int, k: string)
    requires GoodNetwork(net) && Represents(net, store, v) && k in store
    ensures k in CleanStale(net.local, store, now) <==>
      LocalKey(net.local, k) ||
      (store[k].Meta? && ValidMetadata(store[k].meta) && now - store[k].meta.lastSeen <= MAX_LABEL_AGE)
  {
    hide ParseKey, InNamespace, GoodLabel, GoodSegment, ExtractPeer, ValidMetadata;
    if InNamespace(k) { NamespaceKey(k); }
    if k != METRICS && !(RECORDS <= k) { AllowedKey(net, store, v, k); }
  }

  /** In any store: what stays is outside the namespaces, or a key that parses and is either this node's
      or carries a set time, seen no earlier, within 72 hours. */
  lemma CleanStaleAnywhere(local: string, store: Store, now: int, k: string)
    requires local != ""
    ensures k in CleanStale(local, store, now) <==>
      && k in store
      && (!InNamespace(k) ||
          (ParseKey(k).Some? && (ParseKey(k).value.peer == local || Fresh(store[k], now))))
    ensures k in CleanStale(local, store, now) ==> CleanStale(local, store, now)[k] == store[k]
  {
    hide InNamespace, ExtractPeer, ParseKey;
    if ParseKey(k).Some? {
      PeerIsExtracted(k);
    } else if InNamespace(k) {
      assert ExtractPeer(k) == "" by { Unparsed(k); }
    }
  }

  predicate Fresh(v: Value, now: int) {
    && v.Meta? && v.meta.timestamp != 0 && v.meta.lastSeen != 0 && v.meta.timestamp <= v.meta.lastSeen
    && now - v.meta.lastSeen <= 259_200_000_000_000
  }

  lemma Unparsed(k: string)
    requires InNamespace(k) && ParseKey(k).None?
    ensures ExtractPeer(k) == ""
  {
    hide Split;
    assert k[0] == '/';
  }

  /** In any store: orphan cleanup takes the record's marker, this node's label keys of the record, and
      every namespaced key that does not parse. */
  lemma CleanOrphanAnywhere(local: string, store: Store, cid: string, k: string)
    ensures k in CleanOrphan(local, store, cid) <==>
      && k in store && k != RecordKey(cid)
      && (!InNamespace(k) ||
          (ParseKey(k).Some? && !(ParseKey(k).value.cid == cid && ParseKey(k).value.peer == local)))
    ensures k in CleanOrphan(local, store, cid) ==> CleanOrphan(local, store, cid)[k] == store[k]
  {
    hide InNamespace, ParseKey, RecordKey;
  }

  /** When the pair was last announced, given that it was seen at t before the run. */
  function LastRefresh(t: int, p: Pair, steps: seq<Step>): int {
    if steps == [] then t
    else if Announces(steps[|steps| - 1], p) then steps[|steps| - 1].now
    else LastRefresh(t, p, steps[..|steps| - 1])
  }

  /** Every cleanup tick comes within MaxLabelAge of the last announcement. */
  predicate RefreshedInTime(t: int, p: Pair, steps: seq<Step>) {
    steps == [] ||
    (var init, last := steps[..|steps| - 1], steps[|steps| - 1];
     RefreshedInTime(t, p, init) &&
     (last.CleanStaleStep? ==> last.now - LastRefresh(t, p, init) <= MAX_LABEL_AGE))
  }

  /** Announcements of the pair carry proper, non-future timestamps. */
  predicate Honest(p: Pair, steps: seq<Step>) {
    forall s | s in steps && Announces(s, p) ::
      s.now != 0 && (s.GossipStep? ==> s.timestamp != 0 && s.timestamp <= s.now)
  }

  predicate NeverLost(net: Network, p: Pair, cell: Option<Metadata>, steps: seq<Step>) {
    CellRun(net, p, cell, steps).Some? && (steps == [] || NeverLost(net, p, cell, steps[..|steps| - 1]))
  }

  /** The metadata of the pair's entry if nothing has deleted it: the timestamp of the last gossip,
      and the time of the last announcement over either path. */
  function MetaAfter(p: Pair, m: Metadata, steps: seq<Step>): Metadata {
    if steps == [] then m
    else
      var before, last := MetaAfter(p, m, steps[..|steps| - 1]), steps[|steps| - 1];
      if !Announces(last, p) then before
      else if last.GossipStep? then Metadata(last.timestamp, last.now)
      else before.(lastSeen := last.now)
  }

  /** Every cleanup finds the pair's metadata valid and young enough. */
  predicate ValidAtCleanups(p: Pair, m: Metadata, steps: seq<Step>) {
    forall i | 0 <= i < |steps| && steps[i].CleanStaleStep? :: Keep(MetaAfter(p, m, steps[..i]), steps[i].now)
  }

  lemma ValidAtCleanupsSnoc(p: Pair, m: Metadata, steps: seq<Step>)
    requires steps != []
    ensures var n := |steps| - 1;
      ValidAtCleanups(p, m, steps) <==>
        ValidAtCleanups(p, m, steps[..n]) &&
        (steps[n].CleanStaleStep? ==> Keep(MetaAfter(p, m, steps[..n]), steps[n].now))
  {
    hide Keep, MetaAfter;
    var init := steps[..|steps| - 1];
    assert forall i | 0 <= i < |init| :: init[i] == steps[i] && init[..i] == steps[..i];
  }

  /** An entry survives a whole run, whatever the clocks do, iff every cleanup finds it valid. */
  lemma {:induction false} KeptIffValid(net: Network, p: Pair, m: Metadata, steps: seq<Step>)
    requires net.labels(p.0) != []
    ensures NeverLost(net, p, Some(m), steps) <==> ValidAtCleanups(p, m, steps)
    ensures NeverLost(net, p, Some(m), steps) ==> CellRun(net, p, Some(m), steps) == Some(MetaAfter(p, m, steps))
  {
    hide ValidAtCleanups, Keep;
    if steps == [] {
      assert ValidAtCleanups(p, m, steps) by { NoCleanups(p, m); }
    } else {
      ValidAtCleanupsSnoc(p, m, steps);
      KeptIffValid(net, p, m, steps[..|steps| - 1]);
    }
  }

  lemma NoCleanups(p: Pair, m: Metadata)
    ensures ValidAtCleanups(p, m, [])
  {
  }

  /** With clocks that agree, that is: iff it is refreshed within MaxLabelAge of every cleanup. */
  lemma {:induction false} KeptIffRefreshed(net: Network, p: Pair, m: Metadata, t: int, steps: seq<Step>)
    requires net.labels(p.0) != [] && ValidMetadata(m) && m.lastSeen <= t
    requires Monotone(t, steps) && Honest(p, steps)
    ensures NeverLost(net, p, Some(m), steps) <==> RefreshedInTime(m.lastSeen, p, steps)
    ensures NeverLost(net, p, Some(m), steps) ==>
      var after := CellRun(net, p, Some(m), steps);
      ValidMetadata(after.value) && after.value.lastSeen == LastRefresh(m.lastSeen, p, steps) <= ClockAfter(t, steps)
  {
    if steps != [] {
      var init, last := steps[..|steps| - 1], steps[|steps| - 1];
      assert last in steps;
      KeptIffRefreshed(net, p, m, t, init);
    }
  }

  lemma {:induction false} NeverLostIsAllPrefixes(net: Network, p: Pair, cell: Option<Metadata>, steps: seq<Step>)
    ensures NeverLost(net, p, cell, steps) <==>
      forall i | 0 <= i <= |steps| :: CellRun(net, p, cell, steps[..i]).Some?
  {
    hide CellStep;
    assert steps[..|steps|] == steps;
    if steps != [] {
      var init := steps[..|steps| - 1];
      NeverLostIsAllPrefixes(net, p, cell, init);
      assert forall i | 0 <= i < |steps| :: init[..i] == steps[..i];
    }
  }

  lemma CachedAfter(net: Network, store: Store, v: View, steps: seq<Step>, c: string, p: string)
    requires GoodNetwork(net) && Represents(net, store, v) && AllAdmissible(net, steps)
    requires GoodSegment(c) && GoodSegment(p) && p != net.local
    ensures Owned(Run(net.local, store, steps), c, p) != {} <==>
      CellRun(net, (c, p), Get(v.cells, (c, p)), steps).Some?
  {
    hide GoodLabel, GoodSegment, Admissible, Owned, Represents, CellRun, Run, AbsRun;
    RunRepresents(net, store, v, steps);
    CachedIffCell(net, Run(net.local, store, steps), AbsRun(net, v, steps), c, p);
    CellProjection(net, v, steps, (c, p));
  }

  /** In the store: cached labels stay there through every prefix of a run, whatever else happens,
      iff every cleanup finds the metadata of the pair's announcements valid and young enough. */
  lemma CachedLabelsSurvive(net: Network, store: Store, v: View, steps: seq<Step>, c: string, p: string)
    requires GoodNetwork(net) && Represents(net, store, v) && AllAdmissible(net, steps)
    requires GoodSegment(c) && GoodSegment(p) && (c, p) in v.cells
    ensures (forall i | 0 <= i <= |steps| :: Owned(Run(net.local, store, steps[..i]), c, p) != {})
            <==> ValidAtCleanups((c, p), v.cells[(c, p)], steps)
  {
    hide GoodLabel, GoodSegment, Admissible, Owned, CellRun, Run, AbsRun, Agrees, ValidAtCleanups;
    var m := v.cells[(c, p)];
    KeptIffValid(net, (c, p), m, steps);
    NeverLostIsAllPrefixes(net, (c, p), Some(m), steps);
    forall i | 0 <= i <= |steps|
      ensures Owned(Run(net.local, store, steps[..i]), c, p) != {} <==> CellRun(net, (c, p), Some(m), steps[..i]).Some?
    {
      assert forall s | s in steps[..i] :: s in steps;
      CachedAfter(net, store, v, steps[..i], c, p);
    }
  }

  /** With clocks that agree: iff each cleanup comes within MaxLabelAge of the last announcement. */
  lemma CachedLabelsRefreshed(net: Network, store: Store, v: View, steps: seq<Step>, c: string, p: string, t: int)
    requires GoodNetwork(net) && Represents(net, store, v) && AllAdmissible(net, steps)
    requires GoodSegment(c) && GoodSegment(p) && (c, p) in v.cells
    requires ValidMetadata(v.cells[(c, p)]) && v.cells[(c, p)].lastSeen <= t
    requires Monotone(t, steps) && Honest((c, p), steps)
    ensures (forall i | 0 <= i <= |steps| :: Owned(Run(net.local, store, steps[..i]), c, p) != {})
            <==> RefreshedInTime(v.cells[(c, p)].lastSeen, (c, p), steps)
  {
    hide GoodLabel, GoodSegment, Admissible, Owned, Run, Agrees, ValidAtCleanups, RefreshedInTime, Monotone, Honest;
    var m := v.cells[(c, p)];
    CachedLabelsSurvive(net, store, v, steps, c, p);
    KeptIffValid(net, (c, p), m, steps);
    KeptIffRefreshed(net, (c, p), m, t, steps);
  }

  /** One announcement over gossip, then a cleanup: kept iff the announcement's timestamp is set and not
      ahead of the receiver's clock, and the cleanup is in time. */
  lemma AnnouncedThenCleaned(net: Network, c: string, p: string, timestamp: int, now: int, later: int)
    requires GoodNetwork(net) && GoodSegment(c) && GoodSegment(p) && p != net.local && net.labels(c) != []
    ensures var steps := [GossipStep(p, c, net.labels(c), timestamp, now), CleanStaleStep(later)];
      Owned(Run(net.local, map[], steps), c, p) != {} <==>
      timestamp != 0 && now != 0 && timestamp <= now && later - now <= 259_200_000_000_000  // 72 hours
  {
    hide GoodLabel, GoodSegment, Owned, Run, AbsRun, Represents;
    var steps := [GossipStep(p, c, net.labels(c), timestamp, now), CleanStaleStep(later)];
    EmptyRepresents(net);
    CachedAfter(net, map[], EMPTY, steps, c, p);
    assert steps[..1] == [steps[0]] && steps[..1][..0] == [];
    assert CellRun(net, (c, p), None, steps[..1]) == Some(Metadata(timestamp, now));
  }

  /** A peer whose clock is ahead by ten: its labels are gone at the next cleanup, although that
      comes in time; a provider notice in between saves them. */
  lemma AheadOfTheClock(net: Network, c: string, p: string)
    requires GoodNetwork(net) && GoodSegment(c) && GoodSegment(p) && p != net.local && net.labels(c) != []
    ensures var gossip := GossipStep(p, c, net.labels(c), 20, 10);
      && Owned(Run(net.local, map[], [gossip, CleanStaleStep(15)]), c, p) == {}
      && Owned(Run(net.local, map[], [gossip, NoticeStep(p, c, None, 25), CleanStaleStep(30)]), c, p) != {}
  {
    hide GoodLabel, GoodSegment, Owned, Run, AbsRun, Represents;
    AnnouncedThenCleaned(net, c, p, 20, 10, 15);
    var steps := [GossipStep(p, c, net.labels(c), 20, 10), NoticeStep(p, c, None, 25), CleanStaleStep(30)];
    EmptyRepresents(net);
    CachedAfter(net, map[], EMPTY, steps, c, p);
    assert steps[..2][..1] == [steps[0]] && steps[..2][..1][..0] == [];
    assert CellRun(net, (c, p), None, steps[..2][..1]) == Some(Metadata(20, 10));
    assert CellRun(net, (c, p), None, steps[..2]) == Some(Metadata(20, 25));
  }
}

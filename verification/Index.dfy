/** The routing label index as a state machine over one key-value store:
    server/routing/routing_local.go, routing_remote.go and cleanup_tasks.go.
    Every handler is an atomic step on the store; the theorems say that over every run
    the whole store is determined by a small view, namely which CIDs are published and
    one metadata cell per (CID, remote peer). */
module Index {
  import opened Text
  import opened Labels
  import opened Basics

  // ----- the store -----

  /** Times are nanoseconds; 0 is Go's zero time. */
  datatype Metadata = Metadata(timestamp: int, lastSeen: int)

  const MAX_LABEL_AGE := 72 * 3600 * 1_000_000_000

  /** LabelMetadata.Validate. */
  predicate ValidMetadata(m: Metadata) {
    m.timestamp != 0 && m.lastSeen != 0 && !(m.lastSeen < m.timestamp)
  }

  /** LabelMetadata.IsStale(MaxLabelAge) at time now. */
  predicate IsStale(m: Metadata, now: int) {
    now - m.lastSeen > MAX_LABEL_AGE
  }

  datatype Value = Marker | Meta(meta: Metadata) | Counts(data: map<string, nat>)
  type Store = map<string, Value>

  const RECORDS := "/records/"
  const METRICS := "/metrics"

  function RecordKey(cid: string): string { NewKey(RECORDS + cid) }

  function LabelKeys(labels: set<string>, cid: string, peer: string): set<string> {
    set l | l in labels :: NewKey(BuildKey(l, cid, peer))
  }

  function PutAll(store: Store, keys: set<string>, v: Value): Store {
    map k | k in store.Keys + keys :: if k in keys then v else store[k]
  }

  predicate OwnedBy(key: string, cid: string, peer: string) {
    InNamespace(key) && ParseKey(key).Some? && ParseKey(key).value.cid == cid && ParseKey(key).value.peer == peer
  }

  /** The label keys the namespace queries find for one (CID, peer). */
  function Owned(store: Store, cid: string, peer: string): set<string> {
    set k | k in store && OwnedBy(k, cid, peer)
  }

  function Touched(v: Value, now: int): Value {
    if v.Meta? then Meta(v.meta.(lastSeen := now)) else v
  }

  /** updateRemoteRecordLastSeen. */
  function Touch(store: Store, keys: set<string>, now: int): Store {
    map k | k in store :: if k in keys then Touched(store[k], now) else store[k]
  }

  // ----- label counters -----

  type Totals = map<string, nat>

  /** Metrics.increment. */
  function Increment(data: Totals, lbl: string): Totals {
    data[lbl := (if lbl in data then data[lbl] else 0) + 1]
  }

  /** Metrics.decrement. */
  function Decrement(data: Totals, lbl: string): Totals {
    if lbl !in data then data
    else if data[lbl] <= 1 then data - {lbl}
    else data[lbl := data[lbl] - 1]
  }

  function IncrementAll(data: Totals, labels: seq<string>): Totals {
    if labels == [] then data
    else Increment(IncrementAll(data, labels[..|labels| - 1]), labels[|labels| - 1])
  }

  function DecrementAll(data: Totals, labels: seq<string>): Totals {
    if labels == [] then data
    else Decrement(DecrementAll(data, labels[..|labels| - 1]), labels[|labels| - 1])
  }

  /** loadMetrics; None is a value that does not decode. */
  function LoadTotals(store: Store): Option<Totals> {
    if METRICS !in store then Some(map[])
    else if store[METRICS].Counts? then Some(store[METRICS].data)
    else None
  }

  // ----- the handlers as functions of the store -----

  function Publish(local: string, store: Store, r: Record, now: int): Store {
    var labels, totals := RecordLabels(r), LoadTotals(store);
    if r.cid == "" || totals.None? || RecordKey(r.cid) in store then store
    else
      PutAll(store[RecordKey(r.cid) := Marker], LabelKeys(Elems(labels), r.cid, local),
             Meta(Metadata(now, now)))[METRICS := Counts(IncrementAll(totals.value, labels))]
  }

  function Unpublish(local: string, store: Store, r: Record): Store {
    var labels, totals := RecordLabels(r), LoadTotals(store);
    if r.cid == "" || totals.None? then store
    else
      (store - ({RecordKey(r.cid)} + LabelKeys(Elems(labels), r.cid, local)))
      [METRICS := Counts(DecrementAll(totals.value, labels))]
  }

  function Gossip(local: string, store: Store, peer: string, cid: string, labels: seq<string>,
                  timestamp: int, now: int): Store {
    if peer == local then store
    else PutAll(store, LabelKeys(Elems(labels), cid, peer), Meta(Metadata(timestamp, now)))
  }

  /** pulled is what the pull fallback would return; None when it fails. */
  function ProviderNotice(local: string, store: Store, peer: string, cid: string,
                          pulled: Option<Record>, now: int): Store {
    if peer == local then store
    else if Owned(store, cid, peer) != {} then Touch(store, Owned(store, cid, peer), now)
    else if pulled.None? then store
    else PutAll(store, LabelKeys(Elems(RecordLabels(pulled.value)), cid, peer), Meta(Metadata(now, now)))
  }

  /** remoteLabelFilter.Filter. */
  predicate RemoteFilter(local: string, key: string) {
    ExtractPeer(key) == "" || ExtractPeer(key) != local
  }

  predicate MarkedForDeletion(key: string, v: Value, now: int) {
    ParseKey(key).None? || !v.Meta? || !ValidMetadata(v.meta) || IsStale(v.meta, now)
  }

  function StaleKeys(local: string, store: Store, now: int): set<string> {
    set k | k in store && InNamespace(k) && RemoteFilter(local, k) && MarkedForDeletion(k, store[k], now)
  }

  function CleanStale(local: string, store: Store, now: int): Store {
    store - StaleKeys(local, store, now)
  }

  function OrphanKeys(local: string, store: Store, cid: string): set<string> {
    set k | k in store && InNamespace(k) && (ParseKey(k).None? || OwnedBy(k, cid, local))
  }

  function CleanOrphan(local: string, store: Store, cid: string): Store {
    store - ({RecordKey(cid)} + OrphanKeys(local, store, cid))
  }

  datatype Step =
    | PublishStep(record: Option<Record>, now: int)
    | UnpublishStep(record: Option<Record>)
    | GossipStep(peer: string, cid: string, labels: seq<string>, timestamp: int, now: int)
    | NoticeStep(peer: string, cid: string, pulled: Option<Record>, now: int)
    | CleanStaleStep(now: int)
    | CleanOrphanStep(cid: string)

  function Apply(local: string, store: Store, step: Step): Store {
    match step
    case PublishStep(r, now) => if r.None? then store else Publish(local, store, r.value, now)
    case UnpublishStep(r) => if r.None? then store else Unpublish(local, store, r.value)
    case GossipStep(peer, cid, labels, ts, now) => Gossip(local, store, peer, cid, labels, ts, now)
    case NoticeStep(peer, cid, pulled, now) => ProviderNotice(local, store, peer, cid, pulled, now)
    case CleanStaleStep(now) => CleanStale(local, store, now)
    case CleanOrphanStep(cid) => CleanOrphan(local, store, cid)
  }

  function Run(local: string, store: Store, steps: seq<Step>): Store {
    if steps == [] then store
    else Apply(local, Run(local, store, steps[..|steps| - 1]), steps[|steps| - 1])
  }

  // ----- what a run may assume -----

  /** The local peer, and content addressing: a CID determines its record's labels. */
  datatype Network = Network(local: string, labels: string -> seq<string>)

  ghost predicate GoodNetwork(net: Network) {
    GoodSegment(net.local) && forall c, l :: l in net.labels(c) ==> GoodLabel(l)
  }

  predicate GoodRecord(net: Network, r: Option<Record>) {
    r.None? || r.value.cid == "" || (GoodSegment(r.value.cid) && RecordLabels(r.value) == net.labels(r.value.cid))
  }

  predicate Admissible(net: Network, step: Step) {
    match step
    case PublishStep(r, _) => GoodRecord(net, r)
    case UnpublishStep(r) => GoodRecord(net, r)
    case GossipStep(peer, cid, labels, _, _) =>
      GoodSegment(peer) && GoodSegment(cid) && Elems(labels) == Elems(net.labels(cid))
    case NoticeStep(peer, cid, pulled, _) =>
      GoodSegment(peer) && GoodSegment(cid) && (pulled.Some? ==> RecordLabels(pulled.value) == net.labels(cid))
    case CleanStaleStep(_) => true
    case CleanOrphanStep(cid) => GoodSegment(cid)
  }

  predicate AllAdmissible(net: Network, steps: seq<Step>) {
    forall s | s in steps :: Admissible(net, s)
  }

  // ----- the view -----

  type Pair = (string, string)  // (CID, peer)

  datatype View = View(published: set<string>, cells: map<Pair, Metadata>)

  function Get(cells: map<Pair, Metadata>, p: Pair): Option<Metadata> {
    if p in cells then Some(cells[p]) else None
  }

  function Set(cells: map<Pair, Metadata>, p: Pair, m: Option<Metadata>): map<Pair, Metadata> {
    if m.Some? then cells[p := m.value] else cells - {p}
  }

  predicate Keep(m: Metadata, now: int) {
    ValidMetadata(m) && !IsStale(m, now)
  }

  /** What one step does to the cell of a single remote (CID, peer). */
  function CellStep(net: Network, p: Pair, cell: Option<Metadata>, step: Step): Option<Metadata> {
    match step
    case GossipStep(peer, cid, _, ts, now) =>
      if (cid, peer) != p || net.labels(cid) == [] then cell else Some(Metadata(ts, now))
    case NoticeStep(peer, cid, pulled, now) =>
      if (cid, peer) != p then cell
      else if cell.Some? then Some(cell.value.(lastSeen := now))
      else if pulled.None? || net.labels(cid) == [] then None
      else Some(Metadata(now, now))
    case CleanStaleStep(now) => if cell.Some? && Keep(cell.value, now) then cell else None
    case _ => cell
  }

  function AbsApply(net: Network, v: View, step: Step): View {
    match step
    case PublishStep(r, _) =>
      if r.None? || r.value.cid == "" then v else v.(published := v.published + {r.value.cid})
    case UnpublishStep(r) =>
      if r.None? then v else v.(published := v.published - {r.value.cid})
    case GossipStep(peer, cid, _, _, _) =>
      if peer == net.local then v
      else v.(cells := Set(v.cells, (cid, peer), CellStep(net, (cid, peer), Get(v.cells, (cid, peer)), step)))
    case NoticeStep(peer, cid, _, _) =>
      if peer == net.local then v
      else v.(cells := Set(v.cells, (cid, peer), CellStep(net, (cid, peer), Get(v.cells, (cid, peer)), step)))
    case CleanStaleStep(now) =>
      v.(cells := map p | p in v.cells && Keep(v.cells[p], now) :: v.cells[p])
    case CleanOrphanStep(cid) => v.(published := v.published - {cid})
  }

  function AbsRun(net: Network, v: View, steps: seq<Step>): View {
    if steps == [] then v
    else AbsApply(net, AbsRun(net, v, steps[..|steps| - 1]), steps[|steps| - 1])
  }

  // ----- when a store is what a view says -----

  predicate Live(net: Network, v: View, cid: string, peer: string) {
    if peer == net.local then cid in v.published else (cid, peer) in v.cells
  }

  predicate Agrees(net: Network, store: Store, v: View, k: string) {
    if k == METRICS then k in store ==> store[k].Counts?
    else if RECORDS <= k then k in store <==> k[|RECORDS|..] in v.published
    else match ParseKey(k)
      case None => k !in store
      case Some(p) =>
        && (k in store <==> p.lbl in net.labels(p.cid) && Live(net, v, p.cid, p.peer))
        && (k in store && p.peer != net.local ==> store[k] == Meta(v.cells[(p.cid, p.peer)]))
  }

  predicate GoodView(net: Network, v: View) {
    && (forall c | c in v.published :: GoodSegment(c))
    && (forall p | p in v.cells ::
          GoodSegment(p.0) && GoodSegment(p.1) && p.1 != net.local && net.labels(p.0) != [])
  }

  ghost predicate Represents(net: Network, store: Store, v: View) {
    GoodView(net, v) && forall k :: Agrees(net, store, v, k)
  }

  // ----- keys never collide -----

  lemma NamespaceKey(k: string)
    requires InNamespace(k)
    ensures !(RECORDS <= k) && k != METRICS
  {
    assert k[1] == 's' || k[1] == 'd' || k[1] == 'l' || (k[1] == 'm' && k[2] == 'o');
    assert RECORDS[1] == 'r' && METRICS[1] == 'm' && METRICS[2] == 'e';
  }

  lemma GoodKey(l: string, c: string, p: string)
    requires GoodLabel(l) && GoodSegment(c) && GoodSegment(p)
    ensures var k := BuildKey(l, c, p);
      && NewKey(k) == k && InNamespace(k)
      && ParseKey(k) == Some(ParsedKey(l, c, p)) && ExtractPeer(k) == p
  {
    var k := BuildKey(l, c, p);
    GoodPathIsRooted(l);
    ParseBuild(l, c, p);
    SplitKey(l, c, p);
    assert GoodPath(k);
    NewKeyIdentity(k);
    assert l <= k;
  }

  lemma SplitRecordKey(c: string)
    requires SlashFree(c)
    ensures Split(RECORDS + c) == ["", "records", c]
  {
    SplitConcat("/records", c);
    SplitConcat("", "records");
    SplitParts(c);
    SplitParts("records");
    assert RECORDS + c == "/records" + "/" + c;
    assert "/records" == "" + "/" + "records";
  }

  lemma GoodRecordKey(c: string)
    requires GoodSegment(c)
    ensures RecordKey(c) == RECORDS + c && (RECORDS + c)[|RECORDS|..] == c
    ensures RECORDS <= RecordKey(c) && RecordKey(c) != METRICS && !InNamespace(RecordKey(c))
  {
    SplitRecordKey(c);
    NewKeyIdentity(RECORDS + c);
    RecordNotNamespace(RECORDS + c);
  }

  lemma RecordNotNamespace(k: string)
    requires RECORDS <= k
    ensures !InNamespace(k) && k != METRICS
  {
    if InNamespace(k) { NamespaceKey(k); }
    assert k[1] == 'r';
  }

  lemma NoLabelKeys(labels: seq<string>, c: string, p: string)
    requires labels == []
    ensures LabelKeys(Elems(labels), c, p) == {}
  {
  }

  lemma InLabelKeys(labels: set<string>, c: string, p: string, k: string)
    requires GoodSegment(c) && GoodSegment(p) && forall l | l in labels :: GoodLabel(l)
    ensures k in LabelKeys(labels, c, p) <==>
      ParseKey(k).Some? && ParseKey(k).value.lbl in labels && ParseKey(k).value.cid == c && ParseKey(k).value.peer == p
    ensures k in LabelKeys(labels, c, p) ==> InNamespace(k)
  {
    if k in LabelKeys(labels, c, p) {
      var l :| l in labels && k == NewKey(BuildKey(l, c, p));
      GoodKey(l, c, p);
    }
    if ParseKey(k).Some? && ParseKey(k).value.lbl in labels &&
       ParseKey(k).value.cid == c && ParseKey(k).value.peer == p {
      BuildParse(k);
      GoodKey(ParseKey(k).value.lbl, c, p);
    }
  }
}

/** The routing node as the code runs it: one datastore updated in place by the handlers,
    each proved to perform the step that the index theorems are about, and the List and
    Search loops proved against set specifications. */
module RoutingNode {
  import opened Labels
  import opened Basics
  import opened Matching
  import opened Index

  // ----- store lemmas for the loops -----

  lemma LabelKeysSnoc(labels: seq<string>, i: nat, c: string, p: string)
    requires i < |labels|
    ensures LabelKeys(Elems(labels[..i + 1]), c, p) ==
            LabelKeys(Elems(labels[..i]), c, p) + {NewKey(BuildKey(labels[i], c, p))}
  {
    hide NewKey, BuildKey;
    assert labels[..i + 1] == labels[..i] + [labels[i]];
    ElemsSnoc(labels[..i], labels[i]);
  }

  lemma PutNone(store: Store, v: Value)
    ensures PutAll(store, {}, v) == store
  {
  }

  lemma PutSnoc(store: Store, keys: set<string>, k: string, v: Value)
    ensures PutAll(store, keys + {k}, v) == PutAll(store, keys, v)[k := v]
  {
  }

  /** Committing a batch that starts from one key is putting all of it. */
  lemma CommitBatch(store: Store, k: string, first: Value, keys: set<string>, v: Value)
    ensures store + PutAll(map[k := first], keys, v) == PutAll(store[k := first], keys, v)
  {
  }

  /** The labels one peer's keys carry for a CID. */
  function LabelsIn(store: Store, cid: string, peer: string): set<string> {
    set k | k in Owned(store, cid, peer) :: ParseKey(k).value.lbl
  }

  /** Distinct keys of one (CID, peer) carry distinct labels. */
  lemma SameOwnerSameLabel(k1: string, k2: string, c: string, p: string)
    requires OwnedBy(k1, c, p) && OwnedBy(k2, c, p) && ParseKey(k1).value.lbl == ParseKey(k2).value.lbl
    ensures k1 == k2
  {
    BuildParse(k1);
    BuildParse(k2);
  }

  lemma NamespacesDisjoint(k: string)
    ensures Skill.Prefix() <= k ==> !(Domain.Prefix() <= k) && !(Module.Prefix() <= k) && !(Locator.Prefix() <= k)
    ensures Domain.Prefix() <= k ==> !(Module.Prefix() <= k) && !(Locator.Prefix() <= k)
    ensures Module.Prefix() <= k ==> !(Locator.Prefix() <= k)
  {
    assert Skill.Prefix()[1] == 's' && Domain.Prefix()[1] == 'd';
    assert Module.Prefix()[1] == 'm' && Locator.Prefix()[1] == 'l';
  }

  // ----- what List and Search are to return -----

  datatype ListResponse = ListResponse(cid: string, labels: seq<string>)

  function Cap(limit: nat, total: nat): nat {
    if limit > 0 && total > limit then limit else total
  }

  predicate Listed(local: string, store: Store, qs: seq<Option<Query>>, cid: string) {
    RECORDS + cid in store && cid != "" && MatchesAll(Dedup(qs), LabelsIn(store, cid, local))
  }

  function ListSet(local: string, store: Store, qs: seq<Option<Query>>): set<string> {
    set k | k in store && RECORDS <= k && Listed(local, store, qs, k[|RECORDS|..]) :: k[|RECORDS|..]
  }

  datatype SearchResponse = SearchResponse(cid: string, peer: string, matched: seq<Option<Query>>, score: int)

  function ListCids(rs: seq<ListResponse>): (cs: seq<string>)
    ensures |cs| == |rs| && forall i | 0 <= i < |rs| :: cs[i] == rs[i].cid
  {
    seq(|rs|, i requires 0 <= i < |rs| => rs[i].cid)
  }

  function SearchCids(rs: seq<SearchResponse>): (cs: seq<string>)
    ensures |cs| == |rs| && forall i | 0 <= i < |rs| :: cs[i] == rs[i].cid
  {
    seq(|rs|, i requires 0 <= i < |rs| => rs[i].cid)
  }

  function RemotePairs(local: string, store: Store): set<Pair> {
    set k | k in store && InNamespace(k) && ParseKey(k).Some? && ParseKey(k).value.peer != local
          :: (ParseKey(k).value.cid, ParseKey(k).value.peer)
  }

  /** The threshold applied: never below DefaultMinMatchScore. */
  function Threshold(minMatchScore: int): int {
    if minMatchScore < 1 then 1 else minMatchScore
  }

  /** calculateMatchScore's queries for one remote pair. */
  function Matched(store: Store, qs: seq<Option<Query>>, p: Pair): seq<Option<Query>> {
    MatchingQueries(Dedup(qs), LabelsIn(store, p.0, p.1))
  }

  predicate Found(store: Store, qs: seq<Option<Query>>, min: int, p: Pair) {
    |Matched(store, qs, p)| >= Threshold(min)
  }

  function SearchSet(local: string, store: Store, qs: seq<Option<Query>>, min: int): set<string> {
    set p | p in RemotePairs(local, store) && Found(store, qs, min, p) :: p.0
  }

  lemma InListSet(local: string, store: Store, qs: seq<Option<Query>>, c: string)
    ensures c in ListSet(local, store, qs) <==> Listed(local, store, qs, c)
  {
    hide Dedup, MatchesAll, LabelsIn;
    assert (RECORDS + c)[|RECORDS|..] == c;
    forall k | k in store && RECORDS <= k ensures RECORDS + k[|RECORDS|..] == k { }
  }

  /** In any store, whatever is listed has a marker and a name. */
  lemma ListedIsMarked(local: string, store: Store, qs: seq<Option<Query>>, c: string)
    requires c in ListSet(local, store, qs)
    ensures c != "" && RECORDS + c in store
  {
    hide Dedup, MatchesAll, LabelsIn, ListSet;
    InListSet(local, store, qs, c);
  }

  /** The key proves that its CID is to be found. */
  predicate HitAt(local: string, store: Store, qs: seq<Option<Query>>, min: int, k: string, c: string) {
    k in store && InNamespace(k) && ParseKey(k).Some? && ParseKey(k).value.peer != local
    && ParseKey(k).value.cid == c && Found(store, qs, min, (c, ParseKey(k).value.peer))
  }

  lemma InSearchSet(local: string, store: Store, qs: seq<Option<Query>>, min: int, c: string)
    ensures c in SearchSet(local, store, qs, min) <==> exists k :: HitAt(local, store, qs, min, k, c)
  {
    hide ParseKey, InNamespace, Found;
    if c in SearchSet(local, store, qs, min) {
      var p :| p in RemotePairs(local, store) && Found(store, qs, min, p) && p.0 == c;
      var k :| k in store && InNamespace(k) && ParseKey(k).Some? && ParseKey(k).value.peer != local
               && p == (ParseKey(k).value.cid, ParseKey(k).value.peer);
      assert HitAt(local, store, qs, min, k, c);
    }
    if k :| HitAt(local, store, qs, min, k, c) {
      assert (c, ParseKey(k).value.peer) in RemotePairs(local, store);
    }
  }

  lemma OwnLabel(store: Store, k: string)
    requires k in store && InNamespace(k) && ParseKey(k).Some?
    ensures LabelsIn(store, ParseKey(k).value.cid, ParseKey(k).value.peer) != {}
  {
    var p := ParseKey(k).value;
    assert k in Owned(store, p.cid, p.peer);
    assert p.lbl in LabelsIn(store, p.cid, p.peer);
  }

  /** The capped score reaches the threshold exactly when the number of matches does. */
  lemma ScoreFinds(store: Store, qs: seq<Option<Query>>, min: nat, p: Pair)
    requires min <= MAX_UINT32
    ensures SafeUint32(|Matched(store, qs, p)|) >= Threshold(min) <==> Found(store, qs, min, p)
  {
    hide Matched;
  }

  /** Stopping at the limit, or running to the end, both return the capped number of answers. */
  lemma CappedCount(cids: seq<string>, answers: set<string>, limit: nat, complete: bool)
    requires Distinct(cids) && Elems(cids) <= answers
    requires limit > 0 ==> |cids| <= limit
    requires if complete then Elems(cids) == answers else limit > 0 && |cids| == limit
    ensures |cids| == Cap(limit, |answers|)
  {
    DistinctCard(cids);
    SubsetCard(Elems(cids), answers);
  }

  // ----- the node -----

  class Node {
    var store: Store
    const local: string

    constructor (local: string)
      ensures store == map[] && this.local == local
    {
      this.local := local;
      store := map[];
    }

    /** A prefix query: every matching key once, in no particular order. */
    method Query(prefix: string) returns (keys: seq<string>)
      ensures forall k :: k in keys <==> k in store && prefix <= k
      ensures Distinct(keys)
    {
      keys := [];
      var rest := set k | k in store && prefix <= k;
      while rest != {}
        invariant forall k :: k in store && prefix <= k <==> k in keys || k in rest
        invariant forall k :: k in keys ==> k !in rest
        invariant Distinct(keys)
      {
        var k :| k in rest;
        keys := keys + [k];
        rest := rest - {k};
      }
    }

    method QueryAllNamespaces() returns (keys: seq<string>)
      ensures forall k :: k in keys <==> k in store && InNamespace(k)
      ensures Distinct(keys)
    {
      hide LabelType.Prefix;
      var a := Query(Skill.Prefix());
      var b := Query(Domain.Prefix());
      var c := Query(Module.Prefix());
      var d := Query(Locator.Prefix());
      forall k
        ensures (k in a ==> k !in b && k !in c && k !in d) && (k in b ==> k !in c && k !in d) && (k in c ==> k !in d)
      {
        NamespacesDisjoint(k);
      }
      DistinctConcat(a, b);
      DistinctConcat(a + b, c);
      DistinctConcat(a + b + c, d);
      keys := a + b + c + d;
    }

    method Publish(record: Option<Record>, now: int) returns (ok: bool)
      modifies this
      ensures store == Apply(local, old(store), PublishStep(record, now))
      ensures ok <==> record.Some? && record.value.cid != "" && LoadTotals(old(store)).Some?
    {
      hide NewKey, BuildKey, RecordLabels, Increment, LabelKeys, PutAll, RecordKey, LoadTotals;
      if record.None? || record.value.cid == "" { return false; }
      var r := record.value;
      var loaded := LoadTotals(store);
      if loaded.None? { return false; }
      var totals, recordKey := loaded.value, RecordKey(r.cid);
      if recordKey in store { return true; }
      var batch: Store := map[recordKey := Marker];
      var labels, value := RecordLabels(r), Meta(Metadata(now, now));
      NoLabelKeys(labels[..0], r.cid, local);
      PutNone(batch, value);
      for i := 0 to |labels|
        invariant store == old(store)
        invariant batch == PutAll(map[recordKey := Marker], LabelKeys(Elems(labels[..i]), r.cid, local), value)
        invariant totals == IncrementAll(loaded.value, labels[..i])
      {
        var key := NewKey(BuildKey(labels[i], r.cid, local));
        LabelKeysSnoc(labels, i, r.cid, local);
        PutSnoc(map[recordKey := Marker], LabelKeys(Elems(labels[..i]), r.cid, local), key, value);
        batch := batch[key := value];
        assert labels[..i + 1][..i] == labels[..i];
        totals := Increment(totals, labels[i]);
      }
      assert labels[..|labels|] == labels;
      CommitBatch(store, recordKey, Marker, LabelKeys(Elems(labels), r.cid, local), value);
      store := store + batch;
      store := store[METRICS := Counts(totals)];
      return true;
    }

    method Unpublish(record: Option<Record>) returns (ok: bool)
      modifies this
      ensures store == Apply(local, old(store), UnpublishStep(record))
      ensures ok <==> record.Some? && record.value.cid != "" && LoadTotals(old(store)).Some?
    {
      hide NewKey, BuildKey, RecordLabels, Decrement, LabelKeys, RecordKey, LoadTotals;
      if record.None? || record.value.cid == "" { return false; }
      var r := record.value;
      var loaded := LoadTotals(store);
      if loaded.None? { return false; }
      var totals, labels := loaded.value, RecordLabels(r);
      var deletions := {RecordKey(r.cid)};
      NoLabelKeys(labels[..0], r.cid, local);
      for i := 0 to |labels|
        invariant store == old(store)
        invariant deletions == {RecordKey(r.cid)} + LabelKeys(Elems(labels[..i]), r.cid, local)
        invariant totals == DecrementAll(loaded.value, labels[..i])
      {
        LabelKeysSnoc(labels, i, r.cid, local);
        deletions := deletions + {NewKey(BuildKey(labels[i], r.cid, local))};
        assert labels[..i + 1][..i] == labels[..i];
        totals := Decrement(totals, labels[i]);
      }
      assert labels[..|labels|] == labels;
      store := store - deletions;
      store := store[METRICS := Counts(totals)];
      return true;
    }

    /** The label loop both announcement paths share: one Put per label. */
    method CacheLabels(labels: seq<string>, cid: string, peer: string, value: Value)
      modifies this
      ensures store == PutAll(old(store), LabelKeys(Elems(labels), cid, peer), value)
    {
      hide NewKey, BuildKey, LabelKeys, PutAll;
      NoLabelKeys(labels[..0], cid, peer);
      PutNone(store, value);
      for i := 0 to |labels|
        invariant store == PutAll(old(store), LabelKeys(Elems(labels[..i]), cid, peer), value)
      {
        var key := NewKey(BuildKey(labels[i], cid, peer));
        LabelKeysSnoc(labels, i, cid, peer);
        PutSnoc(old(store), LabelKeys(Elems(labels[..i]), cid, peer), key, value);
        store := store[key := value];
      }
      assert labels[..|labels|] == labels;
    }

    method HandleRecordPublishEvent(peer: string, cid: string, labels: seq<string>, timestamp: int, now: int)
      modifies this
      ensures store == Apply(local, old(store), GossipStep(peer, cid, labels, timestamp, now))
    {
      if peer == local { return; }
      CacheLabels(labels, cid, peer, Meta(Metadata(timestamp, now)));
    }

    method HasRemoteRecordCached(cid: string, peer: string) returns (cached: bool)
      ensures cached <==> Owned(store, cid, peer) != {}
    {
      hide ParseKey, InNamespace;
      var keys := QueryAllNamespaces();
      for i := 0 to |keys|
        invariant forall j | 0 <= j < i :: !OwnedBy(keys[j], cid, peer)
      {
        var parsed := ParseKey(keys[i]);
        if parsed.Some? && parsed.value.cid == cid && parsed.value.peer == peer {
          assert keys[i] in Owned(store, cid, peer);
          return true;
        }
      }
      assert forall k | k in Owned(store, cid, peer) :: k in keys;
      return false;
    }

    method UpdateRemoteRecordLastSeen(cid: string, peer: string, now: int)
      modifies this
      ensures store == Touch(old(store), Owned(old(store), cid, peer), now)
    {
      hide ParseKey, InNamespace;
      var keys := QueryAllNamespaces();
      for i := 0 to |keys|
        invariant store == Touch(old(store), Owned(old(store), cid, peer) * Elems(keys[..i]), now)
      {
        assert keys[..i + 1] == keys[..i] + [keys[i]];
        ElemsSnoc(keys[..i], keys[i]);
        assert keys[i] !in keys[..i];
        var parsed := ParseKey(keys[i]);
        if parsed.Some? && parsed.value.cid == cid && parsed.value.peer == peer {
          store := store[keys[i] := Touched(store[keys[i]], now)];
        }
      }
      assert keys[..|keys|] == keys;
      assert Owned(old(store), cid, peer) * Elems(keys) == Owned(old(store), cid, peer);
    }

    /** The label part of handleCIDProviderNotification. */
    method HandleProviderNotice(peer: string, cid: string, pulled: Option<Record>, now: int)
      modifies this
      ensures store == Apply(local, old(store), NoticeStep(peer, cid, pulled, now))
    {
      hide ParseKey, InNamespace, LabelKeys, RecordLabels;
      if peer == local { return; }
      var cached := HasRemoteRecordCached(cid, peer);
      if cached {
        UpdateRemoteRecordLastSeen(cid, peer, now);
      } else if pulled.Some? {
        CacheLabels(RecordLabels(pulled.value), cid, peer, Meta(Metadata(now, now)));
      }
    }

    method CleanupStaleRemoteLabels(now: int)
      modifies this
      ensures store == Apply(local, old(store), CleanStaleStep(now))
    {
      hide ParseKey, InNamespace, ExtractPeer, IsStale, ValidMetadata;
      var keys := QueryAllNamespaces();
      var stale: set<string> := {};
      for i := 0 to |keys|
        invariant forall k :: k in stale <==> k in keys[..i] && k in StaleKeys(local, store, now)
      {
        assert keys[..i + 1] == keys[..i] + [keys[i]];
        var k := keys[i];
        assert k in keys;
        if RemoteFilter(local, k) {
          if ParseKey(k).None? {
            stale := stale + {k};
          } else if !store[k].Meta? || !ValidMetadata(store[k].meta) {
            stale := stale + {k};
          } else if IsStale(store[k].meta, now) {
            stale := stale + {k};
          }
        }
      }
      assert keys[..|keys|] == keys;
      assert stale == StaleKeys(local, store, now);
      store := store - stale;
    }

    method CleanupLabelsForCid(cid: string) returns (cleaned: bool)
      modifies this
      ensures store == Apply(local, old(store), CleanOrphanStep(cid)) && cleaned
    {
      hide ParseKey, InNamespace, RecordKey;
      var deletions, keysDeleted := {RecordKey(cid)}, 1;
      var keys := QueryAllNamespaces();
      for i := 0 to |keys|
        invariant forall k :: k in deletions <==>
          k == RecordKey(cid) || (k in keys[..i] && k in OrphanKeys(local, store, cid))
        invariant keysDeleted > 0
      {
        assert keys[..i + 1] == keys[..i] + [keys[i]];
        assert keys[i] in keys;
        var parsed := ParseKey(keys[i]);
        if parsed.None? || (parsed.value.cid == cid && parsed.value.peer == local) {
          deletions := deletions + {keys[i]};
          keysDeleted := keysDeleted + 1;
        }
      }
      assert keys[..|keys|] == keys;
      assert deletions == {RecordKey(cid)} + OrphanKeys(local, store, cid);
      store := store - deletions;
      cleaned := keysDeleted > 0;
    }

    /** getRecordLabelsEfficiently and getRemoteRecordLabels: the same scan for a given peer. */
    method GetLabels(cid: string, peer: string) returns (labels: seq<string>)
      ensures Elems(labels) == LabelsIn(store, cid, peer) && Distinct(labels)
    {
      hide ParseKey, InNamespace;
      var keys := QueryAllNamespaces();
      labels := [];
      for i := 0 to |keys|
        invariant forall l :: l in labels <==>
          exists j | 0 <= j < i :: OwnedBy(keys[j], cid, peer) && ParseKey(keys[j]).value.lbl == l
        invariant Distinct(labels)
      {
        var parsed := ParseKey(keys[i]);
        if parsed.Some? && parsed.value.cid == cid && parsed.value.peer == peer {
          assert keys[i] in keys && OwnedBy(keys[i], cid, peer);
          forall j | 0 <= j < i && OwnedBy(keys[j], cid, peer) ensures ParseKey(keys[j]).value.lbl != parsed.value.lbl {
            if ParseKey(keys[j]).value.lbl == parsed.value.lbl {
              SameOwnerSameLabel(keys[j], keys[i], cid, peer);
            }
          }
          assert parsed.value.lbl !in labels;
          labels := labels + [parsed.value.lbl];
        }
      }
      assert forall k | k in Owned(store, cid, peer) :: k in keys;
    }

    method MatchesAllQueries(cid: string, qs: seq<Option<Query>>) returns (b: bool)
      ensures b <==> MatchesAll(qs, LabelsIn(store, cid, local))
    {
      if |qs| == 0 { return true; }
      var labels := GetLabels(cid, local);
      for i := 0 to |qs|
        invariant forall q | q in qs[..i] :: QueryMatches(q, Elems(labels))
      {
        var matches := QueryMatchesLabels(qs[i], labels);
        if !matches { return false; }
      }
      assert qs[..|qs|] == qs;
      return true;
    }

    method List(qs: seq<Option<Query>>, limit: nat) returns (out: seq<ListResponse>)
      ensures Distinct(ListCids(out))
      ensures forall r | r in out ::
        && r.cid in ListSet(local, store, qs)
        && Elems(r.labels) == LabelsIn(store, r.cid, local) && Distinct(r.labels)
      ensures |out| == Cap(limit, |ListSet(local, store, qs)|)
      ensures limit == 0 ==> Elems(ListCids(out)) == ListSet(local, store, qs)
    {
      hide Dedup, MatchesAll, LabelsIn, ListSet, Cap;
      var queries := DeduplicateQueries(qs);
      var keys := Query(RECORDS);
      out := [];
      var i, complete := 0, true;
      while i < |keys|
        invariant i <= |keys| && (limit > 0 ==> |out| < limit)
        invariant forall c :: c in ListCids(out) <==> RECORDS + c in keys[..i] && Listed(local, store, qs, c)
        invariant Distinct(ListCids(out))
        invariant forall r | r in out :: Elems(r.labels) == LabelsIn(store, r.cid, local) && Distinct(r.labels)
      {
        assert keys[i] in keys;
        var cid := keys[i][|RECORDS|..];
        assert RECORDS + cid == keys[i];
        assert keys[..i + 1] == keys[..i] + [keys[i]];
        if cid != "" {
          var matches := MatchesAllQueries(cid, queries);
          if matches {
            var labels := GetLabels(cid, local);
            assert cid !in ListCids(out);
            ghost var before := out;
            out := out + [ListResponse(cid, labels)];
            assert ListCids(out) == ListCids(before) + [cid];
            if limit > 0 && |out| >= limit { complete := false; i := i + 1; break; }
          }
        }
        i := i + 1;
      }
      forall c
        ensures c in ListCids(out) ==> c in ListSet(local, store, qs)
        ensures complete && c in ListSet(local, store, qs) ==> c in ListCids(out)
      {
        InListSet(local, store, qs, c);
      }
      CappedCount(ListCids(out), ListSet(local, store, qs), limit, complete);
    }

    method CalculateMatchScore(cid: string, qs: seq<Option<Query>>, peer: string)
      returns (matched: seq<Option<Query>>, score: int)
      ensures matched ==
        if LabelsIn(store, cid, peer) == {} then [] else MatchingQueries(qs, LabelsIn(store, cid, peer))
      ensures score == SafeUint32(|matched|)
    {
      matched, score := [], 0;
      if |qs| == 0 { return; }
      var labels := GetLabels(cid, peer);
      if |labels| == 0 { return; }
      assert labels[0] in Elems(labels);
      for i := 0 to |qs|
        invariant matched == MatchingQueries(qs[..i], Elems(labels))
      {
        assert qs[..i + 1][..i] == qs[..i];
        var matches := QueryMatchesLabels(qs[i], labels);
        if matches { matched := matched + [qs[i]]; }
      }
      assert qs[..|qs|] == qs;
      score := SafeUint32(|matched|);
    }

    method Search(qs: seq<Option<Query>>, limit: nat, minMatchScore: nat) returns (out: seq<SearchResponse>)
      requires minMatchScore <= MAX_UINT32
      ensures Distinct(SearchCids(out))
      ensures forall r | r in out ::
        && (r.cid, r.peer) in RemotePairs(local, store) && Found(store, qs, minMatchScore, (r.cid, r.peer))
        && r.matched == Matched(store, qs, (r.cid, r.peer)) && r.score == SafeUint32(|r.matched|)
      ensures |out| == Cap(limit, |SearchSet(local, store, qs, minMatchScore)|)
      ensures limit == 0 ==> Elems(SearchCids(out)) == SearchSet(local, store, qs, minMatchScore)
    {
      hide Dedup, LabelsIn, SearchSet, Cap, ParseKey, InNamespace, MatchingQueries, Found, Threshold, SafeUint32;
      var queries := DeduplicateQueries(qs);
      var min := Threshold(minMatchScore);
      var processed: set<string> := {};
      var keys := QueryAllNamespaces();
      out := [];
      var i, complete := 0, true;
      while i < |keys|
        invariant i <= |keys| && (limit > 0 ==> |out| < limit)
        invariant forall c :: c in processed <==> c in SearchCids(out)
        invariant forall c :: c in processed ==> exists k :: HitAt(local, store, qs, minMatchScore, k, c)
        invariant forall c, j | 0 <= j < i :: HitAt(local, store, qs, minMatchScore, keys[j], c) ==> c in processed
        invariant Distinct(SearchCids(out))
        invariant forall r | r in out ::
          && (r.cid, r.peer) in RemotePairs(local, store) && Found(store, qs, minMatchScore, (r.cid, r.peer))
          && r.matched == Matched(store, qs, (r.cid, r.peer)) && r.score == SafeUint32(|r.matched|)
      {
        var key := keys[i];
        assert key in keys;
        var parsed := ParseKey(key);
        if parsed.Some? && parsed.value.peer != local && parsed.value.cid !in processed {
          var cid, peer := parsed.value.cid, parsed.value.peer;
          OwnLabel(store, key);
          var matched, score := CalculateMatchScore(cid, queries, peer);
          ScoreFinds(store, qs, minMatchScore, (cid, peer));
          if score >= min {
            assert HitAt(local, store, qs, minMatchScore, key, cid);
            ghost var before := out;
            out := out + [SearchResponse(cid, peer, matched, score)];
            assert SearchCids(out) == SearchCids(before) + [cid];
            processed := processed + {cid};
            if limit > 0 && |out| >= limit { complete := false; i := i + 1; break; }
          }
        }
        i := i + 1;
      }
      forall c
        ensures c in SearchCids(out) ==> c in SearchSet(local, store, qs, minMatchScore)
        ensures complete && c in SearchSet(local, store, qs, minMatchScore) ==> c in SearchCids(out)
      {
        InSearchSet(local, store, qs, minMatchScore, c);
        if k :| HitAt(local, store, qs, minMatchScore, k, c) { assert k in keys; }
      }
      CappedCount(SearchCids(out), SearchSet(local, store, qs, minMatchScore), limit, complete);
    }
  }
}

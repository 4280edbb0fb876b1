/** What publishing and unpublishing a record do to any store, in terms of the values that the record
    lists (server/routing/routing_local.go, server/types/label.go). */
module Publishing {
  import opened Basics
  import opened Labels
  import opened Index
  import opened IndexMetrics

  /** Some value that the record lists, of some type, has its label under this key. */
  ghost predicate Names(r: Record, peer: string, k: string) {
    exists lt, v | v in ValuesOf(r, lt) :: k == NewKey(BuildKey(lt.LabelKey(v), r.cid, peer))
  }

  lemma KeysAreNamed(r: Record, peer: string, k: string)
    ensures k in LabelKeys(Elems(RecordLabels(r)), r.cid, peer) <==> Names(r, peer, k)
  {
    hide RecordLabels, NewKey, BuildKey, LabelType.LabelKey;
    if k in LabelKeys(Elems(RecordLabels(r)), r.cid, peer) {
      var l :| l in Elems(RecordLabels(r)) && k == NewKey(BuildKey(l, r.cid, peer));
      LabelListed(r, l);
    }
    if lt, v :| v in ValuesOf(r, lt) && k == NewKey(BuildKey(lt.LabelKey(v), r.cid, peer)) {
      LabelListed(r, lt.LabelKey(v));
      assert lt.LabelKey(v) in Elems(RecordLabels(r));
    }
  }

  /** The counters are there and do not decode. */
  predicate Undecodable(store: Store) { METRICS in store && !store[METRICS].Counts? }

  /** A record that can be published: its marker, one key for each label it lists, each with the time,
      and every counter larger by the number of listed values with that label; nothing else changes. */
  lemma PublishExactly(local: string, store: Store, r: Record, now: int, k: string, l: string)
    ensures var after := Publish(local, store, r, now);
      if r.cid == "" || Undecodable(store) || RecordKey(r.cid) in store then after == store
      else
        && METRICS in after && after[METRICS].Counts?
        && Total(after[METRICS].data, l) == Total(TotalsOf(store), l) + Listings(r, l)
        && (k != METRICS ==>
              && (k in after <==> k in store || k == RecordKey(r.cid) || Names(r, local, k))
              && (k in after ==> after[k] == if Names(r, local, k) then Meta(Metadata(now, now))
                                             else if k == RecordKey(r.cid) then Marker else store[k]))
  {
    hide RecordLabels, NewKey, RecordKey, LabelKeys, Names, IncrementAll, Total, Listings;
    KeysAreNamed(r, local, k);
    LabelsExactly(r, l);
    if LoadTotals(store).Some? { IncrementTotals(LoadTotals(store).value, RecordLabels(r), l); }
  }

  /** Unpublishing takes exactly these away again, whether or not the record was published. */
  lemma UnpublishExactly(local: string, store: Store, r: Record, k: string, l: string)
    requires Positive(TotalsOf(store))
    ensures var after := Unpublish(local, store, r);
      if r.cid == "" || Undecodable(store) then after == store
      else
        && METRICS in after && after[METRICS].Counts?
        && Total(after[METRICS].data, l) == (if Total(TotalsOf(store), l) < Listings(r, l) then 0
                                             else Total(TotalsOf(store), l) - Listings(r, l))
        && (k != METRICS ==>
              && (k in after <==> k in store && k != RecordKey(r.cid) && !Names(r, local, k))
              && (k in after ==> after[k] == store[k]))
  {
    hide RecordLabels, NewKey, RecordKey, LabelKeys, Names, DecrementAll, Total, Listings;
    KeysAreNamed(r, local, k);
    LabelsExactly(r, l);
    if LoadTotals(store).Some? { DecrementTotals(LoadTotals(store).value, RecordLabels(r), l); }
  }
}

/**
 * Callers of the cluster-metadata store: the same operation issued again and
 * again, as racing placement-driver instances do at start-up (each call is
 * one atomic step, so any interleaving of calls is some sequence of them), and
 * a write followed by an enumeration.
 */
module Scenarios {
  import opened Types
  import opened Keys
  import opened Codec
  import opened Enumeration
  import opened Cluster

  /**
   * Every caller of CreateFirstClusterID gets the one cluster ID the key
   * holds: the first caller's candidate when the key was never created, and
   * the stored ID otherwise; later calls change neither the keys nor the
   * creation log.
   */
  method CreateFirstClusterIDRepeatedly(s: ClusterStore, candidates: seq<(uint64, uint32)>)
    returns (results: seq<Result<uint64, Error>>)
    requires s.Valid() && |candidates| > 0
    modifies s.backend
    ensures s.Valid() && |results| == |candidates| && s.idPath in s.backend.kv
    ensures forall i :: 0 <= i < |results| ==> results[i] == BytesToUint64(s.backend.kv[s.idPath])
    ensures s.idPath !in old(s.backend.kv) ==>
              && s.backend.kv == old(s.backend.kv)[s.idPath := Uint64ToBytes(CandidateId(candidates[0].0, candidates[0].1))]
              && s.backend.created == old(s.backend.created) + [s.idPath]
              && forall i :: 0 <= i < |results| ==> results[i] == Ok(CandidateId(candidates[0].0, candidates[0].1))
    ensures s.idPath in old(s.backend.kv) ==> s.backend.kv == old(s.backend.kv) && s.backend.created == old(s.backend.created)
  {
    results := [];
    var i := 0;
    while i < |candidates|
      invariant 0 <= i <= |candidates| && |results| == i && s.Valid()
      invariant i > 0 ==> s.idPath in s.backend.kv
      invariant s.backend.kv == if i == 0 || s.idPath in old(s.backend.kv) then old(s.backend.kv)
                                else old(s.backend.kv)[s.idPath := Uint64ToBytes(CandidateId(candidates[0].0, candidates[0].1))]
      invariant s.backend.created == if i == 0 || s.idPath in old(s.backend.kv) then old(s.backend.created)
                                     else old(s.backend.created) + [s.idPath]
      invariant forall k :: 0 <= k < i ==> results[k] == BytesToUint64(s.backend.kv[s.idPath])
    {
      var r := s.CreateFirstClusterID(candidates[i].0, candidates[i].1);
      results := results + [r];
      i := i + 1;
    }
    if s.idPath !in old(s.backend.kv) {
      Uint64BytesRoundTrip(CandidateId(candidates[0].0, candidates[0].1));
    }
  }

  /** The three records of a bootstrap attempt all marshal. */
  predicate Marshals(s: ClusterStore, attempt: (ClusterMeta, StoreMeta, CellMeta))
  {
    && s.clusterCodec.marshal(attempt.0).Some?
    && s.storeCodec.marshal(attempt.1).Some?
    && s.cellCodec.marshal(attempt.2).Some?
  }

  /** The three records of a bootstrap attempt are stored under their keys. */
  ghost predicate HoldsBootstrap(s: ClusterStore, clusterID: uint64, attempt: (ClusterMeta, StoreMeta, CellMeta))
    reads s.backend
  {
    && ClusterMetaKey(s.rootPath, clusterID) in s.backend.kv
    && StoreMetaKey(s.rootPath, clusterID, attempt.1.id) in s.backend.kv
    && CellMetaKey(s.rootPath, clusterID, attempt.2.id) in s.backend.kv
    && s.clusterCodec.marshal(attempt.0) == Some(s.backend.kv[ClusterMetaKey(s.rootPath, clusterID)])
    && s.storeCodec.marshal(attempt.1) == Some(s.backend.kv[StoreMetaKey(s.rootPath, clusterID, attempt.1.id)])
    && s.cellCodec.marshal(attempt.2) == Some(s.backend.kv[CellMetaKey(s.rootPath, clusterID, attempt.2.id)])
  }

  /**
   * A bootstrap attempt, seen from a caller: it wins only on a new cluster,
   * and a loss changes nothing, not even what the cluster-ID lookup reads.
   */
  method BootstrapOnce(s: ClusterStore, clusterID: uint64, attempt: (ClusterMeta, StoreMeta, CellMeta))
    returns (ok: bool)
    requires s.Valid()
    modifies s.backend
    ensures s.Valid()
    ensures ok ==> ClusterMetaKey(s.rootPath, clusterID) !in old(s.backend.kv) && HoldsBootstrap(s, clusterID, attempt)
    ensures !ok ==> s.backend.kv == old(s.backend.kv) && s.backend.created == old(s.backend.created)
    ensures !ok ==> s.GetClusterID() == old(s.GetClusterID())
    ensures ClusterMetaKey(s.rootPath, clusterID) !in old(s.backend.kv) && Marshals(s, attempt) ==> ok
  {
    var err;
    ok, err := s.SetClusterBootstrapped(clusterID, attempt.0, attempt.1, attempt.2);
  }

  /** A stored bootstrap's cluster record reads back as the attempt's own when its codec round-trips. */
  lemma BootstrapReadsBack(s: ClusterStore, clusterID: uint64, attempt: (ClusterMeta, StoreMeta, CellMeta))
    requires HoldsBootstrap(s, clusterID, attempt) && RoundTrips(s.clusterCodec)
    ensures s.LoadClusterMeta(clusterID) == Ok(Some(attempt.0))
  {
    var b := s.backend.kv[ClusterMetaKey(s.rootPath, clusterID)];
    assert s.clusterCodec.unmarshal(b) == Some(attempt.0);
  }

  /**
   * Of any number of bootstrap attempts for one cluster at most one succeeds:
   * none when the cluster was already bootstrapped, the first when it was not
   * and the first attempt's records marshal; the records of the one
   * that succeeded stay in place, and the cluster record reads back as its own.
   */
  method BootstrapRepeatedly(s: ClusterStore, clusterID: uint64, attempts: seq<(ClusterMeta, StoreMeta, CellMeta)>)
    returns (results: seq<bool>)
    requires s.Valid()
    modifies s.backend
    ensures s.Valid() && |results| == |attempts|
    ensures forall i, j :: 0 <= i < j < |results| ==> !(results[i] && results[j])
    ensures ClusterMetaKey(s.rootPath, clusterID) in old(s.backend.kv) ==>
              && s.backend.kv == old(s.backend.kv) && s.backend.created == old(s.backend.created)
              && forall i :: 0 <= i < |results| ==> !results[i]
    ensures (ClusterMetaKey(s.rootPath, clusterID) !in old(s.backend.kv) && |attempts| > 0 && Marshals(s, attempts[0]))
            ==> results[0]
    ensures forall i :: 0 <= i < |results| && results[i] ==> HoldsBootstrap(s, clusterID, attempts[i])
    ensures forall i :: 0 <= i < |results| && results[i] && RoundTrips(s.clusterCodec) ==>
              s.LoadClusterMeta(clusterID) == Ok(Some(attempts[i].0))
    ensures (forall i :: 0 <= i < |results| ==> !results[i]) ==>
              s.backend.kv == old(s.backend.kv) && s.backend.created == old(s.backend.created)
  {
    results := [];
    ghost var winner := -1;
    var i := 0;
    while i < |attempts|
      invariant 0 <= i <= |attempts| && |results| == i && s.Valid()
      invariant -1 <= winner < i
      invariant forall k :: 0 <= k < i ==> (results[k] <==> k == winner)
      invariant winner == -1 ==> s.backend.kv == old(s.backend.kv) && s.backend.created == old(s.backend.created)
      invariant winner >= 0 ==> ClusterMetaKey(s.rootPath, clusterID) !in old(s.backend.kv)
      invariant winner >= 0 ==> HoldsBootstrap(s, clusterID, attempts[winner])
      invariant (i > 0 && ClusterMetaKey(s.rootPath, clusterID) !in old(s.backend.kv) && Marshals(s, attempts[0]))
                ==> winner == 0
    {
      var ok := BootstrapOnce(s, clusterID, attempts[i]);
      if ok {
        winner := i;
      }
      results := results + [ok];
      i := i + 1;
    }
    if winner >= 0 {
      assert results[winner];
      if RoundTrips(s.clusterCodec) {
        BootstrapReadsBack(s, clusterID, attempts[winner]);
      }
    }
  }

  /**
   * A store record written with SetStoreMeta is among the records the next
   * LoadStoreMeta of its cluster visits, provided it was written, its ID is
   * below MaxUint64, and the enumeration ends without error.
   */
  method SaveStoreThenList(s: ClusterStore, clusterID: uint64, store: StoreMeta, limit: int)
    returns (visited: seq<StoreMeta>, err: Option<Error>)
    requires s.Valid() && 0 < limit && RoundTrips(s.storeCodec)
    requires WellKeyed(s.backend.kv, StoreKeyPrefix(s.rootPath, clusterID), MAX_UINT64, s.storeCodec.unmarshal, StoreId)
    modifies s.backend
    ensures s.storeCodec.marshal(store).Some? && store.id < MAX_UINT64 && err.None? ==> store in visited
  {
    var saveErr := s.SetStoreMeta(clusterID, store);
    if saveErr.None? {
      PutKeepsWellKeyed(old(s.backend.kv), StoreKeyPrefix(s.rootPath, clusterID), MAX_UINT64, s.storeCodec.unmarshal,
                        StoreId, store, s.storeCodec.marshal(store).value);
    }
    ghost var kv := s.backend.kv;
    visited, err := s.LoadStoreMeta(clusterID, limit);
    if saveErr.None? && store.id < MAX_UINT64 && err.None? {
      StoredRecordVisited(kv, StoreKeyPrefix(s.rootPath, clusterID), s.storeCodec.unmarshal, store, visited);
    }
  }

  /** A listing that covers every stored store, each under its own key, includes the one held at its key. */
  lemma StoredRecordVisited(kv: map<string, Bytes>, prefix: string, decode: Bytes -> Option<StoreMeta>,
                            store: StoreMeta, visited: seq<StoreMeta>)
    requires store.id < MAX_UINT64 && EntityKey(prefix, store.id) in kv
    requires decode(kv[EntityKey(prefix, store.id)]) == Some(store)
    requires StoredUnderOwnKeys(kv, prefix, MAX_UINT64, decode, StoreId, visited)
    requires CoversAll(kv, prefix, MAX_UINT64, StoreId, visited)
    ensures store in visited
  {
    var i :| 0 <= i < |visited| && StoreId(visited[i]) == store.id;
    assert decode(kv[EntityKey(prefix, StoreId(visited[i]))]) == Some(visited[i]);
  }
}

/**
 * The placement driver's cluster-metadata store (pkg/pdserver/storage/cluster.go):
 * cluster-ID lookup and first creation, the all-or-nothing bootstrap, point
 * reads and writes of cluster, store and cell records, and the paginated
 * enumeration of stores and cells.
 */
module Cluster {
  import opened Types
  import opened Lex
  import opened Text
  import opened Keys
  import opened Codec
  import opened Kv
  import opened Enumeration

  // ---- cluster identity ----

  lemma ShiftTruncation(ts: uint64)
    ensures (ts as int * 0x1_0000_0000) % 0x1_0000_0000_0000_0000
            == (ts as int % 0x1_0000_0000) * 0x1_0000_0000
  {
    var q, t := ts as int / 0x1_0000_0000, ts as int % 0x1_0000_0000;
    assert ts as int * 0x1_0000_0000 == q * 0x1_0000_0000_0000_0000 + t * 0x1_0000_0000;
    assert 0 <= t * 0x1_0000_0000 < 0x1_0000_0000_0000_0000;
  }

  /**
   * The candidate cluster ID `(ts << 32) + uint64(rnd)`: the low 32 bits of the
   * clock in the high half, the random word in the low half. The clock and the
   * random source are parameters.
   */
  function CandidateId(ts: uint64, rnd: uint32): (id: uint64)
    ensures id as int % 0x1_0000_0000 == rnd as int
    ensures id as int / 0x1_0000_0000 == ts as int % 0x1_0000_0000
  {
    ShiftTruncation(ts);
    ((ts as int * 0x1_0000_0000) % 0x1_0000_0000_0000_0000 + rnd as int) as uint64
  }

  /** What CreateFirstClusterID makes of its transaction's response. */
  function CommittedClusterId(resp: TxnResponse, candidate: uint64): (r: Result<uint64, Error>)
    ensures resp.succeeded ==> r == Ok(candidate)
    ensures !resp.succeeded && |resp.responses| == 0 ==> r == Err(EmptyTxnResponse)
    ensures !resp.succeeded && |resp.responses| > 0
            && !(resp.responses[0].RangeResponse? && |resp.responses[0].kvs| == 1)
            ==> r == Err(InvalidRangeResponse)
    ensures (&& !resp.succeeded && |resp.responses| > 0
             && resp.responses[0].RangeResponse? && |resp.responses[0].kvs| == 1)
            ==> (r.Ok? <==> |resp.responses[0].kvs[0].value| == 8)
    ensures !resp.succeeded && r.Ok? ==>
              exists kv :: resp.responses[0] == RangeResponse([kv]) && Uint64ToBytes(r.value) == kv.value
  {
    if resp.succeeded then Ok(candidate)
    else if |resp.responses| == 0 then Err(EmptyTxnResponse)
    else
      var response := resp.responses[0];
      if !response.RangeResponse? || |response.kvs| != 1 then Err(InvalidRangeResponse)
      else
        var r := BytesToUint64(response.kvs[0].value);
        if r.Ok? then
          BytesUint64RoundTrip(response.kvs[0].value);
          assert response == RangeResponse([response.kvs[0]]);
          r
        else r
  }

  /**
   * The cluster ID held by `key`, the earliest-created key under the cluster-ID
   * path: the canonical key holds it as eight bytes; any other key is an older
   * layout whose fourth "/"-separated segment is the ID in decimal.
   */
  function ClusterIdFromKey(idPath: string, key: string, value: Bytes): (r: Result<uint64, Error>)
    ensures key == idPath ==> (r.Ok? <==> |value| == 8)
    ensures key != idPath && r.Ok? ==>
              |Split(key, '/')| >= 4 && Split(key, '/')[3] != [] && AllDigits(Split(key, '/')[3])
  {
    if key == idPath then BytesToUint64(value)
    else
      var elems := Split(key, '/');
      if |elems| < 4 then Err(InvalidClusterKey(key))
      else
        match ParseUint(elems[3])
        case Ok(id) => Ok(id)
        case Err(e) => Err(ParseFailed(e))
  }

  /** The canonical key returns exactly the ID encoded in it. */
  lemma CanonicalKeyRoundTrip(idPath: string, id: uint64)
    ensures ClusterIdFromKey(idPath, idPath, Uint64ToBytes(id)) == Ok(id)
  {
    Uint64BytesRoundTrip(id);
  }

  /** An older-layout key `a/b/c/<id>[/...]` returns the ID written in its fourth segment. */
  lemma LegacyKeyRoundTrip(idPath: string, a: string, b: string, c: string, id: uint64, tail: string)
    requires '/' !in a && '/' !in b && '/' !in c
    requires tail == [] || tail[0] == '/'
    requires a + "/" + b + "/" + c + "/" + Decimal(id as nat) + tail != idPath
    ensures ClusterIdFromKey(idPath, a + "/" + b + "/" + c + "/" + Decimal(id as nat) + tail, []) == Ok(id)
  {
    var d := Decimal(id as nat);
    var key := a + "/" + b + "/" + c + "/" + d + tail;
    var r3 := d + tail;
    var r2 := c + "/" + r3;
    var r1 := b + "/" + r2;
    assert key == a + ['/'] + r1;
    assert r1 == b + ['/'] + r2 && r2 == c + ['/'] + r3;
    SplitHead(a, '/', r1);
    SplitHead(b, '/', r2);
    SplitHead(c, '/', r3);
    assert '/' !in d;
    if tail == [] {
      assert r3 == d;
      SplitWhole(d, '/');
    } else {
      assert r3 == d + ['/'] + tail[1..];
      SplitHead(d, '/', tail[1..]);
    }
    assert Split(key, '/')[3] == d;
    ParseDecimal(id);
  }

  /** A non-canonical key is malformed exactly when it has fewer than three separators. */
  lemma LegacyKeyTooShort(idPath: string, key: string, value: Bytes)
    requires key != idPath
    ensures ClusterIdFromKey(idPath, key, value) == Err(InvalidClusterKey(key)) <==> Count(key, '/') < 3
  {
    SplitCount(key, '/');
  }

  class ClusterStore {
    const backend: Backend
    /** `pdClusterIDPath`: the key that holds the cluster ID. */
    const idPath: string
    /** `pdClusterRootPath`: the root under which cluster, store and cell records live. */
    const rootPath: string
    const clusterCodec: RecordCodec<ClusterMeta>
    const storeCodec: RecordCodec<StoreMeta>
    const cellCodec: RecordCodec<CellMeta>

    ghost predicate Valid()
      reads backend
    {
      backend.Valid()
    }

    constructor (backend: Backend, idPath: string, rootPath: string,
                 clusterCodec: RecordCodec<ClusterMeta>, storeCodec: RecordCodec<StoreMeta>, cellCodec: RecordCodec<CellMeta>)
      requires backend.Valid()
      ensures Valid()
      ensures this.backend == backend && this.idPath == idPath && this.rootPath == rootPath
      ensures this.clusterCodec == clusterCodec && this.storeCodec == storeCodec && this.cellCodec == cellCodec
    {
      this.backend := backend;
      this.idPath := idPath;
      this.rootPath := rootPath;
      this.clusterCodec := clusterCodec;
      this.storeCodec := storeCodec;
      this.cellCodec := cellCodec;
    }

    /**
     * The current cluster ID: 0 when nothing is stored under the cluster-ID
     * path, otherwise the ID held by the earliest-created key under it.
     */
    function GetClusterID(): (r: Result<uint64, Error>)
      reads backend
      requires Valid()
      ensures (forall k :: k in backend.kv ==> !(idPath <= k)) ==> r == Ok(0)
      ensures backend.FirstCreated(idPath) == Some(idPath) ==> r == BytesToUint64(backend.kv[idPath])
      ensures r.Err? ==> exists k :: k in backend.kv && idPath <= k
      ensures forall key :: backend.FirstCreated(idPath) == Some(key) && key != idPath ==>
                (r == Err(InvalidClusterKey(key)) <==> Count(key, '/') < 3)
    {
      match backend.FirstCreated(idPath)
      case None => Ok(0)
      case Some(key) =>
        if key == idPath then ClusterIdFromKey(idPath, key, backend.kv[key])
        else
          LegacyKeyTooShort(idPath, key, backend.kv[key]);
          ClusterIdFromKey(idPath, key, backend.kv[key])
    }

    /**
     * Creates the cluster ID once: if the cluster-ID key was never created,
     * stores the candidate and returns it; otherwise changes nothing and
     * returns the stored ID. Either way the result is what the key holds.
     */
    method CreateFirstClusterID(ts: uint64, rnd: uint32) returns (r: Result<uint64, Error>)
      requires Valid()
      modifies backend
      ensures Valid()
      ensures idPath in backend.kv
      ensures old(idPath !in backend.kv) ==>
                && r == Ok(CandidateId(ts, rnd))
                && backend.kv == old(backend.kv)[idPath := Uint64ToBytes(CandidateId(ts, rnd))]
                && backend.created == old(backend.created) + [idPath]
      ensures old(idPath in backend.kv) ==>
                && backend.kv == old(backend.kv) && backend.created == old(backend.created)
                && r == BytesToUint64(old(backend.kv[idPath]))
      ensures r == BytesToUint64(backend.kv[idPath])
    {
      var clusterID := CandidateId(ts, rnd);
      var value := Uint64ToBytes(clusterID);
      ghost var before := backend.State();
      var resp := backend.Txn(idPath, [OpPut(idPath, value)], [OpGet(idPath)]);
      if resp.succeeded {
        assert [OpPut(idPath, value)][1..] == [];
      } else {
        assert [OpGet(idPath)][1..] == [];
        assert resp.responses == [RangeResponse([KeyValue(idPath, before.kv[idPath])])];
      }
      r := CommittedClusterId(resp, clusterID);
      Uint64BytesRoundTrip(clusterID);
    }

    /**
     * Bootstraps the cluster at most once: marshals the cluster, store and
     * cell records, then in one transaction writes all three if the cluster
     * key was never created, and nothing otherwise.
     */
    method SetClusterBootstrapped(clusterID: uint64, cluster: ClusterMeta, store: StoreMeta, cell: CellMeta)
      returns (bootstrapped: bool, err: Option<Error>)
      requires Valid()
      modifies backend
      ensures Valid()
      ensures err.Some? ==> !bootstrapped
      ensures (|| clusterCodec.marshal(cluster).None?
               || storeCodec.marshal(store).None?
               || cellCodec.marshal(cell).None?) ==>
                && !bootstrapped && err == Some(MarshalFailed)
                && backend.kv == old(backend.kv) && backend.created == old(backend.created)
      ensures (&& clusterCodec.marshal(cluster).Some?
               && storeCodec.marshal(store).Some?
               && cellCodec.marshal(cell).Some?) ==>
                && err.None?
                && bootstrapped == (ClusterMetaKey(rootPath, clusterID) !in old(backend.kv))
                && backend.kv == (if bootstrapped
                                  then old(backend.kv)[ClusterMetaKey(rootPath, clusterID) := clusterCodec.marshal(cluster).value]
                                                      [StoreMetaKey(rootPath, clusterID, store.id) := storeCodec.marshal(store).value]
                                                      [CellMetaKey(rootPath, clusterID, cell.id) := cellCodec.marshal(cell).value]
                                  else old(backend.kv))
                && backend.created == (if bootstrapped
                                       then old(backend.created) + [ClusterMetaKey(rootPath, clusterID)]
                                            + Logged(old(backend.kv), StoreMetaKey(rootPath, clusterID, store.id))
                                            + Logged(old(backend.kv), CellMetaKey(rootPath, clusterID, cell.id))
                                       else old(backend.created))
      ensures !bootstrapped ==> backend.kv == old(backend.kv) && backend.created == old(backend.created)
      ensures bootstrapped ==>
                && backend.kv[ClusterMetaKey(rootPath, clusterID)] == clusterCodec.marshal(cluster).value
                && backend.kv[StoreMetaKey(rootPath, clusterID, store.id)] == storeCodec.marshal(store).value
                && backend.kv[CellMetaKey(rootPath, clusterID, cell.id)] == cellCodec.marshal(cell).value
    {
      var clusterBaseKey := ClusterMetaKey(rootPath, clusterID);
      var storeKey := StoreMetaKey(rootPath, clusterID, store.id);
      var cellKey := CellMetaKey(rootPath, clusterID, cell.id);

      var ops: seq<Op> := [];
      var meta := clusterCodec.marshal(cluster);
      if meta.None? {
        return false, Some(MarshalFailed);
      }
      ops := ops + [OpPut(clusterBaseKey, meta.value)];

      meta := storeCodec.marshal(store);
      if meta.None? {
        return false, Some(MarshalFailed);
      }
      ops := ops + [OpPut(storeKey, meta.value)];

      meta := cellCodec.marshal(cell);
      if meta.None? {
        return false, Some(MarshalFailed);
      }
      ops := ops + [OpPut(cellKey, meta.value)];

      ghost var before := backend.State();
      var resp := backend.Txn(clusterBaseKey, ops, []);
      if !resp.succeeded {
        return false, None;
      }
      ExecThreePuts(before, ops);
      BootstrapKeysDistinct(rootPath, clusterID, store.id, cell.id);
      return true, None;
    }

    /** The cluster record; an absent record is `None`, not an error; undecodable bytes are an error. */
    function LoadClusterMeta(clusterID: uint64): (r: Result<Option<ClusterMeta>, Error>)
      reads backend
      ensures ClusterMetaKey(rootPath, clusterID) !in backend.kv ==> r == Ok(None)
      ensures ClusterMetaKey(rootPath, clusterID) in backend.kv ==>
                r == match clusterCodec.unmarshal(backend.kv[ClusterMetaKey(rootPath, clusterID)])
                     case Some(v) => Ok(Some(v))
                     case None => Err(DecodeFailed)
    {
      var data := backend.Value(ClusterMetaKey(rootPath, clusterID));
      if data.None? then Ok(None)
      else
        match clusterCodec.unmarshal(data.value)
        case Some(v) => Ok(Some(v))
        case None => Err(DecodeFailed)
    }

    /**
     * The paginated enumeration shared by LoadStoreMeta and LoadCellMeta:
     * pages of at most `limit` keys from the key of the cursor up to
     * (excluding) the key of `endID`, each record decoded and visited, the
     * cursor moved past it, until a page comes back short.
     */
    method Scan<T>(prefix: string, endID: uint64, limit: int, decode: Bytes -> Option<T>, idOf: T -> uint64)
      returns (visited: seq<T>, err: Option<Error>)
      requires Valid()
      requires 0 < limit
      requires WellKeyed(backend.kv, prefix, endID, decode, idOf)
      ensures ScanOutcome(backend.kv, Collection(backend.created, prefix, endID), decode, visited, err)
    {
      ghost var L := Collection(backend.created, prefix, endID);
      var startID: uint64 := 0;
      visited := [];
      ghost var j: nat := 0;
      ScanStart(backend.kv, backend.created, prefix, endID, decode, idOf);
      while true
        invariant Scanning(backend.kv, backend.created, prefix, endID, decode, j, startID, visited)
        decreases |L| - j
      {
        var failed, more;
        visited, startID, failed, more, j := Round(prefix, endID, limit, decode, idOf, j, startID, visited);
        if failed {
          return visited, Some(DecodeFailed);
        }
        if !more {
          ScanFinished(backend.kv, backend.created, prefix, endID, decode, j, startID, visited);
          return visited, None;
        }
      }
    }

    /**
     * One round of the scan: reads the page at the cursor and visits its
     * records; `failed` when one does not decode, `more` when the page was full.
     */
    method Round<T>(prefix: string, endID: uint64, limit: int, decode: Bytes -> Option<T>, idOf: T -> uint64,
                    ghost j: nat, startID: uint64, visited: seq<T>)
      returns (visited': seq<T>, startID': uint64, failed: bool, more: bool, ghost j': nat)
      requires Valid() && 0 < limit
      requires WellKeyed(backend.kv, prefix, endID, decode, idOf)
      requires EntityKeys(Collection(backend.created, prefix, endID), prefix)
      requires Scanning(backend.kv, backend.created, prefix, endID, decode, j, startID, visited)
      ensures RoundOutcome(backend.kv, backend.created, prefix, endID, limit as nat, decode, j, visited', startID', failed, more, j')
    {
      var page := backend.Range(EntityKey(prefix, startID), EntityKey(prefix, endID), limit as nat);
      NextPage(backend.kv, backend.created, prefix, endID, decode, idOf, j, startID, visited, limit as nat);
      visited', startID', failed, more, j' :=
        VisitRound(backend.kv, backend.created, prefix, endID, limit as nat, page, decode, idOf, j, startID, visited);
    }

    /**
     * Visits every store of the cluster with ID below MaxUint64 once, in
     * ascending ID order, reading at most `limit` keys per round; stops with an
     * error at the first record that does not decode, after visiting the ones before it.
     */
    method LoadStoreMeta(clusterID: uint64, limit: int) returns (visited: seq<StoreMeta>, err: Option<Error>)
      requires Valid()
      requires 0 < limit
      requires WellKeyed(backend.kv, StoreKeyPrefix(rootPath, clusterID), MAX_UINT64, storeCodec.unmarshal, StoreId)
      ensures ScanOutcome(backend.kv, Collection(backend.created, StoreKeyPrefix(rootPath, clusterID), MAX_UINT64), storeCodec.unmarshal, visited, err)
      ensures AscendingIds(visited, StoreId)
      ensures StoredUnderOwnKeys(backend.kv, StoreKeyPrefix(rootPath, clusterID), MAX_UINT64, storeCodec.unmarshal, StoreId, visited)
      ensures err.None? ==> CoversAll(backend.kv, StoreKeyPrefix(rootPath, clusterID), MAX_UINT64, StoreId, visited)
      ensures NoEntities(backend.kv, StoreKeyPrefix(rootPath, clusterID)) ==> visited == [] && err.None?
    {
      visited, err := Scan(StoreKeyPrefix(rootPath, clusterID), MAX_UINT64, limit, storeCodec.unmarshal, StoreId);
      ScanMeaning(backend.kv, backend.created, StoreKeyPrefix(rootPath, clusterID), MAX_UINT64, storeCodec.unmarshal, StoreId, visited, err);
    }

    /** LoadStoreMeta for cells. */
    method LoadCellMeta(clusterID: uint64, limit: int) returns (visited: seq<CellMeta>, err: Option<Error>)
      requires Valid()
      requires 0 < limit
      requires WellKeyed(backend.kv, CellKeyPrefix(rootPath, clusterID), MAX_UINT64, cellCodec.unmarshal, CellId)
      ensures ScanOutcome(backend.kv, Collection(backend.created, CellKeyPrefix(rootPath, clusterID), MAX_UINT64), cellCodec.unmarshal, visited, err)
      ensures AscendingIds(visited, CellId)
      ensures StoredUnderOwnKeys(backend.kv, CellKeyPrefix(rootPath, clusterID), MAX_UINT64, cellCodec.unmarshal, CellId, visited)
      ensures err.None? ==> CoversAll(backend.kv, CellKeyPrefix(rootPath, clusterID), MAX_UINT64, CellId, visited)
      ensures NoEntities(backend.kv, CellKeyPrefix(rootPath, clusterID)) ==> visited == [] && err.None?
    {
      visited, err := Scan(CellKeyPrefix(rootPath, clusterID), MAX_UINT64, limit, cellCodec.unmarshal, CellId);
      ScanMeaning(backend.kv, backend.created, CellKeyPrefix(rootPath, clusterID), MAX_UINT64, cellCodec.unmarshal, CellId, visited, err);
    }

    /** Writes the store record under its key, whether or not one was there; nothing else changes. */
    method SetStoreMeta(clusterID: uint64, store: StoreMeta) returns (err: Option<Error>)
      requires Valid()
      modifies backend
      ensures Valid()
      ensures storeCodec.marshal(store).None? ==>
                err == Some(MarshalFailed) && backend.kv == old(backend.kv) && backend.created == old(backend.created)
      ensures storeCodec.marshal(store).Some? ==>
                && err.None?
                && backend.kv == old(backend.kv)[StoreMetaKey(rootPath, clusterID, store.id) := storeCodec.marshal(store).value]
                && backend.created == old(backend.created) + Logged(old(backend.kv), StoreMetaKey(rootPath, clusterID, store.id))
    {
      var key := StoreMetaKey(rootPath, clusterID, store.id);
      var meta := storeCodec.marshal(store);
      if meta.None? {
        return Some(MarshalFailed);
      }
      backend.Put(key, meta.value);
      return None;
    }

    /** Writes the cell record under its key, whether or not one was there; nothing else changes. */
    method SetCellMeta(clusterID: uint64, cell: CellMeta) returns (err: Option<Error>)
      requires Valid()
      modifies backend
      ensures Valid()
      ensures cellCodec.marshal(cell).None? ==>
                err == Some(MarshalFailed) && backend.kv == old(backend.kv) && backend.created == old(backend.created)
      ensures cellCodec.marshal(cell).Some? ==>
                && err.None?
                && backend.kv == old(backend.kv)[CellMetaKey(rootPath, clusterID, cell.id) := cellCodec.marshal(cell).value]
                && backend.created == old(backend.created) + Logged(old(backend.kv), CellMetaKey(rootPath, clusterID, cell.id))
    {
      var key := CellMetaKey(rootPath, clusterID, cell.id);
      var meta := cellCodec.marshal(cell);
      if meta.None? {
        return Some(MarshalFailed);
      }
      backend.Put(key, meta.value);
      return None;
    }
  }
}

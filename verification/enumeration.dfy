/**
 * The paginated enumeration behind LoadStoreMeta and LoadCellMeta
 * (pkg/pdserver/storage/cluster.go): a scan of the entity keys under one
 * prefix, in key order, one page of at most `limit` keys per round, with the
 * cursor moved past the last record visited. This module holds what a scan
 * means and the facts its rounds rely on; the loop itself is
 * `Cluster.ClusterStore.Scan`.
 */
module Enumeration {
  import opened Types
  import opened Lex
  import opened Keys
  import opened Codec
  import opened Kv

  /** The keys a scan of entities under `prefix` ranges over: `[key(0), key(endID))`, in key order. */
  function Collection(created: seq<string>, prefix: string, endID: uint64): seq<string>
  {
    SortedRange(created, EntityKey(prefix, 0), EntityKey(prefix, endID))
  }

  /**
   * The key namespace invariant the enumeration relies on: every key in the
   * scanned range is an entity key, and a record that decodes carries the ID
   * its key was built from (as SetStoreMeta and SetCellMeta write them).
   */
  ghost predicate WellKeyed<T>(kv: map<string, Bytes>, prefix: string, endID: uint64, decode: Bytes -> Option<T>, idOf: T -> uint64)
  {
    forall k :: k in kv && InRange(k, EntityKey(prefix, 0), EntityKey(prefix, endID)) ==>
      && IsEntityKey(prefix, k)
      && (decode(kv[k]).Some? ==> k == EntityKey(prefix, idOf(decode(kv[k]).value)))
  }

  /**
   * The outcome of a scan, stated against the collection's keys in order:
   * the visited records are those of the first keys, and the scan stops with
   * an error exactly at the first record that does not decode.
   */
  ghost predicate ScanOutcome<T>(kv: map<string, Bytes>, keys: seq<string>, decode: Bytes -> Option<T>,
                                 visited: seq<T>, err: Option<Error>)
  {
    && VisitedPrefix(kv, keys, decode, visited)
    && (err.None? ==> |visited| == |keys|)
    && (err.Some? ==> err == Some(DecodeFailed) && |visited| < |keys|
                      && keys[|visited|] in kv && decode(kv[keys[|visited|]]).None?)
  }

  /** The visited records are the decoded values of the first keys, in order. */
  ghost predicate VisitedPrefix<T>(kv: map<string, Bytes>, keys: seq<string>, decode: Bytes -> Option<T>, visited: seq<T>)
  {
    && |visited| <= |keys|
    && (forall i :: 0 <= i < |visited| ==> keys[i] in kv && decode(kv[keys[i]]) == Some(visited[i]))
  }

  lemma VisitedExtend<T>(kv: map<string, Bytes>, keys: seq<string>, decode: Bytes -> Option<T>, visited: seq<T>, v: T)
    requires VisitedPrefix(kv, keys, decode, visited)
    requires |visited| < |keys| && keys[|visited|] in kv && decode(kv[keys[|visited|]]) == Some(v)
    ensures VisitedPrefix(kv, keys, decode, visited + [v])
  {
  }

  /** The collection holds exactly the created keys from the key of ID 0 up to, not including, the key of `endID`. */
  lemma CollectionMembers(created: seq<string>, prefix: string, endID: uint64)
    ensures forall k :: k in Collection(created, prefix, endID) <==>
                          k in created && InRange(k, EntityKey(prefix, 0), EntityKey(prefix, endID))
  {
    SortedRangeMembers(created, EntityKey(prefix, 0), EntityKey(prefix, endID));
  }

  /** The first page starts at the key of ID 0, below which the collection has nothing. */
  lemma CursorAtStart(created: seq<string>, prefix: string, endID: uint64)
    ensures SplitsAt(Collection(created, prefix, endID), 0, EntityKey(prefix, 0))
  {
    var L := Collection(created, prefix, endID);
    CollectionMembers(created, prefix, endID);
    if L != [] {
      assert L[0] in L;
    }
  }

  lemma StartKeyInRange(prefix: string, start: uint64)
    ensures !Less(EntityKey(prefix, start), EntityKey(prefix, 0))
  {
    EntityKeyOrder(prefix, start, 0);
  }

  /** Writing a record under the key of its own ID keeps the namespace invariant. */
  lemma PutKeepsWellKeyed<T>(kv: map<string, Bytes>, prefix: string, endID: uint64,
                             decode: Bytes -> Option<T>, idOf: T -> uint64, x: T, value: Bytes)
    requires WellKeyed(kv, prefix, endID, decode, idOf)
    requires decode(value) == Some(x)
    ensures WellKeyed(kv[EntityKey(prefix, idOf(x)) := value], prefix, endID, decode, idOf)
  {
    EntityKeyId(prefix, idOf(x));
  }

  /** A decoded record of the collection sits at the key of its own ID, which is below `endID`. */
  lemma DecodedRecordKey<T>(kv: map<string, Bytes>, created: seq<string>, prefix: string, endID: uint64,
                            decode: Bytes -> Option<T>, idOf: T -> uint64, i: nat, v: T)
    requires ValidState(KvState(kv, created)) && WellKeyed(kv, prefix, endID, decode, idOf)
    requires i < |Collection(created, prefix, endID)| && Collection(created, prefix, endID)[i] in kv
    requires decode(kv[Collection(created, prefix, endID)[i]]) == Some(v)
    ensures Collection(created, prefix, endID)[i] == EntityKey(prefix, idOf(v)) && idOf(v) < endID
  {
    var k := Collection(created, prefix, endID)[i];
    CollectionMembers(created, prefix, endID);
    assert k in Collection(created, prefix, endID);
    EntityKeyOrder(prefix, idOf(v), endID);
  }

  lemma CollectionEntityKeys<T>(kv: map<string, Bytes>, created: seq<string>, prefix: string, endID: uint64,
                                decode: Bytes -> Option<T>, idOf: T -> uint64)
    requires ValidState(KvState(kv, created)) && WellKeyed(kv, prefix, endID, decode, idOf)
    ensures EntityKeys(Collection(created, prefix, endID), prefix)
  {
    var L := Collection(created, prefix, endID);
    CollectionMembers(created, prefix, endID);
    forall i | 0 <= i < |L| ensures IsEntityKey(prefix, L[i]) {
      assert L[i] in L;
    }
  }

  /** Record IDs strictly increase along the visit order. */
  ghost predicate AscendingIds<T>(visited: seq<T>, idOf: T -> uint64)
  {
    forall i, j :: 0 <= i < j < |visited| ==> idOf(visited[i]) < idOf(visited[j])
  }

  /** Each visited record is the one stored under the key of its own ID, an ID below `endID`. */
  ghost predicate StoredUnderOwnKeys<T>(kv: map<string, Bytes>, prefix: string, endID: uint64, decode: Bytes -> Option<T>,
                                        idOf: T -> uint64, visited: seq<T>)
  {
    forall i :: 0 <= i < |visited| ==>
      && idOf(visited[i]) < endID
      && EntityKey(prefix, idOf(visited[i])) in kv
      && decode(kv[EntityKey(prefix, idOf(visited[i]))]) == Some(visited[i])
  }

  /** Every entity stored under `prefix` with an ID below `endID` is among the visited records. */
  ghost predicate CoversAll<T>(kv: map<string, Bytes>, prefix: string, endID: uint64, idOf: T -> uint64, visited: seq<T>)
  {
    forall id: uint64 :: id < endID && EntityKey(prefix, id) in kv ==>
      exists i :: 0 <= i < |visited| && idOf(visited[i]) == id
  }

  ghost predicate NoEntities(kv: map<string, Bytes>, prefix: string)
  {
    forall id: uint64 :: EntityKey(prefix, id) !in kv
  }

  /** A scan visits records in strictly ascending ID order. */
  lemma ScanAscending<T>(kv: map<string, Bytes>, created: seq<string>, prefix: string, endID: uint64,
                         decode: Bytes -> Option<T>, idOf: T -> uint64, visited: seq<T>, err: Option<Error>)
    requires ValidState(KvState(kv, created)) && WellKeyed(kv, prefix, endID, decode, idOf)
    requires ScanOutcome(kv, Collection(created, prefix, endID), decode, visited, err)
    ensures AscendingIds(visited, idOf)
  {
    var L := Collection(created, prefix, endID);
    forall i, j | 0 <= i < j < |visited| ensures idOf(visited[i]) < idOf(visited[j]) {
      DecodedRecordKey(kv, created, prefix, endID, decode, idOf, i, visited[i]);
      DecodedRecordKey(kv, created, prefix, endID, decode, idOf, j, visited[j]);
      assert Less(L[i], L[j]);
      EntityKeyOrder(prefix, idOf(visited[i]), idOf(visited[j]));
    }
  }

  /** A scan visits only records that are stored under the key of their own ID. */
  lemma ScanStored<T>(kv: map<string, Bytes>, created: seq<string>, prefix: string, endID: uint64,
                      decode: Bytes -> Option<T>, idOf: T -> uint64, visited: seq<T>, err: Option<Error>)
    requires ValidState(KvState(kv, created)) && WellKeyed(kv, prefix, endID, decode, idOf)
    requires ScanOutcome(kv, Collection(created, prefix, endID), decode, visited, err)
    ensures StoredUnderOwnKeys(kv, prefix, endID, decode, idOf, visited)
  {
    forall i | 0 <= i < |visited|
      ensures && idOf(visited[i]) < endID
              && EntityKey(prefix, idOf(visited[i])) in kv
              && decode(kv[EntityKey(prefix, idOf(visited[i]))]) == Some(visited[i])
    {
      DecodedRecordKey(kv, created, prefix, endID, decode, idOf, i, visited[i]);
    }
  }

  /** A scan that ends without error has visited every entity with an ID below `endID`. */
  lemma ScanComplete<T>(kv: map<string, Bytes>, created: seq<string>, prefix: string, endID: uint64,
                        decode: Bytes -> Option<T>, idOf: T -> uint64, visited: seq<T>)
    requires ValidState(KvState(kv, created)) && WellKeyed(kv, prefix, endID, decode, idOf)
    requires ScanOutcome(kv, Collection(created, prefix, endID), decode, visited, None)
    ensures CoversAll(kv, prefix, endID, idOf, visited)
  {
    var L := Collection(created, prefix, endID);
    forall id: uint64 | id < endID && EntityKey(prefix, id) in kv
      ensures exists i :: 0 <= i < |visited| && idOf(visited[i]) == id
    {
      var k := EntityKey(prefix, id);
      CollectionMembers(created, prefix, endID);
      StartKeyInRange(prefix, id);
      EntityKeyOrder(prefix, id, endID);
      assert k in L;
      var i :| 0 <= i < |L| && L[i] == k;
      DecodedRecordKey(kv, created, prefix, endID, decode, idOf, i, visited[i]);
      EntityKeyOrder(prefix, id, idOf(visited[i]));
      EntityKeyOrder(prefix, idOf(visited[i]), id);
    }
  }

  /** A non-empty collection holds the key of some stored entity. */
  lemma NonEmptyCollection<T>(kv: map<string, Bytes>, created: seq<string>, prefix: string, endID: uint64,
                              decode: Bytes -> Option<T>, idOf: T -> uint64)
    requires ValidState(KvState(kv, created)) && WellKeyed(kv, prefix, endID, decode, idOf)
    requires Collection(created, prefix, endID) != []
    ensures exists id: uint64 :: EntityKey(prefix, id) in kv
  {
    var k := Collection(created, prefix, endID)[0];
    CollectionMembers(created, prefix, endID);
    assert k in Collection(created, prefix, endID);
    var id := KeyId(prefix, k);
    assert EntityKey(prefix, id) in kv;
  }

  /** Everything a scan outcome tells the caller. */
  lemma ScanMeaning<T>(kv: map<string, Bytes>, created: seq<string>, prefix: string, endID: uint64,
                       decode: Bytes -> Option<T>, idOf: T -> uint64, visited: seq<T>, err: Option<Error>)
    requires ValidState(KvState(kv, created)) && WellKeyed(kv, prefix, endID, decode, idOf)
    requires ScanOutcome(kv, Collection(created, prefix, endID), decode, visited, err)
    ensures AscendingIds(visited, idOf)
    ensures StoredUnderOwnKeys(kv, prefix, endID, decode, idOf, visited)
    ensures err.None? ==> CoversAll(kv, prefix, endID, idOf, visited)
    ensures NoEntities(kv, prefix) ==> visited == [] && err.None?
  {
    ScanAscending(kv, created, prefix, endID, decode, idOf, visited, err);
    ScanStored(kv, created, prefix, endID, decode, idOf, visited, err);
    if err.None? {
      ScanComplete(kv, created, prefix, endID, decode, idOf, visited);
    }
    if Collection(created, prefix, endID) != [] {
      NonEmptyCollection(kv, created, prefix, endID, decode, idOf);
    }
  }

  /** `page` holds the keys `keys[j..]` in order, as many as it is long, with their values in `kv`. */
  ghost predicate PageAt(kv: map<string, Bytes>, keys: seq<string>, j: nat, page: seq<KeyValue>)
  {
    && j + |page| <= |keys|
    && (forall i :: 0 <= i < |page| ==> page[i].key == keys[j + i] && page[i].key in kv && page[i].value == kv[page[i].key])
  }

  /**
   * What holds between the rounds of a scan: the visited records are those of
   * the collection's first `j` keys, and the cursor key splits the collection there.
   */
  ghost predicate Scanning<T>(kv: map<string, Bytes>, created: seq<string>, prefix: string, endID: uint64,
                              decode: Bytes -> Option<T>, j: nat, startID: uint64, visited: seq<T>)
  {
    && |visited| == j
    && VisitedPrefix(kv, Collection(created, prefix, endID), decode, visited)
    && SplitsAt(Collection(created, prefix, endID), j, EntityKey(prefix, startID))
  }

  /** Before the first round nothing is visited and the cursor is the key of ID 0. */
  lemma ScanStart<T>(kv: map<string, Bytes>, created: seq<string>, prefix: string, endID: uint64,
                     decode: Bytes -> Option<T>, idOf: T -> uint64)
    requires ValidState(KvState(kv, created)) && WellKeyed(kv, prefix, endID, decode, idOf)
    ensures EntityKeys(Collection(created, prefix, endID), prefix)
    ensures Scanning(kv, created, prefix, endID, decode, 0, 0, [])
  {
    CollectionEntityKeys(kv, created, prefix, endID, decode, idOf);
    CursorAtStart(created, prefix, endID);
  }

  /** A round over a non-empty page: its records are visited and the cursor moves past the last of them. */
  lemma RoundAdvances<T>(kv: map<string, Bytes>, created: seq<string>, prefix: string, endID: uint64,
                         decode: Bytes -> Option<T>, j: nat, page: seq<KeyValue>, startID: uint64, visited: seq<T>)
    requires EntityKeys(Collection(created, prefix, endID), prefix)
    requires 0 < |page| && PageAt(kv, Collection(created, prefix, endID), j, page)
    requires |visited| == j + |page| && VisitedPrefix(kv, Collection(created, prefix, endID), decode, visited)
    requires 0 < startID <= endID && Collection(created, prefix, endID)[j + |page| - 1] == EntityKey(prefix, startID - 1)
    ensures Scanning(kv, created, prefix, endID, decode, j + |page|, startID, visited)
  {
    var L := Collection(created, prefix, endID);
    var last := startID - 1;
    CursorAdvance(L, prefix, j + |page|, last);
  }

  /** A round that meets an undecodable record ends the scan with an error at that record. */
  lemma ScanStopped<T>(kv: map<string, Bytes>, keys: seq<string>, decode: Bytes -> Option<T>,
                       j: nat, page: seq<KeyValue>, n: nat, visited: seq<T>)
    requires PageAt(kv, keys, j, page) && n < |page| && decode(page[n].value).None?
    requires |visited| == j + n && VisitedPrefix(kv, keys, decode, visited)
    ensures ScanOutcome(kv, keys, decode, visited, Some(DecodeFailed))
  {
  }

  lemma ScanFinished<T>(kv: map<string, Bytes>, created: seq<string>, prefix: string, endID: uint64,
                        decode: Bytes -> Option<T>, j: nat, startID: uint64, visited: seq<T>)
    requires Scanning(kv, created, prefix, endID, decode, j, startID, visited)
    requires j == |Collection(created, prefix, endID)|
    ensures ScanOutcome(kv, Collection(created, prefix, endID), decode, visited, None)
  {
  }

  /**
   * The page a scan reads at cursor `startID` holds the next keys of the
   * collection, with their values, as many as the limit allows.
   */
  lemma NextPage<T>(kv: map<string, Bytes>, created: seq<string>, prefix: string, endID: uint64,
                    decode: Bytes -> Option<T>, idOf: T -> uint64, j: nat, startID: uint64, visited: seq<T>, limit: nat)
    requires ValidState(KvState(kv, created)) && WellKeyed(kv, prefix, endID, decode, idOf)
    requires Scanning(kv, created, prefix, endID, decode, j, startID, visited)
    ensures var page := RangeRead(KvState(kv, created), EntityKey(prefix, startID), EntityKey(prefix, endID), limit);
            && |page| == Min(limit, |Collection(created, prefix, endID)| - j)
            && PageAt(kv, Collection(created, prefix, endID), j, page)
            && PageWellKeyed(prefix, endID, page, decode, idOf)
  {
    var L := Collection(created, prefix, endID);
    var page := RangeRead(KvState(kv, created), EntityKey(prefix, startID), EntityKey(prefix, endID), limit);
    StartKeyInRange(prefix, startID);
    RangeSuffix(created, EntityKey(prefix, 0), EntityKey(prefix, startID), EntityKey(prefix, endID), j);
    PageOfCollection(kv, created, prefix, endID, decode, idOf, page, j);
  }

  /** The records of a page that decode sit at the keys of their own IDs, IDs below `endID`. */
  ghost predicate PageWellKeyed<T>(prefix: string, endID: uint64, page: seq<KeyValue>, decode: Bytes -> Option<T>, idOf: T -> uint64)
  {
    forall i :: 0 <= i < |page| && decode(page[i].value).Some? ==>
      && page[i].key == EntityKey(prefix, idOf(decode(page[i].value).value))
      && idOf(decode(page[i].value).value) < endID
  }

  /** A page read from the collection inherits the namespace invariant. */
  lemma PageOfCollection<T>(kv: map<string, Bytes>, created: seq<string>, prefix: string, endID: uint64,
                            decode: Bytes -> Option<T>, idOf: T -> uint64, page: seq<KeyValue>, j: nat)
    requires ValidState(KvState(kv, created)) && WellKeyed(kv, prefix, endID, decode, idOf)
    requires PageAt(kv, Collection(created, prefix, endID), j, page)
    ensures PageWellKeyed(prefix, endID, page, decode, idOf)
  {
    forall i | 0 <= i < |page| && decode(page[i].value).Some?
      ensures page[i].key == EntityKey(prefix, idOf(decode(page[i].value).value))
      ensures idOf(decode(page[i].value).value) < endID
    {
      DecodedRecordKey(kv, created, prefix, endID, decode, idOf, j + i, decode(page[i].value).value);
    }
  }

  /**
   * One page of a scan: visits the page's records in order, moving the cursor
   * past each, and stops at the first that does not decode. Returns the new
   * visit list, the new cursor and how many records of the page were visited.
   */
  method VisitPage<T>(ghost kv: map<string, Bytes>, ghost keys: seq<string>, prefix: string, endID: uint64,
                      page: seq<KeyValue>, ghost j: nat, decode: Bytes -> Option<T>, idOf: T -> uint64,
                      visited0: seq<T>, startID0: uint64)
    returns (visited: seq<T>, startID: uint64, n: nat)
    requires PageWellKeyed(prefix, endID, page, decode, idOf)
    requires |visited0| == j && VisitedPrefix(kv, keys, decode, visited0)
    requires PageAt(kv, keys, j, page)
    ensures n <= |page| && |visited| == j + n
    ensures VisitedPrefix(kv, keys, decode, visited)
    ensures n < |page| ==> decode(page[n].value).None?
    ensures n == 0 ==> startID == startID0 && visited == visited0
    ensures n > 0 ==> 0 < startID <= endID && keys[j + n - 1] == EntityKey(prefix, startID - 1)
  {
    visited, startID, n := visited0, startID0, 0;
    while n < |page|
      invariant n <= |page| && |visited| == j + n
      invariant VisitedPrefix(kv, keys, decode, visited)
      invariant n == 0 ==> startID == startID0 && visited == visited0
      invariant n > 0 ==> 0 < startID <= endID && keys[j + n - 1] == EntityKey(prefix, startID - 1)
    {
      var v := decode(page[n].value);
      if v.None? {
        return;
      }
      VisitedExtend(kv, keys, decode, visited, v.value);
      startID := idOf(v.value) + 1;
      visited := visited + [v.value];
      n := n + 1;
    }
  }

  /**
   * What a round reports: a failed round ends the scan with the error; a
   * round that asks for more keeps the scan invariant and makes progress; a
   * round that does not has visited the whole collection.
   */
  ghost predicate RoundOutcome<T>(kv: map<string, Bytes>, created: seq<string>, prefix: string, endID: uint64, limit: nat,
                                  decode: Bytes -> Option<T>, j: nat, visited: seq<T>, startID: uint64,
                                  failed: bool, more: bool, j': nat)
  {
    && (failed ==> ScanOutcome(kv, Collection(created, prefix, endID), decode, visited, Some(DecodeFailed)))
    && (!failed ==> Scanning(kv, created, prefix, endID, decode, j', startID, visited))
    && (!failed && more ==> j < j')
    && (!failed && !more ==> j' == |Collection(created, prefix, endID)|)
  }

  /**
   * The rest of a round once its page is read (`NextPage` says what the page
   * holds): visits the page and decides whether the scan failed, needs
   * another round, or is complete (a page shorter than the limit).
   */
  method VisitRound<T>(ghost kv: map<string, Bytes>, ghost created: seq<string>, prefix: string, endID: uint64, limit: nat,
                       page: seq<KeyValue>, decode: Bytes -> Option<T>, idOf: T -> uint64,
                       ghost j: nat, startID: uint64, visited: seq<T>)
    returns (visited': seq<T>, startID': uint64, failed: bool, more: bool, ghost j': nat)
    requires 0 < limit && EntityKeys(Collection(created, prefix, endID), prefix)
    requires Scanning(kv, created, prefix, endID, decode, j, startID, visited)
    requires |page| == Min(limit, |Collection(created, prefix, endID)| - j)
    requires PageAt(kv, Collection(created, prefix, endID), j, page) && PageWellKeyed(prefix, endID, page, decode, idOf)
    ensures RoundOutcome(kv, created, prefix, endID, limit, decode, j, visited', startID', failed, more, j')
  {
    ghost var L := Collection(created, prefix, endID);
    var n;
    visited', startID', n := VisitPage(kv, L, prefix, endID, page, j, decode, idOf, visited, startID);
    if n < |page| {
      ScanStopped(kv, L, decode, j, page, n, visited');
      return visited', startID', true, false, j;
    }
    if n == 0 {
      // An empty page: the collection has no keys left.
      return visited', startID', false, false, j;
    }
    RoundAdvances(kv, created, prefix, endID, decode, j, page, startID', visited');
    return visited', startID', false, |page| == limit, j + n;
  }
}

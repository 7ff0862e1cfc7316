/**
 * The key schema of the cluster metadata (pkg/pdserver/storage/cluster.go,
 * getClusterMetaKey, getStoreMetaKey, getCellMetaKey):
 *
 *   <root>/<clusterID>                          the cluster record
 *   <root>/<clusterID>/stores/<storeID:020d>    one store record
 *   <root>/<clusterID>/cells/<cellID:020d>      one cell record
 *
 * The root path is a parameter of the model.
 */
module Keys {
  import opened Types
  import opened Lex
  import opened Text

  /** `%020d` of a uint64: exactly twenty digits, since 2^64 - 1 itself has twenty. */
  function Pad20(id: uint64): (r: string)
    ensures |r| == 20
  {
    Pad(id as nat, 20)
  }

  lemma Uint64FitsTwentyDigits()
    ensures MAX_UINT64 as nat < Pow10(20)
  {
    assert Pow10(5) == 100_000 by {
      assert Pow10(1) == 10;
      assert Pow10(3) == 1000;
    }
    Pow10Add(5, 5);
    Pow10Add(10, 10);
  }

  /** `<root>/<clusterID>`: the cluster ID is one path segment after the root. */
  function ClusterMetaKey(root: string, clusterID: uint64): (k: string)
    ensures |k| > |root| + 1 && k[..|root| + 1] == root + "/" && '/' !in k[|root| + 1..]
  {
    var k := root + "/" + Decimal(clusterID as nat);
    assert k[|root| + 1..] == Decimal(clusterID as nat);
    k
  }

  /** The last segment of a cluster key parses back to the cluster ID. */
  lemma ClusterMetaKeyId(root: string, clusterID: uint64)
    ensures ParseUint(ClusterMetaKey(root, clusterID)[|root| + 1..]) == Ok(clusterID)
  {
    assert ClusterMetaKey(root, clusterID)[|root| + 1..] == Decimal(clusterID as nat);
    ParseDecimal(clusterID);
  }

  /**
   * `<root>/<clusterID>/stores/`: nested under the cluster key, and neither
   * it nor the cell prefix of the same cluster starts the other, so no key
   * lies under both.
   */
  function StoreKeyPrefix(root: string, clusterID: uint64): (p: string)
    ensures ClusterMetaKey(root, clusterID) < p
    ensures !(p <= CellKeyPrefix(root, clusterID)) && !(CellKeyPrefix(root, clusterID) <= p)
  {
    var c := ClusterMetaKey(root, clusterID);
    var p := c + "/stores/";
    assert p[|c| + 1] == 's' && CellKeyPrefix(root, clusterID)[|c| + 1] == 'c';
    p
  }

  /** `<root>/<clusterID>/cells/`: nested under the cluster key. */
  function CellKeyPrefix(root: string, clusterID: uint64): (p: string)
    ensures ClusterMetaKey(root, clusterID) < p
  {
    ClusterMetaKey(root, clusterID) + "/cells/"
  }

  /** The key of entity `id` under a kind prefix: the prefix followed by twenty digits. */
  function EntityKey(prefix: string, id: uint64): (k: string)
    ensures prefix <= k && |k| == |prefix| + 20
  {
    prefix + Pad20(id)
  }

  /** The ID an entity key was built from: the twenty characters after the prefix, read as a number. */
  function KeyId(prefix: string, k: string): uint64
  {
    if |k| == |prefix| + 20 then
      match ParseDigits(k[|prefix|..], 0)
      case Ok(v) => v
      case Err(_) => 0
    else 0
  }

  /** `k` is the key of some entity under `prefix`. */
  predicate IsEntityKey(prefix: string, k: string)
  {
    k == EntityKey(prefix, KeyId(prefix, k))
  }

  /** An entity key gives back the ID it was built from. */
  lemma EntityKeyId(prefix: string, id: uint64)
    ensures KeyId(prefix, EntityKey(prefix, id)) == id
    ensures IsEntityKey(prefix, EntityKey(prefix, id))
  {
    var k := EntityKey(prefix, id);
    assert k[|prefix|..] == Pad20(id);
    Uint64FitsTwentyDigits();
    ParsePad(id, 20);
  }

  /** The entity keys under `prefix` are exactly the keys `EntityKey` builds. */
  lemma IsEntityKeyMeans(prefix: string, k: string)
    ensures IsEntityKey(prefix, k) <==> exists id: uint64 :: k == EntityKey(prefix, id)
  {
    if id: uint64 :| k == EntityKey(prefix, id) {
      EntityKeyId(prefix, id);
    }
  }

  /** `<root>/<clusterID>/stores/<storeID:020d>`: twenty characters under the store prefix. */
  function StoreMetaKey(root: string, clusterID: uint64, storeID: uint64): (k: string)
    ensures StoreKeyPrefix(root, clusterID) <= k && |k| == |StoreKeyPrefix(root, clusterID)| + 20
  {
    EntityKey(StoreKeyPrefix(root, clusterID), storeID)
  }

  /** `<root>/<clusterID>/cells/<cellID:020d>`: twenty characters under the cell prefix. */
  function CellMetaKey(root: string, clusterID: uint64, cellID: uint64): (k: string)
    ensures CellKeyPrefix(root, clusterID) <= k && |k| == |CellKeyPrefix(root, clusterID)| + 20
  {
    EntityKey(CellKeyPrefix(root, clusterID), cellID)
  }

  /** The store and cell IDs read back from their keys. */
  lemma MetaKeyIds(root: string, clusterID: uint64, id: uint64)
    ensures KeyId(StoreKeyPrefix(root, clusterID), StoreMetaKey(root, clusterID, id)) == id
    ensures KeyId(CellKeyPrefix(root, clusterID), CellMetaKey(root, clusterID, id)) == id
  {
    EntityKeyId(StoreKeyPrefix(root, clusterID), id);
    EntityKeyId(CellKeyPrefix(root, clusterID), id);
  }

  /**
   * Under one prefix (one cluster and one kind), key order is ID order, in both
   * directions; in particular distinct IDs have distinct keys.
   */
  lemma EntityKeyOrder(prefix: string, a: uint64, b: uint64)
    ensures a < b <==> Less(EntityKey(prefix, a), EntityKey(prefix, b))
  {
    var ka, kb := EntityKey(prefix, a), EntityKey(prefix, b);
    Uint64FitsTwentyDigits();
    if a < b {
      PadOrder(a as nat, b as nat, 20);
      LessCommonPrefix(prefix, Pad20(a), Pad20(b));
    } else if a == b {
      LessIrreflexive(ka);
    } else {
      PadOrder(b as nat, a as nat, 20);
      LessCommonPrefix(prefix, Pad20(b), Pad20(a));
      LessAsymmetric(kb, ka);
    }
  }

  /** No store key is a cell key, whatever the clusters and IDs. */
  lemma StoreCellKeysDisjoint(root: string, c1: uint64, c2: uint64, a: uint64, b: uint64)
    ensures StoreMetaKey(root, c1, a) != CellMetaKey(root, c2, b)
  {
    var d1, d2 := Decimal(c1 as nat), Decimal(c2 as nat);
    var s, t := StoreMetaKey(root, c1, a), CellMetaKey(root, c2, b);
    var n := |root| + 1;
    assert s == root + "/" + d1 + "/stores/" + Pad20(a);
    assert t == root + "/" + d2 + "/cells/" + Pad20(b);
    if |d1| == |d2| {
      assert s[n + |d1| + 1] == 's' && t[n + |d2| + 1] == 'c';
    } else if |d1| < |d2| {
      assert s[n + |d1|] == '/' && t[n + |d1|] == d2[|d1|];
    } else {
      assert t[n + |d2|] == '/' && s[n + |d2|] == d1[|d2|];
    }
  }

  /** The three keys a bootstrap writes are pairwise distinct. */
  lemma BootstrapKeysDistinct(root: string, clusterID: uint64, storeID: uint64, cellID: uint64)
    ensures ClusterMetaKey(root, clusterID) != StoreMetaKey(root, clusterID, storeID)
    ensures ClusterMetaKey(root, clusterID) != CellMetaKey(root, clusterID, cellID)
    ensures StoreMetaKey(root, clusterID, storeID) != CellMetaKey(root, clusterID, cellID)
  {
    StoreCellKeysDisjoint(root, clusterID, clusterID, storeID, cellID);
  }

  // ---- scan cursors ----

  /** Every key of `keys` is the key of some entity under `prefix`. */
  ghost predicate EntityKeys(keys: seq<string>, prefix: string)
  {
    forall i :: 0 <= i < |keys| ==> IsEntityKey(prefix, keys[i])
  }

  lemma KeyAboveCursor(prefix: string, last: uint64, id: uint64)
    requires last < MAX_UINT64 && Less(EntityKey(prefix, last), EntityKey(prefix, id))
    ensures !Less(EntityKey(prefix, id), EntityKey(prefix, last + 1))
  {
    EntityKeyOrder(prefix, last, id);
    EntityKeyOrder(prefix, id, last + 1);
  }

  /** After the record with ID `last` at index `j - 1`, the key of `last + 1` splits the sorted entity keys at `j`. */
  lemma CursorAdvance(keys: seq<string>, prefix: string, j: nat, last: uint64)
    requires StrictlySorted(keys) && EntityKeys(keys, prefix)
    requires 0 < j <= |keys| && keys[j - 1] == EntityKey(prefix, last) && last < MAX_UINT64
    ensures SplitsAt(keys, j, EntityKey(prefix, last + 1))
  {
    EntityKeyOrder(prefix, last, last + 1);
    if j < |keys| {
      assert IsEntityKey(prefix, keys[j]);
      assert Less(keys[j - 1], keys[j]);
      KeyAboveCursor(prefix, last, KeyId(prefix, keys[j]));
    }
  }
}

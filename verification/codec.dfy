/**
 * Value encodings: the 8-byte form of a uint64 held under the cluster-ID key
 * (`util.Uint64ToBytes` / `util.BytesToUint64`), and the record codecs.
 *
 * The protobuf codecs of the three metadata records are not part of this
 * model: a `RecordCodec` is any pair of functions, where marshalling may fail and so
 * may unmarshalling; `RoundTrips` is what the store assumes of them where a
 * property needs it.
 */
module Codec {
  import opened Types

  function Pow256(n: nat): (p: nat)
    ensures p >= 1
  {
    if n == 0 then 1 else 256 * Pow256(n - 1)
  }

  /** The low `n` bytes of `x`, most significant first. */
  function ToBigEndian(x: nat, n: nat): (r: Bytes)
    ensures |r| == n
  {
    if n == 0 then [] else ToBigEndian(x / 256, n - 1) + [(x % 256) as byte]
  }

  function FromBigEndian(b: Bytes): (x: nat)
    ensures x < Pow256(|b|)
  {
    if b == [] then 0 else FromBigEndian(b[..|b| - 1]) * 256 + b[|b| - 1] as nat
  }

  lemma {:induction false} FromToBigEndian(x: nat, n: nat)
    requires x < Pow256(n)
    ensures FromBigEndian(ToBigEndian(x, n)) == x
  {
    if n > 0 {
      FromToBigEndian(x / 256, n - 1);
      var b := ToBigEndian(x, n);
      assert b[..|b| - 1] == ToBigEndian(x / 256, n - 1);
    }
  }

  lemma {:induction false} ToFromBigEndian(b: Bytes)
    ensures ToBigEndian(FromBigEndian(b), |b|) == b
  {
    if b != [] {
      var init := b[..|b| - 1];
      ToFromBigEndian(init);
      var x := FromBigEndian(b);
      assert x / 256 == FromBigEndian(init) && x % 256 == b[|b| - 1] as nat;
      assert init + [b[|b| - 1]] == b;
    }
  }

  lemma Pow256Eight()
    ensures Pow256(8) == MAX_UINT64 as nat + 1
  {
    assert Pow256(2) == 65536;
    assert Pow256(4) == 65536 * 65536;
    assert Pow256(6) == 65536 * 65536 * 65536;
  }

  /** `util.Uint64ToBytes`: eight bytes, big-endian. */
  function Uint64ToBytes(x: uint64): (b: Bytes)
    ensures |b| == 8
  {
    ToBigEndian(x as nat, 8)
  }

  /** `util.BytesToUint64`: any value that is not eight bytes long is an error. */
  function BytesToUint64(b: Bytes): (r: Result<uint64, Error>)
    ensures r.Err? <==> |b| != 8
  {
    if |b| != 8 then Err(InvalidValueLength(|b|))
    else
      Pow256Eight();
      Ok(FromBigEndian(b) as uint64)
  }

  /** Every uint64 survives the 8-byte encoding. */
  lemma Uint64BytesRoundTrip(x: uint64)
    ensures BytesToUint64(Uint64ToBytes(x)) == Ok(x)
  {
    Pow256Eight();
    FromToBigEndian(x as nat, 8);
  }

  /** Every 8-byte value is the encoding of the integer it decodes to. */
  lemma BytesUint64RoundTrip(b: Bytes)
    requires |b| == 8
    ensures BytesToUint64(b).Ok? && Uint64ToBytes(BytesToUint64(b).value) == b
  {
    ToFromBigEndian(b);
  }

  /** A record's `Marshal` and `Unmarshal`, either of which may fail. */
  datatype RecordCodec<!T> = RecordCodec(marshal: T -> Option<Bytes>, unmarshal: Bytes -> Option<T>)

  ghost predicate RoundTrips<T(!new)>(c: RecordCodec<T>)
  {
    forall x, b :: c.marshal(x) == Some(b) ==> c.unmarshal(b) == Some(x)
  }

  /**
   * The metadata records. Only the IDs matter to the store; the other fields
   * of `metapb.Cluster`, `metapb.Store` and `metapb.Cell` are carried as an
   * uninterpreted payload.
   */
  datatype ClusterMeta = ClusterMeta(id: uint64, payload: Bytes)
  datatype StoreMeta = StoreMeta(id: uint64, payload: Bytes)
  datatype CellMeta = CellMeta(id: uint64, payload: Bytes)

  function StoreId(s: StoreMeta): uint64 { s.id }
  function CellId(c: CellMeta): uint64 { c.id }
}

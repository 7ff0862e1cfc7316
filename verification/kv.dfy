/**
 * The coordination service the store sits on, reduced to what the store uses:
 * a map from keys to values, the order in which keys were first created, point
 * reads, range reads in key order with a result limit, a prefix read of the
 * earliest-created key, unconditional puts, and one-round transactions guarded
 * by "this key has never been created" (creation revision zero).
 *
 * The service never fails here; connection, timeout and transport errors are
 * not part of this model. Keys are never deleted by this core, so a key has a
 * non-zero creation revision exactly when it is present.
 */
module Kv {
  import opened Types
  import opened Lex

  datatype KeyValue = KeyValue(key: string, value: Bytes)

  datatype Op = OpPut(key: string, value: Bytes) | OpGet(key: string)

  datatype OpResponse = PutResponse | RangeResponse(kvs: seq<KeyValue>)

  datatype TxnResponse = TxnResponse(succeeded: bool, responses: seq<OpResponse>)

  /** The service's contents, and its keys in the order of their creation. */
  datatype KvState = KvState(kv: map<string, Bytes>, created: seq<string>)

  /** The creation log records exactly the present keys. */
  ghost predicate ValidState(st: KvState)
  {
    forall k :: k in st.kv <==> k in st.created
  }

  /** One operation of a transaction, applied to the state it sees. */
  function Step(st: KvState, op: Op): (r: (KvState, OpResponse))
    ensures ValidState(st) ==> ValidState(r.0)
    ensures st.created <= r.0.created
  {
    match op
    case OpPut(k, v) =>
      (KvState(st.kv[k := v], if k in st.kv then st.created else st.created + [k]), PutResponse)
    case OpGet(k) =>
      (st, RangeResponse(if k in st.kv then [KeyValue(k, st.kv[k])] else []))
  }

  /** The operations of a transaction branch, in order, with one response each. */
  function Exec(st: KvState, ops: seq<Op>): (r: (KvState, seq<OpResponse>))
    ensures ValidState(st) ==> ValidState(r.0)
    ensures st.created <= r.0.created
    ensures |r.1| == |ops|
    decreases |ops|
  {
    if ops == [] then (st, [])
    else
      var first := Step(st, ops[0]);
      var rest := Exec(first.0, ops[1..]);
      (rest.0, [first.1] + rest.1)
  }

  /** What a put of `k` adds to the creation log: `k` itself when it is new. */
  function Logged(kv: map<string, Bytes>, k: string): seq<string>
  {
    if k in kv then [] else [k]
  }

  /**
   * A branch of three puts to distinct keys writes the three values, and logs
   * each key that was not there before, in the order of the puts.
   */
  lemma ExecThreePuts(st: KvState, ops: seq<Op>)
    requires |ops| == 3 && ops[0].OpPut? && ops[1].OpPut? && ops[2].OpPut?
    requires ops[0].key != ops[1].key && ops[0].key != ops[2].key && ops[1].key != ops[2].key
    ensures Exec(st, ops).0.kv == st.kv[ops[0].key := ops[0].value][ops[1].key := ops[1].value][ops[2].key := ops[2].value]
    ensures Exec(st, ops).0.created
            == st.created + Logged(st.kv, ops[0].key) + Logged(st.kv, ops[1].key) + Logged(st.kv, ops[2].key)
  {
    var s1 := Step(st, ops[0]).0;
    var s2 := Step(s1, ops[1]).0;
    assert ops[1..][0] == ops[1] && ops[1..][1..][0] == ops[2] && ops[1..][1..][1..] == [];
    assert Exec(s2, ops[1..][1..]).0 == Step(s2, ops[2]).0;
    assert s1.created == st.created + Logged(st.kv, ops[0].key);
    assert s2.created == s1.created + Logged(st.kv, ops[1].key);
  }

  /** The first key of `keys` that starts with `prefix`. */
  function FirstWithPrefix(keys: seq<string>, prefix: string): (r: Option<string>)
    ensures r.None? <==> forall k :: k in keys ==> !(prefix <= k)
    ensures r.Some? ==> exists i :: 0 <= i < |keys| && keys[i] == r.value && prefix <= r.value
                                    && forall j :: 0 <= j < i ==> !(prefix <= keys[j])
  {
    if keys == [] then None
    else if prefix <= keys[0] then
      assert keys[0] in keys;
      Some(keys[0])
    else
      var r := FirstWithPrefix(keys[1..], prefix);
      assert forall k :: k in keys <==> k == keys[0] || k in keys[1..];
      if r.Some? then
        var i :| 0 <= i < |keys[1..]| && keys[1..][i] == r.value && prefix <= r.value
                 && forall j :: 0 <= j < i ==> !(prefix <= keys[1..][j]);
        assert keys[i + 1] == r.value;
        assert forall j :: 0 <= j < i + 1 ==> !(prefix <= keys[j]) by {
          forall j | 0 <= j < i + 1 ensures !(prefix <= keys[j]) {
            if j > 0 { assert keys[j] == keys[1..][j - 1]; }
          }
        }
        r
      else r
  }

  function Min(a: nat, b: nat): nat
  {
    if a < b then a else b
  }

  /** A range read of `[lo, hi)` on a state: its first `limit` keys in ascending order, with their values. */
  function RangeRead(st: KvState, lo: string, hi: string, limit: nat): (r: seq<KeyValue>)
    requires ValidState(st)
    ensures |r| == Min(limit, |SortedRange(st.created, lo, hi)|)
    ensures forall i :: 0 <= i < |r| ==>
              r[i].key == SortedRange(st.created, lo, hi)[i] && r[i].key in st.kv && r[i].value == st.kv[r[i].key]
  {
    var keys := SortedRange(st.created, lo, hi);
    SortedRangeMembers(st.created, lo, hi);
    var n := Min(limit, |keys|);
    var m := st.kv;
    assert forall i :: 0 <= i < n ==> keys[i] in keys;
    seq(n, i requires 0 <= i < n && keys[i] in m => KeyValue(keys[i], m[keys[i]]))
  }

  class Backend {
    var kv: map<string, Bytes>
    var created: seq<string>

    ghost predicate Valid()
      reads this
    {
      ValidState(KvState(kv, created))
    }

    function State(): KvState
      reads this
    {
      KvState(kv, created)
    }

    constructor ()
      ensures Valid() && kv == map[] && created == []
    {
      kv := map[];
      created := [];
    }

    /** Point read: the value under `key`, or `None` when there is none. */
    function Value(key: string): (r: Option<Bytes>)
      reads this
      ensures r.Some? <==> key in kv
      ensures r.Some? ==> r.value == kv[key]
    {
      if key in kv then Some(kv[key]) else None
    }

    /** Range read of `[lo, hi)`: the first `limit` keys in ascending order, with their values. */
    function Range(lo: string, hi: string, limit: nat): (r: seq<KeyValue>)
      reads this
      requires Valid()
      ensures |r| == Min(limit, |SortedRange(created, lo, hi)|)
      ensures forall i :: 0 <= i < |r| ==>
                r[i].key == SortedRange(created, lo, hi)[i] && r[i].key in kv && r[i].value == kv[r[i].key]
    {
      RangeRead(State(), lo, hi, limit)
    }

    /** Prefix read sorted by creation revision, limited to one: the earliest-created key under `prefix`; no other key under it was created before. */
    function FirstCreated(prefix: string): (r: Option<string>)
      reads this
      requires Valid()
      ensures r.Some? ==> r.value in kv && prefix <= r.value
      ensures r.None? <==> forall k :: k in kv ==> !(prefix <= k)
      ensures r.Some? ==> exists i :: 0 <= i < |created| && created[i] == r.value
                                      && forall j :: 0 <= j < i ==> !(prefix <= created[j])
    {
      FirstWithPrefix(created, prefix)
    }

    /** Unconditional write. */
    method Put(key: string, value: Bytes)
      requires Valid()
      modifies this
      ensures Valid()
      ensures kv == old(kv)[key := value]
      ensures created == old(created) + Logged(old(kv), key)
    {
      var r := Step(State(), OpPut(key, value));
      kv, created := r.0.kv, r.0.created;
    }

    /**
     * One atomic transaction: if `key` has never been created, run `thenOps`,
     * otherwise run `elseOps`; report which branch ran and each operation's response.
     */
    method Txn(key: string, thenOps: seq<Op>, elseOps: seq<Op>) returns (resp: TxnResponse)
      requires Valid()
      modifies this
      ensures Valid()
      ensures resp.succeeded <==> key !in old(kv)
      ensures (State(), resp.responses) == Exec(old(State()), if resp.succeeded then thenOps else elseOps)
    {
      var succeeded := key !in kv;
      var r := Exec(State(), if succeeded then thenOps else elseOps);
      kv, created := r.0.kv, r.0.created;
      resp := TxnResponse(succeeded, r.1);
    }
  }
}

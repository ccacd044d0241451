/** The ledger's data: pool keys (UTXOs), outputs, inputs, transactions, the pool itself,
    and the cryptographic capabilities the handler consumes but does not implement. */
module Ledger {

  newtype byte = x: int | 0 <= x < 256

  type Bytes = seq<byte>

  /** A transaction hash, a public key and a signature are all opaque byte strings. */
  type Hash = Bytes
  type Key = Bytes
  type Sig = Bytes

  /** A possibly absent value; `None` stands for a Java `null` entry. */
  datatype Option<+T> = None | Some(value: T)

  /** A pool key: output number `index` of the transaction whose hash is `txHash`.
      Equality is structural, as for the repository's UTXO class. */
  datatype UTXO = UTXO(txHash: Hash, index: nat)

  /** A coin: an amount (in smallest units) payable to `owner`. */
  datatype Output = Output(value: int, owner: Key)

  /** A claim on the output `outputIndex` of the transaction `prevTxHash`, with its signature. */
  datatype Input = Input(prevTxHash: Hash, outputIndex: nat, sig: Sig) {
    /** The pool key this input spends. */
    function Claim(): UTXO {
      UTXO(prevTxHash, outputIndex)
    }
  }

  datatype Tx = Tx(inputs: seq<Input>, outputs: seq<Output>)

  /** The set of unspent outputs, keyed by their UTXO. */
  type Pool = map<UTXO, Output>

  /** Outcome of a signature check: a verdict, or an exception thrown by the key material. */
  datatype Verdict = Verified(ok: bool) | Threw

  /** The capabilities the handler calls but does not define: the transaction hash,
      the per-input message to sign, and signature verification. */
  datatype Crypto = Crypto(
    hash: Tx -> Hash,
    rawDataToSign: (Tx, nat) -> Bytes,
    verify: (Key, Bytes, Sig) -> Verdict)

  /** The keys claimed by the inputs of `tx`, in input order. */
  function Claims(tx: Tx): seq<UTXO> {
    seq(|tx.inputs|, i requires 0 <= i < |tx.inputs| => tx.inputs[i].Claim())
  }

  function ClaimSet(tx: Tx): set<UTXO> {
    set u | u in Claims(tx)
  }

  /** The keys under which the outputs of `tx` are (or would be) pooled. */
  function OutputKeys(c: Crypto, tx: Tx): set<UTXO> {
    set j | 0 <= j < |tx.outputs| :: UTXO(c.hash(tx), j)
  }

  /** A key is an output key of `tx` exactly when it carries `tx`'s hash and one of its
      output positions. */
  lemma OutputKeysMember(c: Crypto, tx: Tx, u: UTXO)
    ensures u in OutputKeys(c, tx) <==> u.txHash == c.hash(tx) && u.index < |tx.outputs|
  {
    if u.txHash == c.hash(tx) && u.index < |tx.outputs| {
      assert u == UTXO(c.hash(tx), u.index);
    }
  }

  predicate Distinct<T(==)>(s: seq<T>) {
    forall i, j | 0 <= i < j < |s| :: s[i] != s[j]
  }

  predicate NonNegative(outs: seq<Output>) {
    forall j | 0 <= j < |outs| :: outs[j].value >= 0
  }

  predicate AllPooled(claims: seq<UTXO>, pool: Pool) {
    forall i | 0 <= i < |claims| :: claims[i] in pool
  }

  predicate NonNegativePool(pool: Pool) {
    forall u | u in pool :: pool[u].value >= 0
  }

  function OutputSum(outs: seq<Output>): int {
    if outs == [] then 0 else OutputSum(outs[..|outs| - 1]) + outs[|outs| - 1].value
  }

  /** The total value of the pooled outputs that `claims` refer to. */
  function ClaimedValue(pool: Pool, claims: seq<UTXO>): int
    requires AllPooled(claims, pool)
  {
    if claims == [] then 0
    else ClaimedValue(pool, claims[..|claims| - 1]) + pool[claims[|claims| - 1]].value
  }

  /** A prefix of a prefix is a prefix. */
  lemma PrefixOfPrefix<T>(s: seq<T>, n: nat)
    requires n <= |s|
    ensures forall i | 0 <= i <= n :: s[..n][..i] == s[..i]
  {
  }

  /** The total value held in a pool. */
  ghost function PoolValue(pool: Pool): int
    decreases |pool|
  {
    if pool == map[] then 0
    else
      var u :| u in pool;
      pool[u].value + PoolValue(pool - {u})
  }

  /** Taking any one entry out of the pool lowers its value by exactly that entry's value. */
  lemma {:induction false} PoolValueRemove(pool: Pool, u: UTXO)
    requires u in pool
    ensures PoolValue(pool) == pool[u].value + PoolValue(pool - {u})
    decreases |pool|
  {
    var v :| v in pool && PoolValue(pool) == pool[v].value + PoolValue(pool - {v});
    if v != u {
      var rest := pool - {u} - {v};
      assert pool - {v} - {u} == rest;
      assert |pool - {v}| < |pool|;
      PoolValueRemove(pool - {v}, u);
      assert |pool - {u}| < |pool|;
      PoolValueRemove(pool - {u}, v);
    }
  }

  /** Removing keys from a pool of non-negative outputs never increases its value. */
  lemma {:induction false} PoolValueShrinks(pool: Pool, gone: set<UTXO>)
    requires NonNegativePool(pool)
    ensures PoolValue(pool - gone) <= PoolValue(pool)
    decreases |pool|
  {
    if pool != map[] {
      var u :| u in pool;
      PoolValueRemove(pool, u);
      var rest := pool - {u};
      assert |rest| < |pool|;
      PoolValueShrinks(rest, gone);
      if u in gone {
        assert pool - gone == rest - gone;
      } else {
        PoolValueRemove(pool - gone, u);
        assert (pool - gone) - {u} == rest - gone;
      }
    }
  }

  /** Overwriting or adding one entry raises the value of a non-negative pool by at most
      the new entry's value. */
  lemma PoolValueUpdate(pool: Pool, u: UTXO, o: Output)
    requires NonNegativePool(pool)
    ensures PoolValue(pool[u := o]) <= PoolValue(pool) + o.value
  {
    var updated := pool[u := o];
    PoolValueRemove(updated, u);
    assert updated - {u} == pool - {u};
    if u in pool {
      PoolValueRemove(pool, u);
    } else {
      assert pool - {u} == pool;
    }
  }

  /** The value of the claimed outputs leaves the pool with them, when the claims are distinct. */
  lemma {:induction false} PoolValueRemoveClaims(pool: Pool, claims: seq<UTXO>)
    requires AllPooled(claims, pool)
    requires Distinct(claims)
    ensures PoolValue(pool - set u | u in claims) == PoolValue(pool) - ClaimedValue(pool, claims)
    decreases |claims|
  {
    if claims == [] {
      assert (pool - set u | u in claims) == pool;
    } else {
      var n := |claims| - 1;
      var front := claims[..n];
      assert AllPooled(front, pool);
      assert Distinct(front);
      PoolValueRemoveClaims(pool, front);
      var smaller := pool - set u | u in front;
      assert claims[n] in smaller by {
        assert forall i | 0 <= i < n :: front[i] != claims[n];
      }
      PoolValueRemove(smaller, claims[n]);
      assert smaller[claims[n]] == pool[claims[n]];
      assert ClaimedValue(pool, claims) == ClaimedValue(pool, front) + pool[claims[n]].value;
      assert smaller - {claims[n]} == pool - set u | u in claims by {
        assert forall u :: u in claims <==> u in front || u == claims[n];
      }
    }
  }
}

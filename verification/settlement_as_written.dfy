/** The body of `handleTxs` as written.

    Every entry is judged by the body of `isValidTx` against the handler's starting pool,
    which the loop never changes. For a valid transaction each input is checked against the
    batch-wide spent list; an input not yet spent is added to it even when an earlier or later
    input of the same transaction conflicts, so a transaction rejected for a conflict still
    blocks its other claims for the rest of the batch. On a conflict the keys
    (hash, utxoPoolIndex), ..., (hash, utxoPoolIndex + outputs - 1) are marked for removal,
    where utxoPoolIndex is a counter that grows by the number of outputs at every input of
    every valid transaction, so the marked indices are unrelated to the transaction's own
    output positions. For an invalid transaction its pooled output keys are marked. At the
    end the marked keys are removed; accepted transactions neither consume their inputs nor
    add their outputs. */
module SettlementAsWritten {
  import opened Ledger
  import opened Validation
  import Settlement

  /** State of the body's loop: goodTransactions, spentUtxos, badUtxos, utxoPoolIndex. */
  datatype Loop = Loop(accepted: seq<Tx>, spent: set<UTXO>, bad: set<UTXO>, counter: nat)

  /** State of the inner loop over one valid transaction's inputs. */
  datatype Check = Check(spent: set<UTXO>, bad: set<UTXO>, counter: nat, ok: bool)

  /** The keys (h, from), ..., (h, from + n - 1). */
  function CounterKeys(h: Hash, from: nat, n: nat): set<UTXO> {
    set j | from <= j < from + n :: UTXO(h, j)
  }

  /** The inner loop over the claims of a valid transaction with hash `h` and `outputs`
      outputs. It passes exactly when the claims are distinct and none was spent before; every
      claim ends up spent either way; the counter advances by `outputs` per input; and the
      only keys it marks carry the transaction's own hash, and only on a conflict. */
  function CheckInputs(claims: seq<UTXO>, h: Hash, outputs: nat, k: Check): (r: Check)
    ensures r.spent == k.spent + set u | u in claims
    ensures r.ok <==> k.ok && Distinct(claims) && (set u | u in claims) !! k.spent
    ensures r.counter == k.counter + |claims| * outputs
    ensures k.bad <= r.bad
    ensures forall u | u in r.bad && u !in k.bad :: u.txHash == h
    ensures r.ok ==> r.bad == k.bad
    decreases |claims|
  {
    if claims == [] then k
    else
      var u := claims[0];
      var next :=
        if u in k.spent then Check(k.spent, k.bad + CounterKeys(h, k.counter, outputs), k.counter + outputs, false)
        else Check(k.spent + {u}, k.bad, k.counter + outputs, k.ok);
      assert forall v :: v in claims <==> v == u || v in claims[1..];
      DistinctFirst(claims);
      assert (|claims| - 1) * outputs + outputs == |claims| * outputs;
      CheckInputs(claims[1..], h, outputs, next)
  }

  lemma DistinctFirst<T>(s: seq<T>)
    requires s != []
    ensures Distinct(s) <==> s[0] !in s[1..] && Distinct(s[1..])
  {
    if s[0] !in s[1..] && Distinct(s[1..]) {
      forall i, j | 0 <= i < j < |s|
        ensures s[i] != s[j]
      {
        assert s[j] == s[1..][j - 1];
        if i > 0 {
          assert s[i] == s[1..][i - 1];
        }
      }
    }
    if Distinct(s) {
      forall i, j | 0 <= i < j < |s[1..]|
        ensures s[1..][i] != s[1..][j]
      {
        assert s[1..][i] == s[i + 1] && s[1..][j] == s[j + 1];
      }
    }
  }

  /** One batch entry (lines 136-196). */
  function StepAsWritten(c: Crypto, pool: Pool, st: Loop, entry: Option<Tx>): Loop {
    match entry
    case None => st
    case Some(t) =>
      if !IsValidTxAsWritten(c, pool, t) then
        st.(bad := st.bad + set u | u in OutputKeys(c, t) && u in pool)
      else
        var k := CheckInputs(Claims(t), c.hash(t), |t.outputs|, Check(st.spent, st.bad, st.counter, true));
        Loop(if k.ok then st.accepted + [t] else st.accepted, k.spent, k.bad, k.counter)
  }

  function RunAsWritten(c: Crypto, pool: Pool, txs: seq<Option<Tx>>): Loop
    decreases |txs|
  {
    if txs == [] then Loop([], {}, {}, 0)
    else StepAsWritten(c, pool, RunAsWritten(c, pool, txs[..|txs| - 1]), txs[|txs| - 1])
  }

  /** The claims of every non-null entry the body judges valid: what the spent list holds. */
  function Blocked(c: Crypto, pool: Pool, txs: seq<Option<Tx>>): set<UTXO>
    decreases |txs|
  {
    if txs == [] then {}
    else
      var last := txs[|txs| - 1];
      Blocked(c, pool, txs[..|txs| - 1])
        + if last.Some? && IsValidTxAsWritten(c, pool, last.value) then ClaimSet(last.value) else {}
  }

  /** Whether the body accepts entry `i`: judged valid, claims distinct, and none of them
      claimed by any earlier entry judged valid, accepted or not. */
  predicate AdmittedAsWritten(c: Crypto, pool: Pool, txs: seq<Option<Tx>>, i: nat)
    requires i < |txs|
  {
    && txs[i].Some?
    && IsValidTxAsWritten(c, pool, txs[i].value)
    && Distinct(Claims(txs[i].value))
    && ClaimSet(txs[i].value) !! Blocked(c, pool, txs[..i])
  }

  /** The admitted entries, in batch order. */
  function AdmittedInOrder(c: Crypto, pool: Pool, txs: seq<Option<Tx>>): seq<Tx>
    decreases |txs|
  {
    if txs == [] then []
    else
      var n := |txs| - 1;
      AdmittedInOrder(c, pool, txs[..n]) + if AdmittedAsWritten(c, pool, txs, n) then [txs[n].value] else []
  }

  /** Every removal the body marks names the hash of a non-null entry it did not accept;
      every pooled output key of an entry judged invalid is marked. */
  predicate MarksRejected(c: Crypto, pool: Pool, txs: seq<Option<Tx>>, bad: set<UTXO>) {
    && (forall u | u in bad ::
          exists i | 0 <= i < |txs| :: !AdmittedAsWritten(c, pool, txs, i) && txs[i].Some? && u.txHash == c.hash(txs[i].value))
    && (forall i, j | 0 <= i < |txs| && txs[i].Some? && !IsValidTxAsWritten(c, pool, txs[i].value) && 0 <= j < |txs[i].value.outputs| ::
          UTXO(c.hash(txs[i].value), j) in pool ==> UTXO(c.hash(txs[i].value), j) in bad)
  }

  /** The loop's spent list is exactly the blocked set, and it accepts exactly the admitted
      entries, in batch order. */
  lemma {:induction false} RunAsWrittenCharacterized(c: Crypto, pool: Pool, txs: seq<Option<Tx>>)
    ensures RunAsWritten(c, pool, txs).spent == Blocked(c, pool, txs)
    ensures RunAsWritten(c, pool, txs).accepted == AdmittedInOrder(c, pool, txs)
    decreases |txs|
  {
    if txs != [] {
      var n := |txs| - 1;
      RunAsWrittenCharacterized(c, pool, txs[..n]);
    }
  }

  /** The removal marks only ever concern entries the body did not accept. */
  lemma {:induction false} RunAsWrittenMarks(c: Crypto, pool: Pool, txs: seq<Option<Tx>>)
    ensures MarksRejected(c, pool, txs, RunAsWritten(c, pool, txs).bad)
    decreases |txs|
  {
    if txs != [] {
      var n := |txs| - 1;
      var prefix := txs[..n];
      RunAsWrittenMarks(c, pool, prefix);
      RunAsWrittenCharacterized(c, pool, prefix);
      PrefixOfPrefix(txs, n);
      var prev := RunAsWritten(c, pool, prefix);
      var bad := RunAsWritten(c, pool, txs).bad;
      assert forall i | 0 <= i < n :: AdmittedAsWritten(c, pool, prefix, i) == AdmittedAsWritten(c, pool, txs, i);
      forall u | u in bad
        ensures exists i | 0 <= i < |txs| :: !AdmittedAsWritten(c, pool, txs, i) && txs[i].Some? && u.txHash == c.hash(txs[i].value)
      {
        if u in prev.bad {
          var i :| 0 <= i < n && !AdmittedAsWritten(c, pool, prefix, i) && prefix[i].Some? && u.txHash == c.hash(prefix[i].value);
          assert prefix[i] == txs[i];
        } else {
          assert !AdmittedAsWritten(c, pool, txs, n);
        }
      }
    }
  }

  /** What the body returns: the accepted array and the handler's pool afterwards. */
  datatype Handled = Handled(accepted: seq<Tx>, pool: Pool)

  /** `handleTxs` as written. It accepts exactly the admitted entries, in batch order, with
      pairwise disjoint claims; the pool only loses entries and never changes a value; the
      pooled output keys of every entry judged invalid are gone; and every removed key
      carries the hash of a non-null entry that was not accepted. */
  function HandleTxsAsWritten(c: Crypto, pool: Pool, txs: seq<Option<Tx>>): (r: Handled)
    ensures r.accepted == AdmittedInOrder(c, pool, txs)
    ensures Settlement.ClaimsDisjoint(r.accepted)
    ensures forall u | u in r.pool :: u in pool && r.pool[u] == pool[u]
    ensures forall i, j | 0 <= i < |txs| && txs[i].Some? && !IsValidTxAsWritten(c, pool, txs[i].value) && 0 <= j < |txs[i].value.outputs| ::
      UTXO(c.hash(txs[i].value), j) !in r.pool
    ensures forall u | u in pool && u !in r.pool ::
      exists i | 0 <= i < |txs| :: !AdmittedAsWritten(c, pool, txs, i) && txs[i].Some? && u.txHash == c.hash(txs[i].value)
  {
    var st := RunAsWritten(c, pool, txs);
    RunAsWrittenCharacterized(c, pool, txs);
    RunAsWrittenMarks(c, pool, txs);
    AdmittedDisjoint(c, pool, txs);
    Handled(st.accepted, pool - st.bad)
  }

  /** The admitted entries claim pairwise disjoint sets, each inside the blocked set. */
  lemma {:induction false} AdmittedDisjoint(c: Crypto, pool: Pool, txs: seq<Option<Tx>>)
    ensures Settlement.ClaimsDisjoint(AdmittedInOrder(c, pool, txs))
    ensures forall m | 0 <= m < |AdmittedInOrder(c, pool, txs)| :: ClaimSet(AdmittedInOrder(c, pool, txs)[m]) <= Blocked(c, pool, txs)
    decreases |txs|
  {
    if txs != [] {
      var n := |txs| - 1;
      AdmittedDisjoint(c, pool, txs[..n]);
      var prev := AdmittedInOrder(c, pool, txs[..n]);
      var acc := AdmittedInOrder(c, pool, txs);
      if AdmittedAsWritten(c, pool, txs, n) {
        assert acc == prev + [txs[n].value];
        forall a, b | 0 <= a < b < |acc|
          ensures ClaimSet(acc[a]) !! ClaimSet(acc[b])
        {
          if b == |prev| {
            assert ClaimSet(prev[a]) <= Blocked(c, pool, txs[..n]);
          }
        }
      }
    }
  }
}

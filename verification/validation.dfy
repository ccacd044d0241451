/** Validation of one transaction against a pool (`isValidTx`).

    `ValidTx` is the five-rule contract of the method's documentation; `IsValidTx` checks it
    input by input the way the method body is organised. `IsValidTxAsWritten` follows the
    body branch by branch (comparing claimed pool keys where the body compares `Output`
    objects), including the places where it departs from the documented rules:
    - an input whose UTXO is absent makes the body return true at once ("root transaction"),
      skipping every later check;
    - an exception thrown by signature verification is swallowed and the input passes.
    The unused read of the spending transaction's own output at the claimed index is taken to
    have no effect (a read past the end yields null). */
module Validation {
  import opened Ledger

  /** Rule (2) for input `i`: its claimed output is pooled and the signature verifies under
      that output's owner key, over the message to sign for position `i`. */
  predicate Authorized(c: Crypto, pool: Pool, tx: Tx, i: nat)
    requires i < |tx.inputs|
  {
    var u := tx.inputs[i].Claim();
    u in pool && c.verify(pool[u].owner, c.rawDataToSign(tx, i), tx.inputs[i].sig) == Verified(true)
  }

  /** The five documented rules. */
  predicate ValidTx(c: Crypto, pool: Pool, tx: Tx) {
    && AllPooled(Claims(tx), pool)                                     // (1) claimed outputs exist
    && (forall i | 0 <= i < |tx.inputs| :: Authorized(c, pool, tx, i))  // (2) signatures verify
    && Distinct(Claims(tx))                                            // (3) no UTXO claimed twice
    && NonNegative(tx.outputs)                                         // (4) outputs non-negative
    && ClaimedValue(pool, Claims(tx)) >= OutputSum(tx.outputs)         // (5) inputs cover outputs
  }

  /** Checks the documented rules in the order of the method body: the inputs first
      (duplicate, presence, signature), accumulating the input sum, then the outputs. */
  method IsValidTx(c: Crypto, pool: Pool, tx: Tx) returns (ok: bool)
    ensures ok <==> ValidTx(c, pool, tx)
  {
    var claims := Claims(tx);
    var claimed: set<UTXO> := {};
    var inputSum := 0;
    var i := 0;
    while i < |tx.inputs|
      invariant 0 <= i <= |tx.inputs|
      invariant AllPooled(claims[..i], pool)
      invariant forall k | 0 <= k < i :: Authorized(c, pool, tx, k)
      invariant Distinct(claims[..i])
      invariant claimed == set u | u in claims[..i]
      invariant inputSum == ClaimedValue(pool, claims[..i])
    {
      var u := claims[i];
      if u in claimed {
        assert exists k | 0 <= k < i :: claims[k] == u;
        return false;
      }
      if u !in pool {
        return false;
      }
      var output := pool[u];
      if c.verify(output.owner, c.rawDataToSign(tx, i), tx.inputs[i].sig) != Verified(true) {
        assert !Authorized(c, pool, tx, i);
        return false;
      }
      assert claims[..i + 1] == claims[..i] + [u];
      claimed := claimed + {u};
      inputSum := inputSum + output.value;
      i := i + 1;
    }
    assert claims[..i] == claims;
    var outputSum := 0;
    var j := 0;
    while j < |tx.outputs|
      invariant 0 <= j <= |tx.outputs|
      invariant NonNegative(tx.outputs[..j])
      invariant outputSum == OutputSum(tx.outputs[..j])
    {
      if tx.outputs[j].value < 0 {
        return false;
      }
      assert tx.outputs[..j + 1][..j] == tx.outputs[..j];
      outputSum := outputSum + tx.outputs[j].value;
      j := j + 1;
    }
    assert tx.outputs[..j] == tx.outputs;
    ok := inputSum >= outputSum;
  }

  /** Where the body's scan of the inputs ends: an early false, the early "root transaction"
      true, or the end of the inputs with the accumulated input sum. */
  datatype Scan = Rejected | RootAccepted | Scanned(inputSum: int)

  /** The body's input loop from input `i` on; `used` holds the keys already claimed. */
  function ScanAsWritten(c: Crypto, pool: Pool, tx: Tx, i: nat, used: set<UTXO>, sum: int): Scan
    requires i <= |tx.inputs|
    decreases |tx.inputs| - i
  {
    if i == |tx.inputs| then Scanned(sum)
    else
      var input := tx.inputs[i];
      var u := input.Claim();
      if u in used then Rejected
      else if u !in pool then RootAccepted
      else if c.verify(pool[u].owner, c.rawDataToSign(tx, i), input.sig) == Verified(false) then Rejected
      else ScanAsWritten(c, pool, tx, i + 1, used + {u}, sum + pool[u].value)
  }

  /** The body of `isValidTx` as written. */
  predicate IsValidTxAsWritten(c: Crypto, pool: Pool, tx: Tx) {
    match ScanAsWritten(c, pool, tx, 0, {}, 0)
    case Rejected => false
    case RootAccepted => true
    case Scanned(inputSum) => NonNegative(tx.outputs) && inputSum >= OutputSum(tx.outputs)
  }

  /** Rule (2) as the body applies it: only an explicit negative verdict fails. */
  predicate AuthorizedAsWritten(c: Crypto, pool: Pool, tx: Tx, i: nat)
    requires i < |tx.inputs|
  {
    var u := tx.inputs[i].Claim();
    u in pool && c.verify(pool[u].owner, c.rawDataToSign(tx, i), tx.inputs[i].sig) != Verified(false)
  }

  /** No signature check on `tx` throws. */
  predicate VerifierTotal(c: Crypto, pool: Pool, tx: Tx) {
    forall i | 0 <= i < |tx.inputs| ::
      tx.inputs[i].Claim() in pool ==>
        c.verify(pool[tx.inputs[i].Claim()].owner, c.rawDataToSign(tx, i), tx.inputs[i].sig) != Threw
  }

  lemma {:induction false} ScanAsWrittenFrom(c: Crypto, pool: Pool, tx: Tx, i: nat, used: set<UTXO>, sum: int)
    requires i <= |tx.inputs|
    requires AllPooled(Claims(tx), pool)
    requires Distinct(Claims(tx)[..i])
    requires used == set u | u in Claims(tx)[..i]
    requires sum == ClaimedValue(pool, Claims(tx)[..i])
    ensures ScanAsWritten(c, pool, tx, i, used, sum) ==
      if Distinct(Claims(tx)) && forall k | i <= k < |tx.inputs| :: AuthorizedAsWritten(c, pool, tx, k)
      then Scanned(ClaimedValue(pool, Claims(tx)))
      else Rejected
    decreases |tx.inputs| - i
  {
    var claims := Claims(tx);
    if i == |tx.inputs| {
      assert claims[..i] == claims;
    } else {
      var u := claims[i];
      assert u in pool;
      if u in used {
        var k :| 0 <= k < i && claims[k] == u;
        assert !Distinct(claims);
      } else if c.verify(pool[u].owner, c.rawDataToSign(tx, i), tx.inputs[i].sig) == Verified(false) {
        assert !AuthorizedAsWritten(c, pool, tx, i);
      } else {
        PrefixExtend(pool, claims, i);
        ScanAsWrittenFrom(c, pool, tx, i + 1, used + {u}, sum + pool[u].value);
      }
    }
  }

  /** Extending a distinct, pooled prefix of claims by one fresh claim. */
  lemma PrefixExtend(pool: Pool, claims: seq<UTXO>, i: nat)
    requires i < |claims|
    requires AllPooled(claims, pool)
    requires Distinct(claims[..i])
    requires claims[i] !in set u | u in claims[..i]
    ensures Distinct(claims[..i + 1])
    ensures forall v :: v in claims[..i + 1] <==> v in claims[..i] || v == claims[i]
    ensures ClaimedValue(pool, claims[..i + 1]) == ClaimedValue(pool, claims[..i]) + pool[claims[i]].value
  {
    assert claims[..i + 1] == claims[..i] + [claims[i]];
    assert claims[..i + 1][..i] == claims[..i];
  }

  /** When every claim is pooled, the body accepts exactly the transactions meeting the
      documented rules with rule (2) weakened to "no signature check says false". */
  lemma AsWrittenOnPooledClaims(c: Crypto, pool: Pool, tx: Tx)
    requires AllPooled(Claims(tx), pool)
    ensures IsValidTxAsWritten(c, pool, tx) <==>
      && (forall i | 0 <= i < |tx.inputs| :: AuthorizedAsWritten(c, pool, tx, i))
      && Distinct(Claims(tx))
      && NonNegative(tx.outputs)
      && ClaimedValue(pool, Claims(tx)) >= OutputSum(tx.outputs)
  {
    assert Claims(tx)[..0] == [];
    ScanAsWrittenFrom(c, pool, tx, 0, {}, 0);
  }

  /** Under the same conditions and a verifier that never throws, the body and the documented
      contract agree on every transaction. */
  lemma AsWrittenAgreesWithContract(c: Crypto, pool: Pool, tx: Tx)
    requires AllPooled(Claims(tx), pool)
    requires VerifierTotal(c, pool, tx)
    ensures IsValidTxAsWritten(c, pool, tx) <==> ValidTx(c, pool, tx)
  {
    AsWrittenOnPooledClaims(c, pool, tx);
    assert forall i | 0 <= i < |tx.inputs| :: AuthorizedAsWritten(c, pool, tx, i) <==> Authorized(c, pool, tx, i) by {
      forall i | 0 <= i < |tx.inputs|
        ensures AuthorizedAsWritten(c, pool, tx, i) <==> Authorized(c, pool, tx, i)
      {
        assert Claims(tx)[i] in pool;
      }
    }
  }

  /** With every claim pooled, the body's input loop never takes the "root transaction" exit:
      it rejects, or it reaches the end having summed exactly the claimed values. */
  lemma {:induction false} ScanPooled(c: Crypto, pool: Pool, tx: Tx, i: nat, used: set<UTXO>, sum: int)
    requires i <= |tx.inputs|
    requires AllPooled(Claims(tx), pool)
    requires sum == ClaimedValue(pool, Claims(tx)[..i])
    ensures ScanAsWritten(c, pool, tx, i, used, sum).Rejected?
      || ScanAsWritten(c, pool, tx, i, used, sum) == Scanned(ClaimedValue(pool, Claims(tx)))
    decreases |tx.inputs| - i
  {
    var claims := Claims(tx);
    if i == |tx.inputs| {
      assert claims[..i] == claims;
    } else {
      assert claims[i] in pool;
      assert claims[..i + 1] == claims[..i] + [claims[i]];
      assert claims[..i + 1][..i] == claims[..i];
      ScanPooled(c, pool, tx, i + 1, used + {claims[i]}, sum + pool[claims[i]].value);
    }
  }

  /** Rules (4) and (5): a negative output, or outputs worth more than the claimed inputs,
      make a transaction invalid; the body agrees whenever every claim is pooled. */
  lemma OutputRulesEnforced(c: Crypto, pool: Pool, tx: Tx)
    requires (exists j | 0 <= j < |tx.outputs| :: tx.outputs[j].value < 0)
      || (AllPooled(Claims(tx), pool) && ClaimedValue(pool, Claims(tx)) < OutputSum(tx.outputs))
    ensures !ValidTx(c, pool, tx)
    ensures AllPooled(Claims(tx), pool) ==> !IsValidTxAsWritten(c, pool, tx)
  {
    if AllPooled(Claims(tx), pool) {
      assert Claims(tx)[..0] == [];
      ScanPooled(c, pool, tx, 0, {}, 0);
    }
  }

  /** Rule (3): two inputs claiming the same output make a transaction invalid; the body
      agrees whenever every claim is pooled. */
  lemma DoubleClaimInvalid(c: Crypto, pool: Pool, tx: Tx, i: nat, k: nat)
    requires i < k < |tx.inputs|
    requires tx.inputs[i].Claim() == tx.inputs[k].Claim()
    ensures !ValidTx(c, pool, tx)
    ensures AllPooled(Claims(tx), pool) ==> !IsValidTxAsWritten(c, pool, tx)
  {
    assert Claims(tx)[i] == Claims(tx)[k];
    if AllPooled(Claims(tx), pool) {
      AsWrittenOnPooledClaims(c, pool, tx);
    }
  }

  /** Rule (2): a signature that does not verify makes a transaction invalid; the body agrees
      on an explicit negative verdict whenever every claim is pooled. */
  lemma BadSignatureInvalid(c: Crypto, pool: Pool, tx: Tx, i: nat)
    requires i < |tx.inputs|
    requires tx.inputs[i].Claim() in pool
    requires c.verify(pool[tx.inputs[i].Claim()].owner, c.rawDataToSign(tx, i), tx.inputs[i].sig) != Verified(true)
    ensures !ValidTx(c, pool, tx)
    ensures AllPooled(Claims(tx), pool)
      && c.verify(pool[tx.inputs[i].Claim()].owner, c.rawDataToSign(tx, i), tx.inputs[i].sig) == Verified(false)
      ==> !IsValidTxAsWritten(c, pool, tx)
  {
    assert !Authorized(c, pool, tx, i);
    if AllPooled(Claims(tx), pool) {
      AsWrittenOnPooledClaims(c, pool, tx);
      assert c.verify(pool[tx.inputs[i].Claim()].owner, c.rawDataToSign(tx, i), tx.inputs[i].sig) == Verified(false)
        ==> !AuthorizedAsWritten(c, pool, tx, i);
    }
  }

  /** Rule (1) as documented: a claim on an absent output makes the transaction invalid. */
  lemma MissingClaimInvalid(c: Crypto, pool: Pool, tx: Tx, i: nat)
    requires i < |tx.inputs|
    requires tx.inputs[i].Claim() !in pool
    ensures !ValidTx(c, pool, tx)
  {
    assert Claims(tx)[i] !in pool;
  }

  /** The body as written: when the first input's output is absent, the transaction is
      accepted whatever else it contains (negative outputs, outputs worth more than its
      inputs, bad signatures on the other inputs). */
  lemma MissingFirstClaimAcceptedAsWritten(c: Crypto, pool: Pool, tx: Tx)
    requires |tx.inputs| > 0
    requires tx.inputs[0].Claim() !in pool
    ensures IsValidTxAsWritten(c, pool, tx)
    ensures !ValidTx(c, pool, tx)
  {
    MissingClaimInvalid(c, pool, tx, 0);
  }
}

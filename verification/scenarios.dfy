/** Concrete batches: a plain spend, two conflicting spends in both orders, an overspend, a
    claim on a missing output, a wrong signer, and the same spend proposed twice; and, for each
    place where the method bodies depart from their documentation, an input that shows it.

    The capabilities are fixed to a toy instance: a signature verifies exactly when it equals
    the owner's key, the message to sign is ignored, and each named transaction has its own
    hash. */
module Scenarios {
  import opened Ledger
  import opened Validation
  import opened Settlement
  import SettlementAsWritten

  const K1: Key := [1]
  const K2: Key := [2]
  const K3: Key := [3]

  /** The output `txA`:0 worth 10, owned by K1. */
  const U: UTXO := UTXO([0], 0)
  const Pool0: Pool := map[U := Output(10, K1)]

  /** Spends U, signed by K1, paying 4 and 6 to K2. */
  const T: Tx := Tx([Input([0], 0, K1)], [Output(4, K2), Output(6, K2)])
  /** Two spends of U, both signed by K1. */
  const T1: Tx := Tx([Input([0], 0, K1)], [Output(10, K2)])
  const T2: Tx := Tx([Input([0], 0, K1)], [Output(10, K3)])

  /** A second output of `txA`, and a pool holding both. */
  const V: UTXO := UTXO([0], 1)
  const Pool1: Pool := map[U := Output(10, K1), V := Output(10, K1)]

  /** U together with an output of T2 that is already pooled. */
  const Pool2: Pool := map[U := Output(10, K1), UTXO([12], 0) := Output(10, K3)]

  /** P1 spends U; P2 spends V and U; P3 spends V. */
  const P1: Tx := Tx([Input([0], 0, K1)], [Output(5, K2)])
  const P2: Tx := Tx([Input([0], 1, K1), Input([0], 0, K1)], [Output(5, K2), Output(5, K2)])
  const P3: Tx := Tx([Input([0], 1, K1)], [Output(5, K3), Output(5, K3)])

  /** Spends V with a single output, so the claimed index 1 is not one of its own output
      positions. */
  const Tf: Tx := Tx([Input([0], 1, K1)], [Output(10, K2)])

  function ToyHash(t: Tx): Hash {
    if t == T then [5] else if t == T1 then [11] else if t == T2 then [12]
    else if t == P1 then [21] else if t == P2 then [22] else if t == P3 then [23]
    else if t == Tc then [31] else if t == Td then [32] else if t == Te then [33] else if t == Tf then [34]
    else [99]
  }

  function ToyCrypto(): Crypto {
    Crypto(ToyHash, (t: Tx, i: nat) => [], (k: Key, m: Bytes, s: Sig) => Verified(s == k))
  }

  const Tc: Tx := Tx([Input([0], 0, K1)], [Output(12, K2)])
  const Td: Tx := Tx([Input([7], 0, K1)], [Output(5, K2)])
  const Te: Tx := Tx([Input([0], 0, K2)], [Output(5, K2)])

  /** The same capabilities, except that every signature check throws. */
  function ThrowingCrypto(): Crypto {
    Crypto(ToyHash, (t: Tx, i: nat) => [], (k: Key, m: Bytes, s: Sig) => Threw)
  }

  lemma OutputSumOne(a: Output)
    ensures OutputSum([a]) == a.value
  {
    assert [a][..0] == [];
  }

  lemma OutputSumTwo(a: Output, b: Output)
    ensures OutputSum([a, b]) == a.value + b.value
  {
    assert [a, b][..1] == [a];
    OutputSumOne(a);
  }

  /** The documented rules for a transaction with a single input. */
  lemma OneInput(c: Crypto, pool: Pool, t: Tx)
    requires |t.inputs| == 1
    ensures Claims(t) == [t.inputs[0].Claim()]
    ensures ValidTx(c, pool, t) <==>
      && t.inputs[0].Claim() in pool
      && c.verify(pool[t.inputs[0].Claim()].owner, c.rawDataToSign(t, 0), t.inputs[0].sig) == Verified(true)
      && NonNegative(t.outputs)
      && pool[t.inputs[0].Claim()].value >= OutputSum(t.outputs)
  {
    var u := t.inputs[0].Claim();
    assert Claims(t) == [u];
    assert [u][..0] == [];
    assert Distinct([u]);
    assert AllPooled([u], pool) <==> u in pool by {
      assert [u][0] == u;
    }
    assert (forall i | 0 <= i < |t.inputs| :: Authorized(c, pool, t, i)) <==> Authorized(c, pool, t, 0);
    if u in pool {
      assert ClaimedValue(pool, [u]) == pool[u].value;
    }
  }

  lemma RunOne(c: Crypto, pool: Pool, a: Option<Tx>)
    ensures Run(c, pool, [a]) == Step(c, Start(pool), a)
  {
    assert [a][..0] == [];
  }

  lemma RunTwo(c: Crypto, pool: Pool, a: Option<Tx>, b: Option<Tx>)
    ensures Run(c, pool, [a, b]) == Step(c, Step(c, Start(pool), a), b)
  {
    assert [a, b][..1] == [a];
    RunOne(c, pool, a);
  }

  lemma RunThree(c: Crypto, pool: Pool, a: Option<Tx>, b: Option<Tx>, d: Option<Tx>)
    ensures Run(c, pool, [a, b, d]) == Step(c, Step(c, Step(c, Start(pool), a), b), d)
  {
    assert [a, b, d][..2] == [a, b];
    RunTwo(c, pool, a, b);
  }

  /** Scenario A: a correctly signed spend of U into 4 + 6 is accepted; U leaves the pool and
      the two new outputs enter it under T's hash. */
  lemma ScenarioA()
    ensures HandleTxs(ToyCrypto(), Pool0, [Some(T)]) ==
      Handled([T], map[UTXO([5], 0) := Output(4, K2), UTXO([5], 1) := Output(6, K2)])
  {
    RunOne(ToyCrypto(), Pool0, Some(T));
    TAcceptedFirst();
  }

  /** Accepting T on Pool0 spends U and pools T's two outputs. */
  lemma ApplyT()
    ensures Apply(ToyCrypto(), Pool0, T) == map[UTXO([5], 0) := Output(4, K2), UTXO([5], 1) := Output(6, K2)]
  {
    assert Claims(T) == [U];
    assert ClaimSet(T) == {U};
    assert Pool0 - ClaimSet(T) == map[];
  }

  /** T is accepted on Pool0. */
  lemma TAcceptedFirst()
    ensures Step(ToyCrypto(), Start(Pool0), Some(T))
      == Round(map[UTXO([5], 0) := Output(4, K2), UTXO([5], 1) := Output(6, K2)], {U}, [T])
  {
    var c := ToyCrypto();
    OutputSumTwo(Output(4, K2), Output(6, K2));
    OneInput(c, Pool0, T);
    assert ClaimSet(T) == {U};
    assert Admits(c, Start(Pool0), T);
    ApplyT();
  }

  /** A second copy of T, after the first was accepted, is rejected and prunes nothing. */
  lemma TRejectedAfterT()
    ensures var after := map[UTXO([5], 0) := Output(4, K2), UTXO([5], 1) := Output(6, K2)];
      Step(ToyCrypto(), Round(after, {U}, [T]), Some(T)) == Round(after, {U}, [T])
  {
    var c := ToyCrypto();
    var after := map[UTXO([5], 0) := Output(4, K2), UTXO([5], 1) := Output(6, K2)];
    var s1 := Round(after, {U}, [T]);
    MissingClaimInvalid(c, after, T, 0);
    assert Pruned(c, s1, T) == {} by {
      forall u | u in OutputKeys(c, T)
        ensures Minted(c, s1.accepted, u)
      {
        assert s1.accepted[0] == T;
      }
    }
    assert after - {} == after;
  }

  /** Scenario B: two correctly signed spends of U; whichever comes first is accepted and the
      other is rejected, so the outcome depends on batch order. */
  lemma ScenarioB()
    ensures HandleTxs(ToyCrypto(), Pool0, [Some(T1), Some(T2)]).accepted == [T1]
    ensures HandleTxs(ToyCrypto(), Pool0, [Some(T2), Some(T1)]).accepted == [T2]
  {
    var c := ToyCrypto();
    OutputSumOne(Output(10, K2));
    OutputSumOne(Output(10, K3));
    OneInput(c, Pool0, T1);
    OneInput(c, Pool0, T2);
    RunTwo(c, Pool0, Some(T1), Some(T2));
    RunTwo(c, Pool0, Some(T2), Some(T1));
    var first1 := Step(c, Start(Pool0), Some(T1));
    assert U !in first1.pool;
    OneInput(c, first1.pool, T2);
    var first2 := Step(c, Start(Pool0), Some(T2));
    assert U !in first2.pool;
    OneInput(c, first2.pool, T1);
  }

  /** The same spend proposed twice: the first copy is accepted; the second is rejected (U is
      gone) and does not prune the outputs the first copy pooled under the shared hash. */
  lemma DuplicateEntryKeepsOutputs()
    ensures HandleTxs(ToyCrypto(), Pool0, [Some(T), Some(T)]) ==
      Handled([T], map[UTXO([5], 0) := Output(4, K2), UTXO([5], 1) := Output(6, K2)])
  {
    RunTwo(ToyCrypto(), Pool0, Some(T), Some(T));
    TAcceptedFirst();
    TRejectedAfterT();
  }

  /** Scenario C: outputs worth 12 from an input worth 10 are rejected; the pool is unchanged. */
  lemma ScenarioC()
    ensures HandleTxs(ToyCrypto(), Pool0, [Some(Tc)]) == Handled([], Pool0)
  {
    var c := ToyCrypto();
    OutputSumOne(Output(12, K2));
    OneInput(c, Pool0, Tc);
    RunOne(c, Pool0, Some(Tc));
    assert Pool0 - OutputKeys(c, Tc) == Pool0;
  }

  /** Scenario D: a claim on an output absent from the pool is rejected; the pool is unchanged. */
  lemma ScenarioD()
    ensures HandleTxs(ToyCrypto(), Pool0, [Some(Td)]) == Handled([], Pool0)
  {
    var c := ToyCrypto();
    OneInput(c, Pool0, Td);
    RunOne(c, Pool0, Some(Td));
    assert Pool0 - OutputKeys(c, Td) == Pool0;
  }

  /** Scenario E: a spend of U signed with the wrong key is rejected; the pool is unchanged. */
  lemma ScenarioE()
    ensures HandleTxs(ToyCrypto(), Pool0, [Some(Te)]) == Handled([], Pool0)
  {
    var c := ToyCrypto();
    OneInput(c, Pool0, Te);
    RunOne(c, Pool0, Some(Te));
    assert Pool0 - OutputKeys(c, Te) == Pool0;
  }

  /** The body of `isValidTx` on a single-input transaction whose claim is pooled and whose
      signature check does not say false. */
  lemma OneInputAsWritten(c: Crypto, pool: Pool, t: Tx)
    requires |t.inputs| == 1
    requires t.inputs[0].Claim() in pool
    requires c.verify(pool[t.inputs[0].Claim()].owner, c.rawDataToSign(t, 0), t.inputs[0].sig) != Verified(false)
    ensures IsValidTxAsWritten(c, pool, t) <==>
      NonNegative(t.outputs) && pool[t.inputs[0].Claim()].value >= OutputSum(t.outputs)
  {
    var u := t.inputs[0].Claim();
    assert ScanAsWritten(c, pool, t, 1, {} + {u}, 0 + pool[u].value) == Scanned(pool[u].value);
    assert ScanAsWritten(c, pool, t, 0, {}, 0) == Scanned(pool[u].value);
  }

  lemma RunAsWrittenOne(c: Crypto, pool: Pool, a: Option<Tx>)
    ensures SettlementAsWritten.RunAsWritten(c, pool, [a]) ==
      SettlementAsWritten.StepAsWritten(c, pool, SettlementAsWritten.Loop([], {}, {}, 0), a)
  {
    assert [a][..0] == [];
  }

  lemma RunAsWrittenTwo(c: Crypto, pool: Pool, a: Option<Tx>, b: Option<Tx>)
    ensures SettlementAsWritten.RunAsWritten(c, pool, [a, b]) ==
      SettlementAsWritten.StepAsWritten(c, pool, SettlementAsWritten.RunAsWritten(c, pool, [a]), b)
  {
    assert [a, b][..1] == [a];
  }

  lemma RunAsWrittenThree(c: Crypto, pool: Pool, a: Option<Tx>, b: Option<Tx>, d: Option<Tx>)
    ensures SettlementAsWritten.RunAsWritten(c, pool, [a, b, d]) ==
      SettlementAsWritten.StepAsWritten(c, pool, SettlementAsWritten.RunAsWritten(c, pool, [a, b]), d)
  {
    assert [a, b, d][..2] == [a, b];
  }

  /** As written, the spend of Scenario A is accepted but the pool is left as it was: U is
      still unspent and T's outputs are not added. */
  lemma ScenarioAAsWritten()
    ensures SettlementAsWritten.HandleTxsAsWritten(ToyCrypto(), Pool0, [Some(T)]) ==
      SettlementAsWritten.Handled([T], Pool0)
  {
    var c := ToyCrypto();
    OutputSumTwo(Output(4, K2), Output(6, K2));
    OneInputAsWritten(c, Pool0, T);
    assert Claims(T) == [U];
    assert Distinct([U]);
    RunAsWrittenOne(c, Pool0, Some(T));
    assert Pool0 - {} == Pool0;
  }

  /** As written, the claim on an absent output of Scenario D takes the "root transaction"
      exit, and the transaction is accepted. */
  lemma ScenarioDAsWritten()
    ensures SettlementAsWritten.HandleTxsAsWritten(ToyCrypto(), Pool0, [Some(Td)]).accepted == [Td]
  {
    var c := ToyCrypto();
    MissingFirstClaimAcceptedAsWritten(c, Pool0, Td);
    assert Claims(Td) == [UTXO([7], 0)];
    assert Distinct([UTXO([7], 0)]);
    RunAsWrittenOne(c, Pool0, Some(Td));
  }

  /** As written, a signature check that throws lets the input pass, although the documented
      rule (2) requires a successful verification. */
  lemma ThrowingVerifierAcceptedAsWritten()
    ensures IsValidTxAsWritten(ThrowingCrypto(), Pool0, T)
    ensures !ValidTx(ThrowingCrypto(), Pool0, T)
  {
    var c := ThrowingCrypto();
    OutputSumTwo(Output(4, K2), Output(6, K2));
    OneInputAsWritten(c, Pool0, T);
    BadSignatureInvalid(c, Pool0, T, 0);
  }

  /** The unused read of the spending transaction's own output at the claimed index does not
      decide anything: a correctly signed, fully covered spend of V, whose index 1 is not an
      output position of the one-output spending transaction, is valid and the body accepts it. */
  lemma ForeignIndexAcceptedAsWritten()
    ensures ValidTx(ToyCrypto(), Pool1, Tf)
    ensures IsValidTxAsWritten(ToyCrypto(), Pool1, Tf)
  {
    var c := ToyCrypto();
    OutputSumOne(Output(10, K2));
    OneInput(c, Pool1, Tf);
    OneInputAsWritten(c, Pool1, Tf);
  }

  /** As written, P2 passes the body of `isValidTx`: both claims are pooled, both signatures
      verify, and 20 covers 10. */
  lemma P2ValidAsWritten()
    ensures IsValidTxAsWritten(ToyCrypto(), Pool1, P2)
  {
    var c := ToyCrypto();
    OutputSumTwo(Output(5, K2), Output(5, K2));
    assert ScanAsWritten(c, Pool1, P2, 2, {} + {V} + {U}, 0 + 10 + 10) == Scanned(20);
    assert ScanAsWritten(c, Pool1, P2, 1, {} + {V}, 0 + 10) == Scanned(20);
    assert ScanAsWritten(c, Pool1, P2, 0, {}, 0) == Scanned(20);
    assert NonNegative(P2.outputs);
  }

  /** As written, P2 is rejected because U is already spent, but V, which it also claims, is
      added to the spent list anyway, so the valid P3 is rejected too. */
  lemma RejectedClaimsBlockAsWritten()
    ensures SettlementAsWritten.HandleTxsAsWritten(ToyCrypto(), Pool1, [Some(P1), Some(P2), Some(P3)]).accepted == [P1]
  {
    var c := ToyCrypto();
    OutputSumOne(Output(5, K2));
    OutputSumTwo(Output(5, K3), Output(5, K3));
    OneInputAsWritten(c, Pool1, P1);
    OneInputAsWritten(c, Pool1, P3);
    P2ValidAsWritten();
    assert Claims(P1) == [U] && Claims(P3) == [V] && Claims(P2) == [V, U];
    assert Distinct([U]);
    RunAsWrittenOne(c, Pool1, Some(P1));
    RunAsWrittenTwo(c, Pool1, Some(P1), Some(P2));
    RunAsWrittenThree(c, Pool1, Some(P1), Some(P2), Some(P3));
    var w1 := SettlementAsWritten.RunAsWritten(c, Pool1, [Some(P1)]);
    assert w1.accepted == [P1] && w1.spent == {U};
    var w2 := SettlementAsWritten.RunAsWritten(c, Pool1, [Some(P1), Some(P2)]);
    assert w2.accepted == [P1] && V in w2.spent;
  }

  /** Accepting P1 on Pool1 leaves V in place and pools P1's output. */
  lemma ApplyP1()
    ensures Apply(ToyCrypto(), Pool1, P1) == map[V := Output(10, K1), UTXO([21], 0) := Output(5, K2)]
  {
    assert Claims(P1) == [U];
    assert ClaimSet(P1) == {U};
    assert Pool1 - ClaimSet(P1) == map[V := Output(10, K1)];
  }

  /** The documented settlement of the same batch: P2 is rejected without consequence and P3
      is accepted. */
  lemma RejectedClaimsDoNotBlock()
    ensures HandleTxs(ToyCrypto(), Pool1, [Some(P1), Some(P2), Some(P3)]).accepted == [P1, P3]
  {
    var c := ToyCrypto();
    RunThree(c, Pool1, Some(P1), Some(P2), Some(P3));
    P1AcceptedFirst();
    P2RejectedAfterP1();
    P3AcceptedAfterP1();
  }

  /** P1 is accepted first: U is spent and P1's output pooled. */
  lemma P1AcceptedFirst()
    ensures Step(ToyCrypto(), Start(Pool1), Some(P1))
      == Round(map[V := Output(10, K1), UTXO([21], 0) := Output(5, K2)], {U}, [P1])
  {
    var c := ToyCrypto();
    OutputSumOne(Output(5, K2));
    OneInput(c, Pool1, P1);
    assert ClaimSet(P1) == {U};
    assert Admits(c, Start(Pool1), P1);
    ApplyP1();
  }

  /** P2 is then rejected (U is gone) and, having no pooled outputs, changes nothing. */
  lemma P2RejectedAfterP1()
    ensures Step(ToyCrypto(), Round(map[V := Output(10, K1), UTXO([21], 0) := Output(5, K2)], {U}, [P1]), Some(P2))
      == Round(map[V := Output(10, K1), UTXO([21], 0) := Output(5, K2)], {U}, [P1])
  {
    var c := ToyCrypto();
    var pool1 := map[V := Output(10, K1), UTXO([21], 0) := Output(5, K2)];
    MissingClaimInvalid(c, pool1, P2, 1);
    assert OutputKeys(c, P2) == {UTXO([22], 0), UTXO([22], 1)};
    assert pool1 - OutputKeys(c, P2) == pool1;
  }

  /** P3 is then accepted: V is still pooled and unspent. */
  lemma P3AcceptedAfterP1()
    ensures Step(ToyCrypto(), Round(map[V := Output(10, K1), UTXO([21], 0) := Output(5, K2)], {U}, [P1]), Some(P3)).accepted
      == [P1, P3]
  {
    var c := ToyCrypto();
    var pool1 := map[V := Output(10, K1), UTXO([21], 0) := Output(5, K2)];
    OutputSumTwo(Output(5, K3), Output(5, K3));
    OneInput(c, pool1, P3);
    assert ClaimSet(P3) == {V};
    assert Admits(c, Round(pool1, {U}, [P1]), P3);
  }

  /** As written, T2's rejection marks (T2's hash, 1) for removal, the position taken from the
      running counter, so T2's pooled output 0 survives. */
  lemma CounterResidueAsWritten()
    ensures SettlementAsWritten.HandleTxsAsWritten(ToyCrypto(), Pool2, [Some(T1), Some(T2)]) ==
      SettlementAsWritten.Handled([T1], Pool2)
  {
    var c := ToyCrypto();
    OutputSumOne(Output(10, K2));
    OutputSumOne(Output(10, K3));
    OneInputAsWritten(c, Pool2, T1);
    OneInputAsWritten(c, Pool2, T2);
    assert Claims(T1) == [U] && Claims(T2) == [U];
    assert Distinct([U]);
    RunAsWrittenOne(c, Pool2, Some(T1));
    RunAsWrittenTwo(c, Pool2, Some(T1), Some(T2));
    var w1 := SettlementAsWritten.RunAsWritten(c, Pool2, [Some(T1)]);
    assert w1 == SettlementAsWritten.Loop([T1], {U}, {}, 1);
    assert SettlementAsWritten.CounterKeys([12], 1, 1) == {UTXO([12], 1)};
    var k := SettlementAsWritten.Check({U}, {}, 1, true);
    var k' := SettlementAsWritten.Check({U}, {} + SettlementAsWritten.CounterKeys([12], 1, 1), 1 + 1, false);
    assert [U][1..] == [];
    assert SettlementAsWritten.CheckInputs([U], [12], 1, k) == SettlementAsWritten.CheckInputs([], [12], 1, k');
    var w2 := SettlementAsWritten.RunAsWritten(c, Pool2, [Some(T1), Some(T2)]);
    assert w2.bad == {UTXO([12], 1)};
    assert Pool2 - w2.bad == Pool2;
  }

  /** Accepting T1 on Pool2 leaves T2's pooled output in place and pools T1's output. */
  lemma ApplyT1()
    ensures Apply(ToyCrypto(), Pool2, T1) == map[UTXO([12], 0) := Output(10, K3), UTXO([11], 0) := Output(10, K2)]
  {
    assert Claims(T1) == [U];
    assert ClaimSet(T1) == {U};
    assert Pool2 - ClaimSet(T1) == map[UTXO([12], 0) := Output(10, K3)];
  }

  /** The documented settlement of the same batch removes T2's pooled output. */
  lemma CounterResidueRemoved()
    ensures HandleTxs(ToyCrypto(), Pool2, [Some(T1), Some(T2)]) ==
      Handled([T1], map[UTXO([11], 0) := Output(10, K2)])
  {
    var c := ToyCrypto();
    RunTwo(c, Pool2, Some(T1), Some(T2));
    T1AcceptedOnPool2();
    T2PrunedAfterT1();
  }

  /** T1 is accepted first: U is spent and T1's output pooled beside T2's. */
  lemma T1AcceptedOnPool2()
    ensures Step(ToyCrypto(), Start(Pool2), Some(T1))
      == Round(map[UTXO([12], 0) := Output(10, K3), UTXO([11], 0) := Output(10, K2)], {U}, [T1])
  {
    var c := ToyCrypto();
    OutputSumOne(Output(10, K2));
    OneInput(c, Pool2, T1);
    assert ClaimSet(T1) == {U};
    assert Admits(c, Start(Pool2), T1);
    ApplyT1();
  }

  /** T2 is then rejected (U is gone), and its pooled output, which no accepted transaction
      pooled, is pruned. */
  lemma T2PrunedAfterT1()
    ensures Step(ToyCrypto(), Round(map[UTXO([12], 0) := Output(10, K3), UTXO([11], 0) := Output(10, K2)], {U}, [T1]), Some(T2))
      == Round(map[UTXO([11], 0) := Output(10, K2)], {U}, [T1])
  {
    var c := ToyCrypto();
    var pool1 := map[UTXO([12], 0) := Output(10, K3), UTXO([11], 0) := Output(10, K2)];
    var s1 := Round(pool1, {U}, [T1]);
    MissingClaimInvalid(c, pool1, T2, 0);
    assert OutputKeys(c, T2) == {UTXO([12], 0)};
    assert OutputKeys(c, T1) == {UTXO([11], 0)};
    assert !Minted(c, s1.accepted, UTXO([12], 0));
    assert Pruned(c, s1, T2) == {UTXO([12], 0)};
    assert pool1 - {UTXO([12], 0)} == map[UTXO([11], 0) := Output(10, K2)];
  }
}

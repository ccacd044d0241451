# Transaction handler of a UTXO ledger

This project models `TxHandler_Fails`, the transaction handler of a small UTXO ledger
(the ScroogeCoin exercise), and proves properties of the model. The handler holds a pool of
unspent transaction outputs, keyed by (transaction hash, output index). It offers two
operations:

- `isValidTx` decides whether one transaction may spend from the pool. Its documentation
  states five rules:
  1. every claimed output is pooled;
  2. every input's signature verifies under the claimed output's owner key;
  3. no output is claimed twice;
  4. no output value is negative;
  5. the inputs are worth at least the outputs.
- `handleTxs` settles a batch of proposed transactions. It returns the accepted ones, in
  batch order, and updates the pool.

The method bodies depart from their documentation in several places, so both behaviours are
modelled:

- **As documented.** `Validation.ValidTx` states the five rules. `Validation.IsValidTx`
  checks them in the loop order of the body. `Settlement.HandleTxs` settles a batch:
  - each entry is judged against the pool as it stands;
  - the first transaction to claim an output wins;
  - an accepted transaction spends its claims and pools its outputs under (its hash, j);
  - a rejected transaction has its own output keys removed from the pool (the body's
    treatment of invalid transactions), except keys that a transaction accepted earlier in the
    same batch has pooled.
- **As written.**
  - `Validation.IsValidTxAsWritten` follows the body of `isValidTx` branch by branch. An
    absent claimed output makes it return true at once ("root transaction"). An exception
    from signature verification is swallowed. The unused read of the transaction's own
    output at the claimed index (line 55) is taken to have no effect; see "## Left out".
  - `SettlementAsWritten.HandleTxsAsWritten` follows the body of `handleTxs`:
    - every entry is judged against the starting pool;
    - a rejected transaction's unspent claims still enter the spent list;
    - removal keys on a conflict come from a running counter;
    - accepted transactions never change the pool.

Layout:

- `ledger.dfy`: data model (`UTXO`, `Output`, `Input`, `Tx`, `Pool`), the cryptographic
  capabilities as a parameter, sums, and the total value of a pool.
- `validation.dfy`: `isValidTx`, documented and as written.
- `settlement.dfy`: `handleTxs` as documented.
- `settlement_as_written.dfy`: `handleTxs` as written.
- `scenarios.dfy`: concrete batches, and the counterexamples behind the findings.

The capabilities the handler calls but does not define are fields of the `Ledger.Crypto`
parameter, a datatype of total functions:

- the transaction hash;
- the per-input message to sign (`getRawDataToSign`);
- signature verification, which returns `Verified(b)` or `Threw`.

The constructor copies the pool it is given. In the model a pool is a value, so the handler's
pool is simply the `pool` argument of `HandleTxs`, and no caller can observe a change to it.

## Model

| member | source | states |
|---|---|---|
| Validation.ValidTx | CourseraBC/src/TxHandler_Fails.java:21-28 | The five documented rules as one predicate: claimed outputs pooled, signatures verified under the owners' keys, no output claimed twice, outputs non-negative, claimed value at least the output sum. |
| Validation.IsValidTx | CourseraBC/src/TxHandler_Fails.java:21-116 | The input loop (duplicate check, presence, signature, input sum) followed by the output loop returns true exactly when the five documented rules hold. |
| Validation.ScanAsWritten | CourseraBC/src/TxHandler_Fails.java:39-79 | The body's input loop: a key already used rejects (line 46), an absent key accepts at once (line 50), an explicit false verdict rejects (line 63), a thrown verdict passes (lines 65-68); otherwise the claimed value is added and the loop goes on. |
| Validation.IsValidTxAsWritten | CourseraBC/src/TxHandler_Fails.java:30-116 | The body of `isValidTx`: the input loop's outcome, then the output loop's non-negativity check and the comparison of the sums. |
| Validation.AsWrittenOnPooledClaims | CourseraBC/src/TxHandler_Fails.java:39-116 | When every claim is pooled, the body accepts exactly when: no signature check says false, the claims are distinct, the outputs are non-negative, and the claimed value covers them. |
| Validation.AsWrittenAgreesWithContract | CourseraBC/src/TxHandler_Fails.java:21-116 | When every claim is pooled and the verifier never throws, the body and the documented rules agree on every transaction. |
| Validation.ScanAsWrittenFrom | CourseraBC/src/TxHandler_Fails.java:41-79 | From any input onwards, the body's input loop ends with the sum of all claimed values if the claims are distinct and every remaining signature check is not false. Otherwise it rejects. |
| Validation.ScanPooled | CourseraBC/src/TxHandler_Fails.java:44-53 | With every claim pooled, the input loop never takes the root-transaction exit: it rejects, or it sums exactly the claimed values. |
| Validation.OutputRulesEnforced | CourseraBC/src/TxHandler_Fails.java:99-113 | A negative output, or outputs worth more than the claimed inputs, make the transaction invalid. The body agrees whenever every claim is pooled. |
| Validation.DoubleClaimInvalid | CourseraBC/src/TxHandler_Fails.java:39-51 | Two inputs claiming the same output make the transaction invalid. The body agrees whenever every claim is pooled. |
| Validation.BadSignatureInvalid | CourseraBC/src/TxHandler_Fails.java:58-68 | A signature that does not verify makes the transaction invalid. The body agrees only on an explicit negative verdict. |
| Validation.MissingClaimInvalid | CourseraBC/src/TxHandler_Fails.java:23 | A claim on an output absent from the pool makes the transaction invalid under rule (1). |
| Validation.MissingFirstClaimAcceptedAsWritten | CourseraBC/src/TxHandler_Fails.java:50 | As written, when the first input's output is absent, the transaction is accepted although it breaks rule (1). |
| Settlement.Insert | CourseraBC/src/TxHandler_Fails.java:118-122 | Pooling a transaction's outputs adds exactly the keys (hash, j) for its output positions, with those outputs as values, and keeps every other entry. |
| Settlement.Apply | CourseraBC/src/TxHandler_Fails.java:118-122 | The documented pool update for an accepted transaction: its claims are removed and its outputs pooled under (its hash, position). |
| Settlement.Step | CourseraBC/src/TxHandler_Fails.java:136-196 | One batch entry as documented: a null entry is skipped; a transaction valid against the current pool with no claim spent in this batch is accepted and applied; any other is rejected, pruning its own output keys except those pooled by an earlier accepted transaction (lines 141-150). |
| Settlement.Run | CourseraBC/src/TxHandler_Fails.java:136-196 | The documented loop over the batch in order, from the handler's pool. |
| Settlement.AcceptUpdatesPool | CourseraBC/src/TxHandler_Fails.java:118-122 | Accepting a transaction pools each output under (hash, position), removes each claim that is not also one of its output keys, keeps every other entry, and adds nothing else. |
| Settlement.StepKeepsConsistent | CourseraBC/src/TxHandler_Fails.java:136-196 | One batch entry preserves the batch invariant. The invariant says accepted claims are spent, pairwise disjoint and well-formed; every pooled key is traceable; and non-negativity holds. |
| Settlement.AcceptKeepsClaimFacts | CourseraBC/src/TxHandler_Fails.java:152-190 | Accepting an admitted transaction keeps accepted claims spent, pairwise disjoint, distinct within each transaction, and the accepted outputs non-negative. |
| Settlement.AcceptKeepsTraced | CourseraBC/src/TxHandler_Fails.java:118-122 | After an acceptance, every pooled key is still an output of an accepted transaction, or an unchanged, unclaimed entry of the starting pool. |
| Settlement.AcceptKeepsNonNegative | CourseraBC/src/TxHandler_Fails.java:104 | Accepting a transaction keeps a pool of non-negative outputs non-negative. |
| Settlement.PruneKeepsConsistent | CourseraBC/src/TxHandler_Fails.java:141-150 | Removing a rejected transaction's output keys preserves the batch invariant. |
| Settlement.PruneKeepsTraced | CourseraBC/src/TxHandler_Fails.java:141-150 | Removing keys keeps every remaining pooled key traceable. |
| Settlement.RunConsistent | CourseraBC/src/TxHandler_Fails.java:136-196 | The batch invariant holds after every prefix of the batch. |
| Settlement.StepKeepsOutputsPooled | CourseraBC/src/TxHandler_Fails.java:118-122 | One batch entry keeps every live accepted output pooled with its value: an output that no later accepted transaction claims or overwrites. In particular, a rejection never prunes an accepted output. |
| Settlement.RunOutputsPooled | CourseraBC/src/TxHandler_Fails.java:118-122 | Every live accepted output is pooled with its value after every prefix of the batch. |
| Settlement.StepKeepsClaimsGone | CourseraBC/src/TxHandler_Fails.java:118-122 | One batch entry keeps every consumed claim out of the pool: a key claimed by an accepted transaction and pooled again by neither it nor a later accepted one. |
| Settlement.RunClaimsGone | CourseraBC/src/TxHandler_Fails.java:118-122 | Consumed claims are out of the pool after every prefix of the batch, including outputs pooled earlier in the batch and spent later in it. |
| Settlement.RunKeepsUntouched | CourseraBC/src/TxHandler_Fails.java:118-122 | An entry of the starting pool that no accepted transaction claims, and that is no batch entry's output key, survives the batch with its value. |
| Settlement.HandleTxs | CourseraBC/src/TxHandler_Fails.java:118-214 | The accepted transactions are mutually valid: disjoint claims, distinct claims, non-negative outputs. Every pooled key is an accepted output, or an unchanged original entry that no accepted transaction claimed. Conversely, every live accepted output is pooled with its value; every claim of an accepted transaction that neither it nor a later accepted transaction pools again has left the pool; and every original entry the batch does not touch keeps its value. A non-negative pool stays non-negative and never gains value. |
| Settlement.AcceptedPositions | CourseraBC/src/TxHandler_Fails.java:205-213 | The accepted transactions are exactly the batch entries admitted at their turn, listed in increasing batch position. Null entries are never accepted. |
| Settlement.SpentCovers | CourseraBC/src/TxHandler_Fails.java:161-173 | Once a transaction is accepted, its claims stay spent for the rest of the batch. |
| Settlement.FirstSeenWins | CourseraBC/src/TxHandler_Fails.java:161-173 | No transaction sharing a claim with an earlier accepted transaction is accepted. |
| Settlement.RejectedLeavesNoResidue | CourseraBC/src/TxHandler_Fails.java:141-150 | A rejected transaction leaves none of its output keys in the final pool, unless an accepted transaction of the batch pools an output under the same key. |
| Settlement.InsertValue | CourseraBC/src/TxHandler_Fails.java:118-122 | Pooling non-negative outputs raises the pool's value by at most their sum. |
| Settlement.ApplyKeepsValue | CourseraBC/src/TxHandler_Fails.java:113 | Accepting a valid transaction never raises the value of a non-negative pool: the claimed value leaves, and at most that much enters. |
| Settlement.RunKeepsValue | CourseraBC/src/TxHandler_Fails.java:118-122 | A whole batch never raises the value of a non-negative pool. |
| Settlement.RejectionIsIdempotent | CourseraBC/src/TxHandler_Fails.java:141-150 | Dropping a rejected or null entry from the batch changes neither the accepted transactions nor the final pool, given that none of the keys the entry would prune is pooled at its turn. |
| Settlement.SpentIsAcceptedClaims | CourseraBC/src/TxHandler_Fails.java:172-173 | Only accepted transactions' claims enter the spent set: it is exactly the union of their claims, so a rejected transaction's claims never make a later claim conflict. |
| SettlementAsWritten.StepAsWritten | CourseraBC/src/TxHandler_Fails.java:136-196 | One entry of the body's loop: a null entry is skipped; an entry the body judges invalid against the starting pool marks its pooled output keys (lines 141-150); a valid one runs the inner loop over its inputs and is accepted when no conflict was found (lines 152-190). |
| SettlementAsWritten.RunAsWritten | CourseraBC/src/TxHandler_Fails.java:126-196 | The body's loop over the batch, from empty lists and a zero counter. |
| SettlementAsWritten.CheckInputs | CourseraBC/src/TxHandler_Fails.java:153-185 | The inner loop passes exactly when the claims are distinct and none was spent before. Every claim ends up spent either way. The counter grows by the output count per input. Only a conflict marks keys, and only keys with the transaction's own hash. |
| SettlementAsWritten.RunAsWrittenCharacterized | CourseraBC/src/TxHandler_Fails.java:136-196 | The body's spent list is the claims of every entry judged valid. It accepts exactly the entries that are valid, have distinct claims, and share no claim with an earlier valid entry. |
| SettlementAsWritten.RunAsWrittenMarks | CourseraBC/src/TxHandler_Fails.java:141-168 | Every key marked for removal carries the hash of a non-null entry that was not accepted. Every pooled output key of an entry judged invalid is marked. |
| SettlementAsWritten.AdmittedDisjoint | CourseraBC/src/TxHandler_Fails.java:161-190 | The transactions the body accepts have pairwise disjoint claims. |
| SettlementAsWritten.HandleTxsAsWritten | CourseraBC/src/TxHandler_Fails.java:123-214 | As written, the body accepts exactly the admitted entries in batch order, with disjoint claims. The pool only loses entries and never changes a value. Invalid entries' output keys are gone. Every removed key names a non-accepted entry. |
| Scenarios.OneInput | CourseraBC/src/TxHandler_Fails.java:21-28 | For a single-input transaction, the five rules reduce to: the claim is pooled, its signature verifies, the outputs are non-negative, and the claimed value covers them. |
| Scenarios.OneInputAsWritten | CourseraBC/src/TxHandler_Fails.java:41-116 | For a single pooled input whose check is not false, the body accepts exactly when the outputs are non-negative and covered. |
| Scenarios.ScenarioA | CourseraBC/src/TxHandler_Fails.java:118-122 | A correctly signed spend of a 10-unit output into 4 + 6 is accepted. The spent output leaves the pool and the two new outputs enter it. |
| Scenarios.ScenarioB | CourseraBC/src/TxHandler_Fails.java:161-173 | Of two spends of the same output, whichever comes first in the batch is accepted. |
| Scenarios.DuplicateEntryKeepsOutputs | CourseraBC/src/TxHandler_Fails.java:118-122 | The same spend proposed twice: the first copy is accepted, and the rejected second copy does not remove the outputs the first one pooled. |
| Scenarios.ScenarioC | CourseraBC/src/TxHandler_Fails.java:113 | Outputs worth 12 from an input worth 10 are rejected, and the pool is unchanged. |
| Scenarios.ScenarioD | CourseraBC/src/TxHandler_Fails.java:23 | A claim on an absent output is rejected, and the pool is unchanged. |
| Scenarios.ScenarioE | CourseraBC/src/TxHandler_Fails.java:58-63 | A spend signed with the wrong key is rejected, and the pool is unchanged. |
| Scenarios.ScenarioAAsWritten | CourseraBC/src/TxHandler_Fails.java:197-199 | As written, the spend of scenario A is accepted but the pool stays as it was. |
| Scenarios.ScenarioDAsWritten | CourseraBC/src/TxHandler_Fails.java:50 | As written, the transaction of scenario D is accepted. |
| Scenarios.ThrowingVerifierAcceptedAsWritten | CourseraBC/src/TxHandler_Fails.java:61-68 | As written, an input whose signature check throws passes, although rule (2) fails. |
| Scenarios.ForeignIndexAcceptedAsWritten | CourseraBC/src/TxHandler_Fails.java:44-55 | A valid spend of output 1 by a one-output transaction is accepted, as documented and as written: the unused read at line 55 does not decide anything. |
| Scenarios.P2ValidAsWritten | CourseraBC/src/TxHandler_Fails.java:39-116 | A correctly signed two-input transaction spending both pooled outputs passes the body of `isValidTx`. |
| Scenarios.RejectedClaimsBlockAsWritten | CourseraBC/src/TxHandler_Fails.java:172-173 | As written, a transaction rejected for one spent claim blocks a later valid transaction through its other claim. |
| Scenarios.RejectedClaimsDoNotBlock | CourseraBC/src/TxHandler_Fails.java:118-121 | As documented, the same batch accepts the later transaction. |
| Scenarios.CounterResidueAsWritten | CourseraBC/src/TxHandler_Fails.java:165-168 | As written, a rejected transaction's pooled output 0 survives, because the marked index comes from the counter. |
| Scenarios.CounterResidueRemoved | CourseraBC/src/TxHandler_Fails.java:141-150 | As documented, the same batch removes that output. |

## Left out

- Output values are Java `double`s. The model uses unbounded integers, so rounding in the sums at lines 53, 105 and 113 is not modelled.
- The duplicate check at line 46 compares pooled `Output` objects by identity. The model compares the claimed pool keys. These differ only when one `Output` object is pooled under two keys.
- `outputIndex` is a natural number. A negative Java index, which the pool lookup would simply not find, is not modelled.
- Null input or output lists (lines 40 and 86) are not modelled: a transaction always has sequences of inputs and outputs. Null batch entries (line 137) are modelled as `None`.
- Exceptions from hashing and from `getRawDataToSign` are not modelled. These capabilities are total functions; only signature verification can throw.
- The console output at lines 67, 140 and 166 is not modelled.
- The cryptographic primitives are parameters of the model, not implemented.
- The `UTXOPool`, `UTXO`, `Transaction` and `Crypto` classes are not part of this model. They are represented by the value types in `ledger.dfy`.
- The demonstration program (`Main.java`) and `Test.java` are not part of this model.
- The constructor (lines 11-19) is not a separate member: pools are values, so the copy it makes is the `pool` argument itself.
- `Transaction.getOutput` is not part of this model. The read at line 55 is assumed to return null for an index past the spending transaction's outputs, as the usual ScroogeCoin `Transaction` class does; under that assumption it never throws and has no effect. Validation.ScanAsWritten therefore has no branch for it. If that class threw instead, the body would reject every spend whose claimed index is not one of the spending transaction's own output positions.
- The model is single-threaded, like the source.
- Settlement.RejectionIsIdempotent: requires that none of the keys the dropped entry would prune is pooled at its turn. Otherwise its rejection prunes those keys, and dropping it would keep them.
- Settlement.HandleTxs: the documentation does not say in which order a batch is settled, or what happens to a rejected transaction's outputs. The model settles in batch order, first seen wins, and prunes a rejected transaction's own output keys as the body does for invalid ones. It never prunes a key that an accepted transaction of the batch pooled: the body's pool holds no such key. Pruning can still remove an output that a later entry claims, so a rejected entry can invalidate a later spend. Replaying an earlier round's transaction also destroys the coins that transaction created and that are still pooled.

## Findings

| source | as written | input that shows it | evidently intended | confidence | as-written member | corrected member |
|---|---|---|---|---|---|---|
| CourseraBC/src/TxHandler_Fails.java:50 | An input whose output is absent from the pool makes `isValidTx` return true at once, skipping every remaining check. | A batch with one transaction whose only input claims an output that does not exist (scenario D). | Rule (1): the transaction is invalid. | not executed; high | Scenarios.ScenarioDAsWritten | Validation.MissingClaimInvalid |
| CourseraBC/src/TxHandler_Fails.java:65-68 | An exception from signature verification is caught and printed, and the input passes. | A verifier that throws on every call, with scenario A's transaction. | Rule (2): an input whose signature is not verified fails. | not executed; high | Scenarios.ThrowingVerifierAcceptedAsWritten | Validation.BadSignatureInvalid |
| CourseraBC/src/TxHandler_Fails.java:172-173 | A transaction rejected for one spent claim still adds its other claims to the spent list. | Pool {U, V}; batch [spend U; spend V and U; spend V]. | Only accepted transactions consume their claims, so the third entry is accepted. | not executed; high | Scenarios.RejectedClaimsBlockAsWritten | Settlement.SpentIsAcceptedClaims |
| CourseraBC/src/TxHandler_Fails.java:165-168 | On a conflict the keys marked for removal are (hash, counter), and the counter counts outputs across all valid transactions seen so far. | Pool holding U and output 0 of T2; batch [T1, T2], both spending U. | The rejected transaction's own output keys (hash, 0), (hash, 1), ... are removed. | not executed; medium | Scenarios.CounterResidueAsWritten | Settlement.RejectedLeavesNoResidue |
| CourseraBC/src/TxHandler_Fails.java:197-199 | After the loop only the marked keys are removed. Accepted transactions neither spend their inputs nor pool their outputs. | Scenario A: one valid spend. | The pool is updated as documented at lines 118-122: claims leave it and outputs enter it. | not executed; high | Scenarios.ScenarioAAsWritten | Settlement.AcceptUpdatesPool |

/** Settlement of one batch (`handleTxs`) as its documentation describes it. The result is
    the batch's accepted transactions, none of which conflicts with another, together with
    the pool those transactions leave behind.

    Entries are processed in batch order. A null entry is skipped. A transaction is accepted
    when it is valid against the pool as updated by the transactions accepted before it, and
    when none of its claims was already spent in this batch (first seen wins). Acceptance
    removes the claimed outputs from the pool and pools the transaction's outputs under
    (hash, position). Rejection is whole: the transaction's own output keys are pruned from
    the pool (as the method body does for invalid transactions), except those that a
    transaction accepted earlier in the batch has pooled, and nothing else changes.

    The body as written departs from this in three ways, modelled in `SettlementAsWritten`:
    validity is judged against the unchanged starting pool, accepted transactions never
    update the pool, and a rejected transaction's earlier claims stay in the spent set. */
module Settlement {
  import opened Ledger
  import opened Validation

  /** Pools `outs` under the keys (h, 0), (h, 1), ..., overwriting entries already there. */
  function Insert(pool: Pool, h: Hash, outs: seq<Output>): (r: Pool)
    ensures forall u :: u in r <==> u in pool || (u.txHash == h && u.index < |outs|)
    ensures forall j | 0 <= j < |outs| :: r[UTXO(h, j)] == outs[j]
    ensures forall u | u in pool && !(u.txHash == h && u.index < |outs|) :: r[u] == pool[u]
    decreases |outs|
  {
    if outs == [] then pool
    else Insert(pool, h, outs[..|outs| - 1])[UTXO(h, |outs| - 1) := outs[|outs| - 1]]
  }

  /** The pool after accepting `t`: its claims spent, its outputs pooled. */
  function Apply(c: Crypto, pool: Pool, t: Tx): Pool {
    Insert(pool - ClaimSet(t), c.hash(t), t.outputs)
  }

  /** The handler's state part-way through a batch. */
  datatype Round = Round(pool: Pool, spent: set<UTXO>, accepted: seq<Tx>)

  function Start(pool: Pool): Round {
    Round(pool, {}, [])
  }

  /** Whether `t` is accepted in state `st`. */
  predicate Admits(c: Crypto, st: Round, t: Tx) {
    ValidTx(c, st.pool, t) && ClaimSet(t) !! st.spent
  }

  /** Whether some transaction of `accepted` pools an output under `u`. */
  predicate Minted(c: Crypto, accepted: seq<Tx>, u: UTXO) {
    exists m | 0 <= m < |accepted| :: u in OutputKeys(c, accepted[m])
  }

  /** The keys a rejected `t` prunes: its own output keys, except those pooled by a
      transaction already accepted in this batch. */
  function Pruned(c: Crypto, st: Round, t: Tx): set<UTXO> {
    set u | u in OutputKeys(c, t) && !Minted(c, st.accepted, u)
  }

  /** One batch entry. */
  function Step(c: Crypto, st: Round, entry: Option<Tx>): Round {
    match entry
    case None => st
    case Some(t) =>
      if Admits(c, st, t) then Round(Apply(c, st.pool, t), st.spent + ClaimSet(t), st.accepted + [t])
      else st.(pool := st.pool - Pruned(c, st, t))
  }

  predicate ClaimsDisjoint(accepted: seq<Tx>) {
    forall a, b | 0 <= a < b < |accepted| :: ClaimSet(accepted[a]) !! ClaimSet(accepted[b])
  }

  predicate WellFormed(accepted: seq<Tx>) {
    forall m | 0 <= m < |accepted| :: Distinct(Claims(accepted[m])) && NonNegative(accepted[m].outputs)
  }

  /** Every pooled key is an output of an accepted transaction, or an untouched entry of the
      starting pool that no accepted transaction claimed. */
  predicate Traced(c: Crypto, start: Pool, st: Round) {
    forall u | u in st.pool ::
      || (exists m | 0 <= m < |st.accepted| :: u in OutputKeys(c, st.accepted[m]))
      || (u in start && st.pool[u] == start[u] && forall m | 0 <= m < |st.accepted| :: u !in ClaimSet(st.accepted[m]))
  }

  /** What holds of the state at every point of a batch started from `start`. */
  predicate Consistent(c: Crypto, start: Pool, st: Round) {
    && (forall m | 0 <= m < |st.accepted| :: ClaimSet(st.accepted[m]) <= st.spent)
    && ClaimsDisjoint(st.accepted)
    && WellFormed(st.accepted)
    && Traced(c, start, st)
    && (NonNegativePool(start) ==> NonNegativePool(st.pool))
  }

  lemma StepKeepsConsistent(c: Crypto, start: Pool, st: Round, entry: Option<Tx>)
    requires Consistent(c, start, st)
    ensures Consistent(c, start, Step(c, st, entry))
  {
    if entry.Some? {
      if Admits(c, st, entry.value) {
        var t := entry.value;
        assert Step(c, st, entry).accepted == st.accepted + [t];
        assert Step(c, st, entry).spent == st.spent + ClaimSet(t);
        AcceptKeepsClaimFacts(st.accepted, st.spent, t);
        AcceptKeepsTraced(c, start, st, entry.value);
        AcceptKeepsNonNegative(c, start, st, entry.value);
      } else {
        PruneKeepsConsistent(c, start, st, Pruned(c, st, entry.value));
      }
    }
  }

  /** Appending a transaction with distinct claims, none of them spent, and non-negative
      outputs keeps the accepted claims spent, pairwise disjoint and well-formed. */
  lemma AcceptKeepsClaimFacts(accepted: seq<Tx>, spent: set<UTXO>, t: Tx)
    requires forall m | 0 <= m < |accepted| :: ClaimSet(accepted[m]) <= spent
    requires ClaimsDisjoint(accepted) && WellFormed(accepted)
    requires ClaimSet(t) !! spent && Distinct(Claims(t)) && NonNegative(t.outputs)
    ensures var next := accepted + [t];
      && (forall m | 0 <= m < |next| :: ClaimSet(next[m]) <= spent + ClaimSet(t))
      && ClaimsDisjoint(next)
      && WellFormed(next)
  {
    var next := accepted + [t];
    forall a, b | 0 <= a < b < |next|
      ensures ClaimSet(next[a]) !! ClaimSet(next[b])
    {
      if b == |accepted| {
        assert ClaimSet(accepted[a]) <= spent;
      }
    }
  }

  lemma AcceptKeepsTraced(c: Crypto, start: Pool, st: Round, t: Tx)
    requires Traced(c, start, st)
    requires Admits(c, st, t)
    ensures Traced(c, start, Step(c, st, Some(t)))
  {
    var next := Step(c, st, Some(t));
    var n := |st.accepted|;
    assert next.accepted == st.accepted + [t];
    var h := c.hash(t);
    forall u | u in next.pool
      ensures || (exists m | 0 <= m < |next.accepted| :: u in OutputKeys(c, next.accepted[m]))
              || (u in start && next.pool[u] == start[u] && forall m | 0 <= m < |next.accepted| :: u !in ClaimSet(next.accepted[m]))
    {
      if u.txHash == h && u.index < |t.outputs| {
        assert u in OutputKeys(c, next.accepted[n]);
      } else {
        assert u in st.pool && u !in ClaimSet(t);
        assert next.pool[u] == st.pool[u];
        if exists m | 0 <= m < n :: u in OutputKeys(c, st.accepted[m]) {
          var m :| 0 <= m < n && u in OutputKeys(c, st.accepted[m]);
          assert next.accepted[m] == st.accepted[m];
        } else {
          assert forall m | 0 <= m < |next.accepted| :: u !in ClaimSet(next.accepted[m]) by {
            forall m | 0 <= m < |next.accepted|
              ensures u !in ClaimSet(next.accepted[m])
            {
              if m < n {
                assert next.accepted[m] == st.accepted[m];
              }
            }
          }
        }
      }
    }
  }

  lemma AcceptKeepsNonNegative(c: Crypto, start: Pool, st: Round, t: Tx)
    requires NonNegativePool(start) ==> NonNegativePool(st.pool)
    requires Admits(c, st, t)
    ensures NonNegativePool(start) ==> NonNegativePool(Step(c, st, Some(t)).pool)
  {
    var next := Step(c, st, Some(t));
    if NonNegativePool(start) {
      forall u | u in next.pool
        ensures next.pool[u].value >= 0
      {
        if u.txHash == c.hash(t) && u.index < |t.outputs| {
          assert next.pool[u] == t.outputs[u.index];
        }
      }
    }
  }

  /** Pruning keys from the pool keeps every invariant. */
  lemma PruneKeepsConsistent(c: Crypto, start: Pool, st: Round, gone: set<UTXO>)
    requires Consistent(c, start, st)
    ensures Consistent(c, start, st.(pool := st.pool - gone))
  {
    PruneKeepsTraced(c, start, st, gone);
  }

  lemma PruneKeepsTraced(c: Crypto, start: Pool, st: Round, gone: set<UTXO>)
    requires Traced(c, start, st)
    ensures Traced(c, start, st.(pool := st.pool - gone))
  {
    var next := st.(pool := st.pool - gone);
    forall u | u in next.pool
      ensures || (exists m | 0 <= m < |next.accepted| :: u in OutputKeys(c, next.accepted[m]))
              || (u in start && next.pool[u] == start[u] && forall m | 0 <= m < |next.accepted| :: u !in ClaimSet(next.accepted[m]))
    {
      assert u in st.pool;
    }
  }

  /** Accepting `t` updates the pool as the documentation asks: each output of `t` is pooled
      under (hash of `t`, its position), each claim of `t` leaves the pool (unless `t` pools an
      output under the same key), every other entry is kept, and nothing else enters. */
  lemma AcceptUpdatesPool(c: Crypto, st: Round, t: Tx)
    requires Admits(c, st, t)
    ensures var next := Step(c, st, Some(t)).pool;
      && (forall j | 0 <= j < |t.outputs| :: UTXO(c.hash(t), j) in next && next[UTXO(c.hash(t), j)] == t.outputs[j])
      && (forall u | u in ClaimSet(t) && u !in OutputKeys(c, t) :: u !in next)
      && (forall u | u in st.pool && u !in ClaimSet(t) && u !in OutputKeys(c, t) :: u in next && next[u] == st.pool[u])
      && (forall u | u in next :: u in st.pool || u in OutputKeys(c, t))
  {
    forall u: UTXO {
      OutputKeysMember(c, t, u);
    }
  }

  /** No transaction accepted after the `m`-th one claims `u` or pools an output under it. */
  predicate Live(c: Crypto, accepted: seq<Tx>, m: nat, u: UTXO)
    requires m < |accepted|
  {
    forall k | m < k < |accepted| :: u !in ClaimSet(accepted[k]) && u !in OutputKeys(c, accepted[k])
  }

  /** Every output of an accepted transaction that is still live is pooled under
      (hash, position) with its own value. */
  predicate OutputsPooled(c: Crypto, accepted: seq<Tx>, pool: Pool) {
    forall m, j | 0 <= m < |accepted| && 0 <= j < |accepted[m].outputs| ::
      Live(c, accepted, m, UTXO(c.hash(accepted[m]), j)) ==>
        UTXO(c.hash(accepted[m]), j) in pool && pool[UTXO(c.hash(accepted[m]), j)] == accepted[m].outputs[j]
  }

  lemma StepKeepsOutputsPooled(c: Crypto, st: Round, entry: Option<Tx>)
    requires OutputsPooled(c, st.accepted, st.pool)
    ensures OutputsPooled(c, Step(c, st, entry).accepted, Step(c, st, entry).pool)
  {
    if entry.Some? {
      var t := entry.value;
      var next := Step(c, st, entry);
      var n := |st.accepted|;
      if Admits(c, st, t) {
        assert next.accepted == st.accepted + [t];
        forall m, j | 0 <= m < |next.accepted| && 0 <= j < |next.accepted[m].outputs|
            && Live(c, next.accepted, m, UTXO(c.hash(next.accepted[m]), j))
          ensures UTXO(c.hash(next.accepted[m]), j) in next.pool
          ensures next.pool[UTXO(c.hash(next.accepted[m]), j)] == next.accepted[m].outputs[j]
        {
          var u := UTXO(c.hash(next.accepted[m]), j);
          if m < n {
            assert next.accepted[m] == st.accepted[m];
            assert Live(c, st.accepted, m, u) by {
              forall k | m < k < n
                ensures u !in ClaimSet(st.accepted[k]) && u !in OutputKeys(c, st.accepted[k])
              {
                assert next.accepted[k] == st.accepted[k];
              }
            }
            assert next.accepted[n] == t;
            assert u !in ClaimSet(t) && u !in OutputKeys(c, t);
            OutputKeysMember(c, t, u);
            assert u in st.pool - ClaimSet(t);
          }
        }
      } else {
        forall m, j | 0 <= m < |next.accepted| && 0 <= j < |next.accepted[m].outputs|
          ensures UTXO(c.hash(next.accepted[m]), j) !in Pruned(c, st, t)
        {
          OutputKeysMember(c, st.accepted[m], UTXO(c.hash(st.accepted[m]), j));
          assert Minted(c, st.accepted, UTXO(c.hash(st.accepted[m]), j));
        }
      }
    }
  }

  /** The batch `txs`, in order, from the handler's pool. */
  function Run(c: Crypto, pool: Pool, txs: seq<Option<Tx>>): Round
    decreases |txs|
  {
    if txs == [] then Start(pool) else Step(c, Run(c, pool, txs[..|txs| - 1]), txs[|txs| - 1])
  }

  /** The invariants hold after every prefix of the batch. */
  lemma {:induction false} RunConsistent(c: Crypto, pool: Pool, txs: seq<Option<Tx>>)
    ensures Consistent(c, pool, Run(c, pool, txs))
    decreases |txs|
  {
    if txs != [] {
      RunConsistent(c, pool, txs[..|txs| - 1]);
      StepKeepsConsistent(c, pool, Run(c, pool, txs[..|txs| - 1]), txs[|txs| - 1]);
    }
  }

  /** Live accepted outputs are pooled after every prefix of the batch. */
  lemma {:induction false} RunOutputsPooled(c: Crypto, pool: Pool, txs: seq<Option<Tx>>)
    ensures OutputsPooled(c, Run(c, pool, txs).accepted, Run(c, pool, txs).pool)
    decreases |txs|
  {
    if txs != [] {
      RunOutputsPooled(c, pool, txs[..|txs| - 1]);
      StepKeepsOutputsPooled(c, Run(c, pool, txs[..|txs| - 1]), txs[|txs| - 1]);
    }
  }

  /** `u` is claimed by no accepted transaction and is an output key of no batch entry. */
  predicate Untouched(c: Crypto, txs: seq<Option<Tx>>, accepted: seq<Tx>, u: UTXO) {
    && (forall m | 0 <= m < |accepted| :: u !in ClaimSet(accepted[m]))
    && (forall i | 0 <= i < |txs| && txs[i].Some? :: u !in OutputKeys(c, txs[i].value))
  }

  /** An entry of the starting pool that the batch does not touch keeps its value. */
  lemma {:induction false} RunKeepsUntouched(c: Crypto, pool: Pool, txs: seq<Option<Tx>>, u: UTXO)
    requires u in pool
    requires Untouched(c, txs, Run(c, pool, txs).accepted, u)
    ensures u in Run(c, pool, txs).pool && Run(c, pool, txs).pool[u] == pool[u]
    decreases |txs|
  {
    if txs != [] {
      var n := |txs| - 1;
      var prev := Run(c, pool, txs[..n]);
      var next := Run(c, pool, txs);
      assert next == Step(c, prev, txs[n]);
      assert next.accepted[..|prev.accepted|] == prev.accepted;
      assert Untouched(c, txs[..n], prev.accepted, u) by {
        forall m | 0 <= m < |prev.accepted|
          ensures u !in ClaimSet(prev.accepted[m])
        {
          assert prev.accepted[m] == next.accepted[m];
        }
        forall i | 0 <= i < n && txs[..n][i].Some?
          ensures u !in OutputKeys(c, txs[..n][i].value)
        {
          assert txs[..n][i] == txs[i];
        }
      }
      RunKeepsUntouched(c, pool, txs[..n], u);
      if txs[n].Some? {
        var t := txs[n].value;
        OutputKeysMember(c, t, u);
        if Admits(c, prev, t) {
          assert next.accepted[|prev.accepted|] == t;
          assert u in prev.pool - ClaimSet(t);
        }
      }
    }
  }

  lemma RunKeepsUntouchedAll(c: Crypto, pool: Pool, txs: seq<Option<Tx>>)
    ensures forall u | u in pool && Untouched(c, txs, Run(c, pool, txs).accepted, u) ::
      u in Run(c, pool, txs).pool && Run(c, pool, txs).pool[u] == pool[u]
  {
    forall u | u in pool && Untouched(c, txs, Run(c, pool, txs).accepted, u)
      ensures u in Run(c, pool, txs).pool && Run(c, pool, txs).pool[u] == pool[u]
    {
      RunKeepsUntouched(c, pool, txs, u);
    }
  }

  /** `u` is claimed by the `m`-th accepted transaction, and neither that transaction nor any
      accepted after it pools an output under `u`. */
  predicate Consumed(c: Crypto, accepted: seq<Tx>, m: nat, u: UTXO)
    requires m < |accepted|
  {
    u in ClaimSet(accepted[m]) && forall k | m <= k < |accepted| :: u !in OutputKeys(c, accepted[k])
  }

  /** No consumed claim is pooled. */
  predicate ClaimsGone(c: Crypto, accepted: seq<Tx>, pool: Pool) {
    forall m, u | 0 <= m < |accepted| && Consumed(c, accepted, m, u) :: u !in pool
  }

  lemma StepKeepsClaimsGone(c: Crypto, st: Round, entry: Option<Tx>)
    requires ClaimsGone(c, st.accepted, st.pool)
    ensures ClaimsGone(c, Step(c, st, entry).accepted, Step(c, st, entry).pool)
  {
    if entry.Some? && Admits(c, st, entry.value) {
      var t := entry.value;
      var next := Step(c, st, entry);
      var n := |st.accepted|;
      assert next.accepted == st.accepted + [t];
      forall m, u | 0 <= m < |next.accepted| && Consumed(c, next.accepted, m, u)
        ensures u !in next.pool
      {
        assert next.accepted[n] == t;
        assert u !in OutputKeys(c, t);
        OutputKeysMember(c, t, u);
        if m < n {
          assert next.accepted[m] == st.accepted[m];
          assert Consumed(c, st.accepted, m, u) by {
            forall k | m <= k < n
              ensures u !in OutputKeys(c, st.accepted[k])
            {
              assert next.accepted[k] == st.accepted[k];
            }
          }
        }
      }
    }
  }

  /** Consumed claims are out of the pool after every prefix of the batch. */
  lemma {:induction false} RunClaimsGone(c: Crypto, pool: Pool, txs: seq<Option<Tx>>)
    ensures ClaimsGone(c, Run(c, pool, txs).accepted, Run(c, pool, txs).pool)
    decreases |txs|
  {
    if txs != [] {
      RunClaimsGone(c, pool, txs[..|txs| - 1]);
      StepKeepsClaimsGone(c, Run(c, pool, txs[..|txs| - 1]), txs[|txs| - 1]);
    }
  }

  /** What one batch produces: the accepted transactions, in batch order, and the new pool. */
  datatype Handled = Handled(accepted: seq<Tx>, pool: Pool)

  /** `handleTxs` on the handler's own copy of the pool. The result holds only mutually
      consistent, well-formed transactions. Every pooled key is an accepted output or an
      untouched original entry; conversely every live accepted output is pooled, every claim
      an accepted transaction consumes has left the pool, and every original entry the batch
      does not touch keeps its value. A pool of non-negative outputs
      stays non-negative and never gains value. */
  function HandleTxs(c: Crypto, pool: Pool, txs: seq<Option<Tx>>): (r: Handled)
    ensures ClaimsDisjoint(r.accepted)
    ensures WellFormed(r.accepted)
    ensures forall u | u in r.pool ::
      || (exists m | 0 <= m < |r.accepted| :: u in OutputKeys(c, r.accepted[m]))
      || (u in pool && r.pool[u] == pool[u] && forall m | 0 <= m < |r.accepted| :: u !in ClaimSet(r.accepted[m]))
    ensures OutputsPooled(c, r.accepted, r.pool)
    ensures ClaimsGone(c, r.accepted, r.pool)
    ensures forall u | u in pool && Untouched(c, txs, r.accepted, u) :: u in r.pool && r.pool[u] == pool[u]
    ensures NonNegativePool(pool) ==> NonNegativePool(r.pool) && PoolValue(r.pool) <= PoolValue(pool)
  {
    var st := Run(c, pool, txs);
    RunConsistent(c, pool, txs);
    RunOutputsPooled(c, pool, txs);
    RunClaimsGone(c, pool, txs);
    RunKeepsUntouchedAll(c, pool, txs);
    RunKeepsValue(c, pool, txs);
    Handled(st.accepted, st.pool)
  }

  /** Whether entry `i` of the batch is accepted. */
  predicate AcceptedAt(c: Crypto, pool: Pool, txs: seq<Option<Tx>>, i: nat)
    requires i < |txs|
  {
    txs[i].Some? && Admits(c, Run(c, pool, txs[..i]), txs[i].value)
  }

  /** The batch positions of the accepted transactions: increasing, each holding the
      transaction accepted there, valid against the pool at its turn; a position is listed
      exactly when its entry is accepted, so null entries never are. */
  function AcceptedPositions(c: Crypto, pool: Pool, txs: seq<Option<Tx>>): (ps: seq<nat>)
    ensures |ps| == |Run(c, pool, txs).accepted|
    ensures forall m | 0 <= m < |ps| :: ps[m] < |txs|
    ensures forall m | 0 <= m < |ps| :: ps[m] < |txs| && txs[ps[m]] == Some(Run(c, pool, txs).accepted[m])
    ensures forall m, m' | 0 <= m < m' < |ps| :: ps[m] < ps[m']
    ensures forall i | 0 <= i < |txs| :: i in ps <==> AcceptedAt(c, pool, txs, i)
    decreases |txs|
  {
    if txs == [] then []
    else
      var n := |txs| - 1;
      var prev := AcceptedPositions(c, pool, txs[..n]);
      AcceptedAtPrefix(c, pool, txs, n);
      LastEntry(c, pool, txs);
      var accepted := AcceptedAt(c, pool, txs, n);
      assert accepted ==> Run(c, pool, txs).accepted[|prev|] == txs[n].value;
      assert forall m | 0 <= m < |prev| :: Run(c, pool, txs).accepted[m] == Run(c, pool, txs[..n]).accepted[m];
      if accepted then prev + [n] else prev
  }

  /** Whether an entry is accepted depends only on the entries before it. */
  lemma AcceptedAtPrefix(c: Crypto, pool: Pool, txs: seq<Option<Tx>>, n: nat)
    requires n <= |txs|
    ensures forall i | 0 <= i < n :: AcceptedAt(c, pool, txs[..n], i) == AcceptedAt(c, pool, txs, i)
  {
    PrefixOfPrefix(txs, n);
  }

  /** The last entry either appends itself to the accepted list or leaves it as it was. */
  lemma LastEntry(c: Crypto, pool: Pool, txs: seq<Option<Tx>>)
    requires txs != []
    ensures var n := |txs| - 1;
      Run(c, pool, txs).accepted ==
        Run(c, pool, txs[..n]).accepted + (if AcceptedAt(c, pool, txs, n) then [txs[n].value] else [])
  {
  }

  /** Once accepted, a transaction's claims stay in the spent set for the rest of the batch. */
  lemma {:induction false} SpentCovers(c: Crypto, pool: Pool, txs: seq<Option<Tx>>, i: nat)
    requires i < |txs|
    requires AcceptedAt(c, pool, txs, i)
    ensures ClaimSet(txs[i].value) <= Run(c, pool, txs).spent
    decreases |txs|
  {
    var n := |txs| - 1;
    var prev := Run(c, pool, txs[..n]);
    assert Run(c, pool, txs) == Step(c, prev, txs[n]);
    StepGrowsSpent(c, prev, txs[n]);
    if i < n {
      PrefixOfPrefix(txs, n);
      assert AcceptedAt(c, pool, txs[..n], i);
      SpentCovers(c, pool, txs[..n], i);
    } else {
      assert txs[..i] == txs[..n];
    }
  }

  lemma StepGrowsSpent(c: Crypto, st: Round, entry: Option<Tx>)
    ensures st.spent <= Step(c, st, entry).spent
    ensures entry.Some? && Admits(c, st, entry.value) ==> ClaimSet(entry.value) <= Step(c, st, entry).spent
  {
  }

  /** First seen wins: once a transaction is accepted, no later transaction sharing one of
      its claims is. */
  lemma FirstSeenWins(c: Crypto, pool: Pool, txs: seq<Option<Tx>>, i: nat, k: nat)
    requires i < k < |txs|
    requires AcceptedAt(c, pool, txs, i)
    requires txs[k].Some? && !(ClaimSet(txs[i].value) !! ClaimSet(txs[k].value))
    ensures !AcceptedAt(c, pool, txs, k)
  {
    PrefixOfPrefix(txs, k);
    assert AcceptedAt(c, pool, txs[..k], i);
    SpentCovers(c, pool, txs[..k], i);
  }

  /** A rejected transaction leaves none of its output keys in the final pool, unless an
      accepted transaction of the batch pools an output under the same key. */
  lemma {:induction false} RejectedLeavesNoResidue(c: Crypto, pool: Pool, txs: seq<Option<Tx>>, i: nat, j: nat)
    requires i < |txs| && txs[i].Some? && !AcceptedAt(c, pool, txs, i)
    requires j < |txs[i].value.outputs|
    requires UTXO(c.hash(txs[i].value), j) in Run(c, pool, txs).pool
    ensures exists k | 0 <= k < |txs| ::
      AcceptedAt(c, pool, txs, k) && UTXO(c.hash(txs[i].value), j) in OutputKeys(c, txs[k].value)
    decreases |txs|
  {
    var n := |txs| - 1;
    var t := txs[i].value;
    var u := UTXO(c.hash(t), j);
    PrefixOfPrefix(txs, n);
    AcceptedAtPrefix(c, pool, txs, n);
    var prev := Run(c, pool, txs[..n]);
    assert Run(c, pool, txs) == Step(c, prev, txs[n]);
    if i == n {
      assert txs[..i] == txs[..n];
      OutputKeysMember(c, t, u);
      assert u !in Pruned(c, prev, t);
      var m :| 0 <= m < |prev.accepted| && u in OutputKeys(c, prev.accepted[m]);
      var ps := AcceptedPositions(c, pool, txs[..n]);
      var k := ps[m];
      assert k in ps;
      assert AcceptedAt(c, pool, txs[..n], k);
      assert txs[..n][k] == txs[k];
    } else {
      assert !AcceptedAt(c, pool, txs[..n], i);
      if AcceptedAt(c, pool, txs, n) && u in OutputKeys(c, txs[n].value) {
      } else {
        if txs[n].Some? {
          OutputKeysMember(c, txs[n].value, u);
          if Admits(c, prev, txs[n].value) {
            assert u in prev.pool - ClaimSet(txs[n].value);
          }
        }
        assert u in prev.pool;
        RejectedLeavesNoResidue(c, pool, txs[..n], i, j);
        var k :| 0 <= k < n && AcceptedAt(c, pool, txs[..n], k) && u in OutputKeys(c, txs[..n][k].value);
        assert txs[..n][k] == txs[k];
      }
    }
  }

  /** Pooling non-negative outputs into a non-negative pool adds at most their sum. */
  lemma {:induction false} InsertValue(pool: Pool, h: Hash, outs: seq<Output>)
    requires NonNegativePool(pool)
    requires NonNegative(outs)
    ensures PoolValue(Insert(pool, h, outs)) <= PoolValue(pool) + OutputSum(outs)
    decreases |outs|
  {
    if outs != [] {
      var n := |outs| - 1;
      assert NonNegative(outs[..n]);
      InsertValue(pool, h, outs[..n]);
      var mid := Insert(pool, h, outs[..n]);
      assert NonNegativePool(mid) by {
        forall u | u in mid
          ensures mid[u].value >= 0
        {
          if u.txHash == h && u.index < n {
            assert mid[u] == outs[..n][u.index];
          }
        }
      }
      PoolValueUpdate(mid, UTXO(h, n), outs[n]);
    }
  }

  /** Accepting a valid transaction never raises the value of a non-negative pool:
      what leaves is the claimed value, what enters is at most the output sum. */
  lemma ApplyKeepsValue(c: Crypto, pool: Pool, t: Tx)
    requires NonNegativePool(pool)
    requires ValidTx(c, pool, t)
    ensures PoolValue(Apply(c, pool, t)) <= PoolValue(pool)
  {
    PoolValueRemoveClaims(pool, Claims(t));
    InsertValue(pool - ClaimSet(t), c.hash(t), t.outputs);
  }

  /** Conservation over a whole batch. */
  lemma {:induction false} RunKeepsValue(c: Crypto, pool: Pool, txs: seq<Option<Tx>>)
    ensures NonNegativePool(pool) ==> PoolValue(Run(c, pool, txs).pool) <= PoolValue(pool)
    decreases |txs|
  {
    if txs != [] && NonNegativePool(pool) {
      var n := |txs| - 1;
      RunKeepsValue(c, pool, txs[..n]);
      var prev := Run(c, pool, txs[..n]);
      match txs[n]
      case None =>
      case Some(t) =>
        RunConsistent(c, pool, txs[..n]);
        if Admits(c, prev, t) {
          ApplyKeepsValue(c, prev.pool, t);
        } else {
          PoolValueShrinks(prev.pool, Pruned(c, prev, t));
        }
    }
  }

  /** The entries of `txs`, in order, from an arbitrary state. */
  function RunFrom(c: Crypto, st: Round, txs: seq<Option<Tx>>): Round
    decreases |txs|
  {
    if txs == [] then st else Step(c, RunFrom(c, st, txs[..|txs| - 1]), txs[|txs| - 1])
  }

  /** A batch is its prefix up to `k` followed by the rest. */
  lemma {:induction false} RunSplit(c: Crypto, pool: Pool, txs: seq<Option<Tx>>, k: nat)
    requires k <= |txs|
    ensures Run(c, pool, txs) == RunFrom(c, Run(c, pool, txs[..k]), txs[k..])
    decreases |txs|
  {
    if k == |txs| {
      assert txs[..k] == txs;
      assert txs[k..] == [];
    } else {
      var n := |txs| - 1;
      PrefixOfPrefix(txs, n);
      RunSplit(c, pool, txs[..n], k);
      assert txs[..n][k..] == txs[k..][..|txs[k..]| - 1];
    }
  }

  /** Processing `first` and then `rest`. */
  lemma {:induction false} RunFromFirst(c: Crypto, st: Round, first: Option<Tx>, rest: seq<Option<Tx>>)
    ensures RunFrom(c, st, [first] + rest) == RunFrom(c, Step(c, st, first), rest)
    decreases |rest|
  {
    if rest == [] {
      assert ([first] + rest)[..0] == [];
    } else {
      var n := |rest| - 1;
      RunFromFirst(c, st, first, rest[..n]);
      assert ([first] + rest)[..|[first] + rest| - 1] == [first] + rest[..n];
    }
  }

  /** Idempotent rejection: dropping a rejected or null entry from the batch changes neither
      the accepted transactions nor the final pool, provided none of the keys the rejected
      entry would prune is pooled at its turn (otherwise its pruning is its only effect). */
  lemma RejectionIsIdempotent(c: Crypto, pool: Pool, txs: seq<Option<Tx>>, k: nat)
    requires k < |txs|
    requires !AcceptedAt(c, pool, txs, k)
    requires txs[k].Some? ==> Pruned(c, Run(c, pool, txs[..k]), txs[k].value) !! Run(c, pool, txs[..k]).pool.Keys
    ensures HandleTxs(c, pool, txs[..k] + txs[k + 1..]) == HandleTxs(c, pool, txs)
  {
    var st := Run(c, pool, txs[..k]);
    if txs[k].Some? {
      assert st.pool - Pruned(c, st, txs[k].value) == st.pool;
    }
    assert Step(c, st, txs[k]) == st;
    RunSplit(c, pool, txs, k);
    assert txs[k..] == [txs[k]] + txs[k + 1..];
    RunFromFirst(c, st, txs[k], txs[k + 1..]);
    var without := txs[..k] + txs[k + 1..];
    RunSplit(c, pool, without, k);
    assert without[..k] == txs[..k];
    assert without[k..] == txs[k + 1..];
  }

  /** Everything the accepted transactions claim. */
  function ClaimsOf(accepted: seq<Tx>): set<UTXO>
    decreases |accepted|
  {
    if accepted == [] then {}
    else ClaimsOf(accepted[..|accepted| - 1]) + ClaimSet(accepted[|accepted| - 1])
  }

  /** Only accepted transactions' claims enter the spent set: it is exactly the union of the
      accepted transactions' claims. (A rejected transaction can still affect a later one
      through the keys its rejection prunes from the pool.) */
  lemma {:induction false} SpentIsAcceptedClaims(c: Crypto, pool: Pool, txs: seq<Option<Tx>>)
    ensures Run(c, pool, txs).spent == ClaimsOf(Run(c, pool, txs).accepted)
    decreases |txs|
  {
    if txs != [] {
      var n := |txs| - 1;
      SpentIsAcceptedClaims(c, pool, txs[..n]);
      var prev := Run(c, pool, txs[..n]);
      if txs[n].Some? && Admits(c, prev, txs[n].value) {
        assert (prev.accepted + [txs[n].value])[..|prev.accepted|] == prev.accepted;
      }
    }
  }
}

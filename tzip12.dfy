/**
 * The parts of the FA2 (TZIP-12) interface that both token contracts share:
 * the ledger key `(owner, token_id)`, the operator key, the parameters of
 * `transfer` and `update_operators`, and the sum of the balances of one
 * token over a ledger.
 */
module Tzip12 {
  import opened Tezos
  import opened Sums

  type LedgerKey = (Address, nat)

  datatype OperatorKey = OperatorKey(owner: Address, operator: Address, tokenId: nat)

  datatype Tx = Tx(to: Address, tokenId: nat, amount: nat)

  datatype TransferParam = TransferParam(from: Address, txs: seq<Tx>)

  datatype OperatorUpdate = AddOperator(key: OperatorKey) | RemoveOperator(key: OperatorKey)

  /** The operator set after one update that has passed its checks. */
  function Updated(operators: set<OperatorKey>, u: OperatorUpdate): set<OperatorKey>
  {
    match u
    case AddOperator(k) => operators + {k}
    case RemoveOperator(k) => operators - {k}
  }

  /**
   * What a batch of updates does to the operator set: a key no update names
   * keeps its membership, and a key that is named is an operator afterwards
   * exactly when the last update naming it adds it.
   */
  ghost predicate LastUpdateDecides(before: set<OperatorKey>, updates: seq<OperatorUpdate>, after: set<OperatorKey>)
  {
    && (forall k :: (forall i :: 0 <= i < |updates| ==> updates[i].key != k) ==> (k in after <==> k in before))
    && (forall i :: 0 <= i < |updates| && (forall j :: i < j < |updates| ==> updates[j].key != updates[i].key) ==>
          (updates[i].key in after <==> updates[i].AddOperator?))
  }

  /** A batch applied one update at a time: the first update, then the rest. */
  lemma LastUpdateCons(before: set<OperatorKey>, updates: seq<OperatorUpdate>, after: set<OperatorKey>)
    requires |updates| > 0 && LastUpdateDecides(Updated(before, updates[0]), updates[1..], after)
    ensures LastUpdateDecides(before, updates, after)
  {
    var u, rest := updates[0], updates[1..];
    forall k | forall i :: 0 <= i < |updates| ==> updates[i].key != k
      ensures k in after <==> k in before
    {
      assert u.key != k;
      assert forall i :: 0 <= i < |rest| ==> rest[i].key != k by {
        forall i | 0 <= i < |rest| ensures rest[i].key != k { assert rest[i] == updates[i + 1]; }
      }
    }
    forall i | 0 <= i < |updates| && (forall j :: i < j < |updates| ==> updates[j].key != updates[i].key)
      ensures updates[i].key in after <==> updates[i].AddOperator?
    {
      if i == 0 {
        assert forall j :: 0 <= j < |rest| ==> rest[j].key != u.key by {
          forall j | 0 <= j < |rest| ensures rest[j].key != u.key { assert rest[j] == updates[j + 1]; }
        }
      } else {
        assert rest[i - 1] == updates[i];
        assert forall j :: i - 1 < j < |rest| ==> rest[j].key != rest[i - 1].key by {
          forall j | i - 1 < j < |rest| ensures rest[j].key != rest[i - 1].key { assert rest[j] == updates[j + 1]; }
        }
      }
    }
  }

  /** The ledger rows of one token. */
  function TokenLedger(ledger: map<LedgerKey, nat>, tokenId: nat): (m: map<LedgerKey, nat>)
    ensures forall k :: k in m <==> k in ledger && k.1 == tokenId
  {
    map k | k in ledger && k.1 == tokenId :: ledger[k]
  }

  /** The sum of all balances of one token. */
  ghost function TokenSum(ledger: map<LedgerKey, nat>, tokenId: nat): nat
  {
    MapSum(TokenLedger(ledger, tokenId))
  }

  /** Every token with a supply entry has as supply the sum of its balances. */
  ghost predicate SupplyMatches(ledger: map<LedgerKey, nat>, supply: map<nat, nat>)
  {
    forall id {:trigger TokenSum(ledger, id)} :: id in supply ==> supply[id] == TokenSum(ledger, id)
  }

  /** Writing row `k` changes the sum of `k`'s token by the difference and no other token's sum. */
  lemma TokenSumUpdate(ledger: map<LedgerKey, nat>, k: LedgerKey, v: nat, tokenId: nat)
    ensures tokenId == k.1 ==> TokenSum(ledger[k := v], tokenId) + Get(ledger, k) == TokenSum(ledger, tokenId) + v
    ensures tokenId != k.1 ==> TokenSum(ledger[k := v], tokenId) == TokenSum(ledger, tokenId)
  {
    var before, after := TokenLedger(ledger, tokenId), TokenLedger(ledger[k := v], tokenId);
    if tokenId == k.1 {
      assert after == before[k := v];
      assert Get(before, k) == Get(ledger, k);
      MapSumUpdate(before, k, v);
    } else {
      assert after == before;
    }
  }

  /** A token no ledger row refers to has sum 0. */
  lemma TokenSumEmpty(ledger: map<LedgerKey, nat>, tokenId: nat)
    requires forall k :: k in ledger ==> k.1 != tokenId
    ensures TokenSum(ledger, tokenId) == 0
  {
    assert TokenLedger(ledger, tokenId) == map[];
  }
}

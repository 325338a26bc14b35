/**
 * The FA2 (TZIP-12) token contract of fa2-mocks/fa2.py, the ledger the swap
 * scenarios trade against: consecutive ids taken from a counter, balances
 * read with a default of 0, owner-only operator updates and a two-step
 * administrator handoff.
 *
 * As for fa2.py, each entry point is a `...Step` function (the specification)
 * and the class `Fa2MockContract` runs the entry points in place.
 */
module Fa2Mock {
  import opened Tezos
  import opened Sums
  import opened Tzip12

  const NOT_ADMIN := "FA2_NOT_ADMIN"
  const TOKEN_UNDEFINED := "FA2_TOKEN_UNDEFINED"
  const NOT_OPERATOR := "FA2_NOT_OPERATOR"
  const INSUFFICIENT_BALANCE := "FA2_INSUFFICIENT_BALANCE"
  const SENDER_IS_NOT_OWNER := "FA2_SENDER_IS_NOT_OWNER"
  const NO_NEW_ADMIN := "FA_NO_NEW_ADMIN"
  const NOT_PROPOSED_ADMIN := "FA_NOT_PROPOSED_ADMIN"

  datatype Option<T> = None | Some(value: T)

  /** The storage without the metadata, token data and royalties big maps. */
  datatype Storage = Storage(
    administrator: Address,
    ledger: map<LedgerKey, nat>,
    supply: map<nat, nat>,
    operators: set<OperatorKey>,
    proposedAdministrator: Option<Address>,
    counter: nat)

  function Origination(administrator: Address): (s: Storage)
    ensures Valid(s)
  {
    Storage(administrator, map[], map[], {}, None, 0)
  }

  /** `check_token_exists`: the ids minted so far are 0 .. counter - 1. */
  predicate TokenExists(s: Storage, tokenId: nat)
  {
    tokenId < s.counter
  }

  /** The balance of `owner` in `tokenId`: the `ledger.get(key, 0)` of the contract. */
  function Balance(s: Storage, owner: Address, tokenId: nat): nat
  {
    Get(s.ledger, (owner, tokenId))
  }

  /**
   * The storage invariant: every ledger row is for a minted id, the supply
   * map has exactly the minted ids, and each supply is the sum of balances.
   */
  ghost predicate Valid(s: Storage)
  {
    && (forall k :: k in s.ledger ==> k.1 < s.counter)
    && (forall id: nat :: id in s.supply <==> id < s.counter)
    && SupplyMatches(s.ledger, s.supply)
  }

  // ------------------------------------------------------------------- mint

  /** The `mint` entry point: the administrator mints `amount` editions of id `counter` to itself. */
  function MintStep(s: Storage, sender: Address, amount: nat): Result<Storage>
  {
    if sender != s.administrator then Fail(NOT_ADMIN)
    else
      Ok(s.(ledger := s.ledger[(sender, s.counter) := amount],
            supply := s.supply[s.counter := amount],
            counter := s.counter + 1))
  }

  /**
   * Only the administrator mints; the new id is the old counter, which grows
   * by one; the sender's balance and the supply of the new id are `amount`,
   * and no other balance changes.
   */
  lemma MintSpec(s: Storage, sender: Address, amount: nat)
    ensures MintStep(s, sender, amount).Ok? <==> sender == s.administrator
    ensures MintStep(s, sender, amount).Fail? ==> MintStep(s, sender, amount).msg == NOT_ADMIN
    ensures MintStep(s, sender, amount).Ok? ==>
      var s' := MintStep(s, sender, amount).value;
      && s'.counter == s.counter + 1 && TokenExists(s', s.counter) && !TokenExists(s, s.counter)
      && Balance(s', sender, s.counter) == amount && Get(s'.supply, s.counter) == amount
      && (forall o: Address, id: nat :: (o, id) != (sender, s.counter) ==> Balance(s', o, id) == Balance(s, o, id))
      && (forall id: nat :: id != s.counter ==> Get(s'.supply, id) == Get(s.supply, id))
      && s'.administrator == s.administrator && s'.operators == s.operators
      && s'.proposedAdministrator == s.proposedAdministrator
  {
  }

  /** `mint` keeps the storage invariant. */
  lemma MintValid(s: Storage, sender: Address, amount: nat)
    requires Valid(s) && MintStep(s, sender, amount).Ok?
    ensures Valid(MintStep(s, sender, amount).value)
  {
    var s' := MintStep(s, sender, amount).value;
    var key := (sender, s.counter);
    forall k | k in s'.ledger ensures k.1 < s'.counter {
      if k != key { assert k in s.ledger; }
    }
    forall id: nat ensures id in s'.supply <==> id < s'.counter {
      assert id in s'.supply <==> id in s.supply || id == s.counter;
    }
    TokenSumEmpty(s.ledger, s.counter);
    assert Get(s.ledger, key) == 0;
    forall id | id in s'.supply ensures s'.supply[id] == TokenSum(s'.ledger, id) {
      TokenSumUpdate(s.ledger, key, amount, id);
    }
  }

  // --------------------------------------------------------------- transfer

  /** The debit `ledger[from] = as_nat(get(from, 0) - amount)`, then the credit `ledger[to] = get(to, 0) + amount` read after it. */
  function Move(ledger: map<LedgerKey, nat>, from: LedgerKey, to: LedgerKey, amount: nat): map<LedgerKey, nat>
    requires Get(ledger, from) >= amount
  {
    var debited := ledger[from := Get(ledger, from) - amount];
    debited[to := Get(debited, to) + amount]
  }

  lemma MoveConserves(ledger: map<LedgerKey, nat>, from: LedgerKey, to: LedgerKey, amount: nat, tokenId: nat)
    requires Get(ledger, from) >= amount && from.1 == to.1
    ensures TokenSum(Move(ledger, from, to, amount), tokenId) == TokenSum(ledger, tokenId)
  {
    var debit := Get(ledger, from) - amount;
    var debited := ledger[from := debit];
    var credit := Get(debited, to) + amount;
    assert Move(ledger, from, to, amount) == debited[to := credit];
    TokenSumUpdate(ledger, from, debit, tokenId);
    TokenSumUpdate(debited, to, credit, tokenId);
    if tokenId == from.1 {
      assert Get(ledger, from) == debit + amount;
    }
  }

  /** One tx of a transfer from `from`: existence, then owner or operator, then the balance. */
  function TxStep(s: Storage, sender: Address, from: Address, tx: Tx): Result<Storage>
  {
    if !TokenExists(s, tx.tokenId) then Fail(TOKEN_UNDEFINED)
    else if !(sender == from || OperatorKey(from, sender, tx.tokenId) in s.operators) then Fail(NOT_OPERATOR)
    else if tx.amount == 0 then Ok(s)
    else if Balance(s, from, tx.tokenId) < tx.amount then Fail(INSUFFICIENT_BALANCE)
    else Ok(s.(ledger := Move(s.ledger, (from, tx.tokenId), (tx.to, tx.tokenId), tx.amount)))
  }

  function TxsStep(s: Storage, sender: Address, from: Address, txs: seq<Tx>): Result<Storage>
    decreases |txs|
  {
    if txs == [] then Ok(s)
    else match TxStep(s, sender, from, txs[0])
      case Fail(e) => Fail(e)
      case Ok(s1) => TxsStep(s1, sender, from, txs[1..])
  }

  /** The `transfer` entry point: the transfers of the batch, in order; the first failure aborts. */
  function TransferStep(s: Storage, sender: Address, batch: seq<TransferParam>): Result<Storage>
    decreases |batch|
  {
    if batch == [] then Ok(s)
    else match TxsStep(s, sender, batch[0].from, batch[0].txs)
      case Fail(e) => Fail(e)
      case Ok(s1) => TransferStep(s1, sender, batch[1..])
  }

  /**
   * A tx fails exactly for an unminted id, a sender that is neither the owner
   * nor a registered operator (the administrator gets no exception), or a
   * balance (absent rows count as 0) below the amount. On success the amount
   * moves from `from` to `to`; a tx to oneself changes nothing.
   */
  lemma TxSpec(s: Storage, sender: Address, from: Address, tx: Tx)
    ensures !TokenExists(s, tx.tokenId) ==> TxStep(s, sender, from, tx) == Fail(TOKEN_UNDEFINED)
    ensures TokenExists(s, tx.tokenId) && sender != from && OperatorKey(from, sender, tx.tokenId) !in s.operators ==>
      TxStep(s, sender, from, tx) == Fail(NOT_OPERATOR)
    ensures TxStep(s, sender, from, tx).Ok? <==>
      && TokenExists(s, tx.tokenId)
      && (sender == from || OperatorKey(from, sender, tx.tokenId) in s.operators)
      && Balance(s, from, tx.tokenId) >= tx.amount
    ensures (&& TxStep(s, sender, from, tx).Fail? && TokenExists(s, tx.tokenId)
             && (sender == from || OperatorKey(from, sender, tx.tokenId) in s.operators)) ==>
      TxStep(s, sender, from, tx) == Fail(INSUFFICIENT_BALANCE)
    ensures TxStep(s, sender, from, tx).Ok? ==>
      var s' := TxStep(s, sender, from, tx).value;
      && s'.(ledger := s.ledger) == s
      && (from == tx.to || tx.amount == 0 ==> s' == s)
      && (from != tx.to ==>
            && Balance(s', from, tx.tokenId) == Balance(s, from, tx.tokenId) - tx.amount
            && Balance(s', tx.to, tx.tokenId) == Balance(s, tx.to, tx.tokenId) + tx.amount)
      && (forall o: Address, id: nat :: (o, id) != (from, tx.tokenId) && (o, id) != (tx.to, tx.tokenId) ==> Balance(s', o, id) == Balance(s, o, id))
  {
    if TxStep(s, sender, from, tx).Ok? && from == tx.to && tx.amount > 0 {
      var key := (from, tx.tokenId);
      assert key in s.ledger;
      assert Move(s.ledger, key, key, tx.amount) == s.ledger;
    }
  }

  /** A tx keeps the invariant: rows are only written for a minted id and every token's sum is kept. */
  lemma TxValid(s: Storage, sender: Address, from: Address, tx: Tx)
    requires Valid(s) && TxStep(s, sender, from, tx).Ok?
    ensures Valid(TxStep(s, sender, from, tx).value)
    ensures forall id :: TokenSum(TxStep(s, sender, from, tx).value.ledger, id) == TokenSum(s.ledger, id)
  {
    var s' := TxStep(s, sender, from, tx).value;
    forall id ensures TokenSum(s'.ledger, id) == TokenSum(s.ledger, id) {
      if tx.amount > 0 {
        MoveConserves(s.ledger, (from, tx.tokenId), (tx.to, tx.tokenId), tx.amount, id);
      }
    }
  }

  lemma {:induction false} TxsValid(s: Storage, sender: Address, from: Address, txs: seq<Tx>)
    requires Valid(s) && TxsStep(s, sender, from, txs).Ok?
    ensures var s' := TxsStep(s, sender, from, txs).value;
      s'.(ledger := s.ledger) == s && Valid(s') && (forall id :: TokenSum(s'.ledger, id) == TokenSum(s.ledger, id))
    decreases |txs|
  {
    if txs != [] {
      TxValid(s, sender, from, txs[0]);
      TxsValid(TxStep(s, sender, from, txs[0]).value, sender, from, txs[1..]);
    }
  }

  /** A successful `transfer` changes only the ledger, keeps every token's sum and the invariant. */
  lemma {:induction false} TransferValid(s: Storage, sender: Address, batch: seq<TransferParam>)
    requires Valid(s) && TransferStep(s, sender, batch).Ok?
    ensures var s' := TransferStep(s, sender, batch).value;
      s'.(ledger := s.ledger) == s && Valid(s') && (forall id :: TokenSum(s'.ledger, id) == TokenSum(s.ledger, id))
    decreases |batch|
  {
    if batch != [] {
      TxsValid(s, sender, batch[0].from, batch[0].txs);
      TransferValid(TxsStep(s, sender, batch[0].from, batch[0].txs).value, sender, batch[1..]);
    }
  }

  // ------------------------------------------------------- update_operators

  function UpdateOperatorStep(s: Storage, sender: Address, u: OperatorUpdate): Result<Storage>
  {
    if !TokenExists(s, u.key.tokenId) then Fail(TOKEN_UNDEFINED)
    else if sender != u.key.owner then Fail(SENDER_IS_NOT_OWNER)
    else match u
      case AddOperator(k) => Ok(s.(operators := s.operators + {k}))
      case RemoveOperator(k) => Ok(s.(operators := s.operators - {k}))
  }

  /** The `update_operators` entry point: the updates in order; the first failure aborts. */
  function UpdateOperatorsStep(s: Storage, sender: Address, updates: seq<OperatorUpdate>): Result<Storage>
    decreases |updates|
  {
    if updates == [] then Ok(s)
    else match UpdateOperatorStep(s, sender, updates[0])
      case Fail(e) => Fail(e)
      case Ok(s1) => UpdateOperatorsStep(s1, sender, updates[1..])
  }

  /**
   * A batch of updates succeeds exactly when every update names a minted id
   * and the sender as owner (the administrator gets no exception); it
   * changes only the operator set.
   */
  lemma {:induction false} UpdateOperatorsSpec(s: Storage, sender: Address, updates: seq<OperatorUpdate>)
    ensures UpdateOperatorsStep(s, sender, updates).Ok? <==>
      forall i :: 0 <= i < |updates| ==> TokenExists(s, updates[i].key.tokenId) && sender == updates[i].key.owner
    ensures UpdateOperatorsStep(s, sender, updates).Fail? ==>
      UpdateOperatorsStep(s, sender, updates).msg in {TOKEN_UNDEFINED, SENDER_IS_NOT_OWNER}
    ensures (forall i :: 0 <= i < |updates| ==> sender == updates[i].key.owner) &&
            (exists i :: 0 <= i < |updates| && !TokenExists(s, updates[i].key.tokenId)) ==>
      UpdateOperatorsStep(s, sender, updates) == Fail(TOKEN_UNDEFINED)
    ensures (forall i :: 0 <= i < |updates| ==> TokenExists(s, updates[i].key.tokenId)) &&
            (exists i :: 0 <= i < |updates| && sender != updates[i].key.owner) ==>
      UpdateOperatorsStep(s, sender, updates) == Fail(SENDER_IS_NOT_OWNER)
    ensures UpdateOperatorsStep(s, sender, updates).Ok? ==>
      UpdateOperatorsStep(s, sender, updates).value == s.(operators := UpdateOperatorsStep(s, sender, updates).value.operators)
    ensures UpdateOperatorsStep(s, sender, updates).Ok? ==>
      LastUpdateDecides(s.operators, updates, UpdateOperatorsStep(s, sender, updates).value.operators)
    decreases |updates|
  {
    if updates != [] {
      if UpdateOperatorStep(s, sender, updates[0]).Ok? {
        var s1 := UpdateOperatorStep(s, sender, updates[0]).value;
        UpdateOperatorsSpec(s1, sender, updates[1..]);
        assert s1.counter == s.counter;
        assert s1.operators == Updated(s.operators, updates[0]);
        if UpdateOperatorsStep(s, sender, updates).Ok? {
          LastUpdateCons(s.operators, updates, UpdateOperatorsStep(s, sender, updates).value.operators);
        }
        assert forall i :: 1 <= i < |updates| ==> updates[i] == updates[1..][i - 1];
        assert forall i :: 0 <= i < |updates| - 1 ==> updates[1..][i] == updates[i + 1];
      }
    }
  }

  /** The owner adding and then removing an operator of a minted token restores an operator set that lacked it. */
  lemma AddThenRemove(s: Storage, k: OperatorKey)
    requires TokenExists(s, k.tokenId)
    ensures UpdateOperatorsStep(s, k.owner, [AddOperator(k), RemoveOperator(k)]) == Ok(s.(operators := s.operators - {k}))
    ensures k !in s.operators ==> UpdateOperatorsStep(s, k.owner, [AddOperator(k), RemoveOperator(k)]) == Ok(s)
  {
    var s1 := s.(operators := s.operators + {k});
    var s2 := s.(operators := s.operators - {k});
    assert UpdateOperatorStep(s, k.owner, AddOperator(k)) == Ok(s1);
    assert s1.operators - {k} == s.operators - {k};
    assert UpdateOperatorStep(s1, k.owner, RemoveOperator(k)) == Ok(s2);
    assert UpdateOperatorsStep(s1, k.owner, [RemoveOperator(k)]) == Ok(s2) by {
      assert [RemoveOperator(k)][1..] == [];
    }
    assert [AddOperator(k), RemoveOperator(k)][1..] == [RemoveOperator(k)];
    if k !in s.operators {
      assert s.operators - {k} == s.operators;
    }
  }

  // ------------------------------------------------------- administrator

  /** `transfer_administrator`: the administrator proposes a successor. */
  function TransferAdministratorStep(s: Storage, sender: Address, proposed: Address): Result<Storage>
  {
    if sender != s.administrator then Fail(NOT_ADMIN)
    else Ok(s.(proposedAdministrator := Some(proposed)))
  }

  /** `accept_administrator`: the proposed address takes over and the proposal is cleared. */
  function AcceptAdministratorStep(s: Storage, sender: Address): Result<Storage>
  {
    if s.proposedAdministrator.None? then Fail(NO_NEW_ADMIN)
    else if sender != s.proposedAdministrator.value then Fail(NOT_PROPOSED_ADMIN)
    else Ok(s.(administrator := sender, proposedAdministrator := None))
  }

  /**
   * The handoff takes two steps: only the administrator proposes; with no
   * proposal, or from any other sender than the proposed one, acceptance
   * fails; a proposal accepted by the proposed address makes it the
   * administrator and clears the proposal, and nothing else changes.
   */
  lemma HandoffSpec(s: Storage, sender: Address, proposed: Address, accepter: Address)
    ensures TransferAdministratorStep(s, sender, proposed).Ok? <==> sender == s.administrator
    ensures TransferAdministratorStep(s, sender, proposed).Fail? ==> TransferAdministratorStep(s, sender, proposed).msg == NOT_ADMIN
    ensures s.proposedAdministrator.None? ==> AcceptAdministratorStep(s, accepter) == Fail(NO_NEW_ADMIN)
    ensures s.proposedAdministrator.Some? && accepter != s.proposedAdministrator.value ==>
      AcceptAdministratorStep(s, accepter) == Fail(NOT_PROPOSED_ADMIN)
    ensures TransferAdministratorStep(s, sender, proposed).Ok? ==>
      var s1 := TransferAdministratorStep(s, sender, proposed).value;
      && s1.administrator == s.administrator
      && (accepter != proposed ==> AcceptAdministratorStep(s1, accepter) == Fail(NOT_PROPOSED_ADMIN))
      && AcceptAdministratorStep(s1, proposed) == Ok(s.(administrator := proposed, proposedAdministrator := None))
    ensures TransferAdministratorStep(s, sender, proposed).Ok? ==>
      TransferAdministratorStep(s, sender, proposed).value == s.(proposedAdministrator := Some(proposed))
    ensures s.proposedAdministrator == Some(accepter) ==>
      AcceptAdministratorStep(s, accepter) == Ok(s.(administrator := accepter, proposedAdministrator := None))
  {
  }

  // ------------------------------------------------------------------ views

  function TokenExistsView(s: Storage, tokenId: nat): bool
  {
    tokenId < s.counter
  }

  function CountTokens(s: Storage): nat
  {
    s.counter
  }

  /** `get_balance`: an unminted id fails; an absent row reads as 0. */
  function GetBalance(s: Storage, owner: Address, tokenId: nat): Result<nat>
  {
    if !TokenExists(s, tokenId) then Fail(TOKEN_UNDEFINED) else Ok(Get(s.ledger, (owner, tokenId)))
  }

  /** `total_supply`: an unminted id fails; an absent entry reads as 0. */
  function TotalSupply(s: Storage, tokenId: nat): Result<nat>
  {
    if !TokenExists(s, tokenId) then Fail(TOKEN_UNDEFINED) else Ok(Get(s.supply, tokenId))
  }

  /** `all_tokens`: `sp.range(0, counter)`. */
  function AllTokens(s: Storage): (ids: seq<nat>)
    ensures |ids| == s.counter
    ensures forall i :: 0 <= i < |ids| ==> ids[i] == i
  {
    seq(s.counter, i requires 0 <= i => i)
  }

  function IsOperator(s: Storage, key: OperatorKey): Result<bool>
  {
    if !TokenExists(s, key.tokenId) then Fail(TOKEN_UNDEFINED) else Ok(key in s.operators)
  }

  /**
   * The views agree with each other and with the ledger: a token exists iff
   * `all_tokens` lists it iff its balance, supply and operator views are
   * defined; on a valid storage the supply view is the sum of the balances
   * and bounds each balance.
   */
  lemma ViewsAgree(s: Storage, owner: Address, tokenId: nat, operator: Address)
    requires Valid(s)
    ensures TokenExistsView(s, tokenId) <==> tokenId in AllTokens(s)
    ensures TokenExistsView(s, tokenId) <==> tokenId < CountTokens(s)
    ensures TokenExistsView(s, tokenId) <==> GetBalance(s, owner, tokenId).Ok?
    ensures TokenExistsView(s, tokenId) <==> TotalSupply(s, tokenId).Ok?
    ensures TokenExistsView(s, tokenId) <==> IsOperator(s, OperatorKey(owner, operator, tokenId)).Ok?
    ensures TotalSupply(s, tokenId).Ok? ==> TotalSupply(s, tokenId).value == TokenSum(s.ledger, tokenId)
    ensures GetBalance(s, owner, tokenId).Ok? ==> GetBalance(s, owner, tokenId).value <= TotalSupply(s, tokenId).value
    ensures TokenExistsView(s, tokenId) && (owner, tokenId) !in s.ledger ==> GetBalance(s, owner, tokenId) == Ok(0)
  {
    if tokenId < s.counter {
      assert AllTokens(s)[tokenId] == tokenId;
      assert tokenId in s.supply;
      if (owner, tokenId) in s.ledger {
        MapSumRemove(TokenLedger(s.ledger, tokenId), (owner, tokenId));
      }
    }
  }

  /** For a minted token, an absent ledger row and an absent supply entry both read as 0, as `get(key, 0)` does. */
  lemma AbsentReadsZero(s: Storage, owner: Address, tokenId: nat)
    requires TokenExists(s, tokenId)
    ensures (owner, tokenId) !in s.ledger ==> GetBalance(s, owner, tokenId) == Ok(0)
    ensures tokenId !in s.supply ==> TotalSupply(s, tokenId) == Ok(0)
  {
  }

  // ------------------------------------------------------------ the contract

  /** The contract, its storage updated in place by its entry points. */
  class Fa2MockContract {
    var administrator: Address
    var ledger: map<LedgerKey, nat>
    var supply: map<nat, nat>
    var operators: set<OperatorKey>
    var proposedAdministrator: Option<Address>
    var counter: nat

    function State(): Storage
      reads this
    {
      Storage(administrator, ledger, supply, operators, proposedAdministrator, counter)
    }

    constructor (administrator: Address)
      ensures State() == Origination(administrator)
    {
      this.administrator := administrator;
      ledger, supply, operators := map[], map[], {};
      proposedAdministrator, counter := None, 0;
    }

    method Mint(sender: Address, amount: nat) returns (r: Result<()>)
      requires Valid(State())
      modifies this
      ensures Valid(State())
      ensures MintStep(old(State()), sender, amount).Ok? ==> r == Ok(()) && State() == MintStep(old(State()), sender, amount).value
      ensures MintStep(old(State()), sender, amount).Fail? ==> r == Fail(NOT_ADMIN) && State() == old(State())
    {
      if MintStep(State(), sender, amount).Ok? {
        MintValid(State(), sender, amount);
      }
      if sender != administrator {
        return Fail(NOT_ADMIN);
      }
      var tokenId := counter;
      ledger := ledger[(sender, tokenId) := amount];
      supply := supply[tokenId := amount];
      counter := counter + 1;
      r := Ok(());
    }

    /** The inner loop over the txs of one transfer. */
    method ApplyTxs(sender: Address, from: Address, txs: seq<Tx>) returns (r: Result<()>)
      modifies this`ledger
      ensures TxsStep(old(State()), sender, from, txs).Ok? ==> r == Ok(()) && State() == TxsStep(old(State()), sender, from, txs).value
      ensures TxsStep(old(State()), sender, from, txs).Fail? ==> r == Fail(TxsStep(old(State()), sender, from, txs).msg)
    {
      var j := 0;
      while j < |txs|
        invariant 0 <= j <= |txs|
        invariant TxsStep(old(State()), sender, from, txs) == TxsStep(State(), sender, from, txs[j..])
      {
        var tx := txs[j];
        assert txs[j..][0] == tx && txs[j..][1..] == txs[j + 1..];
        if !(tx.tokenId < counter) {
          return Fail(TOKEN_UNDEFINED);
        }
        if !(sender == from || OperatorKey(from, sender, tx.tokenId) in operators) {
          return Fail(NOT_OPERATOR);
        }
        if tx.amount > 0 {
          var ownerKey := (from, tx.tokenId);
          if Get(ledger, ownerKey) < tx.amount {
            return Fail(INSUFFICIENT_BALANCE);
          }
          ledger := ledger[ownerKey := Get(ledger, ownerKey) - tx.amount];
          var newOwnerKey := (tx.to, tx.tokenId);
          ledger := ledger[newOwnerKey := Get(ledger, newOwnerKey) + tx.amount];
        }
        j := j + 1;
      }
      r := Ok(());
    }

    /** The `transfer` entry point; a failure reverts the ledger. */
    method Transfer(sender: Address, batch: seq<TransferParam>) returns (r: Result<()>)
      requires Valid(State())
      modifies this
      ensures Valid(State())
      ensures TransferStep(old(State()), sender, batch).Ok? ==> r == Ok(()) && State() == TransferStep(old(State()), sender, batch).value
      ensures TransferStep(old(State()), sender, batch).Fail? ==> r == Fail(TransferStep(old(State()), sender, batch).msg) && State() == old(State())
    {
      if TransferStep(State(), sender, batch).Ok? {
        TransferValid(State(), sender, batch);
      }
      var saved := ledger;
      var i := 0;
      while i < |batch|
        invariant 0 <= i <= |batch|
        invariant old(State()).(ledger := ledger) == State()
        invariant TransferStep(old(State()), sender, batch) == TransferStep(State(), sender, batch[i..])
      {
        assert batch[i..][0] == batch[i] && batch[i..][1..] == batch[i + 1..];
        var res := ApplyTxs(sender, batch[i].from, batch[i].txs);
        if res.Fail? {
          ledger := saved;
          return res;
        }
        i := i + 1;
      }
      r := Ok(());
    }

    method UpdateOperators(sender: Address, updates: seq<OperatorUpdate>) returns (r: Result<()>)
      requires Valid(State())
      modifies this
      ensures Valid(State())
      ensures UpdateOperatorsStep(old(State()), sender, updates).Ok? ==> r == Ok(()) && State() == UpdateOperatorsStep(old(State()), sender, updates).value
      ensures UpdateOperatorsStep(old(State()), sender, updates).Fail? ==> r == Fail(UpdateOperatorsStep(old(State()), sender, updates).msg) && State() == old(State())
    {
      UpdateOperatorsSpec(State(), sender, updates);
      var saved := operators;
      var i := 0;
      while i < |updates|
        invariant 0 <= i <= |updates|
        invariant old(State()).(operators := operators) == State()
        invariant UpdateOperatorsStep(old(State()), sender, updates) == UpdateOperatorsStep(State(), sender, updates[i..])
      {
        assert updates[i..][0] == updates[i] && updates[i..][1..] == updates[i + 1..];
        var k := updates[i].key;
        if !(k.tokenId < counter) {
          operators := saved;
          return Fail(TOKEN_UNDEFINED);
        }
        if sender != k.owner {
          operators := saved;
          return Fail(SENDER_IS_NOT_OWNER);
        }
        match updates[i] {
          case AddOperator(_) => operators := operators + {k};
          case RemoveOperator(_) => operators := operators - {k};
        }
        i := i + 1;
      }
      r := Ok(());
    }

    method TransferAdministrator(sender: Address, proposed: Address) returns (r: Result<()>)
      requires Valid(State())
      modifies this
      ensures Valid(State())
      ensures TransferAdministratorStep(old(State()), sender, proposed).Ok? ==> r == Ok(()) && State() == TransferAdministratorStep(old(State()), sender, proposed).value
      ensures TransferAdministratorStep(old(State()), sender, proposed).Fail? ==> r == Fail(NOT_ADMIN) && State() == old(State())
    {
      if sender != administrator {
        return Fail(NOT_ADMIN);
      }
      proposedAdministrator := Some(proposed);
      r := Ok(());
    }

    method AcceptAdministrator(sender: Address) returns (r: Result<()>)
      requires Valid(State())
      modifies this
      ensures Valid(State())
      ensures AcceptAdministratorStep(old(State()), sender).Ok? ==> r == Ok(()) && State() == AcceptAdministratorStep(old(State()), sender).value
      ensures AcceptAdministratorStep(old(State()), sender).Fail? ==> r == Fail(AcceptAdministratorStep(old(State()), sender).msg) && State() == old(State())
    {
      if proposedAdministrator.None? {
        return Fail(NO_NEW_ADMIN);
      }
      if sender != proposedAdministrator.value {
        return Fail(NOT_PROPOSED_ADMIN);
      }
      administrator := sender;
      proposedAdministrator := None;
      r := Ok(());
    }
  }
}

/**
 * The simplified FA2 (TZIP-12) token contract of fa2.py: a ledger of
 * `(owner, token_id) -> balance`, the total supply and metadata of each
 * token, an operator set, an administrator and a pause flag.
 *
 * Each entry point is a `...Step` function from the storage before the call
 * to the storage after it, or to the FAILWITH message (a failing call
 * changes nothing). The class `Fa2Contract` holds the same fields and runs
 * the entry points in place, with the source's loops; its methods are proved
 * to agree with the step functions.
 */
module Fa2 {
  import opened Tezos
  import opened Sums
  import opened Tzip12

  const NOT_ADMIN := "FA2_NOT_ADMIN"
  const NOT_ADMIN_OR_OPERATOR := "FA2_NOT_ADMIN_OR_OPERATOR"
  const NOT_OPERATOR := "FA2_NOT_OPERATOR"
  const TOKEN_UNDEFINED := "FA2_TOKEN_UNDEFINED"
  const INSUFFICIENT_BALANCE := "FA2_INSUFFICIENT_BALANCE"
  const PAUSED := "FA2_PAUSED"
  const NOT_CONSECUTIVE := "Token-IDs should be consecutive"
  /** A big-map lookup `m[k]` of an absent key fails; SmartPy picks that error, the model only distinguishes it. */
  const MISSING_KEY := "missing big map key"

  datatype TokenMetadata = TokenMetadata(tokenId: nat, tokenInfo: map<string, Bytes>)

  /** The storage, without the contract metadata big map. A ledger value is its `balance`. */
  datatype Storage = Storage(
    administrator: Address,
    ledger: map<LedgerKey, nat>,
    totalSupply: map<nat, nat>,
    tokenMetadata: map<nat, TokenMetadata>,
    operators: set<OperatorKey>,
    allTokens: nat,
    paused: bool)

  datatype MintParams = MintParams(address: Address, amount: nat, metadata: map<string, Bytes>, tokenId: nat)

  function Origination(administrator: Address): (s: Storage)
    ensures Valid(s)
  {
    Storage(administrator, map[], map[], map[], {}, 0, false)
  }

  // ---------------------------------------------------------------- guards

  predicate IsAdministrator(s: Storage, sender: Address)
  {
    sender == s.administrator
  }

  predicate IsAdministratorOrOwner(s: Storage, sender: Address, owner: Address)
  {
    sender == s.administrator || sender == owner
  }

  /** Who may move `owner`'s editions of `tokenId`: the administrator, the owner, or a registered operator. */
  predicate IsOperator(s: Storage, sender: Address, owner: Address, tokenId: nat)
  {
    sender == s.administrator || sender == owner || OperatorKey(owner, sender, tokenId) in s.operators
  }

  /** A token exists when its metadata row exists. */
  predicate TokenExists(s: Storage, tokenId: nat)
  {
    tokenId in s.tokenMetadata
  }

  // --------------------------------------------------------------- balances

  /** The balance of `owner` in `tokenId`, 0 when there is no ledger row. */
  function Balance(s: Storage, owner: Address, tokenId: nat): nat
  {
    Get(s.ledger, (owner, tokenId))
  }

  /**
   * The storage invariant: the ids with metadata, and those with a supply,
   * are exactly 0 .. all_tokens - 1; every ledger row is for such an id; and
   * each supply is the sum of that token's balances.
   */
  ghost predicate Valid(s: Storage)
  {
    WellFormed(s) && SupplyIsSum(s)
  }

  /** The key sets of the invariant. */
  ghost predicate WellFormed(s: Storage)
  {
    && (forall id: nat :: id in s.tokenMetadata <==> id < s.allTokens)
    && (forall id: nat :: id in s.totalSupply <==> id < s.allTokens)
    && (forall k :: k in s.ledger ==> k.1 < s.allTokens)
  }

  /** Each supply is the sum of that token's balances. */
  ghost predicate SupplyIsSum(s: Storage)
  {
    SupplyMatches(s.ledger, s.totalSupply)
  }

  // ------------------------------------------------------------------- mint

  /** `ledger[key] += amount` when the row exists, `ledger[key] = amount` otherwise. */
  function Credit(ledger: map<LedgerKey, nat>, key: LedgerKey, amount: nat): (l: map<LedgerKey, nat>)
    ensures l.Keys == ledger.Keys + {key}
    ensures l[key] == Get(ledger, key) + amount
    ensures forall k :: k in ledger && k != key ==> l[k] == ledger[k]
  {
    if key in ledger then ledger[key := ledger[key] + amount] else ledger[key := amount]
  }

  /** The `mint` entry point. */
  function MintStep(s: Storage, sender: Address, p: MintParams): Result<Storage>
  {
    if !IsAdministrator(s, sender) then Fail(NOT_ADMIN)
    else
      var ledger := Credit(s.ledger, (p.address, p.tokenId), p.amount);
      if p.tokenId < s.allTokens then
        if p.tokenId !in s.totalSupply then Fail(MISSING_KEY)
        else Ok(s.(ledger := ledger, totalSupply := s.totalSupply[p.tokenId := s.totalSupply[p.tokenId] + p.amount]))
      else if s.allTokens != p.tokenId then Fail(NOT_CONSECUTIVE)
      else
        Ok(s.(ledger := ledger,
              totalSupply := s.totalSupply[p.tokenId := p.amount],
              tokenMetadata := s.tokenMetadata[p.tokenId := TokenMetadata(p.tokenId, p.metadata)],
              allTokens := s.allTokens + 1))
  }

  /** Only the administrator mints; ids are consecutive; an existing id only gains balance and supply. */
  lemma MintSpec(s: Storage, sender: Address, p: MintParams)
    requires WellFormed(s)
    ensures !IsAdministrator(s, sender) ==> MintStep(s, sender, p) == Fail(NOT_ADMIN)
    ensures IsAdministrator(s, sender) && p.tokenId > s.allTokens ==> MintStep(s, sender, p) == Fail(NOT_CONSECUTIVE)
    ensures IsAdministrator(s, sender) && p.tokenId <= s.allTokens ==> MintStep(s, sender, p).Ok?
    ensures MintStep(s, sender, p).Ok? ==>
      var s' := MintStep(s, sender, p).value;
      && Balance(s', p.address, p.tokenId) == Balance(s, p.address, p.tokenId) + p.amount
      && (forall o: Address, id: nat :: (o, id) != (p.address, p.tokenId) ==> Balance(s', o, id) == Balance(s, o, id))
      && s'.administrator == s.administrator && s'.operators == s.operators && s'.paused == s.paused
      && (p.tokenId < s.allTokens ==>
            && s'.totalSupply == s.totalSupply[p.tokenId := s.totalSupply[p.tokenId] + p.amount]
            && s'.tokenMetadata == s.tokenMetadata && s'.allTokens == s.allTokens)
      && (p.tokenId == s.allTokens ==>
            && s'.totalSupply == s.totalSupply[p.tokenId := p.amount]
            && s'.tokenMetadata == s.tokenMetadata[p.tokenId := TokenMetadata(p.tokenId, p.metadata)]
            && s'.allTokens == s.allTokens + 1)
  {
  }

  /** Crediting `amount` to a row adds `amount` to the sum of that row's token only. */
  lemma CreditSum(ledger: map<LedgerKey, nat>, key: LedgerKey, amount: nat, tokenId: nat)
    ensures TokenSum(Credit(ledger, key, amount), tokenId) == TokenSum(ledger, tokenId) + (if tokenId == key.1 then amount else 0)
  {
    assert Credit(ledger, key, amount) == ledger[key := Get(ledger, key) + amount];
    TokenSumUpdate(ledger, key, Get(ledger, key) + amount, tokenId);
  }

  /** `mint` keeps the storage invariant: supply and balance grow together. */
  lemma MintValid(s: Storage, sender: Address, p: MintParams)
    requires Valid(s)
    requires MintStep(s, sender, p).Ok?
    ensures Valid(MintStep(s, sender, p).value)
  {
    MintWellFormed(s, sender, p);
    assert s.allTokens !in s.totalSupply;
    MintSupply(s, sender, p);
  }

  lemma MintSupply(s: Storage, sender: Address, p: MintParams)
    requires SupplyIsSum(s) && s.allTokens !in s.totalSupply
    requires forall k :: k in s.ledger ==> k.1 < s.allTokens
    requires MintStep(s, sender, p).Ok?
    ensures SupplyIsSum(MintStep(s, sender, p).value)
  {
    if p.tokenId == s.allTokens {
      TokenSumEmpty(s.ledger, p.tokenId);
    }
    MintLedgerAndSupply(s, sender, p);
    CreditKeepsSupplyIsSum(s.ledger, s.totalSupply, (p.address, p.tokenId), p.amount);
  }

  /** A successful mint credits the row and raises the token's supply by the minted amount. */
  lemma MintLedgerAndSupply(s: Storage, sender: Address, p: MintParams)
    requires s.allTokens !in s.totalSupply
    requires MintStep(s, sender, p).Ok?
    ensures MintStep(s, sender, p).value.ledger == Credit(s.ledger, (p.address, p.tokenId), p.amount)
    ensures MintStep(s, sender, p).value.totalSupply == s.totalSupply[p.tokenId := Get(s.totalSupply, p.tokenId) + p.amount]
  {
  }

  lemma MintWellFormed(s: Storage, sender: Address, p: MintParams)
    requires WellFormed(s)
    requires MintStep(s, sender, p).Ok?
    ensures WellFormed(MintStep(s, sender, p).value)
  {
    var s' := MintStep(s, sender, p).value;
    if p.tokenId == s.allTokens {
      forall id: nat ensures id in s'.tokenMetadata <==> id < s'.allTokens {
        assert id in s'.tokenMetadata <==> id in s.tokenMetadata || id == p.tokenId;
      }
      forall id: nat ensures id in s'.totalSupply <==> id < s'.allTokens {
        assert id in s'.totalSupply <==> id in s.totalSupply || id == p.tokenId;
      }
    }
  }

  /** Crediting a row and raising its token's supply by the same amount keeps supplies equal to sums. */
  lemma CreditKeepsSupplyIsSum(ledger: map<LedgerKey, nat>, supply: map<nat, nat>, key: LedgerKey, amount: nat)
    requires SupplyMatches(ledger, supply)
    requires key.1 !in supply ==> TokenSum(ledger, key.1) == 0
    ensures SupplyMatches(Credit(ledger, key, amount), supply[key.1 := Get(supply, key.1) + amount])
  {
    var supply', ledger' := supply[key.1 := Get(supply, key.1) + amount], Credit(ledger, key, amount);
    forall id | id in supply' ensures supply'[id] == TokenSum(ledger', id) {
      CreditSum(ledger, key, amount, id);
    }
  }

  // --------------------------------------------------------------- transfer

  /** One `tx` of a transfer from `from`: the checks of fa2.py, then the debit and the credit. */
  function TxStep(s: Storage, sender: Address, from: Address, tx: Tx): Result<Storage>
  {
    if !IsOperator(s, sender, from, tx.tokenId) then Fail(NOT_OPERATOR)
    else if !TokenExists(s, tx.tokenId) then Fail(TOKEN_UNDEFINED)
    else if tx.amount == 0 then Ok(s)
    else
      var key := (from, tx.tokenId);
      if key !in s.ledger then Fail(MISSING_KEY)
      else if s.ledger[key] < tx.amount then Fail(INSUFFICIENT_BALANCE)
      else
        Ok(s.(ledger := Move(s.ledger, key, (tx.to, tx.tokenId), tx.amount)))
  }

  /** The `txs` of one transfer, in order; the first failure aborts. */
  function TxsStep(s: Storage, sender: Address, from: Address, txs: seq<Tx>): Result<Storage>
    decreases |txs|
  {
    if txs == [] then Ok(s)
    else match TxStep(s, sender, from, txs[0])
      case Fail(e) => Fail(e)
      case Ok(s1) => TxsStep(s1, sender, from, txs[1..])
  }

  /** The transfers of a batch, in order. */
  function TransfersStep(s: Storage, sender: Address, batch: seq<TransferParam>): Result<Storage>
    decreases |batch|
  {
    if batch == [] then Ok(s)
    else match TxsStep(s, sender, batch[0].from, batch[0].txs)
      case Fail(e) => Fail(e)
      case Ok(s1) => TransfersStep(s1, sender, batch[1..])
  }

  /** The `transfer` entry point. */
  function TransferStep(s: Storage, sender: Address, batch: seq<TransferParam>): Result<Storage>
  {
    if s.paused then Fail(PAUSED) else TransfersStep(s, sender, batch)
  }

  /** What a storage step may change: only the ledger. */
  predicate SameButLedger(s: Storage, s': Storage)
  {
    s'.(ledger := s.ledger) == s
  }

  /**
   * A single tx fails exactly when the sender is not allowed, the token is
   * undefined, or (for a non-zero amount) the owner's row is missing or too
   * small; otherwise `amount` editions move from `from` to `to`, every other
   * balance is unchanged, and only the ledger changes.
   */
  lemma TxSpec(s: Storage, sender: Address, from: Address, tx: Tx)
    ensures !IsOperator(s, sender, from, tx.tokenId) ==> TxStep(s, sender, from, tx) == Fail(NOT_OPERATOR)
    ensures IsOperator(s, sender, from, tx.tokenId) && !TokenExists(s, tx.tokenId) ==>
      TxStep(s, sender, from, tx) == Fail(TOKEN_UNDEFINED)
    ensures TxStep(s, sender, from, tx).Ok? <==>
      && IsOperator(s, sender, from, tx.tokenId) && TokenExists(s, tx.tokenId)
      && (tx.amount > 0 ==> (from, tx.tokenId) in s.ledger && s.ledger[(from, tx.tokenId)] >= tx.amount)
    ensures TxStep(s, sender, from, tx).Ok? ==>
      var s' := TxStep(s, sender, from, tx).value;
      && SameButLedger(s, s')
      && (tx.amount == 0 ==> s' == s)
      && (from != tx.to ==>
            && Balance(s', from, tx.tokenId) == Balance(s, from, tx.tokenId) - tx.amount
            && Balance(s', tx.to, tx.tokenId) == Balance(s, tx.to, tx.tokenId) + tx.amount)
      && Balance(s', from, tx.tokenId) + Balance(s', tx.to, tx.tokenId) == Balance(s, from, tx.tokenId) + Balance(s, tx.to, tx.tokenId)
      && (forall o: Address, id: nat :: (o, id) != (from, tx.tokenId) && (o, id) != (tx.to, tx.tokenId) ==> Balance(s', o, id) == Balance(s, o, id))
  {
  }

  /** A missing owner row and a short balance are told apart, both only for a non-zero amount. */
  lemma TxBalanceErrors(s: Storage, sender: Address, from: Address, tx: Tx)
    requires IsOperator(s, sender, from, tx.tokenId) && TokenExists(s, tx.tokenId) && tx.amount > 0
    ensures (from, tx.tokenId) !in s.ledger ==> TxStep(s, sender, from, tx) == Fail(MISSING_KEY)
    ensures (from, tx.tokenId) in s.ledger && s.ledger[(from, tx.tokenId)] < tx.amount ==>
      TxStep(s, sender, from, tx) == Fail(INSUFFICIENT_BALANCE)
  {
  }

  /** The debit of `from` followed by the credit of `to` (same token), as fa2.py writes them. */
  function Move(ledger: map<LedgerKey, nat>, from: LedgerKey, to: LedgerKey, amount: nat): map<LedgerKey, nat>
    requires from in ledger && ledger[from] >= amount
  {
    Credit(ledger[from := ledger[from] - amount], to, amount)
  }

  lemma MoveConserves(ledger: map<LedgerKey, nat>, from: LedgerKey, to: LedgerKey, amount: nat, tokenId: nat)
    requires from in ledger && ledger[from] >= amount && from.1 == to.1
    ensures TokenSum(Move(ledger, from, to, amount), tokenId) == TokenSum(ledger, tokenId)
  {
    var debit := ledger[from] - amount;
    var debited := ledger[from := debit];
    var credit := Get(debited, to) + amount;
    assert Move(ledger, from, to, amount) == debited[to := credit];
    TokenSumUpdate(ledger, from, debit, tokenId);
    TokenSumUpdate(debited, to, credit, tokenId);
    if tokenId == from.1 {
      assert Get(ledger, from) == debit + amount;
    }
  }

  /** A tx keeps the sum of balances of every token. */
  lemma TxConserves(s: Storage, sender: Address, from: Address, tx: Tx, tokenId: nat)
    requires TxStep(s, sender, from, tx).Ok?
    ensures TokenSum(TxStep(s, sender, from, tx).value.ledger, tokenId) == TokenSum(s.ledger, tokenId)
  {
    if tx.amount > 0 {
      MoveConserves(s.ledger, (from, tx.tokenId), (tx.to, tx.tokenId), tx.amount, tokenId);
    }
  }

  /** A tx keeps the storage invariant. */
  lemma TxValid(s: Storage, sender: Address, from: Address, tx: Tx)
    requires Valid(s) && TxStep(s, sender, from, tx).Ok?
    ensures Valid(TxStep(s, sender, from, tx).value)
  {
    var s' := TxStep(s, sender, from, tx).value;
    forall id | id in s'.totalSupply ensures s'.totalSupply[id] == TokenSum(s'.ledger, id) {
      TxConserves(s, sender, from, tx, id);
    }
  }

  /** Every tx of a successful `transfer` was authorized and named an existing token. */
  ghost predicate AllAuthorized(s: Storage, sender: Address, batch: seq<TransferParam>)
  {
    forall i, j :: 0 <= i < |batch| && 0 <= j < |batch[i].txs| ==>
      IsOperator(s, sender, batch[i].from, batch[i].txs[j].tokenId) && TokenExists(s, batch[i].txs[j].tokenId)
  }

  lemma {:induction false} TxsSpec(s: Storage, sender: Address, from: Address, txs: seq<Tx>)
    requires Valid(s)
    requires TxsStep(s, sender, from, txs).Ok?
    ensures var s' := TxsStep(s, sender, from, txs).value;
      SameButLedger(s, s') && Valid(s') && (forall id :: TokenSum(s'.ledger, id) == TokenSum(s.ledger, id))
    ensures forall j :: 0 <= j < |txs| ==> IsOperator(s, sender, from, txs[j].tokenId) && TokenExists(s, txs[j].tokenId)
    decreases |txs|
  {
    if txs != [] {
      var s1 := TxStep(s, sender, from, txs[0]).value;
      TxValid(s, sender, from, txs[0]);
      forall id ensures TokenSum(s1.ledger, id) == TokenSum(s.ledger, id) {
        TxConserves(s, sender, from, txs[0], id);
      }
      TxsSpec(s1, sender, from, txs[1..]);
      forall j | 0 <= j < |txs| ensures IsOperator(s, sender, from, txs[j].tokenId) && TokenExists(s, txs[j].tokenId) {
        if j > 0 { assert txs[j] == txs[1..][j - 1]; }
      }
    }
  }

  lemma {:induction false} TransfersSpec(s: Storage, sender: Address, batch: seq<TransferParam>)
    requires Valid(s)
    requires TransfersStep(s, sender, batch).Ok?
    ensures var s' := TransfersStep(s, sender, batch).value;
      SameButLedger(s, s') && Valid(s') && (forall id :: TokenSum(s'.ledger, id) == TokenSum(s.ledger, id))
    ensures AllAuthorized(s, sender, batch)
    decreases |batch|
  {
    if batch != [] {
      TxsSpec(s, sender, batch[0].from, batch[0].txs);
      var s1 := TxsStep(s, sender, batch[0].from, batch[0].txs).value;
      TransfersSpec(s1, sender, batch[1..]);
      forall i, j | 0 <= i < |batch| && 0 <= j < |batch[i].txs|
        ensures IsOperator(s, sender, batch[i].from, batch[i].txs[j].tokenId) && TokenExists(s, batch[i].txs[j].tokenId)
      {
        if i > 0 { assert batch[i] == batch[1..][i - 1]; }
      }
    }
  }

  /**
   * `transfer`: a paused contract refuses every batch; a successful batch was
   * authorized tx by tx, changes only the ledger, keeps every token's sum of
   * balances and so keeps the storage invariant.
   */
  lemma TransferSpec(s: Storage, sender: Address, batch: seq<TransferParam>)
    requires Valid(s)
    ensures s.paused ==> TransferStep(s, sender, batch) == Fail(PAUSED)
    ensures TransferStep(s, sender, batch).Ok? ==>
      var s' := TransferStep(s, sender, batch).value;
      && !s.paused && AllAuthorized(s, sender, batch)
      && SameButLedger(s, s') && Valid(s')
      && (forall id :: TokenSum(s'.ledger, id) == TokenSum(s.ledger, id))
  {
    if !s.paused && TransfersStep(s, sender, batch).Ok? {
      TransfersSpec(s, sender, batch);
    }
  }

  // ------------------------------------------------------- update_operators

  function UpdateOperatorStep(s: Storage, sender: Address, u: OperatorUpdate): Result<Storage>
  {
    if !IsAdministratorOrOwner(s, sender, u.key.owner) then Fail(NOT_ADMIN_OR_OPERATOR)
    else match u
      case AddOperator(k) => Ok(s.(operators := s.operators + {k}))
      case RemoveOperator(k) => Ok(s.(operators := s.operators - {k}))
  }

  /** The `update_operators` entry point: the updates in order; the first failure aborts. */
  function UpdateOperatorsStep(s: Storage, sender: Address, updates: seq<OperatorUpdate>): Result<Storage>
    decreases |updates|
  {
    if updates == [] then Ok(s)
    else match UpdateOperatorStep(s, sender, updates[0])
      case Fail(e) => Fail(e)
      case Ok(s1) => UpdateOperatorsStep(s1, sender, updates[1..])
  }

  /** An update succeeds exactly for the administrator or the owner, and changes only the operator set. */
  lemma {:induction false} UpdateOperatorsSpec(s: Storage, sender: Address, updates: seq<OperatorUpdate>)
    ensures UpdateOperatorsStep(s, sender, updates).Ok? <==>
      forall i :: 0 <= i < |updates| ==> IsAdministratorOrOwner(s, sender, updates[i].key.owner)
    ensures UpdateOperatorsStep(s, sender, updates).Fail? ==>
      UpdateOperatorsStep(s, sender, updates) == Fail(NOT_ADMIN_OR_OPERATOR)
    ensures UpdateOperatorsStep(s, sender, updates).Ok? ==>
      UpdateOperatorsStep(s, sender, updates).value == s.(operators := UpdateOperatorsStep(s, sender, updates).value.operators)
    ensures UpdateOperatorsStep(s, sender, updates).Ok? ==>
      LastUpdateDecides(s.operators, updates, UpdateOperatorsStep(s, sender, updates).value.operators)
    decreases |updates|
  {
    if updates != [] {
      if UpdateOperatorStep(s, sender, updates[0]).Ok? {
        var s1 := UpdateOperatorStep(s, sender, updates[0]).value;
        UpdateOperatorsSpec(s1, sender, updates[1..]);
        assert s1.operators == Updated(s.operators, updates[0]);
        if UpdateOperatorsStep(s, sender, updates).Ok? {
          LastUpdateCons(s.operators, updates, UpdateOperatorsStep(s, sender, updates).value.operators);
        }
        assert forall i :: 1 <= i < |updates| ==> updates[i] == updates[1..][i - 1];
        assert forall i :: 0 <= i < |updates| - 1 ==> updates[1..][i] == updates[i + 1];
      }
    }
  }

  /** Adding and then removing the same operator leaves the set without it, as it was if it was absent. */
  lemma AddThenRemove(s: Storage, sender: Address, k: OperatorKey)
    requires IsAdministratorOrOwner(s, sender, k.owner)
    ensures UpdateOperatorsStep(s, sender, [AddOperator(k), RemoveOperator(k)]) == Ok(s.(operators := s.operators - {k}))
    ensures k !in s.operators ==> UpdateOperatorsStep(s, sender, [AddOperator(k), RemoveOperator(k)]) == Ok(s)
  {
    var s1 := s.(operators := s.operators + {k});
    var s2 := s.(operators := s.operators - {k});
    assert UpdateOperatorStep(s, sender, AddOperator(k)) == Ok(s1);
    assert s1.operators - {k} == s.operators - {k};
    assert UpdateOperatorStep(s1, sender, RemoveOperator(k)) == Ok(s2);
    assert UpdateOperatorsStep(s1, sender, [RemoveOperator(k)]) == Ok(s2) by {
      assert [RemoveOperator(k)][1..] == [];
    }
    assert [AddOperator(k), RemoveOperator(k)][1..] == [RemoveOperator(k)];
    if k !in s.operators {
      assert s.operators - {k} == s.operators;
    }
  }

  // ------------------------------------------------------ admin, pause

  function SetAdministratorStep(s: Storage, sender: Address, administrator: Address): Result<Storage>
  {
    if !IsAdministrator(s, sender) then Fail(NOT_ADMIN) else Ok(s.(administrator := administrator))
  }

  function SetPauseStep(s: Storage, sender: Address, pause: bool): Result<Storage>
  {
    if !IsAdministrator(s, sender) then Fail(NOT_ADMIN) else Ok(s.(paused := pause))
  }

  /** Both are administrator-only and change only their own field, keeping the invariant. */
  lemma AdminStepsSpec(s: Storage, sender: Address, administrator: Address, pause: bool)
    ensures SetAdministratorStep(s, sender, administrator).Ok? <==> sender == s.administrator
    ensures SetPauseStep(s, sender, pause).Ok? <==> sender == s.administrator
    ensures SetAdministratorStep(s, sender, administrator).Fail? ==> SetAdministratorStep(s, sender, administrator).msg == NOT_ADMIN
    ensures SetPauseStep(s, sender, pause).Fail? ==> SetPauseStep(s, sender, pause).msg == NOT_ADMIN
    ensures SetAdministratorStep(s, sender, administrator).Ok? ==>
      var s' := SetAdministratorStep(s, sender, administrator).value;
      s'.administrator == administrator && s'.(administrator := s.administrator) == s && (Valid(s) ==> Valid(s'))
    ensures SetPauseStep(s, sender, pause).Ok? ==>
      var s' := SetPauseStep(s, sender, pause).value;
      s'.paused == pause && s'.(paused := s.paused) == s && (Valid(s) ==> Valid(s'))
  {
  }

  // ------------------------------------------------------------------ views

  /** `get_balance`: fails for an undefined token, and (a plain lookup) for an absent row. */
  function GetBalance(s: Storage, owner: Address, tokenId: nat): Result<nat>
  {
    if !TokenExists(s, tokenId) then Fail(TOKEN_UNDEFINED)
    else if (owner, tokenId) !in s.ledger then Fail(MISSING_KEY)
    else Ok(s.ledger[(owner, tokenId)])
  }

  function DoesTokenExist(s: Storage, tokenId: nat): bool
  {
    tokenId in s.tokenMetadata
  }

  function CountTokens(s: Storage): nat
  {
    s.allTokens
  }

  /** `all_tokens`: `sp.range(0, all_tokens)`. */
  function AllTokens(s: Storage): (ids: seq<nat>)
    ensures |ids| == s.allTokens
    ensures forall i :: 0 <= i < |ids| ==> ids[i] == i
  {
    seq(s.allTokens, i requires 0 <= i => i)
  }

  /** `total_supply`: a plain lookup, which fails for an absent id. */
  function TotalSupply(s: Storage, tokenId: nat): Result<nat>
  {
    if tokenId !in s.totalSupply then Fail(MISSING_KEY) else Ok(s.totalSupply[tokenId])
  }

  predicate IsOperatorView(s: Storage, key: OperatorKey)
  {
    key in s.operators
  }

  /**
   * On a valid storage the views agree: a token exists iff it is listed by
   * `all_tokens` iff it has a supply, and that supply is the sum of its
   * balances; a defined balance is at most the supply.
   */
  lemma ViewsAgree(s: Storage, owner: Address, tokenId: nat)
    requires Valid(s)
    ensures DoesTokenExist(s, tokenId) <==> tokenId < CountTokens(s)
    ensures DoesTokenExist(s, tokenId) <==> tokenId in AllTokens(s)
    ensures DoesTokenExist(s, tokenId) <==> TotalSupply(s, tokenId).Ok?
    ensures TotalSupply(s, tokenId).Ok? ==> TotalSupply(s, tokenId).value == TokenSum(s.ledger, tokenId)
    ensures GetBalance(s, owner, tokenId).Ok? ==> GetBalance(s, owner, tokenId).value <= TotalSupply(s, tokenId).value
  {
    if tokenId < s.allTokens {
      assert AllTokens(s)[tokenId] == tokenId;
    }
    if GetBalance(s, owner, tokenId).Ok? {
      var m := TokenLedger(s.ledger, tokenId);
      MapSumRemove(m, (owner, tokenId));
    }
  }

  // ------------------------------------------------------------ the contract

  /** The contract, its storage updated in place by its entry points. */
  class Fa2Contract {
    var administrator: Address
    var ledger: map<LedgerKey, nat>
    var totalSupply: map<nat, nat>
    var tokenMetadata: map<nat, TokenMetadata>
    var operators: set<OperatorKey>
    var allTokens: nat
    var paused: bool

    function State(): Storage
      reads this
    {
      Storage(administrator, ledger, totalSupply, tokenMetadata, operators, allTokens, paused)
    }

    /** Origination with an empty ledger. */
    constructor (administrator: Address)
      ensures State() == Origination(administrator)
    {
      this.administrator := administrator;
      ledger, totalSupply, tokenMetadata, operators := map[], map[], map[], {};
      allTokens, paused := 0, false;
    }

    method Mint(sender: Address, p: MintParams) returns (r: Result<()>)
      requires Valid(State())
      modifies this
      ensures Valid(State())
      ensures MintStep(old(State()), sender, p).Ok? ==> r == Ok(()) && State() == MintStep(old(State()), sender, p).value
      ensures MintStep(old(State()), sender, p).Fail? ==> r == Fail(MintStep(old(State()), sender, p).msg) && State() == old(State())
    {
      if MintStep(State(), sender, p).Ok? {
        MintValid(State(), sender, p);
      }
      if sender != administrator {
        return Fail(NOT_ADMIN);
      }
      var key := (p.address, p.tokenId);
      if p.tokenId < allTokens {
        if p.tokenId !in totalSupply {
          return Fail(MISSING_KEY);
        }
        ledger := Credit(ledger, key, p.amount);
        totalSupply := totalSupply[p.tokenId := totalSupply[p.tokenId] + p.amount];
      } else if allTokens != p.tokenId {
        return Fail(NOT_CONSECUTIVE);
      } else {
        ledger := Credit(ledger, key, p.amount);
        totalSupply := totalSupply[p.tokenId := p.amount];
        tokenMetadata := tokenMetadata[p.tokenId := TokenMetadata(p.tokenId, p.metadata)];
        allTokens := allTokens + 1;
      }
      r := Ok(());
    }

    /** The inner loop: the txs of one transfer, applied to `ledger` in place. */
    method ApplyTxs(sender: Address, from: Address, txs: seq<Tx>) returns (r: Result<()>)
      modifies this`ledger
      ensures TxsStep(old(State()), sender, from, txs).Ok? ==> r == Ok(()) && State() == TxsStep(old(State()), sender, from, txs).value
      ensures TxsStep(old(State()), sender, from, txs).Fail? ==> r == Fail(TxsStep(old(State()), sender, from, txs).msg)
    {
      var j := 0;
      while j < |txs|
        invariant 0 <= j <= |txs|
        invariant TxsStep(old(State()), sender, from, txs) == TxsStep(State(), sender, from, txs[j..])
      {
        var tx := txs[j];
        assert txs[j..][0] == tx && txs[j..][1..] == txs[j + 1..];
        if !(sender == administrator || sender == from || OperatorKey(from, sender, tx.tokenId) in operators) {
          return Fail(NOT_OPERATOR);
        }
        if tx.tokenId !in tokenMetadata {
          return Fail(TOKEN_UNDEFINED);
        }
        if tx.amount > 0 {
          var ownerKey := (from, tx.tokenId);
          if ownerKey !in ledger {
            return Fail(MISSING_KEY);
          }
          if ledger[ownerKey] < tx.amount {
            return Fail(INSUFFICIENT_BALANCE);
          }
          ledger := Move(ledger, ownerKey, (tx.to, tx.tokenId), tx.amount);
        }
        j := j + 1;
      }
      r := Ok(());
    }

    /** The `transfer` entry point: the nested loops of fa2.py; a failure reverts the ledger. */
    method Transfer(sender: Address, batch: seq<TransferParam>) returns (r: Result<()>)
      requires Valid(State())
      modifies this
      ensures Valid(State())
      ensures TransferStep(old(State()), sender, batch).Ok? ==> r == Ok(()) && State() == TransferStep(old(State()), sender, batch).value
      ensures TransferStep(old(State()), sender, batch).Fail? ==> r == Fail(TransferStep(old(State()), sender, batch).msg) && State() == old(State())
    {
      TransferSpec(State(), sender, batch);
      if paused {
        return Fail(PAUSED);
      }
      var saved := ledger;
      var i := 0;
      while i < |batch|
        invariant 0 <= i <= |batch|
        invariant old(State()).(ledger := ledger) == State()
        invariant TransfersStep(old(State()), sender, batch) == TransfersStep(State(), sender, batch[i..])
      {
        assert batch[i..][0] == batch[i] && batch[i..][1..] == batch[i + 1..];
        var res := ApplyTxs(sender, batch[i].from, batch[i].txs);
        if res.Fail? {
          ledger := saved;
          return res;
        }
        i := i + 1;
      }
      r := Ok(());
    }

    method UpdateOperators(sender: Address, updates: seq<OperatorUpdate>) returns (r: Result<()>)
      requires Valid(State())
      modifies this
      ensures Valid(State())
      ensures UpdateOperatorsStep(old(State()), sender, updates).Ok? ==> r == Ok(()) && State() == UpdateOperatorsStep(old(State()), sender, updates).value
      ensures UpdateOperatorsStep(old(State()), sender, updates).Fail? ==> r == Fail(UpdateOperatorsStep(old(State()), sender, updates).msg) && State() == old(State())
    {
      UpdateOperatorsSpec(State(), sender, updates);
      var saved := operators;
      var i := 0;
      while i < |updates|
        invariant 0 <= i <= |updates|
        invariant old(State()).(operators := operators) == State()
        invariant UpdateOperatorsStep(old(State()), sender, updates) == UpdateOperatorsStep(State(), sender, updates[i..])
      {
        assert updates[i..][0] == updates[i] && updates[i..][1..] == updates[i + 1..];
        var u := updates[i];
        if !(sender == administrator || sender == u.key.owner) {
          operators := saved;
          return Fail(NOT_ADMIN_OR_OPERATOR);
        }
        match u {
          case AddOperator(k) => operators := operators + {k};
          case RemoveOperator(k) => operators := operators - {k};
        }
        i := i + 1;
      }
      r := Ok(());
    }

    method SetAdministrator(sender: Address, newAdministrator: Address) returns (r: Result<()>)
      requires Valid(State())
      modifies this
      ensures Valid(State())
      ensures SetAdministratorStep(old(State()), sender, newAdministrator).Ok? ==> r == Ok(()) && State() == SetAdministratorStep(old(State()), sender, newAdministrator).value
      ensures SetAdministratorStep(old(State()), sender, newAdministrator).Fail? ==> r == Fail(NOT_ADMIN) && State() == old(State())
    {
      AdminStepsSpec(State(), sender, newAdministrator, paused);
      if sender != administrator {
        return Fail(NOT_ADMIN);
      }
      administrator := newAdministrator;
      r := Ok(());
    }

    method SetPause(sender: Address, pause: bool) returns (r: Result<()>)
      requires Valid(State())
      modifies this
      ensures Valid(State())
      ensures SetPauseStep(old(State()), sender, pause).Ok? ==> r == Ok(()) && State() == SetPauseStep(old(State()), sender, pause).value
      ensures SetPauseStep(old(State()), sender, pause).Fail? ==> r == Fail(NOT_ADMIN) && State() == old(State())
    {
      AdminStepsSpec(State(), sender, administrator, pause);
      if sender != administrator {
        return Fail(NOT_ADMIN);
      }
      paused := pause;
      r := Ok(());
    }
  }
}

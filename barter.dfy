/**
 * The custodial barter contract of swap.py (`BarterContract`). Either user
 * proposes a trade of `tokens1` plus `mutezAmount` of `user1` against
 * `tokens2` of `user2`; each user accepts by escrowing their side into the
 * contract, and may cancel to get it back; the trade executes when the
 * trigger of `accept_trade` fires. A manager keeps an allow-list of FA2
 * contracts whose tokens may be traded.
 *
 * Each entry point is a `...Step` function from the storage and the call's
 * context to the new storage and the emitted operations, or to the failure
 * message; the class `BarterContract` runs them in place.
 */
module Barter {
  import opened Tezos
  import opened Sums

  const NOT_MANAGER := "This can only be executed by the contract manager"
  const NOT_USER := "This can only be executed by one of the trade users"
  const NO_TEZ := "The operation does not need tez transfers"
  const NO_SUCH_TRADE := "The provided trade id doesn't exist"
  const EXECUTED_BEFORE := "The trade was executed before"
  const SAME_USERS := "The users involved in the trade need to be different"
  const NOT_ALLOWED := "This token type cannot be traded"
  const NO_EDITIONS := "At least one token edition needs to be traded"
  const ALREADY_ACCEPTED := "The trade is already accepted"
  const WRONG_AMOUNT := "The sent tez amount does not coincide trade proposal amount"
  const NOT_ACCEPTED_BEFORE := "The trade was not accepted before"
  const NOT_BOTH_ACCEPTED := "One of the users didn't accept the trade"

  datatype Proposal = Proposal(
    user1: Address,
    user2: Address,
    mutezAmount: Mutez,
    tokens1: seq<Token>,
    tokens2: seq<Token>)

  datatype Trade = Trade(user1Accepted: bool, user2Accepted: bool, executed: bool, proposal: Proposal)

  datatype Storage = Storage(
    manager: Address,
    allowedFa2s: map<Address, bool>,
    trades: map<nat, Trade>,
    counter: nat)

  /** A successful call: the new storage and the operations it emits, in order. */
  datatype Effect = Effect(storage: Storage, ops: seq<Op>)

  function Origination(manager: Address, allowedFa2s: map<Address, bool>): (s: Storage)
    ensures Valid(s) && Escrowed(s) == 0
  {
    Storage(manager, allowedFa2s, map[], 0)
  }

  // ---------------------------------------------------------------- guards

  predicate IsManager(s: Storage, env: Env)
  {
    env.sender == s.manager
  }

  predicate IsUser(env: Env, p: Proposal)
  {
    env.sender == p.user1 || env.sender == p.user2
  }

  predicate NoTez(env: Env)
  {
    env.amount == 0
  }

  /** `allowed_fa2s.get(fa2, default_value=False)`. */
  predicate IsAllowed(s: Storage, fa2: Address)
  {
    fa2 in s.allowedFa2s && s.allowedFa2s[fa2]
  }

  /** `check_trade_not_executed`: the trade exists and is not executed; it is returned. */
  function CheckNotExecuted(s: Storage, tradeId: nat): (r: Result<Trade>)
    ensures r.Ok? <==> tradeId in s.trades && !s.trades[tradeId].executed
    ensures r.Ok? ==> r.value == s.trades[tradeId]
    ensures r.Fail? ==> r.msg == (if tradeId !in s.trades then NO_SUCH_TRADE else EXECUTED_BEFORE)
  {
    if tradeId !in s.trades then Fail(NO_SUCH_TRADE)
    else if s.trades[tradeId].executed then Fail(EXECUTED_BEFORE)
    else Ok(s.trades[tradeId])
  }

  /**
   * The checks of one side's legs, in order: the FA2 contract is allowed and
   * the edition count is `>= 0`. The latter holds of every natural number,
   * so only a contract off the allow-list is ever refused: a leg of 0
   * editions passes.
   */
  function CheckLegs(s: Storage, legs: seq<Token>): (r: Result<()>)
    ensures r.Ok? <==> forall i :: 0 <= i < |legs| ==> IsAllowed(s, legs[i].fa2)
    ensures r.Fail? ==> r.msg == NOT_ALLOWED
    decreases |legs|
  {
    if legs == [] then Ok(())
    else if !IsAllowed(s, legs[0].fa2) then Fail(NOT_ALLOWED)
    else if !(legs[0].amount >= 0) then Fail(NO_EDITIONS)
    else
      var r := CheckLegs(s, legs[1..]);
      assert forall i :: 1 <= i < |legs| ==> legs[i] == legs[1..][i - 1];
      r
  }

  // -------------------------------------------------------------- invariant

  /** What every stored trade satisfies: distinct users, and an executed trade was accepted by both. */
  predicate TradeValid(t: Trade)
  {
    && t.proposal.user1 != t.proposal.user2
    && (t.executed ==> t.user1Accepted && t.user2Accepted)
  }

  ghost predicate Valid(s: Storage)
  {
    forall id :: id in s.trades ==> id < s.counter && TradeValid(s.trades[id])
  }

  /** A trade whose user 1's tez are held by the contract. */
  predicate Holds(t: Trade)
  {
    t.user1Accepted && !t.executed
  }

  function Held(t: Trade): Mutez
  {
    if Holds(t) then t.proposal.mutezAmount else 0
  }

  /** The tez held per trade. */
  function EscrowMap(trades: map<nat, Trade>): (m: map<nat, Mutez>)
    ensures forall id :: id in m <==> id in trades && Holds(trades[id])
    ensures forall id :: id in m ==> m[id] == trades[id].proposal.mutezAmount
  {
    map id | id in trades && Holds(trades[id]) :: trades[id].proposal.mutezAmount
  }

  /** The tez the contract owes: the sum over the open trades user 1 has accepted. */
  ghost function Escrowed(s: Storage): nat
  {
    MapSum(EscrowMap(s.trades))
  }

  lemma EscrowHolding(trades: map<nat, Trade>, id: nat, t: Trade)
    requires Holds(t)
    ensures EscrowMap(trades[id := t]) == EscrowMap(trades)[id := t.proposal.mutezAmount]
  {
    var e, e' := EscrowMap(trades), EscrowMap(trades[id := t]);
    assert e'.Keys == e.Keys + {id};
  }

  lemma EscrowReleasing(trades: map<nat, Trade>, id: nat, t: Trade)
    requires !Holds(t)
    ensures EscrowMap(trades[id := t]) == EscrowMap(trades) - {id}
  {
    var e, e' := EscrowMap(trades), EscrowMap(trades[id := t]);
    assert e'.Keys == e.Keys - {id};
  }

  /** Replacing one trade changes the escrow by the difference of what the two records hold. */
  lemma EscrowUpdate(trades: map<nat, Trade>, id: nat, t: Trade)
    ensures MapSum(EscrowMap(trades[id := t])) + (if id in trades then Held(trades[id]) else 0)
         == MapSum(EscrowMap(trades)) + Held(t)
  {
    var e := EscrowMap(trades);
    var before := if id in trades then Held(trades[id]) else 0;
    assert Get(e, id) == before;
    if Holds(t) {
      EscrowHolding(trades, id, t);
      MapSumUpdate(e, id, t.proposal.mutezAmount);
    } else {
      EscrowReleasing(trades, id, t);
      if id in e {
        MapSumRemove(e, id);
      } else {
        assert e - {id} == e;
      }
    }
  }

  // ----------------------------------------------------------- propose_trade

  /** The `propose_trade` entry point. */
  function ProposeStep(s: Storage, env: Env, p: Proposal): Result<Effect>
  {
    if !IsUser(env, p) then Fail(NOT_USER)
    else if p.user1 == p.user2 then Fail(SAME_USERS)
    else if !NoTez(env) then Fail(NO_TEZ)
    else if CheckLegs(s, p.tokens1).Fail? then Fail(CheckLegs(s, p.tokens1).msg)
    else if CheckLegs(s, p.tokens2).Fail? then Fail(CheckLegs(s, p.tokens2).msg)
    else Ok(Effect(s.(trades := s.trades[s.counter := Trade(false, false, false, p)], counter := s.counter + 1), []))
  }

  /**
   * `propose_trade` succeeds exactly when a user of the trade proposes it,
   * the users differ, no tez come with it and every leg's FA2 contract is
   * allowed (a leg of 0 editions included); it then stores the trade with
   * no acceptance at the old counter, bumps the counter and emits nothing.
   */
  lemma ProposeSpec(s: Storage, env: Env, p: Proposal)
    ensures !IsUser(env, p) ==> ProposeStep(s, env, p) == Fail(NOT_USER)
    ensures IsUser(env, p) && p.user1 == p.user2 ==> ProposeStep(s, env, p) == Fail(SAME_USERS)
    ensures IsUser(env, p) && p.user1 != p.user2 && !NoTez(env) ==> ProposeStep(s, env, p) == Fail(NO_TEZ)
    ensures ProposeStep(s, env, p).Ok? <==>
      && IsUser(env, p) && p.user1 != p.user2 && NoTez(env)
      && (forall i :: 0 <= i < |p.tokens1| ==> IsAllowed(s, p.tokens1[i].fa2))
      && (forall i :: 0 <= i < |p.tokens2| ==> IsAllowed(s, p.tokens2[i].fa2))
    ensures ProposeStep(s, env, p).Fail? ==> ProposeStep(s, env, p).msg in {NOT_USER, SAME_USERS, NO_TEZ, NOT_ALLOWED}
    ensures ProposeStep(s, env, p).Ok? ==>
      ProposeStep(s, env, p).value == Effect(s.(trades := s.trades[s.counter := Trade(false, false, false, p)], counter := s.counter + 1), [])
  {
  }

  // ------------------------------------------------------------ execute_trade

  /** The operations of an execution: user 1's tez and tokens to user 2, user 2's tokens to user 1. */
  function ExecuteOps(p: Proposal, self: Address): (ops: seq<Op>)
    ensures TezOut(ops) == p.mutezAmount
  {
    var tez := SendIfNonZero(p.user2, p.mutezAmount);
    var legs1, legs2 := LegTransfers(p.tokens1, self, p.user2), LegTransfers(p.tokens2, self, p.user1);
    TezOutAppend(tez, legs1);
    TezOutAppend(tez + legs1, legs2);
    TezOutLegTransfers(p.tokens1, self, p.user2);
    TezOutLegTransfers(p.tokens2, self, p.user1);
    tez + legs1 + legs2
  }

  /** `execute_trade`. */
  function ExecuteTrade(s: Storage, env: Env, tradeId: nat): Result<Effect>
  {
    if !NoTez(env) then Fail(NO_TEZ)
    else match CheckNotExecuted(s, tradeId)
      case Fail(e) => Fail(e)
      case Ok(t) =>
        if !IsUser(env, t.proposal) then Fail(NOT_USER)
        else if !(t.user1Accepted && t.user2Accepted) then Fail(NOT_BOTH_ACCEPTED)
        else Ok(Effect(s.(trades := s.trades[tradeId := t.(executed := true)]), ExecuteOps(t.proposal, env.self)))
  }

  // ------------------------------------------------------------- accept_trade

  /** The trade after the sender's acceptance: their flag set. */
  function Accepted(t: Trade, sender: Address): Trade
  {
    if sender == t.proposal.user1 then t.(user1Accepted := true) else t.(user2Accepted := true)
  }

  /** The transfers escrowing the sender's side into the contract. */
  function EscrowIn(t: Trade, env: Env): seq<Op>
  {
    if env.sender == t.proposal.user1 then LegTransfers(t.proposal.tokens1, env.sender, env.self)
    else LegTransfers(t.proposal.tokens2, env.sender, env.self)
  }

  /** `accept_trade` up to its trigger: the sender's flag is set and their side is escrowed into the contract. */
  function RecordAcceptance(s: Storage, env: Env, tradeId: nat): Result<Effect>
  {
    match CheckNotExecuted(s, tradeId)
    case Fail(e) => Fail(e)
    case Ok(t) =>
      if !IsUser(env, t.proposal) then Fail(NOT_USER)
      else if env.sender == t.proposal.user1 then
        if t.user1Accepted then Fail(ALREADY_ACCEPTED)
        else if env.amount != t.proposal.mutezAmount then Fail(WRONG_AMOUNT)
        else Ok(Effect(s.(trades := s.trades[tradeId := Accepted(t, env.sender)]), EscrowIn(t, env)))
      else
        if t.user2Accepted then Fail(ALREADY_ACCEPTED)
        else if !NoTez(env) then Fail(NO_TEZ)
        else Ok(Effect(s.(trades := s.trades[tradeId := Accepted(t, env.sender)]), EscrowIn(t, env)))
  }

  /** `accept_trade` once the acceptance is recorded: the execution starts when the trigger holds of the updated trade. */
  function AcceptThen(e1: Effect, env: Env, tradeId: nat, trigger: bool): Result<Effect>
  {
    if trigger then
      match ExecuteTrade(e1.storage, env, tradeId)
      case Fail(e) => Fail(e)
      case Ok(e2) => Ok(Effect(e2.storage, e1.ops + e2.ops))
    else Ok(e1)
  }

  /**
   * The `accept_trade` entry point: the execution starts once both users
   * have accepted.
   */
  function AcceptStep(s: Storage, env: Env, tradeId: nat): Result<Effect>
  {
    match RecordAcceptance(s, env, tradeId)
    case Fail(e) => Fail(e)
    case Ok(e1) =>
      var t := s.trades[tradeId];
      var t' := Accepted(t, env.sender);
      AcceptThen(e1, env, tradeId, t'.user1Accepted && t'.user2Accepted)
  }

  /** `accept_trade` as written: its trigger tests user 2's flag twice, and never user 1's. */
  function AcceptStepAsWritten(s: Storage, env: Env, tradeId: nat): Result<Effect>
  {
    match RecordAcceptance(s, env, tradeId)
    case Fail(e) => Fail(e)
    case Ok(e1) =>
      var t := s.trades[tradeId];
      var t' := Accepted(t, env.sender);
      AcceptThen(e1, env, tradeId, t'.user2Accepted && t'.user2Accepted)
  }

  /**
   * `accept_trade` succeeds exactly when the trade is open, the sender is one
   * of its users who has not accepted yet, and the tez attached are
   * `mutezAmount` for user 1 and none for user 2 (and none at all when the
   * other user has accepted already, since the execution demands none). The
   * sender's side is escrowed into the contract; when the other user had
   * accepted, the trade is executed in the same call. The failures come in
   * the order of the checks.
   */
  lemma AcceptSpec(s: Storage, env: Env, tradeId: nat)
    ensures var r := AcceptStep(s, env, tradeId);
      && (tradeId !in s.trades ==> r == Fail(NO_SUCH_TRADE))
      && (tradeId in s.trades && s.trades[tradeId].executed ==> r == Fail(EXECUTED_BEFORE))
      && (tradeId in s.trades && !s.trades[tradeId].executed && !IsUser(env, s.trades[tradeId].proposal) ==> r == Fail(NOT_USER))
    ensures tradeId in s.trades ==>
      var t := s.trades[tradeId];
      var p := t.proposal;
      var mine := if env.sender == p.user1 then t.user1Accepted else t.user2Accepted;
      var theirs := if env.sender == p.user1 then t.user2Accepted else t.user1Accepted;
      var due := if env.sender == p.user1 then p.mutezAmount else 0;
      var r := AcceptStep(s, env, tradeId);
      && (!t.executed && IsUser(env, p) && mine ==> r == Fail(ALREADY_ACCEPTED))
      && (!t.executed && IsUser(env, p) && !mine && env.amount != due ==>
            r == Fail(if env.sender == p.user1 then WRONG_AMOUNT else NO_TEZ))
      && (!t.executed && IsUser(env, p) && !mine && env.amount == due && theirs && !NoTez(env) ==> r == Fail(NO_TEZ))
      && (r.Ok? <==> !t.executed && IsUser(env, p) && !mine && env.amount == due && (theirs ==> NoTez(env)))
      && (r.Ok? && !theirs ==>
            r.value == Effect(s.(trades := s.trades[tradeId := Accepted(t, env.sender)]), EscrowIn(t, env)))
      && (r.Ok? && theirs ==>
            r.value == Effect(s.(trades := s.trades[tradeId := t.(user1Accepted := true, user2Accepted := true, executed := true)]),
                              EscrowIn(t, env) + ExecuteOps(p, env.self)))
  {
  }

  // ------------------------------------------------------ the trigger finding

  /**
   * As written, user 2 accepting first aborts the call: the trigger fires
   * on user 2's flag alone and `execute_trade` then finds user 1's missing.
   */
  lemma User2FirstAborts(s: Storage, env: Env, tradeId: nat)
    requires tradeId in s.trades
    requires var t := s.trades[tradeId];
      && t == Trade(false, false, false, t.proposal)
      && t.proposal.user1 != t.proposal.user2 && env.sender == t.proposal.user2 && NoTez(env)
    ensures AcceptStepAsWritten(s, env, tradeId) == Fail(NOT_BOTH_ACCEPTED)
  {
  }

  /**
   * As written, an acceptance by user 2 always starts the execution, so a
   * successful call never leaves user 2's flag set on an open trade.
   */
  lemma AsWrittenUser2NeverWaits(s: Storage, env: Env, tradeId: nat)
    requires AcceptStepAsWritten(s, env, tradeId).Ok?
    ensures var t' := AcceptStepAsWritten(s, env, tradeId).value.storage.trades[tradeId];
      t'.user2Accepted ==> t'.executed
  {
  }

  /**
   * With the intended trigger, user 2 may accept first: the acceptance is
   * recorded and user 2's tokens are escrowed, without executing.
   */
  lemma User2FirstRecorded(s: Storage, env: Env, tradeId: nat)
    requires tradeId in s.trades
    requires var t := s.trades[tradeId];
      && t == Trade(false, false, false, t.proposal)
      && t.proposal.user1 != t.proposal.user2 && env.sender == t.proposal.user2 && NoTez(env)
    ensures var t := s.trades[tradeId];
      AcceptStep(s, env, tradeId) ==
        Ok(Effect(s.(trades := s.trades[tradeId := t.(user2Accepted := true)]), LegTransfers(t.proposal.tokens2, env.sender, env.self)))
  {
  }

  /** No acceptance fails because one of the users has not accepted. */
  lemma AcceptNeverMissesAUser(s: Storage, env: Env, tradeId: nat)
    ensures AcceptStep(s, env, tradeId) != Fail(NOT_BOTH_ACCEPTED)
  {
    match RecordAcceptance(s, env, tradeId)
    case Fail(e) =>
      assert e in {NO_SUCH_TRADE, EXECUTED_BEFORE, NOT_USER, ALREADY_ACCEPTED, WRONG_AMOUNT, NO_TEZ};
    case Ok(e1) =>
  }

  /**
   * The two triggers agree on every call except user 2 accepting before
   * user 1: in particular whenever user 1 accepts first.
   */
  lemma TriggersAgree(s: Storage, env: Env, tradeId: nat)
    requires tradeId in s.trades
    requires s.trades[tradeId].user1Accepted || (env.sender == s.trades[tradeId].proposal.user1 && !s.trades[tradeId].user2Accepted)
    ensures AcceptStepAsWritten(s, env, tradeId) == AcceptStep(s, env, tradeId)
  {
  }

  /**
   * The trigger as written, on every call: it differs from the corrected one
   * exactly when user 2 accepts before user 1, and the call then aborts with
   * "One of the users didn't accept the trade"; otherwise every property of
   * `AcceptStep` holds for it too.
   */
  lemma AsWrittenSpec(s: Storage, env: Env, tradeId: nat)
    ensures AcceptStepAsWritten(s, env, tradeId) ==
      if AcceptStep(s, env, tradeId).Ok? && env.sender != s.trades[tradeId].proposal.user1 && !s.trades[tradeId].user1Accepted
      then Fail(NOT_BOTH_ACCEPTED)
      else AcceptStep(s, env, tradeId)
  {
  }

  // ------------------------------------------------------------- cancel_trade

  /** The transfers returning the sender's escrowed side, tez first. */
  function EscrowOut(t: Trade, env: Env): seq<Op>
  {
    if env.sender == t.proposal.user1 then
      SendIfNonZero(env.sender, t.proposal.mutezAmount) + LegTransfers(t.proposal.tokens1, env.self, env.sender)
    else LegTransfers(t.proposal.tokens2, env.self, env.sender)
  }

  /** The trade after the sender's cancellation: their flag cleared. */
  function Withdrawn(t: Trade, sender: Address): Trade
  {
    if sender == t.proposal.user1 then t.(user1Accepted := false) else t.(user2Accepted := false)
  }

  /** The `cancel_trade` entry point: the sender's flag is cleared and their escrowed side comes back. */
  function CancelStep(s: Storage, env: Env, tradeId: nat): Result<Effect>
  {
    if !NoTez(env) then Fail(NO_TEZ)
    else match CheckNotExecuted(s, tradeId)
      case Fail(e) => Fail(e)
      case Ok(t) =>
        if !IsUser(env, t.proposal) then Fail(NOT_USER)
        else if env.sender == t.proposal.user1 && !t.user1Accepted then Fail(NOT_ACCEPTED_BEFORE)
        else if env.sender != t.proposal.user1 && !t.user2Accepted then Fail(NOT_ACCEPTED_BEFORE)
        else Ok(Effect(s.(trades := s.trades[tradeId := Withdrawn(t, env.sender)]), EscrowOut(t, env)))
  }

  /**
   * `cancel_trade` succeeds exactly for a user of an open trade who has
   * accepted it, with no tez attached: it clears only that user's flag and
   * gives back what they escrowed, user 1's tez (when not zero) before the
   * tokens. The failures come in the order of the checks.
   */
  lemma CancelSpec(s: Storage, env: Env, tradeId: nat)
    ensures !NoTez(env) ==> CancelStep(s, env, tradeId) == Fail(NO_TEZ)
    ensures NoTez(env) && tradeId !in s.trades ==> CancelStep(s, env, tradeId) == Fail(NO_SUCH_TRADE)
    ensures NoTez(env) && tradeId in s.trades && s.trades[tradeId].executed ==> CancelStep(s, env, tradeId) == Fail(EXECUTED_BEFORE)
    ensures tradeId in s.trades ==>
      var t := s.trades[tradeId];
      var p := t.proposal;
      var mine := if env.sender == p.user1 then t.user1Accepted else t.user2Accepted;
      var r := CancelStep(s, env, tradeId);
      && (NoTez(env) && !t.executed && !IsUser(env, p) ==> r == Fail(NOT_USER))
      && (NoTez(env) && !t.executed && IsUser(env, p) && !mine ==> r == Fail(NOT_ACCEPTED_BEFORE))
      && (r.Ok? <==> NoTez(env) && !t.executed && IsUser(env, p) && mine)
      && (r.Ok? && env.sender == p.user1 ==>
            r.value == Effect(s.(trades := s.trades[tradeId := t.(user1Accepted := false)]),
                              SendIfNonZero(env.sender, p.mutezAmount) + LegTransfers(p.tokens1, env.self, env.sender)))
      && (r.Ok? && env.sender != p.user1 ==>
            r.value == Effect(s.(trades := s.trades[tradeId := t.(user2Accepted := false)]),
                              LegTransfers(p.tokens2, env.self, env.sender)))
  {
  }

  /** Accepting and then cancelling restores the trade and returns exactly what was escrowed. */
  lemma AcceptThenCancel(s: Storage, env: Env, tradeId: nat)
    requires tradeId in s.trades && !s.trades[tradeId].user1Accepted && !s.trades[tradeId].user2Accepted
    requires AcceptStep(s, env, tradeId).Ok?
    ensures var t := s.trades[tradeId];
      var e1 := AcceptStep(s, env, tradeId).value;
      && CancelStep(e1.storage, env.(amount := 0), tradeId) == Ok(Effect(s, EscrowOut(t, env)))
      && TezOut(EscrowOut(t, env)) == env.amount
  {
    var t := s.trades[tradeId];
    var env' := env.(amount := 0);
    var s1 := AcceptStep(s, env, tradeId).value.storage;
    assert s1 == s.(trades := s.trades[tradeId := Accepted(t, env.sender)]);
    assert Withdrawn(Accepted(t, env.sender), env.sender) == t;
    assert s1.trades[tradeId := t] == s.trades;
    assert EscrowOut(Accepted(t, env.sender), env') == EscrowOut(t, env);
    assert CancelStep(s1, env', tradeId) == Ok(Effect(s1.(trades := s1.trades[tradeId := t]), EscrowOut(t, env)));
    TezOutLegTransfers(t.proposal.tokens1, env.self, env.sender);
    TezOutLegTransfers(t.proposal.tokens2, env.self, env.sender);
    TezOutAppend(SendIfNonZero(env.sender, t.proposal.mutezAmount), LegTransfers(t.proposal.tokens1, env.self, env.sender));
  }

  // ---------------------------------------------------------------- manager

  function UpdateManagerStep(s: Storage, env: Env, manager: Address): Result<Storage>
  {
    if !IsManager(s, env) then Fail(NOT_MANAGER)
    else if !NoTez(env) then Fail(NO_TEZ)
    else Ok(s.(manager := manager))
  }

  function AddFa2Step(s: Storage, env: Env, fa2: Address): Result<Storage>
  {
    if !IsManager(s, env) then Fail(NOT_MANAGER)
    else if !NoTez(env) then Fail(NO_TEZ)
    else Ok(s.(allowedFa2s := s.allowedFa2s[fa2 := true]))
  }

  function RemoveFa2Step(s: Storage, env: Env, fa2: Address): Result<Storage>
  {
    if !IsManager(s, env) then Fail(NOT_MANAGER)
    else if !NoTez(env) then Fail(NO_TEZ)
    else Ok(s.(allowedFa2s := s.allowedFa2s[fa2 := false]))
  }

  /**
   * The manager entry points succeed exactly for the manager with no tez;
   * each changes only its own field; `add_fa2` and `remove_fa2` set one
   * entry to true or false, so the allow-list only gains keys.
   */
  lemma ManagerSpec(s: Storage, env: Env, a: Address)
    ensures UpdateManagerStep(s, env, a).Ok? <==> IsManager(s, env) && NoTez(env)
    ensures AddFa2Step(s, env, a).Ok? <==> IsManager(s, env) && NoTez(env)
    ensures RemoveFa2Step(s, env, a).Ok? <==> IsManager(s, env) && NoTez(env)
    ensures !IsManager(s, env) ==>
      UpdateManagerStep(s, env, a) == AddFa2Step(s, env, a) == RemoveFa2Step(s, env, a) == Fail(NOT_MANAGER)
    ensures IsManager(s, env) && !NoTez(env) ==>
      UpdateManagerStep(s, env, a) == AddFa2Step(s, env, a) == RemoveFa2Step(s, env, a) == Fail(NO_TEZ)
    ensures UpdateManagerStep(s, env, a).Ok? ==> UpdateManagerStep(s, env, a).value == s.(manager := a)
    ensures AddFa2Step(s, env, a).Ok? ==>
      var s' := AddFa2Step(s, env, a).value;
      s'.(allowedFa2s := s.allowedFa2s) == s && IsAllowed(s', a) && s'.allowedFa2s.Keys == s.allowedFa2s.Keys + {a}
      && (forall f :: f != a ==> (IsAllowed(s', f) <==> IsAllowed(s, f)))
    ensures RemoveFa2Step(s, env, a).Ok? ==>
      var s' := RemoveFa2Step(s, env, a).value;
      s'.(allowedFa2s := s.allowedFa2s) == s && !IsAllowed(s', a) && s'.allowedFa2s.Keys == s.allowedFa2s.Keys + {a}
      && (forall f :: f != a ==> (IsAllowed(s', f) <==> IsAllowed(s, f)))
  {
  }

  // ------------------------------------------------------- global properties

  datatype Call =
    | Propose(p: Proposal)
    | Accept(acceptId: nat)
    | Cancel(cancelId: nat)
    | UpdateManager(manager: Address)
    | AddFa2(added: Address)
    | RemoveFa2(removed: Address)

  function Step(s: Storage, env: Env, c: Call): Result<Effect>
  {
    match c
    case Propose(p) => ProposeStep(s, env, p)
    case Accept(id) => AcceptStep(s, env, id)
    case Cancel(id) => CancelStep(s, env, id)
    case UpdateManager(m) => (match UpdateManagerStep(s, env, m) case Fail(e) => Fail(e) case Ok(s') => Ok(Effect(s', [])))
    case AddFa2(f) => (match AddFa2Step(s, env, f) case Fail(e) => Fail(e) case Ok(s') => Ok(Effect(s', [])))
    case RemoveFa2(f) => (match RemoveFa2Step(s, env, f) case Fail(e) => Fail(e) case Ok(s') => Ok(Effect(s', [])))
  }

  /** What each successful call guarantees about the storage it leaves and the operations it emits. */
  ghost predicate StepKeeps(s: Storage, env: Env, e: Effect)
  {
    && Valid(e.storage)
    && s.trades.Keys <= e.storage.trades.Keys && s.counter <= e.storage.counter
    && s.allowedFa2s.Keys <= e.storage.allowedFa2s.Keys
    && (forall id :: id in s.trades && s.trades[id].executed ==> e.storage.trades[id] == s.trades[id])
    && Escrowed(e.storage) + TezOut(e.ops) == Escrowed(s) + env.amount
  }

  /**
   * Every successful call keeps the invariant; never removes a trade or an
   * allow-list entry, nor lowers the counter; leaves executed trades
   * untouched; and keeps the tez accounting: what the contract owes
   * afterwards plus what it sends out equals what it owed before plus what
   * the call brought in.
   */
  lemma StepSpec(s: Storage, env: Env, c: Call)
    requires Valid(s) && Step(s, env, c).Ok?
    ensures StepKeeps(s, env, Step(s, env, c).value)
  {
    match c
    case Propose(p) =>
      assert s.counter !in s.trades;
      UpdateKeeps(s, env, s.counter, Trade(false, false, false, p), s.counter + 1, []);
    case Accept(id) => AcceptKeeps(s, env, id);
    case Cancel(id) => CancelKeeps(s, env, id);
    case UpdateManager(m) => assert Step(s, env, c).value == Effect(s.(manager := m), []);
    case AddFa2(f) => assert Step(s, env, c).value == Effect(s.(allowedFa2s := s.allowedFa2s[f := true]), []);
    case RemoveFa2(f) => assert Step(s, env, c).value == Effect(s.(allowedFa2s := s.allowedFa2s[f := false]), []);
  }

  /** Writing one trade record keeps all of it, given the record's own part of the accounting. */
  lemma UpdateKeeps(s: Storage, env: Env, tradeId: nat, t: Trade, counter: nat, ops: seq<Op>)
    requires Valid(s) && s.counter <= counter && tradeId < counter && TradeValid(t)
    requires tradeId in s.trades ==> !s.trades[tradeId].executed
    requires Held(t) + TezOut(ops) == (if tradeId in s.trades then Held(s.trades[tradeId]) else 0) + env.amount
    ensures StepKeeps(s, env, Effect(s.(trades := s.trades[tradeId := t], counter := counter), ops))
  {
    EscrowUpdate(s.trades, tradeId, t);
  }

  lemma AcceptKeeps(s: Storage, env: Env, tradeId: nat)
    requires Valid(s) && AcceptStep(s, env, tradeId).Ok?
    ensures StepKeeps(s, env, AcceptStep(s, env, tradeId).value)
  {
    AcceptSpec(s, env, tradeId);
    var t := s.trades[tradeId];
    var p := t.proposal;
    TezOutLegTransfers(p.tokens1, env.sender, env.self);
    TezOutLegTransfers(p.tokens2, env.sender, env.self);
    var theirs := if env.sender == p.user1 then t.user2Accepted else t.user1Accepted;
    if theirs {
      TezOutAppend(EscrowIn(t, env), ExecuteOps(p, env.self));
      UpdateKeeps(s, env, tradeId, t.(user1Accepted := true, user2Accepted := true, executed := true), s.counter,
                  EscrowIn(t, env) + ExecuteOps(p, env.self));
    } else {
      UpdateKeeps(s, env, tradeId, Accepted(t, env.sender), s.counter, EscrowIn(t, env));
    }
  }

  lemma CancelKeeps(s: Storage, env: Env, tradeId: nat)
    requires Valid(s) && CancelStep(s, env, tradeId).Ok?
    ensures StepKeeps(s, env, CancelStep(s, env, tradeId).value)
  {
    var t := s.trades[tradeId];
    var p := t.proposal;
    TezOutLegTransfers(p.tokens1, env.self, env.sender);
    TezOutLegTransfers(p.tokens2, env.self, env.sender);
    TezOutAppend(SendIfNonZero(env.sender, p.mutezAmount), LegTransfers(p.tokens1, env.self, env.sender));
    UpdateKeeps(s, env, tradeId, Withdrawn(t, env.sender), s.counter, EscrowOut(t, env));
  }

  /** Once executed, a trade can neither be accepted nor cancelled again. */
  lemma ExecutedIsFinal(s: Storage, env: Env, env2: Env, tradeId: nat)
    requires AcceptStep(s, env, tradeId).Ok? && AcceptStep(s, env, tradeId).value.storage.trades[tradeId].executed
    ensures var s' := AcceptStep(s, env, tradeId).value.storage;
      && AcceptStep(s', env2, tradeId) == Fail(EXECUTED_BEFORE)
      && (NoTez(env2) ==> CancelStep(s', env2, tradeId) == Fail(EXECUTED_BEFORE))
  {
  }

  // ------------------------------------------------------------ the contract

  /** The contract at address `selfAddress`, its storage updated in place. */
  class BarterContract {
    const selfAddress: Address
    var manager: Address
    var allowedFa2s: map<Address, bool>
    var trades: map<nat, Trade>
    var counter: nat

    function State(): Storage
      reads this
    {
      Storage(manager, allowedFa2s, trades, counter)
    }

    constructor (selfAddress: Address, manager: Address, allowedFa2s: map<Address, bool>)
      ensures this.selfAddress == selfAddress && State() == Origination(manager, allowedFa2s)
    {
      this.selfAddress := selfAddress;
      this.manager := manager;
      this.allowedFa2s := allowedFa2s;
      trades, counter := map[], 0;
    }

    /** The loop over one side's legs in `propose_trade`. */
    method CheckLegsInPlace(legs: seq<Token>) returns (r: Result<()>)
      ensures r == CheckLegs(State(), legs)
    {
      var i := 0;
      while i < |legs|
        invariant 0 <= i <= |legs|
        invariant forall j :: 0 <= j < i ==> IsAllowed(State(), legs[j].fa2)
      {
        if !(legs[i].fa2 in allowedFa2s && allowedFa2s[legs[i].fa2]) {
          return Fail(NOT_ALLOWED);
        }
        if !(legs[i].amount >= 0) {
          return Fail(NO_EDITIONS);
        }
        i := i + 1;
      }
      assert CheckLegs(State(), legs).Ok? && CheckLegs(State(), legs).value == ();
      r := Ok(());
    }

    /** The `propose_trade` entry point. */
    method ProposeTrade(sender: Address, amount: Mutez, p: Proposal) returns (r: Result<seq<Op>>)
      modifies this
      ensures var res := ProposeStep(old(State()), Env(sender, amount, selfAddress), p);
        && (res.Ok? ==> r == Ok(res.value.ops) && State() == res.value.storage)
        && (res.Fail? ==> r == Fail(res.msg) && State() == old(State()))
    {
      if !(sender == p.user1 || sender == p.user2) {
        return Fail(NOT_USER);
      }
      if p.user1 == p.user2 {
        return Fail(SAME_USERS);
      }
      if amount != 0 {
        return Fail(NO_TEZ);
      }
      var checked := CheckLegsInPlace(p.tokens1);
      if checked.Fail? {
        return Fail(checked.msg);
      }
      checked := CheckLegsInPlace(p.tokens2);
      if checked.Fail? {
        return Fail(checked.msg);
      }
      trades := trades[counter := Trade(false, false, false, p)];
      counter := counter + 1;
      r := Ok([]);
    }

    /** The legs `legs`, moved from `from` to `to`, appended to `ops`. */
    method EmitLegTransfers(ops: seq<Op>, legs: seq<Token>, from: Address, to: Address) returns (ops': seq<Op>)
      ensures ops' == ops + LegTransfers(legs, from, to)
    {
      ops' := ops;
      var i := 0;
      while i < |legs|
        invariant 0 <= i <= |legs|
        invariant ops' == ops + LegTransfers(legs[..i], from, to)
      {
        assert legs[..i + 1][..i] == legs[..i];
        ops' := ops' + [Transfer(legs[i].fa2, from, to, legs[i].id, legs[i].amount)];
        i := i + 1;
      }
      assert legs[..i] == legs;
    }

    /** `execute_trade`, on the stored trade `tradeId`. */
    method ExecuteTradeInPlace(sender: Address, amount: Mutez, tradeId: nat) returns (r: Result<seq<Op>>)
      modifies this`trades
      ensures var res := ExecuteTrade(old(State()), Env(sender, amount, selfAddress), tradeId);
        && (res.Ok? ==> r == Ok(res.value.ops) && State() == res.value.storage)
        && (res.Fail? ==> r == Fail(res.msg) && State() == old(State()))
    {
      if amount != 0 {
        return Fail(NO_TEZ);
      }
      if tradeId !in trades {
        return Fail(NO_SUCH_TRADE);
      }
      if trades[tradeId].executed {
        return Fail(EXECUTED_BEFORE);
      }
      var trade := trades[tradeId];
      var p := trade.proposal;
      if !(sender == p.user1 || sender == p.user2) {
        return Fail(NOT_USER);
      }
      if !(trade.user1Accepted && trade.user2Accepted) {
        return Fail(NOT_BOTH_ACCEPTED);
      }
      trades := trades[tradeId := trade.(executed := true)];
      var ops: seq<Op> := [];
      if p.mutezAmount != 0 {
        ops := ops + [Send(p.user2, p.mutezAmount)];
      }
      assert ops == SendIfNonZero(p.user2, p.mutezAmount);
      ops := EmitLegTransfers(ops, p.tokens1, selfAddress, p.user2);
      ops := EmitLegTransfers(ops, p.tokens2, selfAddress, p.user1);
      r := Ok(ops);
    }

    /** The `accept_trade` entry point, starting the execution once both users have accepted. */
    method AcceptTrade(sender: Address, amount: Mutez, tradeId: nat) returns (r: Result<seq<Op>>)
      modifies this
      ensures var res := AcceptStep(old(State()), Env(sender, amount, selfAddress), tradeId);
        && (res.Ok? ==> r == Ok(res.value.ops) && State() == res.value.storage)
        && (res.Fail? ==> r == Fail(res.msg) && State() == old(State()))
    {
      if tradeId !in trades {
        return Fail(NO_SUCH_TRADE);
      }
      if trades[tradeId].executed {
        return Fail(EXECUTED_BEFORE);
      }
      var trade := trades[tradeId];
      var p := trade.proposal;
      if !(sender == p.user1 || sender == p.user2) {
        return Fail(NOT_USER);
      }
      var ops: seq<Op>;
      if sender == p.user1 {
        if trade.user1Accepted {
          return Fail(ALREADY_ACCEPTED);
        }
        trade := trade.(user1Accepted := true);
        if amount != p.mutezAmount {
          return Fail(WRONG_AMOUNT);
        }
        ops := EmitLegTransfers([], p.tokens1, sender, selfAddress);
        assert ops == LegTransfers(p.tokens1, sender, selfAddress);
      } else {
        if trade.user2Accepted {
          return Fail(ALREADY_ACCEPTED);
        }
        trade := trade.(user2Accepted := true);
        if amount != 0 {
          return Fail(NO_TEZ);
        }
        ops := EmitLegTransfers([], p.tokens2, sender, selfAddress);
        assert ops == LegTransfers(p.tokens2, sender, selfAddress);
      }
      var saved := trades;
      trades := trades[tradeId := trade];
      if trade.user1Accepted && trade.user2Accepted {
        var executed := ExecuteTradeInPlace(sender, amount, tradeId);
        if executed.Fail? {
          trades := saved;
          return Fail(executed.msg);
        }
        ops := ops + executed.value;
      }
      r := Ok(ops);
    }

    /** The `cancel_trade` entry point. */
    method CancelTrade(sender: Address, amount: Mutez, tradeId: nat) returns (r: Result<seq<Op>>)
      modifies this
      ensures var res := CancelStep(old(State()), Env(sender, amount, selfAddress), tradeId);
        && (res.Ok? ==> r == Ok(res.value.ops) && State() == res.value.storage)
        && (res.Fail? ==> r == Fail(res.msg) && State() == old(State()))
    {
      if amount != 0 {
        return Fail(NO_TEZ);
      }
      if tradeId !in trades {
        return Fail(NO_SUCH_TRADE);
      }
      if trades[tradeId].executed {
        return Fail(EXECUTED_BEFORE);
      }
      var trade := trades[tradeId];
      var p := trade.proposal;
      if !(sender == p.user1 || sender == p.user2) {
        return Fail(NOT_USER);
      }
      var ops: seq<Op> := [];
      if sender == p.user1 {
        if !trade.user1Accepted {
          return Fail(NOT_ACCEPTED_BEFORE);
        }
        trades := trades[tradeId := trade.(user1Accepted := false)];
        if p.mutezAmount != 0 {
          ops := ops + [Send(sender, p.mutezAmount)];
        }
        assert ops == SendIfNonZero(sender, p.mutezAmount);
        ops := EmitLegTransfers(ops, p.tokens1, selfAddress, sender);
      } else {
        if !trade.user2Accepted {
          return Fail(NOT_ACCEPTED_BEFORE);
        }
        trades := trades[tradeId := trade.(user2Accepted := false)];
        ops := EmitLegTransfers(ops, p.tokens2, selfAddress, sender);
        assert ops == LegTransfers(p.tokens2, selfAddress, sender);
      }
      r := Ok(ops);
    }

    method UpdateManager(sender: Address, amount: Mutez, newManager: Address) returns (r: Result<()>)
      modifies this
      ensures var res := UpdateManagerStep(old(State()), Env(sender, amount, selfAddress), newManager);
        && (res.Ok? ==> r == Ok(()) && State() == res.value)
        && (res.Fail? ==> r == Fail(res.msg) && State() == old(State()))
    {
      if sender != manager {
        return Fail(NOT_MANAGER);
      }
      if amount != 0 {
        return Fail(NO_TEZ);
      }
      manager := newManager;
      r := Ok(());
    }

    method AddFa2(sender: Address, amount: Mutez, fa2: Address) returns (r: Result<()>)
      modifies this
      ensures var res := AddFa2Step(old(State()), Env(sender, amount, selfAddress), fa2);
        && (res.Ok? ==> r == Ok(()) && State() == res.value)
        && (res.Fail? ==> r == Fail(res.msg) && State() == old(State()))
    {
      if sender != manager {
        return Fail(NOT_MANAGER);
      }
      if amount != 0 {
        return Fail(NO_TEZ);
      }
      allowedFa2s := allowedFa2s[fa2 := true];
      r := Ok(());
    }

    method RemoveFa2(sender: Address, amount: Mutez, fa2: Address) returns (r: Result<()>)
      modifies this
      ensures var res := RemoveFa2Step(old(State()), Env(sender, amount, selfAddress), fa2);
        && (res.Ok? ==> r == Ok(()) && State() == res.value)
        && (res.Fail? ==> r == Fail(res.msg) && State() == old(State()))
    {
      if sender != manager {
        return Fail(NOT_MANAGER);
      }
      if amount != 0 {
        return Fail(NO_TEZ);
      }
      allowedFa2s := allowedFa2s[fa2 := false];
      r := Ok(());
    }
  }
}

/**
 * The trade escrow of contracts/xtzfa2swap.py. A proposer offers FA2 tokens
 * plus tez (`tokens1`, `mutezAmount1`) for FA2 tokens plus tez (`tokens2`,
 * `mutezAmount2`) of an acceptor, or of anyone when the acceptor is the
 * contract's own address. The proposer's tez are held by the contract from
 * `propose_trade` until `accept_trade` executes the trade or
 * `cancel_trade_proposal` refunds them; the tokens never leave their owners
 * until execution, which has the contract, as their operator, move them.
 *
 * Each entry point is a `...Step` function from the storage and the call's
 * context to the new storage and the emitted operations, or to the failure
 * message. The class `XtzFa2SwapContract` runs them in place.
 */
module XtzFa2Swap {
  import opened Tezos
  import opened Sums

  const NOT_PROPOSER := "This can only be executed by the trade proposer"
  const NOT_ACCEPTOR := "This can only be executed by the trade acceptor"
  const NO_TEZ := "The operation does not need tez"
  const NOT_COMPLETELY_ACCEPTED := "Trade is not completely accepted"
  const NO_SUCH_TRADE := "The provided trade id doesn't exist"
  const ALREADY_EXECUTED := "Trade already executed"
  const SAME_USERS := "The users involved in the trade need to be different"
  const NO_TOKENS1 := "At least one FA2 token needs to be traded by proposer"
  const NO_TOKENS2 := "At least one FA2 token needs to be traded by acceptor"
  const ALREADY_ACCEPTED := "The trade is already accepted"
  const WRONG_AMOUNT := "The sent tez amount does not coincide trade proposal amount"
  const NOT_ACCEPTED_BEFORE := "The trade was not accepted before"
  const NOT_BOTH_ACCEPTED := "One of the users didn't accept the trade"

  datatype Proposal = Proposal(
    proposer: Address,
    acceptor: Address,
    mutezAmount1: Mutez,
    mutezAmount2: Mutez,
    tokens1: seq<Token>,
    tokens2: seq<Token>)

  datatype Trade = Trade(proposerAccepted: bool, acceptorAccepted: bool, executed: bool, proposal: Proposal)

  /** The storage without the metadata big map. */
  datatype Storage = Storage(trades: map<nat, Trade>, counter: nat)

  /** A successful call: the new storage and the operations it emits, in order. */
  datatype Effect = Effect(storage: Storage, ops: seq<Op>)

  function Origination(): (s: Storage)
    ensures Valid(s) && Escrowed(s) == 0
  {
    Storage(map[], 0)
  }

  // ---------------------------------------------------------------- guards

  predicate IsProposer(env: Env, p: Proposal)
  {
    env.sender == p.proposer
  }

  /** Anyone may act as acceptor of a trade whose acceptor is the contract itself. */
  predicate IsAcceptor(env: Env, p: Proposal)
  {
    env.sender == p.acceptor || env.self == p.acceptor
  }

  predicate NoTez(env: Env)
  {
    env.amount == 0
  }

  predicate CompletelyAccepted(t: Trade)
  {
    t.proposerAccepted && t.acceptorAccepted
  }

  /** `check_trade_not_executed`: the trade exists and is not executed; it is returned. */
  function CheckNotExecuted(s: Storage, tradeId: nat): (r: Result<Trade>)
    ensures r.Ok? <==> tradeId in s.trades && !s.trades[tradeId].executed
    ensures r.Ok? ==> r.value == s.trades[tradeId]
    ensures r.Fail? ==> r.msg == (if tradeId !in s.trades then NO_SUCH_TRADE else ALREADY_EXECUTED)
  {
    if tradeId !in s.trades then Fail(NO_SUCH_TRADE)
    else if s.trades[tradeId].executed then Fail(ALREADY_EXECUTED)
    else Ok(s.trades[tradeId])
  }

  // -------------------------------------------------------------- invariant

  /** What every stored trade satisfies. */
  predicate TradeValid(t: Trade)
  {
    && (t.acceptorAccepted <==> t.executed)
    && (t.executed ==> t.proposerAccepted)
    && t.proposal.proposer != t.proposal.acceptor
    && |t.proposal.tokens1| > 0 && |t.proposal.tokens2| > 0
  }

  /** Trade ids are below the counter, so `propose_trade` never overwrites one; every trade is valid. */
  ghost predicate Valid(s: Storage)
  {
    forall id :: id in s.trades ==> id < s.counter && TradeValid(s.trades[id])
  }

  /** A trade whose proposer's tez are held by the contract. */
  predicate Holds(t: Trade)
  {
    t.proposerAccepted && !t.executed
  }

  /** The tez the contract holds for trade `t`. */
  function Held(t: Trade): Mutez
  {
    if Holds(t) then t.proposal.mutezAmount1 else 0
  }

  /** The tez held per trade. */
  function EscrowMap(trades: map<nat, Trade>): (m: map<nat, Mutez>)
    ensures forall id :: id in m <==> id in trades && Holds(trades[id])
    ensures forall id :: id in m ==> m[id] == trades[id].proposal.mutezAmount1
  {
    map id | id in trades && Holds(trades[id]) :: trades[id].proposal.mutezAmount1
  }

  /** The tez the contract owes: the sum over the open trades its proposer has accepted. */
  ghost function Escrowed(s: Storage): nat
  {
    MapSum(EscrowMap(s.trades))
  }

  /** Replacing one trade changes the escrow by the difference of what the two records hold. */
  lemma EscrowUpdate(trades: map<nat, Trade>, id: nat, t: Trade)
    ensures MapSum(EscrowMap(trades[id := t])) + (if id in trades then Held(trades[id]) else 0)
         == MapSum(EscrowMap(trades)) + Held(t)
  {
    var e := EscrowMap(trades);
    var before := if id in trades then Held(trades[id]) else 0;
    assert Get(e, id) == before;
    if Holds(t) {
      EscrowHolding(trades, id, t);
      MapSumUpdate(e, id, t.proposal.mutezAmount1);
    } else {
      EscrowReleasing(trades, id, t);
      if id in e {
        MapSumRemove(e, id);
      } else {
        assert e - {id} == e;
      }
    }
  }

  lemma EscrowHolding(trades: map<nat, Trade>, id: nat, t: Trade)
    requires Holds(t)
    ensures EscrowMap(trades[id := t]) == EscrowMap(trades)[id := t.proposal.mutezAmount1]
  {
    var e, e' := EscrowMap(trades), EscrowMap(trades[id := t]);
    assert e'.Keys == e.Keys + {id};
  }

  lemma EscrowReleasing(trades: map<nat, Trade>, id: nat, t: Trade)
    requires !Holds(t)
    ensures EscrowMap(trades[id := t]) == EscrowMap(trades) - {id}
  {
    var e, e' := EscrowMap(trades), EscrowMap(trades[id := t]);
    assert e'.Keys == e.Keys - {id};
  }

  // ----------------------------------------------------------- propose_trade

  /** The ownership probe: for each offered leg, in order, the leg to the contract and straight back. */
  function ProbeOps(tokens: seq<Token>, sender: Address, self: Address): (ops: seq<Op>)
    ensures |ops| == 2 * |tokens|
    ensures forall i :: 0 <= i < |tokens| ==>
      ops[2 * i] == LegTransfer(tokens[i], sender, self) && ops[2 * i + 1] == LegTransfer(tokens[i], self, sender)
  {
    if tokens == [] then []
    else
      var t := tokens[|tokens| - 1];
      ProbeOps(tokens[..|tokens| - 1], sender, self) + [LegTransfer(t, sender, self), LegTransfer(t, self, sender)]
  }

  lemma {:induction false} TezOutProbe(tokens: seq<Token>, sender: Address, self: Address)
    ensures TezOut(ProbeOps(tokens, sender, self)) == 0
    decreases |tokens|
  {
    if tokens != [] {
      var t := tokens[|tokens| - 1];
      var front := ProbeOps(tokens[..|tokens| - 1], sender, self);
      TezOutProbe(tokens[..|tokens| - 1], sender, self);
      TezOutAppend(front, [LegTransfer(t, sender, self), LegTransfer(t, self, sender)]);
      TezOutAppend([LegTransfer(t, sender, self)], [LegTransfer(t, self, sender)]);
      assert [LegTransfer(t, sender, self)][..0] == [];
    }
  }

  /** `accept_my_trade`: the proposer's acceptance, paying `mutezAmount1` into the contract. */
  function AcceptMyTrade(s: Storage, env: Env, tradeId: nat): Result<Storage>
  {
    match CheckNotExecuted(s, tradeId)
    case Fail(e) => Fail(e)
    case Ok(t) =>
      if !IsProposer(env, t.proposal) then Fail(NOT_PROPOSER)
      else if t.proposerAccepted then Fail(ALREADY_ACCEPTED)
      else if env.amount != t.proposal.mutezAmount1 then Fail(WRONG_AMOUNT)
      else Ok(s.(trades := s.trades[tradeId := t.(proposerAccepted := true)]))
  }

  /** The `propose_trade` entry point. */
  function ProposeStep(s: Storage, env: Env, p: Proposal): Result<Effect>
  {
    if !IsProposer(env, p) then Fail(NOT_PROPOSER)
    else if p.proposer == p.acceptor then Fail(SAME_USERS)
    else if |p.tokens1| == 0 then Fail(NO_TOKENS1)
    else if |p.tokens2| == 0 then Fail(NO_TOKENS2)
    else
      var s1 := s.(trades := s.trades[s.counter := Trade(false, false, false, p)]);
      match AcceptMyTrade(s1, env, s.counter)
      case Fail(e) => Fail(e)
      case Ok(s2) => Ok(Effect(s2.(counter := s.counter + 1), ProbeOps(p.tokens1, env.sender, env.self)))
  }

  /**
   * `propose_trade` fails, with the source's message and in its order, when
   * the sender is not the proposer, the two users are the same, either side
   * offers no token, or the attached tez differ from `mutezAmount1`;
   * otherwise it stores the proposal at the old counter, accepted by the
   * proposer only, bumps the counter, keeps every other trade, and emits the
   * ownership probe.
   */
  lemma ProposeSpec(s: Storage, env: Env, p: Proposal)
    ensures !IsProposer(env, p) ==> ProposeStep(s, env, p) == Fail(NOT_PROPOSER)
    ensures IsProposer(env, p) && p.proposer == p.acceptor ==> ProposeStep(s, env, p) == Fail(SAME_USERS)
    ensures IsProposer(env, p) && p.proposer != p.acceptor && |p.tokens1| == 0 ==> ProposeStep(s, env, p) == Fail(NO_TOKENS1)
    ensures IsProposer(env, p) && p.proposer != p.acceptor && |p.tokens1| > 0 && |p.tokens2| == 0 ==>
      ProposeStep(s, env, p) == Fail(NO_TOKENS2)
    ensures IsProposer(env, p) && p.proposer != p.acceptor && |p.tokens1| > 0 && |p.tokens2| > 0 && env.amount != p.mutezAmount1 ==>
      ProposeStep(s, env, p) == Fail(WRONG_AMOUNT)
    ensures ProposeStep(s, env, p).Ok? <==>
      IsProposer(env, p) && p.proposer != p.acceptor && |p.tokens1| > 0 && |p.tokens2| > 0 && env.amount == p.mutezAmount1
    ensures ProposeStep(s, env, p).Ok? ==>
      var e := ProposeStep(s, env, p).value;
      && e.storage.counter == s.counter + 1
      && e.storage.trades == s.trades[s.counter := Trade(true, false, false, p)]
      && e.ops == ProbeOps(p.tokens1, env.sender, env.self)
  {
  }

  // ------------------------------------------------------------ execute_trade

  /** The operations of an execution, in the source's order. */
  function ExecuteOps(p: Proposal, acceptor: Address): (ops: seq<Op>)
    ensures TezOut(ops) == p.mutezAmount1 + p.mutezAmount2
  {
    var tez := SendIfNonZero(p.proposer, p.mutezAmount2) + SendIfNonZero(acceptor, p.mutezAmount1);
    var legs2, legs1 := LegTransfers(p.tokens2, acceptor, p.proposer), LegTransfers(p.tokens1, p.proposer, acceptor);
    TezOutAppend(SendIfNonZero(p.proposer, p.mutezAmount2), SendIfNonZero(acceptor, p.mutezAmount1));
    TezOutAppend(tez, legs2);
    TezOutAppend(tez + legs2, legs1);
    TezOutLegTransfers(p.tokens2, acceptor, p.proposer);
    TezOutLegTransfers(p.tokens1, p.proposer, acceptor);
    tez + legs2 + legs1
  }

  /** `execute_trade`, the tail of `accept_trade`. */
  function ExecuteTrade(s: Storage, env: Env, tradeId: nat): Result<Effect>
  {
    match CheckNotExecuted(s, tradeId)
    case Fail(e) => Fail(e)
    case Ok(t) =>
      if !IsAcceptor(env, t.proposal) then Fail(NOT_ACCEPTOR)
      else if !CompletelyAccepted(t) then Fail(NOT_BOTH_ACCEPTED)
      else Ok(Effect(s.(trades := s.trades[tradeId := t.(executed := true)]), ExecuteOps(t.proposal, env.sender)))
  }

  // ------------------------------------------------------------- accept_trade

  /** The `accept_trade` entry point: the acceptor's acceptance, paying `mutezAmount2`, then the execution. */
  function AcceptStep(s: Storage, env: Env, tradeId: nat): Result<Effect>
  {
    match CheckNotExecuted(s, tradeId)
    case Fail(e) => Fail(e)
    case Ok(t) =>
      if !IsAcceptor(env, t.proposal) then Fail(NOT_ACCEPTOR)
      else if t.acceptorAccepted then Fail(ALREADY_ACCEPTED)
      else if env.amount != t.proposal.mutezAmount2 then Fail(WRONG_AMOUNT)
      else
        var t1 := t.(acceptorAccepted := true);
        if !CompletelyAccepted(t1) then Fail(NOT_COMPLETELY_ACCEPTED)
        else ExecuteTrade(s.(trades := s.trades[tradeId := t1]), env, tradeId)
  }

  /**
   * `accept_trade` fails, with the source's message and in its order, for a
   * missing id, an executed trade, a sender who may not accept, a trade the
   * acceptor already accepted, tez other than `mutezAmount2`, and a trade
   * the proposer no longer accepts; otherwise it marks the trade accepted by
   * both and executed, keeps every other trade and the counter, and emits
   * the execution's operations with the sender as acceptor.
   */
  lemma AcceptSpec(s: Storage, env: Env, tradeId: nat)
    ensures tradeId !in s.trades ==> AcceptStep(s, env, tradeId) == Fail(NO_SUCH_TRADE)
    ensures tradeId in s.trades && s.trades[tradeId].executed ==> AcceptStep(s, env, tradeId) == Fail(ALREADY_EXECUTED)
    ensures tradeId in s.trades && !s.trades[tradeId].executed ==>
      var t := s.trades[tradeId];
      && (!IsAcceptor(env, t.proposal) ==> AcceptStep(s, env, tradeId) == Fail(NOT_ACCEPTOR))
      && (IsAcceptor(env, t.proposal) && t.acceptorAccepted ==> AcceptStep(s, env, tradeId) == Fail(ALREADY_ACCEPTED))
      && (IsAcceptor(env, t.proposal) && !t.acceptorAccepted && env.amount != t.proposal.mutezAmount2 ==>
            AcceptStep(s, env, tradeId) == Fail(WRONG_AMOUNT))
      && (IsAcceptor(env, t.proposal) && !t.acceptorAccepted && env.amount == t.proposal.mutezAmount2 && !t.proposerAccepted ==>
            AcceptStep(s, env, tradeId) == Fail(NOT_COMPLETELY_ACCEPTED))
    ensures AcceptStep(s, env, tradeId).Ok? <==>
      && tradeId in s.trades
      && var t := s.trades[tradeId];
      && !t.executed && IsAcceptor(env, t.proposal) && !t.acceptorAccepted
      && env.amount == t.proposal.mutezAmount2 && t.proposerAccepted
    ensures AcceptStep(s, env, tradeId).Ok? ==>
      var t := s.trades[tradeId];
      var e := AcceptStep(s, env, tradeId).value;
      && e.storage == s.(trades := s.trades[tradeId := t.(acceptorAccepted := true, executed := true)])
      && e.ops == ExecuteOps(t.proposal, env.sender)
  {
  }

  /**
   * An open trade (acceptor = the contract) may be accepted by anyone,
   * proposer included: nothing in `accept_trade` or `execute_trade` refuses
   * the proposer, who then pays `mutezAmount2` to themself and trades their
   * tokens with themself.
   */
  lemma ProposerMayAcceptOpenTrade(s: Storage, env: Env, tradeId: nat)
    requires Valid(s) && tradeId in s.trades
    requires var t := s.trades[tradeId];
      && Holds(t) && t.proposal.acceptor == env.self
      && env.sender == t.proposal.proposer && env.amount == t.proposal.mutezAmount2
    ensures AcceptStep(s, env, tradeId).Ok?
    ensures AcceptStep(s, env, tradeId).value.ops ==
      ExecuteOps(s.trades[tradeId].proposal, s.trades[tradeId].proposal.proposer)
  {
  }

  // ---------------------------------------------------- cancel_trade_proposal

  /** The `cancel_trade_proposal` entry point: the proposer withdraws and gets `mutezAmount1` back. */
  function CancelStep(s: Storage, env: Env, tradeId: nat): Result<Effect>
  {
    if !NoTez(env) then Fail(NO_TEZ)
    else match CheckNotExecuted(s, tradeId)
      case Fail(e) => Fail(e)
      case Ok(t) =>
        if !IsProposer(env, t.proposal) then Fail(NOT_PROPOSER)
        else if !t.proposerAccepted then Fail(NOT_ACCEPTED_BEFORE)
        else Ok(Effect(s.(trades := s.trades[tradeId := t.(proposerAccepted := false)]),
                       SendIfNonZero(env.sender, t.proposal.mutezAmount1)))
  }

  /**
   * `cancel_trade_proposal` succeeds exactly for a call without tez, by the
   * proposer, on an existing unexecuted trade they accept; it then clears
   * only the proposer's flag and refunds `mutezAmount1` to them (no
   * operation when it is 0).
   */
  lemma CancelSpec(s: Storage, env: Env, tradeId: nat)
    ensures !NoTez(env) ==> CancelStep(s, env, tradeId) == Fail(NO_TEZ)
    ensures NoTez(env) && tradeId !in s.trades ==> CancelStep(s, env, tradeId) == Fail(NO_SUCH_TRADE)
    ensures NoTez(env) && tradeId in s.trades && s.trades[tradeId].executed ==> CancelStep(s, env, tradeId) == Fail(ALREADY_EXECUTED)
    ensures NoTez(env) && tradeId in s.trades && !s.trades[tradeId].executed && !IsProposer(env, s.trades[tradeId].proposal) ==>
      CancelStep(s, env, tradeId) == Fail(NOT_PROPOSER)
    ensures (&& NoTez(env) && tradeId in s.trades && !s.trades[tradeId].executed && IsProposer(env, s.trades[tradeId].proposal)
             && !s.trades[tradeId].proposerAccepted) ==> CancelStep(s, env, tradeId) == Fail(NOT_ACCEPTED_BEFORE)
    ensures CancelStep(s, env, tradeId).Ok? <==>
      NoTez(env) && tradeId in s.trades && Holds(s.trades[tradeId]) && IsProposer(env, s.trades[tradeId].proposal)
    ensures CancelStep(s, env, tradeId).Ok? ==>
      var t := s.trades[tradeId];
      var e := CancelStep(s, env, tradeId).value;
      && e.storage == s.(trades := s.trades[tradeId := t.(proposerAccepted := false)])
      && e.ops == (if t.proposal.mutezAmount1 == 0 then [] else [Send(env.sender, t.proposal.mutezAmount1)])
  {
  }

  /**
   * After a cancellation no accept succeeds; one that passes the acceptor
   * and amount checks fails with "Trade is not completely accepted".
   */
  lemma AcceptAfterCancel(s: Storage, env: Env, env2: Env, tradeId: nat)
    requires Valid(s) && CancelStep(s, env, tradeId).Ok?
    ensures var s' := CancelStep(s, env, tradeId).value.storage;
      && AcceptStep(s', env2, tradeId).Fail?
      && (IsAcceptor(env2, s.trades[tradeId].proposal) && env2.amount == s.trades[tradeId].proposal.mutezAmount2 ==>
            AcceptStep(s', env2, tradeId) == Fail(NOT_COMPLETELY_ACCEPTED))
  {
  }

  /** Once executed, a trade can neither be accepted nor cancelled again. */
  lemma ExecutedIsFinal(s: Storage, env: Env, env2: Env, tradeId: nat)
    requires AcceptStep(s, env, tradeId).Ok?
    ensures var s' := AcceptStep(s, env, tradeId).value.storage;
      && AcceptStep(s', env2, tradeId) == Fail(ALREADY_EXECUTED)
      && (NoTez(env2) ==> CancelStep(s', env2, tradeId) == Fail(ALREADY_EXECUTED))
      && (!NoTez(env2) ==> CancelStep(s', env2, tradeId) == Fail(NO_TEZ))
  {
  }

  // ------------------------------------------------------- global properties

  /** One call of any entry point. */
  datatype Call = Propose(p: Proposal) | Accept(acceptId: nat) | Cancel(cancelId: nat)

  function Step(s: Storage, env: Env, c: Call): Result<Effect>
  {
    match c
    case Propose(p) => ProposeStep(s, env, p)
    case Accept(id) => AcceptStep(s, env, id)
    case Cancel(id) => CancelStep(s, env, id)
  }

  /**
   * Every successful call keeps the invariant; never removes a trade or
   * lowers the counter; leaves executed trades untouched; and keeps the tez
   * accounting: what the contract owes afterwards plus what it sends out
   * equals what it owed before plus what the call brought in.
   */
  lemma StepSpec(s: Storage, env: Env, c: Call)
    requires Valid(s) && Step(s, env, c).Ok?
    ensures StepKeeps(s, env, Step(s, env, c).value)
  {
    match c
    case Propose(p) => ProposeKeeps(s, env, p);
    case Accept(id) => AcceptKeeps(s, env, id);
    case Cancel(id) => CancelKeeps(s, env, id);
  }

  /** What each successful call guarantees about the storage `e.storage` it leaves and the operations `e.ops` it emits. */
  ghost predicate StepKeeps(s: Storage, env: Env, e: Effect)
  {
    && Valid(e.storage)
    && s.trades.Keys <= e.storage.trades.Keys && s.counter <= e.storage.counter
    && (forall id :: id in s.trades && s.trades[id].executed ==> e.storage.trades[id] == s.trades[id])
    && Escrowed(e.storage) + TezOut(e.ops) == Escrowed(s) + env.amount
  }

  /** Writing one trade record keeps all of it, given the record's own part of the accounting. */
  lemma UpdateKeeps(s: Storage, env: Env, tradeId: nat, t: Trade, counter: nat, ops: seq<Op>)
    requires Valid(s) && s.counter <= counter && tradeId < counter && TradeValid(t)
    requires tradeId in s.trades ==> !s.trades[tradeId].executed
    requires Held(t) + TezOut(ops) == (if tradeId in s.trades then Held(s.trades[tradeId]) else 0) + env.amount
    ensures StepKeeps(s, env, Effect(Storage(s.trades[tradeId := t], counter), ops))
  {
    EscrowUpdate(s.trades, tradeId, t);
  }

  lemma ProposeKeeps(s: Storage, env: Env, p: Proposal)
    requires Valid(s) && ProposeStep(s, env, p).Ok?
    ensures StepKeeps(s, env, ProposeStep(s, env, p).value)
  {
    var t := Trade(true, false, false, p);
    var ops := ProbeOps(p.tokens1, env.sender, env.self);
    assert s.counter !in s.trades;
    assert ProposeStep(s, env, p).value == Effect(Storage(s.trades[s.counter := t], s.counter + 1), ops);
    TezOutProbe(p.tokens1, env.sender, env.self);
    UpdateKeeps(s, env, s.counter, t, s.counter + 1, ops);
  }

  lemma AcceptKeeps(s: Storage, env: Env, tradeId: nat)
    requires Valid(s) && AcceptStep(s, env, tradeId).Ok?
    ensures StepKeeps(s, env, AcceptStep(s, env, tradeId).value)
  {
    var t := s.trades[tradeId];
    var t' := t.(acceptorAccepted := true, executed := true);
    var ops := ExecuteOps(t.proposal, env.sender);
    assert AcceptStep(s, env, tradeId).value == Effect(Storage(s.trades[tradeId := t'], s.counter), ops);
    UpdateKeeps(s, env, tradeId, t', s.counter, ops);
  }

  lemma CancelKeeps(s: Storage, env: Env, tradeId: nat)
    requires Valid(s) && CancelStep(s, env, tradeId).Ok?
    ensures StepKeeps(s, env, CancelStep(s, env, tradeId).value)
  {
    var t := s.trades[tradeId];
    var t' := t.(proposerAccepted := false);
    var ops := SendIfNonZero(env.sender, t.proposal.mutezAmount1);
    assert CancelStep(s, env, tradeId).value == Effect(Storage(s.trades[tradeId := t'], s.counter), ops);
    UpdateKeeps(s, env, tradeId, t', s.counter, ops);
  }

  // ------------------------------------------------------------ the contract

  /** The contract at address `selfAddress`, its storage updated in place. */
  class XtzFa2SwapContract {
    const selfAddress: Address
    var trades: map<nat, Trade>
    var counter: nat

    function State(): Storage
      reads this
    {
      Storage(trades, counter)
    }

    constructor (selfAddress: Address)
      ensures this.selfAddress == selfAddress && State() == Origination()
    {
      this.selfAddress := selfAddress;
      trades, counter := map[], 0;
    }

    /** `accept_my_trade`, on the stored trade `tradeId`. */
    method AcceptMyTradeInPlace(sender: Address, amount: Mutez, tradeId: nat) returns (r: Result<()>)
      modifies this`trades
      ensures var res := AcceptMyTrade(old(State()), Env(sender, amount, selfAddress), tradeId);
        && (res.Ok? ==> r == Ok(()) && State() == res.value)
        && (res.Fail? ==> r == Fail(res.msg) && State() == old(State()))
    {
      if tradeId !in trades {
        return Fail(NO_SUCH_TRADE);
      }
      if trades[tradeId].executed {
        return Fail(ALREADY_EXECUTED);
      }
      var trade := trades[tradeId];
      if sender != trade.proposal.proposer {
        return Fail(NOT_PROPOSER);
      }
      if trade.proposerAccepted {
        return Fail(ALREADY_ACCEPTED);
      }
      if amount != trade.proposal.mutezAmount1 {
        return Fail(WRONG_AMOUNT);
      }
      trades := trades[tradeId := trade.(proposerAccepted := true)];
      r := Ok(());
    }

    /** The `propose_trade` entry point. */
    method ProposeTrade(sender: Address, amount: Mutez, p: Proposal) returns (r: Result<seq<Op>>)
      modifies this
      ensures var res := ProposeStep(old(State()), Env(sender, amount, selfAddress), p);
        && (res.Ok? ==> r == Ok(res.value.ops) && State() == res.value.storage)
        && (res.Fail? ==> r == Fail(res.msg) && State() == old(State()))
    {
      if sender != p.proposer {
        return Fail(NOT_PROPOSER);
      }
      if p.proposer == p.acceptor {
        return Fail(SAME_USERS);
      }
      if |p.tokens1| == 0 {
        return Fail(NO_TOKENS1);
      }
      if |p.tokens2| == 0 {
        return Fail(NO_TOKENS2);
      }
      var ops: seq<Op> := [];
      var i := 0;
      while i < |p.tokens1|
        invariant 0 <= i <= |p.tokens1|
        invariant ops == ProbeOps(p.tokens1[..i], sender, selfAddress)
      {
        var token := p.tokens1[i];
        assert p.tokens1[..i + 1][..i] == p.tokens1[..i];
        ops := ops + [Transfer(token.fa2, sender, selfAddress, token.id, token.amount)];
        ops := ops + [Transfer(token.fa2, selfAddress, sender, token.id, token.amount)];
        i := i + 1;
      }
      assert p.tokens1[..i] == p.tokens1;
      var saved := trades;
      trades := trades[counter := Trade(false, false, false, p)];
      var accepted := AcceptMyTradeInPlace(sender, amount, counter);
      if accepted.Fail? {
        trades := saved;
        return Fail(accepted.msg);
      }
      counter := counter + 1;
      r := Ok(ops);
    }

    /** The legs `legs`, moved from `from` to `to`, appended to `ops`. */
    method EmitLegTransfers(ops: seq<Op>, legs: seq<Token>, from: Address, to: Address) returns (ops': seq<Op>)
      ensures ops' == ops + LegTransfers(legs, from, to)
    {
      ops' := ops;
      var i := 0;
      while i < |legs|
        invariant 0 <= i <= |legs|
        invariant ops' == ops + LegTransfers(legs[..i], from, to)
      {
        assert legs[..i + 1][..i] == legs[..i];
        ops' := ops' + [Transfer(legs[i].fa2, from, to, legs[i].id, legs[i].amount)];
        i := i + 1;
      }
      assert legs[..i] == legs;
    }

    /** `execute_trade`, on the stored trade `tradeId`. */
    method ExecuteTradeInPlace(sender: Address, amount: Mutez, tradeId: nat) returns (r: Result<seq<Op>>)
      modifies this`trades
      ensures var res := ExecuteTrade(old(State()), Env(sender, amount, selfAddress), tradeId);
        && (res.Ok? ==> r == Ok(res.value.ops) && State() == res.value.storage)
        && (res.Fail? ==> r == Fail(res.msg) && State() == old(State()))
    {
      if tradeId !in trades {
        return Fail(NO_SUCH_TRADE);
      }
      if trades[tradeId].executed {
        return Fail(ALREADY_EXECUTED);
      }
      var trade := trades[tradeId];
      if !(sender == trade.proposal.acceptor || selfAddress == trade.proposal.acceptor) {
        return Fail(NOT_ACCEPTOR);
      }
      if !(trade.proposerAccepted && trade.acceptorAccepted) {
        return Fail(NOT_BOTH_ACCEPTED);
      }
      trades := trades[tradeId := trade.(executed := true)];
      var p := trade.proposal;
      var ops: seq<Op> := [];
      if p.mutezAmount2 != 0 {
        ops := ops + [Send(p.proposer, p.mutezAmount2)];
      }
      if p.mutezAmount1 != 0 {
        ops := ops + [Send(sender, p.mutezAmount1)];
      }
      assert ops == SendIfNonZero(p.proposer, p.mutezAmount2) + SendIfNonZero(sender, p.mutezAmount1);
      ops := EmitLegTransfers(ops, p.tokens2, sender, p.proposer);
      ops := EmitLegTransfers(ops, p.tokens1, p.proposer, sender);
      r := Ok(ops);
    }

    /** The `accept_trade` entry point. */
    method AcceptTrade(sender: Address, amount: Mutez, tradeId: nat) returns (r: Result<seq<Op>>)
      modifies this
      ensures var res := AcceptStep(old(State()), Env(sender, amount, selfAddress), tradeId);
        && (res.Ok? ==> r == Ok(res.value.ops) && State() == res.value.storage)
        && (res.Fail? ==> r == Fail(res.msg) && State() == old(State()))
    {
      if tradeId !in trades {
        return Fail(NO_SUCH_TRADE);
      }
      if trades[tradeId].executed {
        return Fail(ALREADY_EXECUTED);
      }
      var trade := trades[tradeId];
      if !(sender == trade.proposal.acceptor || selfAddress == trade.proposal.acceptor) {
        return Fail(NOT_ACCEPTOR);
      }
      if trade.acceptorAccepted {
        return Fail(ALREADY_ACCEPTED);
      }
      if amount != trade.proposal.mutezAmount2 {
        return Fail(WRONG_AMOUNT);
      }
      if !trade.proposerAccepted {
        return Fail(NOT_COMPLETELY_ACCEPTED);
      }
      trades := trades[tradeId := trade.(acceptorAccepted := true)];
      r := ExecuteTradeInPlace(sender, amount, tradeId);
    }

    /** The `cancel_trade_proposal` entry point. */
    method CancelTradeProposal(sender: Address, amount: Mutez, tradeId: nat) returns (r: Result<seq<Op>>)
      modifies this
      ensures var res := CancelStep(old(State()), Env(sender, amount, selfAddress), tradeId);
        && (res.Ok? ==> r == Ok(res.value.ops) && State() == res.value.storage)
        && (res.Fail? ==> r == Fail(res.msg) && State() == old(State()))
    {
      if amount != 0 {
        return Fail(NO_TEZ);
      }
      if tradeId !in trades {
        return Fail(NO_SUCH_TRADE);
      }
      if trades[tradeId].executed {
        return Fail(ALREADY_EXECUTED);
      }
      var trade := trades[tradeId];
      if sender != trade.proposal.proposer {
        return Fail(NOT_PROPOSER);
      }
      if !trade.proposerAccepted {
        return Fail(NOT_ACCEPTED_BEFORE);
      }
      trades := trades[tradeId := trade.(proposerAccepted := false)];
      var ops: seq<Op> := [];
      if trade.proposal.mutezAmount1 != 0 {
        ops := ops + [Send(sender, trade.proposal.mutezAmount1)];
      }
      assert ops == SendIfNonZero(sender, trade.proposal.mutezAmount1);
      r := Ok(ops);
    }
  }
}

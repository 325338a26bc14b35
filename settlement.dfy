/**
 * What the operations emitted by the swap contracts do to the FA2 ledgers
 * they call. A world maps each FA2 contract address to its fa2.py storage;
 * the operations of one swap call are applied in order, each `Transfer` as
 * a one-tx `transfer` batch sent by the swap contract, and the first
 * failure aborts the whole chain, the swap call included. Tez sends do not
 * touch a token ledger.
 */
module Settlement {
  import opened Tezos
  import opened Sums
  import opened Tzip12
  import Fa2
  import XtzFa2Swap

  type World = map<Address, Fa2.Storage>

  /** The failure of a transfer to an address without a `transfer` entry point. */
  const NO_TRANSFER_ENTRY_POINT := "no transfer entry point"

  /** One emitted operation, sent by the contract at `self`. */
  function ApplyOp(w: World, self: Address, op: Op): Result<World>
  {
    match op
    case Send(_, _) => Ok(w)
    case Transfer(fa2, from, to, id, amount) =>
      if fa2 !in w then Fail(NO_TRANSFER_ENTRY_POINT)
      else match Fa2.TransferStep(w[fa2], self, [TransferParam(from, [Tx(to, id, amount)])])
        case Fail(e) => Fail(e)
        case Ok(s') => Ok(w[fa2 := s'])
  }

  /** The operations in order; the first failure aborts. */
  function ApplyOps(w: World, self: Address, ops: seq<Op>): Result<World>
    decreases |ops|
  {
    if ops == [] then Ok(w)
    else match ApplyOp(w, self, ops[0])
      case Fail(e) => Fail(e)
      case Ok(w1) => ApplyOps(w1, self, ops[1..])
  }

  /** Applying `a + b` is applying `a`, then `b` to its outcome. */
  lemma {:induction false} ApplyOpsAppend(w: World, self: Address, a: seq<Op>, b: seq<Op>)
    ensures ApplyOps(w, self, a + b) ==
      match ApplyOps(w, self, a) case Fail(e) => Fail(e) case Ok(w1) => ApplyOps(w1, self, b)
    decreases |a|
  {
    if a == [] {
      assert a + b == b;
    } else {
      assert (a + b)[0] == a[0] && (a + b)[1..] == a[1..] + b;
      match ApplyOp(w, self, a[0])
      case Fail(e) =>
      case Ok(w1) => ApplyOpsAppend(w1, self, a[1..], b);
    }
  }

  /** A one-tx batch is that tx, unless the contract is paused. */
  lemma TransferOne(s: Fa2.Storage, sender: Address, from: Address, tx: Tx)
    ensures Fa2.TransferStep(s, sender, [TransferParam(from, [tx])]) ==
      if s.paused then Fail(Fa2.PAUSED) else Fa2.TxStep(s, sender, from, tx)
  {
    var batch := [TransferParam(from, [tx])];
    assert batch[1..] == [] && batch[0].txs[1..] == [];
    match Fa2.TxStep(s, sender, from, tx)
    case Fail(_) =>
    case Ok(s1) =>
      assert Fa2.TxsStep(s1, sender, from, []) == Ok(s1);
      assert Fa2.TxsStep(s, sender, from, [tx]) == Ok(s1);
      assert Fa2.TransfersStep(s1, sender, []) == Ok(s1);
  }

  /** The change a transfer makes to the balance of `o` in token `i` of contract `c`. */
  function Moved(fa2: Address, from: Address, to: Address, id: nat, amount: nat, c: Address, o: Address, i: nat): int
  {
    if c != fa2 || i != id || from == to then 0
    else if o == from then -(amount as int)
    else if o == to then amount
    else 0
  }

  /**
   * A transfer operation succeeds exactly when the FA2 contract exists, is
   * not paused, lets the swap contract move the owner's editions, knows the
   * token, and (for a non-zero amount) finds a large enough row; it then
   * moves `amount` editions of that token from `from` to `to`, every other
   * balance staying as it was, and changes no contract but in that ledger.
   */
  lemma TransferOpSpec(w: World, self: Address, fa2: Address, from: Address, to: Address, id: nat, amount: nat)
    ensures var r := ApplyOp(w, self, Transfer(fa2, from, to, id, amount));
      && (r.Ok? <==>
            && fa2 in w && !w[fa2].paused && Fa2.IsOperator(w[fa2], self, from, id) && Fa2.TokenExists(w[fa2], id)
            && (amount > 0 ==> (from, id) in w[fa2].ledger && w[fa2].ledger[(from, id)] >= amount))
      && (r.Ok? ==>
            var w' := r.value;
            && w'.Keys == w.Keys
            && (forall c :: c in w ==> Fa2.SameButLedger(w[c], w'[c]))
            && (forall c: Address, o: Address, i: nat :: c in w ==>
                  Fa2.Balance(w'[c], o, i) == Fa2.Balance(w[c], o, i) + Moved(fa2, from, to, id, amount, c, o, i)))
  {
    if fa2 in w {
      TransferOne(w[fa2], self, from, Tx(to, id, amount));
      Fa2.TxSpec(w[fa2], self, from, Tx(to, id, amount));
    }
  }

  lemma ApplyOne(w: World, self: Address, op: Op)
    ensures ApplyOps(w, self, [op]) == ApplyOp(w, self, op)
  {
    assert [op][1..] == [];
  }

  lemma ApplyTwo(w: World, self: Address, op1: Op, op2: Op)
    ensures ApplyOps(w, self, [op1, op2]) ==
      match ApplyOp(w, self, op1) case Fail(e) => Fail(e) case Ok(w1) => ApplyOp(w1, self, op2)
  {
    assert [op1, op2][1..] == [op2];
    match ApplyOp(w, self, op1)
    case Fail(_) =>
    case Ok(w1) => ApplyOne(w1, self, op2);
  }

  // ------------------------------------------------------------ the probe

  /** Two worlds with the same contracts, storages equal but for the ledgers, and equal balances (a missing row counting 0). */
  ghost predicate SameBalances(w: World, w': World)
  {
    && w.Keys == w'.Keys
    && (forall c :: c in w ==> Fa2.SameButLedger(w[c], w'[c]))
    && (forall c: Address, o: Address, i: nat :: c in w ==> Fa2.Balance(w'[c], o, i) == Fa2.Balance(w[c], o, i))
  }

  lemma SameBalancesTrans(w: World, w1: World, w2: World)
    requires SameBalances(w, w1) && SameBalances(w1, w2)
    ensures SameBalances(w, w2)
  {
  }

  /** A leg sent to `self` and straight back leaves every balance as it was; it succeeds only if `owner` holds the editions of an unpaused contract. */
  lemma ProbePair(w: World, self: Address, t: Token, owner: Address)
    requires ApplyOps(w, self, [LegTransfer(t, owner, self), LegTransfer(t, self, owner)]).Ok?
    ensures SameBalances(w, ApplyOps(w, self, [LegTransfer(t, owner, self), LegTransfer(t, self, owner)]).value)
    ensures t.fa2 in w && !w[t.fa2].paused
    ensures Fa2.IsOperator(w[t.fa2], self, owner, t.id) && Fa2.TokenExists(w[t.fa2], t.id)
    ensures Fa2.Balance(w[t.fa2], owner, t.id) >= t.amount
  {
    var there, back := LegTransfer(t, owner, self), LegTransfer(t, self, owner);
    ApplyTwo(w, self, there, back);
    TransferOpSpec(w, self, t.fa2, owner, self, t.id, t.amount);
    var w1 := ApplyOp(w, self, there).value;
    TransferOpSpec(w1, self, t.fa2, self, owner, t.id, t.amount);
    var w2 := ApplyOp(w1, self, back).value;
    forall c: Address, o: Address, i: nat | c in w ensures Fa2.Balance(w2[c], o, i) == Fa2.Balance(w[c], o, i) {
      assert Moved(t.fa2, owner, self, t.id, t.amount, c, o, i) + Moved(t.fa2, self, owner, t.id, t.amount, c, o, i) == 0;
    }
  }

  /**
   * The ownership probe of the XTZ/FA2 swap's `propose_trade` leaves every
   * balance of every FA2 contract unchanged; and it succeeds only if, for
   * every offered leg, the FA2 contract is not paused, the proposer holds
   * the editions, the token exists and the swap contract may move them.
   */
  lemma {:induction false} ProbeNetZero(w: World, self: Address, tokens: seq<Token>, proposer: Address)
    requires ApplyOps(w, self, XtzFa2Swap.ProbeOps(tokens, proposer, self)).Ok?
    ensures SameBalances(w, ApplyOps(w, self, XtzFa2Swap.ProbeOps(tokens, proposer, self)).value)
    ensures forall i :: 0 <= i < |tokens| ==>
      && tokens[i].fa2 in w && !w[tokens[i].fa2].paused
      && Fa2.IsOperator(w[tokens[i].fa2], self, proposer, tokens[i].id)
      && Fa2.TokenExists(w[tokens[i].fa2], tokens[i].id)
      && Fa2.Balance(w[tokens[i].fa2], proposer, tokens[i].id) >= tokens[i].amount
    decreases |tokens|
  {
    if tokens == [] {
    } else {
      var front, t := tokens[..|tokens| - 1], tokens[|tokens| - 1];
      var pair := [LegTransfer(t, proposer, self), LegTransfer(t, self, proposer)];
      ApplyOpsAppend(w, self, XtzFa2Swap.ProbeOps(front, proposer, self), pair);
      ProbeNetZero(w, self, front, proposer);
      var w1 := ApplyOps(w, self, XtzFa2Swap.ProbeOps(front, proposer, self)).value;
      ProbePair(w1, self, t, proposer);
      SameBalancesTrans(w, w1, ApplyOps(w, self, XtzFa2Swap.ProbeOps(tokens, proposer, self)).value);
      forall i | 0 <= i < |tokens|
        ensures && tokens[i].fa2 in w && !w[tokens[i].fa2].paused
                && Fa2.IsOperator(w[tokens[i].fa2], self, proposer, tokens[i].id)
                && Fa2.TokenExists(w[tokens[i].fa2], tokens[i].id)
                && Fa2.Balance(w[tokens[i].fa2], proposer, tokens[i].id) >= tokens[i].amount
      {
        if i < |front| {
          assert tokens[i] == front[i];
        }
      }
    }
  }

  // -------------------------------------------------------- the execution

  /** Tez sends leave the token world as it is. */
  lemma {:induction false} SendsAreInert(w: World, self: Address, to: Address, m: Mutez, rest: seq<Op>)
    ensures ApplyOps(w, self, SendIfNonZero(to, m) + rest) == ApplyOps(w, self, rest)
  {
    if m != 0 {
      var ops := SendIfNonZero(to, m) + rest;
      assert ops[0] == Send(to, m) && ops[1..] == rest;
    } else {
      assert SendIfNonZero(to, m) + rest == rest;
    }
  }

  /** The token transfers of a one-leg-for-one-leg execution, once the tez sends are set aside. */
  lemma ExecutionTransfers(w: World, self: Address, p: XtzFa2Swap.Proposal, acceptor: Address)
    requires |p.tokens1| == 1 && |p.tokens2| == 1
    ensures ApplyOps(w, self, XtzFa2Swap.ExecuteOps(p, acceptor)) ==
      ApplyOps(w, self, [LegTransfer(p.tokens2[0], acceptor, p.proposer), LegTransfer(p.tokens1[0], p.proposer, acceptor)])
  {
    var legs := LegTransfers(p.tokens2, acceptor, p.proposer) + LegTransfers(p.tokens1, p.proposer, acceptor);
    assert legs == [LegTransfer(p.tokens2[0], acceptor, p.proposer), LegTransfer(p.tokens1[0], p.proposer, acceptor)];
    var tez2, tez1 := SendIfNonZero(p.proposer, p.mutezAmount2), SendIfNonZero(acceptor, p.mutezAmount1);
    assert XtzFa2Swap.ExecuteOps(p, acceptor) == tez2 + (tez1 + legs);
    SendsAreInert(w, self, p.proposer, p.mutezAmount2, tez1 + legs);
    SendsAreInert(w, self, acceptor, p.mutezAmount1, legs);
  }

  /**
   * Executing a one-leg-for-one-leg XTZ/FA2 trade swaps the editions: the
   * proposer's leg goes to the acceptor, the acceptor's to the proposer,
   * and every other balance of every contract is unchanged. When the
   * proposer accepts their own open trade, both moves are inert.
   */
  lemma ExecutionSwaps(w: World, self: Address, p: XtzFa2Swap.Proposal, acceptor: Address)
    requires |p.tokens1| == 1 && |p.tokens2| == 1
    requires ApplyOps(w, self, XtzFa2Swap.ExecuteOps(p, acceptor)).Ok?
    ensures var w' := ApplyOps(w, self, XtzFa2Swap.ExecuteOps(p, acceptor)).value;
      var t1, t2 := p.tokens1[0], p.tokens2[0];
      && w'.Keys == w.Keys
      && (forall c: Address, o: Address, i: nat :: c in w ==>
            Fa2.Balance(w'[c], o, i) == Fa2.Balance(w[c], o, i)
              + Moved(t1.fa2, p.proposer, acceptor, t1.id, t1.amount, c, o, i)
              + Moved(t2.fa2, acceptor, p.proposer, t2.id, t2.amount, c, o, i))
  {
    var t1, t2 := p.tokens1[0], p.tokens2[0];
    var op2, op1 := LegTransfer(t2, acceptor, p.proposer), LegTransfer(t1, p.proposer, acceptor);
    ExecutionTransfers(w, self, p, acceptor);
    ApplyTwo(w, self, op2, op1);
    TransferOpSpec(w, self, t2.fa2, acceptor, p.proposer, t2.id, t2.amount);
    var w1 := ApplyOp(w, self, op2).value;
    TransferOpSpec(w1, self, t1.fa2, p.proposer, acceptor, t1.id, t1.amount);
  }

  /** In particular, for two different kinds of token, the two users' balances trade places by the legs' amounts. */
  lemma ExecutionSwapsBalances(w: World, self: Address, p: XtzFa2Swap.Proposal, acceptor: Address)
    requires |p.tokens1| == 1 && |p.tokens2| == 1 && p.proposer != acceptor
    requires (p.tokens1[0].fa2, p.tokens1[0].id) != (p.tokens2[0].fa2, p.tokens2[0].id)
    requires ApplyOps(w, self, XtzFa2Swap.ExecuteOps(p, acceptor)).Ok?
    requires p.tokens1[0].fa2 in w && p.tokens2[0].fa2 in w
    ensures var w' := ApplyOps(w, self, XtzFa2Swap.ExecuteOps(p, acceptor)).value;
      var t1, t2 := p.tokens1[0], p.tokens2[0];
      && t1.fa2 in w' && t2.fa2 in w'
      && Fa2.Balance(w'[t1.fa2], p.proposer, t1.id) == Fa2.Balance(w[t1.fa2], p.proposer, t1.id) - t1.amount
      && Fa2.Balance(w'[t1.fa2], acceptor, t1.id) == Fa2.Balance(w[t1.fa2], acceptor, t1.id) + t1.amount
      && Fa2.Balance(w'[t2.fa2], acceptor, t2.id) == Fa2.Balance(w[t2.fa2], acceptor, t2.id) - t2.amount
      && Fa2.Balance(w'[t2.fa2], p.proposer, t2.id) == Fa2.Balance(w[t2.fa2], p.proposer, t2.id) + t2.amount
  {
    ExecutionSwaps(w, self, p, acceptor);
  }

  // ----------------------------------------------------- conservation

  /** Every contract of the world keeps its invariant. */
  ghost predicate AllValid(w: World)
  {
    forall c :: c in w ==> Fa2.Valid(w[c])
  }

  /** What a successful application keeps: the contracts, their invariants, all but their ledgers, and every token's sum. */
  ghost predicate Conserved(w: World, w': World)
  {
    && w'.Keys == w.Keys && AllValid(w')
    && (forall c :: c in w ==> Fa2.SameButLedger(w[c], w'[c]))
    && (forall c, i :: c in w ==> TokenSum(w'[c].ledger, i) == TokenSum(w[c].ledger, i))
  }

  lemma ApplyOpConserves(w: World, self: Address, op: Op)
    requires AllValid(w) && ApplyOp(w, self, op).Ok?
    ensures Conserved(w, ApplyOp(w, self, op).value)
  {
    match op {
      case Send(_, _) =>
      case Transfer(fa2, from, to, id, amount) =>
        Fa2.TransferSpec(w[fa2], self, [TransferParam(from, [Tx(to, id, amount)])]);
    }
  }

  lemma ConservedTrans(w: World, w1: World, w2: World)
    requires Conserved(w, w1) && Conserved(w1, w2)
    ensures Conserved(w, w2)
  {
    forall c | c in w ensures Fa2.SameButLedger(w[c], w2[c]) {
      assert Fa2.SameButLedger(w[c], w1[c]) && Fa2.SameButLedger(w1[c], w2[c]);
    }
  }

  /**
   * Whatever a swap call emits, applying it successfully to valid ledgers
   * keeps every ledger valid, changes no contract but in its ledger, and
   * keeps every token's sum of balances, hence its total supply.
   */
  lemma {:induction false} ApplyOpsConserves(w: World, self: Address, ops: seq<Op>)
    requires AllValid(w) && ApplyOps(w, self, ops).Ok?
    ensures Conserved(w, ApplyOps(w, self, ops).value)
    decreases |ops|
  {
    if ops != [] {
      var w1 := ApplyOp(w, self, ops[0]).value;
      ApplyOpConserves(w, self, ops[0]);
      ApplyOpsConserves(w1, self, ops[1..]);
      ConservedTrans(w, w1, ApplyOps(w, self, ops).value);
    }
  }
}

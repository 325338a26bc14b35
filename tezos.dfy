/**
 * What the four contracts share: addresses, mutez, the outcome of an entry
 * point call, the FA2 token leg that both escrow contracts trade, and the
 * operations an entry point emits (an FA2 `transfer` call or a tez send).
 */
module Tezos {

  /** An implicit account or a contract (tz1.../KT1...); only equality matters. */
  type Address = nat

  /** Amounts of tez, in mutez. */
  type Mutez = nat

  /** Michelson `bytes`. */
  type Bytes = seq<bv8>

  /** The outcome of a call: a value, or the message passed to FAILWITH. */
  datatype Result<T> = Ok(value: T) | Fail(msg: string)

  /**
   * The context of an entry point call: `sp.sender`, `sp.amount` (the tez
   * attached to the call) and `sp.self_address`.
   */
  datatype Env = Env(sender: Address, amount: Mutez, self: Address)

  /** One FA2 token leg of a trade side: contract, token id and editions. */
  datatype Token = Token(fa2: Address, id: nat, amount: nat)

  /**
   * An operation emitted by an entry point. A `Transfer` is the one-entry
   * batch `[{from_, txs: [{to_, token_id, amount}]}]` sent with 0 tez to the
   * `transfer` entry point of contract `fa2`; a `Send` gives tez to `to`.
   */
  datatype Op =
    | Transfer(fa2: Address, from: Address, to: Address, tokenId: nat, amount: nat)
    | Send(to: Address, amount: Mutez)

  /** The transfer operation for one token leg. */
  function LegTransfer(t: Token, from: Address, to: Address): (op: Op)
    ensures op.Transfer? && op.fa2 == t.fa2 && op.tokenId == t.id && op.amount == t.amount
    ensures op.from == from && op.to == to
  {
    Transfer(t.fa2, from, to, t.id, t.amount)
  }

  /** The transfers, one per leg and in the order of the legs, moving `legs` from `from` to `to`. */
  function LegTransfers(legs: seq<Token>, from: Address, to: Address): (ops: seq<Op>)
    ensures |ops| == |legs|
    ensures forall i :: 0 <= i < |legs| ==> ops[i] == LegTransfer(legs[i], from, to)
  {
    if legs == [] then [] else LegTransfers(legs[..|legs| - 1], from, to) + [LegTransfer(legs[|legs| - 1], from, to)]
  }

  /** The tez that `ops` send out of the contract. */
  function TezOut(ops: seq<Op>): nat
  {
    if ops == [] then 0
    else TezOut(ops[..|ops| - 1]) + (match ops[|ops| - 1] case Send(_, m) => m case Transfer(_, _, _, _, _) => 0)
  }

  lemma {:induction false} TezOutAppend(a: seq<Op>, b: seq<Op>)
    ensures TezOut(a + b) == TezOut(a) + TezOut(b)
    decreases |b|
  {
    if b == [] {
      assert a + b == a;
    } else {
      assert (a + b)[..|a + b| - 1] == a + b[..|b| - 1];
      TezOutAppend(a, b[..|b| - 1]);
    }
  }

  lemma {:induction false} TezOutLegTransfers(legs: seq<Token>, from: Address, to: Address)
    ensures TezOut(LegTransfers(legs, from, to)) == 0
    decreases |legs|
  {
    if legs != [] {
      var ops := LegTransfers(legs, from, to);
      assert ops[..|ops| - 1] == LegTransfers(legs[..|legs| - 1], from, to);
      TezOutLegTransfers(legs[..|legs| - 1], from, to);
    }
  }

  /** The `sp.send(to, m)` guarded by `m != 0`: nothing is sent for 0 mutez. */
  function SendIfNonZero(to: Address, m: Mutez): (ops: seq<Op>)
    ensures TezOut(ops) == m
    ensures ops == [] <==> m == 0
  {
    if m != 0 then [Send(to, m)] else []
  }
}

# Tezos trade escrows and FA2 ledgers, in Dafny

This project models four SmartPy contracts and proves properties of them.

- **XTZ/FA2 swap** (`contracts/xtzfa2swap.py`). A proposer offers FA2 tokens plus tez for an acceptor's FA2 tokens plus tez.
  - On proposal, the contract checks ownership by sending each offered leg to itself and straight back.
  - It stores the proposal and accepts it on the proposer's behalf, taking the proposer's tez into escrow.
  - The acceptor's `accept_trade` executes the trade at once, moving the tokens directly between the two users.
  - The proposer may cancel and get their tez back.
- **Barter contract** (`swap.py`). A custodial variant.
  - Each of two users escrows their side into the contract when accepting, and may cancel to get it back.
  - A manager keeps an allow-list of tradable FA2 contracts.
- **FA2 ledger** (`fa2.py`). A TZIP-12 multi-asset ledger.
  - It mints consecutive token ids, with an operator-gated transfer.
  - It has an administrator and a pause flag.
- **FA2 mock** (`fa2-mocks/fa2.py`). A second TZIP-12 ledger.
  - Minting is counter-based.
  - Transfers are limited to the owner or an operator.
  - The administrator handoff takes two steps.

Every entry point is a pure `...Step` function from the storage and the call context (`Env`: sender, attached tez, own address) to either `Fail(message)` or the new storage. For the swaps, a success also carries the ordered list of emitted operations (FA2 `transfer` calls and tez sends). A failure aborts the call, as a failed `sp.verify` does.

Each contract also has a class with the source's storage fields. Its methods run the entry points in place, with the source's loops. Each method is proved to leave the state and return the result that the step function prescribes, and a failure leaves the state unchanged.

The module `Settlement` applies a swap's emitted operations to a world of `fa2.py` ledgers.

| module | file | models |
|---|---|---|
| `Tezos` | tezos.dfy | addresses, mutez, `Result`, call context, token legs, emitted operations |
| `Sums` | sums.dfy | the sum of a finite map's values |
| `Tzip12` | tzip12.dfy | what both FA2 ledgers share: ledger keys, operator keys, transfer and update parameters, per-token sums |
| `Fa2` | fa2.dfy | fa2.py |
| `Fa2Mock` | fa2_mock.dfy | fa2-mocks/fa2.py |
| `XtzFa2Swap` | xtzfa2swap.dfy | contracts/xtzfa2swap.py |
| `Barter` | barter.dfy | swap.py |
| `Settlement` | settlement.dfy | the swaps' operations applied to fa2.py ledgers |

## Model

| member | source | states |
|---|---|---|
| XtzFa2Swap.Origination | contracts/xtzfa2swap.py:39-55 | the initial storage (no trades, counter 0) satisfies the invariant and holds no tez |
| XtzFa2Swap.CheckNotExecuted | contracts/xtzfa2swap.py:101-111 | succeeds exactly for an existing unexecuted trade and returns it; otherwise fails with "The provided trade id doesn't exist" or "Trade already executed", in that order |
| XtzFa2Swap.ProbeOps | contracts/xtzfa2swap.py:131-148 | the probe has two operations per offered leg, in leg order: the leg sent from the proposer to the contract, then sent back |
| XtzFa2Swap.TezOutProbe | contracts/xtzfa2swap.py:131-148 | the probe sends no tez |
| XtzFa2Swap.ProposeSpec | contracts/xtzfa2swap.py:113-186 | propose fails in the source's order (not the proposer; same users; empty `tokens1`; empty `tokens2`; attached tez differ from `mutez_amount1`, a 0 amount included). It succeeds exactly when none of these holds. It then stores the proposal at the old counter with only the proposer's flag set, increments the counter, keeps every other trade and emits the probe |
| XtzFa2Swap.ExecuteOps | contracts/xtzfa2swap.py:265-291 | the execution sends out exactly `mutez_amount1 + mutez_amount2` |
| XtzFa2Swap.AcceptSpec | contracts/xtzfa2swap.py:188-217 | accept fails, with the source's messages and in its order, for: a missing id, an executed trade, a sender who may not accept, a second acceptance, tez other than `mutez_amount2`, and a trade its proposer no longer accepts. It succeeds exactly otherwise: both flags and `executed` are set and the execution's operations are emitted with the sender as acceptor |
| XtzFa2Swap.ProposerMayAcceptOpenTrade | contracts/xtzfa2swap.py:81-87 | for an open trade (its acceptor is the contract), the proposer's own accept succeeds whenever the flags and tez allow it |
| XtzFa2Swap.CancelSpec | contracts/xtzfa2swap.py:219-245 | cancel succeeds exactly for a call without tez, by the proposer, on an unexecuted trade they accept. It clears only that flag and refunds `mutez_amount1`, with no operation when that is 0 |
| XtzFa2Swap.AcceptAfterCancel | contracts/xtzfa2swap.py:95-99 | after a cancellation no accept succeeds; one that passes the acceptor and amount checks fails with "Trade is not completely accepted" |
| XtzFa2Swap.ExecutedIsFinal | contracts/xtzfa2swap.py:101-111 | after an execution, a further accept and a further cancel of that trade fail with "Trade already executed" |
| XtzFa2Swap.StepSpec | contracts/xtzfa2swap.py:113-291 | every successful call keeps the invariant, never deletes a trade, never lowers the counter and leaves executed trades untouched. The tez the contract owes afterwards, plus what it sends out, equals what it owed before plus the tez the call brought in |
| XtzFa2Swap.EscrowUpdate | contracts/xtzfa2swap.py:151-161 | overwriting one trade record changes the escrowed sum by exactly the difference between what the two records hold |
| XtzFa2Swap.XtzFa2SwapContract.ProposeTrade | contracts/xtzfa2swap.py:113-161 | the in-place entry point (with its probe loop) yields the result and new state of `ProposeStep`, and leaves the state unchanged on failure |
| XtzFa2Swap.XtzFa2SwapContract.AcceptMyTradeInPlace | contracts/xtzfa2swap.py:162-186 | the in-place proposer acceptance agrees with `AcceptMyTrade` |
| XtzFa2Swap.XtzFa2SwapContract.AcceptTrade | contracts/xtzfa2swap.py:188-217 | the in-place entry point agrees with `AcceptStep`, and leaves the state unchanged on failure |
| XtzFa2Swap.XtzFa2SwapContract.ExecuteTradeInPlace | contracts/xtzfa2swap.py:247-291 | the in-place execution (with its two transfer loops) agrees with `ExecuteTrade` |
| XtzFa2Swap.XtzFa2SwapContract.CancelTradeProposal | contracts/xtzfa2swap.py:219-245 | the in-place entry point agrees with `CancelStep` |
| Barter.Origination | swap.py:30-50 | the initial storage, with the given manager and allow-list, satisfies the invariant and holds no tez |
| Barter.CheckNotExecuted | swap.py:72-82 | succeeds exactly for an existing unexecuted trade and returns it; otherwise fails with the missing-id or executed-before message |
| Barter.CheckLegs | swap.py:101-119 | a side's checks pass exactly when every leg's FA2 contract is allowed (an absent entry counts as false); the edition check `amount >= 0` refuses nothing, so a leg of 0 editions passes; the only failure is "This token type cannot be traded" |
| Barter.ProposeSpec | swap.py:84-129 | propose fails in the source's order (not a user; same users; tez attached; a leg off the allow-list). It succeeds exactly otherwise: it stores the trade with all flags false at the old counter, increments the counter and emits nothing |
| Barter.ExecuteOps | swap.py:265-288 | the execution sends out exactly `mutez_amount` |
| Barter.AcceptSpec | swap.py:131-188 | with the corrected trigger of swap.py:187, accept fails, in the source's order, for a missing or executed trade, a non-user, a second acceptance by the same user, and tez other than `mutez_amount` (user 1) or 0 (user 2). It also fails when the other user accepted already and tez come with the call. It succeeds exactly otherwise: the sender's side is escrowed from them to the contract and, when the other user had accepted, the trade executes in the same call |
| Barter.AsWrittenSpec | swap.py:131-188 | the trigger as written gives the result of the corrected one on every call, except when user 2 accepts before user 1: a call that would succeed then fails with "One of the users didn't accept the trade". This carries `Barter.AcceptSpec` over to the code as written |
| Barter.User2FirstAborts | swap.py:187-188 | with the trigger as written, user 2 accepting an untouched trade first makes the whole call fail with "One of the users didn't accept the trade" |
| Barter.AsWrittenUser2NeverWaits | swap.py:187-188 | with the trigger as written, no successful accept leaves user 2's flag set on an open trade |
| Barter.User2FirstRecorded | swap.py:167-188 | with the corrected trigger, user 2 accepting first records the acceptance and escrows `tokens2` without executing |
| Barter.AcceptNeverMissesAUser | swap.py:187-263 | with the corrected trigger, no accept fails for lack of the other user's acceptance |
| Barter.TriggersAgree | swap.py:187-188 | the two triggers behave the same whenever user 1 has accepted, or user 1 accepts while user 2 has not |
| Barter.CancelSpec | swap.py:190-243 | cancel fails, in the source's order, for tez attached, a missing or executed trade, a non-user, and a user who has not accepted. It succeeds exactly otherwise and clears only the caller's flag. It returns that user's legs from the contract to them; only user 1 gets tez back, and only if the amount is nonzero, before the tokens |
| Barter.AcceptThenCancel | swap.py:131-243 | accepting an untouched trade and then cancelling it restores the storage exactly, and the refund gives back exactly the tez that came in |
| Barter.ManagerSpec | swap.py:290-336 | the manager entry points succeed exactly for the manager with no tez, failing with the manager message before the tez message. Each changes only its own field; `add_fa2` and `remove_fa2` set one entry to true or false and never delete an entry |
| Barter.StepSpec | swap.py:84-336 | every successful call keeps the invariant, never deletes a trade or an allow-list entry, never lowers the counter and leaves executed trades untouched. The tez owed afterwards, plus what is sent out, equals what was owed before plus what came in |
| Barter.ExecutedIsFinal | swap.py:72-82 | after an execution, a further accept and a further cancel of that trade fail with "The trade was executed before" |
| Barter.EscrowUpdate | swap.py:121-129 | overwriting one trade record changes the escrowed sum by exactly the difference between what the two records hold |
| Barter.BarterContract.ProposeTrade | swap.py:84-129 | the in-place entry point, with its two allow-list loops, agrees with `ProposeStep` |
| Barter.BarterContract.CheckLegsInPlace | swap.py:101-119 | the allow-list loop agrees with `CheckLegs` |
| Barter.BarterContract.AcceptTrade | swap.py:131-188 | the in-place entry point agrees with `AcceptStep` (corrected trigger), and leaves the state unchanged on failure |
| Barter.BarterContract.ExecuteTradeInPlace | swap.py:245-288 | the in-place execution agrees with `ExecuteTrade` |
| Barter.BarterContract.CancelTrade | swap.py:190-243 | the in-place entry point agrees with `CancelStep` |
| Barter.BarterContract.UpdateManager | swap.py:290-304 | agrees with `UpdateManagerStep` |
| Barter.BarterContract.AddFa2 | swap.py:306-320 | agrees with `AddFa2Step` |
| Barter.BarterContract.RemoveFa2 | swap.py:322-336 | agrees with `RemoveFa2Step` |
| Fa2.Origination | fa2.py:39-70 | the initial storage satisfies the invariant |
| Fa2.MintSpec | fa2.py:149-187 | mint is administrator-only ("FA2_NOT_ADMIN") and refuses a non-consecutive new id ("Token-IDs should be consecutive"). On success it credits `amount` to the receiver and the supply. For a new id it adds the metadata and increments `all_tokens`; for an existing id it leaves the metadata and the counter alone |
| Fa2.MintValid | fa2.py:163-187 | mint keeps the invariant: the ids with metadata or supply are exactly `0 .. all_tokens-1`, and each supply is the sum of its balances |
| Fa2.CreditSum | fa2.py:166-169 | crediting a ledger row raises that token's sum of balances by the amount and no other token's |
| Fa2.TxSpec | fa2.py:206-230 | a tx fails with "FA2_NOT_OPERATOR" unless the sender is the administrator, the owner or a registered operator; then with "FA2_TOKEN_UNDEFINED" for an unknown token. A 0 amount leaves the ledger as it is. Otherwise it moves exactly `amount` from `from_` to `to_`, every other balance staying as it was |
| Fa2.TxBalanceErrors | fa2.py:214-217 | for a nonzero amount (the balance check of fa2.py:137-141), a missing owner row fails as a missing big-map key and a short balance fails with "FA2_INSUFFICIENT_BALANCE" |
| Fa2.MoveConserves | fa2.py:219-230 | the debit and credit of a tx keep the token's sum of balances |
| Fa2.TxConserves | fa2.py:206-230 | a tx keeps every token's sum of balances |
| Fa2.TransferSpec | fa2.py:190-230 | a paused contract fails with "FA2_PAUSED"; a successful batch was authorized tx by tx, changes only the ledger, keeps every token's sum and keeps the invariant |
| Fa2.UpdateOperatorsSpec | fa2.py:274-296 | a batch of updates succeeds exactly when the sender is the administrator or the owner in each update, fails with "FA2_NOT_ADMIN_OR_OPERATOR" otherwise, and changes only the operator set. After a successful batch, a key no update names keeps its membership, and a named key is an operator exactly when the last update naming it adds it |
| Fa2.AddThenRemove | fa2.py:283-296 | adding then removing the same operator leaves the set without it, and restores it exactly when it was absent |
| Fa2.AdminStepsSpec | fa2.py:298-337 | `set_administrator` and `set_pause` (with `set_metadata` between them, not modelled) are administrator-only, change only their own field and keep the invariant |
| Fa2.AllTokens | fa2.py:370-374 | the view lists `0 .. all_tokens-1` in order |
| Fa2.ViewsAgree | fa2.py:339-394 | on a valid storage, a token exists iff it is below `count_tokens`, iff `all_tokens` lists it, iff `total_supply` is defined. That supply is the sum of its balances and bounds each defined balance |
| Fa2.Fa2Contract.Mint | fa2.py:149-187 | the in-place entry point agrees with `MintStep`, keeps the storage invariant and leaves the state unchanged on failure |
| Fa2.Fa2Contract.Transfer | fa2.py:190-230 | the in-place entry point, with its nested loops, agrees with `TransferStep`, keeps the invariant and rolls back on failure |
| Fa2.Fa2Contract.UpdateOperators | fa2.py:274-296 | the in-place loop agrees with `UpdateOperatorsStep`, keeps the storage invariant and leaves the state unchanged on failure |
| Fa2.Fa2Contract.SetAdministrator | fa2.py:298-309 | agrees with `SetAdministratorStep`, keeps the storage invariant and leaves the state unchanged on failure |
| Fa2.Fa2Contract.SetPause | fa2.py:326-337 | agrees with `SetPauseStep`, keeps the storage invariant and leaves the state unchanged on failure |
| Fa2Mock.Origination | fa2-mocks/fa2.py:49-86 | the initial storage satisfies the invariant |
| Fa2Mock.MintSpec | fa2-mocks/fa2.py:130-149 | mint is administrator-only. The new id is the old counter, which grows by one; the sender's balance and the new supply are `amount`; no other balance changes |
| Fa2Mock.MintValid | fa2-mocks/fa2.py:130-149 | mint keeps the invariant: rows and supplies only for ids below the counter, each supply the sum of its balances |
| Fa2Mock.MoveConserves | fa2-mocks/fa2.py:183-193 | the debit, then the credit read after it, keep the token's sum of balances |
| Fa2Mock.TxSpec | fa2-mocks/fa2.py:166-193 | a tx fails with "FA2_TOKEN_UNDEFINED" for an id not below the counter. It then fails with "FA2_NOT_OPERATOR" unless the sender is the owner or an operator (no administrator exception), and then with "FA2_INSUFFICIENT_BALANCE" when the balance (an absent row counting 0) is below the amount. Otherwise the amount moves; a tx to oneself or of 0 editions changes nothing |
| Fa2Mock.TxValid | fa2-mocks/fa2.py:166-193 | a tx keeps the invariant and every token's sum |
| Fa2Mock.TransferValid | fa2-mocks/fa2.py:152-193 | a successful batch changes only the ledger and keeps every token's sum and the invariant |
| Fa2Mock.UpdateOperatorsSpec | fa2-mocks/fa2.py:224-254 | a batch of updates succeeds exactly when every update names an existing id and the sender is the owner, failing otherwise with "FA2_TOKEN_UNDEFINED" or "FA2_SENDER_IS_NOT_OWNER". When the sender owns every named key and some named id is not minted, the message is "FA2_TOKEN_UNDEFINED"; when every named id is minted and the sender does not own some key, it is "FA2_SENDER_IS_NOT_OWNER". On success only the operator set changes. After a successful batch, a key no update names keeps its membership, and a named key is an operator exactly when the last update naming it adds it |
| Tzip12.LastUpdateCons | fa2.py:283-296 | a batch of updates, taken one update at a time, leaves the operator set that its last update per key decides |
| Fa2Mock.AddThenRemove | fa2-mocks/fa2.py:233-254 | the owner adding then removing the same operator of an existing token restores the set when it lacked that key |
| Fa2Mock.HandoffSpec | fa2-mocks/fa2.py:256-282 | only the administrator proposes a successor, and that sets only the pending proposal. Acceptance fails with "FA_NO_NEW_ADMIN" when none is pending and with "FA_NOT_PROPOSED_ADMIN" for another sender. In any storage with a pending proposal, the proposed address accepting becomes the administrator and clears the proposal; nothing else changes |
| Fa2Mock.AllTokens | fa2-mocks/fa2.py:343-347 | the view lists `0 .. counter-1` in order |
| Fa2Mock.ViewsAgree | fa2-mocks/fa2.py:299-360 | a token exists iff `all_tokens` lists it, iff the balance, supply and operator views are defined. An absent ledger row of an existing token reads as balance 0. On a valid storage, the supply view is the sum of balances and bounds each balance |
| Fa2Mock.AbsentReadsZero | fa2-mocks/fa2.py:316-341 | for an existing token, an absent ledger row reads as balance 0 and an absent supply entry reads as supply 0 |
| Fa2Mock.Fa2MockContract.Mint | fa2-mocks/fa2.py:130-149 | the in-place entry point agrees with `MintStep`, keeps the storage invariant and leaves the state unchanged on failure |
| Fa2Mock.Fa2MockContract.Transfer | fa2-mocks/fa2.py:152-193 | the in-place entry point, with its nested loops, agrees with `TransferStep` and rolls back on failure |
| Fa2Mock.Fa2MockContract.UpdateOperators | fa2-mocks/fa2.py:224-254 | the in-place loop agrees with `UpdateOperatorsStep`, keeps the storage invariant and leaves the state unchanged on failure |
| Fa2Mock.Fa2MockContract.TransferAdministrator | fa2-mocks/fa2.py:256-267 | agrees with `TransferAdministratorStep`, keeps the storage invariant and leaves the state unchanged on failure |
| Fa2Mock.Fa2MockContract.AcceptAdministrator | fa2-mocks/fa2.py:269-282 | agrees with `AcceptAdministratorStep`, keeps the storage invariant and leaves the state unchanged on failure |
| Settlement.TransferOpSpec | contracts/xtzfa2swap.py:293-321 | one emitted transfer, sent by the swap to an fa2.py ledger, succeeds exactly when the contract exists, is not paused, lets the swap move the owner's editions, knows the token and finds a large enough row. It then moves exactly `amount` editions and changes nothing else |
| Settlement.ApplyOpsAppend | contracts/xtzfa2swap.py:293-321 | applying two operation lists in sequence is applying their concatenation |
| Settlement.ProbeNetZero | contracts/xtzfa2swap.py:131-148 | applied to fa2.py ledgers, the ownership probe leaves every balance of every contract unchanged. It succeeds only if, for every offered leg, the FA2 contract is not paused, the proposer holds the editions, the token exists and the swap may move them |
| Settlement.ExecutionSwaps | contracts/xtzfa2swap.py:276-291 | applying a one-leg-for-one-leg execution moves the proposer's leg to the acceptor and the acceptor's leg to the proposer, and nothing else |
| Settlement.ExecutionSwapsBalances | contracts/xtzfa2swap.py:276-291 | for two different token kinds, each user's balance of each kind changes by exactly the leg amount, in the expected direction |
| Settlement.ApplyOpsConserves | fa2.py:190-230 | any successfully applied operation list keeps every ledger valid, changes no contract outside its ledger and keeps every token's sum of balances |

## Findings

| source | as written | input that shows it | evidently intended | confidence | as-written member | corrected member |
|---|---|---|---|---|---|---|
| swap.py:187 | the execution trigger is `user2_accepted & user2_accepted`, never testing `user1_accepted` | user 2 calls `accept_trade` with no tez on a freshly proposed trade: the trigger fires, `execute_trade` finds user 1's flag false, and the whole call fails with "One of the users didn't accept the trade" | `user1_accepted & user2_accepted`, so that either user may accept first | high (not executed) | Barter.User2FirstAborts | Barter.User2FirstRecorded |

The corrected definition is `Barter.AcceptStep`; the trigger exactly as written is `Barter.AcceptStepAsWritten`. `Barter.TriggersAgree` and `Barter.AsWrittenSpec` show the two differ only when user 2 accepts before user 1. The class, `Barter.Step` and `Barter.StepSpec` use the corrected trigger.

Even with the correction, `execute_trade` still demands a call without tez (swap.py:252). So when user 2 accepts first and `mutez_amount` is nonzero, user 1's acceptance, which must carry `mutez_amount`, aborts with "The operation does not need tez transfers". `Barter.AcceptSpec` states this case: failure when the other user has accepted and tez come with the call.

## Left out

- Contract metadata (TZIP-16), `set_metadata`, the `token_metadata`/`token_data`/`token_royalties` views and the compilation targets: configuration that only stores or returns bytes.
- The `balance_of` entry points of both FA2 ledgers: they only send lookups to a callback contract.
- `fa2_update_operators` in swap.py: an unused helper that calls a remote entry point.
- Michelson plumbing: `sp.transfer`, `sp.send` and the `sp.contract(...).open_some()` lookup become entries of the emitted operation list. A missing `transfer` entry point becomes a failure of `Settlement.ApplyOp`, not a failure of the swap call itself; both abort the same chain of operations.
- Gas, operation-queue ordering between contracts, and the tez balances of accounts: `Settlement` applies only token transfers and ignores tez sends. The tez side is covered by the escrow accounting of `StepSpec` in the two swaps.
- Royalties, a denylist, an administrator or executor of the XTZ/FA2 swap, and a rule that the proposer cannot accept: the test scenarios exercise them, but contracts/xtzfa2swap.py has none of them.
- The SmartPy test scenarios (test/xtzfa2swap_test.py): they drive the contracts and are not part of them.
- Addresses are modelled as natural numbers: only their equality matters to these contracts.
- Mutez amounts are unbounded natural numbers, not the 64-bit mutez of Michelson: the contracts only compare and forward amounts (no mutez addition or subtraction happens in them), so no overflow can arise.
- Fa2.TxBalanceErrors: a read of an absent big-map row in fa2.py (`ledger[(owner, id)]`) fails in Michelson without a message string; the model reports it with the stand-in message "missing big map key". The same stand-in is used for the `get_balance` and `total_supply` views of fa2.py.
- Settlement.ProbeNetZero: balances are compared with absent rows counting as 0. In fa2.py the probe may also leave a new zero row for the contract itself in a ledger that had none, so the ledger maps themselves are not stated equal.
- Settlement.ExecutionSwaps: stated for one leg on each side. Longer legs go through the same single-transfer lemma, `Settlement.TransferOpSpec`, one operation at a time.
- Settlement models only the fa2.py ledger as counterparty; the mock's transfer differs only in its checks (see `Fa2Mock.TxSpec`), and its effect on balances is the same.
- Barter.AcceptSpec: stated for the corrected trigger of swap.py:187. For the code as written, `Barter.AsWrittenSpec` gives the one case where the result differs (user 2 accepting before user 1 aborts).
- Barter.StepSpec and the class `Barter.BarterContract` use the corrected trigger of swap.py:187. The trigger as written, `Barter.AcceptStepAsWritten`, is modelled as a function with its own lemmas, not as a second in-place method.

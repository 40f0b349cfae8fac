# WarningFlags: a verified model

`WarningFlags` is a small on-chain registry from the Chainlink contracts. A
single owner raises or lowers a warning flag on any address. Anyone may read
the flag of an address. An address that was never written reads `false`.
The contract emits `WarningFlagOn(subject)` or `WarningFlagOff(subject)` only
when the stored flag really changes, so repeating a call emits nothing. Any
account other than the owner that calls a mutator is refused with
"Only callable by owner", and the whole call has no effect. The owner is the
deploying account. Ownership moves in two steps: the owner nominates a
successor with `transferOwnership`, and the successor calls `acceptOwnership`.

The contract's implementation is not part of this model. Its behaviour is
taken from its test suite, `evm-contracts/test/v0.6/WarningFlags.test.ts`.

The project has three modules:

- `Owned` (`owned.dfy`) is the ownership half. It holds the owner and the
  nominee as a pair of values, the owner gate `RequireOwner`, and the
  nominate/accept handoff. It also defines the revert errors and the result
  type of a call: `Ok`, or `Revert` with the state untouched.
- `WarningFlagsSpec` (`warning_flags.dfy`) is the contract as a pure state
  machine. Its state is the ownership pair, the flag mapping and the event
  log. It has one transition function per mutating call, plus `Apply`,
  `Commit` and `Run` for calls and sequences of calls. The lemmas there prove
  the log invariant for every reachable state. Per subject, the flag events
  in the log alternate On, Off, On, … starting with On, and the stored flag
  is the last value the log announced (`false` if none). So no call ever
  emits a redundant notification, and the flag can be rebuilt from the log.
- `WarningFlagsContract` (`contract.dfy`) is the deployed contract as a
  class. It has the fields `owner`, `pendingOwner`, `flags` and `events`,
  and each method does the contract's read-compare-write in place. Every
  method is proved to leave exactly the state that the matching transition
  of `WarningFlagsSpec` commits, and to return the same status. The object
  invariant `Valid()` is the log invariant above. Four client methods
  replay the test file, one per `describe` group. Each `it` case gets its
  own deployment, followed by the calls of the `beforeEach` blocks around
  it. The methods return what the tests observe: flag reads, receipts and
  revert reasons. Their contracts state what the tests assert.

Addresses are an abstract type compared only for equality. The caller of
each call (`msg.sender`) is an explicit parameter. A receipt's event list is
the slice of the log that one committed call appended (`Receipt`).

## Model

| member | source | states |
|---|---|---|
| `Owned.Deployed` | evm-contracts/test/v0.6/WarningFlags.test.ts:22-24 | the deploying account becomes the owner and nobody is nominated |
| `Owned.RequireOwner` | evm-contracts/test/v0.6/WarningFlags.test.ts:84-91 | the gate passes exactly the current owner; anyone else is refused with OnlyCallableByOwner |
| `Owned.TransferOwnership` | evm-contracts/test/v0.6/WarningFlags.test.ts:37-39 | (assumed) only the owner may nominate; on success the owner is unchanged, the nominee is `to`, and OwnershipTransferRequested(owner, to) is emitted |
| `Owned.AcceptOwnership` | evm-contracts/test/v0.6/WarningFlags.test.ts:37-39 | (assumed) succeeds exactly for the nominee, who becomes owner with the nomination cleared and OwnershipTransferred(old owner, nominee) emitted; fails with NoPendingTransfer when nobody is nominated and NotProposedOwner for anyone else |
| `Owned.HandoffNeedsAcceptance` | evm-contracts/test/v0.6/WarningFlags.test.ts:36-39 | (assumed) after A nominates B, B still fails the owner gate; after B accepts, B is owner and A fails the gate |
| `Owned.Reason` | evm-contracts/test/v0.6/WarningFlags.test.ts:84-91 | the reason string is "Only callable by owner" exactly for the owner-gate error |
| `WarningFlagsSpec.Deploy` | evm-contracts/test/v0.6/WarningFlags.test.ts:22-24 | the deployer owns the fresh contract, every subject reads false, and the log is empty |
| `WarningFlagsSpec.GetWarningFlag` | evm-contracts/test/v0.6/WarningFlags.test.ts:46 | a subject with no stored entry reads false; otherwise the read is the stored flag |
| `WarningFlagsSpec.Receipt` | evm-contracts/test/v0.6/WarningFlags.test.ts:55-66 | a receipt is exactly what one call appended: the log afterwards is the log before followed by the receipt |
| `WarningFlagsSpec.Raise` | evm-contracts/test/v0.6/WarningFlags.test.ts:43-91 | reverts with OnlyCallableByOwner exactly when the caller is not the owner; on success the subject reads true, every other subject and the ownership are unchanged, and the receipt is [WarningFlagOn(subject)] if the flag was lowered and empty if it was already raised, in which case the state is unchanged |
| `WarningFlagsSpec.Lower` | evm-contracts/test/v0.6/WarningFlags.test.ts:94-146 | reverts with OnlyCallableByOwner exactly when the caller is not the owner; on success the subject reads false, every other subject and the ownership are unchanged, and the receipt is [WarningFlagOff(subject)] if the flag was raised and empty if it was already lowered, in which case the state is unchanged |
| `WarningFlagsSpec.WithOwnership` | evm-contracts/test/v0.6/WarningFlags.test.ts:36-39 | an ownership step leaves the flags alone and appends its one ownership event; a refused step reverts with the same error |
| `WarningFlagsSpec.Apply` | evm-contracts/test/v0.6/WarningFlags.test.ts:31-41 | any committed call of the public interface only appends to the log, and at most one event; it never removes a flag entry; a flag mutator reverts exactly when the caller is not the owner |
| `WarningFlagsSpec.DeployFaithful` | evm-contracts/test/v0.6/WarningFlags.test.ts:46 | at deployment the log invariant holds: no flag events and every flag false |
| `WarningFlagsSpec.ApplyKeepsFaithful` | evm-contracts/test/v0.6/WarningFlags.test.ts:43-147 | every call, committed or reverted, preserves the log invariant |
| `WarningFlagsSpec.RunKeepsFaithful` | evm-contracts/test/v0.6/WarningFlags.test.ts:43-147 | any sequence of calls preserves the log invariant |
| `WarningFlagsSpec.ReachableLogIsFaithful` | evm-contracts/test/v0.6/WarningFlags.test.ts:43-147 | in every state reachable from deployment, a subject's flag events start with On, never repeat a value twice in a row, and end in the stored flag |
| `WarningFlagsSpec.RunOnlyGrows` | evm-contracts/test/v0.6/WarningFlags.test.ts:43-147 | whatever calls are made, the event log only grows at its end and the flag mapping never loses an entry |
| `WarningFlagsSpec.StrangerChangesNothing` | evm-contracts/test/v0.6/WarningFlags.test.ts:139-146 | any number of calls by an account that is neither owner nor nominee leaves owner, nominee, flags and log exactly as they were |
| `WarningFlagsSpec.RaiseTwice` | evm-contracts/test/v0.6/WarningFlags.test.ts:67-80 | raising a lowered flag twice gives the same state as raising it once, with exactly one WarningFlagOn(subject) in total |
| `WarningFlagsSpec.LowerTwice` | evm-contracts/test/v0.6/WarningFlags.test.ts:122-135 | lowering a raised flag twice gives the same state as lowering it once, with exactly one WarningFlagOff(subject) in total |
| `WarningFlagsSpec.Scenario` | evm-contracts/test/v0.6/WarningFlags.test.ts:43-91 | Alice deploys; Bob reads false; Alice raises Bob with one event; a repeat changes nothing; Carol's attempt to lower Bob reverts and Bob stays raised |
| `WarningFlagsContract.WarningFlags.constructor` | evm-contracts/test/v0.6/WarningFlags.test.ts:22-24 | the deployer is the owner, every subject reads false, the storage equals `Deploy(deployer)`, and the invariant holds |
| `WarningFlagsContract.WarningFlags.GetWarningFlag` | evm-contracts/test/v0.6/WarningFlags.test.ts:46 | the read agrees with the specification, and under the invariant it equals the last flag value the log announced for the subject (false if none) |
| `WarningFlagsContract.WarningFlags.SetWarningFlagOn` | evm-contracts/test/v0.6/WarningFlags.test.ts:43-91 | the new storage and the returned status are exactly what `Raise` commits (old storage on a revert); the invariant is preserved |
| `WarningFlagsContract.WarningFlags.SetWarningFlagOff` | evm-contracts/test/v0.6/WarningFlags.test.ts:94-146 | the new storage and the returned status are exactly what `Lower` commits (old storage on a revert); the invariant is preserved |
| `WarningFlagsContract.WarningFlags.TransferOwnership` | evm-contracts/test/v0.6/WarningFlags.test.ts:37-39 | (assumed) the new storage and status are exactly what `Owned.TransferOwnership` commits; the invariant is preserved |
| `WarningFlagsContract.WarningFlags.AcceptOwnership` | evm-contracts/test/v0.6/WarningFlags.test.ts:37-39 | (assumed) the new storage and status are exactly what `Owned.AcceptOwnership` commits; the invariant is preserved |
| `WarningFlagsContract.SetOnByOwnerCases` | evm-contracts/test/v0.6/WarningFlags.test.ts:44-82 | with Nelly as owner, Norbert reads false before and true after her raise; the receipt is exactly [WarningFlagOn(Norbert)]; after a first raise, a second raise has an empty receipt |
| `WarningFlagsContract.SetOnByNonOwnerCase` | evm-contracts/test/v0.6/WarningFlags.test.ts:84-91 | Neil's raise reverts with OnlyCallableByOwner, whose reason is "Only callable by owner"; the flag stays false and the log stays empty |
| `WarningFlagsContract.SetOffByOwnerCases` | evm-contracts/test/v0.6/WarningFlags.test.ts:94-137 | after Nelly raises Norbert, Norbert reads true before and false after her lower; the receipt is exactly [WarningFlagOff(Norbert)]; after a first lower, a second lower has an empty receipt |
| `WarningFlagsContract.SetOffByNonOwnerCase` | evm-contracts/test/v0.6/WarningFlags.test.ts:139-146 | after Nelly raises Norbert, Neil's lower reverts with OnlyCallableByOwner, whose reason is "Only callable by owner"; the flag stays raised |

## Left out

- The implementation of the contract is not part of this model. Everything
  about the flag registry comes from what its tests assert. Where the tests
  say nothing, the model states its assumption.
- `Owned.TransferOwnership`, `Owned.AcceptOwnership`, `Owned.HandoffNeedsAcceptance`: the tests only name these methods in the interface list and never call them. Their contracts are assumed: the usual nominate/accept handoff, where only the owner may nominate and `acceptOwnership` by anyone but the nominee reverts.
- `Owned.AcceptOwnership`: the order of its checks is assumed. It checks for a missing nomination first (`NoPendingTransfer`) and the caller second (`NotProposedOwner`).
- `Owned.Reason`: the strings "Must be proposed owner" and "No pending transfer" are assumed. Only "Only callable by owner" is asserted by the tests.
- The owner's read `owner()` is the `owner` field of the class (a public state variable). `getWarningFlag` is the class function `GetWarningFlag`.
- The test harness is not modelled: the provider, the personas, the snapshots, and the `beforeAll`/`beforeEach` wiring. The case structure survives as the per-case deployments in the four client methods.
- The contract factory, `connect`, asynchronous sending and receipts are not modelled. A receipt's events are modelled as the slice of the log that one call appended.
- The ABI matcher and the revert matcher are not modelled. A revert is modelled as an error value with the state left exactly as it was.
- EVM specifics are left out: gas, address encoding, the zero address as "no nominee" (modelled as `None`), and event indexing and topics.
- Concurrency is left out. Calls are applied one at a time, as the execution environment serialises them.

## Notes on the test file

- The two non-owner cases (lines 85 and 140) are titled "updates the warning flag", but both assert a revert. The model follows the assertions.
- The second "if a flag has already been raised" block (line 122) actually lowers the flag twice. The model follows what the block does.

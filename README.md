# stake.link stLINK subgraph handlers, in Dafny

The subgraph indexes stake.link contracts. Each handler takes one decoded event
or contract call and folds it into the host's entity store:

- `AccountState` records, one per account, keyed by the account's lower-case hex address;
- the `ProtocolEarnings` singleton, keyed `"protocol"`;
- event records (DistributeRewards, Withdraw, Transfer, Approval, AdminChanged,
  BeaconUpgraded, Upgraded), keyed by transaction hash and log index.

Most handlers write one event record first. Approval, BeaconUpgraded and
Upgraded write nothing else. Every other handler loads an AccountState (or the
ProtocolEarnings singleton), or creates it: with some fields at 0, except the
Withdraw handler of `src/mappings.ts`, which sets only `account` and so aborts
on its first read. It changes
one or two integer fields and saves. The proxy's balance refresh is the
exception: when the `balanceOf` read reverts it loads and saves nothing. All but the ERC20 template's Transfer
also stamp block number, timestamp and transaction hash; that one stamps
nothing. What differs from file to file is the arithmetic and which fields a
new record gets:

- `src/rewards-pool-wsd.ts` adds rewards and clamps a withdrawal at 0;
- `src/wrapped-sd-token.ts` moves wrappedTokenBalance and skips the zero address;
- `src/erc20.ts` moves stLinkBalance with no clamp and no zero-address case;
- `src/mappings.ts` copies call outputs, accumulates the protocol total and
  subtracts a withdrawal with no clamp;
- `src/erc-1967-proxy.ts` overwrites stLinkBalance with a `balanceOf` read that may revert.

## Structure

- `encoding.dfy` (`Encoding`): `Bytes.toHex` and `BigInt.toString` as functions,
  each with a parser proved to invert it.
- `entities.dfy` (`Entities`): the entities as datatypes and the store as a
  `Snapshot` value. It also holds the `Consistent` invariant, the zero-address
  literal and the balance totals.
- `store.dfy` (`EntityStores`): the class `EntityStore`, with one map field per
  entity type. `load` and `save` are methods over those maps. `Restore` is the
  host's rollback of an aborted handler.
- One module per source file: `RewardsPoolWsd`, `WrappedSdToken`, `Erc20`,
  `Mappings`, `Erc1967Proxy`. Each handler is a method `HandleX(store, …)` that
  changes the store step by step, in the source's order. Its postcondition
  equates the new store with a pure function `ApplyX` of the old one. The
  properties are proved about `ApplyX` and about the per-record transition it
  uses (`Rewarded`, `Withdrawn`, `Adjusted`, `Moved`, `Recorded`, `Refreshed`).
- `invariants.dfy` (`Invariants`): facts that span files. These are the store
  invariant, when a handler can abort, and the reward-pool test scenario.

Modelling choices:

- An `AccountState` field that no handler has assigned is `None`. Reading one
  aborts the handler, because the generated getter throws. An aborted handler
  returns `false`, and the host discards everything it saved: the store ends as
  it began.
- Event amounts, call outputs and `balanceOf` results are unsigned 256-bit
  values, modelled as `nat`. Balances are `int`, because the unclamped
  subtractions can make them negative.
- `balanceOf` is an `Option<nat>` argument, with `None` for a reverted call.
- An account id is `ToHex(address)`, proved injective. The record id built by
  `concatI32` is the constructor `ConcatI32Key(hash, logIndex)`, which is
  injective by construction. The id built by `createId` is a real string, and
  `ParseId` is proved to invert it.

A clamped, flagged transfer and withdrawal everywhere would be a reasonable
design. The code does not do that, and the model follows the code: only
`rewards-pool-wsd.ts` clamps, and nothing raises a warning flag.

## Model

| member | source | states |
|---|---|---|
| Encoding.ToHex | src/rewards-pool-wsd.ts:10 | `toHex()` output is "0x" plus two digits per byte and never contains a dash |
| Encoding.HexRoundTrip | src/mappings.ts:21 | parsing the hex text of a byte string gives back the byte string |
| Encoding.ToHexInjective | src/rewards-pool-wsd.ts:10 | two addresses share an AccountState id exactly when they are equal |
| Encoding.Decimal | src/mappings.ts:21 | `logIndex.toString()` is a non-empty run of decimal digits with no leading zero |
| Encoding.DecimalRoundTrip | src/mappings.ts:21 | parsing the decimal text of a log index gives back the log index |
| Entities.ZeroAddressIdIff | src/wrapped-sd-token.ts:35 | the literal the wrapped token compares against is the id of the zero address and of no other address |
| RewardsPoolWsd.GetOrCreateAccountState | src/rewards-pool-wsd.ts:9-22 | writes nothing; returns the stored record unchanged, or a new one with `account` set, stLinkBalance, rewardsAccumulated, wrappedRewards, withdrawableRewards, wrappedTokenBalance and lastUpdated at 0, shares and provenance unset |
| RewardsPoolWsd.Rewarded | src/rewards-pool-wsd.ts:40-45 | rewardsAccumulated becomes old + amount (never less than before), lastUpdated and provenance come from the event, no other field changes |
| RewardsPoolWsd.ApplyDistributeRewards | src/rewards-pool-wsd.ts:25-53 | aborts exactly when the sender's record has no rewardsAccumulated; otherwise writes one DistributeRewards record with the event's sender, amountStaked and amount, rewards only the sender's key, and leaves every other entity alone |
| RewardsPoolWsd.HandleDistributeRewards | src/rewards-pool-wsd.ts:25-53 | the record save, load-or-create, add, stamp and save, in source order, produce `ApplyDistributeRewards`, or no change on abort |
| RewardsPoolWsd.Withdrawn | src/rewards-pool-wsd.ts:72-85 | stLinkBalance becomes old - amount when old >= amount and 0 otherwise, so it is never negative and never above a non-negative old value; lastUpdated and provenance are stamped; no other field changes |
| RewardsPoolWsd.ApplyWithdraw | src/rewards-pool-wsd.ts:56-93 | aborts exactly when the record has no stLinkBalance; otherwise writes the Withdraw record and changes only the one account's key |
| RewardsPoolWsd.HandleWithdraw | src/rewards-pool-wsd.ts:56-93 | the imperative handler, with its clamp branch, produces `ApplyWithdraw`, or no change on abort |
| WrappedSdToken.ApplyApproval | src/wrapped-sd-token.ts:5-18 | adds one Approval record with owner, spender, value and provenance; every other Approval record and every other entity, AccountState included, keeps its value |
| WrappedSdToken.HandleApproval | src/wrapped-sd-token.ts:5-18 | the save produces `ApplyApproval` |
| WrappedSdToken.Adjusted | src/wrapped-sd-token.ts:47-51 | wrappedTokenBalance moves by the signed delta with no clamp, lastUpdated and provenance are stamped, no other field changes |
| WrappedSdToken.Side | src/wrapped-sd-token.ts:35-53 | a zero-address side changes nothing; any other side aborts exactly when its record has no wrappedTokenBalance, and otherwise saves only its own key |
| WrappedSdToken.TransferSide | src/wrapped-sd-token.ts:35-53 | the guarded load, adjust, stamp and save block produces `Side` |
| WrappedSdToken.ApplyTransfer | src/wrapped-sd-token.ts:20-74 | aborts exactly when a non-zero side's record lacks wrappedTokenBalance; otherwise writes the Transfer record and only the non-zero sides' accounts, all of which end up stored |
| WrappedSdToken.HandleTransfer | src/wrapped-sd-token.ts:20-74 | record save, then the `from` block, then the `to` block, produce `ApplyTransfer`, or no change on abort |
| WrappedSdToken.TransferSkipsZeroAddress | src/wrapped-sd-token.ts:35-55 | the zero address's record is neither created nor changed by any transfer |
| WrappedSdToken.TransferBetweenAccounts | src/wrapped-sd-token.ts:47-67 | for distinct accounts, a non-zero `from` has wrappedTokenBalance lowered by value and a non-zero `to` raised by value, mints and burns included; only lastUpdated and provenance change besides |
| WrappedSdToken.SelfTransferKeepsBalance | src/wrapped-sd-token.ts:47-72 | when from == to is non-zero, the `to` block reloads the saved `from` record, so the account ends as its original (or zeroed new) record with only lastUpdated and provenance stamped: wrappedTokenBalance and every other field are where they started |
| WrappedSdToken.TransferTotal | src/wrapped-sd-token.ts:35-73 | the sum of wrappedTokenBalance over stored accounts is unchanged by a transfer between non-zero accounts, rises by value on a mint and falls by value on a burn |
| WrappedSdToken.TransferToNewAccount | src/wrapped-sd-token.ts:56-72 | a new recipient starts with stLinkBalance, shares, rewardsAccumulated, wrappedRewards and withdrawableRewards at 0 and ends with wrappedTokenBalance = value |
| Erc20.Moved | src/erc20.ts:22-37 | stLinkBalance moves by the signed delta with no clamp; nothing else, provenance included, changes |
| Erc20.Side | src/erc20.ts:11-23 | one half aborts exactly when its record lacks stLinkBalance, and otherwise saves only its own key |
| Erc20.TransferSide | src/erc20.ts:11-23 | the load-or-create, change and save block produces `Side` |
| Erc20.ApplyTransfer | src/erc20.ts:6-46 | changes only the `from` and `to` keys; distinct accounts get old - value and old + value, and from == to ends exactly as it started (the second load sees the first save) |
| Erc20.HandleErc20Transfer | src/erc20.ts:6-46 | the two sequential halves produce `ApplyTransfer`, or no change on abort |
| Erc20.TransferConservesTotal | src/erc20.ts:11-38 | the sum of stLinkBalance over all stored accounts is unchanged, mints and burns included, since the zero address is debited or credited like any account |
| Erc20.TransferToNewAccount | src/erc20.ts:26-38 | a new recipient starts with the six numeric fields at 0, ends with stLinkBalance = value, and gets no provenance |
| Mappings.CreateId | src/mappings.ts:20-22 | the first dash in an id sits right after the hash's hex text, so the id splits unambiguously into hash and log index |
| Mappings.CreateIdRoundTrip | src/mappings.ts:20-22 | `ParseId` recovers the hash and the log index from every id that `createId` builds |
| Mappings.CreateIdInjective | src/mappings.ts:20-22 | distinct (hash, log index) pairs get distinct ids, whatever the hash lengths |
| Mappings.Recorded | src/mappings.ts:35-38 | the chosen output field holds the call output, provenance is stamped, the other three output fields and all remaining fields (lastUpdated included) are kept |
| Mappings.ApplyCall | src/mappings.ts:25-42 | a call handler changes only its account's key |
| Mappings.RecordCall | src/mappings.ts:27-39 | the shared load-or-create, set, stamp and save body produces `ApplyCall` |
| Mappings.HandleUserRewardPerTokenPaid | src/mappings.ts:25-42 | produces `ApplyCall` for userRewardPerTokenPaid |
| Mappings.HandleUserRewards | src/mappings.ts:45-62 | produces `ApplyCall` for userRewards |
| Mappings.HandleWithdrawableRewards | src/mappings.ts:65-82 | produces `ApplyCall` for withdrawableRewards |
| Mappings.HandleWithdrawableRewardsWrapped | src/mappings.ts:85-102 | produces `ApplyCall` for withdrawableRewardsWrapped |
| Mappings.CallOnNewAccount | src/mappings.ts:28-34 | a call on an unknown account first creates it with only stLinkBalance, rewardsAccumulated and wrappedRewards at 0 |
| Mappings.ApplyDistributeRewards | src/mappings.ts:105-131 | "protocol" totalRewardsDistributed becomes old (0 when absent) + amount and never decreases; one DistributeRewards record keyed by `createId`; no AccountState is touched |
| Mappings.HandleDistributeRewards | src/mappings.ts:105-131 | the record save and the protocol load-or-create, add and save produce `ApplyDistributeRewards` |
| Mappings.ApplyWithdraw | src/mappings.ts:134-157 | aborts exactly when the account is unknown (its new record has no stLinkBalance) or lacks stLinkBalance; otherwise stLinkBalance becomes old - amount with no clamp, provenance is stamped, lastUpdated and every other field are kept |
| Mappings.HandleWithdraw | src/mappings.ts:134-157 | the imperative handler produces `ApplyWithdraw`, or no change on abort |
| Erc1967Proxy.Refreshed | src/erc-1967-proxy.ts:127-131 | stLinkBalance is overwritten with the read, not added to; lastUpdated and provenance are stamped; no other field changes |
| Erc1967Proxy.ApplyBalance | src/erc-1967-proxy.ts:88-141 | a reverted read leaves the store exactly as it was; a successful one changes only the account's key |
| Erc1967Proxy.UpdateAccountBalance | src/erc-1967-proxy.ts:88-141 | the branch on the read, load-or-create, overwrite, stamp and save produce `ApplyBalance` |
| Erc1967Proxy.BalanceIdempotent | src/erc-1967-proxy.ts:127-139 | applying the same read and event twice gives the store that applying it once gives |
| Erc1967Proxy.BalanceForNewAccount | src/erc-1967-proxy.ts:114-131 | an unknown account is created with the six numeric fields at 0, then stLinkBalance is overwritten with the read |
| Erc1967Proxy.ApplyTransfer | src/erc-1967-proxy.ts:36-49 | only the `from` and `to` keys can change |
| Erc1967Proxy.HandleErc20Transfer | src/erc-1967-proxy.ts:36-49 | refreshing `from` then `to` produces `ApplyTransfer` |
| Erc1967Proxy.TransferBalances | src/erc-1967-proxy.ts:44-45 | each side ends with its own read; when from == to the second read wins, or the first when the second reverts; a side whose read reverted keeps its record (or stays absent); two reverted reads change nothing |
| Erc1967Proxy.ApplyAdminChanged | src/erc-1967-proxy.ts:16-33 | writes the AdminChanged record with previousAdmin, newAdmin and provenance, then refreshes newAdmin only, exactly as the balance refresh does (overwrite, stamp, other fields kept) |
| Erc1967Proxy.HandleAdminChanged | src/erc-1967-proxy.ts:16-33 | the record save followed by the refresh produces `ApplyAdminChanged` |
| Erc1967Proxy.ApplyBeaconUpgraded | src/erc-1967-proxy.ts:51-67 | adds one BeaconUpgraded record; every other BeaconUpgraded record and every other entity, AccountState included, keeps its value |
| Erc1967Proxy.HandleBeaconUpgraded | src/erc-1967-proxy.ts:51-67 | the save produces `ApplyBeaconUpgraded` |
| Erc1967Proxy.ApplyUpgraded | src/erc-1967-proxy.ts:69-85 | adds one Upgraded record; every other Upgraded record and every other entity, AccountState included, keeps its value |
| Erc1967Proxy.HandleUpgraded | src/erc-1967-proxy.ts:69-85 | the save produces `ApplyUpgraded` |
| Invariants.RewardsPoolDistributeKeepsConsistent | src/rewards-pool-wsd.ts:40-52 | on a consistent store the reward never aborts, and the store stays consistent |
| Invariants.RewardsPoolWithdrawKeepsConsistent | src/rewards-pool-wsd.ts:70-92 | on a consistent store the clamped withdrawal never aborts, and the store stays consistent |
| Invariants.Erc20TransferKeepsConsistent | src/erc20.ts:11-38 | on a consistent store the ERC20 transfer never aborts, and the store stays consistent |
| Invariants.WrappedSideKeepsConsistent | src/wrapped-sd-token.ts:35-53 | one guarded block of the wrapped transfer keeps the store consistent |
| Invariants.WrappedTransferKeepsConsistent | src/wrapped-sd-token.ts:20-74 | a wrapped transfer that completes keeps the store consistent |
| Invariants.CallKeepsConsistent | src/mappings.ts:25-42 | a call handler keeps the store consistent |
| Invariants.ProtocolDistributeKeepsConsistent | src/mappings.ts:105-131 | the protocol-total handler keeps the store consistent |
| Invariants.MappingsWithdrawAbortsOnlyForUnknown | src/mappings.ts:145-154 | on a consistent store the unclamped withdrawal aborts exactly when the account has no record, and otherwise keeps the store consistent |
| Invariants.BalanceRefreshKeepsConsistent | src/erc-1967-proxy.ts:103-139 | the balance refresh keeps the store consistent |
| Invariants.ProxyTransferKeepsConsistent | src/erc-1967-proxy.ts:36-49 | the proxy transfer keeps the store consistent |
| Invariants.AdminChangedKeepsConsistent | src/erc-1967-proxy.ts:16-33 | AdminChanged keeps the store consistent |
| Invariants.CallCreatedAccountBlocksWrappedTransfer | src/mappings.ts:28-34 | a record first created by a call handler has no wrappedTokenBalance, so a later wrapped-token transfer from that account aborts, although the store is consistent; this rests on save-time required-field checks not being modelled, since if wrappedTokenBalance is required the host would most likely refuse the call handler's save first |
| Invariants.RewardsPoolDistributeOnEmptyStore | tests/rewards-pool-wsd.test.ts:40-61 | DistributeRewards(sender, 234, 234) on an empty store leaves exactly one DistributeRewards record, with that sender, amountStaked and amount, and the sender's rewardsAccumulated at 234 |
| Invariants.ProtocolDistributeOnEmptyStore | src/mappings.ts:105-131 | the same event through the `createId` mapping leaves totalRewardsDistributed at 234, one record keyed by `createId`, and no AccountState |

## Left out

- `ERC20Template.create` (src/erc-1967-proxy.ts:18, 48, 53, 71) registers a dynamic data source with the host and leaves no state these handlers can see.
- `ERC20.bind` and `try_balanceOf` are contract calls. Each read is an `Option<nat>` argument, so the `STLINK_ADDRESS` constant and the RPC do not appear.
- `log.info` and `log.warning` only log. The warning on an over-withdrawal is not recorded.
- The byte layout of `concatI32`, including the i32 truncation of the log index, is not modelled. Its ids are the injective constructor `ConcatI32Key`.
- The host's schema checks on `save()` are not modelled (no `schema.graphql` is part of this model). A required field left unset at save time goes unnoticed, and only a read of an unset field aborts.
- After an aborted handler the host halts the subgraph. The model keeps only the rollback of that handler's writes.
- The test expects the record id `"<hash>-1"`. That is the `createId` format of src/mappings.ts:21, not the `concatI32` key the tested handler uses, so the scenario lemma checks the key the handler actually writes.
- tests/rewards-pool-wsd-utils.ts only builds mock events.
- The code has no event ordering, replay deduplication, reorg handling, persistence or query serving; the host provides them, and they are not modelled.
- Erc1967Proxy.ApplyTransfer: its own contract states only which keys may change. The resulting balances, including the case where one read reverts, are stated in `Erc1967Proxy.TransferBalances`.

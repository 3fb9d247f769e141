/** Facts that span the handler files: every handler keeps the store
    `Consistent`; on a consistent store the reward-pool and ERC20 handlers never
    abort and the `createId` withdrawal aborts exactly for an unknown account;
    the wrapped-token transfer can still abort on a record a call handler made. */
module Invariants {
  import opened Wrappers
  import opened Encoding
  import opened Entities
  import RewardsPoolWsd
  import WrappedSdToken
  import Erc20
  import Mappings
  import Erc1967Proxy

  lemma RewardsPoolDistributeKeepsConsistent(s: Snapshot, p: Provenance, logIndex: nat, sender: Address,
                                             amountStaked: nat, amount: nat)
    requires Consistent(s.accounts)
    ensures var r := RewardsPoolWsd.ApplyDistributeRewards(s, p, logIndex, sender, amountStaked, amount);
      r.Some? && Consistent(r.value.accounts)
  {
  }

  lemma RewardsPoolWithdrawKeepsConsistent(s: Snapshot, p: Provenance, logIndex: nat, account: Address, amount: nat)
    requires Consistent(s.accounts)
    ensures var r := RewardsPoolWsd.ApplyWithdraw(s, p, logIndex, account, amount);
      r.Some? && Consistent(r.value.accounts)
  {
  }

  lemma Erc20TransferKeepsConsistent(s: Snapshot, from: Address, to: Address, value: nat)
    requires Consistent(s.accounts)
    ensures var r := Erc20.ApplyTransfer(s, from, to, value);
      r.Some? && Consistent(r.value.accounts)
  {
    var r := Erc20.ApplyTransfer(s, from, to, value).value;
    if AccountId(from) == AccountId(to) {
      ToHexInjective(from, to);
    }
  }

  lemma WrappedSideKeepsConsistent(m: map<string, AccountState>, a: Address, delta: int, p: Provenance)
    requires Consistent(m)
    requires WrappedSdToken.Side(m, a, delta, p).Some?
    ensures Consistent(WrappedSdToken.Side(m, a, delta, p).value)
  {
    if !WrappedSdToken.IsZero(a) {
      assert AccountId(LoadOrZeroed(m, a).account) == AccountId(a);
    }
  }

  lemma WrappedTransferKeepsConsistent(s: Snapshot, p: Provenance, logIndex: nat, from: Address, to: Address, value: nat)
    requires Consistent(s.accounts)
    requires WrappedSdToken.ApplyTransfer(s, p, logIndex, from, to, value).Some?
    ensures Consistent(WrappedSdToken.ApplyTransfer(s, p, logIndex, from, to, value).value.accounts)
  {
    WrappedSideKeepsConsistent(s.accounts, from, -(value as int), p);
    var debited := WrappedSdToken.Side(s.accounts, from, -(value as int), p).value;
    WrappedSideKeepsConsistent(debited, to, value, p);
  }

  lemma CallKeepsConsistent(s: Snapshot, call: Mappings.RewardsCall, account: Address, value: nat, p: Provenance)
    requires Consistent(s.accounts)
    ensures Consistent(Mappings.ApplyCall(s, call, account, value, p).accounts)
  {
  }

  lemma ProtocolDistributeKeepsConsistent(s: Snapshot, p: Provenance, logIndex: nat, sender: Address,
                                          amountStaked: nat, amount: nat)
    requires Consistent(s.accounts)
    ensures Consistent(Mappings.ApplyDistributeRewards(s, p, logIndex, sender, amountStaked, amount).accounts)
  {
  }

  /** On a consistent store the `createId` withdrawal aborts exactly when the
      account has no record yet, and otherwise keeps the store consistent. */
  lemma MappingsWithdrawAbortsOnlyForUnknown(s: Snapshot, p: Provenance, logIndex: nat, account: Address, amount: nat)
    requires Consistent(s.accounts)
    ensures var r := Mappings.ApplyWithdraw(s, p, logIndex, account, amount);
      && (r.None? <==> AccountId(account) !in s.accounts)
      && (r.Some? ==> Consistent(r.value.accounts))
  {
  }

  lemma BalanceRefreshKeepsConsistent(s: Snapshot, account: Address, read: Option<nat>, p: Provenance)
    requires Consistent(s.accounts)
    ensures Consistent(Erc1967Proxy.ApplyBalance(s, account, read, p).accounts)
  {
  }

  lemma ProxyTransferKeepsConsistent(s: Snapshot, from: Address, to: Address, fromRead: Option<nat>,
                                     toRead: Option<nat>, p: Provenance)
    requires Consistent(s.accounts)
    ensures Consistent(Erc1967Proxy.ApplyTransfer(s, from, to, fromRead, toRead, p).accounts)
  {
    BalanceRefreshKeepsConsistent(s, from, fromRead, p);
    BalanceRefreshKeepsConsistent(Erc1967Proxy.ApplyBalance(s, from, fromRead, p), to, toRead, p);
  }

  /** A record first created by a call handler has no wrappedTokenBalance, so a
      later wrapped-token transfer from that account aborts. This rests on the
      model not checking required fields at save time: the unguarded subtraction
      in the wrapped-token handler suggests wrappedTokenBalance is a required
      field, in which case the host would most likely refuse the call handler's
      save before any transfer is reached. */
  lemma CallCreatedAccountBlocksWrappedTransfer(p: Provenance, logIndex: nat, call: Mappings.RewardsCall,
                                                output: nat, a: Address, to: Address, value: nat)
    requires a != ZeroAddress
    ensures var s := Mappings.ApplyCall(EmptySnapshot, call, a, output, p);
      && Consistent(s.accounts)
      && WrappedSdToken.ApplyTransfer(s, p, logIndex, a, to, value).None?
  {
    ZeroAddressIdIff(a);
  }

  /** The reward-pool test: one DistributeRewards(sender, 234, 234) on an empty
      store leaves exactly one DistributeRewards record, holding the event's
      sender, amountStaked and amount, and the sender's rewardsAccumulated at 234. */
  lemma RewardsPoolDistributeOnEmptyStore(p: Provenance, logIndex: nat, sender: Address)
    ensures var r := RewardsPoolWsd.ApplyDistributeRewards(EmptySnapshot, p, logIndex, sender, 234, 234);
      && r.Some?
      && |r.value.distributeRewards| == 1
      && var key := ConcatI32Key(p.transactionHash, logIndex);
      && key in r.value.distributeRewards
      && r.value.distributeRewards[key].sender == sender
      && r.value.distributeRewards[key].amountStaked == 234
      && r.value.distributeRewards[key].amount == 234
      && r.value.accounts[AccountId(sender)].rewardsAccumulated == Some(234)
  {
    var r := RewardsPoolWsd.ApplyDistributeRewards(EmptySnapshot, p, logIndex, sender, 234, 234).value;
    assert r.distributeRewards.Keys == {ConcatI32Key(p.transactionHash, logIndex)};
  }

  lemma AdminChangedKeepsConsistent(s: Snapshot, p: Provenance, logIndex: nat, previousAdmin: Address,
                                    newAdmin: Address, read: Option<nat>)
    requires Consistent(s.accounts)
    ensures Consistent(Erc1967Proxy.ApplyAdminChanged(s, p, logIndex, previousAdmin, newAdmin, read).accounts)
  {
    var logged := s.(adminChanges :=
      s.adminChanges[ConcatI32Key(p.transactionHash, logIndex) := AdminChanged(previousAdmin, newAdmin, p)]);
    BalanceRefreshKeepsConsistent(logged, newAdmin, read, p);
  }

  /** The protocol-total scenario: one DistributeRewards(sender, 234, 234) on an
      empty store leaves totalRewardsDistributed at 234, one record keyed by
      `createId`, and no AccountState. */
  lemma ProtocolDistributeOnEmptyStore(p: Provenance, logIndex: nat, sender: Address)
    ensures var r := Mappings.ApplyDistributeRewards(EmptySnapshot, p, logIndex, sender, 234, 234);
      && r.protocolEarnings[ProtocolId].totalRewardsDistributed == 234
      && r.distributeRewards.Keys == {StringKey(Mappings.CreateId(p.transactionHash, logIndex))}
      && r.accounts == map[]
  {
  }
}

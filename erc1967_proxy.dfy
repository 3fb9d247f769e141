/** The ERC1967 proxy handlers. `updateAccountBalance` overwrites an account's
    stLinkBalance with what the token's `balanceOf` returned; the contract read
    is a parameter, `None` when the call reverted, in which case nothing is
    written. AdminChanged refreshes the new admin; Transfer refreshes `from`
    then `to`; BeaconUpgraded and Upgraded are only logged. */
module Erc1967Proxy {
  import opened Wrappers
  import opened Entities
  import opened EntityStores

  /** The account's record once `balance` has been read: stLinkBalance is
      overwritten (not added to), lastUpdated and provenance come from the
      event, every other field is kept. */
  function Refreshed(a: AccountState, balance: nat, p: Provenance): (b: AccountState)
    ensures b.stLinkBalance == Some(balance)
    ensures b.provenance == Some(p) && b.lastUpdated == Some(p.blockTimestamp)
    ensures b.(stLinkBalance := a.stLinkBalance, lastUpdated := a.lastUpdated, provenance := a.provenance) == a
  {
    StampUpdated(a.(stLinkBalance := Some(balance)), p)
  }

  /** `updateAccountBalance` with the result of `balanceOf(account)`. */
  function ApplyBalance(s: Snapshot, account: Address, read: Option<nat>, p: Provenance): (r: Snapshot)
    ensures read.None? ==> r == s
    ensures read.Some? ==>
      r.accounts == s.accounts[AccountId(account) := Refreshed(LoadOrZeroed(s.accounts, account), read.value, p)]
    ensures OnlyAccountsChanged(s, r, {AccountId(account)})
  {
    match read
    case None => s
    case Some(balance) =>
      var id := AccountId(account);
      var updated := Refreshed(LoadOrZeroed(s.accounts, account), balance, p);
      assert s.accounts[id := updated] - {id} == s.accounts - {id};
      s.(accounts := s.accounts[id := updated])
  }

  method UpdateAccountBalance(store: EntityStore, account: Address, read: Option<nat>, p: Provenance)
    modifies store
    ensures store.State() == ApplyBalance(old(store.State()), account, read, p)
  {
    if read.None? {
      return;
    }
    var loaded := store.LoadAccount(AccountId(account));
    var a: AccountState;
    if loaded.None? {
      a := NewAccountState(account);
      a := a.(stLinkBalance := Some(0), rewardsAccumulated := Some(0), wrappedRewards := Some(0));
      a := a.(withdrawableRewards := Some(0), wrappedTokenBalance := Some(0), shares := Some(0));
    } else {
      a := loaded.value;
    }
    a := a.(stLinkBalance := Some(read.value));
    a := a.(provenance := Some(p), lastUpdated := Some(p.blockTimestamp));
    store.SaveAccount(AccountId(account), a);
  }

  /** Refreshing twice with the same read and event gives the store a single
      refresh gives. */
  lemma BalanceIdempotent(s: Snapshot, account: Address, read: Option<nat>, p: Provenance)
    ensures ApplyBalance(ApplyBalance(s, account, read, p), account, read, p) == ApplyBalance(s, account, read, p)
  {
    if read.Some? {
      var once := ApplyBalance(s, account, read, p);
      var a := LoadOrZeroed(s.accounts, account);
      assert LoadOrZeroed(once.accounts, account) == Refreshed(a, read.value, p);
      assert Refreshed(Refreshed(a, read.value, p), read.value, p) == Refreshed(a, read.value, p);
    }
  }

  /** `handleERC20Transfer` on the proxy: refresh `from`, then `to`. */
  function ApplyTransfer(s: Snapshot, from: Address, to: Address, fromRead: Option<nat>, toRead: Option<nat>,
                         p: Provenance): (r: Snapshot)
    ensures OnlyAccountsChanged(s, r, {AccountId(from), AccountId(to)})
  {
    var r := ApplyBalance(ApplyBalance(s, from, fromRead, p), to, toRead, p);
    assert r.accounts - {AccountId(from), AccountId(to)} == s.accounts - {AccountId(from), AccountId(to)} by {
      var m1 := ApplyBalance(s, from, fromRead, p).accounts;
      assert m1 - {AccountId(from)} == s.accounts - {AccountId(from)};
      assert r.accounts - {AccountId(to)} == m1 - {AccountId(to)};
      assert r.accounts - {AccountId(from), AccountId(to)} == (r.accounts - {AccountId(to)}) - {AccountId(from)};
      assert s.accounts - {AccountId(from), AccountId(to)} == (s.accounts - {AccountId(from)}) - {AccountId(to)};
    }
    r
  }

  method HandleErc20Transfer(store: EntityStore, from: Address, to: Address, fromRead: Option<nat>,
                             toRead: Option<nat>, p: Provenance)
    modifies store
    ensures store.State() == ApplyTransfer(old(store.State()), from, to, fromRead, toRead, p)
  {
    UpdateAccountBalance(store, from, fromRead, p);
    UpdateAccountBalance(store, to, toRead, p);
  }

  /** Each side of a proxy transfer ends with the balance read for it; when
      `from` and `to` are one account the second read wins, and a reverted
      read leaves what was there. */
  lemma TransferBalances(s: Snapshot, from: Address, to: Address, fromRead: Option<nat>, toRead: Option<nat>,
                         p: Provenance)
    ensures var after := ApplyTransfer(s, from, to, fromRead, toRead, p).accounts;
      && (toRead.Some? ==> AccountId(to) in after && after[AccountId(to)].stLinkBalance == Some(toRead.value))
      && (fromRead.Some? && AccountId(from) != AccountId(to) ==>
            AccountId(from) in after && after[AccountId(from)].stLinkBalance == Some(fromRead.value))
      && (fromRead.Some? && toRead.None? ==>
            AccountId(from) in after && after[AccountId(from)].stLinkBalance == Some(fromRead.value))
      && (toRead.None? && AccountId(from) != AccountId(to) ==>
            (AccountId(to) in after <==> AccountId(to) in s.accounts)
            && (AccountId(to) in s.accounts ==> after[AccountId(to)] == s.accounts[AccountId(to)]))
      && (fromRead.None? && AccountId(from) != AccountId(to) ==>
            (AccountId(from) in after <==> AccountId(from) in s.accounts)
            && (AccountId(from) in s.accounts ==> after[AccountId(from)] == s.accounts[AccountId(from)]))
      && (fromRead.None? && toRead.None? ==> after == s.accounts)
  {
  }

  /** `handleAdminChanged`: logs the event, then refreshes the new admin only. */
  function ApplyAdminChanged(s: Snapshot, p: Provenance, logIndex: nat, previousAdmin: Address, newAdmin: Address,
                             read: Option<nat>): (r: Snapshot)
    ensures r.adminChanges ==
      s.adminChanges[ConcatI32Key(p.transactionHash, logIndex) := AdminChanged(previousAdmin, newAdmin, p)]
    ensures r.accounts - {AccountId(newAdmin)} == s.accounts - {AccountId(newAdmin)}
    ensures read.None? ==> r.accounts == s.accounts
    ensures read.Some? ==> AccountId(newAdmin) in r.accounts && r.accounts[AccountId(newAdmin)].stLinkBalance == Some(read.value)
    ensures r.accounts == ApplyBalance(s, newAdmin, read, p).accounts
    ensures r.(accounts := s.accounts, adminChanges := s.adminChanges) == s
  {
    var logged := s.(adminChanges :=
      s.adminChanges[ConcatI32Key(p.transactionHash, logIndex) := AdminChanged(previousAdmin, newAdmin, p)]);
    ApplyBalance(logged, newAdmin, read, p)
  }

  method HandleAdminChanged(store: EntityStore, p: Provenance, logIndex: nat, previousAdmin: Address,
                            newAdmin: Address, read: Option<nat>)
    modifies store
    ensures store.State() == ApplyAdminChanged(old(store.State()), p, logIndex, previousAdmin, newAdmin, read)
  {
    store.SaveAdminChanged(ConcatI32Key(p.transactionHash, logIndex), AdminChanged(previousAdmin, newAdmin, p));
    UpdateAccountBalance(store, newAdmin, read, p);
  }

  /** `handleBeaconUpgraded`: only the record is written. */
  function ApplyBeaconUpgraded(s: Snapshot, p: Provenance, logIndex: nat, beacon: Address): (r: Snapshot)
    ensures r.beaconUpgrades.Keys == s.beaconUpgrades.Keys + {ConcatI32Key(p.transactionHash, logIndex)}
    ensures r.beaconUpgrades[ConcatI32Key(p.transactionHash, logIndex)] == BeaconUpgraded(beacon, p)
    ensures r.beaconUpgrades - {ConcatI32Key(p.transactionHash, logIndex)} == s.beaconUpgrades - {ConcatI32Key(p.transactionHash, logIndex)}
    ensures r.(beaconUpgrades := s.beaconUpgrades) == s
  {
    s.(beaconUpgrades := s.beaconUpgrades[ConcatI32Key(p.transactionHash, logIndex) := BeaconUpgraded(beacon, p)])
  }

  method HandleBeaconUpgraded(store: EntityStore, p: Provenance, logIndex: nat, beacon: Address)
    modifies store
    ensures store.State() == ApplyBeaconUpgraded(old(store.State()), p, logIndex, beacon)
  {
    store.SaveBeaconUpgraded(ConcatI32Key(p.transactionHash, logIndex), BeaconUpgraded(beacon, p));
  }

  /** `handleUpgraded`: only the record is written. */
  function ApplyUpgraded(s: Snapshot, p: Provenance, logIndex: nat, implementation: Address): (r: Snapshot)
    ensures r.upgrades.Keys == s.upgrades.Keys + {ConcatI32Key(p.transactionHash, logIndex)}
    ensures r.upgrades[ConcatI32Key(p.transactionHash, logIndex)] == Upgraded(implementation, p)
    ensures r.upgrades - {ConcatI32Key(p.transactionHash, logIndex)} == s.upgrades - {ConcatI32Key(p.transactionHash, logIndex)}
    ensures r.(upgrades := s.upgrades) == s
  {
    s.(upgrades := s.upgrades[ConcatI32Key(p.transactionHash, logIndex) := Upgraded(implementation, p)])
  }

  method HandleUpgraded(store: EntityStore, p: Provenance, logIndex: nat, implementation: Address)
    modifies store
    ensures store.State() == ApplyUpgraded(old(store.State()), p, logIndex, implementation)
  {
    store.SaveUpgraded(ConcatI32Key(p.transactionHash, logIndex), Upgraded(implementation, p));
  }

  /** A successful read for an account with no record creates it with the six
      numeric fields at 0 and then overwrites stLinkBalance with the read. */
  lemma BalanceForNewAccount(s: Snapshot, account: Address, balance: nat, p: Provenance)
    requires AccountId(account) !in s.accounts
    ensures var b := ApplyBalance(s, account, Some(balance), p).accounts[AccountId(account)];
      && b.account == account
      && b.stLinkBalance == Some(balance)
      && b.shares == Some(0) && b.rewardsAccumulated == Some(0) && b.wrappedRewards == Some(0)
      && b.withdrawableRewards == Some(0) && b.wrappedTokenBalance == Some(0)
      && b.lastUpdated == Some(p.blockTimestamp) && b.provenance == Some(p)
  {
  }
}

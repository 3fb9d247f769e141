/** The host's entity store, as the handlers see it: `Entity.load(id)` and
    `entity.save()` on one map per entity type. When a handler aborts, the host
    discards everything the handler saved; `Restore` models that rollback. */
module EntityStores {
  import opened Wrappers
  import opened Entities

  class EntityStore {
    var accounts: map<string, AccountState>
    var protocolEarnings: map<string, ProtocolEarnings>
    var distributeRewards: map<RecordKey, DistributeRewards>
    var withdrawals: map<RecordKey, Withdraw>
    var transfers: map<RecordKey, Transfer>
    var approvals: map<RecordKey, Approval>
    var adminChanges: map<RecordKey, AdminChanged>
    var beaconUpgrades: map<RecordKey, BeaconUpgraded>
    var upgrades: map<RecordKey, Upgraded>

    /** The store as a value. */
    function State(): Snapshot
      reads this
    {
      Snapshot(accounts, protocolEarnings, distributeRewards, withdrawals, transfers,
               approvals, adminChanges, beaconUpgrades, upgrades)
    }

    constructor ()
      ensures State() == EmptySnapshot
    {
      accounts, protocolEarnings := map[], map[];
      distributeRewards, withdrawals, transfers, approvals := map[], map[], map[], map[];
      adminChanges, beaconUpgrades, upgrades := map[], map[], map[];
    }

    /** `AccountState.load(id)`: the stored record, or nothing. */
    method LoadAccount(id: string) returns (r: Option<AccountState>)
      ensures id in accounts ==> r == Some(accounts[id])
      ensures id !in accounts ==> r == None
    {
      r := if id in accounts then Some(accounts[id]) else None;
    }

    /** `accountState.save()`: inserts or overwrites the record stored under `id`. */
    method SaveAccount(id: string, a: AccountState)
      modifies this
      ensures State() == old(State()).(accounts := old(accounts)[id := a])
    {
      accounts := accounts[id := a];
    }

    /** `ProtocolEarnings.load(id)`. */
    method LoadProtocolEarnings(id: string) returns (r: Option<ProtocolEarnings>)
      ensures id in protocolEarnings ==> r == Some(protocolEarnings[id])
      ensures id !in protocolEarnings ==> r == None
    {
      r := if id in protocolEarnings then Some(protocolEarnings[id]) else None;
    }

    method SaveProtocolEarnings(id: string, p: ProtocolEarnings)
      modifies this
      ensures State() == old(State()).(protocolEarnings := old(protocolEarnings)[id := p])
    {
      protocolEarnings := protocolEarnings[id := p];
    }

    method SaveDistributeRewards(k: RecordKey, r: DistributeRewards)
      modifies this
      ensures State() == old(State()).(distributeRewards := old(distributeRewards)[k := r])
    {
      distributeRewards := distributeRewards[k := r];
    }

    method SaveWithdraw(k: RecordKey, r: Withdraw)
      modifies this
      ensures State() == old(State()).(withdrawals := old(withdrawals)[k := r])
    {
      withdrawals := withdrawals[k := r];
    }

    method SaveTransfer(k: RecordKey, r: Transfer)
      modifies this
      ensures State() == old(State()).(transfers := old(transfers)[k := r])
    {
      transfers := transfers[k := r];
    }

    method SaveApproval(k: RecordKey, r: Approval)
      modifies this
      ensures State() == old(State()).(approvals := old(approvals)[k := r])
    {
      approvals := approvals[k := r];
    }

    method SaveAdminChanged(k: RecordKey, r: AdminChanged)
      modifies this
      ensures State() == old(State()).(adminChanges := old(adminChanges)[k := r])
    {
      adminChanges := adminChanges[k := r];
    }

    method SaveBeaconUpgraded(k: RecordKey, r: BeaconUpgraded)
      modifies this
      ensures State() == old(State()).(beaconUpgrades := old(beaconUpgrades)[k := r])
    {
      beaconUpgrades := beaconUpgrades[k := r];
    }

    method SaveUpgraded(k: RecordKey, r: Upgraded)
      modifies this
      ensures State() == old(State()).(upgrades := old(upgrades)[k := r])
    {
      upgrades := upgrades[k := r];
    }

    /** The host's rollback of an aborted handler: the store returns to `s`. */
    method Restore(s: Snapshot)
      modifies this
      ensures State() == s
    {
      accounts, protocolEarnings := s.accounts, s.protocolEarnings;
      distributeRewards, withdrawals, transfers, approvals := s.distributeRewards, s.withdrawals, s.transfers, s.approvals;
      adminChanges, beaconUpgrades, upgrades := s.adminChanges, s.beaconUpgrades, s.upgrades;
    }
  }
}

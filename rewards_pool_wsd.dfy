/** The RewardsPoolWSD handlers: a reward adds to the sender's
    rewardsAccumulated, a withdrawal takes from stLinkBalance but never below 0.
    Records are keyed by `hash.concatI32(logIndex)`. */
module RewardsPoolWsd {
  import opened Wrappers
  import opened Entities
  import opened EntityStores

  /** The record `getOrCreateAccountState` builds for an unknown account. */
  function Created(account: Address): AccountState {
    NewAccountState(account).(stLinkBalance := Some(0), rewardsAccumulated := Some(0),
                              wrappedRewards := Some(0), withdrawableRewards := Some(0),
                              wrappedTokenBalance := Some(0), lastUpdated := Some(0))
  }

  /** What `getOrCreateAccountState` returns, as a function of the stored accounts. */
  function AccountOf(accounts: map<string, AccountState>, account: Address): AccountState {
    LoadOr(accounts, AccountId(account), Created(account))
  }

  /** Loads the account's record or builds a zeroed one; saves nothing. */
  method GetOrCreateAccountState(store: EntityStore, account: Address) returns (a: AccountState)
    ensures a == AccountOf(store.accounts, account)
    ensures AccountId(account) in store.accounts ==> a == store.accounts[AccountId(account)]
    ensures AccountId(account) !in store.accounts ==>
      && a.account == account
      && a.stLinkBalance == Some(0) && a.rewardsAccumulated == Some(0) && a.wrappedRewards == Some(0)
      && a.withdrawableRewards == Some(0) && a.wrappedTokenBalance == Some(0) && a.lastUpdated == Some(0)
      && a.shares == None && a.provenance == None
  {
    var loaded := store.LoadAccount(AccountId(account));
    match loaded {
      case Some(stored) =>
        a := stored;
      case None =>
        a := NewAccountState(account);
        a := a.(stLinkBalance := Some(0), rewardsAccumulated := Some(0), wrappedRewards := Some(0));
        a := a.(withdrawableRewards := Some(0), wrappedTokenBalance := Some(0), lastUpdated := Some(0));
    }
  }

  /** The sender's record after a reward of `amount`: rewardsAccumulated grows
      by `amount`, lastUpdated and provenance come from the event, nothing else moves. */
  function Rewarded(a: AccountState, amount: nat, p: Provenance): (b: AccountState)
    requires a.rewardsAccumulated.Some?
    ensures b.rewardsAccumulated == Some(a.rewardsAccumulated.value + amount)
    ensures b.rewardsAccumulated.value >= a.rewardsAccumulated.value
    ensures b.provenance == Some(p) && b.lastUpdated == Some(p.blockTimestamp)
    ensures b.(rewardsAccumulated := a.rewardsAccumulated, lastUpdated := a.lastUpdated,
               provenance := a.provenance) == a
  {
    StampUpdated(a.(rewardsAccumulated := Some(a.rewardsAccumulated.value + amount)), p)
  }

  /** `handleDistributeRewards`: logs the event under `hash.concatI32(logIndex)`
      and saves the sender's record, rewarded. `None` when the stored record has
      no rewardsAccumulated to add to: the handler aborts. */
  function ApplyDistributeRewards(s: Snapshot, p: Provenance, logIndex: nat, sender: Address,
                                  amountStaked: nat, amount: nat): (r: Option<Snapshot>)
    ensures r.None? <==> AccountOf(s.accounts, sender).rewardsAccumulated.None?
    ensures r.Some? ==>
      r.value.accounts == s.accounts[AccountId(sender) := Rewarded(AccountOf(s.accounts, sender), amount, p)]
    ensures r.Some? ==>
      var key := ConcatI32Key(p.transactionHash, logIndex);
      r.value.distributeRewards == s.distributeRewards[key := DistributeRewards(sender, amountStaked, amount, p)]
    ensures r.Some? ==> r.value.(accounts := s.accounts, distributeRewards := s.distributeRewards) == s
  {
    var key := ConcatI32Key(p.transactionHash, logIndex);
    var logged := s.(distributeRewards := s.distributeRewards[key := DistributeRewards(sender, amountStaked, amount, p)]);
    var a := AccountOf(s.accounts, sender);
    if a.rewardsAccumulated.None? then None
    else Some(logged.(accounts := s.accounts[AccountId(sender) := Rewarded(a, amount, p)]))
  }

  method HandleDistributeRewards(store: EntityStore, p: Provenance, logIndex: nat, sender: Address,
                                 amountStaked: nat, amount: nat) returns (ok: bool)
    modifies store
    ensures var r := ApplyDistributeRewards(old(store.State()), p, logIndex, sender, amountStaked, amount);
      ok == r.Some? && store.State() == r.GetOr(old(store.State()))
  {
    var saved := store.State();
    store.SaveDistributeRewards(ConcatI32Key(p.transactionHash, logIndex),
                                DistributeRewards(sender, amountStaked, amount, p));
    var a := GetOrCreateAccountState(store, sender);
    match a.rewardsAccumulated {
      case None =>
        store.Restore(saved);
        ok := false;
      case Some(total) =>
        a := a.(rewardsAccumulated := Some(total + amount));
        a := a.(provenance := Some(p), lastUpdated := Some(p.blockTimestamp));
        store.SaveAccount(AccountId(sender), a);
        ok := true;
    }
  }

  /** The account's record after a withdrawal of `amount`: stLinkBalance drops
      by `amount`, or to 0 when it holds less, so it ends at max(old - amount, 0);
      lastUpdated and provenance come from the event, nothing else moves. */
  function Withdrawn(a: AccountState, amount: nat, p: Provenance): (b: AccountState)
    requires a.stLinkBalance.Some?
    ensures a.stLinkBalance.value >= amount ==> b.stLinkBalance == Some(a.stLinkBalance.value - amount)
    ensures a.stLinkBalance.value < amount ==> b.stLinkBalance == Some(0)
    ensures b.stLinkBalance.Some? && b.stLinkBalance.value >= 0
    ensures a.stLinkBalance.value >= 0 ==> b.stLinkBalance.value <= a.stLinkBalance.value
    ensures b.provenance == Some(p) && b.lastUpdated == Some(p.blockTimestamp)
    ensures b.(stLinkBalance := a.stLinkBalance, lastUpdated := a.lastUpdated,
               provenance := a.provenance) == a
  {
    var balance := a.stLinkBalance.value;
    StampUpdated(a.(stLinkBalance := Some(if balance >= amount then balance - amount else 0)), p)
  }

  /** `handleWithdraw`: logs the event under `hash.concatI32(logIndex)` and saves
      the account's record, withdrawn from. `None` when the stored record has no
      stLinkBalance: the handler aborts. */
  function ApplyWithdraw(s: Snapshot, p: Provenance, logIndex: nat, account: Address, amount: nat): (r: Option<Snapshot>)
    ensures r.None? <==> AccountOf(s.accounts, account).stLinkBalance.None?
    ensures r.Some? ==>
      r.value.accounts == s.accounts[AccountId(account) := Withdrawn(AccountOf(s.accounts, account), amount, p)]
    ensures r.Some? ==>
      r.value.withdrawals == s.withdrawals[ConcatI32Key(p.transactionHash, logIndex) := Withdraw(account, amount, p)]
    ensures r.Some? ==> r.value.(accounts := s.accounts, withdrawals := s.withdrawals) == s
  {
    var logged := s.(withdrawals := s.withdrawals[ConcatI32Key(p.transactionHash, logIndex) := Withdraw(account, amount, p)]);
    var a := AccountOf(s.accounts, account);
    if a.stLinkBalance.None? then None
    else Some(logged.(accounts := s.accounts[AccountId(account) := Withdrawn(a, amount, p)]))
  }

  method HandleWithdraw(store: EntityStore, p: Provenance, logIndex: nat, account: Address, amount: nat)
    returns (ok: bool)
    modifies store
    ensures var r := ApplyWithdraw(old(store.State()), p, logIndex, account, amount);
      ok == r.Some? && store.State() == r.GetOr(old(store.State()))
  {
    var saved := store.State();
    store.SaveWithdraw(ConcatI32Key(p.transactionHash, logIndex), Withdraw(account, amount, p));
    var a := GetOrCreateAccountState(store, account);
    match a.stLinkBalance {
      case None =>
        store.Restore(saved);
        ok := false;
      case Some(balance) =>
        if balance >= amount {
          a := a.(stLinkBalance := Some(balance - amount));
        } else {
          a := a.(stLinkBalance := Some(0));
        }
        a := a.(provenance := Some(p), lastUpdated := Some(p.blockTimestamp));
        store.SaveAccount(AccountId(account), a);
        ok := true;
    }
  }
}

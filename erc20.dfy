/** The ERC20 template's Transfer handler: `value` moves from `from`'s
    stLinkBalance to `to`'s, with no clamp and no special case for the zero
    address, and no provenance is written. */
module Erc20 {
  import opened Wrappers
  import opened Entities
  import opened EntityStores

  /** Adds `delta` to stLinkBalance and changes nothing else. */
  function Moved(a: AccountState, delta: int): (b: AccountState)
    requires a.stLinkBalance.Some?
    ensures b.stLinkBalance == Some(a.stLinkBalance.value + delta)
    ensures b.(stLinkBalance := a.stLinkBalance) == a
  {
    a.(stLinkBalance := Some(a.stLinkBalance.value + delta))
  }

  /** One half of the transfer: load or create, add `delta`, save. `None` when
      the record read has no stLinkBalance. */
  function Side(accounts: map<string, AccountState>, a: Address, delta: int): (r: Option<map<string, AccountState>>)
    ensures r.None? <==> LoadOrZeroed(accounts, a).stLinkBalance.None?
    ensures r.Some? ==> r.value == accounts[AccountId(a) := Moved(LoadOrZeroed(accounts, a), delta)]
  {
    var acct := LoadOrZeroed(accounts, a);
    if acct.stLinkBalance.None? then None else Some(accounts[AccountId(a) := Moved(acct, delta)])
  }

  /** `handleERC20Transfer`: the `from` half with `-value`, then the `to` half
      with `+value`, which loads the store the first half saved. `None` when a
      record read has no stLinkBalance: the handler aborts. */
  function ApplyTransfer(s: Snapshot, from: Address, to: Address, value: nat): (r: Option<Snapshot>)
    ensures r.None? <==>
      || LoadOrZeroed(s.accounts, from).stLinkBalance.None?
      || LoadOrZeroed(s.accounts, to).stLinkBalance.None?
    ensures r.Some? ==> OnlyAccountsChanged(s, r.value, {AccountId(from), AccountId(to)})
    ensures r.Some? ==> AccountId(from) in r.value.accounts && AccountId(to) in r.value.accounts
    ensures r.Some? && AccountId(from) != AccountId(to) ==>
      && r.value.accounts[AccountId(from)] == Moved(LoadOrZeroed(s.accounts, from), -(value as int))
      && r.value.accounts[AccountId(to)] == Moved(LoadOrZeroed(s.accounts, to), value)
    ensures r.Some? && AccountId(from) == AccountId(to) ==>
      r.value.accounts[AccountId(from)] == LoadOrZeroed(s.accounts, from)
  {
    match Side(s.accounts, from, -(value as int))
    case None => None
    case Some(debited) =>
      assert AccountId(from) != AccountId(to) ==> LoadOrZeroed(debited, to) == LoadOrZeroed(s.accounts, to);
      match Side(debited, to, value)
      case None => None
      case Some(credited) =>
        assert credited - {AccountId(from), AccountId(to)} == s.accounts - {AccountId(from), AccountId(to)};
        Some(s.(accounts := credited))
  }

  /** One load-change-save block of the handler. */
  method TransferSide(store: EntityStore, a: Address, delta: int) returns (ok: bool)
    modifies store
    ensures var r := Side(old(store.accounts), a, delta);
      && ok == r.Some?
      && store.State() == old(store.State()).(accounts := r.GetOr(old(store.accounts)))
  {
    var loaded := store.LoadAccount(AccountId(a));
    var acct := if loaded.Some? then loaded.value else ZeroedAccountState(a);
    if acct.stLinkBalance.None? {
      ok := false;
      return;
    }
    acct := acct.(stLinkBalance := Some(acct.stLinkBalance.value + delta));
    store.SaveAccount(AccountId(a), acct);
    ok := true;
  }

  method HandleErc20Transfer(store: EntityStore, from: Address, to: Address, value: nat) returns (ok: bool)
    modifies store
    ensures var r := ApplyTransfer(old(store.State()), from, to, value);
      ok == r.Some? && store.State() == r.GetOr(old(store.State()))
  {
    var saved := store.State();
    ok := TransferSide(store, from, -(value as int));
    if ok {
      ok := TransferSide(store, to, value);
    }
    if !ok {
      store.Restore(saved);
    }
  }

  /** A transfer, mints and burns included, leaves the sum of stLinkBalance over
      all stored accounts where it was: the zero address is debited or credited
      like any other account. */
  lemma TransferConservesTotal(s: Snapshot, from: Address, to: Address, value: nat)
    requires ApplyTransfer(s, from, to, value).Some?
    ensures Total(ApplyTransfer(s, from, to, value).value.accounts, StLink) == Total(s.accounts, StLink)
  {
    var fromId, toId := AccountId(from), AccountId(to);
    var a := LoadOrZeroed(s.accounts, from);
    var debited := s.accounts[fromId := Moved(a, -(value as int))];
    TotalUpdate(s.accounts, StLink, fromId, Moved(a, -(value as int)));
    var b := LoadOrZeroed(debited, to);
    TotalUpdate(debited, StLink, toId, Moved(b, value));
  }

  /** A transfer to an account with no record creates it with every numeric
      field at 0 except stLinkBalance, which holds `value`; no provenance is set. */
  lemma TransferToNewAccount(s: Snapshot, from: Address, to: Address, value: nat)
    requires ApplyTransfer(s, from, to, value).Some?
    requires AccountId(to) !in s.accounts && AccountId(from) != AccountId(to)
    ensures var b := ApplyTransfer(s, from, to, value).value.accounts[AccountId(to)];
      && b.account == to
      && b.stLinkBalance == Some(value)
      && b.shares == Some(0) && b.rewardsAccumulated == Some(0) && b.wrappedRewards == Some(0)
      && b.withdrawableRewards == Some(0) && b.wrappedTokenBalance == Some(0)
      && b.lastUpdated == None && b.provenance == None
  {
  }
}

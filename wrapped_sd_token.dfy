/** The WrappedSDToken handlers: Approval is only logged; Transfer is logged and
    moves `value` between the wrappedTokenBalance of `from` and `to`, skipping
    whichever side is the zero address (mint and burn). */
module WrappedSdToken {
  import opened Wrappers
  import opened Entities
  import opened EntityStores

  /** `handleApproval`: only the Approval record is written. */
  function ApplyApproval(s: Snapshot, p: Provenance, logIndex: nat, owner: Address, spender: Address, value: nat): (r: Snapshot)
    ensures r.approvals.Keys == s.approvals.Keys + {ConcatI32Key(p.transactionHash, logIndex)}
    ensures r.approvals[ConcatI32Key(p.transactionHash, logIndex)] == Approval(owner, spender, value, p)
    ensures r.approvals - {ConcatI32Key(p.transactionHash, logIndex)} == s.approvals - {ConcatI32Key(p.transactionHash, logIndex)}
    ensures r.(approvals := s.approvals) == s
  {
    s.(approvals := s.approvals[ConcatI32Key(p.transactionHash, logIndex) := Approval(owner, spender, value, p)])
  }

  method HandleApproval(store: EntityStore, p: Provenance, logIndex: nat, owner: Address, spender: Address, value: nat)
    modifies store
    ensures store.State() == ApplyApproval(old(store.State()), p, logIndex, owner, spender, value)
  {
    store.SaveApproval(ConcatI32Key(p.transactionHash, logIndex), Approval(owner, spender, value, p));
  }

  /** Adds `delta` to wrappedTokenBalance and stamps the event; nothing else moves. */
  function Adjusted(a: AccountState, delta: int, p: Provenance): (b: AccountState)
    requires a.wrappedTokenBalance.Some?
    ensures b.wrappedTokenBalance == Some(a.wrappedTokenBalance.value + delta)
    ensures b.provenance == Some(p) && b.lastUpdated == Some(p.blockTimestamp)
    ensures b.(wrappedTokenBalance := a.wrappedTokenBalance, lastUpdated := a.lastUpdated,
               provenance := a.provenance) == a
  {
    StampUpdated(a.(wrappedTokenBalance := Some(a.wrappedTokenBalance.value + delta)), p)
  }

  /** True when a transfer side is skipped: the account is the zero address. */
  predicate IsZero(a: Address) {
    AccountId(a) == ZeroAddressHex
  }

  /** True when the side's record exists but has no wrappedTokenBalance to read. */
  predicate Unreadable(accounts: map<string, AccountState>, a: Address) {
    !IsZero(a) && LoadOrZeroed(accounts, a).wrappedTokenBalance.None?
  }

  /** One side of a transfer: nothing for the zero address, otherwise load or
      create, adjust by `delta`, save. */
  function Side(accounts: map<string, AccountState>, a: Address, delta: int, p: Provenance): (r: Option<map<string, AccountState>>)
    ensures r.None? <==> Unreadable(accounts, a)
    ensures r.Some? && IsZero(a) ==> r.value == accounts
    ensures r.Some? && !IsZero(a) ==>
      r.value == accounts[AccountId(a) := Adjusted(LoadOrZeroed(accounts, a), delta, p)]
  {
    if IsZero(a) then Some(accounts)
    else
      var acct := LoadOrZeroed(accounts, a);
      if acct.wrappedTokenBalance.None? then None
      else Some(accounts[AccountId(a) := Adjusted(acct, delta, p)])
  }

  /** A side that went through leaves every account as readable as it was. */
  lemma SideKeepsReadability(accounts: map<string, AccountState>, a: Address, delta: int, p: Provenance, b: Address)
    requires Side(accounts, a, delta, p).Some?
    ensures Unreadable(Side(accounts, a, delta, p).value, b) <==> Unreadable(accounts, b)
  {
    if !IsZero(a) && AccountId(b) == AccountId(a) {
      assert !Unreadable(accounts, a);
    }
  }

  /** The ids a transfer may write: those of its non-zero sides. */
  function Touched(from: Address, to: Address): set<string> {
    (if IsZero(from) then {} else {AccountId(from)}) + (if IsZero(to) then {} else {AccountId(to)})
  }

  /** `handleTransfer`: logs the event, then the `from` side with `-value`, then
      the `to` side with `+value` on the store the first side saved. `None` when
      a non-zero side's record has no wrappedTokenBalance: the handler aborts. */
  function ApplyTransfer(s: Snapshot, p: Provenance, logIndex: nat, from: Address, to: Address, value: nat): (r: Option<Snapshot>)
    ensures r.None? <==> Unreadable(s.accounts, from) || Unreadable(s.accounts, to)
    ensures r.Some? ==>
      r.value.transfers == s.transfers[ConcatI32Key(p.transactionHash, logIndex) := Transfer(from, to, value, p)]
    ensures r.Some? ==> r.value.(accounts := s.accounts, transfers := s.transfers) == s
    ensures r.Some? ==> r.value.accounts - Touched(from, to) == s.accounts - Touched(from, to)
    ensures r.Some? ==> Touched(from, to) <= r.value.accounts.Keys
  {
    var logged := s.(transfers := s.transfers[ConcatI32Key(p.transactionHash, logIndex) := Transfer(from, to, value, p)]);
    match Side(s.accounts, from, -(value as int), p)
    case None => None
    case Some(debited) =>
      SideKeepsReadability(s.accounts, from, -(value as int), p, to);
      match Side(debited, to, value, p)
      case None => None
      case Some(credited) =>
        assert credited - Touched(from, to) == s.accounts - Touched(from, to);
        Some(logged.(accounts := credited))
  }

  /** One guarded block of `handleTransfer`: skipped for the zero address,
      otherwise load or create, adjust wrappedTokenBalance, stamp, save. */
  method TransferSide(store: EntityStore, a: Address, delta: int, p: Provenance) returns (ok: bool)
    modifies store
    ensures var r := Side(old(store.accounts), a, delta, p);
      && ok == r.Some?
      && store.State() == old(store.State()).(accounts := r.GetOr(old(store.accounts)))
  {
    ok := true;
    if AccountId(a) != ZeroAddressHex {
      var loaded := store.LoadAccount(AccountId(a));
      var acct := if loaded.Some? then loaded.value else ZeroedAccountState(a);
      if acct.wrappedTokenBalance.None? {
        ok := false;
        return;
      }
      acct := acct.(wrappedTokenBalance := Some(acct.wrappedTokenBalance.value + delta));
      acct := acct.(provenance := Some(p), lastUpdated := Some(p.blockTimestamp));
      store.SaveAccount(AccountId(a), acct);
    }
  }

  method HandleTransfer(store: EntityStore, p: Provenance, logIndex: nat, from: Address, to: Address, value: nat)
    returns (ok: bool)
    modifies store
    ensures var r := ApplyTransfer(old(store.State()), p, logIndex, from, to, value);
      ok == r.Some? && store.State() == r.GetOr(old(store.State()))
  {
    var saved := store.State();
    store.SaveTransfer(ConcatI32Key(p.transactionHash, logIndex), Transfer(from, to, value, p));
    ok := TransferSide(store, from, -(value as int), p);
    if ok {
      ok := TransferSide(store, to, value, p);
    }
    if !ok {
      store.Restore(saved);
    }
  }

  /** The zero address's record, stored or not, is never created or changed by
      a transfer: mints and burns only touch the non-zero side. */
  lemma TransferSkipsZeroAddress(s: Snapshot, p: Provenance, logIndex: nat, from: Address, to: Address, value: nat)
    requires ApplyTransfer(s, p, logIndex, from, to, value).Some?
    ensures var after := ApplyTransfer(s, p, logIndex, from, to, value).value.accounts;
      && (ZeroAddressHex in after <==> ZeroAddressHex in s.accounts)
      && (ZeroAddressHex in s.accounts ==> after[ZeroAddressHex] == s.accounts[ZeroAddressHex])
  {
    var after := ApplyTransfer(s, p, logIndex, from, to, value).value.accounts;
    assert ZeroAddressHex !in Touched(from, to);
    assert ZeroAddressHex in after - Touched(from, to) <==> ZeroAddressHex in s.accounts - Touched(from, to);
    if ZeroAddressHex in s.accounts {
      assert (after - Touched(from, to))[ZeroAddressHex] == (s.accounts - Touched(from, to))[ZeroAddressHex];
    }
  }

  /** Between two distinct accounts, a non-zero `from` loses `value` and a
      non-zero `to` gains it, mints and burns included; the rest of each record,
      apart from lastUpdated and provenance, stays as it was. */
  lemma TransferBetweenAccounts(s: Snapshot, p: Provenance, logIndex: nat, from: Address, to: Address, value: nat)
    requires ApplyTransfer(s, p, logIndex, from, to, value).Some?
    requires AccountId(from) != AccountId(to)
    ensures var after := ApplyTransfer(s, p, logIndex, from, to, value).value.accounts;
      && (!IsZero(from) ==> after[AccountId(from)] == Adjusted(LoadOrZeroed(s.accounts, from), -(value as int), p))
      && (!IsZero(to) ==> after[AccountId(to)] == Adjusted(LoadOrZeroed(s.accounts, to), value, p))
  {
    var debited := Side(s.accounts, from, -(value as int), p).value;
    assert LoadOrZeroed(debited, to) == LoadOrZeroed(s.accounts, to);
  }

  /** A transfer from a non-zero account to itself leaves its
      wrappedTokenBalance where it was: the `to` side reloads what the `from`
      side saved. The record ends as it began, only stamped. */
  lemma SelfTransferKeepsBalance(s: Snapshot, p: Provenance, logIndex: nat, a: Address, value: nat)
    requires ApplyTransfer(s, p, logIndex, a, a, value).Some?
    requires !IsZero(a)
    ensures var after := ApplyTransfer(s, p, logIndex, a, a, value).value.accounts;
      && after[AccountId(a)].wrappedTokenBalance == LoadOrZeroed(s.accounts, a).wrappedTokenBalance
      && after[AccountId(a)].provenance == Some(p)
      && after[AccountId(a)] == StampUpdated(LoadOrZeroed(s.accounts, a), p)
  {
    var debited := Side(s.accounts, a, -(value as int), p).value;
    assert LoadOrZeroed(debited, a) == Adjusted(LoadOrZeroed(s.accounts, a), -(value as int), p);
  }

  /** The sum of wrappedTokenBalance over the stored accounts moves only by
      mints and burns: a transfer between two non-zero accounts conserves it, a
      mint (from zero) raises it by `value`, a burn (to zero) lowers it. */
  lemma TransferTotal(s: Snapshot, p: Provenance, logIndex: nat, from: Address, to: Address, value: nat)
    requires ApplyTransfer(s, p, logIndex, from, to, value).Some?
    ensures Total(ApplyTransfer(s, p, logIndex, from, to, value).value.accounts, WrappedToken)
         == Total(s.accounts, WrappedToken) - (if IsZero(from) then 0 else value)
                                            + (if IsZero(to) then 0 else value)
  {
    var debited := Side(s.accounts, from, -(value as int), p).value;
    if !IsZero(from) {
      TotalUpdate(s.accounts, WrappedToken, AccountId(from), Adjusted(LoadOrZeroed(s.accounts, from), -(value as int), p));
    }
    if !IsZero(to) {
      TotalUpdate(debited, WrappedToken, AccountId(to), Adjusted(LoadOrZeroed(debited, to), value, p));
    }
  }

  /** A transfer to a non-zero account with no record creates it with every
      numeric field at 0 except wrappedTokenBalance, which holds `value`. */
  lemma TransferToNewAccount(s: Snapshot, p: Provenance, logIndex: nat, from: Address, to: Address, value: nat)
    requires ApplyTransfer(s, p, logIndex, from, to, value).Some?
    requires !IsZero(to) && AccountId(to) !in s.accounts && AccountId(from) != AccountId(to)
    ensures var b := ApplyTransfer(s, p, logIndex, from, to, value).value.accounts[AccountId(to)];
      && b.account == to
      && b.wrappedTokenBalance == Some(value)
      && b.stLinkBalance == Some(0) && b.shares == Some(0) && b.rewardsAccumulated == Some(0)
      && b.wrappedRewards == Some(0) && b.withdrawableRewards == Some(0)
      && b.lastUpdated == Some(p.blockTimestamp) && b.provenance == Some(p)
  {
    var debited := Side(s.accounts, from, -(value as int), p).value;
    assert LoadOrZeroed(debited, to) == ZeroedAccountState(to);
  }
}

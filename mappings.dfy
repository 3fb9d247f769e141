/** The RewardsPoolWSD mappings that key records by `createId` and track the
    protocol-wide reward total: four call handlers that copy a call's output
    into one AccountState field, DistributeRewards (protocol total only) and an
    unclamped Withdraw. */
module Mappings {
  import opened Wrappers
  import opened Encoding
  import opened Entities
  import opened EntityStores

  /** `createId`: the transaction hash in hex, a dash, the log index in decimal. */
  function CreateId(transactionHash: Bytes, logIndex: nat): (id: string)
    ensures IndexOf(id, '-') == Some(|ToHex(transactionHash)|)
  {
    var hex := ToHex(transactionHash);
    var id := hex + "-" + Decimal(logIndex);
    assert id[|hex|] == '-';
    assert id[..|hex|] == hex;
    id
  }

  /** The position of the first `c` in `s`, if any. */
  function IndexOf(s: string, c: char): (r: Option<nat>)
    ensures r.Some? ==> r.value < |s| && s[r.value] == c && c !in s[..r.value]
    ensures r.None? ==> c !in s
  {
    if s == [] then None
    else if s[0] == c then Some(0)
    else
      match IndexOf(s[1..], c)
      case None => None
      case Some(i) => assert s[..i + 1] == [s[0]] + s[1..][..i]; Some(i + 1)
  }

  /** Splits an id at its first dash and reads back the hash and the log index. */
  function ParseId(id: string): Option<(Bytes, nat)> {
    match IndexOf(id, '-')
    case None => None
    case Some(i) =>
      match (ParseHex(id[..i]), ParseDecimal(id[i + 1..]))
      case (Some(h), Some(n)) => Some((h, n))
      case _ => None
  }

  /** `ParseId` recovers the hash and the log index from any id `createId` builds. */
  lemma CreateIdRoundTrip(transactionHash: Bytes, logIndex: nat)
    ensures ParseId(CreateId(transactionHash, logIndex)) == Some((transactionHash, logIndex))
  {
    var hex := ToHex(transactionHash);
    var id := CreateId(transactionHash, logIndex);
    assert id[|hex|] == '-';
    var i := IndexOf(id, '-').value;
    assert i == |hex|;
    assert id[..i] == hex;
    assert id[i + 1..] == Decimal(logIndex);
    HexRoundTrip(transactionHash);
    DecimalRoundTrip(logIndex);
  }

  /** Distinct (hash, log index) pairs never share an id, whatever the hash lengths. */
  lemma CreateIdInjective(h1: Bytes, n1: nat, h2: Bytes, n2: nat)
    ensures CreateId(h1, n1) == CreateId(h2, n2) <==> h1 == h2 && n1 == n2
  {
    CreateIdRoundTrip(h1, n1);
    CreateIdRoundTrip(h2, n2);
  }

  /** The record a call handler creates for an unknown account: only
      stLinkBalance, rewardsAccumulated and wrappedRewards are set, to 0. */
  function Created(account: Address): AccountState {
    NewAccountState(account).(stLinkBalance := Some(0), rewardsAccumulated := Some(0), wrappedRewards := Some(0))
  }

  function AccountOf(accounts: map<string, AccountState>, account: Address): AccountState {
    LoadOr(accounts, AccountId(account), Created(account))
  }

  /** The four contract calls whose output a call handler records. */
  datatype RewardsCall = UserRewardPerTokenPaid | UserRewards | WithdrawableRewards | WithdrawableRewardsWrapped

  /** The AccountState field that holds a call's output. */
  function Output(a: AccountState, call: RewardsCall): Option<int> {
    match call
    case UserRewardPerTokenPaid => a.userRewardPerTokenPaid
    case UserRewards => a.userRewards
    case WithdrawableRewards => a.withdrawableRewards
    case WithdrawableRewardsWrapped => a.withdrawableRewardsWrapped
  }

  /** The record with the four call-output fields and provenance cleared, to
      compare the fields a call handler keeps. */
  function WithoutOutputs(a: AccountState): AccountState {
    a.(userRewardPerTokenPaid := None, userRewards := None, withdrawableRewards := None,
       withdrawableRewardsWrapped := None, provenance := None)
  }

  /** The account's record once a call's output `value` is recorded: that one
      field holds `value`, provenance comes from the call, every other field,
      lastUpdated included, is kept. */
  function Recorded(a: AccountState, call: RewardsCall, value: nat, p: Provenance): (b: AccountState)
    ensures Output(b, call) == Some(value)
    ensures b.provenance == Some(p)
    ensures forall other: RewardsCall :: other != call ==> Output(b, other) == Output(a, other)
    ensures WithoutOutputs(b) == WithoutOutputs(a)
  {
    var b := match call
      case UserRewardPerTokenPaid => a.(userRewardPerTokenPaid := Some(value))
      case UserRewards => a.(userRewards := Some(value))
      case WithdrawableRewards => a.(withdrawableRewards := Some(value))
      case WithdrawableRewardsWrapped => a.(withdrawableRewardsWrapped := Some(value));
    Stamp(b, p)
  }

  /** A call handler: load or create the account, record the output, save. */
  function ApplyCall(s: Snapshot, call: RewardsCall, account: Address, value: nat, p: Provenance): (r: Snapshot)
    ensures r.accounts == s.accounts[AccountId(account) := Recorded(AccountOf(s.accounts, account), call, value, p)]
    ensures OnlyAccountsChanged(s, r, {AccountId(account)})
  {
    var id := AccountId(account);
    assert s.accounts[id := Recorded(AccountOf(s.accounts, account), call, value, p)] - {id} == s.accounts - {id};
    s.(accounts := s.accounts[id := Recorded(AccountOf(s.accounts, account), call, value, p)])
  }

  /** The body the four call handlers share. */
  method RecordCall(store: EntityStore, call: RewardsCall, account: Address, value: nat, p: Provenance)
    modifies store
    ensures store.State() == ApplyCall(old(store.State()), call, account, value, p)
  {
    var loaded := store.LoadAccount(AccountId(account));
    var a: AccountState;
    if loaded.None? {
      a := NewAccountState(account);
      a := a.(stLinkBalance := Some(0), rewardsAccumulated := Some(0), wrappedRewards := Some(0));
    } else {
      a := loaded.value;
    }
    match call {
      case UserRewardPerTokenPaid => a := a.(userRewardPerTokenPaid := Some(value));
      case UserRewards => a := a.(userRewards := Some(value));
      case WithdrawableRewards => a := a.(withdrawableRewards := Some(value));
      case WithdrawableRewardsWrapped => a := a.(withdrawableRewardsWrapped := Some(value));
    }
    a := a.(provenance := Some(p));
    store.SaveAccount(AccountId(account), a);
  }

  method HandleUserRewardPerTokenPaid(store: EntityStore, account: Address, value: nat, p: Provenance)
    modifies store
    ensures store.State() == ApplyCall(old(store.State()), UserRewardPerTokenPaid, account, value, p)
  {
    RecordCall(store, UserRewardPerTokenPaid, account, value, p);
  }

  method HandleUserRewards(store: EntityStore, account: Address, value: nat, p: Provenance)
    modifies store
    ensures store.State() == ApplyCall(old(store.State()), UserRewards, account, value, p)
  {
    RecordCall(store, UserRewards, account, value, p);
  }

  method HandleWithdrawableRewards(store: EntityStore, account: Address, value: nat, p: Provenance)
    modifies store
    ensures store.State() == ApplyCall(old(store.State()), WithdrawableRewards, account, value, p)
  {
    RecordCall(store, WithdrawableRewards, account, value, p);
  }

  method HandleWithdrawableRewardsWrapped(store: EntityStore, account: Address, value: nat, p: Provenance)
    modifies store
    ensures store.State() == ApplyCall(old(store.State()), WithdrawableRewardsWrapped, account, value, p)
  {
    RecordCall(store, WithdrawableRewardsWrapped, account, value, p);
  }

  /** The protocol total before the event: the stored one, or 0 when the
      singleton does not exist yet. */
  function TotalDistributed(s: Snapshot): int {
    if ProtocolId in s.protocolEarnings then s.protocolEarnings[ProtocolId].totalRewardsDistributed else 0
  }

  /** `handleDistributeRewards`: logs the event under `createId` and adds
      `amount` to the "protocol" singleton's totalRewardsDistributed, which thus
      never decreases; no AccountState is touched. */
  function ApplyDistributeRewards(s: Snapshot, p: Provenance, logIndex: nat, sender: Address,
                                  amountStaked: nat, amount: nat): (r: Snapshot)
    ensures ProtocolId in r.protocolEarnings
    ensures r.protocolEarnings[ProtocolId].totalRewardsDistributed == TotalDistributed(s) + amount
    ensures r.protocolEarnings[ProtocolId].totalRewardsDistributed >= TotalDistributed(s)
    ensures r.protocolEarnings[ProtocolId].provenance == p
    ensures r.protocolEarnings - {ProtocolId} == s.protocolEarnings - {ProtocolId}
    ensures r.distributeRewards ==
      s.distributeRewards[StringKey(CreateId(p.transactionHash, logIndex)) := DistributeRewards(sender, amountStaked, amount, p)]
    ensures r.(protocolEarnings := s.protocolEarnings, distributeRewards := s.distributeRewards) == s
  {
    var logged := s.(distributeRewards :=
      s.distributeRewards[StringKey(CreateId(p.transactionHash, logIndex)) := DistributeRewards(sender, amountStaked, amount, p)]);
    var earnings := ProtocolEarnings(TotalDistributed(s) + amount, p);
    assert s.protocolEarnings[ProtocolId := earnings] - {ProtocolId} == s.protocolEarnings - {ProtocolId};
    logged.(protocolEarnings := s.protocolEarnings[ProtocolId := earnings])
  }

  method HandleDistributeRewards(store: EntityStore, p: Provenance, logIndex: nat, sender: Address,
                                 amountStaked: nat, amount: nat)
    modifies store
    ensures store.State() == ApplyDistributeRewards(old(store.State()), p, logIndex, sender, amountStaked, amount)
  {
    store.SaveDistributeRewards(StringKey(CreateId(p.transactionHash, logIndex)),
                                DistributeRewards(sender, amountStaked, amount, p));
    var loaded := store.LoadProtocolEarnings(ProtocolId);
    var total := if loaded.Some? then loaded.value.totalRewardsDistributed else 0;
    total := total + amount;
    store.SaveProtocolEarnings(ProtocolId, ProtocolEarnings(total, p));
  }

  /** `handleWithdraw`: logs the event under `createId` and subtracts `amount`
      from stLinkBalance with no clamp. A missing account is created with only
      `account` set, so its stLinkBalance read fails: `None`, the handler aborts,
      exactly when the account is missing or has no stLinkBalance. */
  function ApplyWithdraw(s: Snapshot, p: Provenance, logIndex: nat, account: Address, amount: nat): (r: Option<Snapshot>)
    ensures r.None? <==> AccountId(account) !in s.accounts || s.accounts[AccountId(account)].stLinkBalance.None?
    ensures r.Some? ==>
      var before := s.accounts[AccountId(account)];
      && AccountId(account) in r.value.accounts
      && r.value.accounts[AccountId(account)].stLinkBalance == Some(before.stLinkBalance.value - amount)
      && r.value.accounts[AccountId(account)].provenance == Some(p)
      && r.value.accounts[AccountId(account)].(stLinkBalance := before.stLinkBalance, provenance := before.provenance) == before
    ensures r.Some? ==> r.value.accounts - {AccountId(account)} == s.accounts - {AccountId(account)}
    ensures r.Some? ==>
      r.value.withdrawals == s.withdrawals[StringKey(CreateId(p.transactionHash, logIndex)) := Withdraw(account, amount, p)]
    ensures r.Some? ==> r.value.(accounts := s.accounts, withdrawals := s.withdrawals) == s
  {
    var id := AccountId(account);
    var a := LoadOr(s.accounts, id, NewAccountState(account));
    if a.stLinkBalance.None? then None
    else
      var updated := Stamp(a.(stLinkBalance := Some(a.stLinkBalance.value - amount)), p);
      assert s.accounts[id := updated] - {id} == s.accounts - {id};
      Some(s.(withdrawals := s.withdrawals[StringKey(CreateId(p.transactionHash, logIndex)) := Withdraw(account, amount, p)],
              accounts := s.accounts[id := updated]))
  }

  method HandleWithdraw(store: EntityStore, p: Provenance, logIndex: nat, account: Address, amount: nat)
    returns (ok: bool)
    modifies store
    ensures var r := ApplyWithdraw(old(store.State()), p, logIndex, account, amount);
      ok == r.Some? && store.State() == r.GetOr(old(store.State()))
  {
    var saved := store.State();
    store.SaveWithdraw(StringKey(CreateId(p.transactionHash, logIndex)), Withdraw(account, amount, p));
    var loaded := store.LoadAccount(AccountId(account));
    var a := if loaded.Some? then loaded.value else NewAccountState(account);
    if a.stLinkBalance.None? {
      store.Restore(saved);
      ok := false;
      return;
    }
    a := a.(stLinkBalance := Some(a.stLinkBalance.value - amount));
    a := a.(provenance := Some(p));
    store.SaveAccount(AccountId(account), a);
    ok := true;
  }

  /** A call on an account with no record creates it with only stLinkBalance,
      rewardsAccumulated and wrappedRewards at 0, then records the output. */
  lemma CallOnNewAccount(s: Snapshot, call: RewardsCall, account: Address, value: nat, p: Provenance)
    requires AccountId(account) !in s.accounts
    ensures var b := ApplyCall(s, call, account, value, p).accounts[AccountId(account)];
      && b.account == account
      && b.stLinkBalance == Some(0) && b.rewardsAccumulated == Some(0) && b.wrappedRewards == Some(0)
      && Output(b, call) == Some(value)
      && b.shares == None && b.wrappedTokenBalance == None && b.lastUpdated == None
  {
  }
}

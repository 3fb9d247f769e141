/** The entities the handlers write: AccountState (one per account, keyed by
    the account's lower-case hex address), the ProtocolEarnings singleton, and
    the write-once event records keyed by transaction hash and log index. */
module Entities {
  import opened Wrappers
  import opened Encoding

  /** A 20-byte account address. */
  type Address = Bytes

  /** Where a write came from: the block and transaction of the event or call. */
  datatype Provenance = Provenance(blockNumber: int, blockTimestamp: int, transactionHash: Bytes)

  /** An AccountState entity. A field that no handler has assigned yet is `None`;
      reading such a field aborts the handler (the generated getter throws).
      blockNumber, blockTimestamp and transactionHash are always assigned together,
      so they are kept as one optional `provenance`. */
  datatype AccountState = AccountState(
    account: Address,
    stLinkBalance: Option<int>,
    shares: Option<int>,
    rewardsAccumulated: Option<int>,
    wrappedRewards: Option<int>,
    withdrawableRewards: Option<int>,
    withdrawableRewardsWrapped: Option<int>,
    wrappedTokenBalance: Option<int>,
    userRewardPerTokenPaid: Option<int>,
    userRewards: Option<int>,
    lastUpdated: Option<int>,
    provenance: Option<Provenance>)

  /** The store key of an account: `address.toHex()`. */
  function AccountId(a: Address): string {
    ToHex(a)
  }

  /** `new AccountState(id)` with only `account` assigned. */
  function NewAccountState(a: Address): AccountState {
    AccountState(a, None, None, None, None, None, None, None, None, None, None, None)
  }

  /** Sets blockNumber, blockTimestamp and transactionHash from the event. */
  function Stamp(a: AccountState, p: Provenance): AccountState {
    a.(provenance := Some(p))
  }

  /** `Stamp`, and lastUpdated set to the block timestamp. */
  function StampUpdated(a: AccountState, p: Provenance): AccountState {
    a.(provenance := Some(p), lastUpdated := Some(p.blockTimestamp))
  }

  /** The stored record under `id`, or `created` when there is none. */
  function LoadOr(m: map<string, AccountState>, id: string, created: AccountState): AccountState {
    if id in m then m[id] else created
  }

  /** The record the token handlers and the balance refresh create for an
      unknown account: six numeric fields at 0, lastUpdated and provenance unset. */
  function ZeroedAccountState(a: Address): AccountState {
    NewAccountState(a).(stLinkBalance := Some(0), shares := Some(0), rewardsAccumulated := Some(0),
                        wrappedRewards := Some(0), withdrawableRewards := Some(0),
                        wrappedTokenBalance := Some(0))
  }

  /** The record the token handlers and the balance refresh work on: the stored
      one, or a zeroed new one. */
  function LoadOrZeroed(accounts: map<string, AccountState>, account: Address): AccountState {
    LoadOr(accounts, AccountId(account), ZeroedAccountState(account))
  }

  /** The ProtocolEarnings singleton. */
  datatype ProtocolEarnings = ProtocolEarnings(totalRewardsDistributed: int, provenance: Provenance)

  const ProtocolId: string := "protocol"

  /** The id of an event record: `hash.concatI32(logIndex)` (kept abstract and
      injective) or the string built by `createId`. */
  datatype RecordKey = ConcatI32Key(transactionHash: Bytes, logIndex: nat) | StringKey(id: string)

  datatype DistributeRewards = DistributeRewards(sender: Address, amountStaked: nat, amount: nat, provenance: Provenance)
  datatype Withdraw = Withdraw(account: Address, amount: nat, provenance: Provenance)
  datatype Transfer = Transfer(from: Address, to: Address, value: nat, provenance: Provenance)
  datatype Approval = Approval(owner: Address, spender: Address, value: nat, provenance: Provenance)
  datatype AdminChanged = AdminChanged(previousAdmin: Address, newAdmin: Address, provenance: Provenance)
  datatype BeaconUpgraded = BeaconUpgraded(beacon: Address, provenance: Provenance)
  datatype Upgraded = Upgraded(implementation: Address, provenance: Provenance)

  /** The whole store as a value. */
  datatype Snapshot = Snapshot(
    accounts: map<string, AccountState>,
    protocolEarnings: map<string, ProtocolEarnings>,
    distributeRewards: map<RecordKey, DistributeRewards>,
    withdrawals: map<RecordKey, Withdraw>,
    transfers: map<RecordKey, Transfer>,
    approvals: map<RecordKey, Approval>,
    adminChanges: map<RecordKey, AdminChanged>,
    beaconUpgrades: map<RecordKey, BeaconUpgraded>,
    upgrades: map<RecordKey, Upgraded>)

  const EmptySnapshot: Snapshot :=
    Snapshot(map[], map[], map[], map[], map[], map[], map[], map[], map[])

  /** The snapshots agree on every entity except the AccountStates keyed in `ids`. */
  predicate OnlyAccountsChanged(before: Snapshot, after: Snapshot, ids: set<string>) {
    && after.(accounts := before.accounts) == before
    && after.accounts - ids == before.accounts - ids
  }

  /** What every handler keeps true of the stored accounts: each is stored under
      its own address's id, and stLinkBalance, rewardsAccumulated and
      wrappedRewards, which every creating path that saves assigns, are assigned. */
  predicate Consistent(accounts: map<string, AccountState>) {
    forall id :: id in accounts ==>
      && AccountId(accounts[id].account) == id
      && accounts[id].stLinkBalance.Some?
      && accounts[id].rewardsAccumulated.Some?
      && accounts[id].wrappedRewards.Some?
  }

  /** The zero address, which the wrapped token uses as the mint/burn sentinel. */
  const ZeroAddress: Address := seq(20, _ => 0 as Byte)

  const ZeroAddressHex: string := "0x0000000000000000000000000000000000000000"

  lemma {:induction false} HexDigitsOfZeros(n: nat)
    ensures HexDigits(seq(n, _ => 0 as Byte)) == seq(2 * n, _ => '0')
  {
    if n > 0 {
      var z := seq(n, _ => 0 as Byte);
      assert z[1..] == seq(n - 1, _ => 0 as Byte);
      HexDigitsOfZeros(n - 1);
      assert HexDigits(z) == ['0', '0'] + seq(2 * (n - 1), _ => '0');
    }
  }

  /** The literal the wrapped token compares against is the id of the zero
      address and of no other address. */
  lemma ZeroAddressIdIff(a: Address)
    ensures AccountId(a) == ZeroAddressHex <==> a == ZeroAddress
  {
    HexDigitsOfZeros(20);
    assert AccountId(ZeroAddress) == ZeroAddressHex;
    ToHexInjective(a, ZeroAddress);
  }

  /** The two balances whose totals the transfer handlers move. */
  datatype Balance = StLink | WrappedToken

  /** The balance of one account; a balance never assigned counts as 0. */
  function BalanceOf(a: AccountState, b: Balance): int {
    match b
    case StLink => a.stLinkBalance.GetOr(0)
    case WrappedToken => a.wrappedTokenBalance.GetOr(0)
  }

  /** The sum of one balance over all stored accounts. */
  ghost function Total(m: map<string, AccountState>, b: Balance): int
    decreases |m|
  {
    if m == map[] then 0
    else
      var k :| k in m;
      BalanceOf(m[k], b) + Total(m - {k}, b)
  }

  lemma {:induction false} TotalRemove(m: map<string, AccountState>, b: Balance, k: string)
    requires k in m
    ensures Total(m, b) == BalanceOf(m[k], b) + Total(m - {k}, b)
    decreases |m|
  {
    var j :| j in m && Total(m, b) == BalanceOf(m[j], b) + Total(m - {j}, b);
    if j != k {
      var mj, mk := m - {j}, m - {k};
      assert mj.Keys == m.Keys - {j} && mk.Keys == m.Keys - {k};
      assert |mj| < |m| && |mk| < |m|;
      TotalRemove(mj, b, k);
      TotalRemove(mk, b, j);
      assert mj - {k} == mk - {j};
    }
  }

  /** Saving one account changes the total by the difference of its balances. */
  lemma TotalUpdate(m: map<string, AccountState>, b: Balance, k: string, v: AccountState)
    ensures Total(m[k := v], b) == Total(m, b) - (if k in m then BalanceOf(m[k], b) else 0) + BalanceOf(v, b)
  {
    var m' := m[k := v];
    TotalRemove(m', b, k);
    assert m' - {k} == m - {k};
    if k in m {
      TotalRemove(m, b, k);
    } else {
      assert m - {k} == m;
    }
  }
}

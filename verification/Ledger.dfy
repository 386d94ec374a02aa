/**
 Mock fund operations: transfers and refreshes over an append-only log of snapshots, whose latest entry
 for an account and market is its balance. Amounts are whole numbers of the smallest money unit.
 */
module Ledger {
  import opened Common

  datatype Funds = Funds(balance: int, buying_power: int, frozen: int)

  /** Rows in id order; an autoincrement id is the position. */
  datatype Snapshot = Snapshot(fundAccount: string, market: Market, reason: Reason, funds: Funds)

  type Log = seq<Snapshot>

  const NOTHING := Funds(0, 0, 0)

  /** The last row of an account and market; all zero when there is none. */
  function Latest(log: Log, account: string, market: Market): Funds {
    if log == [] then NOTHING
    else if log[|log| - 1].fundAccount == account && log[|log| - 1].market == market then log[|log| - 1].funds
    else Latest(log[..|log| - 1], account, market)
  }

  function Balance(log: Log, account: string, market: Market): int {
    Latest(log, account, market).balance
  }

  /** The rows of an account and market, latest first. */
  function Newest(log: Log, account: string, market: Market): seq<Funds> {
    if log == [] then []
    else
      var rest := Newest(log[..|log| - 1], account, market);
      if log[|log| - 1].fundAccount == account && log[|log| - 1].market == market
      then [log[|log| - 1].funds] + rest
      else rest
  }

  function Signed(direction: Direction, amount: int): int {
    if direction == IN then amount else -amount
  }

  function OtherMarket(market: Market): Market {
    if market == SH then SZ else SH
  }

  // ---- operations --------------------------------------------------------------

  datatype Operation =
    | Inner(account: string, market: Market, direction: Direction, amount: int)
    | External(account: string, market: Market, direction: Direction, amount: int)
    | Refresh(account: string)

  /** A transfer is accepted when no balance would become negative. */
  predicate Accepted(log: Log, op: Operation) {
    match op
    case Inner(account, market, direction, amount) =>
      && Balance(log, account, market) + Signed(direction, amount) >= 0
      && Balance(log, account, OtherMarket(market)) - Signed(direction, amount) >= 0
    case External(account, market, direction, amount) =>
      Balance(log, account, market) + Signed(direction, amount) >= 0
    case Refresh(_) => true
  }

  /** The snapshots around a change of one balance; buying power and frozen funds stay. */
  function BeforeAndAfter(log: Log, account: string, market: Market, change: int): Log {
    var funds := Latest(log, account, market);
    [Snapshot(account, market, BEFORE_TRANSFER, funds),
     Snapshot(account, market, AFTER_TRANSFER, funds.(balance := funds.balance + change))]
  }

  function Synced(log: Log, account: string, market: Market, reason: Reason): Log {
    log + [Snapshot(account, market, reason, Latest(log, account, market))]
  }

  /** The log after an operation; a refused one leaves it alone. */
  function After(log: Log, op: Operation): Log {
    if !Accepted(log, op) then log
    else
      match op
      case Inner(account, market, direction, amount) =>
        log + (BeforeAndAfter(log, account, market, Signed(direction, amount))
               + BeforeAndAfter(log, account, OtherMarket(market), -Signed(direction, amount)))
      case External(account, market, direction, amount) =>
        log + BeforeAndAfter(log, account, market, Signed(direction, amount))
      case Refresh(account) =>
        Synced(Synced(log, account, SH, SYNC), account, SZ, SYNC)
  }

  // ---- the account the log stands for ---------------------------------------------

  /** What an operation does to the balance of an account and market, the log forgotten. */
  function Change(log: Log, op: Operation, account: string, market: Market): int {
    if !Accepted(log, op) || op.Refresh? || op.account != account then 0
    else
      var gain := match op.direction case IN => op.amount case OUT => -op.amount;
      if op.market == market then gain
      else if op.Inner? && market == (if op.market == SH then SZ else SH) then -gain
      else 0
  }

  predicate IsOf(s: Snapshot, account: string, market: Market) {
    s.fundAccount == account && s.market == market
  }

  /** The row at a place is of the account and market, and no later row is. */
  ghost predicate LastRow(log: Log, account: string, market: Market, i: int) {
    0 <= i < |log| && IsOf(log[i], account, market) && forall j :: i < j < |log| ==> !IsOf(log[j], account, market)
  }

  /** The funds of the last row of the account and market, or zeros when there is no row. */
  ghost predicate AreLatest(funds: Funds, log: Log, account: string, market: Market) {
    || (funds == Funds(0, 0, 0) && forall i :: 0 <= i < |log| ==> !IsOf(log[i], account, market))
    || exists i :: LastRow(log, account, market, i) && funds == log[i].funds
  }

  lemma {:induction false} LatestExactly(log: Log, account: string, market: Market)
    ensures AreLatest(Latest(log, account, market), log, account, market)
    decreases log
  {
    if log != [] {
      var n := |log| - 1;
      var before := log[..n];
      assert forall i :: 0 <= i < n ==> before[i] == log[i];
      LatestExactly(before, account, market);
      if IsOf(log[n], account, market) {
        assert LastRow(log, account, market, n);
      } else if exists i :: LastRow(before, account, market, i) && Latest(log, account, market) == before[i].funds {
        var i :| LastRow(before, account, market, i) && Latest(log, account, market) == before[i].funds;
        assert LastRow(log, account, market, i);
      }
    }
  }

  /** Only the balances of some markets of one account moved, and by these amounts; the other funds stay. */
  ghost predicate Moved(log: Log, after: Log, account: string, market: Market, gain: int, other: Option<Market>) {
    forall a, m ::
      var f := Latest(log, a, m);
      Latest(after, a, m) ==
      f.(balance := f.balance + if a == account && m == market then gain
                                else if a == account && Some(m) == other then -gain
                                else 0)
  }

  /** Two rows of an account and market: its latest funds, and the same with the balance changed. */
  predicate BeforeAfter(a: Snapshot, b: Snapshot, log: Log, account: string, market: Market, gain: int) {
    && a.fundAccount == account && a.market == market && a.reason == BEFORE_TRANSFER
    && a.funds == Latest(log, account, market)
    && b.fundAccount == account && b.market == market && b.reason == AFTER_TRANSFER
    && b.funds.balance == a.funds.balance + gain
    && b.funds.buying_power == a.funds.buying_power && b.funds.frozen == a.funds.frozen
  }

  lemma LatestOfAppend(log: Log, s: Snapshot, account: string, market: Market)
    ensures Latest(log + [s], account, market) ==
            if s.fundAccount == account && s.market == market then s.funds else Latest(log, account, market)
  {
    assert (log + [s])[..|log|] == log;
  }

  lemma LatestOfPair(log: Log, base: Log, who: string, where: Market, change: int, account: string, market: Market)
    ensures Latest(log + BeforeAndAfter(base, who, where, change), account, market) ==
            if who == account && where == market
            then var f := Latest(base, who, where); f.(balance := f.balance + change)
            else Latest(log, account, market)
  {
    var pair := BeforeAndAfter(base, who, where, change);
    assert log + pair == (log + [pair[0]]) + [pair[1]];
    LatestOfAppend(log, pair[0], account, market);
    LatestOfAppend(log + [pair[0]], pair[1], account, market);
  }

  lemma InnerChange(log: Log, who: string, where: Market, change: int, account: string, market: Market)
    ensures
      var other := OtherMarket(where);
      var f := Latest(log, account, market);
      Latest(log + (BeforeAndAfter(log, who, where, change) + BeforeAndAfter(log, who, other, -change)),
             account, market)
      == f.(balance := f.balance + if who != account then 0
                                   else if market == where then change
                                   else if market == other then -change
                                   else 0)
  {
    var other := OtherMarket(where);
    var first := log + BeforeAndAfter(log, who, where, change);
    assert log + (BeforeAndAfter(log, who, where, change) + BeforeAndAfter(log, who, other, -change))
           == first + BeforeAndAfter(log, who, other, -change);
    LatestOfPair(log, log, who, where, change, account, market);
    LatestOfPair(first, log, who, other, -change, account, market);
  }

  lemma RefreshKeeps(log: Log, who: string, account: string, market: Market)
    ensures Latest(Synced(Synced(log, who, SH, SYNC), who, SZ, SYNC), account, market) == Latest(log, account, market)
  {
    var first := Synced(log, who, SH, SYNC);
    LatestOfAppend(log, Snapshot(who, SH, SYNC, Latest(log, who, SH)), account, market);
    LatestOfAppend(log, Snapshot(who, SH, SYNC, Latest(log, who, SH)), who, SZ);
    LatestOfAppend(first, Snapshot(who, SZ, SYNC, Latest(first, who, SZ)), account, market);
  }

  /** The log refines an account of plain balances: each operation adds exactly its change, and nothing else moves. */
  lemma RefinesBalances(log: Log, op: Operation, account: string, market: Market)
    ensures Latest(After(log, op), account, market) ==
            var f := Latest(log, account, market); f.(balance := f.balance + Change(log, op, account, market))
  {
    hide Latest;
    if Accepted(log, op) {
      match op
      case Inner(who, where, direction, amount) =>
        InnerChange(log, who, where, Signed(direction, amount), account, market);
      case External(who, where, direction, amount) =>
        LatestOfPair(log, log, who, where, Signed(direction, amount), account, market);
      case Refresh(who) =>
        RefreshKeeps(log, who, account, market);
    }
  }

  function AfterAll(log: Log, ops: seq<Operation>): Log {
    if ops == [] then log else After(AfterAll(log, ops[..|ops| - 1]), ops[|ops| - 1])
  }

  /** From an empty log no balance is ever negative. */
  lemma {:induction false} NeverNegative(ops: seq<Operation>, account: string, market: Market)
    ensures Balance(AfterAll([], ops), account, market) >= 0
    decreases |ops|
  {
    if ops != [] {
      var before, op := AfterAll([], ops[..|ops| - 1]), ops[|ops| - 1];
      NeverNegative(ops[..|ops| - 1], account, market);
      RefinesBalances(before, op, account, market);
    }
  }

  function Total(log: Log, account: string): int {
    Balance(log, account, SH) + Balance(log, account, SZ)
  }

  /** The signed amount of an accepted external transfer of the account; 0 for everything else. */
  function ExternalAmount(log: Log, op: Operation, account: string): int {
    if op.External? && op.account == account && Accepted(log, op)
    then match op.direction case IN => op.amount case OUT => -op.amount
    else 0
  }

  function NetExternal(log: Log, ops: seq<Operation>, account: string): int {
    if ops == [] then 0
    else
      NetExternal(log, ops[..|ops| - 1], account)
      + ExternalAmount(AfterAll(log, ops[..|ops| - 1]), ops[|ops| - 1], account)
  }

  /** Money is conserved: the total changes by the accepted external transfers and by nothing else. */
  lemma {:induction false} MoneyConserved(log: Log, ops: seq<Operation>, account: string)
    requires forall i :: 0 <= i < |ops| ==> ops[i].Refresh? || ops[i].market == SH || ops[i].market == SZ
    ensures Total(AfterAll(log, ops), account) == Total(log, account) + NetExternal(log, ops, account)
    decreases |ops|
  {
    if ops != [] {
      var before, op := AfterAll(log, ops[..|ops| - 1]), ops[|ops| - 1];
      MoneyConserved(log, ops[..|ops| - 1], account);
      RefinesBalances(before, op, account, SH);
      RefinesBalances(before, op, account, SZ);
    }
  }

  /** The log only grows. */
  lemma {:induction false} AppendOnly(log: Log, ops: seq<Operation>)
    ensures log <= AfterAll(log, ops)
    decreases |ops|
  {
    if ops != [] { AppendOnly(log, ops[..|ops| - 1]); }
  }

  // ---- the code ------------------------------------------------------------------

  datatype Refreshed = Refreshed(current_balance: int, previous_balance: int, delta: int)

  /** Balance of the n-th newest row, 0 if there is no such row. */
  function BalanceAt(rows: seq<Funds>, n: nat): int {
    if n < |rows| then rows[n].balance else 0
  }

  /** An accepted transfer between the markets of an account moves its amount, and appends what it did. */
  lemma InnerDoes(log: Log, account: string, market: Market, direction: Direction, amount: int)
    ensures var other := if market == SH then SZ else SH;
            var gain := if direction == IN then amount else -amount;
            var op := Inner(account, market, direction, amount);
            && (Accepted(log, op) <==>
                  Balance(log, account, market) + gain >= 0 && Balance(log, account, other) - gain >= 0)
            && (Accepted(log, op) ==>
                  var after, n := After(log, op), |log|;
                  && |after| == n + 4 && log <= after
                  && BeforeAfter(after[n], after[n + 1], log, account, market, gain)
                  && BeforeAfter(after[n + 2], after[n + 3], log, account, other, -gain)
                  && Moved(log, after, account, market, gain, Some(other)))
  {
    hide Latest;
    var op := Inner(account, market, direction, amount);
    forall a, m
      ensures Latest(After(log, op), a, m)
              == var f := Latest(log, a, m); f.(balance := f.balance + Change(log, op, a, m))
    {
      RefinesBalances(log, op, a, m);
    }
  }

  /** An accepted transfer from or to outside moves its amount, and appends what it did. */
  lemma ExternalDoes(log: Log, account: string, market: Market, direction: Direction, amount: int)
    ensures var gain := if direction == IN then amount else -amount;
            var op := External(account, market, direction, amount);
            && (Accepted(log, op) <==> Balance(log, account, market) + gain >= 0)
            && (Accepted(log, op) ==>
                  var after, n := After(log, op), |log|;
                  && |after| == n + 2 && log <= after
                  && BeforeAfter(after[n], after[n + 1], log, account, market, gain)
                  && Moved(log, after, account, market, gain, None))
  {
    hide Latest;
    var op := External(account, market, direction, amount);
    forall a, m
      ensures Latest(After(log, op), a, m)
              == var f := Latest(log, a, m); f.(balance := f.balance + Change(log, op, a, m))
    {
      RefinesBalances(log, op, a, m);
    }
  }

  lemma {:induction false} NewestStartsWithLatest(log: Log, account: string, market: Market)
    ensures BalanceAt(Newest(log, account, market), 0) == Balance(log, account, market)
  {
    if log != [] { NewestStartsWithLatest(log[..|log| - 1], account, market); }
  }

  lemma NewestOfAppend(log: Log, s: Snapshot, account: string, market: Market)
    ensures Newest(log + [s], account, market) ==
            (if s.fundAccount == account && s.market == market then [s.funds] else []) + Newest(log, account, market)
  {
    assert (log + [s])[..|log|] == log;
  }

  class FundAccountService {
    var snapshots: Log

    constructor ()
      ensures snapshots == []
    {
      snapshots := [];
    }

    /** The query takes the row with the greatest id. */
    method GetLatestSnapshot(account: string, market: Market) returns (funds: Funds)
      ensures funds == Latest(snapshots, account, market) && AreLatest(funds, snapshots, account, market)
    {
      LatestExactly(snapshots, account, market);
      var i := |snapshots|;
      assert snapshots[..i] == snapshots;
      while i > 0
        invariant 0 <= i <= |snapshots|
        invariant Latest(snapshots[..i], account, market) == Latest(snapshots, account, market)
      {
        assert snapshots[..i][..i - 1] == snapshots[..i - 1];
        i := i - 1;
        if snapshots[i].fundAccount == account && snapshots[i].market == market {
          return snapshots[i].funds;
        }
      }
      return NOTHING;
    }

    method MockInnerTransfer(account: string, market: Market, other: Market, direction: Direction, amount: int)
      returns (ok: bool)
      requires other == if market == SH then SZ else SH
      modifies this
      ensures var gain := if direction == IN then amount else -amount;
              && ok == (Balance(old(snapshots), account, market) + gain >= 0
                        && Balance(old(snapshots), account, other) - gain >= 0)
              && (ok ==>
                    && |snapshots| == |old(snapshots)| + 4 && old(snapshots) <= snapshots
                    && var n := |old(snapshots)|;
                       && BeforeAfter(snapshots[n], snapshots[n + 1], old(snapshots), account, market, gain)
                       && BeforeAfter(snapshots[n + 2], snapshots[n + 3], old(snapshots), account, other, -gain)
                       && Moved(old(snapshots), snapshots, account, market, gain, Some(other)))
      ensures !ok ==> snapshots == old(snapshots)
      ensures snapshots == After(old(snapshots), Inner(account, market, direction, amount))
    {
      hide Latest, Moved, BeforeAfter, AreLatest;
      InnerDoes(snapshots, account, market, direction, amount);
      var sign := if direction == IN then 1 else -1;
      var before := GetLatestSnapshot(account, market);
      var otherBefore := GetLatestSnapshot(account, other);
      var afterBalance, otherAfterBalance := before.balance + sign * amount, otherBefore.balance - sign * amount;
      if afterBalance < 0 || otherAfterBalance < 0 {
        return false;
      }
      snapshots := snapshots + ([
        Snapshot(account, market, BEFORE_TRANSFER, before),
        Snapshot(account, market, AFTER_TRANSFER, before.(balance := afterBalance))
      ] + [
        Snapshot(account, other, BEFORE_TRANSFER, otherBefore),
        Snapshot(account, other, AFTER_TRANSFER, otherBefore.(balance := otherAfterBalance))
      ]);
      return true;
    }

    method MockExternalTransfer(account: string, market: Market, direction: Direction, amount: int)
      returns (ok: bool)
      modifies this
      ensures var gain := if direction == IN then amount else -amount;
              && ok == (Balance(old(snapshots), account, market) + gain >= 0)
              && (ok ==>
                    && |snapshots| == |old(snapshots)| + 2 && old(snapshots) <= snapshots
                    && var n := |old(snapshots)|;
                       && BeforeAfter(snapshots[n], snapshots[n + 1], old(snapshots), account, market, gain)
                       && Moved(old(snapshots), snapshots, account, market, gain, None))
      ensures !ok ==> snapshots == old(snapshots)
      ensures snapshots == After(old(snapshots), External(account, market, direction, amount))
    {
      hide Latest, Moved, BeforeAfter, AreLatest;
      ExternalDoes(snapshots, account, market, direction, amount);
      var sign := if direction == IN then 1 else -1;
      var before := GetLatestSnapshot(account, market);
      var afterBalance := before.balance + sign * amount;
      if afterBalance < 0 {
        return false;
      }
      snapshots := snapshots + [
        Snapshot(account, market, BEFORE_TRANSFER, before),
        Snapshot(account, market, AFTER_TRANSFER, before.(balance := afterBalance))
      ];
      return true;
    }

    /** In mock mode an account is queried from its own latest snapshot. */
    method SyncFundAccount(account: string, market: Market, reason: Reason)
      modifies this
      ensures snapshots == Synced(old(snapshots), account, market, reason)
      ensures snapshots == old(snapshots) + [Snapshot(account, market, reason, Latest(old(snapshots), account, market))]
      ensures forall a, m :: Latest(snapshots, a, m) == Latest(old(snapshots), a, m)
    {
      var funds := GetLatestSnapshot(account, market);
      forall a, m
        ensures Latest(Synced(snapshots, account, market, reason), a, m) == Latest(snapshots, a, m)
      {
        LatestOfAppend(snapshots, Snapshot(account, market, reason, funds), a, m);
      }
      snapshots := snapshots + [Snapshot(account, market, reason, funds)];
    }

    /** A refresh reports the total balance before and after; they are always equal. */
    method RefreshFunds(account: string) returns (r: Refreshed)
      modifies this
      ensures snapshots == After(old(snapshots), Refresh(account))
      ensures r == Refreshed(Total(old(snapshots), account), Total(old(snapshots), account), 0)
    {
      SyncFundAccount(account, SH, SYNC);
      ghost var middle := snapshots;
      SyncFundAccount(account, SZ, SYNC);
      var sh, sz := Newest(snapshots, account, SH), Newest(snapshots, account, SZ);
      NewestOfRefresh(old(snapshots), account);
      var current := BalanceAt(sh, 0) + BalanceAt(sz, 0);
      var previous := BalanceAt(sh, 1) + BalanceAt(sz, 1);
      r := Refreshed(current, previous, current - previous);
    }
  }

  /** The two newest rows after a refresh: both hold the balance there was. */
  lemma NewestOfRefresh(log: Log, account: string)
    ensures
      var after := After(log, Refresh(account));
      var sh, sz := Newest(after, account, SH), Newest(after, account, SZ);
      && BalanceAt(sh, 0) == BalanceAt(sh, 1) == Balance(log, account, SH)
      && BalanceAt(sz, 0) == BalanceAt(sz, 1) == Balance(log, account, SZ)
  {
    var first := Synced(log, account, SH, SYNC);
    var s1 := Snapshot(account, SH, SYNC, Latest(log, account, SH));
    var s2 := Snapshot(account, SZ, SYNC, Latest(first, account, SZ));
    NewestOfAppend(log, s1, account, SH);
    NewestOfAppend(log, s1, account, SZ);
    NewestOfAppend(first, s2, account, SH);
    NewestOfAppend(first, s2, account, SZ);
    LatestOfAppend(log, s1, account, SZ);
    NewestStartsWithLatest(log, account, SH);
    NewestStartsWithLatest(log, account, SZ);
  }
}

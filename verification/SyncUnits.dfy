/** The units of a run, their order of writing, and the figures a run reports. */
module SyncUnits {
  import opened Common
  import opened Paths
  import opened Writer
  import opened SyncProtocol

  /** An active stock account with the markets its trading configurations name. */
  datatype Account = Account(
    account: string, keys: AccountKeys, xtpMarkets: seq<Market>, atpMarkets: seq<Market>)

  /** Empty filters stand for filters that were not given. */
  datatype RunInput = RunInput(
    taskType: OpsTaskType, tradeDay: string, opsTaskId: int, force: bool,
    fundAccounts: seq<string>, markets: seq<Market>, dataTypes: seq<TradeDataType>)

  datatype UnitSpec = UnitSpec(key: StepKey, keys: AccountKeys)

  // ---- loading ---------------------------------------------------------------

  function ResolveDataTypes(input: RunInput): Result<seq<TradeDataType>> {
    var defaults := DefaultTypes(input.taskType);
    if input.dataTypes == [] then Ok(defaults)
    else
      var resolved := Filter(defaults, (d: TradeDataType) => d in input.dataTypes);
      if resolved == [] then Err("no matching dataTypes") else Ok(resolved)
  }

  function Markets(a: Account): seq<Market> {
    if |a.xtpMarkets| > 0 then a.xtpMarkets else a.atpMarkets
  }

  function KeyOf(input: RunInput, a: Account, market: Market, dataType: TradeDataType): StepKey {
    StepKey(input.tradeDay, input.taskType, a.account, market, dataType)
  }

  function TypeUnits(input: RunInput, a: Account, market: Market, types: seq<TradeDataType>): seq<UnitSpec> {
    if types == [] then []
    else TypeUnits(input, a, market, types[..|types| - 1])
         + [UnitSpec(KeyOf(input, a, market, types[|types| - 1]), a.keys)]
  }

  function MarketUnits(input: RunInput, a: Account, markets: seq<Market>, types: seq<TradeDataType>): seq<UnitSpec> {
    if markets == [] then []
    else
      var market := markets[|markets| - 1];
      MarketUnits(input, a, markets[..|markets| - 1], types)
      + if input.markets != [] && market !in input.markets then [] else TypeUnits(input, a, market, types)
  }

  function Units(input: RunInput, accounts: seq<Account>, types: seq<TradeDataType>): seq<UnitSpec> {
    if accounts == [] then []
    else
      var a := accounts[|accounts| - 1];
      Units(input, accounts[..|accounts| - 1], types)
      + if input.fundAccounts != [] && a.account !in input.fundAccounts then []
        else MarketUnits(input, a, Markets(a), types)
  }

  function FilterOf(input: RunInput, types: seq<TradeDataType>): StepFilter {
    StepFilter(input.tradeDay, input.taskType, types, input.fundAccounts, input.markets)
  }

  /** What the schema and the accounts guarantee: one row per account, one configuration per account and market. */
  ghost predicate WellFormedAccounts(accounts: seq<Account>) {
    && (forall i, j :: 0 <= i < j < |accounts| ==> accounts[i].account != accounts[j].account)
    && forall i :: 0 <= i < |accounts| ==> Distinct(accounts[i].xtpMarkets) && Distinct(accounts[i].atpMarkets)
  }

  /** A trade day YYYY-MM-DD, and names that are single path segments: what keeps local paths apart. */
  ghost predicate PlainNames(input: RunInput, accounts: seq<Account>) {
    && DayShape(input.tradeDay)
    && forall i :: 0 <= i < |accounts| ==> SafeName(accounts[i].account) && SafeName(accounts[i].keys.brokerKey)
  }

  ghost predicate DistinctUnits(units: seq<UnitSpec>) {
    forall i, j :: 0 <= i < j < |units| ==> units[i].key != units[j].key
  }

  lemma {:induction false} DistinctConcat(a: seq<UnitSpec>, b: seq<UnitSpec>)
    requires DistinctUnits(a) && DistinctUnits(b)
    requires forall i, j :: 0 <= i < |a| && 0 <= j < |b| ==> a[i].key != b[j].key
    ensures DistinctUnits(a + b)
  {
  }

  lemma {:induction false} TypeUnitsShape(input: RunInput, a: Account, market: Market, types: seq<TradeDataType>)
    requires Distinct(types)
    ensures DistinctUnits(TypeUnits(input, a, market, types))
    ensures forall u :: u in TypeUnits(input, a, market, types) ==>
              u.keys == a.keys && u.key.dataType in types && u.key == KeyOf(input, a, market, u.key.dataType)
  {
    if types != [] {
      TypeUnitsShape(input, a, market, types[..|types| - 1]);
      DistinctConcat(TypeUnits(input, a, market, types[..|types| - 1]),
                     [UnitSpec(KeyOf(input, a, market, types[|types| - 1]), a.keys)]);
    }
  }

  lemma {:induction false} MarketUnitsShape(
      input: RunInput, a: Account, markets: seq<Market>, types: seq<TradeDataType>)
    requires Distinct(types) && Distinct(markets)
    ensures DistinctUnits(MarketUnits(input, a, markets, types))
    ensures forall u :: u in MarketUnits(input, a, markets, types) ==>
              && u.keys == a.keys && u.key.dataType in types && u.key.market in markets
              && (input.markets == [] || u.key.market in input.markets)
              && u.key == KeyOf(input, a, u.key.market, u.key.dataType)
  {
    if markets != [] {
      var market, rest := markets[|markets| - 1], markets[..|markets| - 1];
      MarketUnitsShape(input, a, rest, types);
      TypeUnitsShape(input, a, market, types);
      if input.markets == [] || market in input.markets {
        var left, right := MarketUnits(input, a, rest, types), TypeUnits(input, a, market, types);
        forall i, j | 0 <= i < |left| && 0 <= j < |right|
          ensures left[i].key != right[j].key
        {
          assert left[i] in left && right[j] in right;
        }
        DistinctConcat(left, right);
      }
    }
  }

  /** The unit is one of a listed account. */
  ghost predicate OfAccount(u: UnitSpec, accounts: seq<Account>) {
    exists i :: 0 <= i < |accounts| && u.key.fundAccount == accounts[i].account && u.keys == accounts[i].keys
  }

  /**
   What loading gives, whatever the names: units of listed accounts with distinct keys, each of which a forced
   run with the same input resets.
   */
  ghost predicate UnitsShape(units: seq<UnitSpec>, input: RunInput, accounts: seq<Account>, types: seq<TradeDataType>) {
    && DistinctUnits(units)
    && forall u :: u in units ==>
         && MatchesFilter(u.key, FilterOf(input, types)) && u.key.dataType in DefaultTypes(u.key.taskType)
         && OfAccount(u, accounts)
  }

  lemma OfMoreAccounts(u: UnitSpec, accounts: seq<Account>)
    requires accounts != [] && OfAccount(u, accounts[..|accounts| - 1])
    ensures OfAccount(u, accounts)
  {
    var rest := accounts[..|accounts| - 1];
    var i :| 0 <= i < |rest| && u.key.fundAccount == rest[i].account && u.keys == rest[i].keys;
    assert accounts[i] == rest[i];
  }

  lemma {:induction false} UnitsHaveShape(input: RunInput, accounts: seq<Account>, types: seq<TradeDataType>)
    requires WellFormedAccounts(accounts)
    requires Distinct(types) && forall t :: t in types ==> t in DefaultTypes(input.taskType)
    ensures UnitsShape(Units(input, accounts, types), input, accounts, types)
  {
    if accounts != [] {
      var a, rest := accounts[|accounts| - 1], accounts[..|accounts| - 1];
      UnitsHaveShape(input, rest, types);
      MarketUnitsShape(input, a, Markets(a), types);
      if input.fundAccounts == [] || a.account in input.fundAccounts {
        var left, right := Units(input, rest, types), MarketUnits(input, a, Markets(a), types);
        forall u | u in right
          ensures OfAccount(u, accounts)
        {
          assert u.key.fundAccount == accounts[|accounts| - 1].account;
        }
        forall i, j | 0 <= i < |left| && 0 <= j < |right|
          ensures left[i].key != right[j].key
        {
          assert left[i] in left && right[j] in right && OfAccount(left[i], rest);
        }
        DistinctConcat(left, right);
      }
      forall u | u in Units(input, rest, types)
        ensures OfAccount(u, accounts)
      {
        OfMoreAccounts(u, accounts);
      }
    }
  }

  /** With plain names every unit's path and slice are its own. */
  lemma UnitsArePlain(units: seq<UnitSpec>, input: RunInput, accounts: seq<Account>, types: seq<TradeDataType>)
    requires UnitsShape(units, input, accounts, types) && PlainNames(input, accounts)
    ensures forall u :: u in units ==> UnitKey(u.key) && SafeName(u.keys.brokerKey)
  {
    forall u | u in units
      ensures UnitKey(u.key) && SafeName(u.keys.brokerKey)
    {
      assert OfAccount(u, accounts);
    }
  }

  lemma ResolvedTypes(input: RunInput)
    requires ResolveDataTypes(input).Ok?
    ensures var types := ResolveDataTypes(input).value;
            Distinct(types) && forall t :: t in types ==> t in DefaultTypes(input.taskType)
  {
    var wanted := (d: TradeDataType) => d in input.dataTypes;
    var defaults := DefaultTypes(input.taskType);
    FilterDistinct(defaults, wanted);
    forall t
      ensures t in Filter(defaults, wanted) <==> t in defaults && wanted(t)
    {
      InFilter(defaults, wanted, t);
    }
  }

  lemma {:induction false} FilterDistinct<T>(s: seq<T>, keep: T -> bool)
    requires Distinct(s)
    ensures Distinct(Filter(s, keep))
  {
    if s != [] {
      assert forall i, j :: 0 <= i < j < |s[1..]| ==> s[1..][i] != s[1..][j];
      FilterDistinct(s[1..], keep);
      InFilter(s[1..], keep, s[0]);
    }
  }

  // ---- which units a run has -------------------------------------------------

  /** The data types that a task type is there to sync. */
  predicate Syncs(task: OpsTaskType, dataType: TradeDataType) {
    if dataType == FUND then task == BEFORE_SYNC_FUND_ACCOUNT || task == AFTER_SYNC_FUND_ACCOUNT
    else task == AFTER_SYNC_TRADE_DATA
  }

  /** The input wants a data type: its task type syncs it, and no other types were requested. */
  predicate WantsType(input: RunInput, dataType: TradeDataType) {
    Syncs(input.taskType, dataType) && (input.dataTypes == [] || dataType in input.dataTypes)
  }

  /** The market is at a place of the account's configurations; those of ATP count for an account without XTP. */
  predicate ConfiguredAt(a: Account, x: int, market: Market) {
    || (0 <= x < |a.xtpMarkets| && a.xtpMarkets[x] == market)
    || (a.xtpMarkets == [] && 0 <= x < |a.atpMarkets| && a.atpMarkets[x] == market)
  }

  /** The input asks for a market and a data type of an account. */
  ghost predicate Asked(input: RunInput, a: Account, market: Market, dataType: TradeDataType) {
    && (input.fundAccounts == [] || a.account in input.fundAccounts)
    && (market in a.xtpMarkets || (a.xtpMarkets == [] && market in a.atpMarkets))
    && (input.markets == [] || market in input.markets)
    && WantsType(input, dataType)
  }

  /** What the unit of an account for a market and a data type looks like. */
  predicate IsUnit(u: UnitSpec, input: RunInput, a: Account, market: Market, dataType: TradeDataType) {
    && u.key.tradeDay == input.tradeDay && u.key.taskType == input.taskType && u.key.fundAccount == a.account
    && u.key.market == market && u.key.dataType == dataType && u.keys == a.keys
  }

  predicate TypeEarlier(a: TradeDataType, b: TradeDataType) {
    (a == POSITION && (b == ORDER || b == TRADE)) || (a == ORDER && b == TRADE)
  }

  /** By account, then by configuration, then position, order, trade. */
  ghost predicate ComesFirst(u: UnitSpec, v: UnitSpec, accounts: seq<Account>) {
    exists i, j :: 0 <= i <= j < |accounts| && OfBoth(u, v, accounts[i], accounts[j])
                   && (i == j ==> InOrder(u, v, accounts[i]))
  }

  predicate OfBoth(u: UnitSpec, v: UnitSpec, a: Account, b: Account) {
    u.key.fundAccount == a.account && v.key.fundAccount == b.account
  }

  ghost predicate InOrder(u: UnitSpec, v: UnitSpec, a: Account) {
    exists x, y :: x <= y && ConfiguredAt(a, x, u.key.market) && ConfiguredAt(a, y, v.key.market)
                   && (x == y ==> TypeEarlier(u.key.dataType, v.key.dataType))
  }

  /** Exactly the units that the input asks for, in order. */
  ghost predicate ExactUnits(units: seq<UnitSpec>, input: RunInput, accounts: seq<Account>) {
    && (forall i, market, dataType :: 0 <= i < |accounts| && Asked(input, accounts[i], market, dataType) ==>
          exists u :: u in units && IsUnit(u, input, accounts[i], market, dataType))
    && (forall u :: u in units ==> UnitOfSome(u, input, accounts))
    && (forall p, q :: 0 <= p < q < |units| ==> ComesFirst(units[p], units[q], accounts))
  }

  ghost predicate UnitOfSome(u: UnitSpec, input: RunInput, accounts: seq<Account>) {
    exists i :: 0 <= i < |accounts| && IsUnit(u, input, accounts[i], u.key.market, u.key.dataType)
                && Asked(input, accounts[i], u.key.market, u.key.dataType)
  }

  ghost predicate TypesInOrder(types: seq<TradeDataType>) {
    forall p, q :: 0 <= p < q < |types| ==> TypeEarlier(types[p], types[q])
  }

  /** The types come out as the task type and the request say, in their order; none at all is refused. */
  lemma TypesExactly(input: RunInput)
    ensures ResolveDataTypes(input).Ok? <==>
            input.dataTypes == [] || exists t :: t in input.dataTypes && Syncs(input.taskType, t)
    ensures ResolveDataTypes(input).Ok? ==>
              var types := ResolveDataTypes(input).value;
              TypesInOrder(types) && forall t :: t in types <==> WantsType(input, t)
  {
    var wanted := (t: TradeDataType) => t in input.dataTypes;
    var defaults, kept := DefaultTypes(input.taskType), Filter(DefaultTypes(input.taskType), wanted);
    DefaultsAreSynced(input.taskType);
    forall t
      ensures t in kept <==> Syncs(input.taskType, t) && t in input.dataTypes
    {
      InFilter(defaults, wanted, t);
    }
    FirstIsMember(kept);
    FilterInOrder(defaults, wanted);
    hide TypesInOrder, DefaultTypes, Filter;
    assert input.dataTypes != [] && kept != [] ==> ResolveDataTypes(input).value == kept;
  }

  lemma DefaultsAreSynced(task: OpsTaskType)
    ensures TypesInOrder(DefaultTypes(task)) && forall t :: t in DefaultTypes(task) <==> Syncs(task, t)
  {
  }

  lemma {:induction false} FilterInOrder(types: seq<TradeDataType>, keep: TradeDataType -> bool)
    requires TypesInOrder(types)
    ensures TypesInOrder(Filter(types, keep))
  {
    if types != [] {
      var rest := types[1..];
      assert forall p, q :: 0 <= p < q < |rest| ==> rest[p] == types[p + 1] && rest[q] == types[q + 1];
      FilterInOrder(rest, keep);
      forall p | 0 <= p < |Filter(rest, keep)|
        ensures TypeEarlier(types[0], Filter(rest, keep)[p])
      {
        InFilter(rest, keep, Filter(rest, keep)[p]);
        var q :| 0 <= q < |rest| && rest[q] == Filter(rest, keep)[p];
        assert rest[q] == types[q + 1];
      }
    }
  }

  lemma {:induction false} TypeUnitAt(input: RunInput, a: Account, market: Market, types: seq<TradeDataType>)
    ensures |TypeUnits(input, a, market, types)| == |types|
    ensures forall p :: 0 <= p < |types| ==> IsUnit(TypeUnits(input, a, market, types)[p], input, a, market, types[p])
  {
    if types != [] {
      TypeUnitAt(input, a, market, types[..|types| - 1]);
    }
  }

  /** What the loop over an account's first markets has by then. */
  ghost predicate ExactMarkets(units: seq<UnitSpec>, input: RunInput, a: Account, types: seq<TradeDataType>, n: nat) {
    && (forall x, market, t :: x < n && ConfiguredAt(a, x, market) && (input.markets == [] || market in input.markets)
                               && t in types ==>
          exists u :: u in units && IsUnit(u, input, a, market, t))
    && (forall u :: u in units ==> MarketUnit(u, input, a, types, n))
    && (forall p, q :: 0 <= p < q < |units| ==> InOrder(units[p], units[q], a))
  }

  ghost predicate MarketUnit(u: UnitSpec, input: RunInput, a: Account, types: seq<TradeDataType>, n: nat) {
    && IsUnit(u, input, a, u.key.market, u.key.dataType) && u.key.dataType in types
    && (input.markets == [] || u.key.market in input.markets)
    && exists x :: x < n && ConfiguredAt(a, x, u.key.market)
  }

  lemma NoMarkets(input: RunInput, a: Account, types: seq<TradeDataType>)
    ensures ExactMarkets(MarketUnits(input, a, [], types), input, a, types, 0)
  {
  }

  lemma {:induction false} MarketsExactly(input: RunInput, a: Account, n: nat, types: seq<TradeDataType>)
    requires n <= |Markets(a)| && TypesInOrder(types)
    ensures ExactMarkets(MarketUnits(input, a, Markets(a)[..n], types), input, a, types, n)
  {
    hide ExactMarkets, IsUnit, TypeEarlier;
    if n == 0 {
      NoMarkets(input, a, types);
    } else {
      var m := n - 1;
      var market := Markets(a)[m];
      assert Markets(a)[..n][..m] == Markets(a)[..m];
      MarketsExactly(input, a, m, types);
      TypeUnitAt(input, a, market, types);
      assert ConfiguredAt(a, m, market) && forall other :: ConfiguredAt(a, m, other) ==> other == market;
      if input.markets == [] || market in input.markets {
        OneMoreMarket(MarketUnits(input, a, Markets(a)[..m], types), TypeUnits(input, a, market, types), input, a,
                      types, m, market);
      } else {
        var units := MarketUnits(input, a, Markets(a)[..m], types);
        NoMoreMarket(units, input, a, types, m, market);
        assert MarketUnits(input, a, Markets(a)[..n], types) == units + [] == units;
      }
    }
  }

  lemma NoMoreMarket(units: seq<UnitSpec>, input: RunInput, a: Account, types: seq<TradeDataType>, m: nat,
                     market: Market)
    requires ExactMarkets(units, input, a, types, m) && input.markets != [] && market !in input.markets
    requires forall other :: ConfiguredAt(a, m, other) ==> other == market
    ensures ExactMarkets(units, input, a, types, m + 1)
  {
    hide ConfiguredAt, IsUnit, InOrder;
    forall u | u in units
      ensures MarketUnit(u, input, a, types, m + 1)
    {
      assert MarketUnit(u, input, a, types, m);
    }
  }

  lemma OneMoreMarket(units: seq<UnitSpec>, more: seq<UnitSpec>, input: RunInput, a: Account,
                      types: seq<TradeDataType>, m: nat, market: Market)
    requires ExactMarkets(units, input, a, types, m) && (input.markets == [] || market in input.markets)
    requires ConfiguredAt(a, m, market) && forall other :: ConfiguredAt(a, m, other) ==> other == market
    requires |more| == |types| && forall p :: 0 <= p < |types| ==> IsUnit(more[p], input, a, market, types[p])
    requires TypesInOrder(types)
    ensures ExactMarkets(units + more, input, a, types, m + 1)
  {
    hide ConfiguredAt;
    forall x, other, t | x < m + 1 && ConfiguredAt(a, x, other) && (input.markets == [] || other in input.markets)
                         && t in types
      ensures exists u :: u in units + more && IsUnit(u, input, a, other, t)
    {
      if x < m {
        var u :| u in units && IsUnit(u, input, a, other, t);
        assert u in units + more;
      } else {
        var p :| 0 <= p < |types| && types[p] == t;
        assert more[p] in units + more;
      }
    }
    forall u | u in units + more
      ensures MarketUnit(u, input, a, types, m + 1)
    {
      if u in units {
        assert MarketUnit(u, input, a, types, m);
      } else {
        var p :| 0 <= p < |more| && more[p] == u;
        assert types[p] in types;
      }
    }
    var all := units + more;
    forall p, q | 0 <= p < q < |all|
      ensures InOrder(all[p], all[q], a)
    {
      if q < |units| {
        assert all[p] == units[p] && all[q] == units[q];
      } else {
        assert all[q] == more[q - |units|] && all[q].key.market == market;
        if p < |units| {
          assert all[p] == units[p] && MarketUnit(units[p], input, a, types, m);
        } else {
          assert all[p] == more[p - |units|] && TypeEarlier(types[p - |units|], types[q - |units|]);
        }
      }
    }
  }

  /** What an account contributes. */
  ghost predicate AccountUnits(units: seq<UnitSpec>, input: RunInput, a: Account) {
    && (forall market, t :: Asked(input, a, market, t) ==> exists u :: u in units && IsUnit(u, input, a, market, t))
    && (forall u :: u in units ==>
          IsUnit(u, input, a, u.key.market, u.key.dataType) && Asked(input, a, u.key.market, u.key.dataType))
    && (forall p, q :: 0 <= p < q < |units| ==> InOrder(units[p], units[q], a))
  }

  lemma Configured(a: Account, market: Market)
    ensures (market in a.xtpMarkets || (a.xtpMarkets == [] && market in a.atpMarkets))
            <==> exists x :: x < |Markets(a)| && ConfiguredAt(a, x, market)
  {
    if market in Markets(a) {
      var x :| 0 <= x < |Markets(a)| && Markets(a)[x] == market;
      assert ConfiguredAt(a, x, market);
    }
  }

  lemma AskedHasUnit(units: seq<UnitSpec>, input: RunInput, a: Account, types: seq<TradeDataType>, market: Market,
                     t: TradeDataType)
    requires ExactMarkets(units, input, a, types, |Markets(a)|) && Asked(input, a, market, t) && t in types
    ensures exists u :: u in units && IsUnit(u, input, a, market, t)
  {
    hide IsUnit, InOrder, Markets, ConfiguredAt, WantsType, MarketUnit;
    Configured(a, market);
    var x :| x < |Markets(a)| && ConfiguredAt(a, x, market);
  }

  lemma UnitWasAsked(units: seq<UnitSpec>, input: RunInput, a: Account, types: seq<TradeDataType>, u: UnitSpec)
    requires ExactMarkets(units, input, a, types, |Markets(a)|) && u in units
    requires input.fundAccounts == [] || a.account in input.fundAccounts
    requires forall t :: t in types ==> WantsType(input, t)
    ensures IsUnit(u, input, a, u.key.market, u.key.dataType) && Asked(input, a, u.key.market, u.key.dataType)
  {
    hide IsUnit, InOrder, Markets, ConfiguredAt, WantsType;
    assert MarketUnit(u, input, a, types, |Markets(a)|);
    Configured(a, u.key.market);
  }

  lemma ExactAccount(units: seq<UnitSpec>, input: RunInput, a: Account, types: seq<TradeDataType>)
    requires ExactMarkets(units, input, a, types, |Markets(a)|)
    requires input.fundAccounts == [] || a.account in input.fundAccounts
    requires forall t :: t in types <==> WantsType(input, t)
    ensures AccountUnits(units, input, a)
  {
    hide IsUnit, InOrder, WantsType, Markets, ConfiguredAt, Asked, MarketUnit;
    forall market, t | Asked(input, a, market, t)
      ensures exists u :: u in units && IsUnit(u, input, a, market, t)
    {
      AskedWants(input, a, market, t);
      AskedHasUnit(units, input, a, types, market, t);
    }
    forall u | u in units
      ensures IsUnit(u, input, a, u.key.market, u.key.dataType) && Asked(input, a, u.key.market, u.key.dataType)
    {
      UnitWasAsked(units, input, a, types, u);
    }
  }

  lemma AccountExactly(input: RunInput, a: Account, types: seq<TradeDataType>)
    requires ResolveDataTypes(input) == Ok(types) && (input.fundAccounts == [] || a.account in input.fundAccounts)
    ensures AccountUnits(MarketUnits(input, a, Markets(a), types), input, a)
  {
    hide ExactMarkets, AccountUnits, MarketUnits, ResolveDataTypes, WantsType, Markets, TypesInOrder;
    TypesExactly(input);
    MarketsExactly(input, a, |Markets(a)|, types);
    assert Markets(a)[..|Markets(a)|] == Markets(a);
    ExactAccount(MarketUnits(input, a, Markets(a), types), input, a, types);
  }

  lemma AskedWants(input: RunInput, a: Account, market: Market, t: TradeDataType)
    requires Asked(input, a, market, t)
    ensures WantsType(input, t)
  {
  }

  /** Loading gives exactly the units that the input asks for. */
  lemma {:induction false} UnitsExactly(input: RunInput, accounts: seq<Account>, types: seq<TradeDataType>)
    requires ResolveDataTypes(input) == Ok(types)
    ensures ExactUnits(Units(input, accounts, types), input, accounts)
  {
    hide ResolveDataTypes, Markets, MarketUnits, AccountUnits, ExactUnits;
    if accounts == [] {
      NoUnits(input);
    } else {
      var rest, a := accounts[..|accounts| - 1], accounts[|accounts| - 1];
      UnitsExactly(input, rest, types);
      if input.fundAccounts == [] || a.account in input.fundAccounts {
        AccountExactly(input, a, types);
        OneMoreAccount(Units(input, rest, types), MarketUnits(input, a, Markets(a), types), input, accounts);
      } else {
        NoMoreAccount(Units(input, rest, types), input, accounts);
        assert Units(input, accounts, types) == Units(input, rest, types) + [] == Units(input, rest, types);
      }
    }
  }

  lemma NoUnits(input: RunInput)
    ensures ExactUnits([], input, [])
  {
  }

  lemma FirstUnits(units: seq<UnitSpec>, input: RunInput, accounts: seq<Account>)
    requires accounts != [] && ExactUnits(units, input, accounts[..|accounts| - 1])
    ensures forall u :: u in units ==> UnitOfSome(u, input, accounts)
    ensures forall p, q :: 0 <= p < q < |units| ==> ComesFirst(units[p], units[q], accounts)
  {
    hide ComesFirst, UnitOfSome;
    forall u | u in units
      ensures UnitOfSome(u, input, accounts)
    {
      StillOfSome(u, input, accounts);
    }
    forall p, q | 0 <= p < q < |units|
      ensures ComesFirst(units[p], units[q], accounts)
    {
      StillFirst(units[p], units[q], accounts);
    }
  }

  lemma StillOfSome(u: UnitSpec, input: RunInput, accounts: seq<Account>)
    requires accounts != [] && UnitOfSome(u, input, accounts[..|accounts| - 1])
    ensures UnitOfSome(u, input, accounts)
  {
    hide IsUnit, Asked;
    var rest := accounts[..|accounts| - 1];
    var i :| 0 <= i < |rest| && IsUnit(u, input, rest[i], u.key.market, u.key.dataType)
             && Asked(input, rest[i], u.key.market, u.key.dataType);
    assert accounts[i] == rest[i];
  }

  lemma StillFirst(u: UnitSpec, v: UnitSpec, accounts: seq<Account>)
    requires accounts != [] && ComesFirst(u, v, accounts[..|accounts| - 1])
    ensures ComesFirst(u, v, accounts)
  {
    hide OfBoth, InOrder;
    var rest := accounts[..|accounts| - 1];
    var i, j :| 0 <= i <= j < |rest| && OfBoth(u, v, rest[i], rest[j]) && (i == j ==> InOrder(u, v, rest[i]));
    assert accounts[i] == rest[i] && accounts[j] == rest[j];
  }

  lemma NoMoreAccount(units: seq<UnitSpec>, input: RunInput, accounts: seq<Account>)
    requires accounts != [] && ExactUnits(units, input, accounts[..|accounts| - 1])
    requires input.fundAccounts != [] && accounts[|accounts| - 1].account !in input.fundAccounts
    ensures ExactUnits(units, input, accounts)
  {
    FirstUnits(units, input, accounts);
    hide IsUnit, ComesFirst, UnitOfSome;
    var rest := accounts[..|accounts| - 1];
    forall i, market, t | 0 <= i < |accounts| && Asked(input, accounts[i], market, t)
      ensures exists u :: u in units && IsUnit(u, input, accounts[i], market, t)
    {
      assert i < |rest| && accounts[i] == rest[i];
    }
  }

  lemma OneMoreAccount(units: seq<UnitSpec>, more: seq<UnitSpec>, input: RunInput, accounts: seq<Account>)
    requires accounts != [] && ExactUnits(units, input, accounts[..|accounts| - 1])
    requires AccountUnits(more, input, accounts[|accounts| - 1])
    ensures ExactUnits(units + more, input, accounts)
  {
    FirstUnits(units, input, accounts);
    hide InOrder, Asked, ComesFirst;
    var rest, all, n := accounts[..|accounts| - 1], units + more, |accounts| - 1;
    forall i, market, t | 0 <= i < |accounts| && Asked(input, accounts[i], market, t)
      ensures exists u :: u in all && IsUnit(u, input, accounts[i], market, t)
    {
      if i < n {
        assert accounts[i] == rest[i];
        var u :| u in units && IsUnit(u, input, rest[i], market, t);
        assert u in all;
      } else {
        var u :| u in more && IsUnit(u, input, accounts[n], market, t);
        assert u in all;
      }
    }
    forall u | u in all
      ensures UnitOfSome(u, input, accounts)
    {
      assert u in units || u in more;
    }
    forall p, q | 0 <= p < q < |all|
      ensures ComesFirst(all[p], all[q], accounts)
    {
      if q < |units| {
        assert all[p] == units[p] && all[q] == units[q];
      } else if p < |units| {
        LaterAccount(units[p], more[q - |units|], input, accounts);
      } else {
        SameAccount(more[p - |units|], more[q - |units|], input, accounts);
      }
    }
  }

  lemma LaterAccount(u: UnitSpec, v: UnitSpec, input: RunInput, accounts: seq<Account>)
    requires accounts != [] && UnitOfSome(u, input, accounts[..|accounts| - 1])
    requires IsUnit(v, input, accounts[|accounts| - 1], v.key.market, v.key.dataType)
    ensures ComesFirst(u, v, accounts)
  {
    var rest := accounts[..|accounts| - 1];
    var i :| 0 <= i < |rest| && IsUnit(u, input, rest[i], u.key.market, u.key.dataType);
    assert OfBoth(u, v, accounts[i], accounts[|accounts| - 1]);
  }

  lemma SameAccount(u: UnitSpec, v: UnitSpec, input: RunInput, accounts: seq<Account>)
    requires accounts != [] && InOrder(u, v, accounts[|accounts| - 1])
    requires IsUnit(u, input, accounts[|accounts| - 1], u.key.market, u.key.dataType)
    requires IsUnit(v, input, accounts[|accounts| - 1], v.key.market, v.key.dataType)
    ensures ComesFirst(u, v, accounts)
  {
    hide InOrder;
    assert OfBoth(u, v, accounts[|accounts| - 1], accounts[|accounts| - 1]);
  }

  // ---- which rows a forced run resets ------------------------------------------

  /** The row is one that the input names, by its filters and its task type. */
  predicate Named(input: RunInput, k: StepKey) {
    && k.tradeDay == input.tradeDay && k.taskType == input.taskType && WantsType(input, k.dataType)
    && (input.fundAccounts == [] || k.fundAccount in input.fundAccounts)
    && (input.markets == [] || k.market in input.markets)
  }

  /** The reset of a forced run names exactly those rows. */
  lemma ResetNames(input: RunInput, types: seq<TradeDataType>, k: StepKey)
    requires ResolveDataTypes(input) == Ok(types)
    ensures MatchesFilter(k, FilterOf(input, types)) <==> Named(input, k)
  {
    hide ResolveDataTypes;
    TypesExactly(input);
  }

  // ---- the order of writing --------------------------------------------------

  /** The position in the write order; fund units are not in it. */
  function Rank(dataType: TradeDataType): int {
    match dataType
    case FUND => -1
    case POSITION => 0
    case ORDER => 1
    case TRADE => 2
  }

  function TypeRank(k: StepKey): int {
    Rank(k.dataType)
  }

  function OfRank<T>(items: seq<T>, rank: T -> int, r: int): seq<T> {
    Filter(items, (x: T) => rank(x) == r)
  }

  /** The stable sort by a rank from -1 to 2. */
  function SortByRank<T>(items: seq<T>, rank: T -> int): seq<T> {
    OfRank(items, rank, -1) + OfRank(items, rank, 0) + OfRank(items, rank, 1) + OfRank(items, rank, 2)
  }

  /** The stable sort by position in the write order. */
  function SortByType(keys: seq<StepKey>): seq<StepKey> {
    SortByRank(keys, TypeRank)
  }

  lemma OfRankMembers<T>(items: seq<T>, rank: T -> int, r: int, x: T)
    ensures x in OfRank(items, rank, r) <==> x in items && rank(x) == r
  {
    InFilter(items, (y: T) => rank(y) == r, x);
  }

  lemma {:induction false} OfRankOfRank<T>(items: seq<T>, rank: T -> int, r: int, other: int)
    ensures OfRank(OfRank(items, rank, r), rank, other) == if r == other then OfRank(items, rank, r) else []
  {
    if items != [] {
      OfRankOfRank(items[1..], rank, r, other);
      if rank(items[0]) == r {
        assert ([items[0]] + OfRank(items[1..], rank, r))[1..] == OfRank(items[1..], rank, r);
      }
    }
  }

  lemma RankOfFirst<T>(items: seq<T>, rank: T -> int, r: int)
    requires items != []
    ensures multiset(OfRank(items, rank, r)) ==
            multiset(OfRank(items[1..], rank, r)) + if rank(items[0]) == r then multiset{items[0]} else multiset{}
  {
  }

  lemma NoRanks<T>(rank: T -> int, r: int)
    ensures OfRank([], rank, r) == []
  {
  }

  lemma OfRankConcat<T>(a: seq<T>, b: seq<T>, rank: T -> int, r: int)
    ensures OfRank(a + b, rank, r) == OfRank(a, rank, r) + OfRank(b, rank, r)
  {
    FilterAppend(a, b, (x: T) => rank(x) == r);
  }

  lemma {:induction false} RanksCover<T>(items: seq<T>, rank: T -> int)
    requires forall x :: x in items ==> -1 <= rank(x) <= 2
    ensures multiset(OfRank(items, rank, -1)) + multiset(OfRank(items, rank, 0)) + multiset(OfRank(items, rank, 1))
            + multiset(OfRank(items, rank, 2)) == multiset(items)
  {
    hide OfRank;
    if items == [] {
      NoRanks(rank, -1);
      NoRanks(rank, 0);
      NoRanks(rank, 1);
      NoRanks(rank, 2);
    } else {
      RanksCover(items[1..], rank);
      assert items == [items[0]] + items[1..] && items[0] in items;
      RankOfFirst(items, rank, -1);
      RankOfFirst(items, rank, 0);
      RankOfFirst(items, rank, 1);
      RankOfFirst(items, rank, 2);
    }
  }

  lemma {:induction false} NoOtherRank<T>(items: seq<T>, rank: T -> int, r: int)
    requires (forall x :: x in items ==> -1 <= rank(x) <= 2) && (r < -1 || 2 < r)
    ensures OfRank(items, rank, r) == []
  {
    if items != [] {
      assert items[0] in items;
      NoOtherRank(items[1..], rank, r);
    }
  }

  /** The rank found at a position of the sorted sequence. */
  lemma RankAt<T>(items: seq<T>, rank: T -> int, i: nat)
    requires i < |SortByRank(items, rank)|
    ensures var n0, n1, n2 := |OfRank(items, rank, -1)|, |OfRank(items, rank, 0)|, |OfRank(items, rank, 1)|;
            rank(SortByRank(items, rank)[i]) ==
            if i < n0 then -1 else if i < n0 + n1 then 0 else if i < n0 + n1 + n2 then 1 else 2
  {
    var r0, r1 := OfRank(items, rank, -1), OfRank(items, rank, 0);
    var r2, r3 := OfRank(items, rank, 1), OfRank(items, rank, 2);
    var x := SortByRank(items, rank)[i];
    if i < |r0| {
      assert x == r0[i];
    } else if i < |r0| + |r1| {
      assert x == r1[i - |r0|];
    } else if i < |r0| + |r1| + |r2| {
      assert x == r2[i - |r0| - |r1|];
    } else {
      assert x == r3[i - |r0| - |r1| - |r2|];
    }
    OfRankMembers(items, rank, -1, x);
    OfRankMembers(items, rank, 0, x);
    OfRankMembers(items, rank, 1, x);
    OfRankMembers(items, rank, 2, x);
  }

  lemma SortKeepsRank<T>(items: seq<T>, rank: T -> int, r: int)
    requires forall x :: x in items ==> -1 <= rank(x) <= 2
    ensures OfRank(SortByRank(items, rank), rank, r) == OfRank(items, rank, r)
  {
    hide OfRank;
    var r0, r1 := OfRank(items, rank, -1), OfRank(items, rank, 0);
    var r2, r3 := OfRank(items, rank, 1), OfRank(items, rank, 2);
    OfRankConcat(r0 + r1 + r2, r3, rank, r);
    OfRankConcat(r0 + r1, r2, rank, r);
    OfRankConcat(r0, r1, rank, r);
    OfRankOfRank(items, rank, -1, r);
    OfRankOfRank(items, rank, 0, r);
    OfRankOfRank(items, rank, 1, r);
    OfRankOfRank(items, rank, 2, r);
    if r < -1 || 2 < r {
      NoOtherRank(items, rank, r);
    }
  }

  /** It is a sort, a permutation, and it keeps the order of units of one data type. */
  lemma SortByTypeIsStableSort(keys: seq<StepKey>, r: int)
    ensures multiset(SortByType(keys)) == multiset(keys)
    ensures forall i, j :: 0 <= i < j < |SortByType(keys)| ==>
              TypeRank(SortByType(keys)[i]) <= TypeRank(SortByType(keys)[j])
    ensures OfRank(SortByType(keys), TypeRank, r) == OfRank(keys, TypeRank, r)
  {
    RanksCover(keys, TypeRank);
    forall i, j | 0 <= i < j < |SortByType(keys)|
      ensures TypeRank(SortByType(keys)[i]) <= TypeRank(SortByType(keys)[j])
    {
      RankAt(keys, TypeRank, i);
      RankAt(keys, TypeRank, j);
    }
    SortKeepsRank(keys, TypeRank, r);
  }

  /** Funds, which never meet the others, then positions, orders and trades. */
  predicate NotLater(a: TradeDataType, b: TradeDataType) {
    a == b || a == FUND || (a == POSITION && b != FUND) || (a == ORDER && b == TRADE)
  }

  lemma OfRankIsFilter<T>(items: seq<T>, rank: T -> int, r: int, test: T -> bool)
    requires forall x :: test(x) <==> rank(x) == r
    ensures OfRank(items, rank, r) == Filter(items, test)
  {
    FilterSame(items, (x: T) => rank(x) == r, test);
  }

  /** The sort puts every position before every order and every order before every trade, and keeps the rest. */
  lemma WriteOrder(keys: seq<StepKey>, dataType: TradeDataType)
    ensures forall p, q :: 0 <= p < q < |SortByType(keys)| ==>
              NotLater(SortByType(keys)[p].dataType, SortByType(keys)[q].dataType)
    ensures Filter(SortByType(keys), (k: StepKey) => k.dataType == dataType)
            == Filter(keys, (k: StepKey) => k.dataType == dataType)
    ensures multiset(SortByType(keys)) == multiset(keys)
  {
    hide SortByType, OfRank;
    SortByTypeIsStableSort(keys, Rank(dataType));
    var typed := (k: StepKey) => k.dataType == dataType;
    OfRankIsFilter(keys, TypeRank, Rank(dataType), typed);
    OfRankIsFilter(SortByType(keys), TypeRank, Rank(dataType), typed);
  }

  // ---- figures ---------------------------------------------------------------

  datatype RunSummary = RunSummary(
    pullSuccess: nat, pullFailed: nat, writeSuccess: nat, writeFailed: nat,
    failedAccounts: seq<string>, positionFailedAccounts: seq<string>)

  predicate PullOk(step: SyncStep) { step.pullStatus == SUCCESS }

  predicate WriteOk(step: SyncStep) { step.writeStatus == SUCCESS }

  predicate FullyOk(step: SyncStep) { PullOk(step) && WriteOk(step) }

  /** How many of the units' rows pass a test. */
  function Count(keys: seq<StepKey>, steps: map<StepKey, SyncStep>, test: SyncStep -> bool): nat
    requires forall k :: k in keys ==> k in steps
  {
    if keys == [] then 0
    else
      Count(keys[..|keys| - 1], steps, test) + if test(steps[keys[|keys| - 1]]) then 1 else 0
  }

  /** The count is the number of places whose row passes. */
  lemma {:induction false} CountExact(keys: seq<StepKey>, steps: map<StepKey, SyncStep>, test: SyncStep -> bool)
    requires forall k :: k in keys ==> k in steps
    ensures Count(keys, steps, test) == |set i | 0 <= i < |keys| && test(steps[keys[i]])|
  {
    if keys != [] {
      var n := |keys| - 1;
      CountExact(keys[..n], steps, test);
      var before := set i | 0 <= i < n && test(steps[keys[..n][i]]);
      var now := set i | 0 <= i < |keys| && test(steps[keys[i]]);
      assert now == before + if test(steps[keys[n]]) then {n} else {};
    }
  }

  /** Adding to a JavaScript Set keeps the order of first insertion. */
  function AddOnce(accounts: seq<string>, account: string): seq<string> {
    if account in accounts then accounts else accounts + [account]
  }

  lemma {:induction false} CountComplement(
      keys: seq<StepKey>, steps: map<StepKey, SyncStep>, test: SyncStep -> bool, opposite: SyncStep -> bool)
    requires forall k :: k in keys ==> k in steps
    requires forall step :: test(step) <==> !opposite(step)
    ensures Count(keys, steps, test) + Count(keys, steps, opposite) == |keys|
  {
    if keys != [] { CountComplement(keys[..|keys| - 1], steps, test, opposite); }
  }

  lemma {:induction false} CountSame(
      keys: seq<StepKey>, steps: map<StepKey, SyncStep>, test: SyncStep -> bool, other: SyncStep -> bool)
    requires forall k :: k in keys ==> k in steps && (test(steps[k]) <==> other(steps[k]))
    ensures Count(keys, steps, test) == Count(keys, steps, other)
  {
    if keys != [] { CountSame(keys[..|keys| - 1], steps, test, other); }
  }

  /** The figures say of the final rows what their names promise. */
  ghost predicate SummaryOf(r: RunSummary, keys: seq<StepKey>, steps: map<StepKey, SyncStep>)
    requires forall k :: k in keys ==> k in steps
  {
    && r.pullSuccess == Count(keys, steps, (s: SyncStep) => s.pullStatus == SUCCESS)
    && r.pullFailed == Count(keys, steps, (s: SyncStep) => s.pullStatus != SUCCESS)
    && r.writeSuccess == Count(keys, steps, (s: SyncStep) => s.writeStatus == SUCCESS)
    && r.writeFailed == Count(keys, steps, (s: SyncStep) => s.pullStatus == SUCCESS && s.writeStatus != SUCCESS)
    && AccountsOf(r.failedAccounts, keys, steps, (k: StepKey) => true)
    && AccountsOf(r.positionFailedAccounts, keys, steps, (k: StepKey) => k.dataType == POSITION)
  }

  /** One unit is added to the figures. */
  function CountUnit(r: RunSummary, k: StepKey, step: SyncStep): RunSummary {
    var pulled := if PullOk(step) then r.(pullSuccess := r.pullSuccess + 1) else r.(pullFailed := r.pullFailed + 1);
    var written :=
      if WriteOk(step) then pulled.(writeSuccess := r.writeSuccess + 1)
      else if PullOk(step) then pulled.(writeFailed := r.writeFailed + 1)
      else pulled;
    if FullyOk(step) then written
    else
      var failed := written.(failedAccounts := AddOnce(r.failedAccounts, k.fundAccount));
      if k.dataType == POSITION
      then failed.(positionFailedAccounts := AddOnce(r.positionFailedAccounts, k.fundAccount))
      else failed
  }

  /** An account list is exact for the failed units that pass a filter on data types. */
  ghost predicate AccountsOf(accounts: seq<string>, keys: seq<StepKey>, steps: map<StepKey, SyncStep>,
                             counts: StepKey -> bool)
    requires forall k :: k in keys ==> k in steps
  {
    && Distinct(accounts)
    && forall a :: a in accounts <==>
                     exists k :: k in keys && k.fundAccount == a && counts(k)
                                 && (steps[k].pullStatus != SUCCESS || steps[k].writeStatus != SUCCESS)
  }

  lemma AccountsStep(accounts: seq<string>, keys: seq<StepKey>, steps: map<StepKey, SyncStep>,
                     counts: StepKey -> bool, k: StepKey)
    requires (forall key :: key in keys ==> key in steps) && k in steps && AccountsOf(accounts, keys, steps, counts)
    ensures AccountsOf(if counts(k) && !FullyOk(steps[k]) then AddOnce(accounts, k.fundAccount) else accounts,
                       keys + [k], steps, counts)
  {
    var more := keys + [k];
    assert forall key :: key in more <==> key in keys || key == k;
    assert k in more;
  }

  lemma CountStep(keys: seq<StepKey>, steps: map<StepKey, SyncStep>, test: SyncStep -> bool, k: StepKey)
    requires (forall key :: key in keys ==> key in steps) && k in steps
    ensures Count(keys + [k], steps, test) == Count(keys, steps, test) + if test(steps[k]) then 1 else 0
  {
    var more := keys + [k];
    assert more[..|more| - 1] == keys;
  }

  lemma SummaryStep(r: RunSummary, keys: seq<StepKey>, steps: map<StepKey, SyncStep>, k: StepKey)
    requires (forall key :: key in keys ==> key in steps) && k in steps && SummaryOf(r, keys, steps)
    ensures SummaryOf(CountUnit(r, k, steps[k]), keys + [k], steps)
  {
    hide AccountsOf, Count;
    CountStep(keys, steps, (s: SyncStep) => s.pullStatus == SUCCESS, k);
    CountStep(keys, steps, (s: SyncStep) => s.pullStatus != SUCCESS, k);
    CountStep(keys, steps, (s: SyncStep) => s.writeStatus == SUCCESS, k);
    CountStep(keys, steps, (s: SyncStep) => s.pullStatus == SUCCESS && s.writeStatus != SUCCESS, k);
    AccountsStep(r.failedAccounts, keys, steps, (key: StepKey) => true, k);
    AccountsStep(r.positionFailedAccounts, keys, steps, (key: StepKey) => key.dataType == POSITION, k);
  }

  function TypeName(dataType: TradeDataType): string {
    match dataType
    case FUND => "FUND"
    case POSITION => "POSITION"
    case ORDER => "ORDER"
    case TRADE => "TRADE"
  }

  function OrEmpty(text: Option<string>): string {
    if text.Some? then text.value else ""
  }

  /** The warning a unit that is not fully successful leaves. */
  function WarningFor(k: StepKey, step: SyncStep, opsTaskId: int): Warning {
    Warning(k.tradeDay, opsTaskId, k.fundAccount,
            k.fundAccount + " " + MarketName(k.market) + " " + TypeName(k.dataType)
            + " pullError=" + OrEmpty(step.pullError) + " writeError=" + OrEmpty(step.writeError))
  }

  function WarningsFor(keys: seq<StepKey>, steps: map<StepKey, SyncStep>, opsTaskId: int): seq<Warning>
    requires forall k :: k in keys ==> k in steps
  {
    if keys == [] then []
    else
      var k := keys[|keys| - 1];
      WarningsFor(keys[..|keys| - 1], steps, opsTaskId)
      + if FullyOk(steps[k]) then [] else [WarningFor(k, steps[k], opsTaskId)]
  }

  lemma WarningsStep(keys: seq<StepKey>, steps: map<StepKey, SyncStep>, opsTaskId: int, k: StepKey)
    requires (forall key :: key in keys ==> key in steps) && k in steps
    ensures multiset(WarningsFor(keys + [k], steps, opsTaskId)) ==
            multiset(WarningsFor(keys, steps, opsTaskId))
            + if FullyOk(steps[k]) then multiset{} else multiset{WarningFor(k, steps[k], opsTaskId)}
  {
    var more := keys + [k];
    assert more[..|more| - 1] == keys;
  }

  lemma NoWarnings(steps: map<StepKey, SyncStep>, opsTaskId: int)
    ensures WarningsFor([], steps, opsTaskId) == []
  {
  }

  lemma {:induction false} AllOkNoWarnings(keys: seq<StepKey>, steps: map<StepKey, SyncStep>, opsTaskId: int)
    requires forall k :: k in keys ==> k in steps && FullyOk(steps[k])
    ensures WarningsFor(keys, steps, opsTaskId) == []
  {
    if keys != [] { AllOkNoWarnings(keys[..|keys| - 1], steps, opsTaskId); }
  }

  /** The warning names its unit and holds its errors. */
  ghost predicate WarningTells(w: Warning, k: StepKey, step: SyncStep, opsTaskId: int) {
    && w.tradeDay == k.tradeDay && w.opsTaskId == opsTaskId && w.fundAccount == k.fundAccount
    && w.text == k.fundAccount + " " + MarketName(k.market) + " "
                 + (if k.dataType == FUND then "FUND" else if k.dataType == POSITION then "POSITION"
                    else if k.dataType == ORDER then "ORDER" else "TRADE")
                 + " pullError=" + (if step.pullError.Some? then step.pullError.value else "")
                 + " writeError=" + (if step.writeError.Some? then step.writeError.value else "")
  }

  lemma WarningNames(k: StepKey, step: SyncStep, opsTaskId: int)
    ensures WarningTells(WarningFor(k, step, opsTaskId), k, step, opsTaskId)
  {
  }

  /** The units that are not pulled and written, in order. */
  function Unfinished(keys: seq<StepKey>, steps: map<StepKey, SyncStep>): seq<StepKey> {
    Filter(keys, (k: StepKey) => k in steps && (steps[k].pullStatus != SUCCESS || steps[k].writeStatus != SUCCESS))
  }

  lemma UnfinishedMore(keys: seq<StepKey>, k: StepKey, steps: map<StepKey, SyncStep>)
    requires k in steps
    ensures Unfinished(keys + [k], steps)
            == Unfinished(keys, steps)
               + if steps[k].pullStatus == SUCCESS && steps[k].writeStatus == SUCCESS then [] else [k]
  {
    FilterAppend(keys, [k], (x: StepKey) =>
      x in steps && (steps[x].pullStatus != SUCCESS || steps[x].writeStatus != SUCCESS));
    assert [k][1..] == [];
  }

  /** Each unit that is not pulled and written leaves one warning, in order. */
  ghost predicate WarningsTell(warnings: seq<Warning>, keys: seq<StepKey>, steps: map<StepKey, SyncStep>,
                             opsTaskId: int)
  {
    var failed := Unfinished(keys, steps);
    && |warnings| == |failed|
    && forall p :: 0 <= p < |failed| ==>
         failed[p] in steps && WarningTells(warnings[p], failed[p], steps[failed[p]], opsTaskId)
  }

  lemma {:induction false} WarningsExactly(keys: seq<StepKey>, steps: map<StepKey, SyncStep>, opsTaskId: int)
    requires forall k :: k in keys ==> k in steps
    ensures WarningsTell(WarningsFor(keys, steps, opsTaskId), keys, steps, opsTaskId)
  {
    hide Unfinished, WarningFor, WarningTells;
    if keys == [] {
      assert Unfinished([], steps) == [] by { NoneUnfinished(steps); }
    } else {
      var before, k := keys[..|keys| - 1], keys[|keys| - 1];
      assert keys == before + [k];
      WarningsExactly(before, steps, opsTaskId);
      UnfinishedMore(before, k, steps);
      WarningNames(k, steps[k], opsTaskId);
    }
  }

  lemma NoneUnfinished(steps: map<StepKey, SyncStep>)
    ensures Unfinished([], steps) == []
  {
  }

  /** As many warnings as units that are not fully successful. */
  lemma {:induction false} WarningCount(keys: seq<StepKey>, steps: map<StepKey, SyncStep>, opsTaskId: int)
    requires forall k :: k in keys ==> k in steps
    ensures |WarningsFor(keys, steps, opsTaskId)| == Count(keys, steps, (s: SyncStep) => !FullyOk(s))
    ensures |WarningsFor(keys, steps, opsTaskId)| + Count(keys, steps, FullyOk) == |keys|
  {
    CountComplement(keys, steps, FullyOk, (s: SyncStep) => !FullyOk(s));
    if keys != [] { WarningCount(keys[..|keys| - 1], steps, opsTaskId); }
  }

  lemma {:induction false} CountDisjoint(
      keys: seq<StepKey>, steps: map<StepKey, SyncStep>, test: SyncStep -> bool, other: SyncStep -> bool,
      both: SyncStep -> bool)
    requires forall k :: k in keys ==> k in steps
    requires forall step :: !(test(step) && other(step)) && (both(step) <==> test(step) || other(step))
    ensures Count(keys, steps, test) + Count(keys, steps, other) == Count(keys, steps, both)
  {
    if keys != [] { CountDisjoint(keys[..|keys| - 1], steps, test, other, both); }
  }

  /** Every unit is counted once on the pull side, and once on the write side if it was pulled or written. */
  lemma SummaryConserves(r: RunSummary, keys: seq<StepKey>, steps: map<StepKey, SyncStep>)
    requires (forall k :: k in keys ==> k in steps) && SummaryOf(r, keys, steps)
    ensures r.pullSuccess + r.pullFailed == |keys|
    ensures r.writeSuccess + r.writeFailed
            == Count(keys, steps, (s: SyncStep) => s.pullStatus == SUCCESS || s.writeStatus == SUCCESS)
    ensures (forall k :: k in keys && steps[k].writeStatus == SUCCESS ==> steps[k].pullStatus == SUCCESS) ==>
              r.writeSuccess + r.writeFailed == r.pullSuccess
    ensures forall a :: a in r.positionFailedAccounts ==> a in r.failedAccounts
  {
    var pulled := (s: SyncStep) => s.pullStatus == SUCCESS;
    var either := (s: SyncStep) => s.pullStatus == SUCCESS || s.writeStatus == SUCCESS;
    CountComplement(keys, steps, pulled, (s: SyncStep) => s.pullStatus != SUCCESS);
    CountDisjoint(keys, steps, (s: SyncStep) => s.writeStatus == SUCCESS,
                  (s: SyncStep) => s.pullStatus == SUCCESS && s.writeStatus != SUCCESS, either);
    if forall k :: k in keys && steps[k].writeStatus == SUCCESS ==> steps[k].pullStatus == SUCCESS {
      CountSame(keys, steps, pulled, either);
    }
  }

  /** Every unit that counts as written, and lost no file, has its file and a slice that says the same. */
  ghost predicate WrittenInSync(s: Store, keys: seq<StepKey>, lost: set<StepKey>) {
    forall k :: k in keys && k in s.steps && k !in lost && WriteOk(s.steps[k]) ==> UnitKey(k) && SettledOk(s, k)
  }

  /**
   In a safe state what counts as written is in sync, and without lost files every pulled unit is counted as
   written or not written.
   */
  lemma FiguresAreHonest(s: Store, keys: seq<StepKey>, lost: set<StepKey>, r: RunSummary)
    requires Inv(s) && s.lost <= lost
    requires (forall k :: k in keys ==> k in s.steps) && SummaryOf(r, keys, s.steps)
    ensures WrittenInSync(s, keys, lost)
    ensures (forall k :: k in keys ==> k !in lost) ==> r.writeSuccess + r.writeFailed == r.pullSuccess
  {
    SummaryConserves(r, keys, s.steps);
    forall k | k in keys && k !in lost && WriteOk(s.steps[k])
      ensures UnitKey(k) && SettledOk(s, k)
    {
      assert Settled(s, k);
    }
  }
}

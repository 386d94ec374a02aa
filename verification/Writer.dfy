/** TradeDataSyncWriter: one pulled file replaces one slice of one table, in one transaction. */
module Writer {
  import opened Common
  import opened Tables

  // ---- files ---------------------------------------------------------------

  datatype RawPosition = RawPosition(ticker: string, total_qty: int, sellable_qty: int)

  datatype RawOrder = RawOrder(
    order_api_id: int, order_ref: int, ticker: string, price: real, quantity: int, price_type: int,
    side: int, qty_left: int, insert_time: int, update_time: int, cancel_time: int, status: int)

  datatype RawTrade = RawTrade(
    ticker: string, order_api_id: int, order_ref: int, trade_id: string, trade_price: real,
    trade_quantity: int, trade_time: int, side: int)

  datatype RawFund = RawFund(
    balance: int, buying_power: int, frozen: int, xtp_account: Option<string>, atp_account: Option<string>)

  /** What parsing a local file gives; Malformed stands for text that does not parse. */
  datatype Content =
    | Positions(positions: seq<RawPosition>)
    | Orders(orders: seq<RawOrder>)
    | Trades(trades: seq<RawTrade>)
    | Fund(fund: RawFund)
    | Malformed

  // ---- rows ------------------------------------------------------------------

  datatype AccountKeys = AccountKeys(brokerKey: string, productKey: string, companyKey: string)

  datatype PositionRow = PositionRow(keys: AccountKeys, totalQty: int, sellableQty: int)

  datatype OrderKey = OrderKey(ticker: string, orderRef: int, orderApiId: int)

  datatype OrderRow = OrderRow(
    keys: AccountKeys, price: real, quantity: int, priceType: int, side: Side, qtyTraded: int,
    qtyLeft: int, insertTime: int, updateTime: int, cancelTime: int, status: int)

  datatype TradeKey = TradeKey(ticker: string, tradeId: string, orderApiId: int)

  datatype TradeRow = TradeRow(
    keys: AccountKeys, orderRef: int, price: real, quantity: int, tradeTime: int, tradeAmount: real, side: Side)

  datatype Snapshot = Snapshot(
    slice: DaySlice, reason: Reason, balance: int, buying_power: int, frozen: int,
    xtp_account: Option<string>, atp_account: Option<string>)

  datatype TradeTables = TradeTables(
    positions: Table<string, PositionRow>,
    orders: Table<OrderKey, OrderRow>,
    trades: Table<TradeKey, TradeRow>,
    snapshots: seq<Snapshot>)

  datatype WriteInput = WriteInput(
    dataType: TradeDataType, slice: DaySlice, keys: AccountKeys, reason: Option<Reason>)

  // ---- mapping -------------------------------------------------------------

  predicate StartsWith(s: string, prefix: string) {
    prefix <= s
  }

  function GetMarketByTicker(ticker: string): Option<Market> {
    if StartsWith(ticker, "00") then Some(SZ)
    else if StartsWith(ticker, "30") then Some(SZ)
    else if StartsWith(ticker, "60") then Some(SH)
    else if StartsWith(ticker, "68") then Some(SH)
    else None
  }

  /** The character of a code is taken modulo 2^16: 'B' is 66, 'S' is 83. */
  function MapSide(code: int): Option<Side> {
    if code % 0x10000 == 66 then Some(BUY)
    else if code % 0x10000 == 83 then Some(SELL)
    else None
  }

  function PositionData(keys: AccountKeys, market: Market, raw: seq<RawPosition>): seq<(string, PositionRow)> {
    if raw == [] then []
    else
      var rest := PositionData(keys, market, raw[1..]);
      if GetMarketByTicker(raw[0].ticker) == Some(market)
      then [(raw[0].ticker, PositionRow(keys, raw[0].total_qty, raw[0].sellable_qty))] + rest
      else rest
  }

  function OrderDatum(keys: AccountKeys, o: RawOrder, side: Side): (OrderKey, OrderRow) {
    (OrderKey(o.ticker, o.order_ref, o.order_api_id),
     OrderRow(keys, o.price, o.quantity, o.price_type, side, o.quantity - o.qty_left, o.qty_left,
              o.insert_time, o.update_time, o.cancel_time, o.status))
  }

  function OrderData(keys: AccountKeys, raw: seq<RawOrder>): seq<(OrderKey, OrderRow)> {
    if raw == [] then []
    else
      match MapSide(raw[|raw| - 1].side)
      case None => OrderData(keys, raw[..|raw| - 1])
      case Some(side) => OrderData(keys, raw[..|raw| - 1]) + [OrderDatum(keys, raw[|raw| - 1], side)]
  }

  function TradeDatum(keys: AccountKeys, t: RawTrade, side: Side): (TradeKey, TradeRow) {
    (TradeKey(t.ticker, t.trade_id, t.order_api_id),
     TradeRow(keys, t.order_ref, t.trade_price, t.trade_quantity, t.trade_time,
              t.trade_price * t.trade_quantity as real, side))
  }

  function TradeData(keys: AccountKeys, raw: seq<RawTrade>): seq<(TradeKey, TradeRow)> {
    if raw == [] then []
    else
      match MapSide(raw[|raw| - 1].side)
      case None => TradeData(keys, raw[..|raw| - 1])
      case Some(side) => TradeData(keys, raw[..|raw| - 1]) + [TradeDatum(keys, raw[|raw| - 1], side)]
  }

  /** A stored order's traded and remaining quantities add up to its quantity, whatever the file says. */
  lemma {:induction false} OrderQuantitiesAddUp(keys: AccountKeys, raw: seq<RawOrder>, i: nat)
    requires i < |OrderData(keys, raw)|
    ensures var row := OrderData(keys, raw)[i].1; row.qtyTraded + row.qtyLeft == row.quantity
  {
    if i < |OrderData(keys, raw[..|raw| - 1])| {
      OrderQuantitiesAddUp(keys, raw[..|raw| - 1], i);
    }
  }

  // ---- what counts in a file, and as which row -------------------------------

  /** Stocks are listed in Shenzhen under 00 and 30, in Shanghai under 60 and 68. */
  predicate ListedOn(ticker: string, market: Market) {
    |ticker| >= 2 && if market == SZ then ticker[..2] == "00" || ticker[..2] == "30"
                     else market == SH && (ticker[..2] == "60" || ticker[..2] == "68")
  }

  /** Bought or sold: the code of 'B' or 'S', modulo 2^16. */
  predicate HasSide(code: int) {
    code % 0x10000 == 66 || code % 0x10000 == 83
  }

  function PositionRowOf(keys: AccountKeys): RawPosition -> (string, PositionRow) {
    (p: RawPosition) => (p.ticker, PositionRow(keys, p.total_qty, p.sellable_qty))
  }

  function OrderRowOf(keys: AccountKeys): RawOrder -> (OrderKey, OrderRow) {
    (o: RawOrder) =>
      (OrderKey(o.ticker, o.order_ref, o.order_api_id),
       OrderRow(keys, o.price, o.quantity, o.price_type, if o.side % 0x10000 == 66 then BUY else SELL,
                o.quantity - o.qty_left, o.qty_left, o.insert_time, o.update_time, o.cancel_time, o.status))
  }

  function TradeRowOf(keys: AccountKeys): RawTrade -> (TradeKey, TradeRow) {
    (t: RawTrade) =>
      (TradeKey(t.ticker, t.trade_id, t.order_api_id),
       TradeRow(keys, t.order_ref, t.trade_price, t.trade_quantity, t.trade_time,
                t.trade_price * t.trade_quantity as real, if t.side % 0x10000 == 66 then BUY else SELL))
  }

  function OnMarket(market: Market): RawPosition -> bool {
    (p: RawPosition) => ListedOn(p.ticker, market)
  }

  const KNOWN_ORDER: RawOrder -> bool := (o: RawOrder) => HasSide(o.side)

  const KNOWN_TRADE: RawTrade -> bool := (t: RawTrade) => HasSide(t.side)

  lemma MarketOfTicker(ticker: string, market: Market)
    ensures GetMarketByTicker(ticker) == Some(market) <==> ListedOn(ticker, market)
  {
    if |ticker| >= 2 {
      assert ticker[..2] == [ticker[0], ticker[1]];
    }
  }

  predicate OfMarket(p: RawPosition, market: Market) {
    GetMarketByTicker(p.ticker) == Some(market)
  }

  lemma {:induction false} PositionDataMore(keys: AccountKeys, market: Market, raw: seq<RawPosition>, p: RawPosition)
    ensures PositionData(keys, market, raw + [p])
            == var before := PositionData(keys, market, raw);
               if OfMarket(p, market) then before + [(p.ticker, PositionRow(keys, p.total_qty, p.sellable_qty))]
               else before
  {
    if raw == [] {
      assert (raw + [p])[1..] == [];
    } else {
      assert (raw + [p])[1..] == raw[1..] + [p];
      PositionDataMore(keys, market, raw[1..], p);
    }
  }

  lemma {:induction false} PositionDataIs(keys: AccountKeys, market: Market, raw: seq<RawPosition>)
    ensures PositionData(keys, market, raw) == Counted(raw, OnMarket(market), PositionRowOf(keys))
    decreases raw
  {
    if raw != [] {
      var before, last := raw[..|raw| - 1], raw[|raw| - 1];
      PositionDataIs(keys, market, before);
      assert raw == before + [last];
      PositionDataMore(keys, market, before, last);
      MarketOfTicker(last.ticker, market);
    }
  }

  lemma {:induction false} OrderDataIs(keys: AccountKeys, raw: seq<RawOrder>)
    ensures OrderData(keys, raw) == Counted(raw, KNOWN_ORDER, OrderRowOf(keys))
    decreases raw
  {
    if raw != [] {
      var last := raw[|raw| - 1];
      OrderDataIs(keys, raw[..|raw| - 1]);
      if HasSide(last.side) {
        assert OrderRowOf(keys)(last) == OrderDatum(keys, last, MapSide(last.side).value);
      }
    }
  }

  lemma {:induction false} TradeDataIs(keys: AccountKeys, raw: seq<RawTrade>)
    ensures TradeData(keys, raw) == Counted(raw, KNOWN_TRADE, TradeRowOf(keys))
    decreases raw
  {
    if raw != [] {
      var last := raw[|raw| - 1];
      TradeDataIs(keys, raw[..|raw| - 1]);
      if HasSide(last.side) {
        assert TradeRowOf(keys)(last) == TradeDatum(keys, last, MapSide(last.side).value);
      }
    }
  }

  // ---- nothing is lost in mapping -------------------------------------------

  function SideCode(side: Side): int {
    if side == BUY then 66 else 83
  }

  /** The position that a row stands for. */
  function RestoredPosition(d: (string, PositionRow)): RawPosition {
    RawPosition(d.0, d.1.totalQty, d.1.sellableQty)
  }

  /** The order that a row stands for; the side code comes back in its least form. */
  function RestoredOrder(d: (OrderKey, OrderRow)): RawOrder {
    RawOrder(d.0.orderApiId, d.0.orderRef, d.0.ticker, d.1.price, d.1.qtyTraded + d.1.qtyLeft, d.1.priceType,
             SideCode(d.1.side), d.1.qtyLeft, d.1.insertTime, d.1.updateTime, d.1.cancelTime, d.1.status)
  }

  function RestoredTrade(d: (TradeKey, TradeRow)): RawTrade {
    RawTrade(d.0.ticker, d.0.orderApiId, d.1.orderRef, d.0.tradeId, d.1.price, d.1.quantity, d.1.tradeTime,
             SideCode(d.1.side))
  }

  function Restored<D, T>(data: seq<D>, restore: D -> T): seq<T> {
    seq(|data|, i requires 0 <= i < |data| => restore(data[i]))
  }

  lemma RestoredConcat<D, T>(a: seq<D>, b: seq<D>, restore: D -> T)
    ensures Restored(a + b, restore) == Restored(a, restore) + Restored(b, restore)
  {
  }

  /** The orders whose side is known, side codes in their least form. */
  function KnownOrders(raw: seq<RawOrder>): seq<RawOrder> {
    if raw == [] then []
    else
      var o := raw[|raw| - 1];
      KnownOrders(raw[..|raw| - 1]) + if o.side % 0x10000 in {66, 83} then [o.(side := o.side % 0x10000)] else []
  }

  function KnownTrades(raw: seq<RawTrade>): seq<RawTrade> {
    if raw == [] then []
    else
      var t := raw[|raw| - 1];
      KnownTrades(raw[..|raw| - 1]) + if t.side % 0x10000 in {66, 83} then [t.(side := t.side % 0x10000)] else []
  }

  /** The positions of a market come back from their rows, in order. */
  lemma {:induction false} PositionsRestored(keys: AccountKeys, market: Market, raw: seq<RawPosition>)
    ensures Restored(PositionData(keys, market, raw), RestoredPosition)
            == Filter(raw, (p: RawPosition) => ListedOn(p.ticker, market))
    ensures forall d :: d in PositionData(keys, market, raw) ==> d.1.keys == keys
  {
    if raw != [] {
      PositionsRestored(keys, market, raw[1..]);
      MarketOfTicker(raw[0].ticker, market);
      var rest := PositionData(keys, market, raw[1..]);
      var d := (raw[0].ticker, PositionRow(keys, raw[0].total_qty, raw[0].sellable_qty));
      RestoredConcat([d], rest, RestoredPosition);
      assert RestoredPosition(d) == raw[0] && Restored([d], RestoredPosition) == [raw[0]];
    }
  }

  /** Every order with a known side comes back from its row, in order; the others leave no row. */
  lemma {:induction false} OrdersRestored(keys: AccountKeys, raw: seq<RawOrder>)
    ensures Restored(OrderData(keys, raw), RestoredOrder) == KnownOrders(raw)
    ensures forall d :: d in OrderData(keys, raw) ==> d.1.keys == keys
  {
    if raw != [] {
      OrdersRestored(keys, raw[..|raw| - 1]);
      var before, side := OrderData(keys, raw[..|raw| - 1]), MapSide(raw[|raw| - 1].side);
      if side.Some? {
        var d := OrderDatum(keys, raw[|raw| - 1], side.value);
        RestoredConcat(before, [d], RestoredOrder);
        assert Restored([d], RestoredOrder) == [RestoredOrder(d)];
      }
    }
  }

  /** The same for trades, whose amount is price times quantity. */
  lemma {:induction false} TradesRestored(keys: AccountKeys, raw: seq<RawTrade>)
    ensures Restored(TradeData(keys, raw), RestoredTrade) == KnownTrades(raw)
    ensures forall d :: d in TradeData(keys, raw) ==>
              d.1.keys == keys && d.1.tradeAmount == d.1.price * d.1.quantity as real
  {
    if raw != [] {
      TradesRestored(keys, raw[..|raw| - 1]);
      var before, side := TradeData(keys, raw[..|raw| - 1]), MapSide(raw[|raw| - 1].side);
      if side.Some? {
        var d := TradeDatum(keys, raw[|raw| - 1], side.value);
        RestoredConcat(before, [d], RestoredTrade);
        assert Restored([d], RestoredTrade) == [RestoredTrade(d)];
      }
    }
  }

  function NewSnapshot(input: WriteInput, reason: Reason, fund: RawFund): Snapshot {
    Snapshot(input.slice, reason, fund.balance, fund.buying_power, fund.frozen, fund.xtp_account, fund.atp_account)
  }

  // ---- what a write means ------------------------------------------------

  /** The slice of one table that one write owns. */
  datatype SliceKey =
    | PositionSlice(slice: DaySlice)
    | OrderSlice(slice: DaySlice)
    | TradeSlice(slice: DaySlice)
    | FundSlice(slice: DaySlice, reason: Reason)

  datatype SliceRows =
    | PositionRows(positions: map<string, Row<PositionRow>>)
    | OrderRows(orders: map<OrderKey, Row<OrderRow>>)
    | TradeRows(trades: map<TradeKey, Row<TradeRow>>)
    | FundRows(snapshots: seq<Snapshot>)

  function SnapshotsOf(snapshots: seq<Snapshot>, slice: DaySlice, reason: Reason): seq<Snapshot> {
    Filter(snapshots, (s: Snapshot) => s.slice == slice && s.reason == reason)
  }

  function SnapshotsWithout(snapshots: seq<Snapshot>, slice: DaySlice, reason: Reason): seq<Snapshot> {
    Filter(snapshots, (s: Snapshot) => !(s.slice == slice && s.reason == reason))
  }

  function SliceOf(t: TradeTables, key: SliceKey): SliceRows {
    match key
    case PositionSlice(slice) => PositionRows(Slice(t.positions, slice))
    case OrderSlice(slice) => OrderRows(Slice(t.orders, slice))
    case TradeSlice(slice) => TradeRows(Slice(t.trades, slice))
    case FundSlice(slice, reason) => FundRows(SnapshotsOf(t.snapshots, slice, reason))
  }

  /** The slice a write owns; a fund write without a reason owns none. */
  function TargetOf(input: WriteInput): Option<SliceKey> {
    match input.dataType
    case POSITION => Some(PositionSlice(input.slice))
    case ORDER => Some(OrderSlice(input.slice))
    case TRADE => Some(TradeSlice(input.slice))
    case FUND => if input.reason.None? then None else Some(FundSlice(input.slice, input.reason.value))
  }

  /** The rows a file stands for; None when the write must fail. */
  ghost function Transform(input: WriteInput, content: Content): Option<SliceRows> {
    match (input.dataType, content)
    case (POSITION, Positions(raw)) =>
      var data := PositionData(input.keys, input.slice.market, raw);
      if DistinctKeys(data) then Some(PositionRows(Slice(Rows(input.slice, data), input.slice))) else None
    case (ORDER, Orders(raw)) =>
      var data := OrderData(input.keys, raw);
      if DistinctKeys(data) then Some(OrderRows(Slice(Rows(input.slice, data), input.slice))) else None
    case (TRADE, Trades(raw)) =>
      var data := TradeData(input.keys, raw);
      if DistinctKeys(data) then Some(TradeRows(Slice(Rows(input.slice, data), input.slice))) else None
    case (FUND, Fund(fund)) =>
      if input.reason.None? then None else Some(FundRows([NewSnapshot(input, input.reason.value, fund)]))
    case _ => None
  }

  /** The committed tables; None when the transaction rolls back or is never started. */
  ghost function WriteTables(t: TradeTables, input: WriteInput, content: Content): Option<TradeTables> {
    match (input.dataType, content)
    case (POSITION, Positions(raw)) =>
      (match Replaced(t.positions, input.slice, PositionData(input.keys, input.slice.market, raw))
       case None => None
       case Some(u) => Some(t.(positions := u)))
    case (ORDER, Orders(raw)) =>
      (match Replaced(t.orders, input.slice, OrderData(input.keys, raw))
       case None => None
       case Some(u) => Some(t.(orders := u)))
    case (TRADE, Trades(raw)) =>
      (match Replaced(t.trades, input.slice, TradeData(input.keys, raw))
       case None => None
       case Some(u) => Some(t.(trades := u)))
    case (FUND, Fund(fund)) =>
      if input.reason.None? then None
      else
        var reason := input.reason.value;
        Some(t.(snapshots := SnapshotsWithout(t.snapshots, input.slice, reason)
                             + [NewSnapshot(input, reason, fund)]))
    case _ => None
  }

  lemma {:induction false} FilterDisjoint<T>(s: seq<T>, drop: T -> bool, keep: T -> bool)
    requires forall i :: 0 <= i < |s| && keep(s[i]) ==> drop(s[i])
    ensures Filter(Filter(s, drop), keep) == Filter(s, keep)
  {
    if s != [] {
      assert forall i :: 0 <= i < |s| - 1 ==> s[1..][i] == s[i + 1];
      FilterDisjoint(s[1..], drop, keep);
      if drop(s[0]) {
        assert ([s[0]] + Filter(s[1..], drop))[1..] == Filter(s[1..], drop);
      }
    }
  }

  lemma {:induction false} FilterNone<T>(s: seq<T>, drop: T -> bool, keep: T -> bool)
    requires forall i :: 0 <= i < |s| && drop(s[i]) ==> !keep(s[i])
    ensures Filter(Filter(s, drop), keep) == []
  {
    if s != [] {
      assert forall i :: 0 <= i < |s| - 1 ==> s[1..][i] == s[i + 1];
      FilterNone(s[1..], drop, keep);
      if drop(s[0]) {
        assert ([s[0]] + Filter(s[1..], drop))[1..] == Filter(s[1..], drop);
      }
    }
  }

  lemma FundSlices(t: TradeTables, input: WriteInput, fund: RawFund, slice: DaySlice, reason: Reason)
    requires input.dataType == FUND && input.reason.Some?
    ensures
      var after := WriteTables(t, input, Fund(fund)).value.snapshots;
      SnapshotsOf(after, slice, reason) ==
      if slice == input.slice && reason == input.reason.value
      then [NewSnapshot(input, reason, fund)]
      else SnapshotsOf(t.snapshots, slice, reason)
  {
    var row := NewSnapshot(input, input.reason.value, fund);
    var drop := (s: Snapshot) => !(s.slice == input.slice && s.reason == input.reason.value);
    var keep := (s: Snapshot) => s.slice == slice && s.reason == reason;
    FilterAppend(SnapshotsWithout(t.snapshots, input.slice, input.reason.value), [row], keep);
    if slice == input.slice && reason == input.reason.value {
      FilterNone(t.snapshots, drop, keep);
    } else {
      FilterDisjoint(t.snapshots, drop, keep);
    }
  }

  /**
   A write commits exactly when its file has a meaning; then the slice it owns holds exactly that
   meaning and every other slice of every table is what it was.
   */
  lemma WriteExact(t: TradeTables, input: WriteInput, content: Content, other: SliceKey)
    ensures WriteTables(t, input, content).Some? <==> Transform(input, content).Some?
    ensures WriteTables(t, input, content).Some? ==>
              var after := WriteTables(t, input, content).value;
              && TargetOf(input).Some?
              && SliceOf(after, TargetOf(input).value) == Transform(input, content).value
              && (Some(other) != TargetOf(input) ==> SliceOf(after, other) == SliceOf(t, other))
  {
    if WriteTables(t, input, content).Some? {
      match (input.dataType, content)
      case (POSITION, Positions(raw)) =>
        ReplacedSlices(t.positions, input.slice, PositionData(input.keys, input.slice.market, raw), other.slice);
      case (ORDER, Orders(raw)) =>
        ReplacedSlices(t.orders, input.slice, OrderData(input.keys, raw), other.slice);
      case (TRADE, Trades(raw)) =>
        ReplacedSlices(t.trades, input.slice, TradeData(input.keys, raw), other.slice);
      case (FUND, Fund(fund)) =>
        FundSlices(t, input, fund, input.slice, input.reason.value);
        if other.FundSlice? {
          FundSlices(t, input, fund, other.slice, other.reason);
        }
    }
  }

  // ---- what a write stores, record by record -----------------------------------

  /** The file can be written: it is of the write's kind and no two records that count have one key. */
  ghost predicate Storable(input: WriteInput, content: Content) {
    match (input.dataType, content)
    case (POSITION, Positions(raw)) => DistinctRecords(raw, OnMarket(input.slice.market), PositionRowOf(input.keys))
    case (ORDER, Orders(raw)) => DistinctRecords(raw, KNOWN_ORDER, OrderRowOf(input.keys))
    case (TRADE, Trades(raw)) => DistinctRecords(raw, KNOWN_TRADE, TradeRowOf(input.keys))
    case (FUND, Fund(_)) => input.reason.Some?
    case _ => false
  }

  /** The newest snapshot holds the fund's figures, and is the only one of its slice and reason. */
  ghost predicate SnapshotStored(before: seq<Snapshot>, after: seq<Snapshot>, slice: DaySlice, reason: Reason,
                                 fund: RawFund)
  {
    && |after| > 0
    && var last := after[|after| - 1];
       && last.slice == slice && last.reason == reason && last.balance == fund.balance
       && last.buying_power == fund.buying_power && last.frozen == fund.frozen
       && last.xtp_account == fund.xtp_account && last.atp_account == fund.atp_account
       && after[..|after| - 1] == Filter(before, (s: Snapshot) => s.slice != slice || s.reason != reason)
  }

  /** One table has the file's records in the slice and is otherwise as it was; so are the other tables. */
  ghost predicate Stores(before: TradeTables, after: TradeTables, input: WriteInput, content: Content) {
    match (input.dataType, content)
    case (POSITION, Positions(raw)) =>
      && after == before.(positions := after.positions)
      && Stored(before.positions, after.positions, input.slice, raw, OnMarket(input.slice.market),
                PositionRowOf(input.keys))
    case (ORDER, Orders(raw)) =>
      && after == before.(orders := after.orders)
      && Stored(before.orders, after.orders, input.slice, raw, KNOWN_ORDER, OrderRowOf(input.keys))
    case (TRADE, Trades(raw)) =>
      && after == before.(trades := after.trades)
      && Stored(before.trades, after.trades, input.slice, raw, KNOWN_TRADE, TradeRowOf(input.keys))
    case (FUND, Fund(fund)) =>
      && input.reason.Some? && after == before.(snapshots := after.snapshots)
      && SnapshotStored(before.snapshots, after.snapshots, input.slice, input.reason.value, fund)
    case _ => false
  }

  /** A write commits exactly when the file can be written, and stores exactly its records. */
  lemma WriteStores(t: TradeTables, input: WriteInput, content: Content)
    ensures WriteTables(t, input, content).Some? <==> Storable(input, content)
    ensures Storable(input, content) ==> Stores(t, WriteTables(t, input, content).value, input, content)
  {
    hide Stored, Replaced, Counted, DistinctRecords, PositionData, OrderData, TradeData, OnMarket, PositionRowOf,
         OrderRowOf, TradeRowOf;
    match (input.dataType, content)
    case (POSITION, Positions(raw)) =>
      PositionDataIs(input.keys, input.slice.market, raw);
      ReplacedStores(t.positions, input.slice, raw, OnMarket(input.slice.market), PositionRowOf(input.keys));
    case (ORDER, Orders(raw)) =>
      OrderDataIs(input.keys, raw);
      ReplacedStores(t.orders, input.slice, raw, KNOWN_ORDER, OrderRowOf(input.keys));
    case (TRADE, Trades(raw)) =>
      TradeDataIs(input.keys, raw);
      ReplacedStores(t.trades, input.slice, raw, KNOWN_TRADE, TradeRowOf(input.keys));
    case (FUND, Fund(fund)) =>
      if input.reason.Some? {
        var slice, reason := input.slice, input.reason.value;
        var kept := SnapshotsWithout(t.snapshots, slice, reason);
        assert (kept + [NewSnapshot(input, reason, fund)])[..|kept|] == kept;
        FilterSame(t.snapshots, (s: Snapshot) => !(s.slice == slice && s.reason == reason),
                   (s: Snapshot) => s.slice != slice || s.reason != reason);
      }
    case _ =>
  }

  // ---- the account's keys ----------------------------------------------------

  function WithKeys(rows: SliceRows, keys: AccountKeys): SliceRows {
    match rows
    case PositionRows(m) => PositionRows(MappedSlice(m, (r: PositionRow) => r.(keys := keys)))
    case OrderRows(m) => OrderRows(MappedSlice(m, (r: OrderRow) => r.(keys := keys)))
    case TradeRows(m) => TradeRows(MappedSlice(m, (r: TradeRow) => r.(keys := keys)))
    case FundRows(_) => rows
  }

  lemma {:induction false} PositionKeys(a: AccountKeys, b: AccountKeys, market: Market, raw: seq<RawPosition>)
    ensures PositionData(b, market, raw) == Mapped(PositionData(a, market, raw), (r: PositionRow) => r.(keys := b))
  {
    if raw != [] {
      PositionKeys(a, b, market, raw[1..]);
    }
  }

  lemma {:induction false} OrderKeys(a: AccountKeys, b: AccountKeys, raw: seq<RawOrder>)
    ensures OrderData(b, raw) == Mapped(OrderData(a, raw), (r: OrderRow) => r.(keys := b))
  {
    if raw != [] {
      OrderKeys(a, b, raw[..|raw| - 1]);
    }
  }

  lemma {:induction false} TradeKeys(a: AccountKeys, b: AccountKeys, raw: seq<RawTrade>)
    ensures TradeData(b, raw) == Mapped(TradeData(a, raw), (r: TradeRow) => r.(keys := b))
  {
    if raw != [] {
      TradeKeys(a, b, raw[..|raw| - 1]);
    }
  }

  /** Other keys of the account are the only difference between two writes of one file. */
  lemma OtherKeys(input: WriteInput, keys: AccountKeys, content: Content)
    ensures Transform(input.(keys := keys), content) ==
            match Transform(input, content)
            case None => None
            case Some(rows) => Some(WithKeys(rows, keys))
  {
    match (input.dataType, content)
    case (POSITION, Positions(raw)) =>
      PositionKeys(input.keys, keys, input.slice.market, raw);
      SliceOfMapped(input.slice, PositionData(input.keys, input.slice.market, raw),
                    (r: PositionRow) => r.(keys := keys));
    case (ORDER, Orders(raw)) =>
      OrderKeys(input.keys, keys, raw);
      SliceOfMapped(input.slice, OrderData(input.keys, raw), (r: OrderRow) => r.(keys := keys));
    case (TRADE, Trades(raw)) =>
      TradeKeys(input.keys, keys, raw);
      SliceOfMapped(input.slice, TradeData(input.keys, raw), (r: TradeRow) => r.(keys := keys));
    case _ =>
  }

  /** Every stored order's traded and remaining quantities add up to its quantity, whatever the file says. */
  lemma StoredOrdersAddUp(t: TradeTables, input: WriteInput, raw: seq<RawOrder>, key: Key<OrderKey>)
    requires input.dataType == ORDER && WriteTables(t, input, Orders(raw)).Some?
    requires key in WriteTables(t, input, Orders(raw)).value.orders && key.slice == input.slice
    ensures var row := WriteTables(t, input, Orders(raw)).value.orders[key].written;
            row.qtyTraded + row.qtyLeft == row.quantity
  {
    var data := OrderData(input.keys, raw);
    assert key in Rows(input.slice, data);
    RowFromFile(input.slice, data, key);
    var i :| 0 <= i < |data| && data[i].0 == key.row && Rows(input.slice, data)[key] == Row(data[i].1, None);
    OrderQuantitiesAddUp(input.keys, raw, i);
  }

  /** Writing one file twice is writing it once. */
  lemma WriteIdempotent(t: TradeTables, input: WriteInput, content: Content)
    requires WriteTables(t, input, content).Some?
    ensures WriteTables(WriteTables(t, input, content).value, input, content) == WriteTables(t, input, content)
  {
    match (input.dataType, content)
    case (POSITION, Positions(raw)) =>
      ReplaceIdempotent(t.positions, input.slice, PositionData(input.keys, input.slice.market, raw));
    case (ORDER, Orders(raw)) =>
      ReplaceIdempotent(t.orders, input.slice, OrderData(input.keys, raw));
    case (TRADE, Trades(raw)) =>
      ReplaceIdempotent(t.trades, input.slice, TradeData(input.keys, raw));
    case (FUND, Fund(fund)) =>
      var reason := input.reason.value;
      var row := NewSnapshot(input, reason, fund);
      var drop := (s: Snapshot) => !(s.slice == input.slice && s.reason == reason);
      FilterAppend(SnapshotsWithout(t.snapshots, input.slice, reason), [row], drop);
      FilterIdempotent(t.snapshots, drop);
      var kept := SnapshotsWithout(t.snapshots, input.slice, reason);
      assert SnapshotsWithout(kept + [row], input.slice, reason) == kept + Filter([row], drop);
      assert Filter([row], drop) == Filter([row][1..], drop);
      assert kept + [] == kept;
  }

  // ---- the writer ------------------------------------------------------------

  /** The loop that pushes slices of 1000 rows. */
  method CreateManyInChunks<T>(data: seq<T>) returns (operations: seq<seq<T>>)
    ensures operations == Chunks(data)
  {
    operations := [];
    if |data| == 0 {
      return;
    }
    var i := 0;
    while i < |data|
      invariant i % WRITE_CHUNK_SIZE == 0
      invariant operations == Chunks(if i < |data| then data[..i] else data)
      decreases |data| - i
    {
      var end := if i + WRITE_CHUNK_SIZE <= |data| then i + WRITE_CHUNK_SIZE else |data|;
      ChunksAppend(data[..end], i);
      assert data[..end][..i] == data[..i] && data[..end][i..] == data[i..end];
      assert end == |data| ==> data[..end] == data;
      operations := operations + [data[i..end]];
      i := i + WRITE_CHUNK_SIZE;
    }
  }

  method MapOrders(keys: AccountKeys, orders: seq<RawOrder>) returns (data: seq<(OrderKey, OrderRow)>)
    ensures data == OrderData(keys, orders)
  {
    data := [];
    for i := 0 to |orders|
      invariant data == OrderData(keys, orders[..i])
    {
      assert orders[..i + 1][..i] == orders[..i];
      var side := MapSide(orders[i].side);
      if side.None? {
        continue;
      }
      data := data + [OrderDatum(keys, orders[i], side.value)];
    }
    assert orders[..|orders|] == orders;
  }

  method MapTrades(keys: AccountKeys, trades: seq<RawTrade>) returns (data: seq<(TradeKey, TradeRow)>)
    ensures data == TradeData(keys, trades)
  {
    data := [];
    for i := 0 to |trades|
      invariant data == TradeData(keys, trades[..i])
    {
      assert trades[..i + 1][..i] == trades[..i];
      var side := MapSide(trades[i].side);
      if side.None? {
        continue;
      }
      data := data + [TradeDatum(keys, trades[i], side.value)];
    }
    assert trades[..|trades|] == trades;
  }

  /** A transaction of one deleteMany and the chunked createMany statements. */
  method ReplaceRows<R(==), W>(t: Table<R, W>, slice: DaySlice, data: seq<(R, W)>) returns (r: Option<Table<R, W>>)
    ensures r == Replaced(t, slice, data)
  {
    var operations := CreateManyInChunks(data);
    r := CreateChunks(DeleteSlice(t, slice), slice, operations);
    ReplaceExact(t, slice, data);
  }

  class TradeDataSyncWriter {
    var tables: TradeTables

    constructor (tables: TradeTables)
      ensures this.tables == tables
    {
      this.tables := tables;
    }

    /** One file is written or nothing changes; databaseUp says whether the transaction reaches the database. */
    method Write(input: WriteInput, content: Content, databaseUp: bool) returns (ok: bool)
      modifies this
      ensures ok == (databaseUp && Storable(input, content))
      ensures ok ==> Stores(old(tables), tables, input, content)
      ensures !ok ==> tables == old(tables)
      ensures ok == (databaseUp && Transform(input, content).Some?)
      ensures ok ==> Some(tables) == WriteTables(old(tables), input, content)
    {
      hide Storable, Stores;
      WriteStores(tables, input, content);
      WriteExact(tables, input, content, FundSlice(input.slice, SYNC));
      if input.dataType == FUND && input.reason.None? {
        return false;
      }
      if content.Malformed? || !databaseUp {
        return false;
      }
      match (input.dataType, content)
      case (POSITION, Positions(raw)) =>
        var committed := ReplaceRows(tables.positions, input.slice, PositionData(input.keys, input.slice.market, raw));
        if committed.None? { return false; }
        tables := tables.(positions := committed.value);
        return true;
      case (ORDER, Orders(raw)) =>
        var data := MapOrders(input.keys, raw);
        var committed := ReplaceRows(tables.orders, input.slice, data);
        if committed.None? { return false; }
        tables := tables.(orders := committed.value);
        return true;
      case (TRADE, Trades(raw)) =>
        var data := MapTrades(input.keys, raw);
        var committed := ReplaceRows(tables.trades, input.slice, data);
        if committed.None? { return false; }
        tables := tables.(trades := committed.value);
        return true;
      case (FUND, Fund(fund)) =>
        var reason := input.reason.value;
        tables := tables.(snapshots := SnapshotsWithout(tables.snapshots, input.slice, reason)
                                       + [NewSnapshot(input, reason, fund)]);
        return true;
      case _ =>
        return false;
    }
  }

  // ---- the older loader ----------------------------------------------------

  lemma PositionsLoaded(t: Table<string, PositionRow>, slice: DaySlice, keys: AccountKeys, raw: seq<RawPosition>)
    ensures Upserted(t, UpsertAll(t, slice, PositionData(keys, slice.market, raw)), slice, raw, OnMarket(slice.market),
                     PositionRowOf(keys))
  {
    PositionDataIs(keys, slice.market, raw);
    UpsertAllLoads(t, slice, raw, OnMarket(slice.market), PositionRowOf(keys));
  }

  lemma OrdersLoaded(t: Table<OrderKey, OrderRow>, slice: DaySlice, keys: AccountKeys, raw: seq<RawOrder>)
    ensures Upserted(t, UpsertAll(t, slice, OrderData(keys, raw)), slice, raw, KNOWN_ORDER, OrderRowOf(keys))
  {
    OrderDataIs(keys, raw);
    UpsertAllLoads(t, slice, raw, KNOWN_ORDER, OrderRowOf(keys));
  }

  /**
   Positions row by row; rows of another market are skipped. An upsert throws at the places in `failed`; the
   first one that is reached stops the loop, and `handled` counts the positions before it.
   */
  method LegacyPositions(t: Table<string, PositionRow>, slice: DaySlice, keys: AccountKeys, raw: seq<RawPosition>,
                         failed: set<nat>)
    returns (r: Table<string, PositionRow>, handled: nat)
    ensures handled <= |raw| && r == UpsertAll(t, slice, PositionData(keys, slice.market, raw[..handled]))
    ensures Upserted(t, r, slice, raw[..handled], OnMarket(slice.market), PositionRowOf(keys))
    ensures forall i :: 0 <= i < handled && ListedOn(raw[i].ticker, slice.market) ==> i !in failed
    ensures handled < |raw| ==> handled in failed && ListedOn(raw[handled].ticker, slice.market)
    ensures failed == {} ==> r == UpsertAll(t, slice, PositionData(keys, slice.market, raw))
  {
    r := t;
    for i := 0 to |raw|
      invariant r == UpsertAll(t, slice, PositionData(keys, slice.market, raw[..i]))
      invariant forall j :: 0 <= j < i && ListedOn(raw[j].ticker, slice.market) ==> j !in failed
    {
      assert raw[..i + 1] == raw[..i] + [raw[i]];
      MarketOfTicker(raw[i].ticker, slice.market);
      PositionsLoaded(t, slice, keys, raw[..i]);
      PositionDataMore(keys, slice.market, raw[..i], raw[i]);
      var p := raw[i];
      if GetMarketByTicker(p.ticker) != Some(slice.market) {
        continue;
      }
      if i in failed {
        return r, i;
      }
      var datum := (p.ticker, PositionRow(keys, p.total_qty, p.sellable_qty));
      UpsertAllAppend(t, slice, PositionData(keys, slice.market, raw[..i]), datum);
      r := Upsert(r, Key(slice, p.ticker), datum.1);
    }
    assert raw[..|raw|] == raw;
    PositionsLoaded(t, slice, keys, raw);
    handled := |raw|;
  }

  /** Orders row by row; as with positions, an upsert that throws stops the loop. */
  method LegacyOrders(t: Table<OrderKey, OrderRow>, slice: DaySlice, keys: AccountKeys, raw: seq<RawOrder>,
                      failed: set<nat>)
    returns (r: Table<OrderKey, OrderRow>, handled: nat)
    ensures handled <= |raw| && r == UpsertAll(t, slice, OrderData(keys, raw[..handled]))
    ensures Upserted(t, r, slice, raw[..handled], KNOWN_ORDER, OrderRowOf(keys))
    ensures forall i :: 0 <= i < handled && HasSide(raw[i].side) ==> i !in failed
    ensures handled < |raw| ==> handled in failed && HasSide(raw[handled].side)
    ensures failed == {} ==> r == UpsertAll(t, slice, OrderData(keys, raw))
  {
    r := t;
    for i := 0 to |raw|
      invariant r == UpsertAll(t, slice, OrderData(keys, raw[..i]))
      invariant forall j :: 0 <= j < i && HasSide(raw[j].side) ==> j !in failed
    {
      assert raw[..i + 1][..i] == raw[..i];
      OrdersLoaded(t, slice, keys, raw[..i]);
      var side := MapSide(raw[i].side);
      if side.None? {
        continue;
      }
      if i in failed {
        return r, i;
      }
      var datum := OrderDatum(keys, raw[i], side.value);
      UpsertAllAppend(t, slice, OrderData(keys, raw[..i]), datum);
      r := Upsert(r, Key(slice, datum.0), datum.1);
    }
    assert raw[..|raw|] == raw;
    OrdersLoaded(t, slice, keys, raw);
    handled := |raw|;
  }

  /** A file's rows begin with the rows of the part that a stopped loop handled. */
  lemma {:induction false} DataOfPart(keys: AccountKeys, market: Market, raw: seq<RawPosition>, n: nat)
    requires n <= |raw|
    ensures PositionData(keys, market, raw[..n]) <= PositionData(keys, market, raw)
    decreases |raw| - n
  {
    if n < |raw| {
      assert raw[..n + 1] == raw[..n] + [raw[n]];
      PositionDataMore(keys, market, raw[..n], raw[n]);
      DataOfPart(keys, market, raw, n + 1);
    } else {
      assert raw[..n] == raw;
    }
  }

  lemma {:induction false} OrdersOfPart(keys: AccountKeys, raw: seq<RawOrder>, n: nat)
    requires n <= |raw|
    ensures OrderData(keys, raw[..n]) <= OrderData(keys, raw)
    decreases |raw| - n
  {
    if n < |raw| {
      assert raw[..n + 1][..n] == raw[..n];
      OrdersOfPart(keys, raw, n + 1);
    } else {
      assert raw[..n] == raw;
    }
  }

  /** Loading a whole file after a loop over it stopped anywhere leaves what loading it once leaves. */
  lemma StoppedLoopIsRepaired(t: TradeTables, slice: DaySlice, keys: AccountKeys, positions: seq<RawPosition>,
                              orders: seq<RawOrder>, n: nat)
    ensures n <= |positions| ==>
              var part, all := PositionData(keys, slice.market, positions[..n]),
                               PositionData(keys, slice.market, positions);
              Written(UpsertAll(UpsertAll(t.positions, slice, part), slice, all))
              == Written(UpsertAll(t.positions, slice, all))
    ensures n <= |orders| ==>
              var part, all := OrderData(keys, orders[..n]), OrderData(keys, orders);
              Written(UpsertAll(UpsertAll(t.orders, slice, part), slice, all))
              == Written(UpsertAll(t.orders, slice, all))
  {
    if n <= |positions| {
      DataOfPart(keys, slice.market, positions, n);
      var part, all := PositionData(keys, slice.market, positions[..n]), PositionData(keys, slice.market, positions);
      assert part + all[|part|..] == all;
      RerunRepairs(t.positions, slice, part, all[|part|..]);
    }
    if n <= |orders| {
      OrdersOfPart(keys, orders, n);
      var part, all := OrderData(keys, orders[..n]), OrderData(keys, orders);
      assert part + all[|part|..] == all;
      RerunRepairs(t.orders, slice, part, all[|part|..]);
    }
  }

  /** The trades of a file but those at some positions. */
  function WithoutFailed(raw: seq<RawTrade>, failed: set<nat>): seq<RawTrade> {
    if raw == [] then []
    else
      var n := |raw| - 1;
      WithoutFailed(raw[..n], failed) + if n in failed then [] else [raw[n]]
  }

  lemma {:induction false} NoneFailed(raw: seq<RawTrade>)
    ensures WithoutFailed(raw, {}) == raw
  {
    if raw != [] {
      NoneFailed(raw[..|raw| - 1]);
      assert raw == raw[..|raw| - 1] + [raw[|raw| - 1]];
    }
  }

  /** The records of a file with their places. */
  function Placed<T>(raw: seq<T>): seq<(nat, T)> {
    seq(|raw|, i requires 0 <= i < |raw| => (i, raw[i]))
  }

  lemma {:induction false} FailedTradesSkipped(keys: AccountKeys, raw: seq<RawTrade>, failed: set<nat>,
                                               counts: ((nat, RawTrade)) -> bool,
                                               row: ((nat, RawTrade)) -> (TradeKey, TradeRow))
    requires forall n: nat, t: RawTrade :: counts((n, t)) <==> n !in failed && HasSide(t.side)
    requires forall n: nat, t: RawTrade :: row((n, t)) == TradeRowOf(keys)(t)
    ensures TradeData(keys, WithoutFailed(raw, failed)) == Counted(Placed(raw), counts, row)
    decreases raw
  {
    if raw != [] {
      var before, last, n := raw[..|raw| - 1], raw[|raw| - 1], |raw| - 1;
      FailedTradesSkipped(keys, before, failed, counts, row);
      assert Placed(raw)[..n] == Placed(before) && Placed(raw)[n] == (n, last);
      var kept := WithoutFailed(before, failed);
      TradeDataIs(keys, kept);
      TradeDataIs(keys, kept + [last]);
      assert (kept + [last])[..|kept|] == kept && kept + [] == kept;
    }
  }

  /** Trades row by row; a trade whose upsert throws is skipped and the loop goes on. */
  method LegacyTrades(t: Table<TradeKey, TradeRow>, slice: DaySlice, keys: AccountKeys, raw: seq<RawTrade>,
                      failed: set<nat>)
    returns (r: Table<TradeKey, TradeRow>)
    ensures r == UpsertAll(t, slice, TradeData(keys, WithoutFailed(raw, failed)))
    ensures Upserted(t, r, slice, Placed(raw), (n: (nat, RawTrade)) => n.0 !in failed && HasSide(n.1.side),
                     (n: (nat, RawTrade)) => TradeRowOf(keys)(n.1))
    ensures failed == {} ==> r == UpsertAll(t, slice, TradeData(keys, raw))
  {
    r := t;
    for i := 0 to |raw|
      invariant r == UpsertAll(t, slice, TradeData(keys, WithoutFailed(raw[..i], failed)))
    {
      assert raw[..i + 1][..i] == raw[..i];
      ghost var before := WithoutFailed(raw[..i], failed);
      assert (before + [raw[i]])[..|before|] == before && before + [] == before;
      assert WithoutFailed(raw[..i + 1], failed) == if i in failed then before else before + [raw[i]];
      var side := MapSide(raw[i].side);
      if side.None? {
        continue;
      }
      if i in failed {
        continue;
      }
      var datum := TradeDatum(keys, raw[i], side.value);
      UpsertAllAppend(t, slice, TradeData(keys, before), datum);
      r := Upsert(r, Key(slice, datum.0), datum.1);
    }
    assert raw[..|raw|] == raw;
    NoneFailed(raw);
    var counts := (n: (nat, RawTrade)) => n.0 !in failed && HasSide(n.1.side);
    var row := (n: (nat, RawTrade)) => TradeRowOf(keys)(n.1);
    FailedTradesSkipped(keys, raw, failed, counts, row);
    UpsertAllLoads(t, slice, Placed(raw), counts, row);
  }

  /**
   Batch and row-by-row loading agree, for each of the three tables, on the columns both write,
   once the rows absent from the file are taken out of the older loader's slice.
   */
  lemma BatchRefinesLegacy(t: TradeTables, input: WriteInput, content: Content)
    requires input.dataType != FUND && WriteTables(t, input, content).Some?
    ensures
      var after := WriteTables(t, input, content).value;
      match content
      case Positions(raw) =>
        var data := PositionData(input.keys, input.slice.market, raw);
        Written(after.positions) == WithoutStale(Written(UpsertAll(t.positions, input.slice, data)), input.slice, data)
      case Orders(raw) =>
        var data := OrderData(input.keys, raw);
        Written(after.orders) == WithoutStale(Written(UpsertAll(t.orders, input.slice, data)), input.slice, data)
      case Trades(raw) =>
        var data := TradeData(input.keys, raw);
        Written(after.trades) == WithoutStale(Written(UpsertAll(t.trades, input.slice, data)), input.slice, data)
      case _ => false
  {
    match content
    case Positions(raw) =>
      ReplaceRefinesUpsert(t.positions, input.slice, PositionData(input.keys, input.slice.market, raw));
    case Orders(raw) =>
      ReplaceRefinesUpsert(t.orders, input.slice, OrderData(input.keys, raw));
    case Trades(raw) =>
      ReplaceRefinesUpsert(t.trades, input.slice, TradeData(input.keys, raw));
    case _ =>
  }
}

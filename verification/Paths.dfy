/** Where a pulled trade-data file is kept on the local disk. */
module Paths {
  import opened Common

  datatype FileKind = FundFile | PositionFile | OrderFile | TradeFile

  function KindName(kind: FileKind): string {
    match kind
    case FundFile => "fund"
    case PositionFile => "position"
    case OrderFile => "order"
    case TradeFile => "trade"
  }

  function MarketName(market: Market): string {
    match market
    case SH => "SH" case SZ => "SZ" case SHFE => "SHFE" case CZCE => "CZCE" case DCE => "DCE"
    case CFFEX => "CFFEX" case GFEX => "GFEX" case STOCK_ALL => "STOCK_ALL" case INE => "INE"
    case CSI => "CSI" case CNI => "CNI" case BJ => "BJ" case SSE => "SSE"
  }

  function TaskName(task: OpsTaskType): string {
    match task
    case BEFORE_SYNC_FUND_ACCOUNT => "BEFORE_SYNC_FUND_ACCOUNT"
    case AFTER_SYNC_FUND_ACCOUNT => "AFTER_SYNC_FUND_ACCOUNT"
    case AFTER_SYNC_TRADE_DATA => "AFTER_SYNC_TRADE_DATA"
    case OTHER_TASK => "OTHER_TASK"
  }

  /** Every '-' is dropped. */
  function ToCompactTradeDay(tradeDay: string): string {
    if tradeDay == "" then ""
    else if tradeDay[0] == '-' then ToCompactTradeDay(tradeDay[1..])
    else [tradeDay[0]] + ToCompactTradeDay(tradeDay[1..])
  }

  /** Two texts with a separator between them. */
  function Sep(a: string, separator: char, b: string): string {
    a + ([separator] + b)
  }

  datatype FileParams = FileParams(
    brokerKey: string, account: string, tradeDay: string,
    kind: FileKind, market: Market, taskType: Option<OpsTaskType>)

  function FileName(kind: FileKind, market: Market, taskType: Option<OpsTaskType>): Result<string> {
    if kind == FundFile && taskType.None? then
      Err("fund snapshot path requires taskType")
    else if kind == FundFile then
      Ok(Sep(KindName(kind), '.', Sep(TaskName(taskType.value), '.', Sep(MarketName(market), '.', "json"))))
    else
      Ok(Sep(KindName(kind), '.', Sep(MarketName(market), '.', "json")))
  }

  /** Path segments put together; exact for segments that need no normalising (SafeName). */
  function Join(dir: string, brokerKey: string, account: string, day: string, file: string): string {
    Sep(dir, '/', Sep(brokerKey, '/', Sep(account, '/', Sep(day, '/', file))))
  }

  function LocalTradeDataFile(dir: string, p: FileParams): Result<string> {
    match FileName(p.kind, p.market, p.taskType)
    case Err(message) => Err(message)
    case Ok(name) => Ok(Join(dir, p.brokerKey, p.account, ToCompactTradeDay(p.tradeDay), name))
  }

  // ---- injectivity ------------------------------------------------------

  /** A path segment that joining neither splits nor removes. */
  predicate SafeName(s: string) {
    s != "" && s != "." && s != ".." && '/' !in s
  }

  /** The shape YYYY-MM-DD. */
  predicate DayShape(s: string) {
    && |s| == 10 && s[4] == '-' && s[7] == '-'
    && '-' !in s[..4] && '-' !in s[5..7] && '-' !in s[8..]
    && '/' !in s
  }

  /** A name before a separator can be read back. */
  lemma CutAt(a: string, x: string, b: string, y: string, separator: char)
    requires separator !in a && separator !in b
    requires Sep(a, separator, x) == Sep(b, separator, y)
    ensures a == b && x == y
  {
    var whole := Sep(a, separator, x);
    assert whole[|a|] == separator && whole[|b|] == separator;
    assert forall i | 0 <= i < |a| :: whole[i] == a[i];
    assert forall i | 0 <= i < |b| :: whole[i] == b[i];
    assert |a| == |b|;
    assert a == whole[..|a|] && b == whole[..|b|];
    assert x == whole[|a| + 1..] && y == whole[|b| + 1..];
  }

  lemma SameHead(a: string, x: string, y: string, separator: char)
    requires Sep(a, separator, x) == Sep(a, separator, y)
    ensures x == y
  {
    assert x == Sep(a, separator, x)[|a| + 1..] && y == Sep(a, separator, y)[|a| + 1..];
  }

  lemma {:induction false} CompactWithoutDash(s: string, t: string)
    requires '-' !in s
    ensures ToCompactTradeDay(s + t) == s + ToCompactTradeDay(t)
  {
    if s == "" {
      assert s + t == t;
    } else {
      assert (s + t)[1..] == s[1..] + t;
      CompactWithoutDash(s[1..], t);
    }
  }

  lemma CompactOfDay(s: string)
    requires DayShape(s)
    ensures ToCompactTradeDay(s) == s[..4] + (s[5..7] + s[8..])
  {
    assert s == s[..4] + (['-'] + (s[5..7] + (['-'] + s[8..])));
    CompactWithoutDash(s[..4], ['-'] + (s[5..7] + (['-'] + s[8..])));
    assert (['-'] + (s[5..7] + (['-'] + s[8..])))[1..] == s[5..7] + (['-'] + s[8..]);
    CompactWithoutDash(s[5..7], ['-'] + s[8..]);
    assert (['-'] + s[8..])[1..] == s[8..];
    CompactWithoutDash(s[8..], "");
    assert s[8..] + "" == s[8..];
  }

  /** Two trade days of the shape YYYY-MM-DD with one compact form are the same day. */
  lemma CompactInjective(a: string, b: string)
    requires DayShape(a) && DayShape(b)
    requires ToCompactTradeDay(a) == ToCompactTradeDay(b)
    ensures a == b
  {
    CompactOfDay(a);
    CompactOfDay(b);
    var c := ToCompactTradeDay(a);
    assert a[..4] == c[..4] == b[..4];
    assert a[5..7] == c[4..6] == b[5..7];
    assert a[8..] == c[6..] == b[8..];
    assert a == a[..4] + ['-'] + a[5..7] + ['-'] + a[8..];
    assert b == b[..4] + ['-'] + b[5..7] + ['-'] + b[8..];
  }

  lemma MarketNameInjective(a: Market, b: Market)
    requires MarketName(a) == MarketName(b)
    ensures a == b
  {
    assert |MarketName(a)| == |MarketName(b)|;
    assert MarketName(a)[0] == MarketName(b)[0] && MarketName(a)[1] == MarketName(b)[1];
  }

  lemma NamesHaveNoDot(kind: FileKind, market: Market, task: OpsTaskType)
    ensures '.' !in KindName(kind) && '.' !in MarketName(market) && '.' !in TaskName(task)
  {
  }

  lemma FileNameInjective(k: FileKind, m: Market, t: Option<OpsTaskType>,
                          k': FileKind, m': Market, t': Option<OpsTaskType>)
    requires FileName(k, m, t).Ok? && FileName(k, m, t) == FileName(k', m', t')
    ensures k == k' && m == m' && (k == FundFile ==> t == t')
  {
    var task, task' := if t.Some? then t.value else OTHER_TASK, if t'.Some? then t'.value else OTHER_TASK;
    NamesHaveNoDot(k, m, task);
    NamesHaveNoDot(k', m', task');
    var last, last' := Sep(MarketName(m), '.', "json"), Sep(MarketName(m'), '.', "json");
    var rest := if k == FundFile then Sep(TaskName(task), '.', last) else last;
    var rest' := if k' == FundFile then Sep(TaskName(task'), '.', last') else last';
    CutAt(KindName(k), rest, KindName(k'), rest', '.');
    assert KindName(k)[0] == KindName(k')[0];
    if k == FundFile {
      CutAt(TaskName(task), last, TaskName(task'), last', '.');
      TaskNameInjective(task, task');
    }
    CutAt(MarketName(m), "json", MarketName(m'), "json", '.');
    MarketNameInjective(m, m');
  }

  lemma TaskNameInjective(a: OpsTaskType, b: OpsTaskType)
    requires TaskName(a) == TaskName(b)
    ensures a == b
  {
    assert |TaskName(a)| == |TaskName(b)|;
  }

  /**
   The path as text: broker, account, the day without dashes, and a file named after the kind, for funds also the
   task type, and the market. Only a fund file without a task type is refused.
   */
  lemma PathText(dir: string, p: FileParams)
    requires DayShape(p.tradeDay)
    ensures LocalTradeDataFile(dir, p).Ok? <==> p.kind != FundFile || p.taskType.Some?
    ensures LocalTradeDataFile(dir, p).Ok? ==>
              var day := p.tradeDay[..4] + (p.tradeDay[5..7] + p.tradeDay[8..]);
              var market := if p.market == SH then "SH" else if p.market == SZ then "SZ" else MarketName(p.market);
              var ending := "." + (market + ("." + "json"));
              var name := if p.kind == PositionFile then "position" + ending
                          else if p.kind == OrderFile then "order" + ending
                          else if p.kind == TradeFile then "trade" + ending
                          else if p.taskType.value == BEFORE_SYNC_FUND_ACCOUNT
                          then "fund" + ("." + ("BEFORE_SYNC_FUND_ACCOUNT" + ending))
                          else if p.taskType.value == AFTER_SYNC_FUND_ACCOUNT
                          then "fund" + ("." + ("AFTER_SYNC_FUND_ACCOUNT" + ending))
                          else "fund" + ("." + (TaskName(p.taskType.value) + ending));
              LocalTradeDataFile(dir, p).value
              == dir + ("/" + (p.brokerKey + ("/" + (p.account + ("/" + (day + ("/" + name)))))))
  {
    CompactOfDay(p.tradeDay);
    hide ToCompactTradeDay, DayShape;
  }

  /** The trade-data units whose files can be told apart by path. */
  predicate SafeParams(p: FileParams) {
    SafeName(p.brokerKey) && SafeName(p.account) && DayShape(p.tradeDay)
  }

  /** Equal paths come from equal broker, account, day, kind and market, and for fund files from equal task types. */
  lemma PathInjective(dir: string, p: FileParams, q: FileParams)
    requires SafeParams(p) && SafeParams(q)
    requires LocalTradeDataFile(dir, p).Ok? && LocalTradeDataFile(dir, p) == LocalTradeDataFile(dir, q)
    ensures p.(taskType := None) == q.(taskType := None)
    ensures p.kind == FundFile ==> p.taskType == q.taskType
  {
    var f, g := FileName(p.kind, p.market, p.taskType).value, FileName(q.kind, q.market, q.taskType).value;
    var dp, dq := ToCompactTradeDay(p.tradeDay), ToCompactTradeDay(q.tradeDay);
    var p2, q2 := Sep(dp, '/', f), Sep(dq, '/', g);
    var p1, q1 := Sep(p.account, '/', p2), Sep(q.account, '/', q2);
    SameHead(dir, Sep(p.brokerKey, '/', p1), Sep(q.brokerKey, '/', q1), '/');
    CutAt(p.brokerKey, p1, q.brokerKey, q1, '/');
    CutAt(p.account, p2, q.account, q2, '/');
    CompactOfDay(p.tradeDay);
    CompactOfDay(q.tradeDay);
    CutAt(dp, f, dq, g, '/');
    CompactInjective(p.tradeDay, q.tradeDay);
    FileNameInjective(p.kind, p.market, p.taskType, q.kind, q.market, q.taskType);
  }

  lemma SepInside(a: string, x: char, b: string, y: char, tail: string)
    ensures Sep(a + [x] + b, y, tail) == Sep(a, x, Sep(b, y, tail))
  {
  }

  /** Without the restriction on names it fails: a '/' inside a broker key and inside an account give one path. */
  lemma UnsafeNamesCollide(dir: string, day: string, market: Market)
    ensures
      var p := FileParams("a/b", "c", day, PositionFile, market, None);
      var q := FileParams("a", "b/c", day, PositionFile, market, None);
      p != q && LocalTradeDataFile(dir, p) == LocalTradeDataFile(dir, q)
  {
    hide Sep;
    var tail := Sep(ToCompactTradeDay(day), '/', FileName(PositionFile, market, None).value);
    SepInside("a", '/', "b", '/', Sep("c", '/', tail));
    SepInside("b", '/', "c", '/', tail);
    assert "a" + ['/'] + "b" == "a/b" && "b" + ['/'] + "c" == "b/c";
  }
}

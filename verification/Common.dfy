/** Values shared by the whole model: the database's enumerations, option and result types. */
module Common {

  datatype Option<+T> = None | Some(value: T)

  datatype Result<+T> = Ok(value: T) | Err(message: string)

  datatype Market =
    | SH | SZ | SHFE | CZCE | DCE | CFFEX | GFEX | STOCK_ALL | INE | CSI | CNI | BJ | SSE

  /** Only the three task types that own trade data are told apart. */
  datatype OpsTaskType =
    | BEFORE_SYNC_FUND_ACCOUNT
    | AFTER_SYNC_FUND_ACCOUNT
    | AFTER_SYNC_TRADE_DATA
    | OTHER_TASK

  datatype TradeDataType = FUND | POSITION | ORDER | TRADE

  datatype Reason =
    | BEFORE_TRADING_DAY | AFTER_TRADING_DAY | MIDDLE_TRADING_DAY
    | SYNC | BEFORE_TRANSFER | AFTER_TRANSFER

  datatype Direction = IN | OUT

  datatype Side = BUY | SELL

  /** No element occurs twice. */
  ghost predicate Distinct<T>(s: seq<T>) {
    forall i, j :: 0 <= i < j < |s| ==> s[i] != s[j]
  }

  lemma FirstIsMember<T>(s: seq<T>)
    ensures s == [] || s[0] in s
  {
  }

  /** The elements of a sequence that satisfy a test, in order. */
  function Filter<T>(s: seq<T>, keep: T -> bool): (r: seq<T>)
    ensures |r| <= |s|
  {
    if s == [] then []
    else if keep(s[0]) then [s[0]] + Filter(s[1..], keep)
    else Filter(s[1..], keep)
  }

  lemma {:induction false} InFilter<T>(s: seq<T>, keep: T -> bool, x: T)
    ensures x in Filter(s, keep) <==> x in s && keep(x)
  {
    if s != [] {
      InFilter(s[1..], keep, x);
      assert x in s <==> x == s[0] || x in s[1..];
    }
  }

  lemma {:induction false} FilterAppend<T>(a: seq<T>, b: seq<T>, keep: T -> bool)
    ensures Filter(a + b, keep) == Filter(a, keep) + Filter(b, keep)
  {
    if a == [] {
      assert a + b == b;
    } else {
      assert (a + b)[1..] == a[1..] + b;
      FilterAppend(a[1..], b, keep);
    }
  }

  lemma {:induction false} FilterSame<T>(s: seq<T>, f: T -> bool, g: T -> bool)
    requires forall i :: 0 <= i < |s| ==> f(s[i]) == g(s[i])
    ensures Filter(s, f) == Filter(s, g)
  {
    if s != [] {
      assert forall i :: 0 <= i < |s[1..]| ==> s[1..][i] == s[i + 1];
      FilterSame(s[1..], f, g);
    }
  }

  /** Filtering twice by the same test is filtering once. */
  lemma {:induction false} FilterIdempotent<T>(s: seq<T>, keep: T -> bool)
    ensures Filter(Filter(s, keep), keep) == Filter(s, keep)
  {
    if s != [] {
      FilterIdempotent(s[1..], keep);
      if keep(s[0]) {
        assert ([s[0]] + Filter(s[1..], keep))[1..] == Filter(s[1..], keep);
      }
    }
  }
}

/**
 Closing prices: calcActualClosePrice carries the last non-zero close forward over days on which a
 security did not close, and the valuation reads what it left. Trade days are day numbers; that
 comparing the stored YYYY-MM-DD texts is comparing days is proved in module Dates.
 */
module Quotes {
  import opened Common

  datatype BriefKey = BriefKey(tradeDay: nat, ticker: string, market: Market)

  /** `actual` and `actualDate` are null until the day has been calculated. */
  datatype Brief = Brief(close: real, actual: Option<real>, actualDate: Option<nat>)

  type Briefs = map<BriefKey, Brief>

  // ---- queries -------------------------------------------------------------

  predicate ClosedOn(b: Briefs, ticker: string, market: Market, day: nat) {
    BriefKey(day, ticker, market) in b && b[BriefKey(day, ticker, market)].close != 0.0
  }

  /** `not: 0` excludes a null as well. */
  predicate ActualOn(b: Briefs, ticker: string, market: Market, day: nat) {
    && BriefKey(day, ticker, market) in b
    && var a := b[BriefKey(day, ticker, market)].actual; a.Some? && a.value != 0.0
  }

  /** The latest day before `day` with a non-zero close. */
  function LastClosed(b: Briefs, ticker: string, market: Market, day: nat): Option<nat> {
    if day == 0 then None
    else if ClosedOn(b, ticker, market, day - 1) then Some(day - 1)
    else LastClosed(b, ticker, market, day - 1)
  }

  /** The latest day before `day` whose actual close is set and not zero. */
  function LastActual(b: Briefs, ticker: string, market: Market, day: nat): Option<nat> {
    if day == 0 then None
    else if ActualOn(b, ticker, market, day - 1) then Some(day - 1)
    else LastActual(b, ticker, market, day - 1)
  }

  /** Some day qualifies and no later one before `day` does, or none does. */
  lemma {:induction false} LastClosedIsLatest(b: Briefs, ticker: string, market: Market, day: nat)
    ensures match LastClosed(b, ticker, market, day)
            case None => forall e :: 0 <= e < day ==> !ClosedOn(b, ticker, market, e)
            case Some(d) => d < day && ClosedOn(b, ticker, market, d)
                            && forall e :: d < e < day ==> !ClosedOn(b, ticker, market, e)
  {
    if day > 0 { LastClosedIsLatest(b, ticker, market, day - 1); }
  }

  // ---- what the calculation means -------------------------------------------

  /** The brief with its actual price: the day's own close, or the last non-zero one before. */
  function Filled(b: Briefs, k: BriefKey): Brief
    requires k in b
  {
    if b[k].close != 0.0 then b[k].(actual := Some(b[k].close), actualDate := Some(k.tradeDay))
    else
      match LastClosed(b, k.ticker, k.market, k.tradeDay)
      case None => b[k].(actual := None, actualDate := None)
      case Some(d) =>
        LastClosedIsLatest(b, k.ticker, k.market, k.tradeDay);
        b[k].(actual := Some(b[BriefKey(d, k.ticker, k.market)].close), actualDate := Some(d))
  }

  /** The day is the latest up to a bound on which the security has a brief with a close that is not zero. */
  ghost predicate LatestClose(b: Briefs, ticker: string, market: Market, bound: int, d: nat) {
    && d <= bound && BriefKey(d, ticker, market) in b && b[BriefKey(d, ticker, market)].close != 0.0
    && forall e :: d < e <= bound && BriefKey(e, ticker, market) in b ==> b[BriefKey(e, ticker, market)].close == 0.0
  }

  /** There is no such day. */
  ghost predicate NoClose(b: Briefs, ticker: string, market: Market, bound: int) {
    forall e: nat :: e <= bound && BriefKey(e, ticker, market) in b ==> b[BriefKey(e, ticker, market)].close == 0.0
  }

  /** The brief as it was, with the latest close up to its day and the day of it, if there is one. */
  ghost predicate CarriesClose(q: Brief, b: Briefs, k: BriefKey)
    requires k in b
  {
    && q.close == b[k].close
    && if NoClose(b, k.ticker, k.market, k.tradeDay) then q.actual == None && q.actualDate == None
       else
         && q.actualDate.Some? && LatestClose(b, k.ticker, k.market, k.tradeDay, q.actualDate.value)
         && q.actual == Some(b[BriefKey(q.actualDate.value, k.ticker, k.market)].close)
  }

  lemma FilledCarries(b: Briefs, k: BriefKey)
    requires k in b
    ensures CarriesClose(Filled(b, k), b, k)
  {
    LastClosedIsLatest(b, k.ticker, k.market, k.tradeDay);
    assert BriefKey(k.tradeDay, k.ticker, k.market) == k;
    if b[k].close == 0.0 {
      match LastClosed(b, k.ticker, k.market, k.tradeDay)
      case None =>
        forall e: nat | e <= k.tradeDay && BriefKey(e, k.ticker, k.market) in b
          ensures b[BriefKey(e, k.ticker, k.market)].close == 0.0
        {
          assert e < k.tradeDay ==> !ClosedOn(b, k.ticker, k.market, e);
        }
      case Some(d) =>
        forall e | d < e <= k.tradeDay && BriefKey(e, k.ticker, k.market) in b
          ensures b[BriefKey(e, k.ticker, k.market)].close == 0.0
        {
          assert e < k.tradeDay ==> !ClosedOn(b, k.ticker, k.market, e);
        }
    }
  }

  lemma LastClosedSplits(b: Briefs, ticker: string, market: Market, day: nat)
    ensures match LastClosed(b, ticker, market, day)
            case None => NoClose(b, ticker, market, day - 1)
            case Some(d) => LatestClose(b, ticker, market, day - 1, d)
  {
    LastClosedIsLatest(b, ticker, market, day);
    match LastClosed(b, ticker, market, day)
    case None =>
      forall e: nat | e <= day - 1 && BriefKey(e, ticker, market) in b
        ensures b[BriefKey(e, ticker, market)].close == 0.0
      {
        assert !ClosedOn(b, ticker, market, e);
      }
    case Some(d) =>
      forall e | d < e <= day - 1 && BriefKey(e, ticker, market) in b
        ensures b[BriefKey(e, ticker, market)].close == 0.0
      {
        assert !ClosedOn(b, ticker, market, e);
      }
  }

  /** All briefs of one day are calculated. */
  function FillDay(b: Briefs, day: nat): Briefs {
    map k | k in b :: if k.tradeDay == day then Filled(b, k) else b[k]
  }

  function FillDays(b: Briefs, days: seq<nat>): Briefs {
    if days == [] then b else FillDay(FillDays(b, days[..|days| - 1]), days[|days| - 1])
  }

  ghost predicate SameCloses(a: Briefs, b: Briefs) {
    a.Keys == b.Keys && forall k :: k in a ==> a[k].close == b[k].close
  }

  lemma {:induction false} LastClosedSame(a: Briefs, b: Briefs, ticker: string, market: Market, day: nat)
    requires SameCloses(a, b)
    ensures LastClosed(a, ticker, market, day) == LastClosed(b, ticker, market, day)
  {
    if day > 0 { LastClosedSame(a, b, ticker, market, day - 1); }
  }

  /** The calculation depends on closes only. */
  lemma FilledSame(a: Briefs, b: Briefs, k: BriefKey)
    requires SameCloses(a, b) && k in a
    ensures Filled(a, k) == Filled(b, k) && Filled(a, k).close == b[k].close
  {
    LastClosedSame(a, b, k.ticker, k.market, k.tradeDay);
    LastClosedIsLatest(a, k.ticker, k.market, k.tradeDay);
  }

  /** The briefs of the day are calculated but for those that are still to do. */
  ghost predicate PartlyFilled(b: Briefs, before: Briefs, day: nat, todo: set<BriefKey>) {
    && b.Keys == before.Keys && (forall k :: k in todo ==> k in b && k.tradeDay == day)
    && forall k :: k in b ==> b[k] == if k.tradeDay == day && k !in todo then Filled(before, k) else before[k]
  }

  lemma NoneFilled(b: Briefs, day: nat, todo: set<BriefKey>)
    requires todo == set k | k in b && k.tradeDay == day
    ensures PartlyFilled(b, b, day, todo)
  {
  }

  lemma OneMoreFilled(b: Briefs, before: Briefs, day: nat, todo: set<BriefKey>, k: BriefKey)
    requires PartlyFilled(b, before, day, todo) && k in todo
    ensures k in b && PartlyFilled(b[k := Filled(b, k)], before, day, todo - {k})
  {
    assert SameCloses(b, before);
    FilledSame(b, before, k);
  }

  lemma AllFilled(b: Briefs, before: Briefs, day: nat)
    requires PartlyFilled(b, before, day, {})
    ensures b == FillDay(before, day) && b.Keys == before.Keys
    ensures forall k :: k in b ==>
              if k.tradeDay == day then CarriesClose(b[k], before, k) else b[k] == before[k]
  {
    forall k | k in before
      ensures CarriesClose(Filled(before, k), before, k)
    {
      FilledCarries(before, k);
    }
  }

  /** Days calculated in any order, any number of times: each listed day has its value, the others are untouched. */
  lemma {:induction false} FillDaysExact(b: Briefs, days: seq<nat>)
    ensures SameCloses(FillDays(b, days), b)
    ensures forall k :: k in b ==> FillDays(b, days)[k] == if k.tradeDay in days then Filled(b, k) else b[k]
  {
    if days != [] {
      var before, day := days[..|days| - 1], days[|days| - 1];
      FillDaysExact(b, before);
      var a := FillDays(b, before);
      forall k | k in b
        ensures FillDays(b, days)[k] == if k.tradeDay in days then Filled(b, k) else b[k]
      {
        FilledSame(a, b, k);
        assert k.tradeDay in days <==> k.tradeDay in before || k.tradeDay == day;
      }
    }
  }

  /** Recalculating does not matter: two lists of the same days give the same table. */
  lemma OrderDoesNotMatter(b: Briefs, days: seq<nat>, others: seq<nat>)
    requires forall d :: d in days <==> d in others
    ensures FillDays(b, days) == FillDays(b, others)
  {
    FillDaysExact(b, days);
    FillDaysExact(b, others);
  }

  // ---- what the valuation reads -----------------------------------------------

  /** The brief a position is valued by, without the cache: the day's own, or the last one with an actual price. */
  function Lookup(b: Briefs, ticker: string, market: Market, day: nat): Option<Brief> {
    if BriefKey(day, ticker, market) in b then Some(b[BriefKey(day, ticker, market)])
    else PastLookup(b, ticker, market, day)
  }

  /** The database query behind a cache miss. */
  function PastLookup(b: Briefs, ticker: string, market: Market, day: nat): Option<Brief> {
    match LastActual(b, ticker, market, day)
    case None => None
    case Some(d) => LastActualIsThere(b, ticker, market, day); Some(b[BriefKey(d, ticker, market)])
  }

  lemma {:induction false} LastActualIsThere(b: Briefs, ticker: string, market: Market, day: nat)
    ensures match LastActual(b, ticker, market, day)
            case None => forall e :: 0 <= e < day ==> !ActualOn(b, ticker, market, e)
            case Some(d) => d < day && ActualOn(b, ticker, market, d)
                            && forall e :: d < e < day ==> !ActualOn(b, ticker, market, e)
  {
    if day > 0 { LastActualIsThere(b, ticker, market, day - 1); }
  }

  /** A missing price counts as zero. */
  function PriceOf(q: Brief): real {
    if q.actual.Some? then q.actual.value else 0.0
  }

  /** The close of the latest day up to and including `day` that has a non-zero one; 0 if there is none. */
  function LastClose(b: Briefs, ticker: string, market: Market, day: nat): real {
    match LastClosed(b, ticker, market, day + 1)
    case None => 0.0
    case Some(d) => LastClosedIsLatest(b, ticker, market, day + 1); b[BriefKey(d, ticker, market)].close
  }

  /** The calculation has been done for every day up to `day`. */
  ghost predicate FilledUpTo(b: Briefs, day: nat) {
    forall k :: k in b && k.tradeDay <= day ==> b[k] == Filled(b, k)
  }

  lemma FillingEveryDay(b: Briefs, days: seq<nat>, day: nat)
    requires forall d :: 0 <= d <= day ==> d in days
    ensures FilledUpTo(FillDays(b, days), day)
  {
    FillDaysExact(b, days);
    var a := FillDays(b, days);
    forall k | k in a && k.tradeDay <= day
      ensures a[k] == Filled(a, k)
    {
      FilledSame(a, b, k);
    }
  }

  /** On a filled table the last actual price is the last non-zero close. */
  lemma {:induction false} ActualIsClose(b: Briefs, ticker: string, market: Market, day: nat)
    requires forall k :: k in b && k.tradeDay < day ==> b[k] == Filled(b, k)
    ensures LastActual(b, ticker, market, day).Some? <==> LastClosed(b, ticker, market, day).Some?
    ensures LastActual(b, ticker, market, day).Some? ==>
              var d, e := LastActual(b, ticker, market, day).value, LastClosed(b, ticker, market, day).value;
              var k, l := BriefKey(d, ticker, market), BriefKey(e, ticker, market);
              k in b && l in b && b[k].actual == Some(b[l].close) && b[k].actualDate == Some(e)
  {
    LastActualIsThere(b, ticker, market, day);
    LastClosedIsLatest(b, ticker, market, day);
    if day > 0 {
      ActualIsClose(b, ticker, market, day - 1);
      var k := BriefKey(day - 1, ticker, market);
      LastClosedIsLatest(b, ticker, market, day - 1);
      if k in b {
        assert b[k] == Filled(b, k);
      }
    }
  }

  /**
   Once every day up to `day` is calculated, a position is valued by the last non-zero close up to that
   day, or by 0 when the day has a brief and there is no such close; and it is valued exactly when the
   day has a brief or an earlier non-zero close exists.
   */
  lemma ValuedByLastClose(b: Briefs, ticker: string, market: Market, day: nat)
    requires FilledUpTo(b, day)
    ensures Lookup(b, ticker, market, day).Some? <==>
            BriefKey(day, ticker, market) in b || exists d :: 0 <= d < day && ClosedOn(b, ticker, market, d)
    ensures Lookup(b, ticker, market, day).Some? ==>
              && PriceOf(Lookup(b, ticker, market, day).value) == LastClose(b, ticker, market, day)
              && Lookup(b, ticker, market, day).value.actualDate == LastClosed(b, ticker, market, day + 1)
  {
    ActualIsClose(b, ticker, market, day);
    LastClosedIsLatest(b, ticker, market, day);
    LastClosedIsLatest(b, ticker, market, day + 1);
    var k := BriefKey(day, ticker, market);
    if k in b {
      assert b[k] == Filled(b, k);
    }
  }

  /**
   The same on its own terms: the brief used says the close of the latest day up to `day` that has one that is
   not zero, and that day; without such a day it says zero, and is there only if the day has a brief.
   */
  lemma ValuedInFull(b: Briefs, ticker: string, market: Market, day: nat)
    requires FilledUpTo(b, day)
    ensures NoClose(b, ticker, market, day) ==>
              && (Lookup(b, ticker, market, day).Some? <==> BriefKey(day, ticker, market) in b)
              && (Lookup(b, ticker, market, day).Some? ==>
                    var q := Lookup(b, ticker, market, day).value; PriceOf(q) == 0.0 && q.actualDate == None)
    ensures !NoClose(b, ticker, market, day) ==>
              && Lookup(b, ticker, market, day).Some?
              && var q := Lookup(b, ticker, market, day).value;
                 && q.actualDate.Some? && LatestClose(b, ticker, market, day, q.actualDate.value)
                 && PriceOf(q) == b[BriefKey(q.actualDate.value, ticker, market)].close
  {
    hide Lookup, PriceOf, FilledUpTo, LastClosed;
    ValuedByLastClose(b, ticker, market, day);
    LastClosedSplits(b, ticker, market, day + 1);
    LastClosedSplits(b, ticker, market, day);
    EarlierClose(b, ticker, market, day);
  }

  lemma EarlierClose(b: Briefs, ticker: string, market: Market, day: nat)
    ensures (exists d :: 0 <= d < day && ClosedOn(b, ticker, market, d)) <==> !NoClose(b, ticker, market, day - 1)
    ensures BriefKey(day, ticker, market) !in b ==>
              (NoClose(b, ticker, market, day) <==> NoClose(b, ticker, market, day - 1))
  {
    if !NoClose(b, ticker, market, day - 1) {
      var e: nat :| e <= day - 1 && BriefKey(e, ticker, market) in b && b[BriefKey(e, ticker, market)].close != 0.0;
      assert ClosedOn(b, ticker, market, e);
    }
    if exists d :: 0 <= d < day && ClosedOn(b, ticker, market, d) {
      var d: nat :| d < day && ClosedOn(b, ticker, market, d);
      assert b[BriefKey(d, ticker, market)].close != 0.0;
    }
  }

  // ---- the code ------------------------------------------------------------

  class QuoteService {
    var briefs: Briefs

    constructor (briefs: Briefs)
      ensures this.briefs == briefs
    {
      this.briefs := briefs;
    }

    /** A brief of the day with what is to be stored as its actual close. */
    method Calculated(k: BriefKey) returns (r: Brief)
      requires k in briefs
      ensures CarriesClose(r, briefs, k) && r == Filled(briefs, k)
    {
      FilledCarries(briefs, k);
      hide CarriesClose;
      var q := briefs[k];
      if q.close == 0.0 {
        LastClosedIsLatest(briefs, k.ticker, k.market, k.tradeDay);
        match LastClosed(briefs, k.ticker, k.market, k.tradeDay) {
          case Some(d) => r := q.(actual := Some(briefs[BriefKey(d, k.ticker, k.market)].close), actualDate := Some(d));
          case None => r := q.(actual := None, actualDate := None);
        }
      } else {
        r := q.(actual := Some(q.close), actualDate := Some(k.tradeDay));
      }
    }

    /** Each brief of the day is updated in turn, whatever order the query returns them in. */
    method CalcActualClosePrice(day: nat)
      modifies this
      ensures briefs.Keys == old(briefs).Keys
      ensures forall k :: k in briefs ==>
                if k.tradeDay == day then CarriesClose(briefs[k], old(briefs), k) else briefs[k] == old(briefs)[k]
      ensures briefs == FillDay(old(briefs), day)
    {
      hide CarriesClose, PartlyFilled;
      var todo := set k | k in briefs && k.tradeDay == day;
      NoneFilled(briefs, day, todo);
      while todo != {}
        invariant PartlyFilled(briefs, old(briefs), day, todo)
        decreases |todo|
      {
        var k :| k in todo;
        OneMoreFilled(briefs, old(briefs), day, todo, k);
        var q := Calculated(k);
        briefs := briefs[k := q];
        todo := todo - {k};
      }
      AllFilled(briefs, old(briefs), day);
    }
  }
}

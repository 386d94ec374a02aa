/**
 MarketValueService: accounts are valued side by side and share one cache of briefs, keyed by wind
 code. A computation runs from one await to the next; the computations of a batch interleave freely.
 */
module MarketValue {
  import opened Common
  import opened Quotes

  datatype Position = Position(ticker: string, market: Market, totalQty: int)

  datatype RowKey = RowKey(tradeDay: nat, fundAccount: string, ticker: string, market: Market)

  datatype MarketValueRow = MarketValueRow(
    position: int, value: real, close_price: real, close_price_date: Option<nat>)

  type Cache = map<string, Option<Brief>>

  type Rows = map<RowKey, MarketValueRow>

  /** Every market but SH is written as SZ. */
  function WindCode(ticker: string, market: Market): string {
    ticker + (if market == SH then ".SH" else ".SZ")
  }

  predicate ShSz(market: Market) {
    market == SH || market == SZ
  }

  lemma WindCodeInjective(t: string, m: Market, u: string, n: Market)
    requires (m == SH || m == SZ) && (n == SH || n == SZ) && WindCode(t, m) == WindCode(u, n)
    ensures t == u && m == n
  {
    var c := WindCode(t, m);
    assert |t| == |c| - 3 == |u|;
    assert t == c[..|c| - 3] && u == c[..|c| - 3];
    assert c[|c| - 1] == (if m == SH then 'H' else 'Z');
    assert c[|c| - 1] == (if n == SH then 'H' else 'Z');
  }

  /** Outside SH and SZ the code is shared: a BJ security and an SZ security with one ticker are one entry. */
  lemma OtherMarketsCollide(ticker: string)
    ensures WindCode(ticker, BJ) == WindCode(ticker, SZ)
  {
  }

  /** The imported briefs are of SH and SZ only. */
  ghost predicate OnlyShSz(b: Briefs) {
    forall k :: k in b ==> k.market == SH || k.market == SZ
  }

  /** Every entry is what the uncached lookup for the day would answer, nulls included. */
  ghost predicate CacheOk(cache: Cache, b: Briefs, day: nat) {
    forall t, m :: ShSz(m) && WindCode(t, m) in cache ==> cache[WindCode(t, m)] == Lookup(b, t, m, day)
  }

  /** The day's own briefs are all entered, so a miss means that the day has none. */
  ghost predicate CacheBuilt(cache: Cache, b: Briefs, day: nat) {
    forall t, m :: BriefKey(day, t, m) in b ==> WindCode(t, m) in cache
  }

  /** The row a position leaves, if it is valued. */
  function Expected(b: Briefs, p: Position, day: nat): Option<MarketValueRow> {
    match Lookup(b, p.ticker, p.market, day)
    case None => None
    case Some(q) => Some(ValuedRow(p, q))
  }

  function ValuedRow(p: Position, q: Brief): MarketValueRow {
    MarketValueRow(p.totalQty, PriceOf(q) * p.totalQty as real, PriceOf(q), q.actualDate)
  }

  // ---- one account --------------------------------------------------------------

  /** Before a position, waiting for the query behind a cache miss, waiting for the upsert of a row, done. */
  datatype Phase = Ready | Querying | Writing(answer: Option<Brief>) | Settled(failed: bool)

  datatype Calc = Calc(account: string, positions: seq<Position>, next: nat, phase: Phase)

  datatype System = System(cache: Cache, rows: Rows, calcs: seq<Calc>)

  ghost predicate ValidCalc(c: Calc) {
    && c.next <= |c.positions|
    && (c.phase == Querying || c.phase.Writing? ==> c.next < |c.positions|)
    && (c.phase == Settled(false) ==> c.next == |c.positions|)
    && forall i :: 0 <= i < |c.positions| ==> ShSz(c.positions[i].market)
  }

  function KeyFor(c: Calc, p: Position, day: nat): RowKey {
    RowKey(day, c.account, p.ticker, p.market)
  }

  function WriteRow(rows: Rows, key: RowKey, p: Position, answer: Option<Brief>): Rows {
    match answer
    case None => rows
    case Some(q) => rows[key := ValuedRow(p, q)]
  }

  /**
   One turn of a computation, from one await to the next: the cache is asked, a miss is queried, the query's
   answer is entered and the row is upserted, each a turn of its own. A turn may fail, which settles the
   computation; an upsert that fails leaves the entry in the cache.
   */
  function Turn(s: System, i: nat, fails: bool, b: Briefs, day: nat): System
    requires i < |s.calcs| && ValidCalc(s.calcs[i])
  {
    var c := s.calcs[i];
    if c.phase.Settled? then s
    else if fails then s.(calcs := s.calcs[i := c.(phase := Settled(true))])
    else if c.next == |c.positions| then s.(calcs := s.calcs[i := c.(phase := Settled(false))])
    else
      var p := c.positions[c.next];
      var code := WindCode(p.ticker, p.market);
      match c.phase
      case Ready =>
        s.(calcs := s.calcs[i := c.(phase := if code in s.cache then Writing(s.cache[code]) else Querying)])
      case Querying =>
        var answer := PastLookup(b, p.ticker, p.market, day);
        s.(cache := s.cache[code := answer], calcs := s.calcs[i := c.(phase := Writing(answer))])
      case Writing(answer) =>
        s.(rows := WriteRow(s.rows, KeyFor(c, p, day), p, answer),
           calcs := s.calcs[i := c.(phase := Ready, next := c.next + 1)])
  }

  ghost predicate ValidSystem(s: System) {
    && (forall i :: 0 <= i < |s.calcs| ==> ValidCalc(s.calcs[i]))
    && (forall i, j :: 0 <= i < j < |s.calcs| ==> s.calcs[i].account != s.calcs[j].account)
    && forall i, p, q :: 0 <= i < |s.calcs| && 0 <= p < q < |s.calcs[i].positions| ==>
         s.calcs[i].positions[p].(totalQty := 0) != s.calcs[i].positions[q].(totalQty := 0)
  }

  /** A computation has valued its first `next` positions as the uncached lookup would. */
  ghost predicate Valued(s: System, before: Rows, b: Briefs, day: nat, i: nat)
    requires i < |s.calcs| && ValidCalc(s.calcs[i])
  {
    var c := s.calcs[i];
    forall j :: 0 <= j < |c.positions| ==> PositionValued(s.rows, before, b, day, c, j)
  }

  ghost predicate PositionValued(rows: Rows, before: Rows, b: Briefs, day: nat, c: Calc, j: nat)
    requires j < |c.positions|
  {
    var key, expected := KeyFor(c, c.positions[j], day), Expected(b, c.positions[j], day);
    if j < c.next && expected.Some? then key in rows && rows[key] == expected.value
    else SameRow(rows, before, key)
  }

  /** A querying computation found no brief of the day for its position. */
  ghost predicate MissIsReal(s: System, b: Briefs, day: nat, i: nat)
    requires i < |s.calcs| && ValidCalc(s.calcs[i])
  {
    var c := s.calcs[i];
    c.phase == Querying ==>
      BriefKey(day, c.positions[c.next].ticker, c.positions[c.next].market) !in b
  }

  /** A computation about to write holds what the uncached lookup answers. */
  ghost predicate AnswerIsTrue(s: System, b: Briefs, day: nat, i: nat)
    requires i < |s.calcs| && ValidCalc(s.calcs[i])
  {
    var c := s.calcs[i];
    c.phase.Writing? ==> var p := c.positions[c.next]; c.phase.answer == Lookup(b, p.ticker, p.market, day)
  }

  ghost predicate SystemOk(s: System, before: Rows, b: Briefs, day: nat) {
    && ValidSystem(s) && CacheOk(s.cache, b, day) && CacheBuilt(s.cache, b, day)
    && OtherAccountsSame(s, before)
    && forall i :: 0 <= i < |s.calcs| ==>
         Valued(s, before, b, day, i) && MissIsReal(s, b, day, i) && AnswerIsTrue(s, b, day, i)
  }

  ghost predicate SameRow(a: Rows, b: Rows, key: RowKey) {
    (key in a <==> key in b) && (key in a ==> a[key] == b[key])
  }

  /** Rows of accounts outside the batch are untouched. */
  ghost predicate OtherAccountsSame(s: System, before: Rows) {
    forall key: RowKey :: (forall i :: 0 <= i < |s.calcs| ==> s.calcs[i].account != key.fundAccount) ==>
      SameRow(s.rows, before, key)
  }

  lemma EntryKeepsCacheOk(cache: Cache, b: Briefs, day: nat, ticker: string, market: Market)
    requires CacheOk(cache, b, day) && ShSz(market)
    ensures CacheOk(cache[WindCode(ticker, market) := Lookup(b, ticker, market, day)], b, day)
  {
    var code := WindCode(ticker, market);
    forall t, m | ShSz(m) && WindCode(t, m) == code
      ensures t == ticker && m == market
    {
      WindCodeInjective(t, m, ticker, market);
    }
  }

  /** What an answer is: cached, queried or about to be written, it is the uncached lookup. */
  lemma AnswerIsLookup(s: System, i: nat, before: Rows, b: Briefs, day: nat)
    requires SystemOk(s, before, b, day) && i < |s.calcs| && !s.calcs[i].phase.Settled?
    requires s.calcs[i].next < |s.calcs[i].positions|
    ensures var c := s.calcs[i];
            var p := c.positions[c.next];
            var code := WindCode(p.ticker, p.market);
            && (c.phase == Ready && code in s.cache ==> s.cache[code] == Lookup(b, p.ticker, p.market, day))
            && (c.phase == Querying ==> PastLookup(b, p.ticker, p.market, day) == Lookup(b, p.ticker, p.market, day))
            && (c.phase == Ready && code !in s.cache ==> BriefKey(day, p.ticker, p.market) !in b)
            && (c.phase.Writing? ==> c.phase.answer == Lookup(b, p.ticker, p.market, day))
  {
    var c := s.calcs[i];
    assert ValidCalc(c) && MissIsReal(s, b, day, i) && AnswerIsTrue(s, b, day, i);
    assert ShSz(c.positions[c.next].market);
  }

  lemma RowOfOther(s: System, i: nat, j: nat, p: nat, q: nat, day: nat)
    requires ValidSystem(s) && i < |s.calcs| && j < |s.calcs|
    requires p < |s.calcs[i].positions| && q < |s.calcs[j].positions| && (i != j || p != q)
    ensures KeyFor(s.calcs[i], s.calcs[i].positions[p], day) != KeyFor(s.calcs[j], s.calcs[j].positions[q], day)
  {
    if i == j {
      var a, c := s.calcs[i].positions[p], s.calcs[i].positions[q];
      assert a.(totalQty := 0) != c.(totalQty := 0);
    } else {
      assert s.calcs[i].account != s.calcs[j].account;
    }
  }

  lemma OthersValued(s: System, r: System, i: nat, j: nat, before: Rows, b: Briefs, day: nat)
    requires ValidSystem(s) && ValidSystem(r) && i < |s.calcs| == |r.calcs| && j < |s.calcs| && i != j
    requires Valued(s, before, b, day, j) && r.calcs[j] == s.calcs[j] && s.calcs[i].next < |s.calcs[i].positions|
    requires var c := s.calcs[i]; var key := KeyFor(c, c.positions[c.next], day);
             forall k :: k != key ==> SameRow(r.rows, s.rows, k)
    ensures Valued(r, before, b, day, j)
  {
    forall q | 0 <= q < |r.calcs[j].positions|
      ensures PositionValued(r.rows, before, b, day, r.calcs[j], q)
    {
      assert PositionValued(s.rows, before, b, day, s.calcs[j], q);
      RowOfOther(s, i, j, s.calcs[i].next, q, day);
      assert SameRow(r.rows, s.rows, KeyFor(r.calcs[j], r.calcs[j].positions[q], day));
    }
  }

  lemma OwnValued(s: System, r: System, i: nat, before: Rows, b: Briefs, day: nat)
    requires ValidSystem(s) && ValidSystem(r) && i < |s.calcs| == |r.calcs| && Valued(s, before, b, day, i)
    requires s.calcs[i].next < |s.calcs[i].positions|
    requires r.calcs[i] == s.calcs[i].(phase := Ready, next := s.calcs[i].next + 1)
    requires var c := s.calcs[i]; var p := c.positions[c.next];
             r.rows == WriteRow(s.rows, KeyFor(c, p, day), p, Lookup(b, p.ticker, p.market, day))
    ensures Valued(r, before, b, day, i)
  {
    forall q | 0 <= q < |r.calcs[i].positions|
      ensures PositionValued(r.rows, before, b, day, r.calcs[i], q)
    {
      assert PositionValued(s.rows, before, b, day, s.calcs[i], q);
      if q != s.calcs[i].next {
        RowOfOther(s, i, i, s.calcs[i].next, q, day);
      }
    }
  }

  /** Every turn of every computation keeps the cache transparent and the rows exact. */
  lemma TurnKeepsOk(s: System, i: nat, fails: bool, before: Rows, b: Briefs, day: nat)
    requires SystemOk(s, before, b, day) && i < |s.calcs|
    ensures SystemOk(Turn(s, i, fails, b, day), before, b, day)
    ensures |Turn(s, i, fails, b, day).calcs| == |s.calcs|
  {
    var r := Turn(s, i, fails, b, day);
    var c := s.calcs[i];
    if !c.phase.Settled? && !fails && c.next < |c.positions| {
      AnswerIsLookup(s, i, before, b, day);
      var p := c.positions[c.next];
      assert ValidCalc(c) && ShSz(p.market);
      if c.phase.Writing? {
        PositionDone(s, r, i, before, b, day);
      } else {
        EntryKeepsCacheOk(s.cache, b, day, p.ticker, p.market);
        OnlyPhaseChanged(s, r, i, before, b, day);
      }
    } else {
      OnlyPhaseChanged(s, r, i, before, b, day);
    }
  }

  lemma OnlyPhaseChanged(s: System, r: System, i: nat, before: Rows, b: Briefs, day: nat)
    requires SystemOk(s, before, b, day) && i < |s.calcs|
    requires |r.calcs| == |s.calcs| && r.calcs == s.calcs[i := s.calcs[i].(phase := r.calcs[i].phase)]
    requires r.rows == s.rows && CacheOk(r.cache, b, day) && CacheBuilt(r.cache, b, day)
    requires ValidCalc(r.calcs[i]) && MissIsReal(r, b, day, i) && AnswerIsTrue(r, b, day, i)
    ensures SystemOk(r, before, b, day)
  {
    assert forall j :: 0 <= j < |s.calcs| ==> s.calcs[j].account == r.calcs[j].account;
    forall j | 0 <= j < |r.calcs|
      ensures ValidCalc(r.calcs[j]) && Valued(r, before, b, day, j)
      ensures MissIsReal(r, b, day, j) && AnswerIsTrue(r, b, day, j)
    {
      assert Valued(s, before, b, day, j) && MissIsReal(s, b, day, j) && AnswerIsTrue(s, b, day, j);
      forall q | 0 <= q < |r.calcs[j].positions|
        ensures PositionValued(r.rows, before, b, day, r.calcs[j], q)
      {
        assert PositionValued(s.rows, before, b, day, s.calcs[j], q);
      }
    }
  }

  lemma PositionDone(s: System, r: System, i: nat, before: Rows, b: Briefs, day: nat)
    requires SystemOk(s, before, b, day) && i < |s.calcs| && s.calcs[i].next < |s.calcs[i].positions|
    requires var c := s.calcs[i];
             var p := c.positions[c.next];
             && r.cache == s.cache
             && r.rows == WriteRow(s.rows, KeyFor(c, p, day), p, Lookup(b, p.ticker, p.market, day))
             && r.calcs == s.calcs[i := c.(phase := Ready, next := c.next + 1)]
    ensures SystemOk(r, before, b, day)
  {
    assert ValidSystem(r);
    forall key: RowKey | forall j :: 0 <= j < |r.calcs| ==> r.calcs[j].account != key.fundAccount
      ensures SameRow(r.rows, before, key)
    {
      assert forall j :: 0 <= j < |s.calcs| ==> s.calcs[j].account == r.calcs[j].account;
      assert SameRow(s.rows, before, key);
    }
    forall j | 0 <= j < |r.calcs|
      ensures Valued(r, before, b, day, j) && MissIsReal(r, b, day, j) && AnswerIsTrue(r, b, day, j)
    {
      assert Valued(s, before, b, day, j) && MissIsReal(s, b, day, j) && AnswerIsTrue(s, b, day, j);
      if j == i {
        OwnValued(s, r, i, before, b, day);
      } else {
        OthersValued(s, r, i, j, before, b, day);
      }
    }
  }

  // ---- a batch -------------------------------------------------------------------

  datatype TurnOf = TurnOf(who: nat, fails: bool)

  /** An interleaving is any sequence of turns, each of which may fail. */
  ghost function Interleave(s: System, schedule: seq<TurnOf>, b: Briefs, day: nat): System {
    if schedule == [] then s
    else
      var before, t := Interleave(s, schedule[..|schedule| - 1], b, day), schedule[|schedule| - 1];
      if t.who < |before.calcs| && ValidCalc(before.calcs[t.who]) then Turn(before, t.who, t.fails, b, day)
      else before
  }

  /** In every interleaving every cached answer is the uncached lookup and every row written is exact. */
  lemma {:induction false} EveryInterleavingOk(s: System, schedule: seq<TurnOf>, before: Rows, b: Briefs, day: nat)
    requires SystemOk(s, before, b, day)
    ensures SystemOk(Interleave(s, schedule, b, day), before, b, day)
    decreases |schedule|
  {
    if schedule != [] {
      var t := schedule[|schedule| - 1];
      EveryInterleavingOk(s, schedule[..|schedule| - 1], before, b, day);
      var r := Interleave(s, schedule[..|schedule| - 1], b, day);
      if t.who < |r.calcs| {
        TurnKeepsOk(r, t.who, t.fails, before, b, day);
      }
    }
  }

  // ---- what the cache saves ------------------------------------------------------

  /** Every security that is valued, or about to be, has its answer in the cache. */
  ghost predicate AnswersCached(s: System) {
    forall i, j :: 0 <= i < |s.calcs| && 0 <= j < |s.calcs[i].positions|
                   && (j < s.calcs[i].next || (j == s.calcs[i].next && s.calcs[i].phase.Writing?)) ==>
      WindCode(s.calcs[i].positions[j].ticker, s.calcs[i].positions[j].market) in s.cache
  }

  /** A turn forgets no answer, and makes a query only for a security without one. */
  lemma TurnUsesCache(s: System, i: nat, fails: bool, b: Briefs, day: nat)
    requires AnswersCached(s) && i < |s.calcs| && ValidCalc(s.calcs[i])
    ensures var r := Turn(s, i, fails, b, day);
            && AnswersCached(r) && s.cache.Keys <= r.cache.Keys && |r.calcs| == |s.calcs|
            && (r.calcs[i].phase == Querying && s.calcs[i].phase == Ready ==>
                  var p := s.calcs[i].positions[s.calcs[i].next]; WindCode(p.ticker, p.market) !in s.cache)
  {
    hide WindCode, PastLookup, WriteRow;
    var r := Turn(s, i, fails, b, day);
    forall k, j | 0 <= k < |r.calcs| && 0 <= j < |r.calcs[k].positions|
                  && (j < r.calcs[k].next || (j == r.calcs[k].next && r.calcs[k].phase.Writing?))
      ensures WindCode(r.calcs[k].positions[j].ticker, r.calcs[k].positions[j].market) in r.cache
    {
      assert r.calcs[k].positions == s.calcs[k].positions;
    }
  }

  /** In every interleaving of a batch the answers stay, so a security that is valued is never queried again. */
  lemma {:induction false} AnswersStay(s: System, schedule: seq<TurnOf>, n: nat, b: Briefs, day: nat)
    requires AnswersCached(s) && n <= |schedule|
    ensures AnswersCached(Interleave(s, schedule, b, day))
    ensures Interleave(s, schedule[..n], b, day).cache.Keys <= Interleave(s, schedule, b, day).cache.Keys
    decreases |schedule|
  {
    if schedule != [] {
      var first, t := schedule[..|schedule| - 1], schedule[|schedule| - 1];
      if n < |schedule| {
        AnswersStay(s, first, n, b, day);
        assert first[..n] == schedule[..n];
      } else {
        AnswersStay(s, first, 0, b, day);
        assert schedule[..n] == schedule;
      }
      var r := Interleave(s, first, b, day);
      if t.who < |r.calcs| && ValidCalc(r.calcs[t.who]) {
        TurnUsesCache(r, t.who, t.fails, b, day);
      }
    }
  }

  datatype Account = Account(account: string, positions: seq<Position>)

  ghost predicate ValidAccounts(accounts: seq<Account>) {
    && (forall i, j :: 0 <= i < j < |accounts| ==> accounts[i].account != accounts[j].account)
    && (forall i, p, q :: 0 <= i < |accounts| && 0 <= p < q < |accounts[i].positions| ==>
          accounts[i].positions[p].(totalQty := 0) != accounts[i].positions[q].(totalQty := 0))
    && forall i, p :: 0 <= i < |accounts| && 0 <= p < |accounts[i].positions| ==>
         accounts[i].positions[p].market == SH || accounts[i].positions[p].market == SZ
  }

  function Begin(cache: Cache, rows: Rows, batch: seq<Account>): System {
    System(cache, rows, seq(|batch|, i requires 0 <= i < |batch| =>
                              Calc(batch[i].account, batch[i].positions, 0, Ready)))
  }

  lemma BeginOk(cache: Cache, rows: Rows, batch: seq<Account>, b: Briefs, day: nat)
    requires ValidAccounts(batch) && CacheOk(cache, b, day) && CacheBuilt(cache, b, day)
    ensures SystemOk(Begin(cache, rows, batch), rows, b, day) && SameAccounts(Begin(cache, rows, batch), batch)
  {
  }

  function TurnsLeft(c: Calc): int {
    match c.phase
    case Ready => 3 * (|c.positions| - c.next) + 1
    case Querying => 3 * (|c.positions| - c.next)
    case Writing(_) => 3 * (|c.positions| - c.next) - 1
    case Settled(_) => 0
  }

  function AllTurnsLeft(calcs: seq<Calc>): int {
    if calcs == [] then 0 else TurnsLeft(calcs[0]) + AllTurnsLeft(calcs[1..])
  }

  lemma {:induction false} TurnsLeftDrop(calcs: seq<Calc>, i: nat, c: Calc)
    requires i < |calcs| && TurnsLeft(c) < TurnsLeft(calcs[i])
    ensures AllTurnsLeft(calcs[i := c]) < AllTurnsLeft(calcs)
  {
    if i == 0 {
      assert calcs[i := c][1..] == calcs[1..];
    } else {
      assert calcs[i := c][1..] == calcs[1..][i - 1 := c];
      TurnsLeftDrop(calcs[1..], i - 1, c);
    }
  }

  lemma {:induction false} TurnsLeftNat(calcs: seq<Calc>)
    requires forall i :: 0 <= i < |calcs| ==> ValidCalc(calcs[i])
    ensures 0 <= AllTurnsLeft(calcs)
  {
    if calcs != [] { TurnsLeftNat(calcs[1..]); }
  }

  /** The row of a position is exact: its value, or what was there before if it cannot be valued. */
  ghost predicate RowExact(rows: Rows, before: Rows, b: Briefs, day: nat, a: Account, p: nat)
    requires p < |a.positions|
  {
    var key := RowKey(day, a.account, a.positions[p].ticker, a.positions[p].market);
    var expected := Expected(b, a.positions[p], day);
    if expected.Some? then key in rows && rows[key] == expected.value else SameRow(rows, before, key)
  }

  /** The row of a position is exact or has not been touched. */
  ghost predicate RowSound(rows: Rows, before: Rows, b: Briefs, day: nat, a: Account, p: nat)
    requires p < |a.positions|
  {
    || RowExact(rows, before, b, day, a, p)
    || SameRow(rows, before, RowKey(day, a.account, a.positions[p].ticker, a.positions[p].market))
  }

  ghost predicate AccountExact(rows: Rows, before: Rows, b: Briefs, day: nat, a: Account) {
    forall p :: 0 <= p < |a.positions| ==> RowExact(rows, before, b, day, a, p)
  }

  /** The row of a position says its quantity, a price with its day, and their product. */
  predicate SaysPrice(row: MarketValueRow, quantity: int, price: real, date: Option<nat>) {
    row.position == quantity && row.close_price == price && row.close_price_date == date
    && row.value == price * quantity as real
  }

  /** The brief is the day's own, or else the latest earlier one with an actual price that is not zero. */
  ghost predicate BriefUsed(b: Briefs, ticker: string, market: Market, day: nat, d: nat) {
    && BriefKey(d, ticker, market) in b && d <= day
    && (d < day ==>
          && BriefKey(day, ticker, market) !in b && HasActual(b[BriefKey(d, ticker, market)])
          && forall e :: d < e < day && BriefKey(e, ticker, market) in b ==> !HasActual(b[BriefKey(e, ticker, market)]))
  }

  predicate HasActual(q: Brief) {
    q.actual.Some? && q.actual.value != 0.0
  }

  /** An exact row holds what its security's brief says; without a brief to use it is the row there was. */
  lemma RowsHoldBrief(rows: Rows, before: Rows, b: Briefs, day: nat, a: Account, p: nat)
    requires p < |a.positions| && RowExact(rows, before, b, day, a, p)
    ensures
      var pos := a.positions[p];
      var key := RowKey(day, a.account, pos.ticker, pos.market);
      || (SameRow(rows, before, key) && forall d :: !BriefUsed(b, pos.ticker, pos.market, day, d))
      || exists d ::
           && BriefUsed(b, pos.ticker, pos.market, day, d) && key in rows
           && var q := b[BriefKey(d, pos.ticker, pos.market)];
              SaysPrice(rows[key], pos.totalQty, if q.actual.Some? then q.actual.value else 0.0, q.actualDate)
  {
    var pos := a.positions[p];
    LastActualIsThere(b, pos.ticker, pos.market, day);
    if BriefKey(day, pos.ticker, pos.market) in b {
      assert BriefUsed(b, pos.ticker, pos.market, day, day);
    } else if LastActual(b, pos.ticker, pos.market, day).Some? {
      var d := LastActual(b, pos.ticker, pos.market, day).value;
      forall e | d < e < day && BriefKey(e, pos.ticker, pos.market) in b
        ensures !HasActual(b[BriefKey(e, pos.ticker, pos.market)])
      {
        assert !ActualOn(b, pos.ticker, pos.market, e);
      }
      assert BriefUsed(b, pos.ticker, pos.market, day, d);
    } else {
      forall d: nat
        ensures !BriefUsed(b, pos.ticker, pos.market, day, d)
      {
        assert d < day ==> !ActualOn(b, pos.ticker, pos.market, d);
      }
    }
  }

  /**
   From prices to values: once every day up to `day` is calculated, an exact row holds the last non-zero
   close of its security with its day, or zero if the day has a brief but there is no such close; and a
   security without any brief or close keeps the row it had.
   */
  lemma RowsHoldLastClose(rows: Rows, before: Rows, b: Briefs, day: nat, a: Account, p: nat)
    requires FilledUpTo(b, day) && AccountExact(rows, before, b, day, a) && p < |a.positions|
    ensures
      var pos := a.positions[p];
      var key := RowKey(day, a.account, pos.ticker, pos.market);
      if NoClose(b, pos.ticker, pos.market, day) then
        if BriefKey(day, pos.ticker, pos.market) in b
        then key in rows && SaysPrice(rows[key], pos.totalQty, 0.0, None)
        else SameRow(rows, before, key)
      else
        exists d ::
          && LatestClose(b, pos.ticker, pos.market, day, d) && key in rows
          && SaysPrice(rows[key], pos.totalQty, b[BriefKey(d, pos.ticker, pos.market)].close, Some(d))
  {
    hide Lookup, FilledUpTo, NoClose, LatestClose;
    assert RowExact(rows, before, b, day, a, p);
    var pos := a.positions[p];
    ValuedInFull(b, pos.ticker, pos.market, day);
    if !NoClose(b, pos.ticker, pos.market, day) {
      var d := Lookup(b, pos.ticker, pos.market, day).value.actualDate.value;
      assert LatestClose(b, pos.ticker, pos.market, day, d);
    }
  }

  ghost predicate AccountSound(rows: Rows, before: Rows, b: Briefs, day: nat, a: Account) {
    forall p :: 0 <= p < |a.positions| ==> RowSound(rows, before, b, day, a, p)
  }

  /** A settled batch: rows of its accounts are sound, and exact where the computation did not fail. */
  lemma BatchSettled(s: System, batch: seq<Account>, before: Rows, b: Briefs, day: nat, i: nat)
    requires SystemOk(s, before, b, day) && i < |batch| == |s.calcs| && s.calcs[i].phase.Settled?
    requires s.calcs[i].account == batch[i].account && s.calcs[i].positions == batch[i].positions
    ensures AccountSound(s.rows, before, b, day, batch[i])
    ensures !s.calcs[i].phase.failed ==> AccountExact(s.rows, before, b, day, batch[i])
  {
    assert Valued(s, before, b, day, i) && ValidCalc(s.calcs[i]);
    forall p | 0 <= p < |batch[i].positions|
      ensures RowSound(s.rows, before, b, day, batch[i], p)
      ensures !s.calcs[i].phase.failed ==> RowExact(s.rows, before, b, day, batch[i], p)
    {
      assert PositionValued(s.rows, before, b, day, s.calcs[i], p);
    }
  }

  ghost predicate Listed(accounts: seq<Account>, account: string) {
    exists i :: 0 <= i < |accounts| && accounts[i].account == account
  }

  /** Rows of accounts that are not listed are untouched. */
  ghost predicate UnlistedSame(rows: Rows, before: Rows, accounts: seq<Account>) {
    forall key: RowKey :: !Listed(accounts, key.fundAccount) ==> SameRow(rows, before, key)
  }

  function Min(a: nat, b: nat): nat {
    if a < b then a else b
  }

  lemma BatchOthers(s: System, batch: seq<Account>, before: Rows)
    requires OtherAccountsSame(s, before) && |s.calcs| == |batch|
    requires forall i :: 0 <= i < |batch| ==> s.calcs[i].account == batch[i].account
    ensures UnlistedSame(s.rows, before, batch)
  {
    forall key: RowKey | !Listed(batch, key.fundAccount)
      ensures SameRow(s.rows, before, key)
    {
      assert forall i :: 0 <= i < |s.calcs| ==> s.calcs[i].account != key.fundAccount;
    }
  }

  lemma SoundAtFirst(rows: Rows, b: Briefs, day: nat, accounts: seq<Account>)
    ensures forall j :: 0 <= j < |accounts| ==> AccountSound(rows, rows, b, day, accounts[j])
    ensures UnlistedSame(rows, rows, [])
  {
  }

  /** A batch adds its accounts to the ones already valued and touches no other. */
  lemma BatchExtends(now: Rows, was: Rows, before: Rows, b: Briefs, day: nat, accounts: seq<Account>,
                     i: nat, end: nat, failed: bool)
    requires ValidAccounts(accounts) && i <= end <= |accounts|
    requires UnlistedSame(was, before, accounts[..i]) && UnlistedSame(now, was, accounts[i..end])
    requires forall j :: 0 <= j < i ==> AccountExact(was, before, b, day, accounts[j])
    requires forall j :: 0 <= j < |accounts| ==> AccountSound(was, before, b, day, accounts[j])
    requires forall j :: 0 <= j < |accounts[i..end]| ==> AccountSound(now, was, b, day, accounts[i..end][j])
    requires !failed ==> forall j :: 0 <= j < |accounts[i..end]| ==> AccountExact(now, was, b, day, accounts[i..end][j])
    ensures UnlistedSame(now, before, accounts[..end])
    ensures forall j :: 0 <= j < |accounts| ==> AccountSound(now, before, b, day, accounts[j])
    ensures !failed ==> forall j :: 0 <= j < end ==> AccountExact(now, before, b, day, accounts[j])
  {
    UnlistedCompose(now, was, before, accounts, i, end);
    forall j | 0 <= j < |accounts|
      ensures AccountSound(now, before, b, day, accounts[j])
      ensures !failed && j < end ==> AccountExact(now, before, b, day, accounts[j])
    {
      if i <= j < end {
        assert accounts[i..end][j - i] == accounts[j];
        NotListed(accounts, 0, i, j);
        BatchAccount(now, was, before, b, day, accounts[j]);
      } else {
        NotListed(accounts, i, end, j);
        OtherAccount(now, was, before, b, day, accounts[j]);
      }
    }
  }

  lemma NotListed(accounts: seq<Account>, i: nat, end: nat, j: nat)
    requires ValidAccounts(accounts) && i <= end <= |accounts| && j < |accounts| && !(i <= j < end)
    ensures !Listed(accounts[i..end], accounts[j].account)
  {
    forall k | 0 <= k < |accounts[i..end]|
      ensures accounts[i..end][k].account != accounts[j].account
    {
      assert accounts[i..end][k] == accounts[i + k];
    }
  }

  lemma UnlistedCompose(now: Rows, was: Rows, before: Rows, accounts: seq<Account>, i: nat, end: nat)
    requires i <= end <= |accounts|
    requires UnlistedSame(was, before, accounts[..i]) && UnlistedSame(now, was, accounts[i..end])
    ensures UnlistedSame(now, before, accounts[..end])
  {
    forall key: RowKey | !Listed(accounts[..end], key.fundAccount)
      ensures SameRow(now, before, key)
    {
      assert forall k :: 0 <= k < i ==> accounts[..i][k] == accounts[..end][k];
      assert forall k :: 0 <= k < end - i ==> accounts[i..end][k] == accounts[..end][i + k];
      assert !Listed(accounts[..i], key.fundAccount) && !Listed(accounts[i..end], key.fundAccount);
      assert SameRow(was, before, key) && SameRow(now, was, key);
    }
  }

  /** An account whose rows were as at first before its batch. */
  lemma BatchAccount(now: Rows, was: Rows, before: Rows, b: Briefs, day: nat, a: Account)
    requires forall key: RowKey :: key.fundAccount == a.account ==> SameRow(was, before, key)
    ensures AccountSound(now, was, b, day, a) ==> AccountSound(now, before, b, day, a)
    ensures AccountExact(now, was, b, day, a) ==> AccountExact(now, before, b, day, a)
  {
    forall p | 0 <= p < |a.positions|
      ensures RowExact(now, was, b, day, a, p) ==> RowExact(now, before, b, day, a, p)
      ensures RowSound(now, was, b, day, a, p) ==> RowSound(now, before, b, day, a, p)
    {
      assert SameRow(was, before, RowKey(day, a.account, a.positions[p].ticker, a.positions[p].market));
    }
  }

  /** An account that the batch does not touch. */
  lemma OtherAccount(now: Rows, was: Rows, before: Rows, b: Briefs, day: nat, a: Account)
    requires forall key: RowKey :: key.fundAccount == a.account ==> SameRow(now, was, key)
    ensures AccountSound(was, before, b, day, a) ==> AccountSound(now, before, b, day, a)
    ensures AccountExact(was, before, b, day, a) ==> AccountExact(now, before, b, day, a)
  {
    forall p | 0 <= p < |a.positions|
      ensures RowExact(was, before, b, day, a, p) ==> RowExact(now, before, b, day, a, p)
      ensures RowSound(was, before, b, day, a, p) ==> RowSound(now, before, b, day, a, p)
    {
      assert SameRow(now, was, RowKey(day, a.account, a.positions[p].ticker, a.positions[p].market));
    }
  }

  ghost predicate NoneFailed(s: System) {
    forall i :: 0 <= i < |s.calcs| ==> s.calcs[i].phase != Settled(true)
  }

  lemma StaysHealthy(s: System, i: nat, b: Briefs, day: nat)
    requires i < |s.calcs| && ValidCalc(s.calcs[i]) && NoneFailed(s)
    ensures NoneFailed(Turn(s, i, false, b, day))
  {
  }

  /**
   The computations of a batch take turns until all have settled; any of them may go next, and, unless
   the database is healthy, fail.
   */
  method SettleAll(begin: System, ghost before: Rows, b: Briefs, day: nat, ghost batch: seq<Account>, healthy: bool)
    returns (s: System)
    requires SystemOk(begin, before, b, day) && SameAccounts(begin, batch) && NoneFailed(begin)
    ensures SystemOk(s, before, b, day) && SameAccounts(s, batch) && (healthy ==> NoneFailed(s))
    ensures forall i :: 0 <= i < |s.calcs| ==> s.calcs[i].phase.Settled?
  {
    hide SystemOk, Turn, SameAccounts, AllTurnsLeft, NoneFailed;
    s := begin;
    while exists i :: 0 <= i < |s.calcs| && !s.calcs[i].phase.Settled?
      invariant SystemOk(s, before, b, day) && SameAccounts(s, batch) && (healthy ==> NoneFailed(s))
      decreases AllTurnsLeft(s.calcs)
    {
      var i :| 0 <= i < |s.calcs| && !s.calcs[i].phase.Settled?;
      var fails: bool := *;
      if healthy {
        fails := false;
      }
      CalcsAreValid(s, before, b, day);
      if healthy {
        StaysHealthy(s, i, b, day);
      }
      TurnKeepsOk(s, i, fails, before, b, day);
      TurnProgress(s, i, fails, b, day, batch);
      s := Turn(s, i, fails, b, day);
    }
  }

  ghost predicate SameAccounts(s: System, batch: seq<Account>) {
    && |s.calcs| == |batch|
    && forall i :: 0 <= i < |batch| ==>
         s.calcs[i].account == batch[i].account && s.calcs[i].positions == batch[i].positions
  }

  lemma TurnProgress(s: System, i: nat, fails: bool, b: Briefs, day: nat, batch: seq<Account>)
    requires forall j :: 0 <= j < |s.calcs| ==> ValidCalc(s.calcs[j])
    requires i < |s.calcs| && !s.calcs[i].phase.Settled? && SameAccounts(s, batch)
    ensures SameAccounts(Turn(s, i, fails, b, day), batch)
    ensures 0 <= AllTurnsLeft(s.calcs) && AllTurnsLeft(Turn(s, i, fails, b, day).calcs) < AllTurnsLeft(s.calcs)
  {
    TurnsLeftNat(s.calcs);
    TurnsLeftDrop(s.calcs, i, Turn(s, i, fails, b, day).calcs[i]);
  }

  lemma CalcsAreValid(s: System, before: Rows, b: Briefs, day: nat)
    requires SystemOk(s, before, b, day)
    ensures forall i :: 0 <= i < |s.calcs| ==> ValidCalc(s.calcs[i])
  {
  }

  lemma BatchAllSettled(s: System, batch: seq<Account>, before: Rows, b: Briefs, day: nat)
    requires SystemOk(s, before, b, day) && SameAccounts(s, batch)
    requires forall i :: 0 <= i < |s.calcs| ==> s.calcs[i].phase.Settled?
    ensures CacheOk(s.cache, b, day) && CacheBuilt(s.cache, b, day) && UnlistedSame(s.rows, before, batch)
    ensures forall i :: 0 <= i < |batch| ==> AccountSound(s.rows, before, b, day, batch[i])
    ensures forall i :: 0 <= i < |batch| && !s.calcs[i].phase.failed ==>
              AccountExact(s.rows, before, b, day, batch[i])
  {
    forall i | 0 <= i < |batch|
      ensures AccountSound(s.rows, before, b, day, batch[i])
      ensures !s.calcs[i].phase.failed ==> AccountExact(s.rows, before, b, day, batch[i])
    {
      BatchSettled(s, batch, before, b, day, i);
    }
    BatchOthers(s, batch, before);
  }

  // ---- the service ---------------------------------------------------------------

  class MarketValueService {
    var quoteBriefMap: Cache
    var rows: Rows

    constructor (rows: Rows)
      ensures this.rows == rows && quoteBriefMap == map[]
    {
      this.rows, quoteBriefMap := rows, map[];
    }

    /** The briefs of the day are entered one by one. */
    method BuildQuoteBriefMap(b: Briefs, day: nat)
      requires OnlyShSz(b) && quoteBriefMap == map[]
      modifies `quoteBriefMap
      ensures CacheOk(quoteBriefMap, b, day) && CacheBuilt(quoteBriefMap, b, day)
    {
      var todo := set k | k in b && k.tradeDay == day;
      while todo != {}
        invariant todo <= b.Keys && forall k :: k in todo ==> k.tradeDay == day
        invariant CacheOk(quoteBriefMap, b, day)
        invariant forall k :: k in b && k.tradeDay == day && k !in todo ==>
                    WindCode(k.ticker, k.market) in quoteBriefMap
        decreases |todo|
      {
        var k :| k in todo;
        EntryKeepsCacheOk(quoteBriefMap, b, day, k.ticker, k.market);
        quoteBriefMap := quoteBriefMap[WindCode(k.ticker, k.market) := Some(b[k])];
        todo := todo - {k};
      }
    }

    /** One batch, run until every computation has settled; the turns come in any order. */
    method RunBatch(b: Briefs, day: nat, batch: seq<Account>, healthy: bool) returns (failed: bool)
      requires ValidAccounts(batch) && CacheOk(quoteBriefMap, b, day) && CacheBuilt(quoteBriefMap, b, day)
      modifies this
      ensures CacheOk(quoteBriefMap, b, day) && CacheBuilt(quoteBriefMap, b, day)
      ensures UnlistedSame(rows, old(rows), batch)
      ensures forall i :: 0 <= i < |batch| ==> AccountSound(rows, old(rows), b, day, batch[i])
      ensures healthy ==> !failed
      ensures !failed ==> forall i :: 0 <= i < |batch| ==> AccountExact(rows, old(rows), b, day, batch[i])
    {
      hide ValidAccounts, SystemOk, CacheOk, CacheBuilt, ValidSystem, OtherAccountsSame, AccountSound, AccountExact,
           UnlistedSame;
      BeginOk(quoteBriefMap, rows, batch, b, day);
      var s := SettleAll(Begin(quoteBriefMap, rows, batch), rows, b, day, batch, healthy);
      failed := exists i :: 0 <= i < |s.calcs| && s.calcs[i].phase.Settled? && s.calcs[i].phase.failed;
      BatchAllSettled(s, batch, rows, b, day);
      quoteBriefMap, rows := s.cache, s.rows;
    }

    /**
     All accounts in batches; a failed batch stops the run, and none fails while the database is healthy.
     The cache is empty again afterwards, so no entry is seen by a run for another day.
     */
    method BatchCalcActualClosePrice(b: Briefs, day: nat, accounts: seq<Account>, batchSize: nat, healthy: bool)
      returns (ok: bool)
      requires OnlyShSz(b) && ValidAccounts(accounts) && batchSize > 0 && quoteBriefMap == map[]
      modifies this
      ensures quoteBriefMap == map[]
      ensures UnlistedSame(rows, old(rows), accounts)
      ensures healthy ==> ok
      ensures ok ==> forall i :: 0 <= i < |accounts| ==> AccountExact(rows, old(rows), b, day, accounts[i])
      ensures forall i :: 0 <= i < |accounts| ==> AccountSound(rows, old(rows), b, day, accounts[i])
    {
      BuildQuoteBriefMap(b, day);
      var i := 0;
      ok := true;
      SoundAtFirst(rows, b, day, accounts);
      while i < |accounts| && ok
        invariant 0 <= i && (healthy ==> ok) && CacheOk(quoteBriefMap, b, day) && CacheBuilt(quoteBriefMap, b, day)
        invariant UnlistedSame(rows, old(rows), accounts[..Min(i, |accounts|)])
        invariant ok ==> forall j :: 0 <= j < i && j < |accounts| ==> AccountExact(rows, old(rows), b, day, accounts[j])
        invariant forall j :: 0 <= j < |accounts| ==> AccountSound(rows, old(rows), b, day, accounts[j])
        decreases |accounts| - i, ok
      {
        var end := Min(i + batchSize, |accounts|);
        ghost var was := rows;
        assert ValidAccounts(accounts[i..end]);
        var failed := RunBatch(b, day, accounts[i..end], healthy);
        BatchExtends(rows, was, old(rows), b, day, accounts, i, end, failed);
        ok := !failed;
        i := i + batchSize;
      }
      quoteBriefMap := map[];
    }
  }
}

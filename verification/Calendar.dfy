/** The trading calendar: the Python service that lists days, the sync of its list, and the lookups. */
module Calendar {
  import opened Common
  import opened Dates

  datatype Item = Item(cal_date: string, is_open: int)

  /** The rows of the SSE market, by date text. */
  type Rows = map<string, bool>

  // ---- the list of days ----------------------------------------------------------

  predicate NotAfter(a: Date, b: Date) {
    a == b || Earlier(a, b)
  }

  /** Every day from one to another, both included. */
  function DaysFrom(start: Date, end: Date): seq<Date>
    requires Valid(start) && Valid(end)
    decreases Ordinal(end) + 1 - Ordinal(start)
  {
    NextOrdinal(start);
    OrdinalOrder(start, end);
    if NotAfter(start, end) then [start] + DaysFrom(Next(start), end) else []
  }

  function ItemFor(d: Date, source: set<Date>): Item {
    Item(Format(d), if d in source then 1 else 0)
  }

  function ItemsFor(days: seq<Date>, source: set<Date>): seq<Item> {
    seq(|days|, i requires 0 <= i < |days| => ItemFor(days[i], source))
  }

  /** Each date of the range is listed, nothing else is, and the days follow one another. */
  lemma {:induction false} DaysFromExact(start: Date, end: Date)
    requires Valid(start) && Valid(end)
    ensures forall d :: d in DaysFrom(start, end) <==> Valid(d) && NotAfter(start, d) && NotAfter(d, end)
    ensures forall i :: 0 <= i < |DaysFrom(start, end)| ==>
              Valid(DaysFrom(start, end)[i]) && Ordinal(DaysFrom(start, end)[i]) == Ordinal(start) + i
    decreases Ordinal(end) + 1 - Ordinal(start)
  {
    NextOrdinal(start);
    OrdinalOrder(start, end);
    if NotAfter(start, end) {
      DaysFromExact(Next(start), end);
      forall d
        ensures d in DaysFrom(start, end) <==> Valid(d) && NotAfter(start, d) && NotAfter(d, end)
      {
        if Valid(d) {
          OrdinalOrder(start, d);
          OrdinalOrder(Next(start), d);
          OrdinalOrder(d, end);
        }
      }
    } else {
      forall d | Valid(d)
        ensures !(NotAfter(start, d) && NotAfter(d, end))
      {
        OrdinalOrder(start, d);
        OrdinalOrder(d, end);
      }
    }
  }

  /** No date is listed twice. */
  lemma DaysFromDistinct(start: Date, end: Date)
    requires Valid(start) && Valid(end)
    ensures Distinct(DaysFrom(start, end))
  {
    DaysFromExact(start, end);
  }

  lemma FirstDay(start: Date, end: Date)
    requires Printable(start) && Printable(end) && NotAfter(start, end)
    ensures Valid(Next(start)) && Ordinal(Next(start)) == Ordinal(start) + 1 <= Ordinal(end) + 1
    ensures start != LAST_DATE ==> Printable(Next(start))
    ensures DaysFrom(start, end) == [start] + DaysFrom(Next(start), end)
  {
    hide DaysBeforeYear, DaysBeforeMonth;
    NextOrdinal(start);
    OrdinalOrder(start, end);
  }

  lemma NoDays(start: Date, end: Date)
    requires Valid(start) && Valid(end) && !NotAfter(start, end)
    ensures DaysFrom(start, end) == []
  {
  }

  lemma NothingAfterLastDate(d: Date)
    requires Printable(d)
    ensures NotAfter(d, LAST_DATE) && (NotAfter(LAST_DATE, d) ==> d == LAST_DATE)
  {
  }

  /** The service's loop. Adding a day to 9999-12-31 overflows, and the request fails. */
  method TradeCal(start: Date, end: Date, source: set<Date>) returns (r: Option<seq<Item>>)
    requires Printable(start) && Printable(end)
    ensures r.None? <==> end == LAST_DATE && NotAfter(start, end)
    ensures r.Some? ==> r.value == ItemsFor(DaysFrom(start, end), source)
  {
    hide DaysFrom, DaysIn, DaysBeforeYear, DaysBeforeMonth, ItemFor, Ordinal, Format;
    var result: seq<Item> := [];
    var current := start;
    ghost var days: seq<Date> := [];
    while NotAfter(current, end)
      invariant Printable(current) && result == ItemsFor(days, source)
      invariant days + DaysFrom(current, end) == DaysFrom(start, end)
      invariant current == start || NotAfter(start, end)
      decreases Ordinal(end) + 1 - Ordinal(current)
    {
      FirstDay(current, end);
      result := result + [ItemFor(current, source)];
      days := days + [current];
      if current == LAST_DATE {
        NothingAfterLastDate(end);
        return None;
      }
      current := Next(current);
    }
    NothingAfterLastDate(current);
    assert DaysFrom(current, end) == [] by { NoDays(current, end); }
    assert days + [] == days;
    return Some(result);
  }

  // ---- sync ----------------------------------------------------------------------

  predicate IsOpen(item: Item) {
    item.is_open == 1
  }

  function Synced(rows: Rows, data: seq<Item>): Rows {
    if data == [] then rows
    else Synced(rows, data[..|data| - 1])[data[|data| - 1].cal_date := IsOpen(data[|data| - 1])]
  }

  /** How many items create a row. */
  function Created(rows: Rows, data: seq<Item>): nat {
    if data == [] then 0
    else
      Created(rows, data[..|data| - 1])
      + if data[|data| - 1].cal_date in Synced(rows, data[..|data| - 1]) then 0 else 1
  }

  /** How many items change a row. */
  function Updated(rows: Rows, data: seq<Item>): nat {
    if data == [] then 0
    else
      var before, item := Synced(rows, data[..|data| - 1]), data[|data| - 1];
      Updated(rows, data[..|data| - 1])
      + if item.cal_date in before && before[item.cal_date] != IsOpen(item) then 1 else 0
  }

  /** Counting: an item creates a row, changes one, or does nothing. */
  lemma {:induction false} CountsBounded(rows: Rows, data: seq<Item>)
    ensures Created(rows, data) + Updated(rows, data) <= |data|
  {
    if data != [] { CountsBounded(rows, data[..|data| - 1]); }
  }

  /** Items that agree: no date is both open and closed. */
  ghost predicate Consistent(data: seq<Item>) {
    forall i, j :: 0 <= i < j < |data| && data[i].cal_date == data[j].cal_date ==> IsOpen(data[i]) == IsOpen(data[j])
  }

  ghost predicate Holds(rows: Rows, item: Item) {
    item.cal_date in rows && rows[item.cal_date] == IsOpen(item)
  }

  /** After a sync of items that agree every item holds; dates not listed are untouched. */
  lemma {:induction false} SyncedExact(rows: Rows, data: seq<Item>)
    ensures Consistent(data) ==> forall i :: 0 <= i < |data| ==> Holds(Synced(rows, data), data[i])
    ensures forall date :: (forall i :: 0 <= i < |data| ==> data[i].cal_date != date) ==>
              && (date in Synced(rows, data) <==> date in rows)
              && (date in rows ==> Synced(rows, data)[date] == rows[date])
  {
    if data != [] {
      var before, item := data[..|data| - 1], data[|data| - 1];
      SyncedExact(rows, before);
      assert Consistent(data) ==> Consistent(before);
      assert forall i :: 0 <= i < |before| ==> before[i] == data[i];
    }
  }

  lemma {:induction false} SyncOfHeld(rows: Rows, data: seq<Item>)
    requires forall i :: 0 <= i < |data| ==> Holds(rows, data[i])
    ensures Synced(rows, data) == rows && Created(rows, data) == 0 && Updated(rows, data) == 0
  {
    if data != [] { SyncOfHeld(rows, data[..|data| - 1]); }
  }

  lemma {:induction false} HeldWhenQuiet(rows: Rows, data: seq<Item>)
    requires Created(rows, data) == 0 && Updated(rows, data) == 0
    ensures Synced(rows, data) == rows && forall i :: 0 <= i < |data| ==> Holds(rows, data[i])
  {
    if data != [] {
      var before := data[..|data| - 1];
      HeldWhenQuiet(rows, before);
      assert forall i :: 0 <= i < |before| ==> before[i] == data[i];
    }
  }

  /** A second sync of the same data counts nothing exactly when no date is listed both open and closed. */
  lemma SecondSyncIsQuiet(rows: Rows, data: seq<Item>)
    ensures var once := Synced(rows, data);
            Created(once, data) == 0 && Updated(once, data) == 0 <==> Consistent(data)
  {
    var once := Synced(rows, data);
    SyncedExact(rows, data);
    if Consistent(data) {
      SyncOfHeld(once, data);
    }
    if Created(once, data) == 0 && Updated(once, data) == 0 {
      HeldWhenQuiet(once, data);
      forall i, j | 0 <= i < j < |data| && data[i].cal_date == data[j].cal_date
        ensures IsOpen(data[i]) == IsOpen(data[j])
      {
        assert Holds(once, data[i]) && Holds(once, data[j]);
      }
    }
  }

  lemma ListedDays(start: Date, end: Date)
    requires Printable(start) && Printable(end)
    ensures forall i :: 0 <= i < |DaysFrom(start, end)| ==> Printable(DaysFrom(start, end)[i])
  {
    DaysFromExact(start, end);
    var days := DaysFrom(start, end);
    assert forall i :: 0 <= i < |days| ==> days[i] in days;
  }

  /** The list names each of its dates once, as texts too. */
  lemma ItemsDistinct(start: Date, end: Date, source: set<Date>)
    requires Printable(start) && Printable(end)
    ensures var data := ItemsFor(DaysFrom(start, end), source);
            forall i, j :: 0 <= i < j < |data| ==> data[i].cal_date != data[j].cal_date
  {
    hide Format, DaysFrom;
    ListedDays(start, end);
    DaysFromDistinct(start, end);
    var days := DaysFrom(start, end);
    forall i, j | 0 <= i < j < |days|
      ensures Format(days[i]) != Format(days[j])
    {
      FormatOrder(days[i], days[j]);
    }
  }

  /** From the list of days to the calendar: in the range a day is open exactly when the source has it. */
  lemma CalendarFollowsSource(rows: Rows, start: Date, end: Date, source: set<Date>, d: Date)
    requires Printable(start) && Printable(end) && Printable(d)
    ensures
      var data := ItemsFor(DaysFrom(start, end), source);
      var after := Synced(rows, data);
      && Consistent(data)
      && (if NotAfter(start, d) && NotAfter(d, end)
          then Format(d) in after && (OpenAt(after, Format(d)) <==> d in source)
          else && (Format(d) in after <==> Format(d) in rows)
               && (Format(d) in rows ==> after[Format(d)] == rows[Format(d)]))
  {
    hide Format, DaysFrom, Synced, NotAfter;
    var days := DaysFrom(start, end);
    var data := ItemsFor(days, source);
    DaysFromExact(start, end);
    ListedDays(start, end);
    ItemsDistinct(start, end, source);
    SyncedExact(rows, data);
    forall i | 0 <= i < |days|
      ensures data[i].cal_date == Format(d) <==> days[i] == d
    {
      FormatOrder(days[i], d);
    }
    if d in days {
      var i :| 0 <= i < |days| && days[i] == d;
      assert Holds(Synced(rows, data), data[i]);
    } else {
      assert forall i :: 0 <= i < |data| ==> days[i] in days && data[i].cal_date != Format(d);
    }
  }

  // ---- lookups -------------------------------------------------------------------

  predicate OpenAt(rows: Rows, date: string) {
    date in rows && rows[date]
  }

  /** The least later open date. */
  ghost predicate IsNext(rows: Rows, date: string, next: string) {
    && OpenAt(rows, next) && Less(date, next)
    && forall s :: OpenAt(rows, s) && Less(date, s) ==> s == next || Less(next, s)
  }

  ghost predicate IsPrevious(rows: Rows, date: string, previous: string) {
    && OpenAt(rows, previous) && Less(previous, date)
    && forall s :: OpenAt(rows, s) && Less(s, date) ==> s == previous || Less(s, previous)
  }

  ghost predicate HasLater(rows: Rows, date: string) {
    exists s :: OpenAt(rows, s) && Less(date, s)
  }

  ghost predicate HasEarlier(rows: Rows, date: string) {
    exists s :: OpenAt(rows, s) && Less(s, date)
  }

  /** The calendar's answer when it has no later open day: one day on, holiday or not. */
  function DayAfter(date: string): string {
    match ParseBaseDate(date)
    case None => "Invalid Date"
    case Some(d) => Format(Next(d))
  }

  function DayBefore(date: string): string {
    match ParseBaseDate(date)
    case None => "Invalid Date"
    case Some(d) => Format(Previous(d))
  }

  /** Previous undoes next: from an open day with a later open day, next and then previous comes back. */
  lemma PreviousOfNext(rows: Rows, date: string, next: string)
    requires OpenAt(rows, date) && IsNext(rows, date, next)
    ensures IsPrevious(rows, next, date)
  {
    forall s | OpenAt(rows, s) && Less(s, next)
      ensures s == date || Less(s, date)
    {
      LessTotal(s, date);
      if Less(date, s) {
        if Less(next, s) { LessTransitive(s, next, s); }
        LessIrreflexive(s);
      }
    }
  }

  /** Without an earlier open day the calendar goes one day back, to an earlier day as a text. */
  lemma DayBeforeIsEarlier(date: string)
    requires ParseBaseDate(date).Some?
    ensures Less(DayBefore(date), date)
  {
    var d := ParseBaseDate(date).value;
    FormatOfParse(date);
    FirstOrdinal(d);
    PreviousOrdinal(d);
    FormatOrder(Previous(d), d);
  }

  /** Without another open day on record the day handed out is the next, or the one whose next day was asked about. */
  lemma NeighboursExactly(date: string)
    ensures match ParseBaseDate(date)
            case None => DayAfter(date) == DayBefore(date) == "Invalid Date"
            case Some(d) =>
              && DayAfter(date) == Format(Next(d))
              && exists p :: Valid(p) && Next(p) == d && DayBefore(date) == Format(p)
  {
    if ParseBaseDate(date).Some? {
      var d := ParseBaseDate(date).value;
      FormatOfParse(date);
      FirstOrdinal(d);
      PreviousOrdinal(d);
      assert Valid(Previous(d)) && Next(Previous(d)) == d && DayBefore(date) == Format(Previous(d));
    }
  }

  lemma FirstOrdinal(d: Date)
    requires Valid(d) && d.year >= 2
    ensures Ordinal(d) > 1 && Previous(d).year <= d.year
  {
    OrdinalOrder(Date(1, 1, 1), d);
  }

  lemma NextIsUnique(rows: Rows, date: string, a: string, b: string)
    requires IsNext(rows, date, a) && IsNext(rows, date, b)
    ensures a == b
  {
    if Less(a, b) && Less(b, a) {
      LessTransitive(a, b, a);
      LessIrreflexive(a);
    }
  }

  lemma WholeYears(startYear: nat, endYear: nat)
    requires 1 <= startYear <= 9999 && 1 <= endYear <= 9999
    ensures Printable(Date(startYear, 1, 1)) && Printable(Date(endYear, 12, 31))
    ensures endYear == 9999 <==>
            Date(endYear, 12, 31) == LAST_DATE && NotAfter(Date(startYear, 1, 1), Date(endYear, 12, 31))
  {
  }

  lemma InWholeYears(startYear: nat, endYear: nat, d: Date)
    requires Valid(d)
    ensures startYear <= d.year <= endYear <==>
            NotAfter(Date(startYear, 1, 1), d) && NotAfter(d, Date(endYear, 12, 31))
  {
    DaysInMonth(d);
  }

  lemma DaysInMonth(d: Date)
    requires Valid(d)
    ensures d.day <= 31
  {
  }

  lemma SameOpen(a: Rows, b: Rows, date: string)
    requires (date in b <==> date in a) && (date in a ==> b[date] == a[date])
    ensures OpenAt(b, date) == OpenAt(a, date)
  {
  }

  class TradingCalendarService {
    var rows: Rows

    constructor (rows: Rows)
      ensures this.rows == rows
    {
      this.rows := rows;
    }

    method SyncFromData(data: seq<Item>) returns (total: nat, created: nat, updated: nat)
      modifies this
      ensures rows == Synced(old(rows), data)
      ensures total == |data| && created == Created(old(rows), data) && updated == Updated(old(rows), data)
      ensures created + updated <= total
      ensures |rows| == |old(rows)| + created
    {
      created, updated := 0, 0;
      for n := 0 to |data|
        invariant rows == Synced(old(rows), data[..n])
        invariant created == Created(old(rows), data[..n]) && updated == Updated(old(rows), data[..n])
        invariant |rows| == |old(rows)| + created
      {
        assert data[..n + 1][..n] == data[..n];
        var item := data[n];
        if item.cal_date in rows {
          if rows[item.cal_date] != IsOpen(item) {
            rows := rows[item.cal_date := IsOpen(item)];
            updated := updated + 1;
          } else {
            assert rows[item.cal_date := IsOpen(item)] == rows;
          }
        } else {
          rows := rows[item.cal_date := IsOpen(item)];
          created := created + 1;
        }
      }
      assert data[..|data|] == data;
      CountsBounded(old(rows), data);
      total := |data|;
    }

    predicate IsTradingDay(date: string)
      reads this
    {
      date in rows && rows[date]
    }

    lemma TradingDays()
      ensures forall date :: IsTradingDay(date) == OpenAt(rows, date)
    {
    }

    /**
     The list of whole years is fetched from the Python service and synced. Afterwards a date of those years is a
     trading day exactly when the source has it, and the answer for every other date is what it was. The service
     fails, and nothing changes, exactly when the years end with 9999.
     */
    method Sync(startYear: nat, endYear: nat, source: set<Date>) returns (r: Option<(nat, nat, nat)>)
      requires 1000 <= startYear <= 9999 && 1000 <= endYear <= 9999
      modifies this
      ensures r.None? <==> endYear == 9999
      ensures r.None? ==> rows == old(rows)
      ensures r.Some? ==> forall d :: Printable(d) ==>
                IsTradingDay(Format(d)) ==
                if startYear <= d.year <= endYear then d in source else old(IsTradingDay(Format(d)))
      ensures r.Some? ==> r.value.1 + r.value.2 <= r.value.0 && |rows| == |old(rows)| + r.value.1
    {
      hide Format, DaysFrom, Synced, NotAfter, OpenAt;
      var start, end := Date(startYear, 1, 1), Date(endYear, 12, 31);
      WholeYears(startYear, endYear);
      var data := TradeCal(start, end, source);
      if data.None? {
        return None;
      }
      ghost var before := rows;
      TradingDays();
      var total, created, updated := SyncFromData(data.value);
      forall d | Printable(d)
        ensures OpenAt(rows, Format(d)) ==
                if startYear <= d.year <= endYear then d in source else OpenAt(before, Format(d))
      {
        InWholeYears(startYear, endYear, d);
        CalendarFollowsSource(before, start, end, source, d);
        if !(startYear <= d.year <= endYear) {
          SameOpen(before, rows, Format(d));
        }
      }
      TradingDays();
      return Some((total, created, updated));
    }

    method GetNextTradingDay(date: string) returns (next: string)
      ensures if HasLater(rows, date) then IsNext(rows, date, next) else next == DayAfter(date)
    {
      var found: Option<string> := None;
      var todo := rows.Keys;
      while todo != {}
        invariant todo <= rows.Keys
        invariant found.None? ==> forall s :: s in rows.Keys - todo ==> !(OpenAt(rows, s) && Less(date, s))
        invariant found.Some? ==>
                    && OpenAt(rows, found.value) && Less(date, found.value)
                    && forall s :: s in rows.Keys - todo && OpenAt(rows, s) && Less(date, s) ==>
                         s == found.value || Less(found.value, s)
        decreases |todo|
      {
        var s :| s in todo;
        todo := todo - {s};
        if rows[s] && Less(date, s) {
          if found.None? {
            found := Some(s);
          } else {
            LessTotal(s, found.value);
            if Less(s, found.value) {
              forall t | Less(found.value, t)
                ensures Less(s, t)
              {
                LessTransitive(s, found.value, t);
              }
              found := Some(s);
            }
          }
        }
      }
      return if found.Some? then found.value else DayAfter(date);
    }

    method GetPreviousTradingDay(date: string) returns (previous: string)
      ensures if HasEarlier(rows, date) then IsPrevious(rows, date, previous) else previous == DayBefore(date)
    {
      var found: Option<string> := None;
      var todo := rows.Keys;
      while todo != {}
        invariant todo <= rows.Keys
        invariant found.None? ==> forall s :: s in rows.Keys - todo ==> !(OpenAt(rows, s) && Less(s, date))
        invariant found.Some? ==>
                    && OpenAt(rows, found.value) && Less(found.value, date)
                    && forall s :: s in rows.Keys - todo && OpenAt(rows, s) && Less(s, date) ==>
                         s == found.value || Less(s, found.value)
        decreases |todo|
      {
        var s :| s in todo;
        todo := todo - {s};
        if rows[s] && Less(s, date) {
          if found.None? {
            found := Some(s);
          } else {
            LessTotal(s, found.value);
            if Less(found.value, s) {
              forall t | Less(t, found.value)
                ensures Less(t, s)
              {
                LessTransitive(t, found.value, s);
              }
              found := Some(s);
            }
          }
        }
      }
      return if found.Some? then found.value else DayBefore(date);
    }
  }
}

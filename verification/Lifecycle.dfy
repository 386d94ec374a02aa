/** Subscription and redemption records: created open, confirmed once, with the day a position changes. */
module Lifecycle {
  import opened Common
  import opened Dates
  import opened Calendar

  datatype Kind = SUBSCRIPTION | REDEMPTION

  datatype Status = OPEN | CLOSE

  datatype Record = Record(
    fundAccount: string, direction: Kind, amount: int, reduceDay: Option<string>, remark: Option<string>,
    positionChangeDay: Option<string>, status: Status)

  type Records = map<nat, Record>

  datatype CreateDto = CreateDto(
    fundAccount: string, direction: Kind, amount: int, reduceDay: Option<string>, remark: Option<string>)

  // ---- the next trading day ------------------------------------------------------

  /** Saturdays and Sundays are skipped; at most two steps are needed. */
  function SkipWeekend(d: Date): Date
    requires Valid(d)
    decreases 7 - (Weekday(d) + 1) % 7
  {
    NextOrdinal(d);
    if Weekday(d) == 0 || Weekday(d) == 6 then SkipWeekend(Next(d)) else d
  }

  lemma {:induction false} SkipWeekendLater(d: Date)
    requires Valid(d)
    ensures Valid(SkipWeekend(d)) && Ordinal(d) <= Ordinal(SkipWeekend(d)) <= Ordinal(d) + 2
    ensures 1 <= Weekday(SkipWeekend(d)) <= 5
    decreases 7 - (Weekday(d) + 1) % 7
  {
    hide Ordinal;
    NextOrdinal(d);
    NextOrdinal(Next(d));
    if Weekday(d) == 0 || Weekday(d) == 6 {
      SkipWeekendLater(Next(d));
    }
  }

  lemma LastDateIsFriday()
    ensures Ordinal(LAST_DATE) == 3652059 && Weekday(LAST_DATE) == 5
  {
    DaysBeforeYearClosed(9999);
    YearLength(9999);
  }

  lemma SkipWeekendOnly(d: Date)
    requires Valid(d)
    ensures 1 <= Weekday(d) <= 5 ==> SkipWeekend(d) == d
  {
  }

  /** The weekend rule stays within four-digit years, 9999-12-31 being a Friday. */
  lemma SkipWeekendPrintable(d: Date)
    requires Printable(d)
    ensures Printable(SkipWeekend(d))
  {
    hide Ordinal, SkipWeekend;
    LastDateIsFriday();
    SkipWeekendLater(d);
    SkipWeekendOnly(d);
    OrdinalOrder(d, LAST_DATE);
    OrdinalOrder(SkipWeekend(d), LAST_DATE);
    if Ordinal(d) >= 3652058 {
      assert Weekday(d) == 4 || Weekday(d) == 5;
    }
  }

  /** The weekend rule gives a later weekday, at most three days on. */
  lemma FallbackIsLater(d: Date)
    requires Printable(d) && d != LAST_DATE
    ensures Less(Format(d), Format(SkipWeekend(Next(d))))
    ensures Ordinal(SkipWeekend(Next(d))) <= Ordinal(d) + 3 && 1 <= Weekday(SkipWeekend(Next(d))) <= 5
  {
    NextOrdinal(d);
    SkipWeekendLater(Next(d));
    SkipWeekendPrintable(Next(d));
    FormatOrder(d, SkipWeekend(Next(d)));
  }

  /** What a lookup may find: the calendar answers, or its database is down. */
  datatype Lookup = Answers(rows: Rows) | Unavailable

  /** The three paths: a later open day, none on record, no calendar at all. */
  ghost predicate NextDay(lookup: Lookup, base: Date, day: string)
    requires Valid(base)
  {
    match lookup
    case Answers(rows) =>
      if HasLater(rows, Format(base)) then IsNext(rows, Format(base), day) else day == Format(Next(base))
    case Unavailable => NextOrdinal(base); day == Format(SkipWeekend(Next(base)))
  }

  /** The day handed out for a base day given as text. */
  ghost predicate DayFor(lookup: Lookup, base: string, day: string) {
    ParseBaseDate(base).Some? && NextDay(lookup, ParseBaseDate(base).value, day)
  }

  lemma FallbackAfterLastDate()
    ensures SkipWeekend(Next(LAST_DATE)) == Date(10000, 1, 3)
  {
    LastDateIsFriday();
    var saturday, sunday, monday := Date(10000, 1, 1), Date(10000, 1, 2), Date(10000, 1, 3);
    NextOrdinal(LAST_DATE);
    NextOrdinal(saturday);
    NextOrdinal(sunday);
    assert Weekday(saturday) == 6 && Weekday(sunday) == 0 && Weekday(monday) == 1;
    assert SkipWeekend(saturday) == SkipWeekend(sunday) && SkipWeekend(sunday) == SkipWeekend(monday);
  }

  /** The day handed out is later than its base day exactly when that is not 9999-12-31 or a calendar row is later. */
  lemma NextDayIsLater(lookup: Lookup, base: Date, day: string)
    requires Printable(base) && NextDay(lookup, base, day)
    ensures Less(Format(base), day) <==>
            base != LAST_DATE || (lookup.Answers? && HasLater(lookup.rows, Format(base)))
  {
    NextDayTextIsLater(base);
    if base != LAST_DATE {
      FallbackIsLater(base);
    } else {
      FallbackAfterLastDate();
      YearTenThousand(1, 3);
    }
  }

  // ---- what a record keeps ---------------------------------------------------------

  predicate Given(text: Option<string>) {
    text.Some? && text.value != ""
  }

  predicate LaterThan(base: string, day: string) {
    base == Format(LAST_DATE) || Less(base, day)
  }

  /**
   A subscription has its day exactly when it is closed; a redemption has it exactly when it was created
   with a reduce day, and then it is a later day.
   */
  predicate RecordOk(r: Record) {
    match r.direction
    case SUBSCRIPTION => r.positionChangeDay.Some? <==> r.status == CLOSE
    case REDEMPTION =>
      && (r.positionChangeDay.Some? <==> Given(r.reduceDay))
      && (r.positionChangeDay.Some? ==> LaterThan(r.reduceDay.value, r.positionChangeDay.value))
  }

  ghost predicate AllOk(records: Records) {
    forall id :: id in records ==> RecordOk(records[id])
  }

  /** What any number of operations may do to a record: nothing once closed, and never to a redemption's day. */
  predicate Evolves(a: Record, b: Record) {
    && b.direction == a.direction && b.fundAccount == a.fundAccount
    && b.amount == a.amount && b.reduceDay == a.reduceDay
    && (a.status == CLOSE ==> b == a)
    && (a.direction == REDEMPTION ==> b.positionChangeDay == a.positionChangeDay)
  }

  ghost predicate AllEvolve(a: Records, b: Records) {
    forall id :: id in a ==> id in b && Evolves(a[id], b[id])
  }

  // ---- runs of operations --------------------------------------------------------

  /** The table of records and the id that the next one gets. */
  datatype Book = Book(records: Records, nextId: nat)

  const NO_RECORDS := Book(map[], 1)

  /** `lookup` is what the calendar answers at the time, `day` what was handed out, if a day was asked for. */
  datatype Operation =
    | Create(dto: CreateDto, lookup: Lookup, day: string)
    | Confirm(id: nat, transferDate: string, lookup: Lookup, day: string)
    | Update(id: nat, remark: Option<string>)

  predicate IsOpen(b: Book, id: nat) {
    id in b.records && b.records[id].status == OPEN
  }

  /** The base day an operation asks the next trading day of, if it asks at all. */
  function Asked(b: Book, op: Operation): Option<string> {
    match op
    case Create(dto, _, _) => if dto.direction == REDEMPTION && Given(dto.reduceDay) then dto.reduceDay else None
    case Confirm(id, date, _, _) =>
      if IsOpen(b, id) && b.records[id].direction == SUBSCRIPTION then Some(date) else None
    case Update(_, _) => None
  }

  /** The day asked for was handed out by one of the three lookup paths. */
  ghost predicate Answered(b: Book, op: Operation) {
    var base := Asked(b, op);
    base.Some? && ParseBaseDate(base.value).Some? ==> DayFor(op.lookup, base.value, op.day)
  }

  predicate Accepted(b: Book, op: Operation) {
    && (op.Create? || IsOpen(b, op.id))
    && (Asked(b, op).Some? ==> ParseBaseDate(Asked(b, op).value).Some?)
  }

  /** The book after an operation; a refused one leaves it alone. */
  function After(b: Book, op: Operation): Book {
    if !Accepted(b, op) then b
    else
      var asks := Asked(b, op).Some?;
      match op
      case Create(dto, _, day) =>
        var record := Record(dto.fundAccount, dto.direction, dto.amount, dto.reduceDay, dto.remark,
                             if asks then Some(day) else None, OPEN);
        Book(b.records[b.nextId := record], b.nextId + 1)
      case Confirm(id, _, _, day) =>
        var a := b.records[id];
        var positionChangeDay := if asks then Some(day) else a.positionChangeDay;
        b.(records := b.records[id := a.(status := CLOSE, positionChangeDay := positionChangeDay)])
      case Update(id, remark) =>
        var a := b.records[id];
        b.(records := b.records[id := a.(remark := if remark.Some? then remark else a.remark)])
  }

  function AfterAll(ops: seq<Operation>): Book {
    if ops == [] then NO_RECORDS else After(AfterAll(ops[..|ops| - 1]), ops[|ops| - 1])
  }

  ghost predicate AllAnswered(ops: seq<Operation>) {
    forall n {:trigger ops[n]} :: 0 <= n < |ops| ==> Answered(AfterAll(ops[..n]), ops[n])
  }

  ghost predicate BookOk(b: Book) {
    AllOk(b.records) && forall id :: id in b.records ==> id < b.nextId
  }

  lemma HandedOutLater(lookup: Lookup, base: string, day: string)
    requires DayFor(lookup, base, day)
    ensures LaterThan(base, day)
  {
    FormatOfParse(base);
    NextDayIsLater(lookup, ParseBaseDate(base).value, day);
  }

  /** An operation keeps every record in order, and a day it hands out is later than the base day. */
  lemma OperationKeepsOk(b: Book, op: Operation)
    requires BookOk(b) && Answered(b, op)
    ensures BookOk(After(b, op)) && AllEvolve(b.records, After(b, op).records)
    ensures Accepted(b, op) && Asked(b, op).Some? ==> LaterThan(Asked(b, op).value, op.day)
  {
    hide DayFor, ParseBaseDate, LaterThan;
    if Accepted(b, op) && Asked(b, op).Some? {
      HandedOutLater(op.lookup, Asked(b, op).value, op.day);
    }
  }

  /**
   Over every run of operations from the empty table, whatever the calendar answers at each: every
   subscription has its day exactly when it is closed and every redemption its later day exactly when it was
   created with a reduce day; from each state to every later one closed records are as they were and
   redemptions keep their day; and every day handed out is later than its base day.
   */
  lemma {:induction false} EveryRunOk(ops: seq<Operation>, i: nat, j: nat)
    requires i <= j <= |ops| && AllAnswered(ops)
    ensures BookOk(AfterAll(ops[..j])) && AllEvolve(AfterAll(ops[..i]).records, AfterAll(ops[..j]).records)
    ensures j < |ops| ==>
              var b := AfterAll(ops[..j]);
              Accepted(b, ops[j]) && Asked(b, ops[j]).Some? ==> LaterThan(Asked(b, ops[j]).value, ops[j].day)
    decreases j
  {
    hide After, Accepted, Asked, Answered, LaterThan, RecordOk;
    if j == 0 {
      assert ops[..0] == [];
    } else {
      EveryRunOk(ops, if i < j then i else j - 1, j - 1);
      assert ops[..j][..j - 1] == ops[..j - 1] && ops[..j][j - 1] == ops[j - 1];
      assert Answered(AfterAll(ops[..j - 1]), ops[j - 1]);
      OperationKeepsOk(AfterAll(ops[..j - 1]), ops[j - 1]);
    }
    if j < |ops| {
      assert Answered(AfterAll(ops[..j]), ops[j]);
      OperationKeepsOk(AfterAll(ops[..j]), ops[j]);
    }
  }

  // ---- what each operation does ----------------------------------------------------

  /** A redemption that names a reduce day. */
  predicate HasReduceDay(dto: CreateDto) {
    dto.direction == REDEMPTION && dto.reduceDay.Some? && dto.reduceDay.value != ""
  }

  /** The new record holds what was asked for and is open; it has a day exactly for a redemption with a reduce day. */
  ghost predicate Opens(r: Record, dto: CreateDto, lookup: Lookup) {
    && r.fundAccount == dto.fundAccount && r.direction == dto.direction && r.amount == dto.amount
    && r.reduceDay == dto.reduceDay && r.remark == dto.remark && r.status == OPEN
    && (r.positionChangeDay.Some? <==> HasReduceDay(dto))
    && (HasReduceDay(dto) ==> DayFor(lookup, dto.reduceDay.value, r.positionChangeDay.value))
  }

  /** The record is closed; a subscription has its day, a redemption the one it had, and nothing else changed. */
  ghost predicate Closes(a: Record, b: Record, transferDate: string, lookup: Lookup) {
    && a.status == OPEN && b.status == CLOSE
    && b.fundAccount == a.fundAccount && b.direction == a.direction && b.amount == a.amount
    && b.reduceDay == a.reduceDay && b.remark == a.remark
    && if a.direction == REDEMPTION then b.positionChangeDay == a.positionChangeDay
       else b.positionChangeDay.Some? && DayFor(lookup, transferDate, b.positionChangeDay.value)
  }

  /** Only the remark changed, to the one given if there is one. */
  predicate Remarks(a: Record, b: Record, remark: Option<string>) {
    && a.status == OPEN && b.status == OPEN
    && b.fundAccount == a.fundAccount && b.direction == a.direction && b.amount == a.amount
    && b.reduceDay == a.reduceDay && b.positionChangeDay == a.positionChangeDay
    && b.remark == match remark case Some(_) => remark case None => a.remark
  }

  /** One record is another, the rest is as it was. */
  predicate OneRecord(a: Records, b: Records, id: nat) {
    id in a && id in b && b == a[id := b[id]]
  }

  /** When an operation is accepted, on the records alone. */
  predicate Takes(records: Records, op: Operation) {
    match op
    case Create(dto, _, _) => HasReduceDay(dto) ==> ParseBaseDate(dto.reduceDay.value).Some?
    case Confirm(id, transferDate, _, _) =>
      && id in records && records[id].status == OPEN
      && (records[id].direction == SUBSCRIPTION ==> ParseBaseDate(transferDate).Some?)
    case Update(id, _) => id in records && records[id].status == OPEN
  }

  /** What an operation does to the records: a refused one nothing. */
  ghost predicate Does(a: Book, b: Book, op: Operation) {
    if !Takes(a.records, op) then b == a
    else
      match op
      case Create(dto, lookup, _) =>
        && b.nextId == a.nextId + 1 && a.nextId in b.records
        && b.records == a.records[a.nextId := b.records[a.nextId]] && Opens(b.records[a.nextId], dto, lookup)
      case Confirm(id, transferDate, lookup, _) =>
        && b.nextId == a.nextId && OneRecord(a.records, b.records, id)
        && Closes(a.records[id], b.records[id], transferDate, lookup)
      case Update(id, remark) =>
        && b.nextId == a.nextId && OneRecord(a.records, b.records, id)
        && Remarks(a.records[id], b.records[id], remark)
  }

  /** Every operation of a run does what it is for. */
  lemma OperationDoes(b: Book, op: Operation)
    requires Answered(b, op)
    ensures Accepted(b, op) <==> Takes(b.records, op)
    ensures Does(b, After(b, op), op)
  {
    hide DayFor, ParseBaseDate;
  }

  /** A confirmed record is closed in every later state of every run. */
  lemma ConfirmedStaysClosed(ops: seq<Operation>, i: nat, j: nat)
    requires i < j <= |ops| && AllAnswered(ops) && ops[i].Confirm? && Takes(AfterAll(ops[..i]).records, ops[i])
    ensures ops[i].id in AfterAll(ops[..j]).records && AfterAll(ops[..j]).records[ops[i].id].status == CLOSE
  {
    hide After, DayFor, ParseBaseDate, Accepted;
    assert Answered(AfterAll(ops[..i]), ops[i]);
    assert ops[..i + 1][..i] == ops[..i] && ops[..i + 1][i] == ops[i];
    OperationDoes(AfterAll(ops[..i]), ops[i]);
    EveryRunOk(ops, i + 1, j);
  }

  // ---- the code --------------------------------------------------------------------

  /** The loop that skips Saturdays and Sundays. */
  method WeekendSkipping(base: Date) returns (next: Date)
    requires Valid(base)
    ensures next == SkipWeekend(Next(base))
  {
    hide Ordinal, Next, Valid;
    NextOrdinal(base);
    next := Next(base);
    while Weekday(next) == 0 || Weekday(next) == 6
      invariant Valid(next) && SkipWeekend(next) == SkipWeekend(Next(base))
      decreases 7 - (Weekday(next) + 1) % 7
    {
      NextOrdinal(next);
      next := Next(next);
    }
  }

  class FundAccountService {
    const calendar: TradingCalendarService
    /** What the calendar answers when asked: its rows, or nothing when its database is down. */
    ghost function LookupNow(available: bool): Lookup
      reads calendar
    {
      if available then Answers(calendar.rows) else Unavailable
    }

    var records: Records
    var nextId: nat

    constructor (calendar: TradingCalendarService)
      ensures this.calendar == calendar && Here() == NO_RECORDS
    {
      this.calendar, records, nextId := calendar, map[], 1;
    }

    function Here(): Book
      reads this
    {
      Book(records, nextId)
    }

    /** Refuses what is no date; otherwise asks the calendar, and skips weekends when it cannot answer. */
    method GetNextTradingDay(base: string, available: bool) returns (r: Result<string>)
      ensures r.Ok? <==> ParseBaseDate(base).Some?
      ensures r.Ok? ==> DayFor(LookupNow(available), base, r.value) && LaterThan(base, r.value)
    {
      var parsed := ParseBaseDate(base);
      if parsed.None? {
        return Err("base_date must be YYYY-MM-DD");
      }
      FormatOfParse(base);
      var day: string;
      if available {
        day := calendar.GetNextTradingDay(base);
      } else {
        var next := WeekendSkipping(parsed.value);
        day := Format(next);
      }
      NextDayIsLater(LookupNow(available), parsed.value, day);
      return Ok(day);
    }

    /** Opens a record; only a redemption with a reduce day gets its day at once. */
    method CreateSubscriptionRedemption(dto: CreateDto, available: bool) returns (r: Result<nat>, ghost op: Operation)
      modifies this
      ensures op.Create? && op.dto == dto && op.lookup == LookupNow(available) && Answered(old(Here()), op)
      ensures Here() == After(old(Here()), op)
      ensures r.Ok? <==> (HasReduceDay(dto) ==> ParseBaseDate(dto.reduceDay.value).Some?)
      ensures r.Ok? ==>
                && r.value == old(nextId) && nextId == old(nextId) + 1 && r.value in records
                && records == old(records)[r.value := records[r.value]]
                && Opens(records[r.value], dto, LookupNow(available))
      ensures r.Err? ==> records == old(records) && nextId == old(nextId)
    {
      hide DayFor, ParseBaseDate, Less, Format;
      op := Create(dto, LookupNow(available), "");
      var day: Option<string> := None;
      if dto.direction == REDEMPTION && Given(dto.reduceDay) {
        var next := GetNextTradingDay(dto.reduceDay.value, available);
        if next.Err? {
          return Err(next.message), op;
        }
        day := Some(next.value);
        op := Create(dto, LookupNow(available), next.value);
      }
      var id := nextId;
      var record := Record(dto.fundAccount, dto.direction, dto.amount, dto.reduceDay, dto.remark, day, OPEN);
      records := records[id := record];
      nextId := nextId + 1;
      return Ok(id), op;
    }

    /** Closes an open record; a subscription gets its day, later than the transfer date. */
    method ConfirmSubscriptionRedemption(id: nat, transferDate: string, available: bool)
      returns (r: Result<Record>, ghost op: Operation)
      modifies this
      ensures op.Confirm? && op.id == id && op.transferDate == transferDate && op.lookup == LookupNow(available)
      ensures Answered(old(Here()), op) && Here() == After(old(Here()), op) && nextId == old(nextId)
      ensures r.Ok? <==>
              && id in old(records) && old(records)[id].status == OPEN
              && (old(records)[id].direction == SUBSCRIPTION ==> ParseBaseDate(transferDate).Some?)
      ensures r.Ok? ==>
                && OneRecord(old(records), records, id) && r.value == records[id]
                && Closes(old(records)[id], records[id], transferDate, LookupNow(available))
      ensures r.Err? ==> records == old(records)
    {
      hide DayFor, ParseBaseDate, Less, Format;
      op := Confirm(id, transferDate, LookupNow(available), "");
      if id !in records {
        return Err("record not found"), op;
      }
      var record := records[id];
      if record.status == CLOSE {
        return Err("record is already closed"), op;
      }
      var updated := record.(status := CLOSE);
      if record.direction == SUBSCRIPTION {
        var next := GetNextTradingDay(transferDate, available);
        if next.Err? {
          return Err(next.message), op;
        }
        updated := updated.(positionChangeDay := Some(next.value));
        op := Confirm(id, transferDate, LookupNow(available), next.value);
      }
      records := records[id := updated];
      return Ok(updated), op;
    }

    /** Only an open record's remark can be changed; an absent remark leaves it. */
    method UpdateSubscriptionRedemption(id: nat, remark: Option<string>) returns (ok: bool)
      modifies this
      ensures Here() == After(old(Here()), Update(id, remark)) && nextId == old(nextId)
      ensures ok <==> id in old(records) && old(records)[id].status == OPEN
      ensures ok ==> OneRecord(old(records), records, id) && Remarks(old(records)[id], records[id], remark)
      ensures !ok ==> records == old(records)
    {
      if id !in records || records[id].status == CLOSE {
        return false;
      }
      records := records[id := records[id].(remark := if remark.Some? then remark else records[id].remark)];
      return true;
    }
  }
}

/** The elapsed time of a process as ps prints it, [[dd-]hh:]mm:ss, read back into seconds. */
module Etime {
  import opened Common
  import opened Dates
  import opened Texts

  /** A decimal text as a number; an empty one is 0 and None stands for NaN. Other numerals are not modelled. */
  function Number(s: string): Option<nat> {
    if AllDigits(s) then Some(NumberOf(s)) else None
  }

  /** parseInt: an empty text is no number. */
  function ParseInt(s: string): Option<nat> {
    if s == "" then None else Number(s)
  }

  function OrZero(n: Option<nat>): nat {
    if n.Some? then n.value else 0
  }

  /** A piece that is missing or no number counts as 0. */
  function PieceOrZero(pieces: seq<string>, i: nat): nat {
    if i < |pieces| then OrZero(Number(pieces[i])) else 0
  }

  function ParseEtime(etime: string): Option<nat> {
    if etime == "" then Some(0)
    else if '-' in etime then
      var halves := Split(etime, '-');
      var time := if |halves| > 1 then Split(halves[1], ':') else [];
      match ParseInt(halves[0])
      case None => None
      case Some(days) =>
        Some(days * 86400 + PieceOrZero(time, 0) * 3600 + PieceOrZero(time, 1) * 60 + PieceOrZero(time, 2))
    else
      var parts := Split(etime, ':');
      if |parts| == 3 then
        match (Number(parts[0]), Number(parts[1]), Number(parts[2]))
        case (Some(h), Some(m), Some(s)) => Some(h * 3600 + m * 60 + s)
        case _ => None
      else if |parts| == 2 then
        match (Number(parts[0]), Number(parts[1]))
        case (Some(m), Some(s)) => Some(m * 60 + s)
        case _ => None
      else Some(0)
  }

  // ---- the printer ---------------------------------------------------------------

  function Clock(minutes: nat, seconds: nat): string {
    Pad(minutes, 2) + ([':'] + Pad(seconds, 2))
  }

  function LongClock(hours: nat, minutes: nat, seconds: nat): string {
    Pad(hours, 2) + ([':'] + Clock(minutes, seconds))
  }

  /** Days only when there are some, hours only when there are some or there are days. */
  function PrintEtime(total: nat, daysText: string): string {
    var days, hours, minutes, seconds := total / 86400, total / 3600 % 24, total / 60 % 60, total % 60;
    if days > 0 then daysText + (['-'] + LongClock(hours, minutes, seconds))
    else if hours > 0 then LongClock(hours, minutes, seconds)
    else Clock(minutes, seconds)
  }

  lemma TwoDigits(n: nat)
    requires n < 100
    ensures AllDigits(Pad(n, 2)) && Number(Pad(n, 2)) == Some(n) && ':' !in Pad(n, 2) && '-' !in Pad(n, 2)
  {
    assert Pow10(2) == 100 by { assert Pow10(1) == 10; }
    NumberOfPad(n, 2);
  }

  lemma ClockPieces(hours: nat, minutes: nat, seconds: nat)
    requires hours < 100 && minutes < 100 && seconds < 100
    ensures Split(Clock(minutes, seconds), ':') == [Pad(minutes, 2), Pad(seconds, 2)]
    ensures Split(LongClock(hours, minutes, seconds), ':') == [Pad(hours, 2), Pad(minutes, 2), Pad(seconds, 2)]
    ensures '-' !in Clock(minutes, seconds) && '-' !in LongClock(hours, minutes, seconds)
  {
    TwoDigits(hours);
    TwoDigits(minutes);
    TwoDigits(seconds);
    SplitWhole(Pad(seconds, 2), ':');
    SplitAt(Pad(minutes, 2), ':', Pad(seconds, 2));
    SplitAt(Pad(hours, 2), ':', Clock(minutes, seconds));
  }

  lemma SecondsAddUp(total: nat)
    ensures total == total / 86400 * 86400 + total / 3600 % 24 * 3600 + total / 60 % 60 * 60 + total % 60
    ensures total / 3600 % 24 < 24 && total / 60 % 60 < 60 && total % 60 < 60
  {
  }

  lemma ParseDaysForm(daysText: string, hours: nat, minutes: nat, seconds: nat)
    requires daysText != "" && AllDigits(daysText) && hours < 100 && minutes < 100 && seconds < 100
    ensures ParseEtime(daysText + (['-'] + LongClock(hours, minutes, seconds)))
            == Some(NumberOf(daysText) * 86400 + hours * 3600 + minutes * 60 + seconds)
  {
    hide Pad, NumberOf, LongClock, Split;
    var clock := LongClock(hours, minutes, seconds);
    TwoDigits(hours);
    TwoDigits(minutes);
    TwoDigits(seconds);
    ClockPieces(hours, minutes, seconds);
    assert '-' !in daysText;
    SplitAt(daysText, '-', clock);
    SplitWhole(clock, '-');
    assert (daysText + (['-'] + clock))[|daysText|] == '-';
  }

  lemma ParseClockForms(hours: nat, minutes: nat, seconds: nat)
    requires hours < 100 && minutes < 100 && seconds < 100
    ensures ParseEtime(LongClock(hours, minutes, seconds)) == Some(hours * 3600 + minutes * 60 + seconds)
    ensures ParseEtime(Clock(minutes, seconds)) == Some(minutes * 60 + seconds)
  {
    hide NumberOf, Split;
    TwoDigits(hours);
    TwoDigits(minutes);
    TwoDigits(seconds);
    ClockPieces(hours, minutes, seconds);
  }

  /** Every number of seconds comes back, with or without leading zeros on the days. */
  lemma ParseInvertsPrint(total: nat, daysText: string)
    requires daysText != "" && AllDigits(daysText) && NumberOf(daysText) == total / 86400
    ensures ParseEtime(PrintEtime(total, daysText)) == Some(total)
  {
    hide ParseEtime, Clock, LongClock;
    var hours, minutes, seconds := total / 3600 % 24, total / 60 % 60, total % 60;
    SecondsAddUp(total);
    ParseDaysForm(daysText, hours, minutes, seconds);
    ParseClockForms(hours, minutes, seconds);
  }

  /** A time of one piece after days: what is missing or no number counts as 0. Without days one piece is 0. */
  lemma ParseOfPieces(daysText: string, piece: string)
    requires daysText != "" && AllDigits(daysText) && '-' !in piece && ':' !in piece
    ensures ParseEtime(daysText + (['-'] + piece))
            == Some(NumberOf(daysText) * 86400 + if AllDigits(piece) then NumberOf(piece) * 3600 else 0)
    ensures ParseEtime(piece) == Some(0)
  {
    hide NumberOf, Split;
    assert '-' !in daysText;
    SplitAt(daysText, '-', piece);
    SplitWhole(piece, '-');
    SplitWhole(piece, ':');
    assert (daysText + (['-'] + piece))[|daysText|] == '-';
  }
}

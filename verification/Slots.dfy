/** Stable identities of projected occurrences. */
module Slots {
  import opened Calendar
  import opened Recurrence
  import opened Text

  /** A whole number as `{}` prints it. */
  function Integer(n: int): string {
    if n < 0 then "-" + Decimal(-n) else Decimal(n)
  }

  /** Integer division as the source does it, toward zero. */
  function Quotient(n: int, d: int): int
    requires d > 0
  {
    if n < 0 then -(-n / d) else n / d
  }

  function YearMonth(date: IsoDate): (s: string)
    ensures |s| == 7
  {
    Digits(date.y, 4) + "-" + Digits(date.m, 2)
  }

  function ProjectionSlot(frequency: Frequency, anchor: IsoDate, occurrence: IsoDate): string {
    match frequency
    case Monthly => "monthly:" + YearMonth(occurrence)
    case Semimonthly => "semimonthly:" + YearMonth(occurrence) + ":" + (if occurrence.d == 15 then "mid" else "end")
    case Weekly => "weekly:" + Integer(Quotient(DaysUntil(anchor, occurrence), 7))
    case Biweekly => "biweekly:" + Integer(Quotient(DaysUntil(anchor, occurrence), 14))
    case Annual => "annual:" + Digits(occurrence.y, 4)
    case OneTime => "one_time"
  }

  function SourceId(scheduleId: nat, slot: string): string {
    "stream_schedule:" + Decimal(scheduleId) + ":" + slot
  }

  lemma SamePrefix(p: string, a: string, b: string)
    requires p + a == p + b
    ensures a == b
  {
    assert a == (p + a)[|p|..];
    assert b == (p + b)[|p|..];
  }

  lemma IntegerIsInjective(n: int, m: int)
    requires n >= 0 && m >= 0 && Integer(n) == Integer(m)
    ensures n == m
  {
    DecimalIsInjective(n, m);
  }

  lemma YearMonthIsInjective(a: IsoDate, b: IsoDate)
    requires YearMonth(a) == YearMonth(b)
    ensures a.y == b.y && a.m == b.m
  {
    assert Pow10(2) == 100;
    assert Pow10(4) == 100 * Pow10(2) by { assert Pow10(3) == 10 * Pow10(2); }
    assert Digits(a.y, 4) == YearMonth(a)[..4] && Digits(b.y, 4) == YearMonth(b)[..4];
    assert Digits(a.m, 2) == YearMonth(a)[5..] && Digits(b.m, 2) == YearMonth(b)[5..];
    DigitsOrder(a.y, b.y, 4);
    DigitsOrder(a.m, b.m, 2);
  }

  /** Two schedules never share a source id, and within one schedule the slot
      alone tells two source ids apart. */
  lemma SourceIdIsInjective(id: nat, slot: string, id': nat, slot': string)
    requires SourceId(id, slot) == SourceId(id', slot')
    ensures id == id' && slot == slot'
  {
    var a, a' := Decimal(id) + [':'] + slot, Decimal(id') + [':'] + slot';
    assert SourceId(id, slot) == "stream_schedule:" + a;
    assert SourceId(id', slot') == "stream_schedule:" + a';
    SamePrefix("stream_schedule:", a, a');
    SplitsOnce(Decimal(id), Decimal(id'), ':', slot, slot');
    DecimalIsInjective(id, id');
  }

  /** Distinct occurrences of one schedule have distinct slots. */
  lemma SlotsAreDistinct(rule: Rule, a: IsoDate, b: IsoDate)
    requires Recurs(rule, a) && Day(rule.anchor) <= Day(a)
    requires Recurs(rule, b) && Day(rule.anchor) <= Day(b)
    requires ProjectionSlot(rule.frequency, rule.anchor, a) == ProjectionSlot(rule.frequency, rule.anchor, b)
    ensures a == b
  {
    hide Day;
    hide Digits;
    OrderIsDayOrder(a, b);
    match rule.frequency
    case Monthly =>
      SamePrefix("monthly:", YearMonth(a), YearMonth(b));
      YearMonthIsInjective(a, b);
    case Semimonthly =>
      SemimonthlySlots(a, b);
    case Weekly =>
      SamePrefix("weekly:", Integer(DaysUntil(rule.anchor, a) / 7), Integer(DaysUntil(rule.anchor, b) / 7));
      IntegerIsInjective(DaysUntil(rule.anchor, a) / 7, DaysUntil(rule.anchor, b) / 7);
    case Biweekly =>
      SamePrefix("biweekly:", Integer(DaysUntil(rule.anchor, a) / 14), Integer(DaysUntil(rule.anchor, b) / 14));
      IntegerIsInjective(DaysUntil(rule.anchor, a) / 14, DaysUntil(rule.anchor, b) / 14);
    case Annual =>
      SamePrefix("annual:", Digits(a.y, 4), Digits(b.y, 4));
      FourDigits(a.y, b.y);
    case OneTime =>
  }

  lemma FourDigits(n: nat, m: nat)
    requires n < 10000 && m < 10000 && Digits(n, 4) == Digits(m, 4)
    ensures n == m
  {
    assert Pow10(3) == 10 * Pow10(2) && Pow10(4) == 10 * Pow10(3);
    DigitsOrder(n, m, 4);
  }

  lemma SemimonthlySlots(a: IsoDate, b: IsoDate)
    requires a.d == 15 || a.d == DaysIn(a.y, a.m)
    requires b.d == 15 || b.d == DaysIn(b.y, b.m)
    requires ProjectionSlot(Semimonthly, a, a) == ProjectionSlot(Semimonthly, b, b)
    ensures a == b
  {
    var halfA, halfB := if a.d == 15 then "mid" else "end", if b.d == 15 then "mid" else "end";
    var restA, restB := YearMonth(a) + ":" + halfA, YearMonth(b) + ":" + halfB;
    assert ProjectionSlot(Semimonthly, a, a) == "semimonthly:" + restA;
    assert ProjectionSlot(Semimonthly, b, b) == "semimonthly:" + restB;
    SamePrefix("semimonthly:", restA, restB);
    assert restA[..7] == YearMonth(a) && restB[..7] == YearMonth(b);
    assert restA[8..] == halfA && restB[8..] == halfB;
    assert "mid"[0] != "end"[0];
    YearMonthIsInjective(a, b);
  }

  /** A monthly slot depends on the month alone: editing the due day or the
      start date keeps each month's slot, and no other month has it. */
  lemma MonthlySlotIsTheMonth(anchor: IsoDate, a: IsoDate, anchor': IsoDate, b: IsoDate)
    ensures ProjectionSlot(Monthly, anchor, a) == ProjectionSlot(Monthly, anchor', b) <==>
              a.y == b.y && a.m == b.m
  {
    if ProjectionSlot(Monthly, anchor, a) == ProjectionSlot(Monthly, anchor', b) {
      SamePrefix("monthly:", YearMonth(a), YearMonth(b));
      YearMonthIsInjective(a, b);
    }
  }

  // ---- the texts on record ----

  /** The source ids of a schedule's occurrences, by frequency. */
  lemma SourceIdTexts(id: nat, anchor: IsoDate, date: IsoDate)
    ensures var month, before := Digits(date.y, 4) + "-" + Digits(date.m, 2),
                "stream_schedule:" + Decimal(id) + ":";
            && SourceId(id, ProjectionSlot(Monthly, anchor, date)) == before + ("monthly:" + month)
            && SourceId(id, ProjectionSlot(Semimonthly, anchor, date))
               == before + ("semimonthly:" + month + (if date.d == 15 then ":mid" else ":end"))
            && SourceId(id, ProjectionSlot(Annual, anchor, date)) == before + ("annual:" + Digits(date.y, 4))
            && SourceId(id, ProjectionSlot(OneTime, anchor, date)) == before + "one_time"
            && (Day(anchor) <= Day(date) ==>
                  && SourceId(id, ProjectionSlot(Weekly, anchor, date))
                     == before + ("weekly:" + Decimal((Day(date) - Day(anchor)) / 7))
                  && SourceId(id, ProjectionSlot(Biweekly, anchor, date))
                     == before + ("biweekly:" + Decimal((Day(date) - Day(anchor)) / 14)))
  {
    hide Day, Decimal, Digits;
    var month := Digits(date.y, 4) + "-" + Digits(date.m, 2);
    assert "semimonthly:" + month + ":" + "mid" == "semimonthly:" + month + ":mid";
    assert "semimonthly:" + month + ":" + "end" == "semimonthly:" + month + ":end";
  }
}

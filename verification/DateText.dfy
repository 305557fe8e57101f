/** The storage text of dates and of UTC timestamps. */
module DateText {
  import opened Wrappers
  import opened Calendar
  import opened Text

  function PrintDate(date: IsoDate): (s: string)
    ensures |s| == 10
  {
    Digits(date.y, 4) + "-" + Digits(date.m, 2) + "-" + Digits(date.d, 2)
  }

  predicate HasDateShape(s: string) {
    && |s| == 10 && s[4] == '-' && s[7] == '-'
    && forall i :: 0 <= i < 10 && i != 4 && i != 7 ==> IsDigit(s[i])
  }

  function ParseDate(s: string): (r: Option<IsoDate>) {
    if HasDateShape(s) then New(ValueOf(s[0..4]), ValueOf(s[5..7]), ValueOf(s[8..10]))
    else None
  }

  lemma PrintThenParse(date: IsoDate)
    ensures ParseDate(PrintDate(date)) == Some(date)
  {
    var s := PrintDate(date);
    assert s[0..4] == Digits(date.y, 4) && s[5..7] == Digits(date.m, 2) && s[8..10] == Digits(date.d, 2);
    assert forall i :: 0 <= i < 4 ==> s[i] == Digits(date.y, 4)[i];
    assert forall i :: 5 <= i < 7 ==> s[i] == Digits(date.m, 2)[i - 5];
    assert forall i :: 8 <= i < 10 ==> s[i] == Digits(date.d, 2)[i - 8];
    Widths();
    ValueOfDigits(date.y, 4);
    ValueOfDigits(date.m, 2);
    ValueOfDigits(date.d, 2);
  }

  lemma Widths()
    ensures Pow10(2) == 100 && Pow10(3) == 1000 && Pow10(4) == 10000
  {
    assert Pow10(3) == 10 * Pow10(2);
    assert Pow10(4) == 10 * Pow10(3);
  }

  lemma ParseThenPrint(s: string)
    requires ParseDate(s).Some?
    ensures PrintDate(ParseDate(s).value) == s
  {
    DigitsOfValue(s[0..4]);
    DigitsOfValue(s[5..7]);
    DigitsOfValue(s[8..10]);
    assert s == s[0..4] + "-" + s[5..7] + "-" + s[8..10];
  }

  /** Text order is calendar order, so comparing stored dates compares dates. */
  lemma DateTextOrder(a: IsoDate, b: IsoDate)
    ensures TextLess(PrintDate(a), PrintDate(b)) <==> Day(a) < Day(b)
    ensures PrintDate(a) == PrintDate(b) <==> a == b
  {
    hide Day;
    hide TextLess;
    Widths();
    DigitsOrder(a.y, b.y, 4);
    DigitsOrder(a.m, b.m, 2);
    DigitsOrder(a.d, b.d, 2);
    var x, y := Digits(a.y, 4), Digits(b.y, 4);
    var restA, restB := Digits(a.m, 2) + "-" + Digits(a.d, 2), Digits(b.m, 2) + "-" + Digits(b.d, 2);
    assert PrintDate(a) == x + ['-'] + restA;
    assert PrintDate(b) == y + ['-'] + restB;
    SeparatedOrder(x, y, '-', restA, restB);
    SeparatedOrder(Digits(a.m, 2), Digits(b.m, 2), '-', Digits(a.d, 2), Digits(b.d, 2));
    OrderIsDayOrder(a, b);
    PrintThenParse(a);
    PrintThenParse(b);
  }

  // ---- timestamps ----

  const DAY_MILLIS := 86400000
  const EPOCH_DAY := 719528 // the day number of 1970-01-01

  /** Unix milliseconds whose UTC date lies in the calendar. */
  type Millis = t: int | -62167219200000 <= t < 253402300800000

  /** Milliseconds since the first day of the calendar. */
  function SinceStart(t: Millis): (n: nat)
    ensures n < (MAX_DAY + 1) * DAY_MILLIS
  {
    t + EPOCH_DAY * DAY_MILLIS
  }

  function DateOf(t: Millis): IsoDate {
    OfDay(SinceStart(t) / DAY_MILLIS)
  }

  function TimeOfDay(t: Millis): (ms: int)
    ensures 0 <= ms < DAY_MILLIS
  {
    SinceStart(t) % DAY_MILLIS
  }

  function PrintClock(hour: nat, minute: nat, second: nat, milli: nat): (s: string)
    ensures |s| == 12
  {
    Digits(hour, 2) + ":" + Digits(minute, 2) + ":" + Digits(second, 2) + "." + Digits(milli, 3)
  }

  function PrintTime(ms: int): (s: string)
    requires 0 <= ms < DAY_MILLIS
    ensures |s| == 12
  {
    PrintClock(ms / 3600000, ms / 60000 % 60, ms / 1000 % 60, ms % 1000)
  }

  function FormatUtcMillis(t: Millis): (s: string)
    ensures |s| == 24
  {
    PrintDate(DateOf(t)) + "T" + PrintTime(TimeOfDay(t)) + "Z"
  }

  lemma ClockTextOrder(h: nat, m: nat, s: nat, u: nat, h': nat, m': nat, s': nat, u': nat)
    requires h < 100 && m < 100 && s < 100 && u < 1000 && h' < 100 && m' < 100 && s' < 100 && u' < 1000
    ensures TextLess(PrintClock(h, m, s, u), PrintClock(h', m', s', u')) <==>
            h < h' || (h == h' && (m < m' || (m == m' && (s < s' || (s == s' && u < u')))))
  {
    hide TextLess;
    hide Digits;
    Widths();
    DigitsOrder(h, h', 2);
    DigitsOrder(m, m', 2);
    DigitsOrder(s, s', 2);
    DigitsOrder(u, u', 3);
    var seconds, seconds' := Digits(s, 2) + ['.'] + Digits(u, 3), Digits(s', 2) + ['.'] + Digits(u', 3);
    var minutes, minutes' := Digits(m, 2) + [':'] + seconds, Digits(m', 2) + [':'] + seconds';
    assert PrintClock(h, m, s, u) == Digits(h, 2) + [':'] + minutes;
    assert PrintClock(h', m', s', u') == Digits(h', 2) + [':'] + minutes';
    SeparatedOrder(Digits(s, 2), Digits(s', 2), '.', Digits(u, 3), Digits(u', 3));
    SeparatedOrder(Digits(m, 2), Digits(m', 2), ':', seconds, seconds');
    SeparatedOrder(Digits(h, 2), Digits(h', 2), ':', minutes, minutes');
  }

  lemma TimeTextOrder(a: int, b: int)
    requires 0 <= a < DAY_MILLIS && 0 <= b < DAY_MILLIS
    ensures TextLess(PrintTime(a), PrintTime(b)) <==> a < b
    ensures PrintTime(a) == PrintTime(b) <==> a == b
  {
    hide TextLess;
    hide PrintClock;
    ClockTextOrder(a / 3600000, a / 60000 % 60, a / 1000 % 60, a % 1000,
                   b / 3600000, b / 60000 % 60, b / 1000 % 60, b % 1000);
    ClockTextOrder(b / 3600000, b / 60000 % 60, b / 1000 % 60, b % 1000,
                   a / 3600000, a / 60000 % 60, a / 1000 % 60, a % 1000);
    ClockFields(a, b);
    ClockFields(b, a);
    LessIsIrreflexive(PrintTime(a));
  }

  /** Hours, minutes, seconds and milliseconds order a day. */
  lemma ClockFields(a: int, b: int)
    requires 0 <= a < DAY_MILLIS && 0 <= b < DAY_MILLIS
    ensures a < b <==>
            || a / 3600000 < b / 3600000
            || (a / 3600000 == b / 3600000 &&
                (|| a / 60000 % 60 < b / 60000 % 60
                 || (a / 60000 % 60 == b / 60000 % 60 &&
                     (|| a / 1000 % 60 < b / 1000 % 60
                      || (a / 1000 % 60 == b / 1000 % 60 && a % 1000 < b % 1000)))))
  {
    ClockSum(a);
    ClockSum(b);
  }

  lemma ClockSum(a: int)
    ensures a == a / 3600000 * 3600000 + a / 60000 % 60 * 60000 + a / 1000 % 60 * 1000 + a % 1000
  {
    assert a / 60000 == a / 1000 / 60;
    assert a / 3600000 == a / 60000 / 60;
  }

  lemma InstantFields(a: Millis, b: Millis)
    ensures a < b <==>
            || Day(DateOf(a)) < Day(DateOf(b))
            || (Day(DateOf(a)) == Day(DateOf(b)) && TimeOfDay(a) < TimeOfDay(b))
  {
    hide Day;
    hide OfDay;
  }

  /** Text order of timestamps is time order. */
  lemma TimestampTextOrder(a: Millis, b: Millis)
    ensures TextLess(FormatUtcMillis(a), FormatUtcMillis(b)) <==> a < b
    ensures FormatUtcMillis(a) == FormatUtcMillis(b) <==> a == b
  {
    hide FormatUtcMillis;
    StampOrder(a, b);
    StampOrder(b, a);
    LessIsIrreflexive(FormatUtcMillis(a));
  }

  lemma StampOrder(a: Millis, b: Millis)
    ensures TextLess(FormatUtcMillis(a), FormatUtcMillis(b)) <==> a < b
  {
    hide TextLess;
    hide Day;
    hide DateOf;
    hide TimeOfDay;
    hide PrintDate;
    hide PrintTime;
    DateTextOrder(DateOf(a), DateOf(b));
    OrderIsDayOrder(DateOf(a), DateOf(b));
    TimeTextOrder(TimeOfDay(a), TimeOfDay(b));
    InstantFields(a, b);
    InstantFields(b, a);
    var restA, restB := PrintTime(TimeOfDay(a)) + "Z", PrintTime(TimeOfDay(b)) + "Z";
    assert FormatUtcMillis(a) == PrintDate(DateOf(a)) + ['T'] + restA;
    assert FormatUtcMillis(b) == PrintDate(DateOf(b)) + ['T'] + restB;
    SeparatedOrder(PrintDate(DateOf(a)), PrintDate(DateOf(b)), 'T', restA, restB);
    FieldwiseOrder(PrintTime(TimeOfDay(a)), PrintTime(TimeOfDay(b)), "Z", "Z");
    LessIsIrreflexive("Z");
  }

  /** The fixed-width form that every timestamp argument must have. */
  predicate IsCanonicalTimestamp(s: string) {
    && |s| == 24
    && s[4] == '-' && s[7] == '-' && s[10] == 'T' && s[13] == ':' && s[16] == ':' && s[19] == '.' && s[23] == 'Z'
    && forall i :: 0 <= i < 24 && i !in {4, 7, 10, 13, 16, 19, 23} ==> IsDigit(s[i])
  }

  lemma FormattedIsCanonical(t: Millis)
    ensures IsCanonicalTimestamp(FormatUtcMillis(t))
  {
    hide Day;
    hide Digits;
    hide DateOf;
    hide TimeOfDay;
    var date, ms := DateOf(t), TimeOfDay(t);
    DateIsCanonical(date);
    ClockIsCanonical(ms / 3600000, ms / 60000 % 60, ms / 1000 % 60, ms % 1000);
    var s := FormatUtcMillis(t);
    assert forall i :: 0 <= i < 10 ==> s[i] == PrintDate(date)[i];
    assert forall i :: 0 <= i < 12 ==> s[11 + i] == PrintTime(ms)[i];
    assert forall i :: 11 <= i < 23 ==> s[i] == PrintTime(ms)[i - 11];
  }

  lemma DateIsCanonical(date: IsoDate)
    ensures HasDateShape(PrintDate(date))
  {
    PrintThenParse(date);
  }

  lemma ClockIsCanonical(hour: nat, minute: nat, second: nat, milli: nat)
    ensures var s := PrintClock(hour, minute, second, milli);
            && s[2] == ':' && s[5] == ':' && s[8] == '.'
            && forall i :: 0 <= i < 12 && i != 2 && i != 5 && i != 8 ==> IsDigit(s[i])
  {
    hide Digits;
    var s := PrintClock(hour, minute, second, milli);
    assert s[0..2] == Digits(hour, 2) && s[3..5] == Digits(minute, 2);
    assert s[6..8] == Digits(second, 2) && s[9..12] == Digits(milli, 3);
    forall i | 0 <= i < 12 && i != 2 && i != 5 && i != 8 ensures IsDigit(s[i]) {
      assert i < 2 ==> s[i] == s[0..2][i];
      assert 3 <= i < 5 ==> s[i] == s[3..5][i - 3];
      assert 6 <= i < 8 ==> s[i] == s[6..8][i - 6];
      assert 9 <= i < 12 ==> s[i] == s[9..12][i - 9];
    }
  }

  /** Unix time begins in 1970. */
  lemma EpochIs1970()
    ensures DateOf(0) == Date(1970, 1, 1) && TimeOfDay(0) == 0
  {
    EpochDayNumber();
    hide Day, DateOf, TimeOfDay, OfDay;
    MomentIs(Date(1970, 1, 1), 0);
  }

  lemma EpochDayNumber()
    ensures IsDate(Date(1970, 1, 1)) && Day(Date(1970, 1, 1)) == 719528
  {
    assert YearStart(1970) == 719528;
    assert MonthStart(1970, 1) == 0;
  }

  lemma DayDivision(q: nat, r: nat)
    requires r < 86400000
    ensures (q * 86400000 + r) / 86400000 == q && (q * 86400000 + r) % 86400000 == r
  {
  }

  lemma MomentIs(date: IsoDate, ms: nat)
    requires ms < 86400000
    ensures var t := (Day(date) - 719528) * 86400000 + ms;
            -62167219200000 <= t < 253402300800000 && DateOf(t) == date && TimeOfDay(t) == ms
  {
    OfDayInvertsDay(date);
    hide Day, OfDay;
    DateOfIs((Day(date) - 719528) * 86400000 + ms, Day(date), ms);
  }

  lemma SinceStartIs(t: int, q: nat, ms: nat)
    requires q <= MAX_DAY && ms < 86400000 && t == (q - 719528) * 86400000 + ms
    ensures -62167219200000 <= t < 253402300800000 && SinceStart(t) == q * 86400000 + ms
  {
  }

  lemma DateOfIs(t: int, q: nat, ms: nat)
    requires q <= MAX_DAY && ms < 86400000 && t == (q - 719528) * 86400000 + ms
    ensures -62167219200000 <= t < 253402300800000 && DateOf(t) == OfDay(q) && TimeOfDay(t) == ms
  {
    SinceStartIs(t, q, ms);
    DayDivision(q, ms);
    hide OfDay, SinceStart;
    var n := SinceStart(t);
    assert n / 86400000 == q && n % 86400000 == ms;
  }

  lemma ClockFieldsOf(hour: nat, minute: nat, second: nat, milli: nat)
    requires hour < 24 && minute < 60 && second < 60 && milli < 1000
    ensures var ms := ((hour * 60 + minute) * 60 + second) * 1000 + milli;
            ms / 3600000 == hour && ms / 60000 % 60 == minute && ms / 1000 % 60 == second && ms % 1000 == milli
            && ms < 86400000
  {
  }

  function Clock(hour: nat, minute: nat, second: nat, milli: nat): string {
    Digits(hour, 2) + ":" + Digits(minute, 2) + ":" + Digits(second, 2) + "." + Digits(milli, 3)
  }

  /** A moment has its date, and its hour, minute, second and millisecond. */
  lemma MomentText(date: IsoDate, hour: nat, minute: nat, second: nat, milli: nat)
    requires hour < 24 && minute < 60 && second < 60 && milli < 1000
    ensures var t := (Day(date) - 719528) * 86400000 + ((hour * 60 + minute) * 60 + second) * 1000 + milli;
            && -62167219200000 <= t < 253402300800000
            && FormatUtcMillis(t) == PrintDate(date) + "T" + Clock(hour, minute, second, milli) + "Z"
  {
    ClockFieldsOf(hour, minute, second, milli);
    MomentIs(date, ((hour * 60 + minute) * 60 + second) * 1000 + milli);
    hide Day, Digits, PrintDate, DateOf, TimeOfDay;
  }

  /** The form of a stored timestamp, place by place. */
  lemma TimestampShape(s: string)
    ensures IsCanonicalTimestamp(s) <==>
              && |s| == 24
              && (forall i :: 0 <= i < 24 ==>
                    if i == 4 || i == 7 then s[i] == '-'
                    else if i == 10 then s[i] == 'T'
                    else if i == 13 || i == 16 then s[i] == ':'
                    else if i == 19 then s[i] == '.'
                    else if i == 23 then s[i] == 'Z'
                    else '0' <= s[i] <= '9')
  {
  }
}

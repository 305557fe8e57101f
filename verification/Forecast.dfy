/** Running balances around a cash anchor, in exact arithmetic.  Dates are day
    numbers; amounts are whole cents. */
module Forecast {
  import opened Wrappers

  datatype Direction = In | Out

  function Abs(x: int): int { if x < 0 then -x else x }

  /** The direction alone decides the sign. */
  function Signed(direction: Direction, magnitude: int): int {
    match direction case In => Abs(magnitude) case Out => -Abs(magnitude)
  }

  /** An event of an active stream, not excluded: its effective date and amount,
      and whether it is still expected. */
  datatype Event = Event(
    id: int, stream: int, date: int, direction: Direction, amount: int, hasActual: bool, expected: bool)

  function Flow(e: Event): int { Signed(e.direction, e.amount) }

  predicate Before(a: Event, b: Event) { a.date < b.date || (a.date == b.date && a.id < b.id) }

  /** The events that count, by effective date and then id. */
  ghost predicate Ordered(book: seq<Event>) {
    forall i, j :: 0 <= i < j < |book| ==> Before(book[i], book[j])
  }

  /** The streams a query asks for: one stream, the streams of a view, or both. */
  predicate InScope(e: Event, stream: Option<int>, view: Option<set<int>>) {
    (stream.Some? ==> e.stream == stream.value) && (view.Some? ==> e.stream in view.value)
  }

  function Scoped(book: seq<Event>, stream: Option<int>, view: Option<set<int>>): (r: seq<Event>)
    ensures forall e :: e in r <==> e in book && InScope(e, stream, view)
  {
    if book == [] then []
    else
      var before := Scoped(book[..|book| - 1], stream, view);
      if InScope(book[|book| - 1], stream, view) then before + [book[|book| - 1]] else before
  }

  lemma {:induction false} ScopedIsOrdered(book: seq<Event>, stream: Option<int>, view: Option<set<int>>)
    requires Ordered(book)
    ensures Ordered(Scoped(book, stream, view))
  {
    if book != [] {
      var rest, last := book[..|book| - 1], book[|book| - 1];
      ScopedIsOrdered(rest, stream, view);
      forall e | e in Scoped(rest, stream, view) ensures Before(e, last) {
        var i :| 0 <= i < |rest| && rest[i] == e;
        assert Before(book[i], book[|book| - 1]);
      }
    }
  }

  /** Nothing happened by today, though something was expected. */
  predicate IsLate(e: Event, today: int) { !e.hasActual && e.date < today && e.expected }

  /** ORDER BY date, id .. WHERE date BETWEEN from AND through. */
  function Between(book: seq<Event>, from: int, through: int): seq<Event> {
    if book == [] then []
    else
      var before := Between(book[..|book| - 1], from, through);
      if from <= book[|book| - 1].date <= through then before + [book[|book| - 1]] else before
  }

  function SumBetween(events: seq<Event>, from: int, through: int): int {
    if events == [] then 0
    else SumBetween(events[..|events| - 1], from, through)
         + if from <= events[|events| - 1].date <= through then Flow(events[|events| - 1]) else 0
  }

  // ---- the source's balances ----

  function BalanceAt(starting: int, anchor: int, target: int, events: seq<Event>): int {
    if target >= anchor then starting + SumBetween(events, anchor + 1, target)
    else starting - SumBetween(events, target + 1, anchor)
  }

  function BalanceBefore(starting: int, anchor: int, windowStart: int, events: seq<Event>): int {
    if windowStart > anchor then starting + SumBetween(events, anchor + 1, windowStart - 1)
    else starting - SumBetween(events, windowStart, anchor)
  }

  // ---- the definition ----

  /** The sum of the first `n` flows. */
  function Total(book: seq<Event>, n: nat): int
    requires n <= |book|
  {
    if n == 0 then 0 else Total(book, n - 1) + Flow(book[n - 1])
  }

  /** How many events are dated up to `date`. */
  function CountUpTo(book: seq<Event>, date: int): (n: nat)
    ensures n <= |book|
  {
    if book == [] || book[0].date > date then 0 else 1 + CountUpTo(book[1..], date)
  }

  /** The balance once the first `n` events have happened, given the balance at
      the end of the anchor date. */
  function Balance(book: seq<Event>, starting: int, anchor: int, n: nat): int
    requires n <= |book|
  {
    starting + Total(book, n) - Total(book, CountUpTo(book, anchor))
  }

  datatype Row = Row(event: Event, amount: int, runningBalance: int)

  datatype Forecast = Forecast(opening: int, rows: seq<Row>, ending: int)

  function RowAt(book: seq<Event>, starting: int, anchor: int, i: nat): Row
    requires i < |book|
  {
    Row(book[i], Flow(book[i]), Balance(book, starting, anchor, i + 1))
  }

  function RowsOf(book: seq<Event>, starting: int, anchor: int, first: nat, last: nat): (rows: seq<Row>)
    requires first <= last <= |book|
    ensures |rows| == last - first
    ensures forall k :: 0 <= k < |rows| ==> rows[k] == RowAt(book, starting, anchor, first + k)
  {
    seq(last - first, k requires 0 <= k < last - first => RowAt(book, starting, anchor, first + k))
  }

  /** A window of the one running balance of the whole book. */
  function ForecastOf(book: seq<Event>, starting: int, anchor: int, from: int, through: int): Forecast
    requires CountUpTo(book, from - 1) <= CountUpTo(book, through)
  {
    var first, last := CountUpTo(book, from - 1), CountUpTo(book, through);
    Forecast(Balance(book, starting, anchor, first),
             RowsOf(book, starting, anchor, first, last),
             Balance(book, starting, anchor, last))
  }

  // ---- ordered books ----

  lemma {:induction false} CountSplits(book: seq<Event>, date: int)
    requires Ordered(book)
    ensures forall i :: 0 <= i < |book| ==> (book[i].date <= date <==> i < CountUpTo(book, date))
  {
    if book != [] && book[0].date <= date {
      CountSplits(book[1..], date);
      forall i | 0 <= i < |book| ensures book[i].date <= date <==> i < CountUpTo(book, date) {
        if i > 0 { assert book[1..][i - 1] == book[i]; }
      }
    } else if book != [] {
      forall i | 0 <= i < |book| ensures book[i].date > date {
        if i > 0 { assert Before(book[0], book[i]); }
      }
    }
  }

  lemma CountIsMonotone(book: seq<Event>, date: int, later: int)
    requires Ordered(book) && date <= later
    ensures CountUpTo(book, date) <= CountUpTo(book, later)
  {
    CountSplits(book, date);
    CountSplits(book, later);
    var n := CountUpTo(book, later);
    if n < |book| { assert book[n].date > later; }
  }

  /** The query's answer is a slice of the book. */
  lemma {:induction false} BetweenIsSlice(book: seq<Event>, from: int, through: int)
    requires Ordered(book) && from <= through + 1
    ensures CountUpTo(book, from - 1) <= CountUpTo(book, through)
    ensures Between(book, from, through) == book[CountUpTo(book, from - 1)..CountUpTo(book, through)]
  {
    CountIsMonotone(book, from - 1, through);
    if book != [] {
      var rest, n := book[..|book| - 1], |book| - 1;
      BetweenIsSlice(rest, from, through);
      CountOfPrefix(book, from - 1);
      CountOfPrefix(book, through);
      CountOfLast(book, from - 1);
      CountOfLast(book, through);
      hide CountUpTo, Ordered;
      var first, last := CountUpTo(book, from - 1), CountUpTo(book, through);
      if from <= book[n].date <= through {
        SliceGrows(book, first);
      } else if book[n].date > through {
        SliceOfPrefix(book, first, last);
      } else {
        assert book[first..last] == [] && rest[n..n] == [];
      }
    }
  }

  lemma SliceGrows(book: seq<Event>, first: nat)
    requires book != [] && first < |book|
    ensures book[first..] == book[..|book| - 1][first..|book| - 1] + [book[|book| - 1]]
    ensures book[first..] == book[first..|book|]
  {
  }

  lemma SliceOfPrefix(book: seq<Event>, first: nat, last: nat)
    requires first <= last < |book|
    ensures book[first..last] == book[..|book| - 1][first..last]
  {
    var rest := book[..|book| - 1];
    assert |book[first..last]| == |rest[first..last]|;
    forall k | 0 <= k < last - first ensures book[first..last][k] == rest[first..last][k] {}
  }

  lemma CountOfLast(book: seq<Event>, date: int)
    requires Ordered(book) && book != []
    ensures book[|book| - 1].date <= date ==> CountUpTo(book, date) == |book|
    ensures book[|book| - 1].date > date ==> CountUpTo(book, date) < |book|
  {
    CountSplits(book, date);
  }

  lemma CountOfPrefix(book: seq<Event>, date: int)
    requires Ordered(book) && book != []
    ensures CountUpTo(book[..|book| - 1], date)
            == if book[|book| - 1].date <= date then |book| - 1 else CountUpTo(book, date)
  {
    var n, rest := |book| - 1, book[..|book| - 1];
    CountSplits(book, date);
    CountSplits(rest, date);
    var c, c' := CountUpTo(book, date), CountUpTo(rest, date);
    assert book[n].date <= date <==> n < c;
    if c' < n { assert rest[c'].date > date && rest[c'] == book[c']; }
    if c' > 0 { assert rest[c' - 1].date <= date && rest[c' - 1] == book[c' - 1]; }
  }

  lemma {:induction false} SumIsTotal(events: seq<Event>, from: int, through: int)
    requires Ordered(events) && from <= through + 1
    ensures CountUpTo(events, from - 1) <= CountUpTo(events, through)
    ensures SumBetween(events, from, through)
            == Total(events, CountUpTo(events, through)) - Total(events, CountUpTo(events, from - 1))
  {
    CountIsMonotone(events, from - 1, through);
    if events != [] {
      var n, rest := |events| - 1, events[..|events| - 1];
      SumIsTotal(rest, from, through);
      CountOfPrefix(events, from - 1);
      CountOfPrefix(events, through);
      CountSplits(events, from - 1);
      CountSplits(events, through);
      TotalOfPrefix(events, rest, CountUpTo(rest, through));
      TotalOfPrefix(events, rest, CountUpTo(rest, from - 1));
    }
  }

  lemma {:induction false} TotalOfPrefix(book: seq<Event>, prefix: seq<Event>, n: nat)
    requires prefix <= book && n <= |prefix|
    ensures Total(prefix, n) == Total(book, n)
  {
    if n > 0 { TotalOfPrefix(book, prefix, n - 1); }
  }

  lemma {:induction false} TotalOfSlice(book: seq<Event>, first: nat, last: nat, n: nat)
    requires first + n <= last <= |book|
    ensures Total(book[first..last], n) == Total(book, first + n) - Total(book, first)
  {
    if n > 0 { TotalOfSlice(book, first, last, n - 1); }
  }

  lemma CountOfSlice(book: seq<Event>, first: nat, last: nat, date: int)
    requires Ordered(book) && first <= CountUpTo(book, date) <= last <= |book|
    ensures Ordered(book[first..last])
    ensures CountUpTo(book[first..last], date) == CountUpTo(book, date) - first
  {
    var slice := book[first..last];
    CountSplits(book, date);
    CountSplits(slice, date);
    var c := CountUpTo(slice, date);
    if c < |slice| { assert slice[c] == book[first + c]; }
    if c > 0 { assert slice[c - 1] == book[first + c - 1]; }
  }

  /** Inside the queried range, the slice knows the balances of the book. */
  lemma SliceBalance(book: seq<Event>, first: nat, last: nat, starting: int, anchor: int, n: nat)
    requires Ordered(book) && first <= CountUpTo(book, anchor) <= last <= |book| && first + n <= last
    ensures Ordered(book[first..last])
    ensures Balance(book[first..last], starting, anchor, n) == Balance(book, starting, anchor, first + n)
  {
    CountOfSlice(book, first, last, anchor);
    TotalOfSlice(book, first, last, n);
    TotalOfSlice(book, first, last, CountUpTo(book, anchor) - first);
  }

  // ---- the source's formulas are the definition ----

  lemma BalanceAtIsBalance(events: seq<Event>, starting: int, anchor: int, target: int)
    requires Ordered(events)
    ensures BalanceAt(starting, anchor, target, events) == Balance(events, starting, anchor, CountUpTo(events, target))
  {
    if target >= anchor { SumIsTotal(events, anchor + 1, target); } else { SumIsTotal(events, target + 1, anchor); }
  }

  lemma BalanceBeforeIsBalance(events: seq<Event>, starting: int, anchor: int, windowStart: int)
    requires Ordered(events)
    ensures BalanceBefore(starting, anchor, windowStart, events)
            == Balance(events, starting, anchor, CountUpTo(events, windowStart - 1))
  {
    if windowStart > anchor { SumIsTotal(events, anchor + 1, windowStart - 1); }
    else { SumIsTotal(events, windowStart, anchor); }
  }

  // ---- the computation ----

  /** Fills the balances forward after the anchor and backward up to it. */
  method RunningBalances(events: seq<Event>, starting: int, anchor: int) returns (balances: array<int>)
    requires Ordered(events)
    ensures fresh(balances) && balances.Length == |events|
    ensures forall k :: 0 <= k < |events| ==> balances[k] == Balance(events, starting, anchor, k + 1)
  {
    balances := new int[|events|](_ => starting);
    ghost var c := CountUpTo(events, anchor);
    CountSplits(events, anchor);
    var future := starting;
    for i := 0 to |events|
      invariant future == Balance(events, starting, anchor, if i < c then c else i)
      invariant forall k :: c <= k < i ==> balances[k] == Balance(events, starting, anchor, k + 1)
    {
      if events[i].date > anchor {
        future := future + Flow(events[i]);
        balances[i] := future;
      }
    }
    var past := starting;
    for i := |events| downto 0
      invariant past == Balance(events, starting, anchor, if i < c then i else c)
      invariant forall k :: 0 <= k < |events| && (k >= c || k >= i) ==>
                  balances[k] == Balance(events, starting, anchor, k + 1)
    {
      if events[i].date <= anchor {
        balances[i] := past;
        past := past - Flow(events[i]);
      }
    }
  }

  /** The forecast of a window, from the events between the window and the
      anchor.  It is the window's part of the balance of the whole book. */
  method ComputeForecast(book: seq<Event>, cash: Option<(int, int)>, from: int, through: int)
    returns (r: Result<Option<Forecast>, ()>)
    requires Ordered(book)
    ensures r.Failure? <==> through < from
    ensures r.Success? ==> CountUpTo(book, from - 1) <= CountUpTo(book, through)
    ensures r.Success? ==>
              r.value == match cash
                         case None => None
                         case Some((starting, anchor)) => Some(ForecastOf(book, starting, anchor, from, through))
  {
    if through < from { return Failure(()); }
    CountIsMonotone(book, from - 1, through);
    if cash.None? { return Success(None); }
    var (starting, anchor) := cash.value;
    var lo, hi := if from < anchor then from else anchor, if through > anchor then through else anchor;
    var events := Between(book, lo, hi);
    EnvelopeForecast(book, starting, anchor, from, through);
    hide Between, CountUpTo, Total;
    r := ForecastEnvelope(events, starting, anchor, from, through);
  }

  method ForecastEnvelope(events: seq<Event>, starting: int, anchor: int, from: int, through: int)
    returns (r: Result<Option<Forecast>, ()>)
    requires Ordered(events) && from <= through && CountUpTo(events, from - 1) <= CountUpTo(events, through)
    ensures r == Success(Some(ForecastOf(events, starting, anchor, from, through)))
  {
    hide CountUpTo, Total, Ordered, Balance, BalanceAt, BalanceBefore;
    var opening := BalanceBefore(starting, anchor, from, events);
    BalanceBeforeIsBalance(events, starting, anchor, from);
    var balances := RunningBalances(events, starting, anchor);
    var ending := BalanceAt(starting, anchor, through, events);
    BalanceAtIsBalance(events, starting, anchor, through);
    var rows := WindowRows(events, balances[..], from, through);
    ghost var expected := ForecastOf(events, starting, anchor, from, through).rows;
    assert forall k :: 0 <= k < |rows| ==> rows[k] == expected[k];
    assert rows == expected;
    r := Success(Some(Forecast(opening, rows, ending)));
  }

  /** The events between the window and the anchor give the same forecast as the
      whole book. */
  lemma EnvelopeForecast(book: seq<Event>, starting: int, anchor: int, from: int, through: int)
    requires Ordered(book) && from <= through
    ensures var lo, hi := if from < anchor then from else anchor, if through > anchor then through else anchor;
            var events := Between(book, lo, hi);
            && Ordered(events) && CountUpTo(events, from - 1) <= CountUpTo(events, through)
            && CountUpTo(book, from - 1) <= CountUpTo(book, through)
            && ForecastOf(events, starting, anchor, from, through) == ForecastOf(book, starting, anchor, from, through)
  {
    var lo, hi := if from < anchor then from else anchor, if through > anchor then through else anchor;
    var first, last := CountUpTo(book, lo - 1), CountUpTo(book, hi);
    BetweenIsSlice(book, lo, hi);
    hide Between, CountUpTo, Total, Ordered;
    CountIsMonotone(book, lo - 1, anchor);
    CountIsMonotone(book, anchor, hi);
    CountIsMonotone(book, lo - 1, from - 1);
    CountIsMonotone(book, from - 1, through);
    CountIsMonotone(book, through, hi);
    SliceForecast(book, first, last, starting, anchor, from, through);
  }

  lemma SliceForecast(book: seq<Event>, first: nat, last: nat, starting: int, anchor: int, from: int, through: int)
    requires Ordered(book) && first <= CountUpTo(book, anchor) <= last <= |book|
    requires first <= CountUpTo(book, from - 1) <= CountUpTo(book, through) <= last
    ensures var events := book[first..last];
            && Ordered(events) && CountUpTo(events, from - 1) <= CountUpTo(events, through)
            && ForecastOf(events, starting, anchor, from, through) == ForecastOf(book, starting, anchor, from, through)
  {
    CountOfSlice(book, first, last, from - 1);
    CountOfSlice(book, first, last, through);
    var events := book[first..last];
    var c, d := CountUpTo(events, from - 1), CountUpTo(events, through);
    hide CountUpTo, Total, Ordered, Balance;
    SliceBalance(book, first, last, starting, anchor, c);
    SliceBalance(book, first, last, starting, anchor, d);
    SliceRows(book, first, last, starting, anchor, c, d);
    hide RowsOf;
  }

  lemma SliceRows(book: seq<Event>, first: nat, last: nat, starting: int, anchor: int, c: nat, d: nat)
    requires Ordered(book) && first <= CountUpTo(book, anchor) <= last <= |book| && c <= d <= last - first
    ensures RowsOf(book[first..last], starting, anchor, c, d) == RowsOf(book, starting, anchor, first + c, first + d)
  {
    hide CountUpTo, Total, Ordered, Balance;
    var rows := RowsOf(book, starting, anchor, first + c, first + d);
    var rows' := RowsOf(book[first..last], starting, anchor, c, d);
    forall k | 0 <= k < d - c ensures rows'[k] == rows[k] {
      SliceBalance(book, first, last, starting, anchor, c + k + 1);
    }
  }

  method WindowRows(events: seq<Event>, balances: seq<int>, from: int, through: int) returns (rows: seq<Row>)
    requires Ordered(events) && |balances| == |events| && from <= through
    ensures CountUpTo(events, from - 1) <= CountUpTo(events, through)
    ensures |rows| == CountUpTo(events, through) - CountUpTo(events, from - 1)
    ensures forall k :: 0 <= k < |rows| ==>
              var i := CountUpTo(events, from - 1) + k;
              i < |events| && rows[k] == Row(events[i], Flow(events[i]), balances[i])
  {
    CountIsMonotone(events, from - 1, through);
    CountSplits(events, from - 1);
    CountSplits(events, through);
    ghost var first, last := CountUpTo(events, from - 1), CountUpTo(events, through);
    rows := [];
    for i := 0 to |events|
      invariant |rows| == (if i < first then 0 else if i < last then i - first else last - first)
      invariant forall k :: 0 <= k < |rows| ==>
                  rows[k] == Row(events[first + k], Flow(events[first + k]), balances[first + k])
    {
      if from <= events[i].date <= through {
        rows := rows + [Row(events[i], Flow(events[i]), balances[i])];
      }
    }
  }

  /** The forecast of the streams asked for, with the rows that are late. */
  method ComputeScopedForecast(
    book: seq<Event>, stream: Option<int>, view: Option<set<int>>, cash: Option<(int, int)>,
    from: int, through: int, today: int)
    returns (r: Result<Option<(Forecast, seq<bool>)>, ()>)
    requires Ordered(book)
    ensures r.Failure? <==> through < from
    ensures r.Success? ==> (r.value.None? <==> cash.None?)
    ensures r.Success? && cash.Some? ==>
              var scope := Scoped(book, stream, view);
              var (forecast, late) := r.value.value;
              && CountUpTo(scope, from - 1) <= CountUpTo(scope, through)
              && forecast == ForecastOf(scope, cash.value.0, cash.value.1, from, through)
              && |late| == |forecast.rows|
              && forall k :: 0 <= k < |late| ==>
                   late[k] == (!forecast.rows[k].event.hasActual && forecast.rows[k].event.date < today
                               && forecast.rows[k].event.expected)
  {
    hide CountUpTo, ForecastOf, Ordered;
    var scope := Scoped(book, stream, view);
    ScopedIsOrdered(book, stream, view);
    var result := ComputeForecast(scope, cash, from, through);
    if result.Failure? { return Failure(()); }
    if result.value.None? { return Success(None); }
    var rows := result.value.value.rows;
    var late := [];
    for k := 0 to |rows|
      invariant |late| == k && forall j :: 0 <= j < k ==> late[j] == IsLate(rows[j].event, today)
    {
      late := late + [!rows[k].event.hasActual && rows[k].event.date < today && rows[k].event.expected];
    }
    r := Success(Some((result.value.value, late)));
  }

  // ---- coherence ----

  function SumOfRows(rows: seq<Row>): int {
    if rows == [] then 0 else SumOfRows(rows[..|rows| - 1]) + rows[|rows| - 1].amount
  }

  /** Each row adds its own amount, across the anchor too; the first adds to the
      opening balance, and the last is the ending balance. */
  lemma RowsAddUp(book: seq<Event>, starting: int, anchor: int, from: int, through: int)
    requires Ordered(book) && from <= through
    ensures CountUpTo(book, from - 1) <= CountUpTo(book, through)
    ensures var f := ForecastOf(book, starting, anchor, from, through);
            && (forall k :: 0 <= k < |f.rows| ==>
                  f.rows[k].runningBalance
                  == (if k == 0 then f.opening else f.rows[k - 1].runningBalance) + f.rows[k].amount)
            && f.ending == (if f.rows == [] then f.opening else f.rows[|f.rows| - 1].runningBalance)
            && f.opening + SumOfRows(f.rows) == f.ending
  {
    CountIsMonotone(book, from - 1, through);
    var f := ForecastOf(book, starting, anchor, from, through);
    var first, last := CountUpTo(book, from - 1), CountUpTo(book, through);
    hide CountUpTo, Ordered, RowsOf, RowAt;
    RowsStep(book, starting, anchor, first, last);
    RowsSum(book, starting, anchor, first, f.rows);
    hide Balance;
    if f.rows != [] { assert f.rows[|f.rows| - 1].runningBalance == Balance(book, starting, anchor, last); }
  }

  /** Row by row, the balance before it and the balance it shows. */
  lemma RowsStep(book: seq<Event>, starting: int, anchor: int, first: nat, last: nat)
    requires first <= last <= |book|
    ensures forall k :: 0 <= k < last - first ==>
              var row := RowsOf(book, starting, anchor, first, last)[k];
              && row.amount == Flow(book[first + k])
              && row.runningBalance == Balance(book, starting, anchor, first + k + 1)
              && row.runningBalance == Balance(book, starting, anchor, first + k) + row.amount
  {
    hide Balance;
    var rows := RowsOf(book, starting, anchor, first, last);
    forall k | 0 <= k < |rows|
      ensures rows[k].runningBalance == Balance(book, starting, anchor, first + k) + rows[k].amount
    {
      BalanceStep(book, starting, anchor, first + k);
    }
  }

  lemma BalanceStep(book: seq<Event>, starting: int, anchor: int, n: nat)
    requires n < |book|
    ensures Balance(book, starting, anchor, n + 1) == Balance(book, starting, anchor, n) + Flow(book[n])
  {
    hide CountUpTo, Flow;
  }

  lemma {:induction false} RowsSum(book: seq<Event>, starting: int, anchor: int, first: nat, rows: seq<Row>)
    requires first + |rows| <= |book|
    requires forall k :: 0 <= k < |rows| ==> rows[k].amount == Flow(book[first + k])
    ensures Balance(book, starting, anchor, first) + SumOfRows(rows) == Balance(book, starting, anchor, first + |rows|)
  {
    if rows != [] { RowsSum(book, starting, anchor, first, rows[..|rows| - 1]); }
  }

  /** The window holds exactly the events dated in it, in order. */
  lemma RowsAreTheWindow(book: seq<Event>, starting: int, anchor: int, from: int, through: int)
    requires Ordered(book) && from <= through
    ensures CountUpTo(book, from - 1) <= CountUpTo(book, through)
    ensures var f := ForecastOf(book, starting, anchor, from, through);
            && |f.rows| == |Between(book, from, through)|
            && forall k :: 0 <= k < |f.rows| ==> f.rows[k].event == Between(book, from, through)[k]
  {
    BetweenIsSlice(book, from, through);
  }

  /** An event has the same balance in every window that shows it. */
  lemma SameBalanceInEveryWindow(
    book: seq<Event>, starting: int, anchor: int, from: int, through: int, from': int, through': int, k: nat, k': nat)
    requires Ordered(book) && from <= through && from' <= through'
    requires CountUpTo(book, from - 1) <= CountUpTo(book, through)
             && CountUpTo(book, from' - 1) <= CountUpTo(book, through')
    requires var f := ForecastOf(book, starting, anchor, from, through);
             var f' := ForecastOf(book, starting, anchor, from', through');
             k < |f.rows| && k' < |f'.rows| && f.rows[k].event == f'.rows[k'].event
    ensures ForecastOf(book, starting, anchor, from, through).rows[k]
            == ForecastOf(book, starting, anchor, from', through').rows[k']
  {
    var i, j := CountUpTo(book, from - 1) + k, CountUpTo(book, from' - 1) + k';
    EventsDiffer(book, i, j);
  }

  lemma EventsDiffer(book: seq<Event>, i: nat, j: nat)
    requires Ordered(book) && i < |book| && j < |book|
    ensures i != j ==> book[i] != book[j]
  {
    if i < j { assert Before(book[i], book[j]); }
    if j < i { assert Before(book[j], book[i]); }
  }

  /** Anchoring anywhere else, at the balance forecast for that date, changes
      nothing. */
  lemma ReanchoringChangesNothing(book: seq<Event>, starting: int, anchor: int, anchor': int, from: int, through: int)
    requires Ordered(book) && from <= through
    ensures CountUpTo(book, from - 1) <= CountUpTo(book, through)
    ensures ForecastOf(book, BalanceAt(starting, anchor, anchor', book), anchor', from, through)
            == ForecastOf(book, starting, anchor, from, through)
  {
    CountIsMonotone(book, from - 1, through);
    BalanceAtIsBalance(book, starting, anchor, anchor');
    var f := ForecastOf(book, starting, anchor, from, through);
    var f' := ForecastOf(book, BalanceAt(starting, anchor, anchor', book), anchor', from, through);
    forall k | 0 <= k < |f.rows| ensures f'.rows[k] == f.rows[k] {
      var i := CountUpTo(book, from - 1) + k;
      assert f'.rows[k] == RowAt(book, BalanceAt(starting, anchor, anchor', book), anchor', i);
      assert f.rows[k] == RowAt(book, starting, anchor, i);
    }
    assert f'.rows == f.rows;
  }

  /** Splitting a window: the ending balance of the first half opens the second. */
  lemma WindowsJoin(book: seq<Event>, starting: int, anchor: int, from: int, middle: int, through: int)
    requires Ordered(book) && from <= middle < through
    ensures CountUpTo(book, from - 1) <= CountUpTo(book, middle) <= CountUpTo(book, through)
    ensures var whole := ForecastOf(book, starting, anchor, from, through);
            var left := ForecastOf(book, starting, anchor, from, middle);
            var right := ForecastOf(book, starting, anchor, middle + 1, through);
            whole.rows == left.rows + right.rows && left.ending == right.opening
            && whole.opening == left.opening && whole.ending == right.ending
  {
    CountIsMonotone(book, from - 1, middle);
    CountIsMonotone(book, middle, through);
  }

  // ---- what a user sees ----

  /** An incoming event raises the balance by exactly its magnitude and an
      outgoing one lowers it by exactly that, whatever the sign stored; the first
      event starts from the opening balance, and at the anchor the balance is
      the cash. */
  lemma BalanceFollowsEvents(book: seq<Event>, starting: int, anchor: int, from: int, through: int)
    requires Ordered(book) && from <= through
    ensures CountUpTo(book, from - 1) <= CountUpTo(book, through)
    ensures var f := ForecastOf(book, starting, anchor, from, through);
            && (forall k :: 0 <= k < |f.rows| ==>
                  var e, before := f.rows[k].event, if k == 0 then f.opening else f.rows[k - 1].runningBalance;
                  && (e.direction == In && e.amount >= 0 ==>
                        f.rows[k].amount == e.amount && f.rows[k].runningBalance == before + e.amount)
                  && (e.direction == In && e.amount < 0 ==>
                        f.rows[k].amount == -e.amount && f.rows[k].runningBalance == before - e.amount)
                  && (e.direction == Out && e.amount >= 0 ==>
                        f.rows[k].amount == -e.amount && f.rows[k].runningBalance == before - e.amount)
                  && (e.direction == Out && e.amount < 0 ==>
                        f.rows[k].amount == e.amount && f.rows[k].runningBalance == before + e.amount))
            && f.ending == (if f.rows == [] then f.opening else f.rows[|f.rows| - 1].runningBalance)
            && (through == anchor ==> f.ending == starting) && (from == anchor + 1 ==> f.opening == starting)
  {
    RowsAddUp(book, starting, anchor, from, through);
    var f := ForecastOf(book, starting, anchor, from, through);
    forall k | 0 <= k < |f.rows| ensures f.rows[k].amount == Flow(f.rows[k].event) {
      assert f.rows[k] == RowAt(book, starting, anchor, CountUpTo(book, from - 1) + k);
    }
    hide CountUpTo, Ordered, RowsOf;
  }

  /** Rows come by date, and by id on one date. */
  lemma RowsAreInOrder(book: seq<Event>, starting: int, anchor: int, from: int, through: int, j: nat, k: nat)
    requires Ordered(book) && from <= through
    ensures CountUpTo(book, from - 1) <= CountUpTo(book, through)
    ensures var rows := ForecastOf(book, starting, anchor, from, through).rows;
            j < k < |rows| ==>
              rows[j].event.date < rows[k].event.date
              || (rows[j].event.date == rows[k].event.date && rows[j].event.id < rows[k].event.id)
  {
    CountIsMonotone(book, from - 1, through);
    hide CountUpTo;
    var rows, first := ForecastOf(book, starting, anchor, from, through).rows, CountUpTo(book, from - 1);
    if j < k < |rows| {
      assert rows[j] == RowAt(book, starting, anchor, first + j) && rows[k] == RowAt(book, starting, anchor, first + k);
      assert Before(book[first + j], book[first + k]);
    }
  }

  /** Asked for streams, the forecast shows exactly the book's events of the
      window that are of the stream and of a stream of the view asked for. */
  lemma ScopedRowsAre(
    book: seq<Event>, stream: Option<int>, view: Option<set<int>>, starting: int, anchor: int, from: int, through: int,
    e: Event)
    requires Ordered(book) && from <= through
    ensures var scope := Scoped(book, stream, view);
            && CountUpTo(scope, from - 1) <= CountUpTo(scope, through)
            && var rows := ForecastOf(scope, starting, anchor, from, through).rows;
               (exists k :: 0 <= k < |rows| && rows[k].event == e) <==>
                 && e in book && from <= e.date <= through
                 && (stream == None || stream == Some(e.stream)) && (view == None || e.stream in view.value)
  {
    ScopedIsOrdered(book, stream, view);
    var scope := Scoped(book, stream, view);
    ShownIff(scope, starting, anchor, from, through, e);
    assert e in scope <==> e in book && InScope(e, stream, view);
    hide CountUpTo, Ordered, Scoped, ForecastOf;
  }

  lemma ShownIff(book: seq<Event>, starting: int, anchor: int, from: int, through: int, e: Event)
    requires Ordered(book) && from <= through
    ensures CountUpTo(book, from - 1) <= CountUpTo(book, through)
    ensures var rows := ForecastOf(book, starting, anchor, from, through).rows;
            (exists k :: 0 <= k < |rows| && rows[k].event == e) <==> e in book && from <= e.date <= through
  {
    RowsAreTheWindow(book, starting, anchor, from, through);
    BetweenIs(book, from, through, e);
    var rows, window := ForecastOf(book, starting, anchor, from, through).rows, Between(book, from, through);
    hide CountUpTo, Ordered, Between, ForecastOf;
    if e in window {
      var k :| 0 <= k < |window| && window[k] == e;
      assert rows[k].event == e;
    }
    if k :| 0 <= k < |rows| && rows[k].event == e { assert window[k] == e; }
  }

  lemma {:induction false} BetweenIs(book: seq<Event>, from: int, through: int, e: Event)
    ensures e in Between(book, from, through) <==> e in book && from <= e.date <= through
  {
    if book != [] {
      BetweenIs(book[..|book| - 1], from, through, e);
      assert book == book[..|book| - 1] + [book[|book| - 1]];
    }
  }

  /** With cash of 1000 on a day, 100 coming in the next day makes 1100, and 30
      going out the day after 1070. */
  lemma CashComesAndGoes(anchor: int)
    ensures var pay := Event(1, 1, anchor + 1, In, 100, false, true);
            var rent := Event(2, 1, anchor + 2, Out, 30, false, true);
            && CountUpTo([pay, rent], anchor) <= CountUpTo([pay, rent], anchor + 2)
            && ForecastOf([pay, rent], 1000, anchor, anchor + 1, anchor + 2)
               == Forecast(1000, [Row(pay, 100, 1100), Row(rent, -30, 1070)], 1070)
  {
    var pay, rent := Event(1, 1, anchor + 1, In, 100, false, true), Event(2, 1, anchor + 2, Out, 30, false, true);
    var book := [pay, rent];
    assert book[1..] == [rent] && [rent][1..] == [];
    assert CountUpTo([rent], anchor) == 0 && CountUpTo([rent], anchor + 2) == 1;
    assert CountUpTo(book, anchor) == 0 && CountUpTo(book, anchor + 2) == 2;
    assert Total(book, 1) == 100 && Total(book, 2) == 70;
    var f := ForecastOf(book, 1000, anchor, anchor + 1, anchor + 2);
    assert f.rows[0] == RowAt(book, 1000, anchor, 0) && f.rows[1] == RowAt(book, 1000, anchor, 1);
    assert f.rows == [Row(pay, 100, 1100), Row(rent, -30, 1070)];
  }
}

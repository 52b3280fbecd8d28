/**
 Backtest arithmetic: the bounded search for verified trading sessions and the one-pass
 drawdown (backend/backtest_session_contract.py, backend/backtest_artifacts.py).
 Days are ordinals, prices are reals.
 */
module Backtest {
  import opened Numbers
  import opened Wrappers
  import opened Names

  // ----- session windows

  /** The market calendar: whether the year of a day is covered, and whether the day is a holiday. */
  datatype Calendar = Calendar(covered: int -> bool, holiday: int -> bool)

  datatype Status = InvalidHorizon | CalendarUnavailable | Verified
  datatype Window = Window(status: Status, sessions: seq<int>)

  /** `date.weekday()` of an ordinal: Monday is 0. */
  function Weekday(day: int): int { (day + 6) % 7 }

  predicate Trades(c: Calendar, day: int) {
    Weekday(day) < 5 && !c.holiday(day)
  }

  /** The first ordinal is a Monday, and weekdays repeat in order; markets close on the last two and on holidays. */
  lemma TradesIff(c: Calendar, day: int)
    ensures Weekday(1) == 0 && Weekday(day + 1) == (if Weekday(day) == 6 then 0 else Weekday(day) + 1)
    ensures Trades(c, day) <==> day % 7 != 6 && day % 7 != 0 && !c.holiday(day)
  {
  }

  /** The trading days among the n days after the start, in order. */
  function Sessions(c: Calendar, start: int, n: nat): seq<int> {
    if n == 0 then []
    else if Trades(c, start + n) then Sessions(c, start, n - 1) + [start + n]
    else Sessions(c, start, n - 1)
  }

  function Bound(horizon: nat): nat { horizon * 4 + 40 }

  /** The first n days after the start are covered, and the last of them is the session that completes the horizon. */
  ghost predicate Completes(c: Calendar, start: int, horizon: nat, n: nat) {
    && 0 < n <= horizon * 4 + 40
    && (forall d | start < d <= start + n :: c.covered(d))
    && Trades(c, start + n) && |Sessions(c, start, n)| == horizon
  }

  method SessionWindow(c: Calendar, start: int, horizon: int) returns (window: Window)
    ensures window.status.InvalidHorizon? <==> !(1 <= horizon <= 252)
    ensures window.status.Verified? <==> 1 <= horizon <= 252 && exists n: nat :: Completes(c, start, horizon, n)
    ensures window.status.Verified? ==>
            exists n: nat :: Completes(c, start, horizon, n) && window.sessions == Sessions(c, start, n)
    ensures !window.status.Verified? ==> window.sessions == []
  {
    if !(1 <= horizon <= 252) {
      return Window(InvalidHorizon, []);
    }
    var sessions := [];
    var day := start;
    for i := 0 to Bound(horizon)
      invariant day == start + i
      invariant sessions == Sessions(c, start, i) && |sessions| < horizon
      invariant forall d | start < d <= day :: c.covered(d)
    {
      day := day + 1;
      if !c.covered(day) {
        forall n: nat ensures !Completes(c, start, horizon, n) {
          if n <= i {
            SessionsGrow(c, start, n, i);
          }
        }
        return Window(CalendarUnavailable, []);
      }
      if Trades(c, day) {
        sessions := sessions + [day];
      }
      if |sessions| == horizon {
        assert Completes(c, start, horizon, i + 1);
        return Window(Verified, sessions);
      }
    }
    forall n: nat ensures !Completes(c, start, horizon, n) {
      if n <= Bound(horizon) {
        SessionsGrow(c, start, n, Bound(horizon));
      }
    }
    return Window(CalendarUnavailable, []);
  }

  lemma {:induction false} SessionsGrow(c: Calendar, start: int, m: nat, n: nat)
    requires m <= n
    ensures |Sessions(c, start, m)| <= |Sessions(c, start, n)|
  {
    if m < n {
      SessionsGrow(c, start, m, n - 1);
    }
  }

  /** The sessions are exactly the trading days after the start up to the last, strictly increasing, none skipped. */
  lemma {:induction false} SessionsAreTradingDays(c: Calendar, start: int, n: nat)
    ensures var s := Sessions(c, start, n);
            && (forall d :: d in s <==> start < d <= start + n && Trades(c, d))
            && (forall i, j | 0 <= i < j < |s| :: s[i] < s[j])
  {
    if n > 0 {
      SessionsAreTradingDays(c, start, n - 1);
      var front, s := Sessions(c, start, n - 1), Sessions(c, start, n);
      forall i | 0 <= i < |front| ensures front[i] < start + n {
        assert front[i] in front;
      }
    }
  }

  /** A window is unique: two ways to complete the horizon end on the same day. */
  lemma CompletionIsUnique(c: Calendar, start: int, horizon: nat, m: nat, n: nat)
    requires Completes(c, start, horizon, m) && Completes(c, start, horizon, n)
    ensures m == n
  {
    if m < n {
      SessionsGrow(c, start, m, n - 1);
    } else if n < m {
      SessionsGrow(c, start, n, m - 1);
    }
  }

  // ----- price paths

  /** A price row: its date text, and its close if it reads as a number. */
  datatype Row = Row(date: string, close: Option<real>)
  datatype Price = Price(date: string, close: real)

  function ValidPrices(rows: seq<Row>): seq<Price> {
    if rows == [] then []
    else if rows[0].close.Some? && rows[0].close.value > 0.0
        then [Price(rows[0].date, rows[0].close.value)] + ValidPrices(rows[1..])
    else ValidPrices(rows[1..])
  }

  function InsertPrice(p: Price, path: seq<Price>): seq<Price> {
    if path == [] || !Below(path[0].date, p.date) then [p] + path else [path[0]] + InsertPrice(p, path[1..])
  }

  /** `sorted(..., key=date)`, which is stable. */
  function SortPrices(path: seq<Price>): seq<Price> {
    if path == [] then [] else InsertPrice(path[0], SortPrices(path[1..]))
  }

  /** `[item["close"] for item in path]` */
  function Closes(path: seq<Price>): (r: seq<real>)
    ensures |r| == |path| && forall i | 0 <= i < |r| :: r[i] == path[i].close
  {
    seq(|path|, i requires 0 <= i < |path| => path[i].close)
  }

  /** The closes of the path are ready for a drawdown. */
  method CleanPath(rows: seq<Row>) returns (path: seq<Price>)
    ensures path == SortPrices(ValidPrices(rows))
    ensures forall p | p in path :: p.close > 0.0
    ensures Positive(Closes(path))
  {
    var cleaned: seq<Price> := [];
    var i := 0;
    while i < |rows|
      invariant 0 <= i <= |rows|
      invariant cleaned + ValidPrices(rows[i..]) == ValidPrices(rows)
    {
      assert rows[i..][1..] == rows[i + 1..];
      if rows[i].close.Some? && rows[i].close.value > 0.0 {
        cleaned := cleaned + [Price(rows[i].date, rows[i].close.value)];
      }
      i := i + 1;
    }
    assert rows[i..] == [] && cleaned + [] == cleaned;
    path := SortPrices(cleaned);
    CleanedIsPositive(rows);
  }

  function OnDate(path: seq<Price>, date: string): seq<Price> {
    if path == [] then []
    else if path[0].date == date then [path[0]] + OnDate(path[1..], date)
    else OnDate(path[1..], date)
  }

  /** The prices of a date are those of the path, in its order. */
  lemma {:induction false} OnDateFollows(path: seq<Price>, p: Price, date: string)
    ensures OnDate([], date) == []
    ensures OnDate(path + [p], date) == OnDate(path, date) + if p.date == date then [p] else []
  {
    if path == [] {
      assert path + [p] == [p];
      assert [p][1..] == [];
    } else {
      OnDateFollows(path[1..], p, date);
      assert (path + [p])[1..] == path[1..] + [p];
    }
  }

  ghost predicate ByDate(path: seq<Price>) {
    forall i, j | 0 <= i < j < |path| :: !Below(path[j].date, path[i].date)
  }

  lemma {:induction false} InsertAdds(p: Price, path: seq<Price>)
    ensures multiset(InsertPrice(p, path)) == multiset(path) + multiset{p}
  {
    if path != [] && Below(path[0].date, p.date) {
      InsertAdds(p, path[1..]);
      assert path == [path[0]] + path[1..];
    }
  }

  lemma {:induction false} InsertKeepsOrder(p: Price, path: seq<Price>)
    requires ByDate(path)
    ensures ByDate(InsertPrice(p, path))
  {
    if path != [] {
      if !Below(path[0].date, p.date) {
        forall j | 0 <= j < |path| ensures !Below(path[j].date, p.date) {
          if j > 0 && Below(path[j].date, p.date) {
            BelowCovers(path[j].date, p.date, path[0].date);
          }
        }
      } else {
        InsertKeepsOrder(p, path[1..]);
        InsertAdds(p, path[1..]);
        var rest := InsertPrice(p, path[1..]);
        forall j | 0 <= j < |rest| ensures !Below(rest[j].date, path[0].date) {
          InsertedAfter(p, path, rest[j]);
        }
      }
    }
  }

  /** Insertion goes before the prices of the same date. */
  lemma {:induction false} InsertIsStable(p: Price, path: seq<Price>, date: string)
    ensures OnDate(InsertPrice(p, path), date) == OnDate([p] + path, date)
  {
    assert ([p] + path)[1..] == path;
    if path != [] && Below(path[0].date, p.date) {
      InsertIsStable(p, path[1..], date);
      var rest := InsertPrice(p, path[1..]);
      assert ([p] + path[1..])[1..] == path[1..];
      assert ([path[0]] + rest)[1..] == rest;
      BelowIsIrreflexive(p.date);
    }
  }

  lemma InsertedAfter(p: Price, path: seq<Price>, q: Price)
    requires ByDate(path) && path != [] && Below(path[0].date, p.date)
    requires multiset(InsertPrice(p, path[1..])) == multiset(path[1..]) + multiset{p}
    requires q in InsertPrice(p, path[1..])
    ensures !Below(q.date, path[0].date)
  {
    assert q in multiset(InsertPrice(p, path[1..]));
    if q == p {
      if Below(p.date, path[0].date) {
        BelowIsTransitive(path[0].date, p.date, path[0].date);
        BelowIsIrreflexive(path[0].date);
      }
    } else {
      assert q in multiset(path[1..]);
      assert q in path[1..];
    }
  }

  lemma BelowCovers(a: string, b: string, c: string)
    requires Below(a, b)
    ensures Below(a, c) || Below(c, b)
  {
    BelowIsTotal(a, c);
    if a != c && Below(c, a) {
      BelowIsTransitive(c, a, b);
    }
  }

  /** The cleaned path holds exactly the positive closes, by date, and in their given order within a date. */
  lemma {:induction false} SortedPathIsStable(path: seq<Price>, date: string)
    ensures ByDate(SortPrices(path))
    ensures OnDate(SortPrices(path), date) == OnDate(path, date)
    ensures multiset(SortPrices(path)) == multiset(path)
  {
    if path != [] {
      SortedPathIsStable(path[1..], date);
      InsertIsStable(path[0], SortPrices(path[1..]), date);
      InsertKeepsOrder(path[0], SortPrices(path[1..]));
      InsertAdds(path[0], SortPrices(path[1..]));
      assert path == [path[0]] + path[1..];
      assert ([path[0]] + SortPrices(path[1..]))[1..] == SortPrices(path[1..]);
    }
  }

  /** A further row adds its price at the end exactly if it has a positive close. */
  lemma {:induction false} ValidPricesFollow(rows: seq<Row>, row: Row)
    ensures ValidPrices([]) == []
    ensures ValidPrices(rows + [row]) == ValidPrices(rows) +
            match row.close
            case None => []
            case Some(close) => if close > 0.0 then [Price(row.date, close)] else []
  {
    if rows == [] {
      assert rows + [row] == [row];
      assert [row][1..] == [];
    } else {
      ValidPricesFollow(rows[1..], row);
      assert (rows + [row])[1..] == rows[1..] + [row];
    }
  }

  lemma {:induction false} ValidPricesArePositive(rows: seq<Row>)
    ensures forall p | p in ValidPrices(rows) :: p.close > 0.0
  {
    if rows != [] {
      ValidPricesArePositive(rows[1..]);
    }
  }

  lemma CleanedIsPositive(rows: seq<Row>)
    ensures forall p | p in SortPrices(ValidPrices(rows)) :: p.close > 0.0
  {
    var valid, sorted := ValidPrices(rows), SortPrices(ValidPrices(rows));
    ValidPricesArePositive(rows);
    SortedPathIsStable(valid, "");
    forall p | p in sorted ensures p.close > 0.0 {
      assert p in multiset(sorted);
      assert p in valid;
    }
  }

  // ----- drawdown

  predicate Positive(closes: seq<real>) {
    forall i | 0 <= i < |closes| :: closes[i] > 0.0
  }

  /** The fall from an earlier close to a later one. */
  function Fall(closes: seq<real>, i: nat, j: nat): real
    requires Positive(closes) && i < |closes| && j < |closes|
  {
    closes[j] / closes[i] - 1.0
  }

  /** The deepest fall over every pair of an earlier and a later (or the same) close among the first n. */
  ghost predicate IsDeepestFall(closes: seq<real>, n: nat, fall: real)
    requires Positive(closes) && n <= |closes|
  {
    && (forall i, j | 0 <= i <= j < n :: fall <= Fall(closes, i, j))
    && (exists i, j :: 0 <= i <= j < n && fall == Fall(closes, i, j))
  }

  ghost predicate IsPeak(closes: seq<real>, n: nat, peak: real)
    requires n <= |closes|
  {
    && (forall i | 0 <= i < n :: closes[i] <= peak)
    && (exists i :: 0 <= i < n && closes[i] == peak)
  }

  /** One pass with a running peak computes the all-pairs minimum, in percent, which lies in (-100, 0]. */
  method MaxDrawdownPct(closes: seq<real>) returns (pct: real)
    requires closes != [] && Positive(closes)
    ensures IsDeepestFall(closes, |closes|, pct / 100.0)
    ensures -100.0 < pct <= 0.0
  {
    var peak := closes[0];
    var deepest := 0.0;
    var n := 0;
    while n < |closes|
      invariant 0 <= n <= |closes|
      invariant n == 0 ==> peak == closes[0] && deepest == 0.0
      invariant n > 0 ==> IsPeak(closes, n, peak) && IsDeepestFall(closes, n, deepest) && -1.0 < deepest <= 0.0
    {
      if n == 0 {
        FirstClose(closes);
      } else {
        NextClose(closes, n, peak, deepest);
      }
      peak := MaxReal(peak, closes[n]);
      deepest := MinReal(deepest, closes[n] / peak - 1.0);
      n := n + 1;
    }
    pct := deepest * 100.0;
  }

  lemma FirstClose(closes: seq<real>)
    requires closes != [] && Positive(closes)
    ensures closes[0] / closes[0] - 1.0 == 0.0
    ensures IsPeak(closes, 1, closes[0]) && IsDeepestFall(closes, 1, 0.0)
  {
    assert Fall(closes, 0, 0) == 0.0;
  }

  lemma NextClose(closes: seq<real>, n: nat, peak: real, deepest: real)
    requires 0 < n < |closes| && Positive(closes)
    requires IsPeak(closes, n, peak) && IsDeepestFall(closes, n, deepest) && -1.0 < deepest <= 0.0
    ensures var top := MaxReal(peak, closes[n]);
            var fall := MinReal(deepest, closes[n] / top - 1.0);
            IsPeak(closes, n + 1, top) && IsDeepestFall(closes, n + 1, fall) && -1.0 < fall <= 0.0
  {
    var close := closes[n];
    var top := MaxReal(peak, close);
    var fall := MinReal(deepest, close / top - 1.0);
    var k :| 0 <= k < n && closes[k] == peak;
    var t := if peak < close then n else k;
    assert closes[t] == top;
    assert close / top > 0.0;
    forall i, j | 0 <= i <= j < n + 1 ensures fall <= Fall(closes, i, j) {
      if j == n {
        QuotientFalls(close, closes[i], top);
      }
    }
    if fall == deepest {
      var a, b :| 0 <= a <= b < n && deepest == Fall(closes, a, b);
      assert fall == Fall(closes, a, b);
    } else {
      assert fall == Fall(closes, t, n);
    }
  }

  lemma QuotientFalls(a: real, b: real, c: real)
    requires a > 0.0 && 0.0 < b <= c
    ensures a / c <= a / b
  {
    var y := a / c;
    assert y * c == a && y > 0.0;
    assert y * b <= y * c;
    assert (a / b) * b == a;
    assert (a / b - y) * b >= 0.0;
  }
}

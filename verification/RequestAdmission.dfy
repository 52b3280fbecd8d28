/**
 Rolling 24-hour admission before each outbound attempt (backend/bls_request_admission.py).

 Every `reserve` is one immediate transaction on a table shared by all processes, so an
 interleaving of calls is a sequence of atomic steps. Clock readings are reals.
 */
module RequestAdmission {
  import opened Numbers
  import opened Wrappers

  const LIMIT := 25
  const WINDOW := 86400.0

  datatype Row = Row(id: string, at: real)

  /** What the clock returns; `NotANumber` stands for other types and for values that are not finite. */
  datatype Clock = NotANumber | Time(now: real)

  datatype Reason = InvalidClock | ClockRollback | RollingLimit | StoreUnavailable
  datatype Outcome = Reserved(id: string, at: real) | Blocked(reason: Reason, retryAfter: real)

  function Latest(rows: seq<Row>): real
    requires rows != []
  {
    if |rows| == 1 then rows[0].at else MaxReal(rows[0].at, Latest(rows[1..]))
  }

  function Earliest(rows: seq<Row>): real
    requires rows != []
  {
    if |rows| == 1 then rows[0].at else MinReal(rows[0].at, Earliest(rows[1..]))
  }

  /** `WHERE reserved_at > since` */
  function After(rows: seq<Row>, since: real): seq<Row> {
    if rows == [] then []
    else if rows[0].at > since then [rows[0]] + After(rows[1..], since)
    else After(rows[1..], since)
  }

  predicate HasId(rows: seq<Row>, id: string) {
    exists r | r in rows :: r.id == id
  }

  /** One call: the table in commit order, the clock reading, the fresh identifier, and whether the database answers. */
  function Reserve(rows: seq<Row>, clock: Clock, id: string, available: bool): (Outcome, seq<Row>) {
    if !available then (Blocked(StoreUnavailable, 60.0), rows)
    else if clock.NotANumber? || clock.now <= 0.0 then (Blocked(InvalidClock, 60.0), rows)
    else if rows != [] && Latest(rows) > clock.now then (Blocked(ClockRollback, 60.0), rows)
    else
      var recent := After(rows, clock.now - WINDOW);
      if |recent| >= LIMIT then (Blocked(RollingLimit, MaxReal(1.0, Earliest(recent) + WINDOW - clock.now)), rows)
      else if HasId(rows, id) then (Blocked(StoreUnavailable, 60.0), rows)
      else (Reserved(id, clock.now), rows + [Row(id, clock.now)])
  }

  /** The shared table behind every store. */
  class AdmissionTable {
    var rows: seq<Row>

    constructor ()
      ensures rows == []
    {
      rows := [];
    }

    method SelectMax() returns (latest: Option<real>)
      ensures latest == if rows == [] then None else Some(Latest(rows))
    {
      latest := None;
      var i := |rows|;
      while i > 0
        invariant 0 <= i <= |rows|
        invariant latest == if rows[i..] == [] then None else Some(Latest(rows[i..]))
      {
        i := i - 1;
        assert rows[i..][1..] == rows[i + 1..];
        latest := Some(if latest.None? then rows[i].at else MaxReal(rows[i].at, latest.value));
      }
    }

    method SelectCountMin(since: real) returns (count: nat, oldest: Option<real>)
      ensures count == |After(rows, since)|
      ensures oldest == if After(rows, since) == [] then None else Some(Earliest(After(rows, since)))
    {
      count, oldest := 0, None;
      var i := |rows|;
      while i > 0
        invariant 0 <= i <= |rows|
        invariant count == |After(rows[i..], since)|
        invariant oldest == if After(rows[i..], since) == [] then None else Some(Earliest(After(rows[i..], since)))
      {
        i := i - 1;
        assert rows[i..][1..] == rows[i + 1..];
        if rows[i].at > since {
          var rest := After(rows[i + 1..], since);
          assert ([rows[i]] + rest)[1..] == rest;
          count := count + 1;
          oldest := Some(if oldest.None? then rows[i].at else MinReal(rows[i].at, oldest.value));
        }
      }
      assert rows[0..] == rows;
    }

    method TryReserve(clock: Clock, id: string, available: bool) returns (outcome: Outcome)
      modifies this
      ensures (outcome, rows) == Reserve(old(rows), clock, id, available)
    {
      if !available {
        return Blocked(StoreUnavailable, 60.0);
      }
      if clock.NotANumber? || clock.now <= 0.0 {
        return Blocked(InvalidClock, 60.0);
      }
      var latest := SelectMax();
      if latest.Some? && latest.value > clock.now {
        return Blocked(ClockRollback, 60.0);
      }
      var count, oldest := SelectCountMin(clock.now - WINDOW);
      if count >= LIMIT {
        return Blocked(RollingLimit, MaxReal(1.0, oldest.value + WINDOW - clock.now));
      }
      if HasId(rows, id) {
        return Blocked(StoreUnavailable, 60.0);
      }
      rows := rows + [Row(id, clock.now)];
      return Reserved(id, clock.now);
    }
  }

  // ----- every interleaving

  datatype Call = Call(clock: Clock, id: string, available: bool)

  /** The table after the calls of all processes, in the order their transactions ran. */
  function Table(calls: seq<Call>): seq<Row> {
    if calls == [] then []
    else
      var call := calls[|calls| - 1];
      Reserve(Table(calls[..|calls| - 1]), call.clock, call.id, call.available).1
  }

  ghost predicate Ordered(rows: seq<Row>) {
    forall i, j | 0 <= i <= j < |rows| :: rows[i].at <= rows[j].at
  }

  /** Any reservation and the twenty-fifth after it are at least a day apart. */
  ghost predicate Spaced(rows: seq<Row>) {
    forall i, j | 0 <= i && j == i + LIMIT < |rows| :: rows[i].at + WINDOW <= rows[j].at
  }

  ghost predicate Safe(rows: seq<Row>) {
    Ordered(rows) && Spaced(rows)
  }

  /** How many reservations fall into (t - WINDOW, t]. */
  function InWindow(rows: seq<Row>, t: real): nat {
    if rows == [] then 0 else (if t - WINDOW < rows[0].at <= t then 1 else 0) + InWindow(rows[1..], t)
  }

  lemma {:induction false} LatestIsLast(rows: seq<Row>)
    requires rows != [] && Ordered(rows)
    ensures Latest(rows) == rows[|rows| - 1].at
  {
    if |rows| > 1 {
      LatestIsLast(rows[1..]);
    }
  }

  /** In an ordered table the recent rows are a suffix. */
  lemma {:induction false} AfterIsSuffix(rows: seq<Row>, since: real)
    requires Ordered(rows)
    ensures var k := |rows| - |After(rows, since)|;
            && 0 <= k <= |rows| && After(rows, since) == rows[k..]
            && (forall i | 0 <= i < k :: rows[i].at <= since)
            && (forall i | k <= i < |rows| :: rows[i].at > since)
  {
    if rows != [] {
      AfterIsSuffix(rows[1..], since);
      assert forall i | 0 < i < |rows| :: rows[i] == rows[1..][i - 1];
      if rows[0].at > since {
        assert forall i | 0 <= i < |rows| :: rows[0].at <= rows[i].at;
        assert |After(rows[1..], since)| == |rows[1..]|;
        assert rows == [rows[0]] + rows[1..];
      }
    }
  }

  lemma {:induction false} EarliestIsFirst(rows: seq<Row>)
    requires rows != [] && Ordered(rows)
    ensures Earliest(rows) == rows[0].at
  {
    if |rows| > 1 {
      EarliestIsFirst(rows[1..]);
    }
  }

  /** A call appends one reservation at its own time or changes nothing; either way the table stays safe. */
  lemma ReserveKeepsSafe(rows: seq<Row>, clock: Clock, id: string, available: bool)
    requires Safe(rows)
    ensures var (outcome, after) := Reserve(rows, clock, id, available);
            && Safe(after)
            && (outcome.Reserved? <==> after != rows)
            && (outcome.Reserved? ==>
                  clock.Time? && after == rows + [Row(outcome.id, outcome.at)] && outcome.at == clock.now)
            && (outcome.Blocked? ==> after == rows)
  {
    var (outcome, after) := Reserve(rows, clock, id, available);
    if outcome.Reserved? {
      AppendKeepsSafe(rows, clock.now, id);
      assert |after| == |rows| + 1;
    }
  }

  lemma AppendKeepsSafe(rows: seq<Row>, now: real, id: string)
    requires Safe(rows)
    requires rows != [] ==> Latest(rows) <= now
    requires |After(rows, now - WINDOW)| < LIMIT
    ensures Safe(rows + [Row(id, now)])
  {
    if rows != [] {
      LatestIsLast(rows);
    }
    AppendKeepsSpaced(rows, now, id);
    var after := rows + [Row(id, now)];
    forall i, j | 0 <= i <= j < |after| ensures after[i].at <= after[j].at {
      if j == |rows| && i < j {
        assert rows[i].at <= rows[|rows| - 1].at;
      }
    }
  }

  lemma AppendKeepsSpaced(rows: seq<Row>, now: real, id: string)
    requires Safe(rows) && |After(rows, now - WINDOW)| < LIMIT
    ensures Spaced(rows + [Row(id, now)])
  {
    AfterIsSuffix(rows, now - WINDOW);
    var after := rows + [Row(id, now)];
    forall i, j | 0 <= i && j == i + LIMIT < |after| ensures after[i].at + WINDOW <= after[j].at {
      if j < |rows| {
        assert after[j] == rows[j];
      }
    }
  }

  lemma {:induction false} TableIsSafe(calls: seq<Call>)
    ensures Safe(Table(calls))
  {
    if calls != [] {
      TableIsSafe(calls[..|calls| - 1]);
      var call := calls[|calls| - 1];
      ReserveKeepsSafe(Table(calls[..|calls| - 1]), call.clock, call.id, call.available);
    }
  }

  /** The rows of a window lie within LIMIT consecutive positions of a safe table. */
  lemma {:induction false} WindowBound(rows: seq<Row>, t: real)
    requires Safe(rows)
    ensures InWindow(rows, t) <= LIMIT
  {
    if rows != [] {
      SafeTail(rows);
      WindowBound(rows[1..], t);
      if t - WINDOW < rows[0].at {
        WindowIsPrefix(rows, t);
        InWindowAtMost(rows[..MinLen(rows)], t);
      }
    }
  }

  function MinLen(rows: seq<Row>): nat { if |rows| < LIMIT then |rows| else LIMIT }

  lemma SafeTail(rows: seq<Row>)
    requires Safe(rows) && rows != []
    ensures Safe(rows[1..])
  {
    var tail := rows[1..];
    assert forall i | 0 <= i < |tail| :: tail[i] == rows[i + 1];
  }

  lemma {:induction false} InWindowAtMost(rows: seq<Row>, t: real)
    ensures InWindow(rows, t) <= |rows|
  {
    if rows != [] {
      InWindowAtMost(rows[1..], t);
    }
  }

  lemma {:induction false} InWindowNone(rows: seq<Row>, t: real)
    requires forall r | r in rows :: r.at > t
    ensures InWindow(rows, t) == 0
  {
    if rows != [] {
      InWindowNone(rows[1..], t);
    }
  }

  lemma {:induction false} InWindowSplit(a: seq<Row>, b: seq<Row>, t: real)
    ensures InWindow(a + b, t) == InWindow(a, t) + InWindow(b, t)
  {
    if a == [] {
      assert a + b == b;
    } else {
      InWindowSplit(a[1..], b, t);
      assert (a + b)[1..] == a[1..] + b;
    }
  }

  lemma WindowIsPrefix(rows: seq<Row>, t: real)
    requires Safe(rows) && rows != [] && t - WINDOW < rows[0].at
    ensures InWindow(rows, t) == InWindow(rows[..MinLen(rows)], t)
  {
    var m := MinLen(rows);
    assert rows == rows[..m] + rows[m..];
    InWindowSplit(rows[..m], rows[m..], t);
    forall r | r in rows[m..] ensures r.at > t {
      var i :| m <= i < |rows| && rows[i] == r;
      assert rows[0].at + WINDOW <= rows[LIMIT].at;
      assert rows[LIMIT].at <= rows[i].at;
    }
    InWindowNone(rows[m..], t);
  }

  /**
   The safety claim: in every interleaving of calls by any processes, whatever their clocks
   read, no 24-hour window ever holds more than 25 reservations, and times never decrease
   in commit order.
   */
  lemma EveryWindowIsBounded(calls: seq<Call>, t: real)
    ensures InWindow(Table(calls), t) <= LIMIT
    ensures Ordered(Table(calls))
  {
    TableIsSafe(calls);
    WindowBound(Table(calls), t);
  }

  // ----- what each call is answered

  /** The reservations that a reading of the clock finds in the last 24 hours, by position. */
  ghost function LastDay(rows: seq<Row>, now: real): set<nat> {
    set i: nat | i < |rows| && now - 86400.0 < rows[i].at <= now
  }

  lemma {:induction false} InWindowCounts(rows: seq<Row>, t: real)
    ensures InWindow(rows, t) == |LastDay(rows, t)|
  {
    if rows != [] {
      var last := |rows| - 1;
      InWindowSplit(rows[..last], rows[last..], t);
      assert rows[..last] + rows[last..] == rows && rows[last..][1..] == [];
      InWindowCounts(rows[..last], t);
      var before := LastDay(rows[..last], t);
      assert LastDay(rows, t) == if t - 86400.0 < rows[last].at <= t then before + {last} else before;
    } else {
      assert LastDay(rows, t) == {};
    }
  }

  lemma {:induction false} LatestCovers(rows: seq<Row>, now: real)
    requires rows != []
    ensures Latest(rows) <= now <==> forall r | r in rows :: r.at <= now
  {
    if |rows| > 1 {
      LatestCovers(rows[1..], now);
      assert rows == [rows[0]] + rows[1..];
    } else {
      assert rows[0] in rows;
    }
  }

  ghost predicate NoneLater(rows: seq<Row>, now: real) {
    forall r | r in rows :: r.at <= now
  }

  lemma LastDayIsRecent(rows: seq<Row>, now: real)
    requires NoneLater(rows, now)
    ensures |After(rows, now - WINDOW)| == |LastDay(rows, now)|
  {
    forall i | 0 <= i < |rows| ensures rows[i].at <= now {
      assert rows[i] in rows;
    }
    AfterCountsWindow(rows, now);
    InWindowCounts(rows, now);
  }

  /** The clock is a positive time that no committed reservation is ahead of. */
  ghost predicate ClockInStep(rows: seq<Row>, clock: Clock) {
    clock.Time? && clock.now > 0.0 && NoneLater(rows, clock.now)
  }

  lemma ClockSteps(rows: seq<Row>, clock: Clock)
    ensures ClockInStep(rows, clock) <==> clock.Time? && clock.now > 0.0 && (rows == [] || Latest(rows) <= clock.now)
    ensures ClockInStep(rows, clock) ==> |After(rows, clock.now - WINDOW)| == |LastDay(rows, clock.now)|
  {
    if clock.Time? && rows != [] {
      LatestCovers(rows, clock.now);
    }
    if ClockInStep(rows, clock) {
      LastDayIsRecent(rows, clock.now);
    }
  }

  /**
   A call is admitted, and its reservation committed at the time of its clock, if and only if
   the database answers, the clock is in step, fewer than 25 reservations are from the last
   24 hours, and the identifier is new.
   */
  lemma AdmittedIff(rows: seq<Row>, clock: Clock, id: string, available: bool)
    ensures var (outcome, after) := Reserve(rows, clock, id, available);
            && (outcome.Reserved? <==>
                  && available && ClockInStep(rows, clock)
                  && |LastDay(rows, clock.now)| < 25 && forall r | r in rows :: r.id != id)
            && (outcome.Reserved? ==> outcome == Reserved(id, clock.now) && after == rows + [Row(id, clock.now)])
  {
    ClockSteps(rows, clock);
  }

  /** And otherwise the reason of the refusal is exactly the first thing that was wrong. */
  lemma RefusedBecause(rows: seq<Row>, clock: Clock, id: string, available: bool)
    requires Reserve(rows, clock, id, available).0.Blocked?
    ensures var (outcome, after) := Reserve(rows, clock, id, available);
            && after == rows
            && (outcome.reason != RollingLimit ==> outcome.retryAfter == 60.0)
            && (outcome.reason == InvalidClock <==> available && !(clock.Time? && clock.now > 0.0))
            && (outcome.reason == ClockRollback <==>
                  available && clock.Time? && clock.now > 0.0 && exists r :: r in rows && r.at > clock.now)
            && (outcome.reason == RollingLimit <==>
                  available && ClockInStep(rows, clock) && |LastDay(rows, clock.now)| >= 25)
            && (outcome.reason == StoreUnavailable <==>
                  || !available
                  || (&& ClockInStep(rows, clock) && |LastDay(rows, clock.now)| < 25
                      && exists r :: r in rows && r.id == id))
  {
    ClockSteps(rows, clock);
  }

  /** The table of an interleaving starts empty, and each call appends its own reservation or nothing, as just said. */
  lemma TableFollowsCalls(calls: seq<Call>, call: Call)
    ensures Table([]) == []
    ensures var rows := Table(calls);
            Table(calls + [call]) ==
            if && call.available && ClockInStep(rows, call.clock)
               && |LastDay(rows, call.clock.now)| < 25 && (forall r | r in rows :: r.id != call.id)
            then rows + [Row(call.id, call.clock.now)] else rows
  {
    assert (calls + [call])[..|calls|] == calls;
    AdmittedIff(Table(calls), call.clock, call.id, call.available);
    if Reserve(Table(calls), call.clock, call.id, call.available).0.Blocked? {
      RefusedBecause(Table(calls), call.clock, call.id, call.available);
    }
  }

  /** The earliest of some rows is one of their times, and no other is before it. */
  lemma {:induction false} EarliestIsLeast(rows: seq<Row>)
    requires rows != []
    ensures exists r :: r in rows && r.at == Earliest(rows)
    ensures forall r | r in rows :: Earliest(rows) <= r.at
  {
    if |rows| > 1 {
      EarliestIsLeast(rows[1..]);
      assert rows == [rows[0]] + rows[1..];
      var r :| r in rows[1..] && r.at == Earliest(rows[1..]);
      assert r in rows && rows[0] in rows;
    } else {
      assert rows[0] in rows;
    }
  }

  /** A call is refused by the limit exactly when nothing else is wrong and 25 reservations are from the last day. */
  lemma RefusedByLimitIff(rows: seq<Row>, call: Call)
    ensures RefusedByLimit(rows, call) <==>
            call.available && ClockInStep(rows, call.clock) && |LastDay(rows, call.clock.now)| >= 25
  {
    ClockSteps(rows, call.clock);
  }

  predicate RefusedByLimit(rows: seq<Row>, call: Call) {
    var outcome := Reserve(rows, call.clock, call.id, call.available).0;
    outcome.Blocked? && outcome.reason == RollingLimit
  }

  /** A limit refusal is exact: the window then holds precisely 25 reservations. */
  lemma RefusalMeansFullWindow(calls: seq<Call>, call: Call)
    requires RefusedByLimit(Table(calls), call)
    ensures InWindow(Table(calls), call.clock.now) == LIMIT
    ensures |After(Table(calls), call.clock.now - WINDOW)| == LIMIT
  {
    TableIsSafe(calls);
    RefusalInSafeTable(Table(calls), call.clock.now);
  }

  lemma RefusalInSafeTable(rows: seq<Row>, now: real)
    requires Safe(rows) && rows != [] && Latest(rows) <= now
    requires |After(rows, now - WINDOW)| >= LIMIT
    ensures InWindow(rows, now) == LIMIT == |After(rows, now - WINDOW)|
  {
    LatestIsLast(rows);
    assert forall i | 0 <= i < |rows| :: rows[i].at <= rows[|rows| - 1].at;
    WindowBound(rows, now);
    AfterCountsWindow(rows, now);
  }

  lemma {:induction false} AfterCountsWindow(rows: seq<Row>, now: real)
    requires forall i | 0 <= i < |rows| :: rows[i].at <= now
    ensures |After(rows, now - WINDOW)| == InWindow(rows, now)
  {
    if rows != [] {
      AfterCountsWindow(rows[1..], now);
    }
  }

  /**
   The wait it announces is exact: with no reservation in between, a later call with a fresh
   identifier is admitted if and only if a full day has passed since the oldest of the 25;
   that is the announced wait, which never falls below one second.
   */
  lemma RetryAfterIsExact(calls: seq<Call>, call: Call, later: real, id: string)
    requires RefusedByLimit(Table(calls), call)
    requires later >= call.clock.now && !HasId(Table(calls), id)
    ensures var rows, now := Table(calls), call.clock.now;
            var retryAfter := Reserve(rows, call.clock, call.id, call.available).0.retryAfter;
            var oldest := Earliest(After(rows, now - WINDOW));
            && now < oldest + WINDOW
            && retryAfter == MaxReal(1.0, oldest + WINDOW - now)
            && (Reserve(rows, Time(later), id, true).0.Reserved? <==> later >= oldest + WINDOW)
            && (later >= now + retryAfter ==> Reserve(rows, Time(later), id, true).0.Reserved?)
  {
    var rows, now := Table(calls), call.clock.now;
    TableIsSafe(calls);
    RetryAfterInSafeTable(Table(calls), call, later, id);
  }

  lemma RetryAfterInSafeTable(rows: seq<Row>, call: Call, later: real, id: string)
    requires Safe(rows) && RefusedByLimit(rows, call)
    requires later >= call.clock.now && !HasId(rows, id)
    ensures var oldest, now := Earliest(After(rows, call.clock.now - WINDOW)), call.clock.now;
            && now < oldest + WINDOW
            && Reserve(rows, call.clock, call.id, call.available).0.retryAfter == MaxReal(1.0, oldest + WINDOW - now)
            && (Reserve(rows, Time(later), id, true).0.Reserved? <==> later >= oldest + WINDOW)
  {
    RefusalFacts(rows, call);
    RefusalInSafeTable(rows, call.clock.now);
    LatestIsLast(rows);
    FullWindowReopens(rows, call.clock.now, later, id);
  }

  /** What a limit refusal saw, and the wait it announced. */
  lemma RefusalFacts(rows: seq<Row>, call: Call)
    requires RefusedByLimit(rows, call)
    ensures call.clock.Time? && call.clock.now > 0.0
    ensures var recent := After(rows, call.clock.now - WINDOW);
            && |recent| >= LIMIT && rows != [] && Latest(rows) <= call.clock.now
            && Reserve(rows, call.clock, call.id, call.available).0.retryAfter ==
               MaxReal(1.0, Earliest(recent) + WINDOW - call.clock.now)
  {
  }

  lemma FullWindowReopens(rows: seq<Row>, now: real, later: real, id: string)
    requires Safe(rows) && rows != [] && rows[|rows| - 1].at <= now <= later && now > 0.0
    requires |After(rows, now - WINDOW)| == LIMIT && !HasId(rows, id)
    ensures var oldest := Earliest(After(rows, now - WINDOW));
            && now < oldest + WINDOW
            && (Reserve(rows, Time(later), id, true).0.Reserved? <==> later >= oldest + WINDOW)
  {
    LatestIsLast(rows);
    OldestOfWindow(rows, now);
    CountLater(rows, later, |rows| - LIMIT);
  }

  lemma OldestOfWindow(rows: seq<Row>, now: real)
    requires Ordered(rows) && |After(rows, now - WINDOW)| == LIMIT
    ensures |rows| >= LIMIT
    ensures Earliest(After(rows, now - WINDOW)) == rows[|rows| - LIMIT].at > now - WINDOW
  {
    AfterIsSuffix(rows, now - WINDOW);
    var recent := rows[|rows| - LIMIT..];
    forall i, j | 0 <= i <= j < |recent| ensures recent[i].at <= recent[j].at {}
    EarliestIsFirst(recent);
  }

  lemma CountLater(rows: seq<Row>, later: real, k: nat)
    requires Ordered(rows) && k < |rows|
    ensures |After(rows, later - WINDOW)| < |rows| - k <==> later >= rows[k].at + WINDOW
  {
    AfterIsSuffix(rows, later - WINDOW);
  }
}

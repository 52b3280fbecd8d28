/**
 The TTL caches against a timed map (backend/cache_backends.py).

 A SQLite read is two steps, a read and a later compare-and-delete of the row it found dead,
 and any writer may run in between. Stored text is either the encoding of a value or corrupt.
 */
module TtlCache {
  import opened Wrappers

  type Value = string

  datatype Text = Encoded(value: Value) | Corrupt(raw: string)
  datatype Row = Row(text: Text, expires: real, updated: real)
  type Rows = map<string, Row>

  /** The timed map: what a key holds at a time. */
  function Live(rows: Rows, key: string, t: real): Option<Value> {
    if key in rows && rows[key].expires > t && rows[key].text.Encoded? then Some(rows[key].text.value) else None
  }

  predicate Dead(row: Row, t: real) {
    row.expires <= t || row.text.Corrupt?
  }

  function DeleteIfUnchanged(rows: Rows, key: string, row: Row): Rows {
    if key in rows && rows[key] == row then rows - {key} else rows
  }

  function Swept(rows: Rows, now: real): Rows {
    map k | k in rows && rows[k].expires > now :: rows[k]
  }

  /** A read followed at once by its cleanup. */
  function AfterGet(rows: Rows, key: string, now: real): Rows {
    if key in rows && Dead(rows[key], now) then rows - {key} else rows
  }

  lemma RemovedCount(rows: Rows, left: Rows)
    requires left.Keys <= rows.Keys
    ensures |rows.Keys - left.Keys| == |rows| - |left|
  {
    assert left.Keys + (rows.Keys - left.Keys) == rows.Keys;
    assert |rows| == |rows.Keys| && |left| == |left.Keys|;
  }

  class SqliteCache {
    var rows: Rows

    constructor ()
      ensures rows == map[]
    {
      rows := map[];
    }

    /** A read-only connection: nothing is cleaned up. */
    method PeekJson(key: string, now: real) returns (value: Option<Value>)
      ensures value == Live(rows, key, now)
    {
      if key in rows && rows[key].expires > now {
        match rows[key].text
        case Encoded(v) => return Some(v);
        case Corrupt(_) => return None;
      }
      return None;
    }

    /** The first step of a get: its answer, and the row it means to remove. */
    method ReadJson(key: string, now: real) returns (value: Option<Value>, doomed: Option<Row>)
      ensures value == Live(rows, key, now)
      ensures doomed == if key in rows && Dead(rows[key], now) then Some(rows[key]) else None
    {
      if key !in rows {
        return None, None;
      }
      var row := rows[key];
      if row.expires <= now {
        return None, Some(row);
      }
      match row.text
      case Encoded(v) => return Some(v), None;
      case Corrupt(_) => return None, Some(row);
    }

    /** The second step of a get. */
    method RemoveIfUnchanged(key: string, row: Row)
      modifies this
      ensures rows == DeleteIfUnchanged(old(rows), key, row)
    {
      if key in rows && rows[key].text == row.text && rows[key].expires == row.expires && rows[key].updated ==
          row.updated {
        rows := rows - {key};
      }
    }

    method GetJson(key: string, now: real) returns (value: Option<Value>)
      modifies this
      ensures value == Live(old(rows), key, now)
      ensures rows == AfterGet(old(rows), key, now)
    {
      var doomed;
      value, doomed := ReadJson(key, now);
      if doomed.Some? {
        RemoveIfUnchanged(key, doomed.value);
      }
    }

    /** Refuses a non-positive time to live. */
    method SetJson(key: string, value: Value, ttl: int, now: real) returns (stored: bool)
      modifies this
      ensures stored <==> ttl > 0
      ensures rows == if stored then old(rows)[key := Row(Encoded(value), now + ttl as real, now)] else old(rows)
    {
      if ttl <= 0 {
        return false;
      }
      rows := rows[key := Row(Encoded(value), now + ttl as real, now)];
      return true;
    }

    method Delete(key: string) returns (removed: bool)
      modifies this
      ensures removed <==> key in old(rows)
      ensures rows == old(rows) - {key}
    {
      removed := key in rows;
      rows := rows - {key};
    }

    method CleanupExpired(now: real) returns (removed: int)
      modifies this
      ensures rows == Swept(old(rows), now)
      ensures removed == |old(rows)| - |rows|
    {
      var left := map k | k in rows && rows[k].expires > now :: rows[k];
      RemovedCount(rows, left);
      removed := |rows.Keys - left.Keys|;
      rows := left;
    }
  }

  /** The in-memory cache keeps values themselves, so its texts are never corrupt. */
  class InMemoryCache {
    var entries: map<string, (Value, real)>

    constructor ()
      ensures entries == map[]
    {
      entries := map[];
    }

    ghost function AsRows(): Rows
      reads this
    {
      RowsOf(entries)
    }

    method GetJson(key: string, now: real) returns (value: Option<Value>)
      modifies this
      ensures value == Live(old(AsRows()), key, now)
      ensures AsRows() == AfterGet(old(AsRows()), key, now)
    {
      if key !in entries {
        return None;
      }
      var (v, expires) := entries[key];
      if expires <= now {
        entries := entries - {key};
        assert AsRows() == AfterGet(old(AsRows()), key, now);
        return None;
      }
      return Some(v);
    }

    method SetJson(key: string, value: Value, ttl: int, now: real) returns (stored: bool)
      modifies this
      ensures stored <==> ttl > 0
      ensures AsRows() == if stored then old(AsRows())[key := Row(Encoded(value), now + ttl as real, 0.0)]
              else old(AsRows())
    {
      if ttl <= 0 {
        return false;
      }
      entries := entries[key := (value, now + ttl as real)];
      return true;
    }

    method Delete(key: string) returns (removed: bool)
      modifies this
      ensures removed <==> key in old(AsRows())
      ensures AsRows() == old(AsRows()) - {key}
    {
      removed := key in entries;
      entries := entries - {key};
    }

    method CleanupExpired(now: real) returns (removed: int)
      modifies this
      ensures AsRows() == Swept(old(AsRows()), now)
      ensures removed == |old(AsRows())| - |AsRows()|
    {
      var expired := set k | k in entries && entries[k].1 <= now;
      var todo := expired;
      while todo != {}
        invariant todo <= expired
        invariant entries == old(entries) - (expired - todo)
        decreases todo
      {
        var k :| k in todo;
        entries := entries - {k};
        todo := todo - {k};
      }
      removed := |expired|;
      ExpiredRows(old(entries), now);
    }
  }

  function RowsOf(entries: map<string, (Value, real)>): Rows {
    map k | k in entries :: Row(Encoded(entries[k].0), entries[k].1, 0.0)
  }

  /** The rows of an in-memory cache hold its values until they expire. */
  lemma RowsHoldEntries(entries: map<string, (Value, real)>, key: string, t: real)
    ensures Live(RowsOf(entries), key, t) ==
            if key in entries && t < entries[key].1 then Some(entries[key].0) else None
  {
  }

  lemma ExpiredRows(entries: map<string, (Value, real)>, now: real)
    ensures var expired := set k | k in entries && entries[k].1 <= now;
            && RowsOf(entries - expired) == Swept(RowsOf(entries), now)
            && |expired| == |RowsOf(entries)| - |RowsOf(entries - expired)|
  {
    var expired := set k | k in entries && entries[k].1 <= now;
    RowsKeys(entries);
    RowsKeys(entries - expired);
    SubsetCount(entries.Keys, expired);
  }

  lemma RowsKeys(entries: map<string, (Value, real)>)
    ensures RowsOf(entries).Keys == entries.Keys && |RowsOf(entries)| == |entries.Keys|
  {
    assert |RowsOf(entries)| == |RowsOf(entries).Keys|;
  }

  lemma SubsetCount(all: set<string>, part: set<string>)
    requires part <= all
    ensures |part| == |all| - |all - part|
  {
    assert (all - part) + part == all;
  }

  // ----- interleavings

  /**
   One atomic step of some thread. `Store` is any write of a row, `Read` and `Finish` are the
   two steps of a thread's get.
   */
  datatype Event =
    | Store(key: string, row: Row)
    | Remove(key: string)
    | Cleanup(now: real)
    | Read(thread: int, key: string, now: real)
    | Finish(thread: int)

  /** The table, and the row each thread in the middle of a get means to remove. */
  datatype State = State(rows: Rows, doomed: map<int, (string, Row)>)

  function Step(s: State, e: Event): State {
    match e
    case Store(key, row) => s.(rows := s.rows[key := row])
    case Remove(key) => s.(rows := s.rows - {key})
    case Cleanup(now) => s.(rows := Swept(s.rows, now))
    case Read(thread, key, now) =>
      if key in s.rows && Dead(s.rows[key], now) then s.(doomed := s.doomed[thread := (key, s.rows[key])])
      else s.(doomed := s.doomed - {thread})
    case Finish(thread) =>
      if thread in s.doomed then
        State(DeleteIfUnchanged(s.rows, s.doomed[thread].0, s.doomed[thread].1), s.doomed - {thread})
      else s
  }

  /** A get whose two steps nothing comes between removes exactly the row it cannot answer with. */
  lemma GetIsTwoSteps(s: State, thread: int, key: string, now: real)
    ensures var read := Step(s, Read(thread, key, now));
            var after := Step(read, Finish(thread));
            && read.rows == s.rows && thread !in after.doomed
            && after.rows == AfterGet(s.rows, key, now)
            && after.rows == if Live(s.rows, key, now).Some? then s.rows else s.rows - {key}
  {
  }

  function Run(events: seq<Event>): State {
    if events == [] then State(map[], map[]) else Step(Run(events[..|events| - 1]), events[|events| - 1])
  }

  /** The simple map: only writers touch it, and nothing is ever cleaned up. */
  function Reference(events: seq<Event>): Rows {
    if events == [] then map[]
    else
      var before := Reference(events[..|events| - 1]);
      match events[|events| - 1]
      case Store(key, row) => before[key := row]
      case Remove(key) => before - {key}
      case _ => before
  }

  /**
   The step removes this row of the key: a cleanup at or past its expiry, or the end of a
   get that holds this very row.
   */
  predicate Removes(s: State, e: Event, key: string, row: Row) {
    match e
    case Cleanup(now) => row.expires <= now
    case Finish(thread) => thread in s.doomed && s.doomed[thread] == (key, row)
    case _ => false
  }

  /** Some step removed the row since the last write of the key. */
  ghost predicate RemovedSinceWrite(events: seq<Event>, key: string) {
    if events == [] then false
    else
      var front, last := events[..|events| - 1], events[|events| - 1];
      !Touches(last, key)
      && (RemovedSinceWrite(front, key)
          || (key in Reference(front) && Removes(Run(front), last, key, Reference(front)[key])))
  }

  /** Does this step write or remove the key? */
  predicate Touches(e: Event, key: string) {
    (e.Store? || e.Remove?) && e.key == key
  }

  /**
   The last row written survives exactly when no step has removed it since, whatever clocks
   and threads did before.
   */
  lemma {:induction false} RowSurvivesIff(events: seq<Event>, key: string)
    ensures key in Run(events).rows <==> key in Reference(events) && !RemovedSinceWrite(events, key)
    ensures key in Run(events).rows ==> Run(events).rows[key] == Reference(events)[key]
  {
    if events != [] {
      RowSurvivesIff(events[..|events| - 1], key);
    }
  }

  /**
   The cache refines the timed map, key by key. Under every interleaving of writes, removals,
   cleanups and two-step gets, what a key holds at a time is what the map without cleanup
   holds, exactly unless a row still alive at that time has been removed.
   */
  lemma CacheRefinesTimedMap(events: seq<Event>, key: string, t: real)
    ensures Live(Run(events).rows, key, t) == Live(Reference(events), key, t) <==>
            (Live(Reference(events), key, t).Some? ==> !RemovedSinceWrite(events, key))
  {
    RowSurvivesIff(events, key);
  }

  /** No clock that can affect the key was ahead of t. */
  ghost predicate ClocksUpTo(events: seq<Event>, key: string, t: real) {
    forall e | e in events :: (e.Cleanup? ==> e.now <= t) && (e.Read? && e.key == key ==> e.now <= t)
  }

  /** Only rows of the key that are dead by t have been removed or are about to be. */
  lemma {:induction false} OnlyDeadRowsGo(events: seq<Event>, key: string, t: real)
    requires ClocksUpTo(events, key, t)
    ensures RemovedSinceWrite(events, key) ==> key in Reference(events) && Dead(Reference(events)[key], t)
    ensures forall thread | thread in Run(events).doomed && Run(events).doomed[thread].0 == key ::
              Dead(Run(events).doomed[thread].1, t)
  {
    if events != [] {
      var front, last := events[..|events| - 1], events[|events| - 1];
      assert last in events;
      OnlyDeadRowsGo(front, key, t);
    }
  }

  /** In particular at every time that no clock which can affect the key was ahead of. */
  lemma RefinesUpToClocks(events: seq<Event>, key: string, t: real)
    requires ClocksUpTo(events, key, t)
    ensures Live(Run(events).rows, key, t) == Live(Reference(events), key, t)
  {
    OnlyDeadRowsGo(events, key, t);
    CacheRefinesTimedMap(events, key, t);
  }

  /** No thread is about to remove this very row. */
  predicate Unthreatened(s: State, key: string, row: Row) {
    forall thread | thread in s.doomed :: s.doomed[thread] != (key, row)
  }

  /**
   A fresh write is never lost. Whatever went on before it, with clocks however fast, and
   whatever removals of older rows are pending: the row stays until it is overwritten, as
   long as no later cleanup and no later read of the key has a clock past its expiry.
   */
  lemma WriteIsNeverLost(before: seq<Event>, key: string, value: Value, expires: real, updated: real, later: seq<Event>)
    requires var row := Row(Encoded(value), expires, updated); Unthreatened(Run(before), key, row)
    requires forall e | e in later :: !Touches(e, key)
    requires forall e | e in later :: (e.Cleanup? ==> e.now < expires) && (e.Read? && e.key == key ==> e.now < expires)
    ensures var events := before + [Store(key, Row(Encoded(value), expires, updated))] + later;
            && !RemovedSinceWrite(events, key)
            && forall t | t < expires :: Live(Run(events).rows, key, t) == Some(value)
  {
    var row := Row(Encoded(value), expires, updated);
    var events := before + [Store(key, row)] + later;
    RowStays(before, key, row, later);
    RowSurvivesIff(events, key);
  }

  /** A thread is only ever about to remove a row that was stored: a row never stored before is safe. */
  lemma {:induction false} NewRowIsUnthreatened(before: seq<Event>, key: string, row: Row)
    requires Store(key, row) !in before
    ensures Unthreatened(Run(before), key, row)
    ensures key in Run(before).rows ==> Run(before).rows[key] != row
  {
    if before != [] {
      var front, last := before[..|before| - 1], before[|before| - 1];
      assert before == front + [last];
      NewRowIsUnthreatened(front, key, row);
    }
  }

  lemma {:induction false} RowStays(before: seq<Event>, key: string, row: Row, later: seq<Event>)
    requires row.text.Encoded? && Unthreatened(Run(before), key, row)
    requires forall e | e in later :: !Touches(e, key)
    requires forall e | e in later :: e.Cleanup? ==> e.now < row.expires
    requires forall e | e in later :: e.Read? && e.key == key ==> e.now < row.expires
    ensures var events := before + [Store(key, row)] + later;
            && key in Reference(events) && Reference(events)[key] == row
            && Unthreatened(Run(events), key, row)
            && !RemovedSinceWrite(events, key)
  {
    var events := before + [Store(key, row)] + later;
    if later == [] {
      assert events[..|events| - 1] == before;
    } else {
      var front, last := later[..|later| - 1], later[|later| - 1];
      assert last in later;
      assert events[..|events| - 1] == before + [Store(key, row)] + front;
      RowStays(before, key, row, front);
    }
  }

  /** Cleaning up never changes what a later get answers, and a get changes nothing for anyone but the dead row. */
  lemma CleanupIsInvisible(rows: Rows, now: real, key: string, other: string, t: real)
    requires now <= t
    ensures Live(Swept(rows, now), key, t) == Live(rows, key, t)
    ensures Live(AfterGet(rows, key, now), other, t) == Live(rows, other, t)
    ensures key in rows && key !in Swept(rows, now) ==> rows[key].expires <= now
    ensures key in rows && key !in AfterGet(rows, key, now) ==> Dead(rows[key], now)
  {
  }

  /** The exception is real: a cleanup ahead of a reader's clock hides a row the reader still counts as live. */
  lemma ClocksMatter(key: string, value: Value)
    ensures var events := [Store(key, Row(Encoded(value), 10.0, 0.0)), Cleanup(10.0)];
            Live(Reference(events), key, 9.0) == Some(value) && Live(Run(events).rows, key, 9.0) == None
  {
    var first, second := Store(key, Row(Encoded(value), 10.0, 0.0)), Cleanup(10.0);
    assert [first, second][..1] == [first];
    assert [first][..0] == [];
    assert Reference([first]) == map[key := first.row] && Run([first]).rows == map[key := first.row];
  }

  lemma RunThen(events: seq<Event>, e: Event)
    ensures Run(events + [e]) == Step(Run(events), e)
  {
    assert (events + [e])[..|events|] == events;
  }

  /** So is the other one: writing the very row again that a pending get holds does not save it. */
  lemma SameRowIsLost(key: string, value: Value)
    ensures var row := Row(Encoded(value), 10.0, 0.0);
            var before := [Store(key, row)] + [Read(1, key, 10.0)];
            && !Unthreatened(Run(before), key, row)
            && key !in Run(before + [Store(key, row)] + [Finish(1)]).rows
  {
    var row := Row(Encoded(value), 10.0, 0.0);
    var store := Store(key, row);
    var before := [store] + [Read(1, key, 10.0)];
    RunThen([], store);
    assert [] + [store] == [store];
    RunThen([store], Read(1, key, 10.0));
    assert Run(before).doomed[1] == (key, row);
    RunThen(before, store);
    RunThen(before + [store], Finish(1));
  }
}

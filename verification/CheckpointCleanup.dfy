/**
 Batched removal of the checkpoints of terminal jobs (backend/checkpoint_maintenance.py).
 The two databases are tables of rows; each batch is one transaction.
 */
module CheckpointCleanup {
  import opened Wrappers
  import opened Names
  import opened Texts

  const DEFAULT_BATCH_SIZE := 200

  datatype JobRow = JobRow(id: Option<string>, status: string)
  datatype Row = Row(thread: string, payload: string)

  function Lower(s: string): string {
    if s == "" then "" else [if 'A' <= s[0] <= 'Z' then s[0] - 'A' + 'a' else s[0]] + Lower(s[1..])
  }

  predicate IsTerminal(status: string) {
    Lower(Strip(status)) in {"done", "error", "cancelled"}
  }

  /** A job is terminal in whatever case its status is written and whatever white space surrounds it. */
  lemma TerminalStatus(before: string, core: string, after: string)
    requires Blank(before) && Blank(after) && (core == "" || (!IsSpace(core[0]) && !IsSpace(core[|core| - 1])))
    ensures IsTerminal(before + (core + after)) <==>
            Lower(core) == "done" || Lower(core) == "error" || Lower(core) == "cancelled"
  {
    StripRemovesPads(before, core, after);
  }

  lemma {:induction false} LowerAt(s: string, k: nat)
    requires k < |s|
    ensures |Lower(s)| == |s|
    ensures Lower(s)[k] as int == s[k] as int + if 65 <= s[k] as int <= 90 then 32 else 0
  {
    if |s| > 1 {
      LowerAt(s[1..], if k > 0 then k - 1 else 0);
    }
  }

  function JobsWhere(jobs: seq<JobRow>, terminal: bool): set<string> {
    set j | j in jobs && j.id.Some? && IsTerminal(j.status) == terminal :: j.id.value
  }

  /** A job belongs to a set exactly if a row with a status of that kind names it. */
  lemma JobsAreRows(jobs: seq<JobRow>, id: string)
    ensures id in JobsWhere(jobs, true) <==> exists s :: JobRow(Some(id), s) in jobs && IsTerminal(s)
    ensures id in JobsWhere(jobs, false) <==> exists s :: JobRow(Some(id), s) in jobs && !IsTerminal(s)
  {
    forall j | j in jobs && j.id == Some(id) ensures j == JobRow(Some(id), j.status) {}
  }

  // ----- filters

  function ThreadsOf(threads: seq<string>, jobs: set<string>): seq<string> {
    if threads == [] then []
    else if BeforeColon(threads[0]) in jobs then [threads[0]] + ThreadsOf(threads[1..], jobs)
    else ThreadsOf(threads[1..], jobs)
  }

  function ThreadsNotOf(threads: seq<string>, jobs: set<string>): seq<string> {
    if threads == [] then []
    else if BeforeColon(threads[0]) in jobs then ThreadsNotOf(threads[1..], jobs)
    else [threads[0]] + ThreadsNotOf(threads[1..], jobs)
  }

  /** `DELETE ... WHERE thread_id IN threads` */
  function Delete(rows: seq<Row>, threads: seq<string>): seq<Row> {
    if rows == [] then []
    else if rows[0].thread in threads then Delete(rows[1..], threads)
    else [rows[0]] + Delete(rows[1..], threads)
  }

  /** `COUNT(*) ... WHERE thread_id IN threads` */
  function Count(rows: seq<Row>, threads: seq<string>): nat {
    if rows == [] then 0 else (if rows[0].thread in threads then 1 else 0) + Count(rows[1..], threads)
  }

  /** What a single filter would keep: the rows of every job that is not terminal. */
  function Survivors(rows: seq<Row>, terminal: set<string>): seq<Row> {
    if rows == [] then []
    else if BeforeColon(rows[0].thread) in terminal then Survivors(rows[1..], terminal)
    else [rows[0]] + Survivors(rows[1..], terminal)
  }

  function RowThreads(rows: seq<Row>): (r: seq<string>)
    ensures forall t :: t in r <==> exists row | row in rows :: row.thread == t
  {
    if rows == [] then [] else
      assert rows == [rows[0]] + rows[1..];
      [rows[0].thread] + RowThreads(rows[1..])
  }

  /** The union query over both tables, in order. */
  function ThreadIds(checkpoints: seq<Row>, writes: seq<Row>): seq<string> {
    SortedSet(RowThreads(checkpoints) + RowThreads(writes))
  }

  // ----- batches

  function Chunks(values: seq<string>, size: nat): seq<seq<string>>
    requires size >= 1
  {
    if |values| <= size then (if values == [] then [] else [values])
    else [values[..size]] + Chunks(values[size..], size)
  }

  /** `ceil(len(values) / batch_size)` */
  function BatchCount(values: seq<string>, size: nat): nat
    requires size >= 1
  {
    (|values| + size - 1) / size
  }

  function Concat(chunks: seq<seq<string>>): seq<string> {
    if chunks == [] then [] else chunks[0] + Concat(chunks[1..])
  }

  /** The batches are the values in order, none empty or too large, and as many as announced. */
  lemma {:induction false} ChunksCover(values: seq<string>, size: nat)
    requires size >= 1
    ensures Concat(Chunks(values, size)) == values
    ensures forall c | c in Chunks(values, size) :: 0 < |c| <= size
    ensures |Chunks(values, size)| == BatchCount(values, size)
  {
    ChunkSizes(values, size);
    CeilUnique(|values|, size, |Chunks(values, size)|);
    if |values| > size {
      ChunksCover(values[size..], size);
      assert values == values[..size] + values[size..];
    } else if values != [] {
      assert Concat([values]) == values + Concat([]);
    }
  }

  lemma {:induction false} ChunkSizes(values: seq<string>, size: nat)
    requires size >= 1
    ensures var k := |Chunks(values, size)|; |values| <= k * size < |values| + size
  {
    if |values| > size {
      ChunkSizes(values[size..], size);
      var k := |Chunks(values[size..], size)|;
      assert (k + 1) * size == k * size + size;
    }
  }

  lemma CeilUnique(n: nat, size: nat, k: nat)
    requires size >= 1 && n <= k * size < n + size
    ensures (n + size - 1) / size == k
  {
    var m := n + size - 1;
    var q := m / size;
    assert q * size <= m < (q + 1) * size by {
      assert m == q * size + m % size;
    }
    assert k * size <= m < (k + 1) * size;
    if q < k {
      ProductGrows(q + 1, k, size);
    } else if k < q {
      ProductGrows(k + 1, q, size);
    }
  }

  lemma ProductGrows(a: nat, b: nat, c: nat)
    requires a <= b
    ensures a * c <= b * c
  {
    assert (b - a) * c >= 0;
  }

  // ----- deletion

  lemma {:induction false} DeleteComposes(rows: seq<Row>, a: seq<string>, b: seq<string>)
    ensures Delete(Delete(rows, a), b) == Delete(rows, a + b)
  {
    if rows != [] {
      DeleteComposes(rows[1..], a, b);
      if rows[0].thread !in a {
        assert ([rows[0]] + Delete(rows[1..], a))[1..] == Delete(rows[1..], a);
      }
    }
  }

  lemma {:induction false} DeleteNone(rows: seq<Row>)
    ensures Delete(rows, []) == rows
  {
    if rows != [] {
      DeleteNone(rows[1..]);
      assert rows == [rows[0]] + rows[1..];
    }
  }

  lemma {:induction false} DeleteCounts(rows: seq<Row>, threads: seq<string>)
    ensures |rows| == |Delete(rows, threads)| + Count(rows, threads)
  {
    if rows != [] {
      DeleteCounts(rows[1..], threads);
    }
  }

  /** Deleting one batch leaves the count of a disjoint one as it was. */
  lemma {:induction false} CountAfterDelete(rows: seq<Row>, a: seq<string>, b: seq<string>)
    requires forall t | t in a :: t !in b
    ensures Count(Delete(rows, a), b) == Count(rows, b)
    ensures Count(rows, a + b) == Count(rows, a) + Count(rows, b)
  {
    if rows != [] {
      CountAfterDelete(rows[1..], a, b);
      if rows[0].thread !in a {
        assert ([rows[0]] + Delete(rows[1..], a))[1..] == Delete(rows[1..], a);
      }
    }
  }

  /** Deleting the candidate threads of a table is the single filter on jobs. */
  lemma {:induction false} DeleteIsFilter(rows: seq<Row>, threads: seq<string>, terminal: set<string>)
    requires forall t | t in threads :: BeforeColon(t) in terminal
    requires forall row | row in rows && BeforeColon(row.thread) in terminal :: row.thread in threads
    ensures Delete(rows, threads) == Survivors(rows, terminal)
  {
    if rows != [] {
      assert rows[0] in rows;
      DeleteIsFilter(rows[1..], threads, terminal);
    }
  }

  lemma {:induction false} ThreadsOfMembers(threads: seq<string>, jobs: set<string>)
    ensures forall t :: t in ThreadsOf(threads, jobs) <==> t in threads && BeforeColon(t) in jobs
  {
    if threads != [] {
      ThreadsOfMembers(threads[1..], jobs);
      assert threads == [threads[0]] + threads[1..];
    }
  }

  lemma {:induction false} ThreadsOfSorted(threads: seq<string>, jobs: set<string>)
    requires StrictlySorted(threads)
    ensures StrictlySorted(ThreadsOf(threads, jobs))
  {
    if threads != [] {
      ThreadsOfSorted(threads[1..], jobs);
      ThreadsOfMembers(threads[1..], jobs);
      var rest := ThreadsOf(threads[1..], jobs);
      forall j | 0 <= j < |rest| ensures Below(threads[0], rest[j]) {
        assert rest[j] in threads[1..];
      }
    }
  }

  /** Every thread is a candidate, active or unmatched, and exactly one of these; terminal wins. */
  lemma {:induction false} ThreadsArePartitioned(threads: seq<string>, terminal: set<string>, active: set<string>)
    ensures multiset(threads) == multiset(ThreadsOf(threads, terminal)) +
            multiset(ThreadsOf(threads, active - terminal))
                                 + multiset(ThreadsNotOf(threads, terminal + active))
  {
    if threads != [] {
      ThreadsArePartitioned(threads[1..], terminal, active);
      assert threads == [threads[0]] + threads[1..];
    }
  }

  lemma CandidatesCoverTerminal(checkpoints: seq<Row>, writes: seq<Row>, terminal: set<string>)
    ensures var candidates := ThreadsOf(ThreadIds(checkpoints, writes), terminal);
            && Delete(checkpoints, candidates) == Survivors(checkpoints, terminal)
            && Delete(writes, candidates) == Survivors(writes, terminal)
            && StrictlySorted(candidates)
  {
    var all := RowThreads(checkpoints) + RowThreads(writes);
    ThreadsOfMembers(SortedSet(all), terminal);
    SortedSetIsSorted(all);
    ThreadsOfSorted(SortedSet(all), terminal);
    var candidates := ThreadsOf(ThreadIds(checkpoints, writes), terminal);
    DeleteIsFilter(checkpoints, candidates, terminal);
    DeleteIsFilter(writes, candidates, terminal);
  }

  /**
   An interrupted cleanup is harmless: after any part of the batches only rows of terminal
   jobs are gone, and a later cleanup ends where an uninterrupted one would have.
   */
  lemma {:induction false} InterruptedCleanupResumes(rows: seq<Row>, part: seq<string>, terminal: set<string>)
    requires forall t | t in part :: BeforeColon(t) in terminal
    ensures Survivors(Delete(rows, part), terminal) == Survivors(rows, terminal)
    ensures forall row | row in rows && row !in Delete(rows, part) :: BeforeColon(row.thread) in terminal
  {
    if rows != [] {
      InterruptedCleanupResumes(rows[1..], part, terminal);
      if rows[0].thread !in part {
        assert ([rows[0]] + Delete(rows[1..], part))[1..] == Delete(rows[1..], part);
      }
    }
  }

  // ----- the cleanup

  method LoadJobSets(jobs: seq<JobRow>) returns (terminal: set<string>, active: set<string>)
    ensures terminal == JobsWhere(jobs, true) && active == JobsWhere(jobs, false)
  {
    terminal, active := {}, {};
    for i := 0 to |jobs|
      invariant terminal == JobsWhere(jobs[..i], true) && active == JobsWhere(jobs[..i], false)
    {
      assert jobs[..i + 1] == jobs[..i] + [jobs[i]];
      if jobs[i].id.Some? {
        if IsTerminal(jobs[i].status) {
          terminal := terminal + {jobs[i].id.value};
        } else {
          active := active + {jobs[i].id.value};
        }
      }
    }
    assert jobs[..|jobs|] == jobs;
  }

  method ClassifyThreads(threads: seq<string>, terminal: set<string>, active: set<string>)
    returns (candidates: seq<string>, running: seq<string>, unmatched: seq<string>)
    ensures candidates == ThreadsOf(threads, terminal)
    ensures running == ThreadsOf(threads, active - terminal)
    ensures unmatched == ThreadsNotOf(threads, terminal + active)
  {
    candidates, running, unmatched := [], [], [];
    var i := 0;
    while i < |threads|
      invariant 0 <= i <= |threads|
      invariant candidates + ThreadsOf(threads[i..], terminal) == ThreadsOf(threads, terminal)
      invariant running + ThreadsOf(threads[i..], active - terminal) == ThreadsOf(threads, active - terminal)
      invariant unmatched + ThreadsNotOf(threads[i..], terminal + active) == ThreadsNotOf(threads, terminal + active)
    {
      assert threads[i..][1..] == threads[i + 1..];
      var job := BeforeColon(threads[i]);
      if job in terminal {
        candidates := candidates + [threads[i]];
      } else if job in active {
        running := running + [threads[i]];
      } else {
        unmatched := unmatched + [threads[i]];
      }
      i := i + 1;
    }
  }

  /** Counting in batches of the default size. */
  method RowCount(rows: seq<Row>, threads: seq<string>) returns (count: nat)
    requires StrictlySorted(threads)
    ensures count == Count(rows, threads)
  {
    var batches := Chunks(threads, DEFAULT_BATCH_SIZE);
    ChunksCover(threads, DEFAULT_BATCH_SIZE);
    count := 0;
    ghost var done: seq<string> := [];
    CountNone(rows);
    var i := 0;
    while i < |batches|
      invariant 0 <= i <= |batches|
      invariant done + Concat(batches[i..]) == threads
      invariant count == Count(rows, done)
    {
      assert batches[i..][1..] == batches[i + 1..];
      SortedPartsDisjoint(done, batches[i], Concat(batches[i + 1..]), threads);
      CountAfterDelete(rows, done, batches[i]);
      count := count + Count(rows, batches[i]);
      done := done + batches[i];
      i := i + 1;
    }
    assert batches[i..] == [] && done + [] == done;
  }

  lemma {:induction false} CountNone(rows: seq<Row>)
    ensures Count(rows, []) == 0
  {
    if rows != [] {
      CountNone(rows[1..]);
    }
  }

  lemma SortedPartsDisjoint(done: seq<string>, batch: seq<string>, rest: seq<string>, all: seq<string>)
    requires StrictlySorted(all) && done + (batch + rest) == all
    ensures done + batch + rest == all
    ensures forall t | t in done :: t !in batch
  {
    forall t | t in done && t in batch ensures false {
      var i :| 0 <= i < |done| && done[i] == t;
      var j :| 0 <= j < |batch| && batch[j] == t;
      assert all[i] == t && all[|done| + j] == t;
      BelowIsIrreflexive(t);
    }
  }

  datatype Report = Report(terminalJobs: nat, activeJobs: nat, candidates: seq<string>, running: nat, unmatched: nat,
                           candidateCheckpoints: nat, candidateWrites: nat, batches: nat,
                           deletedCheckpoints: nat, deletedWrites: nat, dryRun: bool)

  function EffectiveBatchSize(requested: int): (size: nat)
    ensures 1 <= requested <= 200 ==> size == requested
    ensures requested == 0 || requested > 200 ==> size == 200
    ensures requested < 0 ==> size == 1
  {
    var size := if requested == 0 then DEFAULT_BATCH_SIZE else requested;
    if size < 1 then 1 else if size > DEFAULT_BATCH_SIZE then DEFAULT_BATCH_SIZE else size
  }

  class CheckpointStore {
    var checkpoints: seq<Row>
    var writes: seq<Row>

    constructor (checkpoints: seq<Row>, writes: seq<Row>)
      ensures this.checkpoints == checkpoints && this.writes == writes
    {
      this.checkpoints, this.writes := checkpoints, writes;
    }

    /** One transaction. */
    method DeleteBatch(batch: seq<string>) returns (deletedWrites: nat, deletedCheckpoints: nat)
      modifies this
      ensures writes == Delete(old(writes), batch) && checkpoints == Delete(old(checkpoints), batch)
      ensures deletedWrites == Count(old(writes), batch) && deletedCheckpoints == Count(old(checkpoints), batch)
    {
      DeleteCounts(writes, batch);
      DeleteCounts(checkpoints, batch);
      deletedWrites := |writes| - |Delete(writes, batch)|;
      writes := Delete(writes, batch);
      deletedCheckpoints := |checkpoints| - |Delete(checkpoints, batch)|;
      checkpoints := Delete(checkpoints, batch);
    }

    /** The batches of the candidates, one transaction each, with running totals. */
    method DeleteBatches(candidates: seq<string>, size: nat) returns (deletedWrites: nat, deletedCheckpoints: nat)
      requires size >= 1 && StrictlySorted(candidates)
      modifies this
      ensures writes == Delete(old(writes), candidates) && checkpoints == Delete(old(checkpoints), candidates)
      ensures deletedWrites == Count(old(writes), candidates)
      ensures deletedCheckpoints == Count(old(checkpoints), candidates)
    {
      var batches := Chunks(candidates, size);
      ChunksCover(candidates, size);
      ghost var done: seq<string> := [];
      deletedWrites, deletedCheckpoints := 0, 0;
      CountNone(writes);
      CountNone(checkpoints);
      DeleteNone(writes);
      DeleteNone(checkpoints);
      var i := 0;
      while i < |batches|
        invariant 0 <= i <= |batches|
        invariant done + Concat(batches[i..]) == candidates
        invariant writes == Delete(old(writes), done) && checkpoints == Delete(old(checkpoints), done)
        invariant deletedWrites == Count(old(writes), done) && deletedCheckpoints == Count(old(checkpoints), done)
      {
        assert batches[i..][1..] == batches[i + 1..];
        SortedPartsDisjoint(done, batches[i], Concat(batches[i + 1..]), candidates);
        CountAfterDelete(old(writes), done, batches[i]);
        CountAfterDelete(old(checkpoints), done, batches[i]);
        DeleteComposes(old(writes), done, batches[i]);
        DeleteComposes(old(checkpoints), done, batches[i]);
        var w, c := DeleteBatch(batches[i]);
        deletedWrites, deletedCheckpoints := deletedWrites + w, deletedCheckpoints + c;
        done := done + batches[i];
        i := i + 1;
      }
      assert batches[i..] == [] && done + [] == done;
    }

    /**
     A dry run only reports; a write keeps exactly what one filter on jobs would keep, and deletes
     what it predicted. Both predict alike, so a dry run forecasts what a following write deletes.
     */
    method Cleanup(jobs: seq<JobRow>, write: bool, batchSize: int) returns (report: Report)
      modifies this
      ensures write ==> checkpoints == Survivors(old(checkpoints), JobsWhere(jobs, true))
                        && writes == Survivors(old(writes), JobsWhere(jobs, true))
      ensures !write ==> checkpoints == old(checkpoints) && writes == old(writes)
      ensures |old(checkpoints)| == |checkpoints| + report.deletedCheckpoints
      ensures |old(writes)| == |writes| + report.deletedWrites
      ensures write ==> report.deletedCheckpoints == report.candidateCheckpoints
      ensures write ==> report.deletedWrites == report.candidateWrites
      ensures report.candidates == ThreadsOf(ThreadIds(old(checkpoints), old(writes)), JobsWhere(jobs, true))
      ensures report.candidateCheckpoints == Count(old(checkpoints), report.candidates)
      ensures report.candidateWrites == Count(old(writes), report.candidates)
      ensures report.terminalJobs == |JobsWhere(jobs, true)| && report.activeJobs == |JobsWhere(jobs, false)|
      ensures var threads := ThreadIds(old(checkpoints), old(writes));
              var terminal, active := JobsWhere(jobs, true), JobsWhere(jobs, false);
              && report.running == |ThreadsOf(threads, active - terminal)|
              && report.unmatched == |ThreadsNotOf(threads, terminal + active)|
      ensures |report.candidates| + report.running + report.unmatched == |ThreadIds(old(checkpoints), old(writes))|
      ensures report.dryRun <==> !write
      ensures report.batches == BatchCount(report.candidates, EffectiveBatchSize(batchSize))
    {
      var size := EffectiveBatchSize(batchSize);
      var terminal, active := LoadJobSets(jobs);
      var threads := ThreadIds(checkpoints, writes);
      var candidates, running, unmatched := ClassifyThreads(threads, terminal, active);
      ThreadsArePartitioned(threads, terminal, active);
      assert |multiset(threads)| == |threads|;
      CandidatesCoverTerminal(checkpoints, writes, terminal);
      var candidateCheckpoints := RowCount(checkpoints, candidates);
      var candidateWrites := RowCount(writes, candidates);
      DeleteCounts(checkpoints, candidates);
      DeleteCounts(writes, candidates);
      report := Report(|terminal|, |active|, candidates, |running|, |unmatched|, candidateCheckpoints, candidateWrites,
                       BatchCount(candidates, size), 0, 0, true);
      if !write || candidates == [] {
        DeleteNone(checkpoints);
        DeleteNone(writes);
        report := report.(dryRun := !write);
        return;
      }
      var deletedWrites, deletedCheckpoints := DeleteBatches(candidates, size);
      report := report.(deletedWrites := deletedWrites, deletedCheckpoints := deletedCheckpoints, dryRun := false);
    }
  }
}

/**
 The reference meaning of a stage count: how often the stage failed since counting began
 anew. A log has one entry for each failure of a job, numbered from 1, after whatever the
 job already holds.
 */
module StageHistory {
  import opened Wrappers

  /**
   `trusted`: the failure continues the series of the one before. `balanced`: it can itself be
   continued by the next one.
   */
  datatype Entry = Entry(stage: Option<string>, trusted: bool, balanced: bool)
  type Log = seq<Entry>

  /** What a job holds when its log begins: counts already stored, and how many failures it has had. */
  datatype Base = Base(counts: map<string, int>, failures: nat)

  function At(counts: map<string, int>, key: string): int {
    if key in counts then counts[key] else 0
  }

  /** The number of the failure that began the series up to failure n; 0 if the series goes back to the base. */
  function ChainStart(log: Log, n: nat): (start: nat)
    requires n <= |log|
    ensures start <= n
  {
    if n == 0 then 0 else if log[n - 1].trusted then ChainStart(log, n - 1) else n
  }

  /** How many of the failures after `from`, up to n, fell on the stage. */
  function Charges(log: Log, from: nat, n: nat, stage: string): nat
    requires n <= |log|
  {
    if n <= from then 0
    else Charges(log, from, n - 1, stage) + (if log[n - 1].stage == Some(stage) then 1 else 0)
  }

  /** What a series opens with: the counts of the base, or all failures so far for the stage that began it. */
  function Opening(base: Base, log: Log, start: nat, stage: string): int
    requires start <= |log|
  {
    if start == 0 then At(base.counts, stage)
    else if log[start - 1].stage == Some(stage) then base.failures + start else 0
  }

  function HistoryCount(base: Base, log: Log, n: nat, stage: string): int
    requires n <= |log|
  {
    Opening(base, log, ChainStart(log, n), stage) + Charges(log, ChainStart(log, n), n, stage)
  }

  /** The stages that failed in the series up to failure n. */
  ghost function StagesOf(base: Base, log: Log, n: nat): set<string>
    requires n <= |log|
  {
    (if ChainStart(log, n) == 0 then base.counts.Keys else {})
    + set j: nat | ChainStart(log, n) <= j + 1 && j < n && log[j].stage.Some? :: log[j].stage.value
  }

  /** The stage of failure n had already failed in the series that n continues. */
  ghost predicate FailedBefore(base: Base, log: Log, n: nat)
    requires 0 < n <= |log|
  {
    log[n - 1].trusted && log[n - 1].stage.Some? && log[n - 1].stage.value in StagesOf(base, log, n - 1)
  }

  /** The stage count of failure n: its history while the failure can be continued, the global count otherwise. */
  function ReferenceCount(base: Base, log: Log, n: nat): int
    requires 0 < n <= |log| && (log[n - 1].balanced ==> log[n - 1].stage.Some?)
  {
    if log[n - 1].balanced then HistoryCount(base, log, n, log[n - 1].stage.value) else base.failures + n
  }

  /** How the counts of a failure follow from those before it. */
  ghost predicate Follows(global: nat, entry: Entry, counts: map<string, int>, balancedBefore: bool,
                          before: map<string, int>) {
    entry.balanced ==>
      && entry.stage.Some?
      && (entry.trusted ==> balancedBefore)
      && forall s :: At(counts, s) ==
                     (if entry.trusted then At(before, s) + (if entry.stage == Some(s) then 1 else 0)
                      else if entry.stage == Some(s) then global else 0)
  }

  ghost predicate Linked(base: Base, log: Log, counts: seq<map<string, int>>, k: nat)
    requires k < |log| == |counts|
  {
    Follows(base.failures + k + 1, log[k], counts[k], k == 0 || log[k - 1].balanced,
            if k > 0 then counts[k - 1] else base.counts)
  }

  ghost predicate AllLinked(base: Base, log: Log, counts: seq<map<string, int>>) {
    |log| == |counts| && forall k | 0 <= k < |log| :: Linked(base, log, counts, k)
  }

  lemma LinkedFrom(base: Base, log: Log, counts: seq<map<string, int>>, k: nat,
                   entry: Entry, now: map<string, int>, balancedBefore: bool, before: map<string, int>)
    requires k < |log| == |counts|
    requires log[k] == entry && counts[k] == now
    requires if k > 0 then log[k - 1].balanced == balancedBefore && counts[k - 1] == before else before == base.counts
    requires Follows(base.failures + k + 1, entry, now, balancedBefore, before)
    ensures Linked(base, log, counts, k)
  {
  }

  lemma {:induction false} CountsAreHistory(base: Base, log: Log, counts: seq<map<string, int>>, n: nat, stage: string)
    requires 0 < n <= |log| && AllLinked(base, log, counts) && log[n - 1].balanced
    ensures At(counts[n - 1], stage) == HistoryCount(base, log, n, stage)
  {
    assert Linked(base, log, counts, n - 1);
    if log[n - 1].trusted && n > 1 {
      CountsAreHistory(base, log, counts, n - 1, stage);
    } else if log[n - 1].trusted {
      assert Charges(log, 0, 0, stage) == 0;
    } else {
      assert Charges(log, n, n, stage) == 0;
    }
  }

  lemma {:induction false} ChargesFind(log: Log, from: nat, n: nat, stage: string)
    requires n <= |log|
    ensures Charges(log, from, n, stage) > 0 <==> exists j: nat :: from <= j < n && log[j].stage == Some(stage)
  {
    if from < n {
      ChargesFind(log, from, n - 1, stage);
    }
  }

  ghost predicate PositiveCounts(counts: map<string, int>) {
    forall s | s in counts :: counts[s] > 0
  }

  lemma HistoryPositive(base: Base, log: Log, n: nat, stage: string)
    requires n <= |log| && (ChainStart(log, n) == 0 ==> PositiveCounts(base.counts))
    ensures HistoryCount(base, log, n, stage) > 0 <==> stage in StagesOf(base, log, n)
  {
    var start := ChainStart(log, n);
    ChargesFind(log, start, n, stage);
    if stage in StagesOf(base, log, n) && !(start == 0 && stage in base.counts) {
      var j: nat :| start <= j + 1 && j < n && log[j].stage == Some(stage);
      assert j >= start || j == start - 1;
    }
    if start > 0 && log[start - 1].stage == Some(stage) {
      assert start <= (start - 1) + 1;
    }
  }

  /** The counts of a balanced failure have exactly the stages of its series. */
  lemma CountedStages(base: Base, log: Log, counts: seq<map<string, int>>, n: nat, last: map<string, int>)
    requires 0 < n <= |log| && AllLinked(base, log, counts) && log[n - 1].balanced && counts[n - 1] == last
    requires PositiveCounts(last) && (ChainStart(log, n) == 0 ==> PositiveCounts(base.counts))
    ensures last.Keys == StagesOf(base, log, n)
  {
    forall s ensures s in last <==> s in StagesOf(base, log, n) {
      CountsAreHistory(base, log, counts, n, s);
      HistoryPositive(base, log, n, s);
    }
  }

  /** What happened up to failure n does not depend on later failures. */
  lemma {:induction false} ChainPrefix(log: Log, longer: Log, n: nat)
    requires n <= |log| && log <= longer
    ensures ChainStart(longer, n) == ChainStart(log, n)
  {
    if n > 0 {
      ChainPrefix(log, longer, n - 1);
    }
  }

  lemma StagesPrefix(base: Base, log: Log, longer: Log, n: nat)
    requires n <= |log| && log <= longer
    ensures StagesOf(base, longer, n) == StagesOf(base, log, n)
  {
    ChainPrefix(log, longer, n);
  }

  lemma {:induction false} ChargesPrefix(log: Log, longer: Log, from: nat, n: nat, stage: string)
    requires n <= |log| && log <= longer
    ensures Charges(longer, from, n, stage) == Charges(log, from, n, stage)
  {
    if from < n {
      ChargesPrefix(log, longer, from, n - 1, stage);
    }
  }

  lemma PrefixSuffices(base: Base, log: Log, longer: Log, n: nat, stage: string)
    requires n <= |log| && log <= longer
    ensures ChainStart(longer, n) == ChainStart(log, n)
    ensures HistoryCount(base, longer, n, stage) == HistoryCount(base, log, n, stage)
  {
    ChainPrefix(log, longer, n);
    ChargesPrefix(log, longer, ChainStart(log, n), n, stage);
  }

  lemma {:induction false} ChargesGrow(log: Log, from: nat, m: nat, n: nat, stage: string)
    requires m <= n <= |log|
    ensures Charges(log, from, m, stage) <= Charges(log, from, n, stage)
  {
    if m < n {
      ChargesGrow(log, from, m, n - 1, stage);
    }
  }

  /** Later failures of a stage within one series count strictly more. */
  lemma HistoryGrows(base: Base, log: Log, m: nat, n: nat, stage: string)
    requires 0 < m < n <= |log|
    requires ChainStart(log, m) == ChainStart(log, n)
    requires log[n - 1].stage == Some(stage)
    ensures HistoryCount(base, log, m, stage) < HistoryCount(base, log, n, stage)
  {
    ChargesGrow(log, ChainStart(log, n), m, n - 1, stage);
  }
}

/**
 The retry ledger over whole runs. A run is the sequence of receipts attached to a job's
 availability failures, numbered from 1, after a start: whatever ledger and number of
 failures the job already holds, its own or one written before receipts named members.
 */
module RetryHistory {
  import opened Wrappers
  import opened StageIdentity
  import opened RetryLedger
  import opened StageHistory

  type Run = seq<Option<Receipt>>

  datatype Start = Start(stored: Stored, failures: nat)

  const FRESH := Start(Malformed, 0)

  /** No ledger counts failures that have not happened. */
  predicate Sound(s: Start) {
    s.stored.Stored? ==> s.stored.ledger.globalCount <= s.failures
  }

  function BaseOf(s: Start): Base {
    Base(if s.stored.Stored? then s.stored.ledger.counts else map[], s.failures)
  }

  /** The ledger stored after the first n failures. */
  ghost function After(d: Digests, job: string, s: Start, run: Run, n: nat): Stored
    requires n <= |run|
  {
    if n == 0 then s.stored
    else ChargeFailure(d, After(d, job, s, run, n - 1), run[n - 1], job, s.failures + n).stored
  }

  /** The stage count of failure n. */
  ghost function CountAt(d: Digests, job: string, s: Start, run: Run, n: nat): int
    requires 0 < n <= |run|
  {
    ChargeFailure(d, After(d, job, s, run, n - 1), run[n - 1], job, s.failures + n).count
  }

  ghost predicate RecordedAt(d: Digests, job: string, s: Start, run: Run, n: nat)
    requires 0 < n <= |run|
  {
    Recorded(d, After(d, job, s, run, n - 1), run[n - 1], job, s.failures + n)
  }

  /** Failure n found a ledger it could trust. */
  ghost predicate AcceptedAt(d: Digests, job: string, s: Start, run: Run, n: nat)
    requires 0 < n <= |run|
  {
    run[n - 1].Some? && Accepted(d, After(d, job, s, run, n - 1), run[n - 1].value, s.failures + n)
  }

  /** Failure n was recorded, and not as an unproven new stage. */
  ghost predicate Balanced(d: Digests, job: string, s: Start, run: Run, n: nat)
    requires 0 < n <= |run|
  {
    RecordedAt(d, job, s, run, n) && !Unproven(d, After(d, job, s, run, n - 1), run[n - 1].value, s.failures + n)
  }

  function StageAt(run: Run, n: nat): Option<string>
    requires 0 < n <= |run|
  {
    if run[n - 1].Some? then Some(run[n - 1].value.node) else None
  }

  ghost function EntryAt(d: Digests, job: string, s: Start, run: Run, n: nat): Entry
    requires 0 < n <= |run|
  {
    Entry(StageAt(run, n), AcceptedAt(d, job, s, run, n), Balanced(d, job, s, run, n))
  }

  /** What the ledger makes of the first n failures. */
  ghost function LogOf(d: Digests, job: string, s: Start, run: Run, n: nat): Log
    requires n <= |run|
  {
    seq(n, k requires 0 <= k < n => EntryAt(d, job, s, run, k + 1))
  }

  ghost function CountsAt(d: Digests, job: string, s: Start, run: Run, n: nat): map<string, int>
    requires n <= |run|
  {
    var stored := After(d, job, s, run, n); if stored.Stored? then stored.ledger.counts else map[]
  }

  ghost function CountsOf(d: Digests, job: string, s: Start, run: Run, n: nat): seq<map<string, int>>
    requires n <= |run|
  {
    seq(n, k requires 0 <= k < n => CountsAt(d, job, s, run, k + 1))
  }

  // ----- the reference, from the start and the receipts alone

  /** Progress that no collision hides. */
  ghost predicate Advanced(d: Digests, before: Receipt, after: Receipt) {
    Progressed(before, after) && !ProgressCollides(d, before, after)
  }

  /** Progress past the last failing stage of the ledger the job started with. */
  predicate AdvancedFrom(d: Digests, stored: Stored, r: Receipt) {
    stored.Stored? && LedgerMembers(d, stored.ledger.last).Some? && Proven(d, stored.ledger.last, r)
  }

  ghost predicate AdvancedAt(d: Digests, s: Start, run: Run, n: nat)
    requires 0 < n <= |run|
  {
    && run[n - 1].Some?
    && if n == 1 then AdvancedFrom(d, s.stored, run[0].value)
       else run[n - 2].Some? && Advanced(d, run[n - 2].value, run[n - 1].value)
  }

  /**
   Failure n carries a receipt for the input of the failure before, which could be
   continued; or the start's ledger is good for it.
   */
  ghost predicate Continues(d: Digests, s: Start, run: Run, log: Log, n: nat)
    requires |log| == n - 1 && 0 < n <= |run|
  {
    && run[n - 1].Some?
    && if n == 1 then Accepted(d, s.stored, run[0].value, s.failures + 1)
       else log[n - 2].balanced && run[n - 2].Some? && run[n - 1].value.scope == run[n - 2].value.scope
  }

  /**
   Failure n can be continued: it has a usable receipt, and if it continues a series, its
   stage failed before in it or is a new one reached by proven progress.
   */
  ghost predicate Continuable(d: Digests, job: string, s: Start, run: Run, log: Log, n: nat)
    requires |log| == n && 0 < n <= |run|
  {
    && Usable(d, run[n - 1], job)
    && (log[n - 1].trusted ==>
          || FailedBefore(BaseOf(s), log, n)
          || (|StagesOf(BaseOf(s), log, n - 1)| < MAX_NODES && AdvancedAt(d, s, run, n)))
  }

  ghost function Reference(d: Digests, job: string, s: Start, run: Run, n: nat): (log: Log)
    requires n <= |run|
    ensures |log| == n
  {
    if n == 0 then []
    else
      var before := Reference(d, job, s, run, n - 1);
      var entry := Entry(StageAt(run, n), Continues(d, s, run, before, n), false);
      before + [entry.(balanced := Continuable(d, job, s, run, before + [entry], n))]
  }

  // ----- where a ledger comes from

  /** What is stored was written by the last failure that was recorded, or is what the job started with. */
  lemma {:induction false} LastRecorded(d: Digests, job: string, s: Start, run: Run, n: nat) returns (m: nat)
    requires n <= |run|
    ensures m <= n && After(d, job, s, run, n) == After(d, job, s, run, m)
    ensures m > 0 ==> RecordedAt(d, job, s, run, m)
  {
    if n == 0 || RecordedAt(d, job, s, run, n) {
      m := n;
    } else {
      m := LastRecorded(d, job, s, run, n - 1);
    }
  }

  lemma RecordedLedger(d: Digests, job: string, s: Start, run: Run, n: nat)
    requires 0 < n <= |run| && RecordedAt(d, job, s, run, n)
    ensures var r := run[n - 1].value;
            && After(d, job, s, run, n) == Stored(Written(d, After(d, job, s, run, n - 1), r, s.failures + n))
            && After(d, job, s, run, n).ledger.globalCount == s.failures + n
            && After(d, job, s, run, n).ledger.scope == r.scope && After(d, job, s, run, n).ledger.last == LastOf(d, r)
  {
  }

  /** After the first failure, a trusted ledger was written by the immediately preceding failure. */
  lemma TrustedMeansRecorded(d: Digests, job: string, s: Start, run: Run, n: nat)
    requires 1 < n <= |run| && Sound(s) && AcceptedAt(d, job, s, run, n)
    ensures RecordedAt(d, job, s, run, n - 1)
  {
    var m := LastRecorded(d, job, s, run, n - 1);
    AcceptedFacts(d, After(d, job, s, run, n - 1), run[n - 1].value, s.failures + n);
    if m > 0 {
      RecordedCount(d, job, s, run, m);
    }
  }

  lemma RecordedCount(d: Digests, job: string, s: Start, run: Run, n: nat)
    requires 0 < n <= |run| && RecordedAt(d, job, s, run, n)
    ensures After(d, job, s, run, n).Stored? && After(d, job, s, run, n).ledger.globalCount == s.failures + n
  {
    RecordedLedger(d, job, s, run, n);
  }

  lemma AcceptedFacts(d: Digests, stored: Stored, r: Receipt, global: int)
    requires Accepted(d, stored, r, global)
    ensures stored.Stored? && stored.ledger.globalCount == global - 1 && stored.ledger.scope == r.scope
    ensures PositiveCounts(stored.ledger.counts)
  {
  }

  /** And it was written in balance, for the same input. */
  lemma TrustedMeansPreviousBalanced(d: Digests, job: string, s: Start, run: Run, n: nat)
    requires 1 < n <= |run| && Sound(s) && AcceptedAt(d, job, s, run, n)
    ensures Balanced(d, job, s, run, n - 1)
    ensures run[n - 2].value.scope == run[n - 1].value.scope
    ensures After(d, job, s, run, n - 1).ledger.last == LastOf(d, run[n - 2].value)
  {
    TrustedMeansRecorded(d, job, s, run, n);
    TrustedScope(d, job, s, run, n);
    TrustedWasProven(d, job, s, run, n - 1);
  }

  lemma TrustedScope(d: Digests, job: string, s: Start, run: Run, n: nat)
    requires 1 < n <= |run| && AcceptedAt(d, job, s, run, n) && RecordedAt(d, job, s, run, n - 1)
    ensures run[n - 2].value.scope == run[n - 1].value.scope
    ensures After(d, job, s, run, n - 1).ledger.last == LastOf(d, run[n - 2].value)
  {
    RecordedLedger(d, job, s, run, n - 1);
    AcceptedFacts(d, After(d, job, s, run, n - 1), run[n - 1].value, s.failures + n);
  }

  lemma TrustedWasProven(d: Digests, job: string, s: Start, run: Run, m: nat)
    requires 0 < m < |run| && run[m].Some?
    requires Accepted(d, After(d, job, s, run, m), run[m].value, s.failures + m + 1) && RecordedAt(d, job, s, run, m)
    ensures !Unproven(d, After(d, job, s, run, m - 1), run[m - 1].value, s.failures + m)
  {
    RecordedLedger(d, job, s, run, m);
    TrustedWasBalanced(d, After(d, job, s, run, m - 1), run[m - 1].value, s.failures + m,
                       After(d, job, s, run, m), run[m].value, s.failures + m + 1);
  }

  // ----- counts are histories

  /** A balanced charge adds one to its stage, or starts over with the whole global count. */
  lemma BalancedCharge(d: Digests, stored: Stored, attached: Option<Receipt>, job: string, global: int)
    requires Recorded(d, stored, attached, job, global)
    requires !Unproven(d, stored, attached.value, global)
    ensures var node := attached.value.node;
            forall s :: At(Written(d, stored, attached.value, global).counts, s) ==
              if Accepted(d, stored, attached.value, global)
                  then At(stored.ledger.counts, s) + (if s == node then 1 else 0)
              else if s == node then global else 0
  {
  }

  lemma BalancedStep(d: Digests, job: string, s: Start, run: Run, n: nat)
    requires 0 < n <= |run| && Sound(s)
    ensures Follows(s.failures + n, EntryAt(d, job, s, run, n), CountsAt(d, job, s, run, n),
                    n == 1 || Balanced(d, job, s, run, n - 1), CountsAt(d, job, s, run, n - 1))
  {
    if Balanced(d, job, s, run, n) {
      if n > 1 && AcceptedAt(d, job, s, run, n) {
        TrustedMeansPreviousBalanced(d, job, s, run, n);
      }
      BalancedCharge(d, After(d, job, s, run, n - 1), run[n - 1], job, s.failures + n);
    }
  }

  lemma LogAt(d: Digests, job: string, s: Start, run: Run, n: nat, k: nat)
    requires k < n <= |run|
    ensures LogOf(d, job, s, run, n)[k] == EntryAt(d, job, s, run, k + 1)
    ensures CountsOf(d, job, s, run, n)[k] == CountsAt(d, job, s, run, k + 1)
  {
  }

  lemma FirstIsLinked(d: Digests, job: string, s: Start, run: Run, n: nat)
    requires 0 < n <= |run| && Sound(s)
    ensures Linked(BaseOf(s), LogOf(d, job, s, run, n), CountsOf(d, job, s, run, n), 0)
  {
    BalancedStep(d, job, s, run, 1);
    LogAt(d, job, s, run, n, 0);
    assert CountsAt(d, job, s, run, 0) == BaseOf(s).counts;
  }

  lemma LaterIsLinked(d: Digests, job: string, s: Start, run: Run, n: nat, k: nat)
    requires 0 < k < n <= |run| && Sound(s)
    ensures Linked(BaseOf(s), LogOf(d, job, s, run, n), CountsOf(d, job, s, run, n), k)
  {
    BalancedStep(d, job, s, run, k + 1);
    LogAt(d, job, s, run, n, k);
    LogAt(d, job, s, run, n, k - 1);
    LinkedFrom(BaseOf(s), LogOf(d, job, s, run, n), CountsOf(d, job, s, run, n), k,
               EntryAt(d, job, s, run, k + 1), CountsAt(d, job, s, run, k + 1),
               Balanced(d, job, s, run, k), CountsAt(d, job, s, run, k));
  }

  lemma LogsAreLinked(d: Digests, job: string, s: Start, run: Run, n: nat)
    returns (log: Log, counts: seq<map<string, int>>)
    requires n <= |run| && Sound(s)
    ensures log == LogOf(d, job, s, run, n) && counts == CountsOf(d, job, s, run, n)
    ensures |log| == |counts| == n && AllLinked(BaseOf(s), log, counts)
  {
    log, counts := LogOf(d, job, s, run, n), CountsOf(d, job, s, run, n);
    forall k | 0 <= k < n ensures Linked(BaseOf(s), log, counts, k) {
      if k == 0 { FirstIsLinked(d, job, s, run, n); } else { LaterIsLinked(d, job, s, run, n, k); }
    }
  }

  /** A series that goes back to the start goes back to a ledger that the first failure trusted. */
  lemma {:induction false} SeriesFromStart(d: Digests, job: string, s: Start, run: Run, n: nat, m: nat)
    requires 0 < m <= n <= |run| && ChainStart(LogOf(d, job, s, run, n), m) == 0
    ensures AcceptedAt(d, job, s, run, 1)
  {
    assert LogOf(d, job, s, run, n)[m - 1] == EntryAt(d, job, s, run, m);
    if m > 1 {
      SeriesFromStart(d, job, s, run, n, m - 1);
    }
  }

  lemma StagesOfCounts(d: Digests, job: string, s: Start, run: Run, n: nat)
    requires 1 < n <= |run| && Sound(s)
    requires LogOf(d, job, s, run, n)[n - 2].balanced && PositiveCounts(CountsAt(d, job, s, run, n - 1))
    requires ChainStart(LogOf(d, job, s, run, n), n - 1) == 0 ==> PositiveCounts(BaseOf(s).counts)
    ensures CountsAt(d, job, s, run, n - 1).Keys == StagesOf(BaseOf(s), LogOf(d, job, s, run, n), n - 1)
  {
    var log, counts := LogsAreLinked(d, job, s, run, n);
    LogAt(d, job, s, run, n, n - 2);
    var last := CountsAt(d, job, s, run, n - 1);
    assert counts[n - 2] == last;
    CountedStages(BaseOf(s), log, counts, n - 1, last);
  }

  lemma TrustedCounts(d: Digests, job: string, s: Start, run: Run, n: nat)
    requires 0 < n <= |run| && AcceptedAt(d, job, s, run, n)
    ensures After(d, job, s, run, n - 1).Stored?
    ensures CountsAt(d, job, s, run, n - 1) == After(d, job, s, run, n - 1).ledger.counts
    ensures PositiveCounts(CountsAt(d, job, s, run, n - 1))
  {
    AcceptedFacts(d, After(d, job, s, run, n - 1), run[n - 1].value, s.failures + n);
  }

  /** The stages a trusted ledger counts are those that failed in the series. */
  lemma LedgerStages(d: Digests, job: string, s: Start, run: Run, n: nat)
    requires 0 < n <= |run| && Sound(s) && AcceptedAt(d, job, s, run, n)
    ensures CountsAt(d, job, s, run, n - 1).Keys == StagesOf(BaseOf(s), LogOf(d, job, s, run, n), n - 1)
  {
    TrustedCounts(d, job, s, run, n);
    if n > 1 {
      TrustedMeansPreviousBalanced(d, job, s, run, n);
      LogAt(d, job, s, run, n, n - 2);
      if ChainStart(LogOf(d, job, s, run, n), n - 1) == 0 {
        SeriesFromStart(d, job, s, run, n, n - 1);
        TrustedCounts(d, job, s, run, 1);
      }
      StagesOfCounts(d, job, s, run, n);
    }
  }

  // ----- the ledger follows the reference

  /** A failure trusts the ledger exactly when it continues the failure before, or the start. */
  lemma TrustedIffContinues(d: Digests, job: string, s: Start, run: Run, n: nat)
    requires WellFormed(d) && 0 < n <= |run| && Sound(s)
    ensures AcceptedAt(d, job, s, run, n) <==> Continues(d, s, run, LogOf(d, job, s, run, n - 1), n)
  {
    if n > 1 {
      TrustedIffSameScope(d, job, s, run, n);
      ContinuesIffSameScope(d, job, s, run, n);
    }
  }

  lemma ContinuesIffSameScope(d: Digests, job: string, s: Start, run: Run, n: nat)
    requires 1 < n <= |run|
    ensures Continues(d, s, run, LogOf(d, job, s, run, n - 1), n) <==>
            && Balanced(d, job, s, run, n - 1)
            && run[n - 1].Some? && run[n - 1].value.scope == run[n - 2].value.scope
  {
    LogAt(d, job, s, run, n - 1, n - 2);
  }

  lemma TrustedIffSameScope(d: Digests, job: string, s: Start, run: Run, n: nat)
    requires WellFormed(d) && 1 < n <= |run| && Sound(s)
    ensures AcceptedAt(d, job, s, run, n) <==>
            && Balanced(d, job, s, run, n - 1)
            && run[n - 1].Some? && run[n - 1].value.scope == run[n - 2].value.scope
  {
    if AcceptedAt(d, job, s, run, n) {
      TrustedMeansPreviousBalanced(d, job, s, run, n);
    }
    if Balanced(d, job, s, run, n - 1) && run[n - 1].Some? && run[n - 1].value.scope == run[n - 2].value.scope {
      SameScopeIsTrusted(d, job, s, run, n - 1);
    }
  }

  lemma SameScopeIsTrusted(d: Digests, job: string, s: Start, run: Run, m: nat)
    requires WellFormed(d) && 0 < m < |run| && Balanced(d, job, s, run, m)
    requires run[m].Some? && run[m].value.scope == run[m - 1].value.scope
    ensures Accepted(d, After(d, job, s, run, m), run[m].value, s.failures + m + 1)
  {
    RecordedLedger(d, job, s, run, m);
    BalancedIsTrusted(d, After(d, job, s, run, m - 1), run[m - 1], job, s.failures + m,
                      After(d, job, s, run, m), run[m].value, s.failures + m + 1);
  }

  lemma ProvenIffAdvanced(d: Digests, job: string, s: Start, run: Run, n: nat)
    requires 0 < n <= |run| && Sound(s) && AcceptedAt(d, job, s, run, n)
    ensures Proven(d, After(d, job, s, run, n - 1).ledger.last, run[n - 1].value) <==> AdvancedAt(d, s, run, n)
  {
    if n > 1 {
      TrustedMeansPreviousBalanced(d, job, s, run, n);
      ProvenMeansProgressed(d, run[n - 2].value, run[n - 1].value);
    }
  }

  /** A trusting failure stays in balance exactly when its stage is known or its progress is proven. */
  lemma TrustingBalance(d: Digests, job: string, s: Start, run: Run, n: nat)
    requires 0 < n <= |run| && Sound(s) && AcceptedAt(d, job, s, run, n)
    ensures Balanced(d, job, s, run, n) <==>
            && Usable(d, run[n - 1], job)
            && var counts, node := After(d, job, s, run, n - 1).ledger.counts, run[n - 1].value.node;
            (node in counts || (|counts.Keys| < MAX_NODES && AdvancedAt(d, s, run, n)))
  {
    ProvenIffAdvanced(d, job, s, run, n);
    var counts := After(d, job, s, run, n - 1).ledger.counts;
    assert |counts| == |counts.Keys|;
  }

  lemma UntrustingBalance(d: Digests, job: string, s: Start, run: Run, n: nat)
    requires 0 < n <= |run| && !AcceptedAt(d, job, s, run, n)
    ensures Balanced(d, job, s, run, n) <==> Usable(d, run[n - 1], job)
  {
  }

  /** The reference asks about the stages of a log without the last verdict; that verdict does not matter. */
  lemma SeriesBeforeVerdict(d: Digests, job: string, s: Start, run: Run, log: Log, n: nat)
    requires 0 < n <= |run| && Sound(s) && AcceptedAt(d, job, s, run, n)
    requires log == LogOf(d, job, s, run, n - 1) + [Entry(StageAt(run, n), true, false)]
    ensures StagesOf(BaseOf(s), log, n - 1) == CountsAt(d, job, s, run, n - 1).Keys
    ensures FailedBefore(BaseOf(s), log, n) <==> run[n - 1].value.node in CountsAt(d, job, s, run, n - 1)
  {
    LedgerStages(d, job, s, run, n);
    StagesBefore(d, job, s, run, log, n);
  }

  lemma StagesBefore(d: Digests, job: string, s: Start, run: Run, log: Log, n: nat)
    requires 0 < n <= |run| && LogOf(d, job, s, run, n - 1) <= log
    ensures StagesOf(BaseOf(s), log, n - 1) == StagesOf(BaseOf(s), LogOf(d, job, s, run, n), n - 1)
  {
    LogGrows(d, job, s, run, n);
    StagesPrefix(BaseOf(s), LogOf(d, job, s, run, n - 1), log, n - 1);
    StagesPrefix(BaseOf(s), LogOf(d, job, s, run, n - 1), LogOf(d, job, s, run, n), n - 1);
  }

  lemma BalancedIffContinuable(d: Digests, job: string, s: Start, run: Run, log: Log, n: nat)
    requires 0 < n <= |run| && Sound(s)
    requires log == LogOf(d, job, s, run, n - 1) + [Entry(StageAt(run, n), AcceptedAt(d, job, s, run, n), false)]
    ensures Balanced(d, job, s, run, n) <==> Continuable(d, job, s, run, log, n)
  {
    if AcceptedAt(d, job, s, run, n) {
      TrustingBalance(d, job, s, run, n);
      TrustedCounts(d, job, s, run, n);
      SeriesBeforeVerdict(d, job, s, run, log, n);
    } else {
      UntrustingBalance(d, job, s, run, n);
    }
  }

  lemma LogGrows(d: Digests, job: string, s: Start, run: Run, n: nat)
    requires 0 < n <= |run|
    ensures LogOf(d, job, s, run, n) == LogOf(d, job, s, run, n - 1) + [EntryAt(d, job, s, run, n)]
  {
  }

  /** The ledger follows the reference through every run from every start. */
  lemma {:induction false} LedgerFollowsReference(d: Digests, job: string, s: Start, run: Run, n: nat)
    requires WellFormed(d) && n <= |run| && Sound(s)
    ensures LogOf(d, job, s, run, n) == Reference(d, job, s, run, n)
  {
    if n > 0 {
      LedgerFollowsReference(d, job, s, run, n - 1);
      var before := LogOf(d, job, s, run, n - 1);
      TrustedIffContinues(d, job, s, run, n);
      BalancedIffContinuable(d, job, s, run, before + [Entry(StageAt(run, n), AcceptedAt(d, job, s, run, n), false)],
          n);
      LogGrows(d, job, s, run, n);
    }
  }

  /** Every stage count a job ever backs off by is the reference count of its run: the ledger refines the history. */
  lemma CountIsReference(d: Digests, job: string, s: Start, run: Run, n: nat)
    requires WellFormed(d) && 0 < n <= |run| && Sound(s)
    ensures var log := Reference(d, job, s, run, n);
            && (log[n - 1].balanced ==> log[n - 1].stage.Some?)
            && CountAt(d, job, s, run, n) == ReferenceCount(BaseOf(s), log, n)
  {
    LedgerFollowsReference(d, job, s, run, n);
    LogAt(d, job, s, run, n, n - 1);
    CountFromCounts(d, job, s, run, n);
    if Balanced(d, job, s, run, n) {
      BalancedHistory(d, job, s, run, n);
    }
  }

  lemma CountFromCounts(d: Digests, job: string, s: Start, run: Run, n: nat)
    requires 0 < n <= |run|
    ensures Balanced(d, job, s, run, n) ==> run[n - 1].Some?
    ensures CountAt(d, job, s, run, n) ==
            if Balanced(d, job, s, run, n) then At(CountsAt(d, job, s, run, n), run[n - 1].value.node)
                else s.failures + n
  {
  }

  lemma BalancedHistory(d: Digests, job: string, s: Start, run: Run, n: nat)
    requires 0 < n <= |run| && Sound(s) && LogOf(d, job, s, run, n)[n - 1].balanced && run[n - 1].Some?
    ensures var node := run[n - 1].value.node;
            At(CountsAt(d, job, s, run, n), node) == HistoryCount(BaseOf(s), LogOf(d, job, s, run, n), n, node)
  {
    var log, counts := LogsAreLinked(d, job, s, run, n);
    LogAt(d, job, s, run, n, n - 1);
    CountsAreHistory(BaseOf(s), log, counts, n, run[n - 1].value.node);
  }

  // ----- no reset without proof

  /**
   A reduced count comes from a ledger that the failure before wrote for the same input, or
   that the job started with.
   */
  lemma ReducedMeansTrusted(d: Digests, job: string, s: Start, run: Run, n: nat)
    requires 0 < n <= |run| && Sound(s) && CountAt(d, job, s, run, n) < s.failures + n
    ensures AcceptedAt(d, job, s, run, n) && Balanced(d, job, s, run, n) && Usable(d, run[n - 1], job)
    ensures n > 1 ==> Usable(d, run[n - 2], job) && run[n - 1].value.scope == run[n - 2].value.scope
  {
    BelowGlobalIff(d, After(d, job, s, run, n - 1), run[n - 1], job, s.failures + n);
    if n > 1 {
      TrustedMeansPreviousBalanced(d, job, s, run, n);
    }
  }

  lemma KnownIffFailedBefore(d: Digests, job: string, s: Start, run: Run, n: nat)
    requires WellFormed(d) && 0 < n <= |run| && Sound(s)
    requires AcceptedAt(d, job, s, run, n)
    ensures FailedBefore(BaseOf(s), Reference(d, job, s, run, n), n) <==>
            run[n - 1].value.node in CountsAt(d, job, s, run, n - 1)
  {
    LedgerFollowsReference(d, job, s, run, n);
    FailedBeforeInLog(d, job, s, run, n);
  }

  lemma FailedBeforeInLog(d: Digests, job: string, s: Start, run: Run, n: nat)
    requires 0 < n <= |run| && Sound(s) && AcceptedAt(d, job, s, run, n)
    ensures FailedBefore(BaseOf(s), LogOf(d, job, s, run, n), n) <==>
            run[n - 1].value.node in CountsAt(d, job, s, run, n - 1)
  {
    LedgerStages(d, job, s, run, n);
    TrustedEntry(d, job, s, run, n);
  }

  lemma TrustedEntry(d: Digests, job: string, s: Start, run: Run, n: nat)
    requires 0 < n <= |run| && AcceptedAt(d, job, s, run, n)
    ensures LogOf(d, job, s, run, n)[n - 1].trusted
    ensures LogOf(d, job, s, run, n)[n - 1].stage == Some(run[n - 1].value.node)
  {
    LogAt(d, job, s, run, n, n - 1);
  }

  /** Of a stage that failed before in the series, the reduced count is its history. */
  lemma ReducedKnownStage(d: Digests, job: string, s: Start, run: Run, n: nat)
    requires WellFormed(d) && Sound(s)
    requires 0 < n <= |run| && CountAt(d, job, s, run, n) < s.failures + n
    requires FailedBefore(BaseOf(s), Reference(d, job, s, run, n), n)
    ensures run[n - 1].Some?
    ensures CountAt(d, job, s, run, n) ==
            HistoryCount(BaseOf(s), Reference(d, job, s, run, n), n, run[n - 1].value.node) > 1
  {
    ReducedMeansTrusted(d, job, s, run, n);
    CountIsReference(d, job, s, run, n);
    KnownIffFailedBefore(d, job, s, run, n);
    LedgerFollowsReference(d, job, s, run, n);
    assert LogOf(d, job, s, run, n)[n - 1] == EntryAt(d, job, s, run, n);
  }

  /** Of any other stage, it is 1, and the stage that failed last has progressed. */
  lemma ReducedNewStage(d: Digests, job: string, s: Start, run: Run, n: nat)
    requires WellFormed(d) && Sound(s)
    requires 0 < n <= |run| && CountAt(d, job, s, run, n) < s.failures + n
    requires !FailedBefore(BaseOf(s), Reference(d, job, s, run, n), n)
    ensures CountAt(d, job, s, run, n) == 1 && AdvancedAt(d, s, run, n)
  {
    ReducedMeansTrusted(d, job, s, run, n);
    KnownIffFailedBefore(d, job, s, run, n);
    ProvenIffAdvanced(d, job, s, run, n);
  }

  /**
   Backoff is never reduced without proof, from whatever start. A count below the number of
   failures means a usable receipt that continues either the failure before, on the same job
   and input, or the ledger the job started with; and either the stage has already failed in
   that series, or the stage that failed last has progressed: all its members completed under
   another checkpoint, at least one of them anew.
   */
  lemma NoUnprovenReset(d: Digests, job: string, s: Start, run: Run, n: nat)
    requires WellFormed(d) && Sound(s)
    requires 0 < n <= |run| && CountAt(d, job, s, run, n) < s.failures + n
    ensures Usable(d, run[n - 1], job)
    ensures if n == 1 then Accepted(d, s.stored, run[0].value, s.failures + 1)
            else Usable(d, run[n - 2], job) && run[n - 1].value.scope == run[n - 2].value.scope
    ensures var log, now := Reference(d, job, s, run, n), run[n - 1].value;
            if FailedBefore(BaseOf(s), log, n)
            then CountAt(d, job, s, run, n) == HistoryCount(BaseOf(s), log, n, now.node) > 1
            else && CountAt(d, job, s, run, n) == 1
                 && if n == 1 then AdvancedFrom(d, s.stored, now) else Progressed(run[n - 2].value, now)
  {
    ReducedMeansTrusted(d, job, s, run, n);
    if FailedBefore(BaseOf(s), Reference(d, job, s, run, n), n) {
      ReducedKnownStage(d, job, s, run, n);
    } else {
      ReducedNewStage(d, job, s, run, n);
    }
  }

  // ----- series

  /** While a series stays unbroken, each further failure of a stage backs off by a strictly larger count. */
  lemma StageCountsGrow(d: Digests, job: string, s: Start, run: Run, m: nat, n: nat)
    requires WellFormed(d) && Sound(s) && 0 < m < n <= |run|
    requires var log := Reference(d, job, s, run, n);
             && log[m - 1].balanced && log[n - 1].balanced
             && log[m - 1].stage == log[n - 1].stage
             && ChainStart(log, m) == ChainStart(log, n)
    ensures CountAt(d, job, s, run, m) < CountAt(d, job, s, run, n)
  {
    var log, short := Reference(d, job, s, run, n), Reference(d, job, s, run, m);
    CountIsReference(d, job, s, run, m);
    CountIsReference(d, job, s, run, n);
    ReferencePrefix(d, job, s, run, m, n);
    var stage := log[n - 1].stage.value;
    PrefixSuffices(BaseOf(s), short, log, m, stage);
    HistoryGrows(BaseOf(s), log, m, n, stage);
  }

  lemma {:induction false} ReferencePrefix(d: Digests, job: string, s: Start, run: Run, m: nat, n: nat)
    requires m <= n <= |run|
    ensures Reference(d, job, s, run, m) <= Reference(d, job, s, run, n)
  {
    if m < n {
      ReferencePrefix(d, job, s, run, m, n - 1);
    }
  }

  /** A balanced failure has a usable receipt, and one that is trusted continues its predecessor's series. */
  lemma ReferenceStep(d: Digests, job: string, s: Start, run: Run, n: nat) returns (before: Log, log: Log)
    requires 0 < n <= |run|
    ensures before == Reference(d, job, s, run, n - 1) && log == Reference(d, job, s, run, n)
    ensures |before| == n - 1 && |log| == n && before <= log
    ensures log[n - 1].balanced ==> Usable(d, run[n - 1], job)
    ensures log[n - 1].trusted ==>
              && run[n - 1].Some?
              && if n == 1 then s.stored.Stored? && s.stored.ledger.scope == run[0].value.scope
                 else before[n - 2].balanced && run[n - 2].Some? && run[n - 1].value.scope == run[n - 2].value.scope
  {
    before, log := Reference(d, job, s, run, n - 1), Reference(d, job, s, run, n);
  }

  type Check = Option<Receipt> -> bool

  function UsableFor(d: Digests, job: string): Check { (attached: Option<Receipt>) => Usable(d, attached, job) }

  /**
   A balanced failure has a usable receipt, and a trusted one has the scope of the failure,
   or the ledger, before it.
   */
  ghost predicate Chained(usable: Check, s: Start, run: Run, log: Log, k: nat)
    requires k < |log| <= |run|
  {
    && (log[k].balanced ==> run[k].Some? && usable(run[k]))
    && (log[k].trusted ==>
          && run[k].Some?
          && if k == 0 then s.stored.Stored? && s.stored.ledger.scope == run[0].value.scope
             else log[k - 1].balanced && run[k - 1].Some? && run[k].value.scope == run[k - 1].value.scope)
  }

  lemma {:induction false} ChainIsUnbroken(usable: Check, s: Start, run: Run, log: Log, n: nat, k: nat)
    requires 0 < n <= |log| <= |run| && log[n - 1].balanced
    requires forall i | 0 <= i < n :: Chained(usable, s, run, log, i)
    requires ChainStart(log, n) <= k <= n
    ensures run[n - 1].Some?
    ensures if k == 0 then s.stored.Stored? && s.stored.ledger.scope == run[n - 1].value.scope
            else run[k - 1].Some? && usable(run[k - 1]) && run[k - 1].value.scope == run[n - 1].value.scope
  {
    assert Chained(usable, s, run, log, n - 1);
    if k < n && n > 1 {
      ChainIsUnbroken(usable, s, run, log, n - 1, k);
    }
  }

  lemma ReferenceIsChained(d: Digests, job: string, s: Start, run: Run, n: nat, k: nat)
    requires k < n <= |run|
    ensures Chained(UsableFor(d, job), s, run, Reference(d, job, s, run, n), k)
  {
    var before, log := ReferenceStep(d, job, s, run, k + 1);
    ReferencePrefix(d, job, s, run, k + 1, n);
  }

  /** A series is made of consecutive usable receipts of one job and one input, that of the start's ledger included. */
  lemma SeriesIsUnbroken(d: Digests, job: string, s: Start, run: Run, n: nat, k: nat)
    requires 0 < n <= |run| && Reference(d, job, s, run, n)[n - 1].balanced
    requires ChainStart(Reference(d, job, s, run, n), n) <= k <= n
    ensures run[n - 1].Some?
    ensures if k == 0 then s.stored.Stored? && s.stored.ledger.scope == run[n - 1].value.scope
            else Usable(d, run[k - 1], job) && run[k - 1].value.scope == run[n - 1].value.scope
  {
    forall i | 0 <= i < n ensures Chained(UsableFor(d, job), s, run, Reference(d, job, s, run, n), i) {
      ReferenceIsChained(d, job, s, run, n, i);
    }
    ChainIsUnbroken(UsableFor(d, job), s, run, Reference(d, job, s, run, n), n, k);
  }
}

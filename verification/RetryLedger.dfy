/**
 The per-stage failure ledger behind a job's availability backoff
 (backend/analysis_retry_progress.py).

 A job counts its availability failures globally. Each failure may carry a receipt of the
 durable checkpoint it failed on; the ledger charges the failure to the receipt's stage,
 and a stage's own count, when it can be trusted, replaces the global one.
 */
module RetryLedger {
  import opened Wrappers
  import opened Names
  import opened StageIdentity
  import opened StageHistory

  const MAX_NODES := 128

  /** `_CommittedProgress`. */
  datatype Receipt = Receipt(thread: string, scope: string, node: string, checkpoint: string,
                             completed: seq<(string, string)>, members: seq<string>)

  /** The fields of `last` that a ledger may lack: absent, of another type, or present. */
  datatype TokenField = NoToken | NullToken | OtherToken | Token(text: string)
  datatype MembersField = NoMembers | OtherMembers | Members(names: seq<string>)
  datatype Last = Last(node: string, checkpoint: string, token: TokenField, members: MembersField)
  datatype Ledger = Ledger(version: int, scope: string, globalCount: int, counts: map<string, int>, last: Last)

  /** `Malformed` is any value that is missing or whose fields have the wrong JSON types. */
  datatype Stored = Malformed | Stored(ledger: Ledger)

  // ----- the sum of a dictionary's values

  ghost function SumOver(keys: set<string>, counts: map<string, int>): int
    requires keys <= counts.Keys
  {
    if keys == {} then 0 else
      var k :| k in keys;
      counts[k] + SumOver(keys - {k}, counts)
  }

  ghost function Total(counts: map<string, int>): int {
    SumOver(counts.Keys, counts)
  }

  lemma {:induction false} SumOverRemove(keys: set<string>, counts: map<string, int>, x: string)
    requires keys <= counts.Keys && x in keys
    ensures SumOver(keys, counts) == counts[x] + SumOver(keys - {x}, counts)
  {
    var k :| k in keys && SumOver(keys, counts) == counts[k] + SumOver(keys - {k}, counts);
    if k != x {
      SumOverRemove(keys - {k}, counts, x);
      SumOverRemove(keys - {x}, counts, k);
      assert keys - {k} - {x} == keys - {x} - {k};
    }
  }

  lemma {:induction false} SumOverAgree(keys: set<string>, a: map<string, int>, b: map<string, int>)
    requires keys <= a.Keys && keys <= b.Keys
    requires forall k | k in keys :: a[k] == b[k]
    ensures SumOver(keys, a) == SumOver(keys, b)
  {
    if keys != {} {
      var k :| k in keys;
      SumOverRemove(keys, a, k);
      SumOverRemove(keys, b, k);
      SumOverAgree(keys - {k}, a, b);
    }
  }

  lemma TotalAfterUpdate(counts: map<string, int>, key: string, value: int)
    ensures Total(counts[key := value]) == Total(counts) - At(counts, key) + value
  {
    var after := counts[key := value];
    SumOverRemove(after.Keys, after, key);
    SumOverAgree(after.Keys - {key}, counts, after);
    if key in counts {
      SumOverRemove(counts.Keys, counts, key);
      assert after.Keys - {key} == counts.Keys - {key};
    } else {
      assert after.Keys - {key} == counts.Keys;
    }
  }

  lemma {:induction false} SumOverPositive(keys: set<string>, counts: map<string, int>)
    requires keys <= counts.Keys
    requires forall k | k in keys :: 0 < counts[k]
    ensures |keys| <= SumOver(keys, counts)
  {
    if keys != {} {
      var k :| k in keys;
      SumOverRemove(keys, counts, k);
      SumOverPositive(keys - {k}, counts);
    }
  }

  /** An entry falls short of the total exactly when it is not the only one. */
  lemma EntryAgainstTotal(counts: map<string, int>, key: string)
    requires key in counts
    requires forall k | k in counts :: 0 < counts[k]
    ensures counts[key] <= Total(counts)
    ensures counts[key] < Total(counts) <==> |counts| > 1
  {
    SumOverRemove(counts.Keys, counts, key);
    SumOverPositive(counts.Keys - {key}, counts);
    if counts.Keys - {key} == {} {
      assert counts.Keys == {key};
    }
    assert |counts| == |counts.Keys|;
  }

  // ----- acceptance

  predicate ValidReceipt(d: Digests, r: Receipt) {
    && 0 < |r.thread| <= 512
    && IsHex(r.scope, 64)
    && IsNode(r.node)
    && 0 < |r.checkpoint| <= 128
    && |r.completed| <= MAX_NODES
    && ValidMembers(d, r.node, r.members)
    && (forall item | item in r.completed :: IsNode(item.0) && IsHex(item.1, 64))
    && (forall i, j | 0 <= i < j < |r.completed| :: r.completed[i].0 != r.completed[j].0)
  }

  /** The receipt under which a failure of this job can be charged to a stage. */
  predicate Usable(d: Digests, attached: Option<Receipt>, job: string) {
    attached.Some? && ValidReceipt(d, attached.value) && BeforeColon(attached.value.thread) == job
  }

  /** A receipt can be charged to a stage of the job exactly if it is well formed and its thread is the job's. */
  lemma UsableIff(d: Digests, attached: Option<Receipt>, job: string)
    ensures Usable(d, attached, job) <==>
            && attached.Some?
            && var r := attached.value;
            && 1 <= |r.thread| <= 512 && ':' !in job && (r.thread == job || job + ":" <= r.thread)
            && 1 <= |r.checkpoint| <= 128 && IsHex(r.scope, 64)
            && IsNode(r.node) && ValidMembers(d, r.node, r.members)
            && |r.completed| <= 128
            && (forall i | 0 <= i < |r.completed| :: IsNode(r.completed[i].0) && IsHex(r.completed[i].1, 64))
            && (forall i, j | 0 <= i < |r.completed| && 0 <= j < |r.completed| && i != j ::
                  r.completed[i].0 != r.completed[j].0)
  {
    if attached.Some? {
      JobOfThread(attached.value.thread, job);
    }
  }

  /**
   The durable checkpoint a failure is read back from: its identity, the keys of its channel
   values, and for each entry of `versions_seen` the hash of its versions, if it has any.
   `scope` is the hash of thread, input and prompt revision; `rootLoop` says that the saved
   configuration is the root thread's and that the graph loop wrote it.
   */
  datatype Saved = Saved(id: string, rootLoop: bool, hasInput: bool, scope: string,
                         channels: seq<string>, seen: seq<(string, Option<string>)>)

  /** Entries that are not node names are skipped; a node without versions voids the receipt. */
  function CompletedNodes(seen: seq<(string, Option<string>)>): Option<seq<(string, string)>> {
    if seen == [] then Some([])
    else
      var front := CompletedNodes(seen[..|seen| - 1]);
      var (name, token) := seen[|seen| - 1];
      if front.None? || !IsNode(name) then front
      else if token.None? then None
      else Some(front.value + [(name, token.value)])
  }

  /** `attach_committed_retry_progress`: the receipt a failed node's error carries, if any. */
  function Attach(d: Digests, availability: bool, thread: string, saved: Option<Saved>,
                  pending: seq<string>): Option<Receipt> {
    if !availability || saved.None? || !(0 < |thread| <= 512) || !saved.value.rootLoop then None
    else
      var members := PendingMembers(saved.value.channels, pending);
      var completed := CompletedNodes(saved.value.seen);
      if members.None? || !saved.value.hasInput || |saved.value.seen| > MAX_NODES || completed.None?
         || !(0 < |saved.value.id| <= 128)
      then None
      else Some(Receipt(thread, saved.value.scope, StageKey(d, members.value), saved.value.id, completed.value,
          members.value))
  }

  lemma {:induction false} CompletedNodesAreValid(seen: seq<(string, Option<string>)>)
    requires forall e | e in seen :: e.1.Some? ==> IsHex(e.1.value, 64)
    requires forall i, j | 0 <= i < j < |seen| :: seen[i].0 != seen[j].0
    requires CompletedNodes(seen).Some?
    ensures var c := CompletedNodes(seen).value;
            && |c| <= |seen|
            && (forall e | e in c :: IsNode(e.0) && IsHex(e.1, 64) && (e.0, Some(e.1)) in seen)
            && (forall e | e in seen && IsNode(e.0) :: e.1.Some? && (e.0, e.1.value) in c)
            && (forall i, j | 0 <= i < j < |c| :: c[i].0 != c[j].0)
  {
    if seen != [] {
      var front, last := seen[..|seen| - 1], seen[|seen| - 1];
      assert seen == front + [last];
      CompletedNodesAreValid(front);
      forall e | e in CompletedNodes(front).value ensures e.0 != last.0 {
        var k :| 0 <= k < |front| && front[k] == (e.0, Some(e.1));
        assert seen[k] == front[k];
      }
    }
  }

  /** The entries that are node names, and only they, must carry versions and are kept. */
  lemma {:induction false} CompletedNodesIff(seen: seq<(string, Option<string>)>)
    ensures CompletedNodes(seen).Some? <==> forall e | e in seen && IsNode(e.0) :: e.1.Some?
    ensures CompletedNodes(seen).Some? ==>
              forall name, token ::
                 (name, token) in CompletedNodes(seen).value <==> IsNode(name) && (name, Some(token)) in seen
  {
    if seen != [] {
      CompletedNodesIff(seen[..|seen| - 1]);
      assert seen == seen[..|seen| - 1] + [seen[|seen| - 1]];
    }
  }

  /**
   A receipt is attached exactly to an availability failure on a root checkpoint of the graph
   loop with an input, whose superstep is identified, whose nodes all carry versions, and
   whose identity, thread and number of entries are within bounds.
   */
  lemma AttachedIff(d: Digests, availability: bool, thread: string, saved: Option<Saved>, pending: seq<string>)
    ensures Attach(d, availability, thread, saved, pending).Some? <==>
            && availability && saved.Some? && 1 <= |thread| <= 512
            && var s := saved.value;
            && s.rootLoop && s.hasInput && 1 <= |s.id| <= 128
            && Identified(s.channels, pending)
            && |s.seen| <= 128 && forall e | e in s.seen && IsNode(e.0) :: e.1.Some?
  {
    if saved.Some? {
      PendingMembersExist(saved.value.channels, pending);
      CompletedNodesIff(saved.value.seen);
    }
  }

  /** And it says what the checkpoint says: its thread, input, identity, superstep and completed nodes. */
  lemma AttachedContent(d: Digests, availability: bool, thread: string, saved: Option<Saved>, pending: seq<string>)
    requires Attach(d, availability, thread, saved, pending).Some?
    ensures saved.Some?
    ensures var r, s := Attach(d, availability, thread, saved, pending).value, saved.value;
            && r.thread == thread && r.scope == s.scope && r.checkpoint == s.id
            && PendingMembers(s.channels, pending) == Some(r.members) && r.node == StageKey(d, r.members)
            && forall name, token :: (name, token) in r.completed <==> IsNode(name) && (name, Some(token)) in s.seen
  {
    CompletedNodesIff(saved.value.seen);
  }

  /** Every receipt that is attached is one the ledger accepts, charged to the stage that was pending. */
  lemma AttachedReceiptIsValid(d: Digests, availability: bool, thread: string, saved: Option<Saved>,
                               pending: seq<string>)
    requires WellFormed(d)
    requires saved.Some? ==>
               && IsHex(saved.value.scope, 64)
               && (forall e | e in saved.value.seen :: e.1.Some? ==> IsHex(e.1.value, 64))
               && (forall i, j | 0 <= i < j < |saved.value.seen| :: saved.value.seen[i].0 != saved.value.seen[j].0)
    requires Attach(d, availability, thread, saved, pending).Some?
    ensures var r := Attach(d, availability, thread, saved, pending).value;
            && ValidReceipt(d, r) && r.thread == thread
            && (forall n | n in pending :: n in r.members)
  {
    CompletedNodesAreValid(saved.value.seen);
    PendingMembersAreValid(d, saved.value.channels, pending);
    KeyIsNode(d, PendingMembers(saved.value.channels, pending).value);
  }

  lemma KeyIsNode(d: Digests, members: seq<string>)
    requires WellFormed(d) && members != [] && forall n | n in members :: IsNode(n)
    ensures IsNode(StageKey(d, members))
  {
    if |members| > 1 {
      KeyAliasExists(d, members);
    }
  }

  /** `dict(completed)` */
  function AsMap(pairs: seq<(string, string)>): map<string, string> {
    if pairs == [] then map[]
    else AsMap(pairs[..|pairs| - 1])[pairs[|pairs| - 1].0 := pairs[|pairs| - 1].1]
  }

  function LedgerMembers(d: Digests, last: Last): Option<seq<string>> {
    match last.members
    case Members(names) => if ValidMembers(d, last.node, names) then Some(names) else None
    case OtherMembers => None
    case NoMembers =>
      if !(PARALLEL <= last.node) && ValidMembers(d, last.node, [last.node]) then Some([last.node]) else None
  }

  /** Everything `_valid_ledger` asks except that the counts add up. */
  predicate WellShaped(d: Digests, stored: Stored, r: Receipt, global: int) {
    && stored.Stored?
    && var Ledger(version, scope, globalCount, counts, last) := stored.ledger;
    && version == 1 && scope == r.scope && globalCount == global - 1
    && 0 < |counts| <= MAX_NODES
    && (forall n | n in counts :: IsNode(n) && 0 < counts[n] <= global)
    && last.node in counts
    && LedgerMembers(d, last).Some?
    && 0 < |last.checkpoint| <= 128
    && (last.token.NullToken? || (last.token.Token? && IsHex(last.token.text, 64)))
  }

  ghost predicate Accepted(d: Digests, stored: Stored, r: Receipt, global: int) {
    WellShaped(d, stored, r, global) && Total(stored.ledger.counts) == global - 1
  }

  /** The members that a ledger's last stage names, or its own single node where it names none. */
  lemma LedgerMembersIff(d: Digests, last: Last, members: seq<string>)
    ensures LedgerMembers(d, last) == Some(members) <==>
            && ValidMembers(d, last.node, members)
            && (last.members == Members(members)
                || (last.members.NoMembers? && !("parallel_" <= last.node) && members == [last.node]))
  {
  }

  /**
   A ledger is trusted exactly if it is a version 1 ledger for the same input, of the failure
   just before, whose counts are positive, belong to node names and add up to the failures so
   far, and whose last stage is one of them, with its members, checkpoint and token.
   */
  lemma AcceptedIff(d: Digests, stored: Stored, r: Receipt, global: int)
    ensures Accepted(d, stored, r, global) <==>
            && stored.Stored?
            && var l := stored.ledger;
            && l.version == 1 && l.scope == r.scope && l.globalCount + 1 == global
            && 1 <= |l.counts.Keys| <= 128 && Total(l.counts) + 1 == global
            && (forall n | n in l.counts :: IsNode(n) && l.counts[n] >= 1)
            && l.last.node in l.counts && (exists members :: LedgerMembers(d, l.last) == Some(members))
            && 1 <= |l.last.checkpoint| <= 128
            && (l.last.token == NullToken || (l.last.token.Token? && IsHex(l.last.token.text, 64)))
  {
    if stored.Stored? {
      var l := stored.ledger;
      assert |l.counts| == |l.counts.Keys|;
      if LedgerMembers(d, l.last).Some? {
        assert LedgerMembers(d, l.last) == Some(LedgerMembers(d, l.last).value);
      }
      if forall n | n in l.counts :: l.counts[n] >= 1 {
        forall n | n in l.counts ensures l.counts[n] <= Total(l.counts) {
          EntryAgainstTotal(l.counts, n);
        }
      }
    }
  }

  /** The checkpoint moved and the last failing stage has a completion it did not have then. */
  predicate Proven(d: Digests, last: Last, r: Receipt)
    requires LedgerMembers(d, last).Some?
  {
    && r.checkpoint != last.checkpoint
    && var finished := CompletionToken(d, AsMap(r.completed), LedgerMembers(d, last).value);
    && finished.Some?
    && TokenText(finished) != last.token
  }

  function TokenText(token: Option<string>): TokenField {
    match token case None => NullToken case Some(text) => Token(text)
  }

  function LastOf(d: Digests, r: Receipt): Last {
    Last(r.node, r.checkpoint, TokenText(CompletionToken(d, AsMap(r.completed), r.members)), Members(r.members))
  }

  // ----- one failure

  datatype Charge = Charge(count: int, stored: Stored)

  /** The counts a new failure starts from. */
  ghost function Kept(d: Digests, stored: Stored, r: Receipt, global: int): map<string, int> {
    if Accepted(d, stored, r, global) then stored.ledger.counts else map[]
  }

  ghost function CountFor(d: Digests, stored: Stored, r: Receipt, global: int): int {
    if !Accepted(d, stored, r, global) then global
    else if r.node in stored.ledger.counts then stored.ledger.counts[r.node] + 1
    else if Proven(d, stored.ledger.last, r) then 1
    else global
  }

  /** A 129th stage is never recorded. */
  ghost predicate Recorded(d: Digests, stored: Stored, attached: Option<Receipt>, job: string, global: int) {
    && Usable(d, attached, job)
    && var counts := Kept(d, stored, attached.value, global);
    && (|counts| < MAX_NODES || attached.value.node in counts)
  }

  ghost function Written(d: Digests, stored: Stored, r: Receipt, global: int): Ledger {
    Ledger(1, r.scope, global,
           Kept(d, stored, r, global)[r.node := CountFor(d, stored, r, global)],
           LastOf(d, r))
  }

  ghost function ChargeFailure(d: Digests, stored: Stored, attached: Option<Receipt>, job: string,
                               global: int): Charge {
    if !Recorded(d, stored, attached, job, global) then Charge(global, stored)
    else Charge(CountFor(d, stored, attached.value, global), Stored(Written(d, stored, attached.value, global)))
  }

  /** The job metadata field the failures of a job update in place. */
  class ProgressMeta {
    var progress: Stored

    constructor (initial: Stored)
      ensures progress == initial
    {
      progress := initial;
    }

    method SumCounts(counts: map<string, int>) returns (sum: int)
      ensures sum == Total(counts)
    {
      sum := 0;
      var todo := counts.Keys;
      while todo != {}
        invariant todo <= counts.Keys
        invariant sum + SumOver(todo, counts) == Total(counts)
        decreases todo
      {
        var k :| k in todo;
        SumOverRemove(todo, counts, k);
        sum := sum + counts[k];
        todo := todo - {k};
      }
    }

    method ValidLedger(d: Digests, r: Receipt, global: int) returns (valid: bool)
      ensures valid == Accepted(d, progress, r, global)
    {
      if !WellShaped(d, progress, r, global) {
        return false;
      }
      var sum := SumCounts(progress.ledger.counts);
      return sum == global - 1;
    }

    method AvailabilityStageCount(d: Digests, attached: Option<Receipt>, job: string, global: int) returns (count: int)
      modifies this`progress
      ensures Charge(count, progress) == ChargeFailure(d, old(progress), attached, job, global)
    {
      if !Usable(d, attached, job) {
        return global;
      }
      var r := attached.value;
      var completed := AsMap(r.completed);
      var valid := ValidLedger(d, r, global);
      var counts := if valid then progress.ledger.counts else map[];
      count := global;
      if valid {
        var last := progress.ledger.last;
        if r.node in counts {
          count := counts[r.node] + 1;
        } else if r.checkpoint != last.checkpoint {
          var finished := CompletionToken(d, completed, LedgerMembers(d, last).value);
          if finished.Some? && TokenText(finished) != last.token {
            count := 1;
          }
        }
      }
      if |counts| >= MAX_NODES && r.node !in counts {
        return global;
      }
      counts := counts[r.node := count];
      progress := Stored(Ledger(1, r.scope, global, counts,
                                Last(r.node, r.checkpoint, TokenText(CompletionToken(d, completed, r.members)),
                                    Members(r.members))));
    }
  }

  // ----- what one failure guarantees

  /** A failure of a stage the accepted ledger does not know, without proof of progress. */
  ghost predicate Unproven(d: Digests, stored: Stored, r: Receipt, global: int) {
    && Accepted(d, stored, r, global)
    && r.node !in stored.ledger.counts
    && !Proven(d, stored.ledger.last, r)
  }

  /** Every recorded failure is charged exactly once, except that an unproven new stage is charged twice over. */
  lemma Conservation(d: Digests, stored: Stored, r: Receipt, global: int)
    requires global >= 1
    ensures Total(Written(d, stored, r, global).counts) ==
            if Unproven(d, stored, r, global) then 2 * global - 1 else global
  {
    var kept := Kept(d, stored, r, global);
    TotalAfterUpdate(kept, r.node, CountFor(d, stored, r, global));
  }

  lemma CountInRange(d: Digests, stored: Stored, attached: Option<Receipt>, job: string, global: int)
    requires global >= 1
    ensures 1 <= ChargeFailure(d, stored, attached, job, global).count <= global
  {
    if Recorded(d, stored, attached, job, global) && Accepted(d, stored, attached.value, global) {
      var counts, node := stored.ledger.counts, attached.value.node;
      if node in counts {
        EntryAgainstTotal(counts, node);
      }
    }
  }

  /**
   Backoff falls below the global count exactly when the ledger is trusted and either this
   stage shares it with another one, or progress past the last failing stage is proven.
   */
  lemma BelowGlobalIff(d: Digests, stored: Stored, attached: Option<Receipt>, job: string, global: int)
    requires global >= 1
    ensures ChargeFailure(d, stored, attached, job, global).count < global <==>
            && Usable(d, attached, job)
            && Accepted(d, stored, attached.value, global)
            && var counts := stored.ledger.counts;
            if attached.value.node in counts then |counts| > 1
            else |counts| < MAX_NODES && Proven(d, stored.ledger.last, attached.value)
  {
    if Usable(d, attached, job) && Accepted(d, stored, attached.value, global) {
      var counts, node := stored.ledger.counts, attached.value.node;
      if node in counts {
        EntryAgainstTotal(counts, node);
      } else {
        SumOverPositive(counts.Keys, counts);
        assert |counts| == |counts.Keys|;
      }
    }
  }

  /**
   A recorded ledger is trusted by the next failure of the same scope exactly when it was
   not written for an unproven new stage: that one is refused, whatever comes next.
   */
  lemma AcceptedNextIff(d: Digests, stored: Stored, attached: Option<Receipt>, job: string, global: int, next: Receipt)
    requires WellFormed(d) && global >= 1
    requires Recorded(d, stored, attached, job, global)
    ensures var after := ChargeFailure(d, stored, attached, job, global).stored;
            Accepted(d, after, next, global + 1) <==>
            next.scope == attached.value.scope && !Unproven(d, stored, attached.value, global)
  {
    var r := attached.value;
    Conservation(d, stored, r, global);
    if next.scope == r.scope {
      WrittenIsWellShaped(d, stored, attached, job, global, next);
    }
    if Unproven(d, stored, r, global) {
      UnprovenIsRefused(d, stored, r, global, next);
    }
  }

  /** The counts of an unproven new stage add up to nearly twice the failures: no later failure trusts them. */
  lemma UnprovenIsRefused(d: Digests, stored: Stored, r: Receipt, global: int, next: Receipt)
    requires Unproven(d, stored, r, global)
    ensures !Accepted(d, Stored(Written(d, stored, r, global)), next, global + 1)
  {
    SumOverPositive(stored.ledger.counts.Keys, stored.ledger.counts);
    assert |stored.ledger.counts| == |stored.ledger.counts.Keys|;
    Conservation(d, stored, r, global);
  }

  lemma TrustedWasBalanced(d: Digests, stored: Stored, r: Receipt, global: int, written: Stored, next: Receipt,
                           nextGlobal: int)
    requires written == Stored(Written(d, stored, r, global)) && nextGlobal == global + 1
    requires Accepted(d, written, next, nextGlobal)
    ensures !Unproven(d, stored, r, global)
  {
    if Unproven(d, stored, r, global) {
      UnprovenIsRefused(d, stored, r, global, next);
    }
  }

  lemma BalancedIsTrusted(d: Digests, stored: Stored, attached: Option<Receipt>, job: string, global: int,
                          after: Stored, next: Receipt, nextGlobal: int)
    requires WellFormed(d) && global >= 1 && nextGlobal == global + 1
    requires Recorded(d, stored, attached, job, global) && !Unproven(d, stored, attached.value, global)
    requires after == Stored(Written(d, stored, attached.value, global)) && next.scope == attached.value.scope
    ensures Accepted(d, after, next, nextGlobal)
  {
    AcceptedNextIff(d, stored, attached, job, global, next);
  }

  lemma WrittenIsWellShaped(d: Digests, stored: Stored, attached: Option<Receipt>, job: string, global: int,
                            next: Receipt)
    requires WellFormed(d) && global >= 1
    requires Recorded(d, stored, attached, job, global)
    requires next.scope == attached.value.scope
    ensures WellShaped(d, Stored(Written(d, stored, attached.value, global)), next, global + 1)
  {
    var r := attached.value;
    var kept, after := Kept(d, stored, r, global), Written(d, stored, r, global);
    CountInRange(d, stored, attached, job, global);
    TokenIsHex(d, r);
    KeptFits(kept, r.node, CountFor(d, stored, r, global));
    forall n | n in after.counts ensures IsNode(n) && 0 < after.counts[n] <= global + 1 {
      if n != r.node {
        assert n in kept;
      }
    }
    assert LedgerMembers(d, after.last) == Some(r.members);
  }

  lemma KeptFits(kept: map<string, int>, node: string, count: int)
    requires |kept| <= MAX_NODES && (|kept| < MAX_NODES || node in kept)
    ensures 0 < |kept[node := count]| <= MAX_NODES
  {
    var after := kept[node := count];
    assert after.Keys == kept.Keys + {node};
    assert |after| == |after.Keys| && |kept| == |kept.Keys|;
    if node in kept {
      assert kept.Keys + {node} == kept.Keys;
    }
    assert node in after.Keys;
  }

  /** Later pairs replace earlier ones. */
  lemma {:induction false} AsMapReads(pairs: seq<(string, string)>, name: string)
    ensures name in AsMap(pairs) <==> exists i :: 0 <= i < |pairs| && pairs[i].0 == name
    ensures forall i | 0 <= i < |pairs| && pairs[i].0 == name && (forall j | i < j < |pairs| :: pairs[j].0 != name) ::
              name in AsMap(pairs) && AsMap(pairs)[name] == pairs[i].1
  {
    if pairs != [] {
      var front := pairs[..|pairs| - 1];
      AsMapReads(front, name);
      if name in AsMap(front) {
        var i :| 0 <= i < |front| && front[i].0 == name;
        assert pairs[i].0 == name;
      }
    }
  }

  lemma {:induction false} AsMapFrom(pairs: seq<(string, string)>)
    ensures forall k :: k in AsMap(pairs) ==> (k, AsMap(pairs)[k]) in pairs
  {
    if pairs != [] {
      var front := pairs[..|pairs| - 1];
      AsMapFrom(front);
      assert pairs == front + [pairs[|pairs| - 1]];
    }
  }

  lemma TokenIsHex(d: Digests, r: Receipt)
    requires WellFormed(d) && ValidReceipt(d, r)
    ensures var token := CompletionToken(d, AsMap(r.completed), r.members);
            token.Some? ==> IsHex(token.value, 64)
  {
    AsMapFrom(r.completed);
    var completed := AsMap(r.completed);
    var token := CompletionToken(d, completed, r.members);
    if token.Some? && |r.members| == 1 {
      assert (r.members[0], completed[r.members[0]]) in r.completed;
    }
  }

  /**
   Proof of progress in terms of the two receipts: the checkpoint moved, every member of
   the earlier failing stage has now completed, and some member's completion is new.
   */
  ghost predicate Progressed(before: Receipt, after: Receipt) {
    var was, now := AsMap(before.completed), AsMap(after.completed);
    && after.checkpoint != before.checkpoint
    && (forall n | n in before.members :: n in now)
    && exists n | n in before.members :: n !in was || was[n] != now[n]
  }

  /** The new completions of the earlier stage happen to have the digest of the old ones. */
  ghost predicate ProgressCollides(d: Digests, before: Receipt, after: Receipt) {
    TokensCollide(d, AsMap(before.completed), AsMap(after.completed), before.members)
  }

  /** Proof always means progress; only a collision can hide progress, and it never feigns any. */
  lemma ProvenMeansProgressed(d: Digests, before: Receipt, after: Receipt)
    requires ValidReceipt(d, before)
    ensures LedgerMembers(d, LastOf(d, before)) == Some(before.members)
    ensures Proven(d, LastOf(d, before), after) <==> Progressed(before, after) && !ProgressCollides(d, before, after)
  {
    TokenMeaning(d, AsMap(before.completed), AsMap(after.completed), before.members);
  }
}

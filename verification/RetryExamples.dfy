/**
 Runs that reach the exceptional branches of the ledger, with digests of the right shape and
 receipts attached to durable checkpoints. They also show that the hypotheses of the theorems
 about runs can be met.
 */
module RetryExamples {
  import opened Wrappers
  import opened Names
  import opened StageIdentity
  import opened RetryLedger
  import opened RetryHistory

  const JOB := "job"

  function Hex(c: char): string { seq(64, _ => c) }

  function ExampleDigests(): Digests {
    Digests((_: seq<string>) => seq(32, _ => 'a'),
            (pairs: seq<(string, string)>) => if pairs != [] && pairs[0].1 == Hex('b') then Hex('b') else Hex('a'))
  }

  lemma DigestsAreWellFormed()
    ensures WellFormed(ExampleDigests())
  {
    var d := ExampleDigests();
    forall members ensures IsHex(d.stage(members), 32) {
      assert d.stage(members) == seq(32, _ => 'a');
    }
    forall pairs ensures IsHex(d.completion(pairs), 64) {
      assert d.completion(pairs) == Hex('a') || d.completion(pairs) == Hex('b');
    }
  }

  function On(node: string, checkpoint: string, completed: seq<(string, string)>, members: seq<string>): Receipt {
    Receipt(JOB, Hex('a'), node, checkpoint, completed, members)
  }

  lemma SingleIsUsable(node: string, checkpoint: string, completed: seq<(string, string)>)
    requires IsNode(node) && 0 < |checkpoint| <= 128 && |completed| <= MAX_NODES
    requires forall item | item in completed :: IsNode(item.0) && IsHex(item.1, 64)
    requires forall i, j | 0 <= i < j < |completed| :: completed[i].0 != completed[j].0
    ensures Usable(ExampleDigests(), Some(On(node, checkpoint, completed, [node])), JOB)
  {
    SortedSetFixpoint([node]);
    assert BeforeColon(JOB) == JOB;
  }

  /** A fresh job's first usable failure is recorded under its stage, and the next of the same scope trusts that. */
  lemma FirstFailure(d: Digests, first: Receipt, next: Receipt)
    requires WellFormed(d) && Usable(d, Some(first), JOB) && next.scope == first.scope
    ensures var stored := ChargeFailure(d, Malformed, Some(first), JOB, 1).stored;
            stored.Stored? && stored.ledger.counts == map[first.node := 1]
            && stored.ledger.last == LastOf(d, first) && Accepted(d, stored, next, 2)
  {
    AcceptedNextIff(d, Malformed, Some(first), JOB, 1, next);
  }

  lemma SecondFailure(d: Digests, first: Receipt, second: Receipt)
    requires WellFormed(d) && Usable(d, Some(first), JOB) && Usable(d, Some(second), JOB)
    requires second.scope == first.scope && second.node != first.node
    ensures var run := [Some(first), Some(second)];
            var proven := Progressed(first, second) && !ProgressCollides(d, first, second);
            && CountAt(d, JOB, FRESH, run, 2) == (if proven then 1 else 2)
            && After(d, JOB, FRESH, run, 2).Stored?
            && Total(After(d, JOB, FRESH, run, 2).ledger.counts) == (if proven then 2 else 3)
  {
    var run := [Some(first), Some(second)];
    var stored := ChargeFailure(d, Malformed, Some(first), JOB, 1).stored;
    FirstFailure(d, first, second);
    assert After(d, JOB, FRESH, run, 0) == Malformed;
    assert After(d, JOB, FRESH, run, 1) == stored;
    ProvenMeansProgressed(d, first, second);
    Conservation(d, stored, second, 2);
    assert |map[first.node := 1]| == 1;
  }

  // ----- two stages on one checkpoint

  /** A checkpoint of a graph without root branches. */
  function Plain(id: string, seen: seq<(string, Option<string>)>): Saved {
    Saved(id, true, true, Hex('a'), [], seen)
  }

  function OneCheckpoint(): Run {
    [Some(On("A", "1", [], ["A"])), Some(On("B", "1", [], ["B"]))]
  }

  lemma PlainReceipt(node: string, id: string, seen: seq<(string, Option<string>)>)
    requires IsNode(node) && 0 < |id| <= 128 && |seen| <= MAX_NODES && CompletedNodes(seen).Some?
    ensures Attach(ExampleDigests(), true, JOB, Some(Plain(id, seen)), [node]) ==
            Some(On(node, id, CompletedNodes(seen).value, [node]))
  {
    assert SortedSet(BranchNames([])) == [];
  }

  /** Its receipts are read back from one checkpoint. */
  lemma OneCheckpointIsAttached()
    ensures OneCheckpoint() == [Attach(ExampleDigests(), true, JOB, Some(Plain("1", [])), ["A"]),
                                Attach(ExampleDigests(), true, JOB, Some(Plain("1", [])), ["B"])]
  {
    PlainReceipt("A", "1", []);
    PlainReceipt("B", "1", []);
  }

  /** Two stages failing on one checkpoint: two failures, but counts that add up to three. */
  lemma UnprovenStageDoubles()
    ensures WellFormed(ExampleDigests())
    ensures var run := OneCheckpoint();
            && After(ExampleDigests(), JOB, FRESH, run, 2).Stored?
            && Total(After(ExampleDigests(), JOB, FRESH, run, 2).ledger.counts) == 3
            && CountAt(ExampleDigests(), JOB, FRESH, run, 2) == 2
  {
    DigestsAreWellFormed();
    SingleIsUsable("A", "1", []);
    SingleIsUsable("B", "1", []);
    SecondFailure(ExampleDigests(), OneCheckpoint()[0].value, OneCheckpoint()[1].value);
  }

  // ----- one new completion of two

  function Before(): seq<(string, string)> { [("A", Hex('a')), ("B", Hex('a'))] }

  function Later(): seq<(string, string)> { [("A", Hex('b')), ("B", Hex('a'))] }

  function ParallelThenNext(): Run {
    [Some(On(StageKey(ExampleDigests(), ["A", "B"]), "1", Before(), ["A", "B"])), Some(On("C", "2", Later(), ["C"]))]
  }

  /** What the two completions look like in `versions_seen`. */
  function Seen(completed: seq<(string, string)>): seq<(string, Option<string>)> {
    seq(|completed|, i requires 0 <= i < |completed| => (completed[i].0, Some(completed[i].1)))
  }

  lemma {:induction false} SeenIsCompleted(completed: seq<(string, string)>)
    requires forall item | item in completed :: IsNode(item.0)
    ensures CompletedNodes(Seen(completed)) == Some(completed)
  {
    if completed != [] {
      var front := completed[..|completed| - 1];
      forall item | item in front ensures item in completed {}
      SeenIsCompleted(front);
      assert Seen(completed)[..|completed| - 1] == Seen(front);
      assert completed == front + [completed[|completed| - 1]];
    }
  }

  lemma TwoBranches()
    ensures SortedSet(BranchNames([BRANCH + "A", BRANCH + "B"])) == ["A", "B"]
  {
    var channels := [BRANCH + "A", BRANCH + "B"];
    assert channels[1..] == [BRANCH + "B"] && channels[1..][1..] == [];
    assert (BRANCH + "A")[|BRANCH|..] == "A" && (BRANCH + "B")[|BRANCH|..] == "B";
    assert BranchNames([BRANCH + "B"]) == ["B"];
    assert BranchNames(channels) == ["A", "B"];
    assert Below("A", "B");
    SortedSetFixpoint(["A", "B"]);
  }

  lemma BranchedReceipt()
    ensures Attach(ExampleDigests(), true, JOB,
                   Some(Saved("1", true, true, Hex('a'), [BRANCH + "A", BRANCH + "B"], Seen(Before()))), ["A", "B"]) ==
            ParallelThenNext()[0]
  {
    TwoBranches();
    SeenIsCompleted(Before());
    assert Distinct(["A", "B"]);
  }

  /** Its receipts are read back from a checkpoint with two root branches and a later plain one. */
  lemma ParallelThenNextIsAttached()
    ensures ParallelThenNext() ==
            [Attach(ExampleDigests(), true, JOB,
                    Some(Saved("1", true, true, Hex('a'), [BRANCH + "A", BRANCH + "B"], Seen(Before()))), ["A", "B"]),
             Attach(ExampleDigests(), true, JOB, Some(Plain("2", Seen(Later()))), ["C"])]
  {
    BranchedReceipt();
    SeenIsCompleted(Later());
    PlainReceipt("C", "2", Seen(Later()));
  }

  lemma ParallelIsStage()
    ensures var d, members := ExampleDigests(), ["A", "B"];
            IsNode(StageKey(d, members)) && ValidMembers(d, StageKey(d, members), members)
  {
    DigestsAreWellFormed();
    assert Below("A", "B");
    SortedSetFixpoint(["A", "B"]);
    KeyIsNode(ExampleDigests(), ["A", "B"]);
  }

  lemma ParallelIsUsable()
    ensures Usable(ExampleDigests(), ParallelThenNext()[0], JOB)
  {
    ParallelIsStage();
    assert BeforeColon(JOB) == JOB;
  }

  lemma AsMapOfTwo(a: string, x: string, b: string, y: string)
    requires a != b
    ensures AsMap([(a, x), (b, y)]) == map[a := x, b := y]
  {
    assert [(a, x), (b, y)][..1] == [(a, x)];
    assert [(a, x)][..0] == [];
    assert AsMap([(a, x)]) == map[a := x];
  }

  lemma CompletionsDiffer()
    ensures AsMap(Before()) == map["A" := Hex('a'), "B" := Hex('a')]
    ensures AsMap(Later()) == map["A" := Hex('b'), "B" := Hex('a')]
    ensures Hex('a') != Hex('b')
  {
    AsMapOfTwo("A", Hex('a'), "B", Hex('a'));
    AsMapOfTwo("A", Hex('b'), "B", Hex('a'));
    assert Hex('a')[0] != Hex('b')[0];
  }

  lemma TokensDiffer()
    ensures !ProgressCollides(ExampleDigests(), ParallelThenNext()[0].value, ParallelThenNext()[1].value)
  {
    var d, members := ExampleDigests(), ["A", "B"];
    CompletionsDiffer();
    assert Pairs(AsMap(Before()), members)[0].1 == Hex('a');
    assert Pairs(AsMap(Later()), members)[0].1 == Hex('b');
  }

  lemma OneMemberProgressed()
    ensures Progressed(ParallelThenNext()[0].value, ParallelThenNext()[1].value)
  {
    CompletionsDiffer();
    assert "A" in ParallelThenNext()[0].value.members;
  }

  /** One new completion of two is proof enough: the count starts over. */
  lemma OneMemberSuffices()
    ensures WellFormed(ExampleDigests())
    ensures AsMap(Before()) == map["A" := Hex('a'), "B" := Hex('a')]
    ensures AsMap(Later()) == map["A" := Hex('b'), "B" := Hex('a')]
    ensures CountAt(ExampleDigests(), JOB, FRESH, ParallelThenNext(), 2) == 1
  {
    var first, second := ParallelThenNext()[0].value, ParallelThenNext()[1].value;
    DigestsAreWellFormed();
    ParallelIsUsable();
    SingleIsUsable("C", "2", Later());
    CompletionsDiffer();
    OneMemberProgressed();
    TokensDiffer();
    assert first.node[0] != second.node[0];
    SecondFailure(ExampleDigests(), first, second);
  }

  // ----- a ledger from before receipts named members

  function OldLedger(): Ledger {
    Ledger(1, Hex('a'), 2, map["A" := 2], Last("A", "1", NullToken, NoMembers))
  }

  lemma OldLedgerIsAccepted(r: Receipt)
    requires r.scope == Hex('a')
    ensures LedgerMembers(ExampleDigests(), OldLedger().last) == Some(["A"])
    ensures Accepted(ExampleDigests(), Stored(OldLedger()), r, 3)
  {
    SortedSetFixpoint(["A"]);
    TotalAfterUpdate(map[], "A", 2);
    assert map["A" := 2] == map[]["A" := 2];
    assert |map["A" := 2]| == 1;
  }

  function AfterOldLedger(): Receipt {
    On("C", "2", [("A", Hex('a'))], ["C"])
  }

  lemma OldLedgerIsProven()
    ensures LedgerMembers(ExampleDigests(), OldLedger().last) == Some(["A"])
    ensures Proven(ExampleDigests(), OldLedger().last, AfterOldLedger())
  {
    OldLedgerIsAccepted(AfterOldLedger());
    var completed := [("A", Hex('a'))];
    assert completed[..0] == [];
    assert AsMap(completed) == map["A" := Hex('a')];
  }

  lemma OldLedgerCount()
    ensures Usable(ExampleDigests(), Some(AfterOldLedger()), JOB)
    ensures ChargeFailure(ExampleDigests(), Stored(OldLedger()), Some(AfterOldLedger()), JOB, 3).count == 1
  {
    OldLedgerIsAccepted(AfterOldLedger());
    OldLedgerIsProven();
    SingleIsUsable("C", "2", [("A", Hex('a'))]);
    assert |map["A" := 2]| == 1 && "C"[0] != "A"[0];
  }

  lemma AfterOldLedgerIsAttached()
    ensures Some(AfterOldLedger()) == Attach(ExampleDigests(), true, JOB, Some(Plain("2", Seen([("A", Hex('a'))]))),
            ["C"])
  {
    SeenIsCompleted([("A", Hex('a'))]);
    PlainReceipt("C", "2", Seen([("A", Hex('a'))]));
  }

  /**
   A job that starts with such a ledger continues it: the stage it failed on last has
   completed, so the next one starts over at 1.
   */
  lemma OldLedgerIsContinued()
    ensures WellFormed(ExampleDigests()) && Sound(Start(Stored(OldLedger()), 2))
    ensures Some(AfterOldLedger()) == Attach(ExampleDigests(), true, JOB, Some(Plain("2", Seen([("A", Hex('a'))]))),
            ["C"])
    ensures CountAt(ExampleDigests(), JOB, Start(Stored(OldLedger()), 2), [Some(AfterOldLedger())], 1) == 1
  {
    DigestsAreWellFormed();
    AfterOldLedgerIsAttached();
    OldLedgerCount();
  }
}
